/** Character-level helpers shared by `lineman.c` and `loc.c`: the C-locale
    whitespace test, the blank-line test, ASCII lower-casing, marker
    matching (`strncmp` against a marker), `strrchr` and the binary-file
    probe. Lines are `seq<char>` without the terminating NUL. */
module Text {
  import opened Optional

  /** A byte as delivered by `fread`. */
  newtype byte = x: int | 0 <= x < 256

  /** How many leading bytes `is_text_file` inspects (`IO_BUFFER_SIZE`). */
  const ProbeSize: nat := 512

  /** `isspace` in the C locale: space, tab, newline, vertical tab, form feed, carriage return. */
  predicate IsSpace(c: char) {
    c == ' ' || c == '\t' || c == '\n' || c == '\U{000B}' || c == '\U{000C}' || c == '\r'
  }

  /** A line made only of whitespace; the empty line is blank. */
  predicate IsBlank(s: string) {
    forall k :: 0 <= k < |s| ==> IsSpace(s[k])
  }

  /** `is_blank`: walks the line and stops at the first non-space character. */
  method IsBlankLine(s: string) returns (blank: bool)
    ensures blank <==> IsBlank(s)
  {
    var i := 0;
    while i < |s|
      invariant 0 <= i <= |s|
      invariant forall k :: 0 <= k < i ==> IsSpace(s[k])
    {
      if !IsSpace(s[i]) {
        return false;
      }
      i := i + 1;
    }
    return true;
  }

  /** `tolower` in the C locale: only 'A'..'Z' change. */
  function Lower(c: char): char {
    if 'A' <= c <= 'Z' then (c as int + 32) as char else c
  }

  function LowerString(s: string): (r: string)
    ensures |r| == |s|
  {
    seq(|s|, k requires 0 <= k < |s| => Lower(s[k]))
  }

  /** `strncmp(s + i, m, strlen(m)) == 0`: the marker occurs at position `i`. */
  predicate MatchAt(s: string, i: nat, m: string) {
    i + |m| <= |s| && s[i..i + |m|] == m
  }

  /** `strrchr`: the position of the last occurrence of `c`, if any. */
  function LastIndexOf(s: string, c: char): (r: Option<nat>)
    ensures r.None? <==> (forall k :: 0 <= k < |s| ==> s[k] != c)
    ensures r.Some? ==> r.value < |s| && s[r.value] == c
    ensures r.Some? ==> forall k :: r.value < k < |s| ==> s[k] != c
    decreases |s|
  {
    if |s| == 0 then None
    else if s[|s| - 1] == c then Some(|s| - 1)
    else LastIndexOf(s[..|s| - 1], c)
  }

  /** What `strncpy` into a buffer of `n + 1` characters keeps: at most `n` characters. */
  function Truncate(s: string, n: nat): (r: string)
    ensures |r| <= n && |r| <= |s| && r == s[..|r|]
    ensures |r| == (if |s| <= n then |s| else n)
  {
    if |s| <= n then s else s[..n]
  }

  /** The bytes that `fread` puts into the probe buffer are clear of NUL. */
  predicate NoZeroInProbe(content: seq<byte>) {
    forall k :: 0 <= k < |content| && k < ProbeSize ==> content[k] != 0
  }

  /** `is_text_file`: `None` stands for a file that `fopen(path, "rb")`
      could not open; otherwise the file's bytes, of which only the first
      `ProbeSize` are inspected. */
  method IsTextFile(file: Option<seq<byte>>) returns (text: bool)
    ensures text <==> file.Some? && NoZeroInProbe(file.value)
  {
    if file.None? {
      return false;
    }
    var content := file.value;
    var n := if |content| < ProbeSize then |content| else ProbeSize;
    var i := 0;
    while i < n
      invariant 0 <= i <= n
      invariant forall k :: 0 <= k < i ==> content[k] != 0
    {
      if content[i] == 0 {
        return false;
      }
      i := i + 1;
    }
    return true;
  }

  /** Whether `count_file` gets past its two early returns: the file opens
      for the probe, the probe holds no zero byte, and the file opens for
      reading (`lines` is what `fgets` then reads, None when `fopen` fails). */
  predicate Scannable(file: Option<seq<byte>>, lines: Option<seq<string>>) {
    file.Some? && NoZeroInProbe(file.value) && lines.Some?
  }

  lemma LowerIdempotent(c: char)
    ensures Lower(Lower(c)) == Lower(c)
  {
  }

  /** Lower-casing never creates or removes a given non-letter character, such as '.' or '/'. */
  lemma LowerKeepsNonLetter(c: char, d: char)
    requires !('A' <= d <= 'Z') && !('a' <= d <= 'z')
    ensures Lower(c) == d <==> c == d
  {
  }
}
