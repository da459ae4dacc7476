/** `loc.c`: a second, hard-wired line counter. Its `count_file` inlines
    a classifier with the fixed markers "//", "/*" and "*/", and decides a
    line by whether code was seen, not by the block flag at its end. */
module Loc {
  import opened Optional
  import opened Text
  import opened Counting

  /** The loop's variables when the character scan of a line ends:
      `in_block_comment`, `code_seen` and `comment_only`. */
  datatype ScanEnd = ScanEnd(inBlock: bool, codeSeen: bool, commentOnly: bool)

  /** `p[0] == a && p[1] == b`; at the last character `p[1]` is the NUL
      terminator, which is neither `a` nor `b`, so there is no match. */
  function PairAt(line: string, i: nat, a: char, b: char): (r: bool)
    ensures r <==> i + 2 <= |line| && line[i..i + 2] == [a, b]
  {
    i + 1 < |line| && line[i] == a && line[i + 1] == b
  }

  /** The inner `while (*p)` loop from position `i` on. */
  function Scan(line: string, i: nat, inBlock: bool, codeSeen: bool, commentOnly: bool): ScanEnd
    requires i <= |line|
    decreases |line| - i
  {
    if i == |line| then ScanEnd(inBlock, codeSeen, commentOnly)
    else if inBlock then
      if PairAt(line, i, '*', '/') then Scan(line, i + 2, false, codeSeen, commentOnly)
      else Scan(line, i + 1, true, codeSeen, commentOnly)
    else if PairAt(line, i, '/', '*') then Scan(line, i + 2, true, codeSeen, commentOnly)
    else if PairAt(line, i, '/', '/') then ScanEnd(false, codeSeen, commentOnly)
    else if !IsSpace(line[i]) then Scan(line, i + 1, false, true, false)
    else Scan(line, i + 1, false, codeSeen, commentOnly)
  }

  /** The `if` / `else if` / `else` that picks the counter of a non-blank line. */
  function Decide(e: ScanEnd): LineKind {
    if e.inBlock && e.commentOnly then Comment
    else if e.codeSeen then Code
    else Comment
  }

  /** The kind of one line and the block flag after it. */
  function Classify(line: string, inBlock: bool): (res: Classified)
    ensures res.kind == Empty <==> IsBlank(line)
    ensures IsBlank(line) ==> res.inBlock == inBlock
  {
    if IsBlank(line) then Classified(Empty, inBlock)
    else
      var e := Scan(line, 0, inBlock, false, true);
      Classified(Decide(e), e.inBlock)
  }

  /** `comment_only` starts as the negation of `code_seen` and the two only
      ever change together, so the scan ends with them still opposite. */
  lemma {:induction false} CommentOnlyIsNotCodeSeen(line: string, i: nat, inBlock: bool, codeSeen: bool)
    requires i <= |line|
    ensures Scan(line, i, inBlock, codeSeen, !codeSeen).commentOnly == !Scan(line, i, inBlock, codeSeen, !codeSeen).codeSeen
    decreases |line| - i
  {
    if i < |line| {
      if inBlock {
        if PairAt(line, i, '*', '/') {
          CommentOnlyIsNotCodeSeen(line, i + 2, false, codeSeen);
        } else {
          CommentOnlyIsNotCodeSeen(line, i + 1, true, codeSeen);
        }
      } else if PairAt(line, i, '/', '*') {
        CommentOnlyIsNotCodeSeen(line, i + 2, true, codeSeen);
      } else if !PairAt(line, i, '/', '/') {
        CommentOnlyIsNotCodeSeen(line, i + 1, false, codeSeen || !IsSpace(line[i]));
      }
    }
  }

  /** A non-blank line is code exactly when a non-space character was seen
      outside comments, whatever the block flag at its end. */
  lemma CodeIffCodeSeen(line: string, inBlock: bool)
    requires !IsBlank(line)
    ensures Classify(line, inBlock).kind == (if Scan(line, 0, inBlock, false, true).codeSeen then Code else Comment)
  {
    CommentOnlyIsNotCodeSeen(line, 0, inBlock, false);
  }

  /** Inside a block, a scan that meets no "*" followed by "/" sees no code and stays in the block. */
  lemma {:induction false} StayInBlock(line: string, i: nat, codeSeen: bool)
    requires i <= |line|
    requires forall k :: i <= k < |line| ==> !PairAt(line, k, '*', '/')
    ensures Scan(line, i, true, codeSeen, !codeSeen) == ScanEnd(true, codeSeen, !codeSeen)
    decreases |line| - i
  {
    if i < |line| {
      StayInBlock(line, i + 1, codeSeen);
    }
  }

  /** A non-blank line lying wholly inside an open block is a comment, and the block stays open. */
  lemma WholeLineInBlock(line: string)
    requires !IsBlank(line)
    requires forall k :: 0 <= k < |line| ==> !PairAt(line, k, '*', '/')
    ensures Classify(line, true) == Classified(Comment, true)
  {
    StayInBlock(line, 0, false);
  }

  /** Outside a block, a run of characters none of which is '/' is scanned
      one at a time: it shows code exactly when it holds a non-space. */
  lemma {:induction false} PlainRun(line: string, i: nat, j: nat, codeSeen: bool, commentOnly: bool)
    requires i <= j <= |line|
    requires forall k :: i <= k < j ==> line[k] != '/'
    ensures Scan(line, i, false, codeSeen, commentOnly) ==
      Scan(line, j, false, codeSeen || !IsBlank(line[i..j]), commentOnly && IsBlank(line[i..j]))
    decreases j - i
  {
    if i < j {
      var c := !IsSpace(line[i]);
      PlainRun(line, i + 1, j, codeSeen || c, commentOnly && !c);
      assert IsBlank(line[i..j]) <==> IsSpace(line[i]) && IsBlank(line[i + 1..j]) by {
        assert line[i..j] == [line[i]] + line[i + 1..j];
      }
    }
  }

  /** Code and then an unterminated block: `loc.c` counts the line as code, with the block left open. */
  lemma ExampleCodeThenOpenBlock()
    ensures Classify("int x; /* open", false) == Classified(Code, true)
  {
    var l := "int x; /* open";
    assert !IsBlank(l) by { assert !IsSpace(l[0]); }
    assert Scan(l, 0, false, false, true) == Scan(l, 7, false, true, false) by {
      PlainRun(l, 0, 7, false, true);
      assert l[0..7][0] == 'i';
    }
    assert Scan(l, 7, false, true, false) == Scan(l, 9, true, true, false);
    StayInBlock(l, 9, true);
  }

  /** The kinds of the first `n` of a file's lines, `in_block_comment`
      carried from line to line. */
  function Run(lines: seq<string>, n: nat, start: bool): (p: Pass)
    requires n <= |lines|
    ensures |p.kinds| == n
  {
    if n == 0 then Pass([], start)
    else
      var before := Run(lines, n - 1, start);
      var c := Classify(lines[n - 1], before.inBlock);
      Pass(before.kinds + [c.kind], c.inBlock)
  }

  /** The counters of one file: `in_block_comment` starts at 0 for every file. */
  function FileCounts(lines: seq<string>): LineCounts {
    Tally(Run(lines, |lines|, false).kinds)
  }

  /** The character loop `while (*p)` that `count_file` runs on each
      non-blank line: `inBlock` is `in_block_comment` before it, the results
      the three variables after it. */
  method ScanChars(line: string, inBlock: bool) returns (blockAfter: bool, codeSeen: bool, commentOnly: bool)
    ensures ScanEnd(blockAfter, codeSeen, commentOnly) == Scan(line, 0, inBlock, false, true)
  {
    blockAfter, codeSeen, commentOnly := inBlock, false, true;
    var p := 0;
    while p < |line|
      invariant 0 <= p <= |line|
      invariant Scan(line, p, blockAfter, codeSeen, commentOnly) == Scan(line, 0, inBlock, false, true)
    {
      if blockAfter {
        if p + 1 < |line| && line[p] == '*' && line[p + 1] == '/' {
          blockAfter := false;
          p := p + 2;
        } else {
          p := p + 1;
        }
      } else if p + 1 < |line| && line[p] == '/' && line[p + 1] == '*' {
        blockAfter := true;
        p := p + 2;
      } else if p + 1 < |line| && line[p] == '/' && line[p + 1] == '/' {
        break;
      } else {
        if !IsSpace(line[p]) {
          codeSeen := true;
          commentOnly := false;
        }
        p := p + 1;
      }
    }
  }

  /** The body of the line loop of `count_file`: the blank test, then the
      character loop and the choice of counter; `inBlock` is
      `in_block_comment` before the line and `blockAfter` after it. */
  method ClassifyLine(line: string, inBlock: bool) returns (kind: LineKind, blockAfter: bool)
    ensures Classified(kind, blockAfter) == Classify(line, inBlock)
  {
    var blank := IsBlankLine(line);
    if blank {
      return Empty, inBlock;
    }
    var codeSeen, commentOnly;
    blockAfter, codeSeen, commentOnly := ScanChars(line, inBlock);
    if blockAfter && commentOnly {
      kind := Comment;
    } else if codeSeen {
      kind := Code;
    } else {
      kind := Comment;
    }
  }

  /** The line loop of `count_file`: `in_block_comment` starts at 0 and is
      carried from line to line; each line bumps one counter. */
  method CountLines(lines: seq<string>) returns (local: LineCounts)
    ensures local == FileCounts(lines)
    ensures Sum(local) == |lines|
  {
    local := Zero;
    var inBlockComment := false;
    var n := 0;
    while n < |lines|
      invariant 0 <= n <= |lines|
      invariant Run(lines, n, false).inBlock == inBlockComment
      invariant local == Tally(Run(lines, n, false).kinds)
    {
      ghost var before := Run(lines, n, false);
      ghost var counted := local;
      var kind;
      kind, inBlockComment := ClassifyLine(lines[n], inBlockComment);
      TallySnoc(before.kinds, kind);
      if kind == Empty {
        local := local.(empty := local.empty + 1);
      } else if kind == Comment {
        local := local.(comment := local.comment + 1);
      } else {
        local := local.(code := local.code + 1);
      }
      assert local == Bump(counted, kind);
      n := n + 1;
    }
    TallySum(Run(lines, |lines|, false).kinds);
  }

  /** `count_file` of `loc.c`: a skipped file leaves the total alone; a
      scanned one adds exactly its own counters. */
  method CountFile(file: Option<seq<byte>>, lines: Option<seq<string>>, total: LineCounts)
    returns (newTotal: LineCounts)
    ensures !Scannable(file, lines) ==> newTotal == total
    ensures Scannable(file, lines) ==>
      newTotal == Plus(total, FileCounts(lines.value)) && Sum(newTotal) == Sum(total) + |lines.value|
  {
    var text := IsTextFile(file);
    if !text || lines.None? {
      return total;
    }
    var local := CountLines(lines.value);
    newTotal := Plus(total, local);
  }
}
