/** The comment-rule table of `lineman.c` and its lookup by file extension. */
module Rules {
  import opened Optional
  import opened Text

  /** `CommentRule`: the extension it applies to (absent for the fallback
      rule), and the optional line marker and block-start / block-end pair. */
  datatype CommentRule = CommentRule(
    ext: Option<string>,
    line: Option<string>,
    blockStart: Option<string>,
    blockEnd: Option<string>)

  /** `MAX_EXT_LEN`: the extension buffer keeps at most `MaxExtLen - 1` characters. */
  const MaxExtLen: nat := 16

  /** The static table `rules[]`, in its order. */
  const Table: seq<CommentRule> := [
    CommentRule(Some("c"),     Some("//"), Some("/*"), Some("*/")),
    CommentRule(Some("cpp"),   Some("//"), Some("/*"), Some("*/")),
    CommentRule(Some("cs"),    Some("//"), Some("/*"), Some("*/")),
    CommentRule(Some("go"),    Some("//"), Some("/*"), Some("*/")),
    CommentRule(Some("java"),  Some("//"), Some("/*"), Some("*/")),
    CommentRule(Some("js"),    Some("//"), Some("/*"), Some("*/")),
    CommentRule(Some("kt"),    Some("//"), Some("/*"), Some("*/")),
    CommentRule(Some("php"),   Some("//"), Some("/*"), Some("*/")),
    CommentRule(Some("rs"),    Some("//"), Some("/*"), Some("*/")),
    CommentRule(Some("swift"), Some("//"), Some("/*"), Some("*/")),
    CommentRule(Some("ts"),    Some("//"), Some("/*"), Some("*/")),
    CommentRule(Some("py"),    Some("#"),  None, None),
    CommentRule(Some("rb"),    Some("#"),  Some("=begin"), Some("=end")),
    CommentRule(Some("sh"),    Some("#"),  None, None),
    CommentRule(Some("r"),     Some("#"),  None, None),
    CommentRule(Some("yml"),   Some("#"),  None, None),
    CommentRule(Some("txt"),   Some("#"),  None, None),
    CommentRule(Some("sql"),   Some("--"), Some("/*"), Some("*/")),
    CommentRule(Some("lua"),   Some("--"), Some("--[["), Some("]]")),
    CommentRule(Some("html"),  None, Some("<!--"), Some("-->")),
    CommentRule(Some("xml"),   None, Some("<!--"), Some("-->")),
    CommentRule(Some("svg"),   None, Some("<!--"), Some("-->"))
  ]

  /** `fallback_rule`, for files whose extension is missing or unknown. */
  const Fallback := CommentRule(None, Some("//"), Some("/*"), Some("*/"))

  /** Markers are non-empty. This is what lets every step of the scan move
      forward; in the C loop only a rule whose block start and block end are
      both empty would spin, and no rule of the table is of that kind. */
  predicate WellFormed(r: CommentRule) {
    (r.line.Some? ==> |r.line.value| > 0) &&
    (r.blockStart.Some? ==> |r.blockStart.value| > 0) &&
    (r.blockEnd.Some? ==> |r.blockEnd.value| > 0)
  }

  /** A block start comes with a block end and vice versa. */
  predicate Paired(r: CommentRule) {
    r.blockStart.Some? <==> r.blockEnd.Some?
  }

  /** Every rule of the table, and the fallback rule, is well formed and
      paired; table entries carry distinct extensions. */
  lemma TableInvariants()
    ensures forall i :: 0 <= i < |Table| ==> WellFormed(Table[i]) && Paired(Table[i]) && Table[i].ext.Some?
    ensures WellFormed(Fallback) && Paired(Fallback)
    ensures forall i, j :: 0 <= i < j < |Table| ==> Table[i].ext != Table[j].ext
  {
    TableDistinct();
  }

  lemma TableDistinct()
    ensures forall i, j :: 0 <= i < j < |Table| ==> Table[i].ext != Table[j].ext
  {
    forall i, j | 0 <= i < j < |Table|
      ensures Table[i].ext != Table[j].ext
    {
      var e, f := Table[i].ext.value, Table[j].ext.value;
      assert |e| != |f| || e[0] != f[0] || e[|e| - 1] != f[|f| - 1] || e[1] != f[1];
    }
  }

  /** The lookup key of `get_rule_for_file` and `count_file_type`: none when
      the path has no '.' or its last '.' is its first character; otherwise
      the text after the last '.' of the whole path, cut to 15 characters and
      lower-cased. */
  function ExtensionKey(path: string): Option<string> {
    match LastIndexOf(path, '.')
    case None => None
    case Some(dot) =>
      if dot == 0 then None
      else Some(LowerString(Truncate(path[dot + 1..], MaxExtLen - 1)))
  }

  /** The first table entry from index `i` on whose extension is `key`, else the fallback rule. */
  function LookupFrom(key: string, i: nat): CommentRule
    requires i <= |Table|
    decreases |Table| - i
  {
    if i == |Table| then Fallback
    else if Table[i].ext == Some(key) then Table[i]
    else LookupFrom(key, i + 1)
  }

  /** The rule `get_rule_for_file` returns for `path`. */
  function RuleFor(path: string): (r: CommentRule)
    ensures WellFormed(r) && Paired(r)
    ensures r == Fallback || (r in Table && r.ext == ExtensionKey(path))
  {
    TableInvariants();
    match ExtensionKey(path)
    case None => Fallback
    case Some(key) => LookupResult(key, 0); LookupFrom(key, 0)
  }

  lemma {:induction false} LookupResult(key: string, i: nat)
    requires i <= |Table|
    ensures LookupFrom(key, i) == Fallback || (LookupFrom(key, i) in Table[i..] && LookupFrom(key, i).ext == Some(key))
    decreases |Table| - i
  {
    if i < |Table| && Table[i].ext != Some(key) {
      LookupResult(key, i + 1);
    }
  }

  /** A path without an extension, or whose only '.' leads it (".gitignore"), gets the fallback rule. */
  lemma RuleForNoExtension(path: string)
    requires (forall k :: 0 <= k < |path| ==> path[k] != '.') || LastIndexOf(path, '.') == Some(0)
    ensures RuleFor(path) == Fallback
  {
  }

  /** When the key names a table entry, that entry is the rule. */
  lemma {:induction false} RuleForKnown(path: string, i: nat)
    requires i < |Table| && ExtensionKey(path) == Table[i].ext
    ensures RuleFor(path) == Table[i]
  {
    TableInvariants();
    var key := ExtensionKey(path).value;
    LookupSkips(key, 0, i);
  }

  lemma {:induction false} LookupSkips(key: string, j: nat, i: nat)
    requires j <= i < |Table| && Table[i].ext == Some(key)
    requires forall k :: j <= k < i ==> Table[k].ext != Some(key)
    ensures LookupFrom(key, j) == Table[i]
    decreases i - j
  {
    if j < i {
      LookupSkips(key, j + 1, i);
    }
  }

  /** When no table entry carries the key, the fallback rule applies. */
  lemma {:induction false} RuleForUnknown(path: string)
    requires ExtensionKey(path).Some?
    requires forall i :: 0 <= i < |Table| ==> Table[i].ext != ExtensionKey(path)
    ensures RuleFor(path) == Fallback
  {
    LookupMisses(ExtensionKey(path).value, 0);
  }

  lemma {:induction false} LookupMisses(key: string, j: nat)
    requires j <= |Table|
    requires forall i :: j <= i < |Table| ==> Table[i].ext != Some(key)
    ensures LookupFrom(key, j) == Fallback
    decreases |Table| - j
  {
    if j < |Table| {
      LookupMisses(key, j + 1);
    }
  }

  /** Lower-casing a path does not change its key. */
  lemma ExtensionKeyOfLower(path: string)
    ensures ExtensionKey(LowerString(path)) == ExtensionKey(path)
  {
    var low := LowerString(path);
    forall k | 0 <= k < |path|
      ensures low[k] == '.' <==> path[k] == '.'
    {
      LowerKeepsNonLetter(path[k], '.');
    }
    var a, b := LastIndexOf(path, '.'), LastIndexOf(low, '.');
    assert a.Some? <==> b.Some?;
    if a.Some? {
      assert a.value == b.value;
    }
    if a.Some? && a.value != 0 {
      var dot := a.value;
      var t, u := Truncate(path[dot + 1..], MaxExtLen - 1), Truncate(low[dot + 1..], MaxExtLen - 1);
      assert |t| == |u|;
      forall k | 0 <= k < |t|
        ensures LowerString(u)[k] == LowerString(t)[k]
      {
        assert u[k] == low[dot + 1 + k] == Lower(path[dot + 1 + k]) && t[k] == path[dot + 1 + k];
        LowerIdempotent(t[k]);
      }
      assert LowerString(u) == LowerString(t);
    }
  }

  /** The key comes from the last '.' of the whole path, so a '.' in a
      directory name yields a key holding a '/': such a file gets the
      fallback rule, and its key is what the histogram records. */
  lemma DotInDirectory()
    ensures ExtensionKey("../proj/Makefile") == Some("/proj/makefile")
    ensures RuleFor("../proj/Makefile") == Fallback
  {
    var p := "../proj/Makefile";
    assert p[1] == '.';
    assert LastIndexOf(p, '.') == Some(1);
    var t := Truncate(p[2..], MaxExtLen - 1);
    assert t == "/proj/Makefile";
    var low := LowerString(t);
    assert low == "/proj/makefile" by {
      assert |low| == 14;
      forall k | 0 <= k < 14
        ensures low[k] == "/proj/makefile"[k]
      {
      }
    }
    forall i | 0 <= i < |Table|
      ensures Table[i].ext != Some(low)
    {
      assert Table[i].ext.value[0] != '/';
    }
    RuleForUnknown(p);
  }

  /** Extension lookup is insensitive to ASCII case: "FOO.PY" and "foo.py" get the same rule. */
  lemma RuleForCaseInsensitive(p: string, q: string)
    requires LowerString(p) == LowerString(q)
    ensures RuleFor(p) == RuleFor(q)
  {
    ExtensionKeyOfLower(p);
    ExtensionKeyOfLower(q);
  }

  /** The lower-casing and truncation `get_rule_for_file` and
      `count_file_type` both do: `strrchr` for the last '.', `strncpy` of at
      most 15 characters, then a `tolower` loop over the buffer. */
  method ExtensionOf(path: string) returns (key: Option<string>)
    ensures key == ExtensionKey(path)
  {
    var dot := LastIndexOf(path, '.');
    if dot.None? || dot.value == 0 {
      return None;
    }
    ghost var copied := Truncate(path[dot.value + 1..], MaxExtLen - 1);
    var ext := Truncate(path[dot.value + 1..], MaxExtLen - 1);
    var i := 0;
    while i < |ext|
      invariant 0 <= i <= |ext| == |copied|
      invariant forall k :: 0 <= k < i ==> ext[k] == Lower(copied[k])
      invariant forall k :: i <= k < |ext| ==> ext[k] == copied[k]
    {
      ext := ext[i := Lower(ext[i])];
      i := i + 1;
    }
    assert ext == LowerString(copied);
    return Some(ext);
  }

  /** `get_rule_for_file`: the extension key, then a linear search of the table. */
  method GetRuleForFile(path: string) returns (r: CommentRule)
    ensures r == RuleFor(path)
  {
    var key := ExtensionOf(path);
    if key.None? {
      return Fallback;
    }
    var i := 0;
    while i < |Table|
      invariant 0 <= i <= |Table|
      invariant LookupFrom(key.value, i) == LookupFrom(key.value, 0)
    {
      if Table[i].ext == key {
        return Table[i];
      }
      i := i + 1;
    }
    return Fallback;
  }
}
