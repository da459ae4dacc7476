/** The per-file part of `lineman.c`: classifying a file's lines in order
    with the block flag carried across them, and `count_file`, whose former
    globals (the histogram, the last directory shown, the base path and the
    column width) are the fields of a `Session`. */
module Lineman {
  import opened Optional
  import opened Text
  import opened Counting
  import opened Rules
  import opened Classifier
  import opened FileTypes
  import opened Layout

  /** Classifying the first `n` of `lines` one after another, starting with
      block flag `start`; each line sees the flag the previous one left. */
  function Run(lines: seq<string>, n: nat, start: bool, r: CommentRule): (p: Pass)
    requires WellFormed(r) && n <= |lines|
    ensures |p.kinds| == n
  {
    if n == 0 then Pass([], start)
    else
      var before := Run(lines, n - 1, start, r);
      var c := Classify(lines[n - 1], before.inBlock, r);
      Pass(before.kinds + [c.kind], c.inBlock)
  }

  /** The counters of one file: every file starts outside a block comment. */
  function FileCounts(lines: seq<string>, r: CommentRule): LineCounts
    requires WellFormed(r)
  {
    Tally(Run(lines, |lines|, false, r).kinds)
  }

  /** Line `j` is classified with the flag the lines before it leave. */
  lemma {:induction false} RunLine(lines: seq<string>, n: nat, start: bool, r: CommentRule, j: nat)
    requires WellFormed(r) && j < n <= |lines|
    ensures Run(lines, n, start, r).kinds[j] == Classify(lines[j], Run(lines, j, start, r).inBlock, r).kind
  {
    if j < n - 1 {
      RunLine(lines, n - 1, start, r, j);
    }
  }

  /** Once a block is open and no later line holds its end marker, every
      non-blank line is a comment, blank lines stay empty, and the block is
      still open at the end. */
  lemma {:induction false} OpenBlockPersists(lines: seq<string>, n: nat, r: CommentRule)
    requires WellFormed(r) && n <= |lines|
    requires r.blockEnd.None? ||
      forall j, k :: 0 <= j < n && 0 <= k < |lines[j]| ==> !MatchAt(lines[j], k, r.blockEnd.value)
    ensures Run(lines, n, true, r).inBlock
    ensures forall j :: 0 <= j < n ==>
      Run(lines, n, true, r).kinds[j] == (if IsBlank(lines[j]) then Empty else Comment)
  {
    if n > 0 {
      var last := lines[n - 1];
      OpenBlockPersists(lines, n - 1, r);
      if !IsBlank(last) {
        WholeLineInBlock(last, r);
      }
    }
  }

  /** The counting loop of `count_file`: `in_block` starts at 0 and is
      threaded through `classify_line`; each kind bumps its counter. */
  method CountLines(lines: seq<string>, r: CommentRule) returns (local: LineCounts)
    requires WellFormed(r)
    ensures local == FileCounts(lines, r)
    ensures Sum(local) == |lines|
  {
    local := Zero;
    var inBlock := false;
    var i := 0;
    while i < |lines|
      invariant 0 <= i <= |lines|
      invariant Run(lines, i, false, r).inBlock == inBlock
      invariant local == Tally(Run(lines, i, false, r).kinds)
    {
      ghost var before := Run(lines, i, false, r);
      ghost var counted := local;
      var kind;
      kind, inBlock := ClassifyLine(lines[i], inBlock, r);
      TallySnoc(before.kinds, kind);
      if kind == Empty {
        local := local.(empty := local.empty + 1);
      } else if kind == Comment {
        local := local.(comment := local.comment + 1);
      } else {
        local := local.(code := local.code + 1);
      }
      assert local == Bump(counted, kind);
      i := i + 1;
    }
    TallySum(Run(lines, |lines|, false, r).kinds);
  }

  /** The state `lineman.c` keeps in globals while it walks a tree. */
  class Session {
    /** `file_types` and `file_type_count`. */
    const types: FileTypeTable
    /** `last_dir`: the directory of the file shown last. */
    var lastDir: string
    /** `base_path` and `base_len`. */
    const basePath: string
    const baseLen: nat
    /** `path_column_width`. */
    const pathColumnWidth: int

    ghost predicate Valid()
      reads this, types, types.entries
    {
      types.Valid() && baseLen <= |basePath| && pathColumnWidth >= 3
    }

    /** The start of `main`: the argument with one trailing '/' trimmed off
        its length, the column width for the terminal width the `ioctl`
        query reported (`None` when it failed), an empty histogram and no
        directory shown yet. */
    constructor (argument: string, reported: Option<int>)
      ensures Valid() && fresh(types) && fresh(types.entries)
      ensures basePath == argument && baseLen == TrimmedBaseLength(argument)
      ensures pathColumnWidth == PathColumnWidth(TerminalWidth(reported))
      ensures lastDir == "" && types.Histogram() == []
    {
      types := new FileTypeTable();
      lastDir := "";
      basePath := argument;
      baseLen := TrimmedBaseLength(argument);
      pathColumnWidth := PathColumnWidth(TerminalWidth(reported));
    }

    /** `count_file`: `file` is what `fopen(path, "rb")` gives (None when it
        fails), `lines` what `fgets` reads from `fopen(path, "r")`, and
        `total`/`newTotal` are `*total` before and after. A skipped file
        changes nothing; a scanned one adds its counters to the total, is
        recorded once in the histogram and becomes the last directory shown. */
    method CountFile(path: string, file: Option<seq<byte>>, lines: Option<seq<string>>, total: LineCounts)
      returns (newTotal: LineCounts)
      requires Valid()
      modifies this, types, types.entries
      ensures Valid() && types.entries == old(types.entries)
      ensures !Scannable(file, lines) ==>
        newTotal == total && types.Histogram() == old(types.Histogram()) && lastDir == old(lastDir)
      ensures Scannable(file, lines) ==>
        newTotal == Plus(total, FileCounts(lines.value, RuleFor(path))) &&
        Sum(newTotal) == Sum(total) + |lines.value| &&
        types.Histogram() == Record(old(types.Histogram()), ExtensionKey(path)) &&
        lastDir == DirName(StripBase(path, basePath, baseLen))
    {
      var text := IsTextFile(file);
      if !text || lines.None? {
        return total;
      }
      var rule := GetRuleForFile(path);
      var local := CountLines(lines.value, rule);
      types.CountFileType(path);
      var out := StripBase(path, basePath, baseLen);
      var currDir := DirName(out);
      if currDir != lastDir {
        lastDir := currDir;
      }
      newTotal := Plus(total, local);
    }
  }
}
