/** How `lineman.c`'s table-driven classifier, given the C-style markers,
    relates to `loc.c`'s hard-wired one: they track the block flag
    identically and differ only at the end of a line that has code and is
    left inside an open block, which `lineman.c` counts as a comment and
    `loc.c` as code. */
module Variants {
  import opened Optional
  import opened Text
  import opened Counting
  import opened Rules
  import Classifier
  import Lineman
  import Loc

  /** The markers `loc.c` hard-wires: "//", "/*" and "*/". */
  predicate SlashMarkers(r: CommentRule) {
    r.line == Some("//") && r.blockStart == Some("/*") && r.blockEnd == Some("*/")
  }

  lemma MatchTwo(line: string, i: nat, m: string)
    requires |m| == 2
    ensures MatchAt(line, i, m) <==> Loc.PairAt(line, i, m[0], m[1])
  {
    if i + 2 <= |line| && line[i] == m[0] && line[i + 1] == m[1] {
      assert line[i..i + 2] == m;
    }
  }

  /** Scanning from the same place and state, the two scans end in the same
      block state; `lineman.c`'s result is `loc.c`'s with the block flag
      deciding first. */
  lemma {:induction false} ScansAgree(line: string, i: nat, inBlock: bool, codeSeen: bool, r: CommentRule)
    requires SlashMarkers(r) && i <= |line|
    ensures WellFormed(r)
    ensures var e := Loc.Scan(line, i, inBlock, codeSeen, !codeSeen);
      Classifier.Scan(line, i, inBlock, codeSeen, r) ==
        Classified(if e.inBlock then Comment else if e.codeSeen then Code else Comment, e.inBlock)
    decreases |line| - i
  {
    if i < |line| {
      MatchTwo(line, i, "*/");
      MatchTwo(line, i, "/*");
      MatchTwo(line, i, "//");
      if inBlock {
        if Loc.PairAt(line, i, '*', '/') {
          ScansAgree(line, i + 2, false, codeSeen, r);
        } else {
          ScansAgree(line, i + 1, true, codeSeen, r);
        }
      } else if Loc.PairAt(line, i, '/', '*') {
        ScansAgree(line, i + 2, true, codeSeen, r);
      } else if !Loc.PairAt(line, i, '/', '/') {
        ScansAgree(line, i + 1, false, codeSeen || !IsSpace(line[i]), r);
      }
    }
  }

  /** Line by line: the same block flag afterwards, and the same kind except
      exactly when `loc.c` says code and the line ends inside a block, where
      `lineman.c` says comment. */
  lemma TieBreak(line: string, inBlock: bool, r: CommentRule)
    requires SlashMarkers(r)
    ensures WellFormed(r)
    ensures var a, b := Classifier.Classify(line, inBlock, r), Loc.Classify(line, inBlock);
      a.inBlock == b.inBlock &&
      (a.kind != b.kind <==> b.kind == Code && b.inBlock) &&
      (a.kind != b.kind ==> a.kind == Comment)
  {
    ScansAgree(line, 0, inBlock, false, r);
    if !IsBlank(line) {
      Loc.CommentOnlyIsNotCodeSeen(line, 0, inBlock, false);
    }
  }

  /** `a` is `b` with some Code entries turned into Comment. */
  predicate CodeDemoted(a: seq<LineKind>, b: seq<LineKind>) {
    |a| == |b| && forall j :: 0 <= j < |a| ==> a[j] == b[j] || (a[j] == Comment && b[j] == Code)
  }

  /** Over a whole file the block flag evolves identically in both, and each
      line keeps its kind or goes from code in `loc.c` to comment in `lineman.c`. */
  lemma {:induction false} RunsAgree(lines: seq<string>, n: nat, start: bool, r: CommentRule)
    requires SlashMarkers(r) && n <= |lines|
    ensures WellFormed(r)
    ensures Lineman.Run(lines, n, start, r).inBlock == Loc.Run(lines, n, start).inBlock
    ensures CodeDemoted(Lineman.Run(lines, n, start, r).kinds, Loc.Run(lines, n, start).kinds)
  {
    if n > 0 {
      RunsAgree(lines, n - 1, start, r);
      TieBreak(lines[n - 1], Lineman.Run(lines, n - 1, start, r).inBlock, r);
    }
  }

  lemma {:induction false} TallyDemoted(a: seq<LineKind>, b: seq<LineKind>)
    requires CodeDemoted(a, b)
    ensures Tally(a).empty == Tally(b).empty
    ensures Tally(a).code <= Tally(b).code
    ensures Tally(a).comment + Tally(a).code == Tally(b).comment + Tally(b).code
    decreases |a|
  {
    if a != [] {
      TallyDemoted(a[..|a| - 1], b[..|b| - 1]);
    }
  }

  /** On any file, the two counters agree on empty lines and on
      comment + code, and `lineman.c` never counts more code than `loc.c`. */
  lemma FileCountsAgree(lines: seq<string>, r: CommentRule)
    requires SlashMarkers(r)
    ensures WellFormed(r)
    ensures var a, b := Lineman.FileCounts(lines, r), Loc.FileCounts(lines);
      a.empty == b.empty && a.code <= b.code && a.comment + a.code == b.comment + b.code
  {
    RunsAgree(lines, |lines|, false, r);
    TallyDemoted(Lineman.Run(lines, |lines|, false, r).kinds, Loc.Run(lines, |lines|, false).kinds);
  }

  /** The fallback rule and the rule for ".c" files use `loc.c`'s markers. */
  lemma SlashRules()
    ensures SlashMarkers(Fallback) && SlashMarkers(Table[0])
  {
  }
}
