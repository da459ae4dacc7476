/** What a classifier reports for one line, and the per-file and total
    counters (`LineCounts` in `lineman.c`, `Counts` in `loc.c`). */
module Counting {
  /** `LINE_EMPTY`, `LINE_COMMENT`, `LINE_CODE`. */
  datatype LineKind = Empty | Comment | Code

  /** The kind of a line together with the block-comment flag left after it. */
  datatype Classified = Classified(kind: LineKind, inBlock: bool)

  /** The kinds of a sequence of lines and the block flag after the last one. */
  datatype Pass = Pass(kinds: seq<LineKind>, inBlock: bool)

  /** The three counters; C's `long` is taken to be wide enough (no overflow is modelled). */
  datatype LineCounts = LineCounts(empty: int, comment: int, code: int)

  const Zero := LineCounts(0, 0, 0)

  /** Increments the counter that matches `kind`, as the three `if`s after each classified line do. */
  function Bump(c: LineCounts, kind: LineKind): LineCounts {
    match kind
    case Empty => c.(empty := c.empty + 1)
    case Comment => c.(comment := c.comment + 1)
    case Code => c.(code := c.code + 1)
  }

  /** `total->empty += local.empty` and its two companions. */
  function Plus(total: LineCounts, local: LineCounts): LineCounts {
    LineCounts(total.empty + local.empty, total.comment + local.comment, total.code + local.code)
  }

  function Sum(c: LineCounts): int {
    c.empty + c.comment + c.code
  }

  /** The counters after bumping once per kind, in order. */
  function Tally(kinds: seq<LineKind>): LineCounts
    decreases |kinds|
  {
    if kinds == [] then Zero else Bump(Tally(kinds[..|kinds| - 1]), kinds[|kinds| - 1])
  }

  /** One more line bumps exactly its own counter. */
  lemma TallySnoc(kinds: seq<LineKind>, k: LineKind)
    ensures Tally(kinds + [k]) == Bump(Tally(kinds), k)
  {
    assert (kinds + [k])[..|kinds|] == kinds;
  }

  /** Every line lands in exactly one counter, so the three counters add up to the number of lines. */
  lemma {:induction false} TallySum(kinds: seq<LineKind>)
    ensures Sum(Tally(kinds)) == |kinds|
    decreases |kinds|
  {
    if kinds != [] {
      TallySum(kinds[..|kinds| - 1]);
    }
  }

  /** Each counter holds the number of lines of its kind. */
  lemma {:induction false} TallyCountsKinds(kinds: seq<LineKind>)
    ensures Tally(kinds) == LineCounts(multiset(kinds)[Empty], multiset(kinds)[Comment], multiset(kinds)[Code])
    decreases |kinds|
  {
    if kinds != [] {
      var init := kinds[..|kinds| - 1];
      TallyCountsKinds(init);
      assert kinds == init + [kinds[|kinds| - 1]];
    }
  }
}
