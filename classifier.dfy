/** `classify_line` of `lineman.c`: one left-to-right scan of a line
    against a comment rule, with the block-comment flag carried in and out. */
module Classifier {
  import opened Text
  import opened Counting
  import opened Rules

  /** What the scan returns from position `i` on, given the block flag and
      whether code has been seen so far; one case per branch of the loop.
      Every step advances by one character or by a whole non-empty marker. */
  function Scan(line: string, i: nat, inBlock: bool, codeSeen: bool, r: CommentRule): (res: Classified)
    requires i <= |line| && WellFormed(r)
    ensures res.kind != Empty
    ensures res.inBlock ==> res.kind == Comment
    decreases |line| - i
  {
    if i == |line| then
      if inBlock then Classified(Comment, true)
      else Classified(if codeSeen then Code else Comment, false)
    else if inBlock then
      if r.blockEnd.Some? && MatchAt(line, i, r.blockEnd.value) then
        Scan(line, i + |r.blockEnd.value|, false, codeSeen, r)
      else
        Scan(line, i + 1, true, codeSeen, r)
    else if r.blockStart.Some? && MatchAt(line, i, r.blockStart.value) then
      Scan(line, i + |r.blockStart.value|, true, codeSeen, r)
    else if r.line.Some? && MatchAt(line, i, r.line.value) then
      Classified(if codeSeen then Code else Comment, false)
    else
      Scan(line, i + 1, false, codeSeen || !IsSpace(line[i]), r)
  }

  /** The kind of `line` and the block flag after it. */
  function Classify(line: string, inBlock: bool, r: CommentRule): (res: Classified)
    requires WellFormed(r)
    ensures res.kind == Empty <==> IsBlank(line)
    ensures IsBlank(line) ==> res.inBlock == inBlock
    ensures res.inBlock && !IsBlank(line) ==> res.kind == Comment
  {
    if IsBlank(line) then Classified(Empty, inBlock) else Scan(line, 0, inBlock, false, r)
  }

  /** `classify_line`: `inBlock` is `*in_block` on entry and `blockAfter` its value on return. */
  method ClassifyLine(line: string, inBlock: bool, r: CommentRule) returns (kind: LineKind, blockAfter: bool)
    requires WellFormed(r)
    ensures Classified(kind, blockAfter) == Classify(line, inBlock, r)
  {
    var blank := IsBlankLine(line);
    if blank {
      return Empty, inBlock;
    }
    var p := 0;
    var codeSeen := false;
    blockAfter := inBlock;
    while p < |line|
      invariant 0 <= p <= |line|
      invariant Scan(line, p, blockAfter, codeSeen, r) == Scan(line, 0, inBlock, false, r)
      decreases |line| - p
    {
      if blockAfter {
        if r.blockEnd.Some? && MatchAt(line, p, r.blockEnd.value) {
          blockAfter := false;
          p := p + |r.blockEnd.value|;
        } else {
          p := p + 1;
        }
      } else if r.blockStart.Some? && MatchAt(line, p, r.blockStart.value) {
        blockAfter := true;
        p := p + |r.blockStart.value|;
      } else if r.line.Some? && MatchAt(line, p, r.line.value) {
        kind := if codeSeen then Code else Comment;
        return;
      } else {
        if !IsSpace(line[p]) {
          codeSeen := true;
        }
        p := p + 1;
      }
    }
    if blockAfter {
      kind := Comment;
    } else {
      kind := if codeSeen then Code else Comment;
    }
  }

  /** Inside a block nothing but the block end is recognised: the scan skips
      every character up to the first end marker (no code is seen there) and
      resumes right after it, outside the block. */
  lemma {:induction false} SkipToBlockEnd(line: string, i: nat, j: nat, codeSeen: bool, r: CommentRule)
    requires WellFormed(r) && r.blockEnd.Some?
    requires i <= j <= |line| && MatchAt(line, j, r.blockEnd.value)
    requires forall k :: i <= k < j ==> !MatchAt(line, k, r.blockEnd.value)
    ensures Scan(line, i, true, codeSeen, r) == Scan(line, j + |r.blockEnd.value|, false, codeSeen, r)
    decreases j - i
  {
    if i < j {
      SkipToBlockEnd(line, i + 1, j, codeSeen, r);
    }
  }

  /** A scan inside a block that meets no end marker stays in the block:
      the line is a comment whatever else it holds. */
  lemma {:induction false} StayInBlock(line: string, i: nat, codeSeen: bool, r: CommentRule)
    requires WellFormed(r) && i <= |line|
    requires r.blockEnd.None? || forall k :: i <= k < |line| ==> !MatchAt(line, k, r.blockEnd.value)
    ensures Scan(line, i, true, codeSeen, r) == Classified(Comment, true)
    decreases |line| - i
  {
    if i < |line| {
      StayInBlock(line, i + 1, codeSeen, r);
    }
  }

  /** A non-blank line inside an open block that holds no end marker is a comment, and the block stays open. */
  lemma WholeLineInBlock(line: string, r: CommentRule)
    requires WellFormed(r) && !IsBlank(line)
    requires r.blockEnd.None? || forall k :: 0 <= k < |line| ==> !MatchAt(line, k, r.blockEnd.value)
    ensures Classify(line, true, r) == Classified(Comment, true)
  {
    StayInBlock(line, 0, false, r);
  }

  /** Outside a block, a line marker (where no block start matches) ends the
      scan: the line is code exactly when code came before it, and the rest
      of the line is not looked at. */
  lemma LineMarkerStops(line: string, i: nat, codeSeen: bool, r: CommentRule)
    requires WellFormed(r) && i <= |line| && r.line.Some? && MatchAt(line, i, r.line.value)
    requires r.blockStart.None? || !MatchAt(line, i, r.blockStart.value)
    ensures Scan(line, i, false, codeSeen, r) == Classified(if codeSeen then Code else Comment, false)
  {
  }

  /** Outside a block the block start is tried before the line marker: where
      both match (Lua's "--[[" against "--"), a block opens. */
  lemma BlockStartBeforeLineMarker(line: string, i: nat, codeSeen: bool, r: CommentRule)
    requires WellFormed(r) && i <= |line| && r.blockStart.Some? && MatchAt(line, i, r.blockStart.value)
    ensures Scan(line, i, false, codeSeen, r) == Scan(line, i + |r.blockStart.value|, true, codeSeen, r)
  {
  }

  /** A character that begins no marker of the rule outside a block. */
  predicate Plain(c: char, r: CommentRule) {
    !(r.line.Some? && |r.line.value| > 0 && r.line.value[0] == c) &&
    !(r.blockStart.Some? && |r.blockStart.value| > 0 && r.blockStart.value[0] == c)
  }

  /** Outside a block, a run of characters that begin no marker is scanned
      one at a time, and it shows code exactly when it holds a non-space. */
  lemma {:induction false} PlainRun(line: string, i: nat, j: nat, codeSeen: bool, r: CommentRule)
    requires WellFormed(r) && i <= j <= |line|
    requires forall k :: i <= k < j ==> Plain(line[k], r)
    ensures Scan(line, i, false, codeSeen, r) == Scan(line, j, false, codeSeen || !IsBlank(line[i..j]), r)
    decreases j - i
  {
    if i < j {
      PlainRun(line, i + 1, j, codeSeen || !IsSpace(line[i]), r);
      assert IsBlank(line[i..j]) <==> IsSpace(line[i]) && IsBlank(line[i + 1..j]) by {
        assert line[i..j] == [line[i]] + line[i + 1..j];
      }
    }
  }

  /** Inside a block, a run of characters none of which begins the end marker is skipped. */
  lemma {:induction false} BlockRun(line: string, i: nat, j: nat, codeSeen: bool, r: CommentRule)
    requires WellFormed(r) && i <= j <= |line| && r.blockEnd.Some?
    requires forall k :: i <= k < j ==> line[k] != r.blockEnd.value[0]
    ensures Scan(line, i, true, codeSeen, r) == Scan(line, j, true, codeSeen, r)
    decreases j - i
  {
    if i < j {
      BlockRun(line, i + 1, j, codeSeen, r);
    }
  }

  /** For the C-style rule: a line comment alone is a comment. */
  lemma ExampleLineComment()
    ensures Classify("// x", false, Fallback) == Classified(Comment, false)
  {
    var l := "// x";
    assert !IsSpace(l[0]);
    assert l[0..2] == "//" && l[0..2][1] != "/*"[1];
  }

  /** For the C-style rule: code before a line comment makes the line code. */
  lemma ExampleCodeThenLineComment()
    ensures Classify("int x = 1; // note", false, Fallback) == Classified(Code, false)
  {
    var l, r := "int x = 1; // note", Fallback;
    assert !IsBlank(l) by { assert !IsSpace(l[0]); }
    assert Scan(l, 0, false, false, r) == Scan(l, 11, false, true, r) by {
      PlainRun(l, 0, 11, false, r);
      assert l[0..11][0] == 'i';
    }
    assert Scan(l, 11, false, true, r) == Classified(Code, false) by {
      assert l[11..13] == "//";
    }
  }

  /** For the C-style rule: an unterminated block comment leaves the block open. */
  lemma ExampleOpenBlock()
    ensures Classify("/* open", false, Fallback) == Classified(Comment, true)
  {
    var l, r := "/* open", Fallback;
    assert !IsBlank(l) by { assert !IsSpace(l[0]); }
    assert Scan(l, 0, false, false, r) == Scan(l, 2, true, false, r) by {
      assert l[0..2] == "/*";
    }
    assert Scan(l, 2, true, false, r) == Scan(l, |l|, true, false, r) by {
      BlockRun(l, 2, |l|, false, r);
    }
  }

  /** For the C-style rule: a block closed before code leaves a code line. */
  lemma ExampleClosedBlockThenCode()
    ensures Classify("/* a */ int x;", false, Fallback) == Classified(Code, false)
  {
    var l, r := "/* a */ int x;", Fallback;
    assert !IsBlank(l) by { assert !IsSpace(l[0]); }
    assert Scan(l, 0, false, false, r) == Scan(l, 2, true, false, r) by {
      assert l[0..2] == "/*";
    }
    assert Scan(l, 2, true, false, r) == Scan(l, 5, true, false, r) by {
      BlockRun(l, 2, 5, false, r);
    }
    assert Scan(l, 5, true, false, r) == Scan(l, 7, false, false, r) by {
      assert l[5] == '*' && l[6] == '/';
      assert l[5..7] == "*/";
    }
    assert Scan(l, 7, false, false, r) == Scan(l, |l|, false, true, r) by {
      PlainRun(l, 7, |l|, false, r);
      assert l[7..|l|][1] == 'i';
    }
  }

  /** For the C-style rule: code followed by an unterminated block is a comment line. */
  lemma ExampleCodeThenOpenBlock()
    ensures Classify("int x; /* open", false, Fallback) == Classified(Comment, true)
  {
    var l, r := "int x; /* open", Fallback;
    assert !IsBlank(l) by { assert !IsSpace(l[0]); }
    assert Scan(l, 0, false, false, r) == Scan(l, 7, false, true, r) by {
      PlainRun(l, 0, 7, false, r);
      assert l[0..7][0] == 'i';
    }
    assert Scan(l, 7, false, true, r) == Scan(l, 9, true, true, r) by {
      assert l[7..9] == "/*";
    }
    assert Scan(l, 9, true, true, r) == Scan(l, |l|, true, true, r) by {
      BlockRun(l, 9, |l|, true, r);
    }
  }

  /** A blank line inside an open block is empty and leaves the block open. */
  lemma ExampleBlankInBlock()
    ensures Classify(" \t\r\n", true, Fallback) == Classified(Empty, true)
  {
  }

  /** For Lua, "--[[" opens a block rather than starting a "--" comment. */
  lemma ExampleLuaBlockStart()
    ensures Classify("--[[ note", false, Table[18]) == Classified(Comment, true)
  {
    var l, r := "--[[ note", Table[18];
    assert !IsBlank(l) by { assert !IsSpace(l[0]); }
    assert Scan(l, 0, false, false, r) == Scan(l, 4, true, false, r) by {
      assert l[0..4] == "--[[";
    }
    assert Scan(l, 4, true, false, r) == Scan(l, |l|, true, false, r) by {
      BlockRun(l, 4, |l|, false, r);
    }
  }
}
