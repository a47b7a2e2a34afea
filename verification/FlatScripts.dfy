/** Exactly which accepted scripts of flat lines come back from their emitted file. */
module FlatScripts {
  import opened Outcomes
  import opened Text
  import opened ShellAst
  import opened Splicer
  import opened FlatLines
  import opened Blocks
  import opened Regions
  import opened Cases
  import opened Scripts
  import opened Printer
  import opened FlatRoundTrip
  import opened WellFormed
  import opened Layout
  import opened ScriptRoundTrip
  import opened FlatReturns
  import opened Truncations

  // ---- accepted scripts of flat lines ----

  /** No line opens a block or a `case`. */
  predicate FlatSource(source: string) {
    forall line :: line in TrimAll(Lines(Splice(source))) ==>
      IsSkipped(line) || (FirstKeyword(line) !in BLOCK_OPENERS && FirstKeyword(line) != KCase)
  }

  ghost predicate FromLine(s: Stmt) {
    exists line :: LineOf(line, s)
  }

  ghost predicate AllFromLines(stmts: seq<Stmt>) {
    forall k :: 0 <= k < |stmts| ==> FromLine(stmts[k])
  }

  ghost predicate FlatLinesOnly(lines: seq<string>) {
    forall k :: 0 <= k < |lines| ==>
      (IsSkipped(lines[k]) || (FirstKeyword(lines[k]) !in BLOCK_OPENERS && FirstKeyword(lines[k]) != KCase))
      && '\n' !in lines[k] && (lines[k] == "" || Trimmed(lines[k]))
  }

  lemma {:induction false} WalkedFromLines(lines: seq<string>, i: nat)
    requires i <= |lines| && FlatLinesOnly(lines) && Walk(lines, i).Ok?
    ensures AllFromLines(Walk(lines, i).value)
    decreases |lines| - i
  {
    hide FirstKeyword, ControlFlowKeyword, FlatLine, BlockAt, CaseAt, FromLine;
    if i < |lines| {
      WalkedFromLines(lines, i + 1) by {
        assert Walk(lines, i + 1).Ok?;
      }
      var line := lines[i];
      if !IsSkipped(line) && FlatLine(line).value.Some? {
        var s := FlatLine(line).value.value;
        assert LineOf(line, s);
        assert FromLine(s) by { LineGives(line, s); }
        assert Walk(lines, i).value == [s] + Walk(lines, i + 1).value;
      } else {
        assert [] + Walk(lines, i + 1).value == Walk(lines, i + 1).value;
      }
    }
  }

  lemma LineGives(line: string, s: Stmt)
    requires LineOf(line, s)
    ensures FromLine(s)
  {
  }

  lemma SourceLinesOnly(source: string)
    requires FlatSource(source)
    ensures FlatLinesOnly(TrimAll(Lines(Splice(source))))
  {
    hide Splice, Split, TrimStart, TrimEnd, FirstKeyword, IsSkipped;
    var spliced := Splice(source);
    var lines := TrimAll(Lines(spliced));
    SplitPieces(spliced, NEWLINE);
    forall k | 0 <= k < |lines|
      ensures '\n' !in lines[k] && (lines[k] == "" || Trimmed(lines[k])) && lines[k] in lines
    {
      var piece := Split(spliced, NEWLINE)[k];
      var pre, post := TrimShape(Lines(spliced)[k]);
      assert '\n' !in piece;
      assert '\n' !in Lines(spliced)[k];
      assert forall c :: c in lines[k] ==> c in Lines(spliced)[k];
    }
  }

  lemma SourceFromLines(source: string)
    requires FlatSource(source) && ScriptOf(source).Ok?
    ensures AllFromLines(ScriptOf(source).value)
  {
    hide Splice, Lines, FlatLinesOnly, Walk, Trim, AllFromLines;
    SourceLinesOnly(source);
    WalkedFromLines(TrimAll(Lines(Splice(source))), 0);
  }

  // ---- line breaks ----

  function Breaks(s: string): nat {
    |Split(s, NEWLINE)| - 1
  }

  lemma BreaksBehind(a: string, b: string)
    requires '\n' !in a
    ensures Breaks(a + b) == Breaks(b)
  {
    hide Split;
    SplitPrefix(a, b, NEWLINE);
  }

  lemma BreaksAtLine(a: string, b: string)
    requires '\n' !in a
    ensures Breaks(a + "\n" + b) == 1 + Breaks(b)
  {
    hide Split;
    assert a + "\n" + b == a + ['\n'] + b;
    SplitAtSeparator(a, '\n', b, NEWLINE);
    SplitUnbroken(a, NEWLINE);
  }

  function Joins(texts: seq<string>): nat {
    if texts == [] then 0 else (if Continues(texts[0]) then 1 else 0) + Joins(texts[1..])
  }

  /** Every line that is continued costs the file a line break. */
  lemma {:induction false} BreaksLeft(texts: seq<string>)
    requires forall t :: t in texts ==> '\n' !in t
    ensures Breaks(Splice(Written(texts))) + Joins(texts) == |texts|
  {
    hide Splice, Continues, Breaks;
    if texts == [] {
      NoBreaks();
    } else {
      var first, rest := texts[0], Written(texts[1..]);
      assert first in texts && forall t :: t in texts[1..] ==> t in texts;
      assert Without(first, NEWLINE);
      EmptyDoesNotContinue();
      BreaksLeft(texts[1..]);
      SpliceLine(first, rest);
      if Continues(first) {
        BreaksBehind(first[..|first| - 1], Splice(rest));
      } else {
        BreaksAtLine(first, Splice(rest));
      }
    }
  }

  lemma NoBreaks()
    ensures Breaks(Splice("")) == 0
  {
  }

  lemma {:induction false} JoinsSome(texts: seq<string>, k: nat)
    requires k < |texts| && Continues(texts[k])
    ensures Joins(texts) > 0
  {
    hide Continues;
    if k > 0 {
      JoinsSome(texts[1..], k - 1);
    }
  }

  /** A line gives one statement at most. */
  lemma {:induction false} WalkBound(lines: seq<string>, i: nat)
    requires i <= |lines| && Walk(lines, i).Ok?
    ensures |Walk(lines, i).value| <= |lines| - i
    decreases |lines| - i
  {
    hide FirstKeyword, ControlFlowKeyword, FlatLine, BlockAt, CaseAt, IsSkipped;
    if i < |lines| {
      var line := lines[i];
      if IsSkipped(line) {
        WalkBound(lines, i + 1);
      } else if FirstKeyword(line) in BLOCK_OPENERS {
        WalkBound(lines, BlockAt(lines, i).value.1);
      } else if FirstKeyword(line) == KCase {
        WalkBound(lines, CaseAt(lines, i).value.1);
      } else {
        WalkBound(lines, i + 1);
      }
    }
  }

  /** The lines of a text are as many as its line breaks and perhaps one more, which holds something. */
  lemma LinesBound(s: string)
    ensures |Lines(s)| <= Breaks(s) + 1
    ensures |Lines(s)| == Breaks(s) + 1 ==> var pieces := Split(s, NEWLINE); pieces[|pieces| - 1] != ""
  {
    hide Split;
  }

  lemma {:induction false} SplicedEnds(texts: seq<string>)
    requires texts != [] && !Continues(texts[|texts| - 1]) && forall t :: t in texts ==> '\n' !in t
    ensures var s := Splice(Written(texts)); s != "" && s[|s| - 1] == '\n'
  {
    hide Splice, Continues;
    var first, rest := texts[0], Written(texts[1..]);
    assert first in texts && forall t :: t in texts[1..] ==> t in texts;
    EmptyDoesNotContinue();
    SpliceLine(first, rest);
    if |texts| > 1 {
      SplicedEnds(texts[1..]);
    } else {
      assert rest == "";
      SpliceLastLine("");
    }
  }

  // ---- the lines of the emitted file ----

  lemma {:induction false} SplicedFront(front: seq<string>, rest: string)
    requires forall k :: 0 <= k < |front| ==> '\n' !in front[k] && !Continues(front[k])
    ensures Splice(Written(front) + rest) == Written(front) + Splice(rest)
  {
    hide Splice, Continues;
    if front == [] {
      assert Written(front) + rest == rest && Written(front) + Splice(rest) == Splice(rest);
    } else {
      var more := Written(front[1..]) + rest;
      assert Written(front) + rest == front[0] + "\n" + more;
      assert Without(front[0], NEWLINE);
      SpliceLine(front[0], more);
      SplicedFront(front[1..], rest);
      assert front[0] + "\n" + (Written(front[1..]) + Splice(rest)) == Written(front) + Splice(rest);
    }
  }

  lemma {:induction false} SplitFront(front: seq<string>, rest: string)
    requires forall k :: 0 <= k < |front| ==> '\n' !in front[k]
    ensures Split(Written(front) + rest, NEWLINE) == front + Split(rest, NEWLINE)
  {
    hide Split;
    if front == [] {
      assert Written(front) + rest == rest;
    } else {
      var more := Written(front[1..]) + rest;
      assert Written(front) + rest == front[0] + ['\n'] + more;
      assert Without(front[0], NEWLINE);
      SplitAtSeparator(front[0], '\n', more, NEWLINE);
      SplitUnbroken(front[0], NEWLINE);
      SplitFront(front[1..], rest);
      assert [front[0]] + (front[1..] + Split(rest, NEWLINE)) == front + Split(rest, NEWLINE);
    }
  }

  /** The pieces of a text that are its lines. */
  function LinesAmong(pieces: seq<string>): seq<string>
    requires pieces != []
  {
    if pieces[|pieces| - 1] == "" then pieces[..|pieces| - 1] else pieces
  }

  lemma TrimmedLines(s: string)
    ensures TrimAll(Lines(s)) == TrimAll(LinesAmong(Split(s, NEWLINE)))
  {
    hide Split, Trim;
    var kept := LinesAmong(Split(s, NEWLINE));
    assert |Lines(s)| == |kept|;
    forall k | 0 <= k < |kept| ensures Trim(Lines(s)[k]) == Trim(kept[k]) {
      CarriageReturnTrimmed(kept[k]);
    }
  }

  lemma LinesFront(front: seq<string>, rest: string)
    requires forall k :: 0 <= k < |front| ==> '\n' !in front[k]
    ensures TrimAll(Lines(Written(front) + rest)) == TrimAll(front) + TrimAll(Lines(rest))
  {
    hide Split, TrimAll, Lines, Written, LinesAmong;
    SplitFront(front, rest);
    var pieces := Split(rest, NEWLINE);
    TrimmedLines(Written(front) + rest);
    TrimmedLines(rest);
    AmongFront(front, pieces);
    TrimAllAppend(front, LinesAmong(pieces));
  }

  lemma AmongFront(front: seq<string>, pieces: seq<string>)
    requires pieces != []
    ensures LinesAmong(front + pieces) == front + LinesAmong(pieces)
  {
    var all := front + pieces;
    assert all[|all| - 1] == pieces[|pieces| - 1];
    assert all[..|all| - 1] == front + pieces[..|pieces| - 1];
  }

  // ---- a walk over flat lines ----

  ghost predicate PlainTexts(texts: seq<string>) {
    forall k :: 0 <= k < |texts| ==>
      texts[k] != "" && texts[k][0] != '#' && FirstKeyword(texts[k]) == NoKeyword
      && ControlFlowKeyword(texts[k]) == NoKeyword
  }

  /** As many statements as lines: each of these lines is read as its statement, and the rest as the others. */
  lemma {:induction false} WalkFull(lines: seq<string>, i: nat, texts: seq<string>)
    requires i + |texts| <= |lines| && lines[i..i + |texts|] == texts && PlainTexts(texts)
    requires Walk(lines, i).Ok? && |Walk(lines, i).value| == |lines| - i
    ensures forall k :: 0 <= k < |texts| ==> FlatLine(texts[k]) == Ok(Some(Walk(lines, i).value[k]))
    ensures Walk(lines, i + |texts|) == Ok(Walk(lines, i).value[|texts|..])
    decreases |texts|
  {
    hide FirstKeyword, ControlFlowKeyword, FlatLine, BlockAt, CaseAt;
    var stmts := Walk(lines, i).value;
    if texts == [] {
      assert stmts[0..] == stmts;
    } else {
      assert texts[0] == lines[i..i + |texts|][0] == lines[i];
      assert lines[i + 1..i + 1 + |texts[1..]|] == texts[1..];
      WalkBound(lines, i + 1);
      var first, rest := AsList(FlatLine(lines[i]).value), Walk(lines, i + 1).value;
      assert stmts == first + rest;
      assert stmts[1..] == rest;
      WalkFull(lines, i + 1, texts[1..]);
      assert stmts[|texts|..] == rest[|texts| - 1..];
      forall k | 0 <= k < |texts| ensures FlatLine(texts[k]) == Ok(Some(stmts[k])) {
        if k > 0 {
          assert texts[k] == texts[1..][k - 1] && stmts[k] == stmts[1..][k - 1];
        }
      }
    }
  }

  predicate FlatStmt(s: Stmt) {
    s.Cmd? || s.Pipeline? || s.ShellAssign?
  }

  /** A last line that is read as one flat statement is read as a flat line. */
  lemma LastLineRead(lines: seq<string>, s: Stmt)
    requires lines != [] && Walk(lines, |lines| - 1) == Ok([s]) && FlatStmt(s)
    ensures FlatLine(lines[|lines| - 1]) == Ok(Some(s))
  {
    hide FirstKeyword, ControlFlowKeyword, FlatLine, BlockAt, CaseAt;
    var i := |lines| - 1;
    var line := lines[i];
    assert Walk(lines, |lines|) == Ok([]);
    if FirstKeyword(line) in BLOCK_OPENERS && BlockAt(lines, i).Ok? {
      BlockIsNotFlat(lines, i);
    } else if FirstKeyword(line) == KCase && CaseAt(lines, i).Ok? {
      CaseIsNotFlat(lines, i);
    }
  }

  lemma BlockIsNotFlat(lines: seq<string>, i: nat)
    requires i < |lines| && BlockAt(lines, i).Ok?
    ensures !FlatStmt(BlockAt(lines, i).value.0)
  {
    hide FirstKeyword, BlockRegion, LoopHeader, SegmentSeq, ElseAt, AfterFirstWord;
  }

  lemma CaseIsNotFlat(lines: seq<string>, i: nat)
    requires i < |lines| && CaseAt(lines, i).Ok?
    ensures !FlatStmt(CaseAt(lines, i).value.0)
  {
    hide CaseHead, CaseWord, ArmsOf, SplitArms, RegionEnd;
  }

  // ---- the printed texts ----

  ghost predicate PrintedTexts(stmts: seq<Stmt>) {
    var texts := StmtTexts(stmts);
    PlainTexts(texts) && forall k :: 0 <= k < |texts| ==> '\n' !in texts[k] && Trimmed(texts[k]) && FlatStmt(stmts[k])
  }

  lemma TextsPrinted(stmts: seq<Stmt>)
    requires AllFromLines(stmts)
    ensures PrintedTexts(stmts)
  {
    hide FirstKeyword, ControlFlowKeyword, FlatLine, StmtText, Returns, WellFormedFlat;
    var texts := StmtTexts(stmts);
    forall k | 0 <= k < |stmts|
      ensures texts[k] != "" && texts[k][0] != '#' && FirstKeyword(texts[k]) == NoKeyword
        && ControlFlowKeyword(texts[k]) == NoKeyword && '\n' !in texts[k] && Trimmed(texts[k]) && FlatStmt(stmts[k])
    {
      assert FromLine(stmts[k]);
      var line :| LineOf(line, stmts[k]);
      FlatExactly(line, stmts[k]);
      FlatHasNoFirstKeyword(texts[k]);
      TakenBranch(line, stmts[k]);
    }
  }

  /** A line that is continued, but for the last, costs a line. */
  lemma FewerLines(texts: seq<string>, k: nat)
    requires k + 1 < |texts| && Continues(texts[k]) && forall t :: t in texts ==> '\n' !in t
    ensures |Lines(Splice(Written(texts)))| < |texts|
  {
    hide Splice, Continues, Breaks, Lines, Joins, Split, Written;
    var spliced := Splice(Written(texts));
    var n := |texts| - 1;
    BreaksLeft(texts);
    LinesBound(spliced);
    JoinsLast(texts);
    assert texts[..n][k] == texts[k];
    JoinsSome(texts[..n], k);
    if !Continues(texts[n]) {
      SplicedEnds(texts);
      LastPieceEmpty(spliced);
    }
  }

  lemma {:induction false} JoinsLast(texts: seq<string>)
    requires texts != []
    ensures Joins(texts) == Joins(texts[..|texts| - 1]) + if Continues(texts[|texts| - 1]) then 1 else 0
  {
    hide Continues;
    var n := |texts| - 1;
    if n > 0 {
      JoinsLast(texts[1..]);
      assert texts[..n][1..] == texts[1..][..n - 1];
    } else {
      assert texts[1..] == [] && texts[..0] == [];
    }
  }

  lemma SplicedShort(front: seq<string>, last: string)
    requires forall k :: 0 <= k < |front| ==> '\n' !in front[k] && !Continues(front[k])
    requires '\n' !in last && Continues(last)
    ensures last != "" && Splice(Written(front + [last])) == Written(front) + Short(last)
  {
    hide Splice, Written, Continues;
    ContinuedEnds(last);
    WrittenAppend(front, [last]);
    WrittenOne(last);
    SplicedFront(front, last + "\n");
    assert last + "\n" + "" == last + "\n";
    assert Without(last, NEWLINE);
    SpliceLine(last, "");
    SpliceLastLine("");
    assert Short(last) + "" == Short(last);
  }

  /** Only the last line is continued: it loses its backslash. */
  lemma LastLineShort(front: seq<string>, last: string)
    requires forall k :: 0 <= k < |front| ==> '\n' !in front[k] && !Continues(front[k])
    requires '\n' !in last && Continues(last)
    ensures EndsInBackslash(last)
    ensures var short := Short(last);
      TrimAll(Lines(Splice(Written(front + [last])))) == TrimAll(front) + if short == "" then [] else [Trim(short)]
  {
    hide Splice, Lines, Trim, TrimAll, Written, Continues;
    ContinuedEnds(last);
    SplicedShort(front, last);
    LinesFront(front, Short(last));
    LoneTextLines(Short(last));
  }

  lemma WrittenOne(text: string)
    ensures Written([text]) == text + "\n"
  {
    assert [text][1..] == [] && Written([]) == "";
  }

  lemma ContinuedEnds(line: string)
    requires Continues(line)
    ensures EndsInBackslash(line)
  {
  }

  lemma LoneTextLines(text: string)
    requires '\n' !in text
    ensures TrimAll(Lines(text)) == if text == "" then [] else [Trim(text)]
  {
    hide Trim;
    TrimmedLines(text);
    SplitUnbroken(text, NEWLINE);
    assert LinesAmong([text]) == if text == "" then [] else [text];
  }

  // ---- main result ----

  ghost predicate Stays(s: Stmt) {
    Returns(s) && !Continues(StmtText(s))
  }

  lemma StayingComesBack(header: seq<string>, stmts: seq<Stmt>)
    requires HeaderComments(header) && AllFromLines(stmts) && forall k :: 0 <= k < |stmts| ==> Stays(stmts[k])
    ensures ScriptOf(ScriptText(header, stmts)) == Ok(stmts)
  {
    hide StmtText, Returns, ScriptOf, ScriptText, WellFormedFlat;
    forall k | 0 <= k < |stmts| ensures WellFormedFlat(stmts[k]) && FlatStmt(stmts[k]) {
      assert FromLine(stmts[k]) && Stays(stmts[k]);
      var line :| LineOf(line, stmts[k]);
      FlatExactly(line, stmts[k]);
      TakenBranch(line, stmts[k]);
    }
    FlatBody(stmts);
    ScriptComesBack(header, stmts);
  }

  lemma {:induction false} FlatBody(stmts: seq<Stmt>)
    requires forall k :: 0 <= k < |stmts| ==> WellFormedFlat(stmts[k]) && FlatStmt(stmts[k])
    ensures WellFormedBody(stmts, AtTop) && NoEmptyBodies(stmts)
  {
    hide WellFormedFlat;
    if stmts != [] {
      FlatBody(stmts[1..]);
    }
  }

  lemma EmittedText(header: seq<string>, stmts: seq<Stmt>)
    requires HeaderComments(header) && stmts != []
    ensures Splice(ScriptText(header, stmts)) == Written(header) + Splice(Written(StmtTexts(stmts)))
  {
    hide Splice, Written, StmtText, Continues;
    ScriptTextWritten(header, stmts);
    WrittenAppend(header, StmtTexts(stmts));
    forall k | 0 <= k < |header| ensures '\n' !in header[k] && !Continues(header[k]) {
      assert header[k] in header;
    }
    SplicedFront(header, Written(StmtTexts(stmts)));
  }

  lemma HeaderSkipped(header: seq<string>, rest: seq<string>)
    requires HeaderComments(header)
    ensures Walk(TrimAll(header) + rest, 0) == Walk(TrimAll(header) + rest, |header|)
  {
    hide Trim, TrimAll, Walk, IsSkipped;
    TrimmedAt(header);
    var lines := TrimAll(header) + rest;
    forall k | 0 <= k < |header| ensures IsSkipped(lines[k]) {
      assert header[k] in header && lines[k] == Trim(header[k]);
      CommentTrimmed(header[k]);
    }
    CommentsSkipped(lines, 0, |header|);
  }

  /** The lines the walk sees behind the header. */
  lemma EmittedWalk(header: seq<string>, stmts: seq<Stmt>)
    requires HeaderComments(header) && stmts != []
    ensures var lines := TrimAll(header) + TrimAll(Lines(Splice(Written(StmtTexts(stmts)))));
      |TrimAll(header)| == |header| && ScriptOf(ScriptText(header, stmts)) == Walk(lines, |header|)
  {
    hide Splice, Lines, Trim, TrimAll, Written, StmtText, Walk, ScriptText, StmtTexts;
    TrimmedAt(header);
    EmittedText(header, stmts);
    var spliced := Splice(Written(StmtTexts(stmts)));
    forall k | 0 <= k < |header| ensures '\n' !in header[k] {
      assert header[k] in header;
    }
    LinesFront(header, spliced);
    HeaderSkipped(header, TrimAll(Lines(spliced)));
  }

  lemma TrimmedAt(lines: seq<string>)
    ensures |TrimAll(lines)| == |lines| && forall k :: 0 <= k < |lines| ==> TrimAll(lines)[k] == Trim(lines[k])
  {
    hide Trim;
  }

  lemma TextsKept(texts: seq<string>)
    requires forall k :: 0 <= k < |texts| ==> Trimmed(texts[k])
    ensures TrimAll(texts) == texts
  {
    hide Trim;
    forall k | 0 <= k < |texts| ensures Trim(texts[k]) == texts[k] {
      TrimOfTrimmed(texts[k]);
    }
  }

  /** What comes back has no continued line. */
  lemma NoneContinued(header: seq<string>, stmts: seq<Stmt>)
    requires HeaderComments(header) && AllFromLines(stmts) && stmts != []
    requires ScriptOf(ScriptText(header, stmts)) == Ok(stmts)
    ensures forall k :: 0 <= k < |stmts| ==> !Continues(StmtText(stmts[k]))
  {
    hide Splice, Lines, Trim, TrimAll, Written, StmtText, Walk, Continues, ScriptOf, ScriptText, HeaderComments,
         PlainTexts, AllFromLines;
    var texts := StmtTexts(stmts);
    var n := |texts| - 1;
    TextsPrinted(stmts);
    EmittedWalk(header, stmts);
    TrimmedAt(header);
    TrimmedAt(Lines(Splice(Written(texts))));
    var lines := TrimAll(header) + TrimAll(Lines(Splice(Written(texts))));
    WalkBound(lines, |header|);
    forall t | t in texts ensures '\n' !in t {
      var k :| 0 <= k < |texts| && texts[k] == t;
    }
    forall k | 0 <= k < n ensures !Continues(texts[k]) {
      if Continues(texts[k]) {
        FewerLines(texts, k);
      }
    }
    if Continues(texts[n]) {
      LastNotContinued(header, stmts);
    }
  }

  lemma LastNotContinued(header: seq<string>, stmts: seq<Stmt>)
    requires HeaderComments(header) && AllFromLines(stmts) && stmts != []
    requires forall k :: 0 <= k < |stmts| - 1 ==> !Continues(StmtText(stmts[k]))
    requires Continues(StmtText(stmts[|stmts| - 1]))
    ensures ScriptOf(ScriptText(header, stmts)) != Ok(stmts)
  {
    hide Splice, Lines, Trim, TrimAll, Written, StmtText, Walk, Continues, ScriptOf, ScriptText, HeaderComments,
         PlainTexts, LineOf, FlatLine;
    var texts := StmtTexts(stmts);
    var n := |texts| - 1;
    TextsPrinted(stmts);
    EmittedWalk(header, stmts);
    TrimmedAt(header);
    assert texts == texts[..n] + [texts[n]];
    LastLineShort(texts[..n], texts[n]);
    TextsKept(texts[..n]);
    var lines := TrimAll(header) + TrimAll(Lines(Splice(Written(texts))));
    assert FromLine(stmts[n]);
    var line :| LineOf(line, stmts[n]);
    TruncatedLine(line, stmts[n]);
    if Walk(lines, |header|) == Ok(stmts) {
      WalkBound(lines, |header|);
      assert lines[|header|..|header| + n] == texts[..n];
      FrontTexts(texts, n);
      WalkFull(lines, |header|, texts[..n]);
      assert stmts[n..] == [stmts[n]];
      LastLineRead(lines, stmts[n]);
    }
  }

  lemma FrontTexts(texts: seq<string>, n: nat)
    requires PlainTexts(texts) && n <= |texts|
    ensures PlainTexts(texts[..n])
  {
    hide FirstKeyword, ControlFlowKeyword;
  }

  /** What comes back satisfies `Returns`. */
  lemma AllReturn(header: seq<string>, stmts: seq<Stmt>)
    requires HeaderComments(header) && AllFromLines(stmts) && stmts != []
    requires ScriptOf(ScriptText(header, stmts)) == Ok(stmts)
    ensures forall k :: 0 <= k < |stmts| ==> Stays(stmts[k])
  {
    hide Splice, Lines, Trim, TrimAll, Written, StmtText, Walk, Continues, ScriptOf, ScriptText, HeaderComments,
         PlainTexts, LineOf, FlatLine, Returns;
    var texts := StmtTexts(stmts);
    NoneContinued(header, stmts);
    TextsPrinted(stmts);
    EmittedWalk(header, stmts);
    TrimmedAt(header);
    SplicedFront(texts, "");
    SpliceLastLine("");
    assert Written(texts) + "" == Written(texts);
    LinesFront(texts, "");
    LoneTextLines("");
    assert TrimAll(texts) + [] == TrimAll(texts);
    TextsKept(texts);
    var lines := TrimAll(header) + texts;
    assert lines[|header|..|header| + |texts|] == texts;
    WalkFull(lines, |header|, texts);
    forall k | 0 <= k < |stmts| ensures Stays(stmts[k]) {
      assert FromLine(stmts[k]);
      var line :| LineOf(line, stmts[k]);
      FlatExactly(line, stmts[k]);
    }
  }

  /**
   * A script of statements that were read from flat lines comes back from its emitted file exactly when no printed
   * line is continued, no rendered substitution holds a parenthesis, and no printed pipeline is a here-document or
   * starts with `&` or with an assignment.
   */
  lemma FlatScriptExactly(header: seq<string>, stmts: seq<Stmt>)
    requires HeaderComments(header) && AllFromLines(stmts)
    ensures ScriptOf(ScriptText(header, stmts)) == Ok(stmts) <==> forall k :: 0 <= k < |stmts| ==> Stays(stmts[k])
  {
    hide ScriptOf, ScriptText, AllFromLines, Stays, HeaderComments;
    if forall k :: 0 <= k < |stmts| ==> Stays(stmts[k]) {
      StayingComesBack(header, stmts);
    } else if ScriptOf(ScriptText(header, stmts)) == Ok(stmts) {
      AllReturn(header, stmts);
    }
  }

  /** The same for every accepted source without blocks. */
  lemma FlatSourceExactly(header: seq<string>, source: string)
    requires HeaderComments(header) && FlatSource(source) && ScriptOf(source).Ok?
    ensures var stmts := ScriptOf(source).value;
      ScriptOf(ScriptText(header, stmts)) == ScriptOf(source) <==> forall k :: 0 <= k < |stmts| ==> Stays(stmts[k])
  {
    hide ScriptOf, ScriptText, AllFromLines, Stays, HeaderComments, FlatSource;
    SourceFromLines(source);
    FlatScriptExactly(header, ScriptOf(source).value);
  }
}
