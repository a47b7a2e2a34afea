/** The lines a `case` arm body is printed as: harmless to the region scan, and split into the body's segments. */
module ArmBodies {
  import opened Outcomes
  import opened Text
  import opened ShellAst
  import opened FlatLines
  import opened Blocks
  import opened Grammar
  import opened Regions
  import opened Cases
  import opened Printer
  import opened FlatRoundTrip
  import opened WellFormed
  import opened Derivations
  import opened Layout
  import opened BlockRoundTrip

  // ---- lines inside an arm ----

  predicate OpensNoCase(part: string) {
    FirstKeyword(part) !in {KCase, KEsac}
  }

  predicate CaseFree(line: string) {
    forall part :: part in Split(line, COMMAND_SEPARATORS) ==> OpensNoCase(part)
  }

  /** Every `;` is followed by a space. */
  predicate SemicolonsSpaced(s: string) {
    forall i :: 0 <= i < |s| && s[i] == ';' ==> i + 1 < |s| && s[i + 1] == ' '
  }

  /** A line that neither moves the `case` depth nor looks like the end of an arm. */
  ghost predicate ArmLine(line: string) {
    Trimmed(line) && '\n' !in line && CaseFree(line) && SemicolonsSpaced(line)
  }

  ghost predicate ArmLines(lines: seq<string>) {
    forall l :: l in lines ==> ArmLine(l)
  }

  lemma KeywordPart(k: Keyword, rest: string)
    requires k != NoKeyword && (rest == "" || IsWhitespace(rest[0]))
    ensures FirstKeyword(Spelling(k) + rest) == k
  {
    hide KeywordOf, FirstWord, Spelling;
    SpellingRoundTrip(k);
    FirstWordOf("", Spelling(k), rest);
    assert "" + Spelling(k) + rest == Spelling(k) + rest;
  }

  /** `KEYWORD text; opener`, with no `case` behind a separator of the text. */
  lemma HeaderIsArmLine(k: Keyword, text: string, opener: Keyword)
    requires k in {KFor, KWhile, KUntil, KIf, KElif} && opener in {KDo, KThen}
    requires NoLaterCase(text) && OneSegment(text)
    ensures ArmLine(Spelling(k) + " " + text + "; " + Spelling(opener))
  {
    hide FirstKeyword, Spelling;
    var head := Spelling(k) + " " + text;
    var line := head + "; " + Spelling(opener);
    HeaderParts(k, text, opener);
    SpellingsVisible(k);
    SpellingsVisible(opener);
    assert line == head + [';'] + (" " + Spelling(opener));
    var parts := Split(line, COMMAND_SEPARATORS);
    var inner := Split(text, COMMAND_SEPARATORS);
    forall part | part in parts ensures OpensNoCase(part) {
      var j :| 0 <= j < |parts| && parts[j] == part;
      if 0 < j < |inner| {
        assert part == inner[j];
      }
    }
  }

  lemma SpellingsVisible(k: Keyword)
    requires k != NoKeyword
    ensures Trimmed(Spelling(k)) && ';' !in Spelling(k) && '\n' !in Spelling(k)
  {
  }

  lemma HeaderParts(k: Keyword, text: string, opener: Keyword)
    requires k != NoKeyword && opener != NoKeyword
    ensures var line := Spelling(k) + " " + text + "; " + Spelling(opener);
            var inner := Split(text, COMMAND_SEPARATORS);
            var parts := Split(line, COMMAND_SEPARATORS);
            && parts == [Spelling(k) + " " + inner[0]] + inner[1..] + [" " + Spelling(opener)]
            && FirstKeyword(parts[0]) == k && FirstKeyword(parts[|parts| - 1]) == opener
  {
    hide FirstKeyword, Spelling, Split;
    var inner := Split(text, COMMAND_SEPARATORS);
    var front, back := Spelling(k) + " ", " " + Spelling(opener);
    FrontUnbroken(k);
    FrontUnbroken(opener);
    SplitPrefix(front, text, COMMAND_SEPARATORS);
    SplitAtSeparator(front + text, ';', back, COMMAND_SEPARATORS);
    SplitUnbroken(back, COMMAND_SEPARATORS);
    assert Spelling(k) + " " + text + "; " + Spelling(opener) == front + text + [';'] + back;
    assert front + inner[0] == Spelling(k) + (" " + inner[0]);
    KeywordPart(k, " " + inner[0]);
    KeywordBehindBlank(opener);
  }

  lemma FrontUnbroken(k: Keyword)
    requires k != NoKeyword
    ensures Without(Spelling(k) + " ", COMMAND_SEPARATORS) && Without(" " + Spelling(k), COMMAND_SEPARATORS)
  {
    SpellingRoundTrip(k);
  }

  lemma KeywordBehindBlank(k: Keyword)
    requires k != NoKeyword
    ensures FirstKeyword(" " + Spelling(k)) == k
  {
    hide KeywordOf, Spelling;
    FirstWordOfPadded(" ", Spelling(k));
    KeywordAlone(k);
  }

  lemma FixedArmLine(k: Keyword)
    requires k in {KElse, KDone, KFi}
    ensures ArmLine(Spelling(k))
  {
    hide FirstKeyword;
    KeywordAlone(k);
    SpellingUnbroken(k);
    SplitUnbroken(Spelling(k), COMMAND_SEPARATORS);
  }

  lemma SpellingUnbroken(k: Keyword)
    requires k != NoKeyword
    ensures Without(Spelling(k), COMMAND_SEPARATORS)
  {
    SpellingRoundTrip(k);
  }

  lemma FlatIsArmLine(s: Stmt)
    requires WellFormedFlat(s) && ';' !in StmtText(s)
    ensures ArmLine(StmtText(s))
  {
    hide FirstKeyword, StmtText, Split;
    FlatRoundTrips(s);
    FlatIsSafe(s);
    NoKeywordAmong(Split(StmtText(s), COMMAND_SEPARATORS));
  }

  lemma KindIsArmLine(kind: LoopKind)
    requires WellFormedKind(kind) && NoLaterCase(HeaderText(kind))
    ensures ArmLine(HeaderText(kind) + "; do")
  {
    hide NoLaterCase, ArmLine, FirstKeyword;
    var k, text := KindParts(kind);
    HeaderIsArmLine(k, text, KDo);
    assert HeaderText(kind) + "; do" == Spelling(k) + " " + text + "; " + Spelling(KDo);
  }

  lemma KindParts(kind: LoopKind) returns (k: Keyword, text: string)
    requires WellFormedKind(kind) && NoLaterCase(HeaderText(kind))
    ensures k in LOOP_OPENERS && HeaderText(kind) == Spelling(k) + " " + text
    ensures NoLaterCase(text) && OneSegment(text)
  {
    hide NoLaterCase, OneSegment;
    match kind {
      case For(variable, items) =>
        k, text := KFor, variable + " in " + Join(" ", ArgTexts(items));
      case While(cond) =>
        k, text := KWhile, cond.text;
      case Until(cond) =>
        k, text := KUntil, cond.text;
    }
    KindOnOneLine(kind);
    assert HeaderText(kind) == Spelling(k) + " " + text;
    BehindKeyword(k, text);
  }

  /** What holds of a header holds of the text behind its keyword. */
  lemma BehindKeyword(k: Keyword, text: string)
    requires k != NoKeyword && NoLaterCase(Spelling(k) + " " + text) && OneSegment(Spelling(k) + " " + text)
    ensures NoLaterCase(text) && OneSegment(text)
  {
    hide FirstKeyword, Split, Spelling;
    var front := Spelling(k) + " ";
    FrontUnbroken(k);
    SplitPrefix(front, text, COMMAND_SEPARATORS);
    assert forall c :: c in text ==> c in front + text;
    var parts, inner := Split(front + text, COMMAND_SEPARATORS), Split(text, COMMAND_SEPARATORS);
    forall j | 1 <= j < |inner| ensures FirstKeyword(inner[j]) !in {KCase, KEsac} {
      assert parts[j] == inner[j];
    }
  }

  lemma ClauseIsArmLine(k: Keyword, cond: Expr)
    requires k in {KIf, KElif} && WellFormedCondition(cond) && NoLaterCase(cond.text)
    ensures ArmLine(HeadText(Spelling(k), cond) + "; then")
  {
    hide NoLaterCase, ArmLine, FirstKeyword;
    HeaderIsArmLine(k, cond.text, KThen);
    assert HeadText(Spelling(k), cond) + "; then" == Spelling(k) + " " + cond.text + "; " + Spelling(KThen);
  }

  /** Every line of a statement that may stand in an arm is an arm line. */
  lemma {:induction false} SkeletonIsArmLines(s: Stmt)
    requires WellFormedStmt(s, InArm)
    ensures ArmLines(Skeleton(s)) && Skeleton(s) != []
    decreases s, 1
  {
    hide ArmLine, NoLaterCase, SkeletonOfBody, SkeletonOfElse, WellFormedKind, WellFormedCondition, HeaderText,
         HeadText, WellFormedFlat, StmtText, WellFormedBody, FirstKeyword;
    FixedArmLine(KDone);
    FixedArmLine(KFi);
    match s {
      case ShellLoop(kind, body) =>
        KindIsArmLine(kind);
        BodyIsArmLines(body);
      case ShellIf(cond, thenBody, elseBody) =>
        ClauseIsArmLine(KIf, cond);
        BodyIsArmLines(thenBody);
        ElseIsArmLines(elseBody);
      case _ => FlatIsArmLine(s);
    }
  }

  lemma {:induction false} AllAreArmLines(body: seq<Stmt>)
    requires WellFormedBody(body, InArm)
    ensures ArmLines(SkeletonOfAll(body)) && (body != [] ==> SkeletonOfAll(body) != [])
    decreases body, 0
  {
    hide ArmLine, Skeleton, WellFormedStmt;
    if body != [] {
      SkeletonIsArmLines(body[0]);
      AllAreArmLines(body[1..]);
    }
  }

  lemma {:induction false} BodyIsArmLines(body: seq<Stmt>)
    requires WellFormedBody(body, InArm)
    ensures ArmLines(SkeletonOfBody(body))
    decreases body, 1
  {
    hide ArmLine, SkeletonOfAll, WellFormedBody, WellFormedFlat, StmtText;
    NoOpDerives();
    FlatIsArmLine(NO_OP);
    AllAreArmLines(body);
  }

  lemma {:induction false} ElseIsArmLines(elseBody: seq<Stmt>)
    requires WellFormedBody(elseBody, InArm)
    ensures ArmLines(SkeletonOfElse(elseBody))
    decreases elseBody, 2
  {
    hide ArmLine, SkeletonOfBody, SkeletonOfAll, WellFormedCondition, HeadText, NoLaterCase, Skeleton;
    if |elseBody| == 1 && elseBody[0].ShellIf? {
      ElifIsArmLines(elseBody[0]);
    } else if elseBody != [] {
      FixedArmLine(KElse);
      AllAreArmLines(elseBody);
    }
  }

  lemma ElifIsArmLines(s: Stmt)
    requires s.ShellIf? && WellFormedBody([s], InArm)
    ensures ArmLines(SkeletonOfElse([s]))
    decreases s, 3
  {
    hide ArmLine, SkeletonOfBody, SkeletonOfAll, WellFormedCondition, HeadText, NoLaterCase, Skeleton;
    ClauseIsArmLine(KElif, s.condition);
    BodyIsArmLines(s.thenBody);
    ElseIsArmLines(s.elseBody);
  }

  // ---- the segments of an arm body ----

  lemma {:induction false} LineSegmentsAppend(a: seq<string>, b: seq<string>)
    ensures LineSegments(a + b) == LineSegments(a) + LineSegments(b)
  {
    hide Pieces, PieceSegments, AllPieceSegments, Trim;
    if a == [] {
      assert a + b == b;
    } else {
      assert (a + b)[1..] == a[1..] + b;
      LineSegmentsAppend(a[1..], b);
      Associative(AllPieceSegments(Pieces(Trim(a[0]))), LineSegments(a[1..]), LineSegments(b));
    }
  }

  lemma OneLineSegments(line: string, segs: seq<string>)
    requires Trimmed(line) && LineParts(line) == segs
    ensures LineSegments([line]) == segs
  {
    hide Pieces, PieceSegments, AllPieceSegments, Trim;
    TrimOfTrimmed(line);
    assert [line][1..] == [];
    assert LineSegments([line]) == AllPieceSegments(Pieces(Trim(line))) + LineSegments([]);
  }

  lemma LineSegmentsAround(first: string, inner: seq<string>, last: string, a: seq<string>, b: seq<string>,
      c: seq<string>)
    requires LineSegments([first]) == a && LineSegments(inner) == b && LineSegments([last]) == c
    ensures LineSegments([first] + inner + [last]) == a + b + c
  {
    hide LineSegments;
    LineSegmentsAppend([first] + inner, [last]);
    LineSegmentsAppend([first], inner);
  }

  lemma FixedSegments(k: Keyword)
    requires k in {KElse, KDone, KFi}
    ensures LineSegments([Spelling(k)]) == [Spelling(k)]
  {
    hide LineSegments, LineParts, FirstKeyword;
    FixedParts(k);
    KeywordAlone(k);
    OneLineSegments(Spelling(k), [Spelling(k)]);
  }

  lemma {:induction false} SkeletonSegments(s: Stmt)
    requires WellFormedStmt(s, InArm)
    ensures LineSegments(Skeleton(s)) == Yield(CstOf(s))
    decreases s, 1
  {
    hide LineSegments, LineParts, SkeletonOfBody, SkeletonOfElse, WellFormedKind, WellFormedCondition, HeaderText,
         HeadText, Trim, WellFormedFlat, StmtText, WellFormedBody, CstsOfBody, TailOf, YieldAll, YieldTail,
         NoLaterCase, Trimmed, FirstKeyword;
    match s {
      case ShellLoop(kind, body) =>
        FixedSegments(KDone);
        KindSegments(kind);
        BodySegments(body);
        LineSegmentsAround(HeaderText(kind) + "; do", SkeletonOfBody(body), "done",
                           [Trim(HeaderText(kind)), "do"], YieldAll(CstsOfBody(body)), ["done"]);
      case ShellIf(cond, thenBody, elseBody) =>
        ConditionalSegments(KIf, s);
        assert Skeleton(s) == ConditionalSkeleton(KIf, s);
      case _ => FlatSegments(s);
    }
  }

  /** A conditional as an `if`, or as the `elif` it is printed as, down to its `fi`. */
  function ConditionalSkeleton(k: Keyword, s: Stmt): seq<string>
    requires k != NoKeyword && s.ShellIf?
  {
    [HeadText(Spelling(k), s.condition) + "; then"] + SkeletonOfBody(s.thenBody) + (SkeletonOfElse(s.elseBody) + ["fi"])
  }

  function ConditionalYield(k: Keyword, s: Stmt): seq<string>
    requires k != NoKeyword && s.ShellIf?
  {
    [HeadText(Spelling(k), s.condition), "then"] + YieldAll(CstsOfBody(s.thenBody)) + YieldTail(TailOf(s.elseBody))
  }

  lemma {:induction false} ConditionalSegments(k: Keyword, s: Stmt)
    requires k in {KIf, KElif} && s.ShellIf? && WellFormedStmt(s, InArm)
    ensures LineSegments(ConditionalSkeleton(k, s)) == ConditionalYield(k, s)
    decreases s, 0
  {
    hide LineSegments, SkeletonOfBody, SkeletonOfElse, WellFormedCondition, HeadText, WellFormedBody, CstsOfBody,
         TailOf, YieldAll, YieldTail, NoLaterCase, Spelling;
    ClauseSegments(k, s.condition);
    BodySegments(s.thenBody);
    ElseSegments(s.elseBody);
    var first, inner := [HeadText(Spelling(k), s.condition) + "; then"], SkeletonOfBody(s.thenBody);
    var rest := SkeletonOfElse(s.elseBody) + ["fi"];
    LineSegmentsAppend(first + inner, rest);
    LineSegmentsAppend(first, inner);
  }

  lemma FlatSegments(s: Stmt)
    requires WellFormedFlat(s) && ';' !in StmtText(s)
    ensures LineSegments([StmtText(s)]) == [StmtText(s)]
  {
    hide LineSegments, LineParts, WellFormedFlat, StmtText, FirstKeyword, FlatLine;
    FlatRoundTrips(s);
    OneSegmentLine(StmtText(s));
    OneLineSegments(StmtText(s), [StmtText(s)]);
  }

  lemma KindSegments(kind: LoopKind)
    requires WellFormedKind(kind)
    ensures LineSegments([HeaderText(kind) + "; do"]) == [Trim(HeaderText(kind)), "do"]
  {
    hide LineSegments, LineParts, WellFormedKind, HeaderText, Trim;
    LoopHeaderParts(kind);
    KindOnOneLine(kind);
    assert Trimmed(HeaderText(kind) + "; do");
    OneLineSegments(HeaderText(kind) + "; do", [Trim(HeaderText(kind)), "do"]);
  }

  lemma ClauseSegments(k: Keyword, cond: Expr)
    requires k in {KIf, KElif} && WellFormedCondition(cond)
    ensures LineSegments([HeadText(Spelling(k), cond) + "; then"]) == [HeadText(Spelling(k), cond), "then"]
  {
    hide LineSegments, LineParts, Trim, FirstKeyword;
    ClauseParts(k, cond);
    assert Trimmed(HeadText(Spelling(k), cond) + "; then");
    OneLineSegments(HeadText(Spelling(k), cond) + "; then", [HeadText(Spelling(k), cond), "then"]);
  }

  lemma {:induction false} AllSegments(body: seq<Stmt>)
    requires WellFormedBody(body, InArm)
    ensures LineSegments(SkeletonOfAll(body)) == YieldAll(CstsOf(body))
    decreases body, 0
  {
    hide Skeleton, WellFormedStmt, CstOf, Yield;
    if body != [] {
      SkeletonSegments(body[0]);
      AllSegments(body[1..]);
      LineSegmentsAppend(Skeleton(body[0]), SkeletonOfAll(body[1..]));
      assert CstsOf(body)[1..] == CstsOf(body[1..]);
    }
  }

  lemma {:induction false} BodySegments(body: seq<Stmt>)
    requires WellFormedBody(body, InArm)
    ensures LineSegments(SkeletonOfBody(body)) == YieldAll(CstsOfBody(body))
    decreases body, 1
  {
    hide SkeletonOfAll, WellFormedBody, CstsOf, YieldAll, LineSegments, WellFormedFlat, StmtText;
    if body == [] {
      NoOpDerives();
      FlatSegments(NO_OP);
      YieldOne(Flat(":"));
    } else {
      AllSegments(body);
    }
  }

  lemma {:induction false} ElseSegments(elseBody: seq<Stmt>)
    requires WellFormedBody(elseBody, InArm)
    ensures LineSegments(SkeletonOfElse(elseBody) + ["fi"]) == YieldTail(TailOf(elseBody))
    decreases elseBody, 2
  {
    hide SkeletonOfBody, SkeletonOfAll, WellFormedCondition, HeadText, YieldAll, CstsOf, CstsOfBody, LineSegments;
    FixedSegments(KFi);
    if elseBody == [] {
      assert [] + ["fi"] == ["fi"];
    } else if |elseBody| == 1 && elseBody[0].ShellIf? {
      ConditionalSegments(KElif, elseBody[0]);
      assert SkeletonOfElse(elseBody) + ["fi"] == ConditionalSkeleton(KElif, elseBody[0]);
    } else {
      PlainElseSegments(elseBody);
    }
  }

  lemma {:induction false} PlainElseSegments(elseBody: seq<Stmt>)
    requires WellFormedBody(elseBody, InArm)
    ensures LineSegments(["else"] + SkeletonOfAll(elseBody) + ["fi"]) == ["else"] + YieldAll(CstsOf(elseBody)) + ["fi"]
    decreases elseBody, 1
  {
    hide SkeletonOfAll, YieldAll, CstsOf, LineSegments, WellFormedBody;
    FixedSegments(KElse);
    FixedSegments(KFi);
    AllSegments(elseBody);
    LineSegmentsAround("else", SkeletonOfAll(elseBody), "fi", ["else"], YieldAll(CstsOf(elseBody)), ["fi"]);
  }
}
