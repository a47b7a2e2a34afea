/** Printing a block, collecting its region and parsing it again gives the padded block. */
module BlockRoundTrip {
  import opened Outcomes
  import opened Text
  import opened ShellAst
  import opened FlatLines
  import opened Blocks
  import opened Grammar
  import opened Regions
  import opened Printer
  import opened FlatRoundTrip
  import opened WellFormed
  import opened Derivations
  import opened Layout

  // ---- the segments of single lines ----

  function LineParts(line: string): seq<string> {
    AllPieceSegments(Pieces(line))
  }

  /** A visible text whose keyword is no body opener is one segment. */
  lemma OneSegmentLine(text: string)
    requires Trimmed(text) && text[0] != '#' && ';' !in text
    requires FirstKeyword(text) !in BODY_OPENERS || (FirstKeyword(text) != NoKeyword
      && text == Spelling(FirstKeyword(text)))
    ensures LineParts(text) == [text]
  {
    hide FirstKeyword, Trim, Spelling, PieceSegments;
    SplitUnbroken(text, SEMICOLON);
    WholePiece("", text);
    assert "" + text == text;
    assert Pieces(text) == [text];
    assert [text][1..] == [];
    assert AllPieceSegments([text]) == PieceSegments(text) + AllPieceSegments([]);
  }

  lemma WholePiece(blank: string, text: string)
    requires Blank(blank) && Trimmed(text) && text[0] != '#'
    requires FirstKeyword(text) !in BODY_OPENERS || (FirstKeyword(text) != NoKeyword
      && text == Spelling(FirstKeyword(text)))
    ensures PieceSegments(blank + text) == [text]
    ensures Trim(blank + text) == text
  {
    hide FirstKeyword, Spelling;
    TrimPadded(blank, text, "");
    assert blank + text + "" == blank + text;
  }

  /** `header; do` and `if cond; then` are the header and the keyword. */
  lemma HeaderAndOpener(text: string, head: string, k: Keyword)
    requires text != "" && !IsWhitespace(text[0]) && text[0] != '#' && ';' !in text
    requires Trim(text) == head && Trimmed(head) && FirstKeyword(head) !in BODY_OPENERS
    requires k in BODY_OPENERS
    ensures LineParts(text + "; " + Spelling(k)) == [head, Spelling(k)]
  {
    hide FirstKeyword, Spelling, Trim;
    var opener := Spelling(k);
    KeywordAlone(k);
    var line := text + "; " + opener;
    assert line == text + [';'] + (" " + opener);
    OpenerUnbroken(k);
    SplitAtSeparator(text, ';', " " + opener, SEMICOLON);
    SplitUnbroken(text, SEMICOLON);
    SplitUnbroken(" " + opener, SEMICOLON);
    var pieces := [text] + [" " + opener];
    assert Pieces(line) == pieces;
    HeadPiece(text, head);
    WholePiece(" ", opener);
    assert pieces[1..] == [" " + opener] && pieces[1..][1..] == [];
    assert AllPieceSegments([" " + opener]) == [opener] + AllPieceSegments([]);
    assert [head] + [opener] == [head, opener];
  }

  lemma OpenerUnbroken(k: Keyword)
    requires k in BODY_OPENERS
    ensures Without(" " + Spelling(k), SEMICOLON)
  {
    SpellingRoundTrip(k);
  }

  lemma HeadPiece(text: string, head: string)
    requires text != "" && !IsWhitespace(text[0]) && text[0] != '#'
    requires Trim(text) == head && Trimmed(head) && FirstKeyword(head) !in BODY_OPENERS
    ensures PieceSegments(text) == [head]
  {
    hide FirstKeyword, Spelling;
    var pre, post := TrimShape(text);
    assert text[0] == (pre + head + post)[0];
    assert pre == "";
  }

  lemma LoopHeaderParts(kind: LoopKind)
    requires WellFormedKind(kind)
    ensures LineParts(HeaderText(kind) + "; do") == [Trim(HeaderText(kind)), "do"]
  {
    hide FirstKeyword, Trim, LineParts, LoopHeader, OneSegment;
    HeaderRoundTrip(kind);
    KindOnOneLine(kind);
    KindStart(kind);
    HeadIsOneSegment(kind);
    HeaderAndOpener(HeaderText(kind), Trim(HeaderText(kind)), KDo);
    assert HeaderText(kind) + "; " + Spelling(KDo) == HeaderText(kind) + "; do";
  }

  lemma HeadIsOneSegment(kind: LoopKind)
    requires WellFormedKind(kind)
    ensures ';' !in HeaderText(kind)
  {
    KindOnOneLine(kind);
  }

  lemma KindStart(kind: LoopKind)
    requires WellFormedKind(kind)
    ensures HeaderText(kind) != "" && HeaderText(kind)[0] != '#'
  {
  }

  lemma ClauseParts(k: Keyword, cond: Expr)
    requires k in {KIf, KElif} && WellFormedCondition(cond)
    ensures LineParts(HeadText(Spelling(k), cond) + "; then") == [HeadText(Spelling(k), cond), "then"]
    ensures FirstKeyword(HeadText(Spelling(k), cond)) == k
  {
    hide FirstKeyword, Trim, LineParts;
    var head := HeadText(Spelling(k), cond);
    assert head == Spelling(k) + " " + cond.text;
    KeywordHead(k, cond.text);
    TrimOfTrimmed(head);
    assert head[0] in {'i', 'e'} && ';' !in head;
    HeaderAndOpener(head, head, KThen);
    assert head + "; " + Spelling(KThen) == head + "; then";
  }

  lemma FixedParts(k: Keyword)
    requires k in {KElse, KDone, KFi}
    ensures LineParts(Spelling(k)) == [Spelling(k)] && FirstKeyword(Spelling(k)) == k
  {
    hide FirstKeyword, LineParts;
    KeywordAlone(k);
    assert ';' !in Spelling(k);
    OneSegmentLine(Spelling(k));
  }

  // ---- whole lines in the collector ----

  predicate NeverCloses(segs: seq<string>) {
    forall s :: s in segs ==> DepthStep(s) >= 0
  }

  lemma {:induction false} PiecesWithoutCloser(pieces: seq<string>, lines: seq<string>, li: nat, d: int)
    requires li <= |lines| && NeverCloses(AllPieceSegments(pieces))
    ensures CollectFrom(pieces, lines, li, d) ==
            Ahead(AllPieceSegments(pieces), CollectFrom([], lines, li, d + Depth(AllPieceSegments(pieces))))
    decreases |pieces|
  {
    hide PieceSegments, DepthStep, Pieces;
    var rest := CollectFrom([], lines, li, d + Depth(AllPieceSegments(pieces)));
    if pieces == [] {
      AheadNothing(rest);
    } else {
      var segs, more := PieceSegments(pieces[0]), AllPieceSegments(pieces[1..]);
      assert AllPieceSegments(pieces) == segs + more;
      assert NeverCloses(more) && forall s :: s in segs ==> DepthStep(s) >= 0;
      DepthAppend(segs, more);
      if segs == [] {
        assert [] + more == more;
        PiecesWithoutCloser(pieces[1..], lines, li, d);
      } else {
        assert Last(segs) in segs;
        PieceDepth(pieces[0]);
        PiecesWithoutCloser(pieces[1..], lines, li, d + DepthStep(Last(segs)));
        AheadAhead(segs, more, rest);
      }
    }
  }

  /** A line without a closer adds its segments and moves the depth by theirs. */
  lemma LineWithoutCloser(lines: seq<string>, i: nat, d: int, segs: seq<string>)
    requires i < |lines| && LineParts(lines[i]) == segs && NeverCloses(segs)
    ensures CollectFrom([], lines, i, d) == Ahead(segs, CollectFrom([], lines, i + 1, d + Depth(segs)))
  {
    hide PieceSegments, DepthStep, Pieces, AllPieceSegments;
    PiecesWithoutCloser(Pieces(lines[i]), lines, i + 1, d);
  }

  /** Behind a block that was entered at depth `d`: the region is over, or it goes on. */
  function Onward(lines: seq<string>, i: nat, d: int): Region
    requires i <= |lines|
  {
    if d == 0 then Ok(([], i)) else CollectFrom([], lines, i, d)
  }

  lemma CloserLine(lines: seq<string>, i: nat, d: int, k: Keyword)
    requires i < |lines| && k in {KDone, KFi} && lines[i] == Spelling(k)
    ensures CollectFrom([], lines, i, d + 1) == Ahead([Spelling(k)], Onward(lines, i + 1, d))
  {
    hide PieceSegments, FirstKeyword, Spelling, Pieces, CollectFrom;
    CloserPieces(k);
    CloserPiece(lines, i + 1, d, Spelling(k));
    CollectNextLine(lines, i, d + 1);
  }

  lemma CollectNextLine(lines: seq<string>, i: nat, d: int)
    requires i < |lines|
    ensures CollectFrom([], lines, i, d) == CollectFrom(Pieces(lines[i]), lines, i + 1, d)
  {
    hide Pieces, PieceSegments;
  }

  lemma CloserPieces(k: Keyword)
    requires k in {KDone, KFi}
    ensures Pieces(Spelling(k)) == [Spelling(k)] && PieceSegments(Spelling(k)) == [Spelling(k)]
    ensures DepthStep(Spelling(k)) == -1
  {
    hide FirstKeyword, Spelling, Trim, PieceSegments;
    var line := Spelling(k);
    KeywordAlone(k);
    CloserUnbroken(k);
    SplitUnbroken(line, SEMICOLON);
    WholePiece("", line);
    assert "" + line == line;
  }

  lemma CloserUnbroken(k: Keyword)
    requires k in {KDone, KFi}
    ensures Without(Spelling(k), SEMICOLON)
  {
  }

  lemma CloserPiece(lines: seq<string>, li: nat, d: int, closer: string)
    requires li <= |lines| && PieceSegments(closer) == [closer] && DepthStep(closer) == -1
    ensures CollectFrom([closer], lines, li, d + 1) == Ahead([closer], Onward(lines, li, d))
  {
    hide PieceSegments, DepthStep, Pieces;
    assert [closer][1..] == [] && Last([closer]) == closer;
    assert [closer] + [] == [closer];
  }

  lemma DepthOfOne(seg: string)
    ensures Depth([seg]) == DepthStep(seg)
  {
    assert [seg][1..] == [];
  }

  lemma DepthOfTwo(a: string, b: string)
    ensures Depth([a, b]) == DepthStep(a) + DepthStep(b)
  {
    hide DepthStep;
    DepthOfOne(b);
    assert [a, b][1..] == [b];
  }

  // ---- blocks in the collector ----

  lemma {:induction false} LoopCollected(kind: LoopKind, body: seq<Stmt>, place: Place, lines: seq<string>, i: nat,
      d: nat)
    requires WellFormedKind(kind) && WellFormedBody(body, place) && place != AtTop
    requires At(lines, i, [HeaderText(kind) + "; do"] + SkeletonOfBody(body) + ["done"])
    ensures CollectFrom([], lines, i, d) ==
            Ahead([Trim(HeaderText(kind)), "do"] + YieldAll(CstsOfBody(body)) + ["done"],
                  Onward(lines, i + |SkeletonOfBody(body)| + 2, d))
    decreases body, 2
  {
    hide FirstKeyword, CollectFrom, LineParts, Trim, HeaderText, WellFormedBody, WellFormedKind, SkeletonOfBody,
         YieldAll, CstsOfBody, Onward;
    var lined, inner := SkeletonOfBody(body), YieldAll(CstsOfBody(body));
    var first, opening := [HeaderText(kind) + "; do"], [Trim(HeaderText(kind)), "do"];
    var end := Onward(lines, i + |lined| + 2, d);
    Associative(first, lined, ["done"]);
    AtParts(lines, i, first, lined + ["done"]);
    AtFirst(lines, i, first);
    AtParts(lines, i + 1, lined, ["done"]);
    AtFirst(lines, i + 1 + |lined|, ["done"]);
    LoopHeaderLine(kind, lines, i, d);
    BodyCollected(body, place, lines, i + 1, d + 1);
    CloserLine(lines, i + 1 + |lined|, d, KDone);
    AheadAhead(inner, ["done"], end);
    AheadAhead(opening, inner + ["done"], end);
    Associative(opening, inner, ["done"]);
  }

  lemma {:induction false} IfCollected(s: Stmt, place: Place, lines: seq<string>, i: nat, d: nat)
    requires s.ShellIf? && WellFormedStmt(s, place) && place != AtTop
    requires At(lines, i, Skeleton(s))
    ensures CollectFrom([], lines, i, d) == Ahead(Yield(CstOf(s)), Onward(lines, i + |Skeleton(s)|, d))
    decreases s, 0
  {
    hide FirstKeyword, CollectFrom, LineParts, WellFormedBody, WellFormedCondition, SkeletonOfBody, SkeletonOfElse,
         YieldAll, YieldTail, CstsOfBody, TailOf, Onward, HeadText;
    var end := Onward(lines, i + |Skeleton(s)|, d);
    var head, lined, rest := HeadText("if", s.condition), SkeletonOfBody(s.thenBody), SkeletonOfElse(s.elseBody)
      + ["fi"];
    var first := [head + "; then"];
    assert Skeleton(s) == first + (lined + rest);
    AtParts(lines, i, first, lined + rest);
    AtFirst(lines, i, first);
    AtParts(lines, i + 1, lined, rest);
    IfHeaderLine(s.condition, lines, i, d);
    BodyCollected(s.thenBody, Inside(place), lines, i + 1, d + 1);
    ElseCollected(s.elseBody, Inside(place), lines, i + 1 + |lined|, d);
    var inner, tail := YieldAll(CstsOfBody(s.thenBody)), YieldTail(TailOf(s.elseBody));
    AheadAhead(inner, tail, end);
    AheadAhead([head, "then"], inner + tail, end);
    assert Yield(CstOf(s)) == [head, "then"] + (inner + tail);
  }

  /** Entered at any depth, a well-formed block gives the segments of its derivation. */
  lemma {:induction false} BlockCollected(s: Stmt, place: Place, lines: seq<string>, i: nat, d: nat)
    requires WellFormedStmt(s, place) && place != AtTop && (s.ShellLoop? || s.ShellIf?)
    requires At(lines, i, Skeleton(s))
    ensures CollectFrom([], lines, i, d) == Ahead(Yield(CstOf(s)), Onward(lines, i + |Skeleton(s)|, d))
    decreases s, 1
  {
    hide CollectFrom, Trim, HeaderText, WellFormedBody, WellFormedKind, SkeletonOfBody, YieldAll, CstsOfBody, Onward;
    if s.ShellLoop? {
      LoopCollected(s.kind, s.body, Inside(place), lines, i, d);
    } else {
      IfCollected(s, place, lines, i, d);
    }
  }

  lemma LoopHeaderLine(kind: LoopKind, lines: seq<string>, i: nat, d: int)
    requires WellFormedKind(kind) && i < |lines| && lines[i] == HeaderText(kind) + "; do"
    ensures CollectFrom([], lines, i, d) ==
            Ahead([Trim(HeaderText(kind)), "do"], CollectFrom([], lines, i + 1, d + 1))
  {
    hide FirstKeyword, CollectFrom, LineParts, Trim, HeaderText, WellFormedKind, LoopHeader;
    var head := Trim(HeaderText(kind));
    LoopHeaderParts(kind);
    HeaderRoundTrip(kind);
    KeywordAlone(KDo);
    DepthOfTwo(head, "do");
    LineWithoutCloser(lines, i, d, [head, "do"]);
  }

  lemma IfHeaderLine(cond: Expr, lines: seq<string>, i: nat, d: int)
    requires WellFormedCondition(cond) && i < |lines| && lines[i] == HeadText("if", cond) + "; then"
    ensures CollectFrom([], lines, i, d) ==
            Ahead([HeadText("if", cond), "then"], CollectFrom([], lines, i + 1, d + 1))
  {
    hide FirstKeyword, CollectFrom, LineParts, HeadText, WellFormedCondition;
    var head := HeadText("if", cond);
    ClauseParts(KIf, cond);
    KeywordAlone(KThen);
    DepthOfTwo(head, "then");
    LineWithoutCloser(lines, i, d, [head, "then"]);
  }

  lemma ElifHeaderLine(cond: Expr, lines: seq<string>, i: nat, d: int)
    requires WellFormedCondition(cond) && i < |lines| && lines[i] == HeadText("elif", cond) + "; then"
    ensures CollectFrom([], lines, i, d) ==
            Ahead([HeadText("elif", cond), "then"], CollectFrom([], lines, i + 1, d))
  {
    hide FirstKeyword, CollectFrom, LineParts, HeadText, WellFormedCondition;
    var head := HeadText("elif", cond);
    ClauseParts(KElif, cond);
    KeywordAlone(KThen);
    DepthOfTwo(head, "then");
    LineWithoutCloser(lines, i, d, [head, "then"]);
  }

  lemma ElseLine(lines: seq<string>, i: nat, d: int)
    requires i < |lines| && lines[i] == "else"
    ensures CollectFrom([], lines, i, d) == Ahead(["else"], CollectFrom([], lines, i + 1, d))
  {
    hide FirstKeyword, CollectFrom, LineParts;
    FixedParts(KElse);
    DepthOfOne("else");
    LineWithoutCloser(lines, i, d, ["else"]);
  }

  /** From the end of a then-body to the closing `fi`. */
  lemma {:induction false} ElseCollected(elseBody: seq<Stmt>, place: Place, lines: seq<string>, i: nat, d: nat)
    requires WellFormedBody(elseBody, place) && place != AtTop
    requires At(lines, i, SkeletonOfElse(elseBody) + ["fi"])
    ensures CollectFrom([], lines, i, d + 1) ==
            Ahead(YieldTail(TailOf(elseBody)), Onward(lines, i + |SkeletonOfElse(elseBody)| + 1, d))
    decreases elseBody, 2
  {
    hide FirstKeyword, CollectFrom, LineParts, WellFormedCondition, SkeletonOfBody, SkeletonOfAll, YieldAll,
         CstsOfBody, CstsOf, HeadText, Onward;
    if elseBody == [] {
      AtFirst(lines, i, ["fi"]);
      assert [] + ["fi"] == ["fi"];
      CloserLine(lines, i, d, KFi);
    } else if |elseBody| == 1 && elseBody[0].ShellIf? {
      assert elseBody == [elseBody[0]];
      assert SkeletonOfElse(elseBody) + ["fi"] == ElifSkeleton(elseBody[0]);
      ElifCollected(elseBody[0], place, lines, i, d);
    } else {
      PlainElseCollected(elseBody, place, lines, i, d);
    }
  }

  function ElifSkeleton(s: Stmt): seq<string>
    requires s.ShellIf?
  {
    [HeadText("elif", s.condition) + "; then"] + SkeletonOfBody(s.thenBody) + (SkeletonOfElse(s.elseBody) + ["fi"])
  }

  lemma {:induction false} ElifCollected(s: Stmt, place: Place, lines: seq<string>, i: nat, d: nat)
    requires s.ShellIf? && WellFormedStmt(s, place) && place != AtTop
    requires At(lines, i, ElifSkeleton(s))
    ensures CollectFrom([], lines, i, d + 1) ==
            Ahead(YieldTail(TailOf([s])), Onward(lines, i + |ElifSkeleton(s)|, d))
    decreases s, 1
  {
    hide FirstKeyword, CollectFrom, LineParts, WellFormedCondition, SkeletonOfBody, SkeletonOfElse, YieldAll,
         CstsOfBody, CstsOf, HeadText, Onward, WellFormedBody;
    var end := Onward(lines, i + |ElifSkeleton(s)|, d);
    var head, lined, rest := HeadText("elif", s.condition), SkeletonOfBody(s.thenBody), SkeletonOfElse(s.elseBody)
      + ["fi"];
    var first := [head + "; then"];
    Associative(first, lined, rest);
    AtParts(lines, i, first, lined + rest);
    AtFirst(lines, i, first);
    AtParts(lines, i + 1, lined, rest);
    ElifHeaderLine(s.condition, lines, i, d + 1);
    BodyCollected(s.thenBody, Inside(place), lines, i + 1, d + 1);
    ElseCollected(s.elseBody, Inside(place), lines, i + 1 + |lined|, d);
    var inner, tail := YieldAll(CstsOfBody(s.thenBody)), YieldTail(TailOf(s.elseBody));
    AheadAhead(inner, tail, end);
    AheadAhead([head, "then"], inner + tail, end);
    assert YieldTail(TailOf([s])) == [head, "then"] + (inner + tail);
  }

  lemma {:induction false} PlainElseCollected(elseBody: seq<Stmt>, place: Place, lines: seq<string>, i: nat, d: nat)
    requires WellFormedBody(elseBody, place) && place != AtTop
    requires At(lines, i, ["else"] + SkeletonOfAll(elseBody) + ["fi"])
    ensures CollectFrom([], lines, i, d + 1) ==
            Ahead(["else"] + YieldAll(CstsOf(elseBody)) + ["fi"], Onward(lines, i + |SkeletonOfAll(elseBody)| + 2, d))
    decreases elseBody, 1
  {
    hide FirstKeyword, CollectFrom, LineParts, SkeletonOfAll, YieldAll, CstsOf, Onward;
    var lined, inner := SkeletonOfAll(elseBody), YieldAll(CstsOf(elseBody));
    var end := Onward(lines, i + |lined| + 2, d);
    assert ["else"] + lined + ["fi"] == ["else"] + (lined + ["fi"]);
    AtParts(lines, i, ["else"], lined + ["fi"]);
    AtFirst(lines, i, ["else"]);
    AtParts(lines, i + 1, lined, ["fi"]);
    AtFirst(lines, i + 1 + |lined|, ["fi"]);
    ElseLine(lines, i, d + 1);
    AllCollected(elseBody, place, lines, i + 1, d + 1);
    CloserLine(lines, i + 1 + |lined|, d, KFi);
    AheadAhead(inner, ["fi"], end);
    AheadAhead(["else"], inner + ["fi"], end);
    Associative(["else"], inner, ["fi"]);
  }

  lemma {:induction false} BodyCollected(body: seq<Stmt>, place: Place, lines: seq<string>, i: nat, d: int)
    requires WellFormedBody(body, place) && place != AtTop && At(lines, i, SkeletonOfBody(body)) && d > 0
    ensures CollectFrom([], lines, i, d) ==
            Ahead(YieldAll(CstsOfBody(body)), CollectFrom([], lines, i + |SkeletonOfBody(body)|, d))
    decreases body, 1
  {
    hide CollectFrom, SkeletonOfAll, CstsOf, WellFormedBody, WellFormedFlat, StmtText, YieldAll;
    if body == [] {
      NoOpDerives();
      AtFirst(lines, i, [":"]);
      FlatCollected(NO_OP, lines, i, d);
      YieldOne(Flat(":"));
    } else {
      AllCollected(body, place, lines, i, d);
    }
  }

  lemma YieldOne(c: Cst)
    ensures YieldAll([c]) == Yield(c)
  {
    hide Yield;
    assert [c][1..] == [];
    assert Yield(c) + [] == Yield(c);
  }

  lemma FlatCollected(s: Stmt, lines: seq<string>, i: nat, d: int)
    requires WellFormedFlat(s) && ';' !in StmtText(s)
    requires i < |lines| && lines[i] == StmtText(s)
    ensures CollectFrom([], lines, i, d) == Ahead([StmtText(s)], CollectFrom([], lines, i + 1, d))
  {
    hide CollectFrom, FirstKeyword, WellFormedFlat, StmtText, LineParts, FlatLine;
    FlatRoundTrips(s);
    OneSegmentLine(StmtText(s));
    DepthOfOne(StmtText(s));
    LineWithoutCloser(lines, i, d, [StmtText(s)]);
  }

  lemma {:induction false} AllCollected(body: seq<Stmt>, place: Place, lines: seq<string>, i: nat, d: int)
    requires WellFormedBody(body, place) && place != AtTop && At(lines, i, SkeletonOfAll(body)) && d > 0
    ensures CollectFrom([], lines, i, d) ==
            Ahead(YieldAll(CstsOf(body)), CollectFrom([], lines, i + |SkeletonOfAll(body)|, d))
    decreases body, 0
  {
    hide CollectFrom, Skeleton, CstOf, Yield, WellFormedStmt;
    var end := CollectFrom([], lines, i + |SkeletonOfAll(body)|, d);
    if body == [] {
      AheadNothing(end);
    } else {
      var here := Skeleton(body[0]);
      AtParts(lines, i, here, SkeletonOfAll(body[1..]));
      StmtCollected(body[0], place, lines, i, d);
      AllCollected(body[1..], place, lines, i + |here|, d);
      assert CstsOf(body)[1..] == CstsOf(body[1..]);
      AheadAhead(Yield(CstOf(body[0])), YieldAll(CstsOf(body[1..])), end);
    }
  }

  /** Inside a region, any statement gives its segments and leaves the depth alone. */
  lemma {:induction false} StmtCollected(s: Stmt, place: Place, lines: seq<string>, i: nat, d: int)
    requires WellFormedStmt(s, place) && place != AtTop && At(lines, i, Skeleton(s)) && d > 0
    ensures CollectFrom([], lines, i, d) == Ahead(Yield(CstOf(s)), CollectFrom([], lines, i + |Skeleton(s)|, d))
    decreases s, 2
  {
    hide CollectFrom, WellFormedBody, WellFormedKind, WellFormedCondition, WellFormedFlat, StmtText, HeaderText;
    AtFirst(lines, i, Skeleton(s));
    if s.ShellLoop? || s.ShellIf? {
      BlockCollected(s, place, lines, i, d);
    } else {
      FlatCollected(s, lines, i, d);
    }
  }
}
