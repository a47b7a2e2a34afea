/** Accepted scripts with blocks and cases: a tame one comes back from its emitted file. */
module TameScripts {
  import opened Outcomes
  import opened Text
  import opened ShellAst
  import opened Splicer
  import opened Tokenizer
  import opened TokenText
  import opened FlatLines
  import opened Blocks
  import opened Grammar
  import opened Regions
  import opened Cases
  import opened Scripts
  import opened Printer
  import opened FlatRoundTrip
  import opened WellFormed
  import opened ScriptRoundTrip
  import opened Lowerings
  import opened Misreadings
  import opened FlatReturns
  import opened Truncations
  import opened FlatScripts

  // ---- tame statements ----

  /** No parenthesis in a rendered substitution, and no arithmetic expansion that nothing closes. */
  predicate TameItem(e: Expr) {
    ParenFree(e) && (e.LitStr? && OpenBare(e.text) ==> ArithmeticBare(e.text))
  }

  /**
   * Flat statements stay as they are; in an arm no header holds a later `case` or `esac`; the word and the patterns
   * of a `case` can be written.
   */
  ghost predicate Tame(s: Stmt, place: Place)
    decreases s
  {
    match s
    case ShellLoop(kind, body) =>
      && (kind.For? ==> forall e :: e in kind.items ==> TameItem(e))
      && (place == InArm ==> NoLaterCase(HeaderText(kind)))
      && TameBody(body, Inside(place))
    case ShellIf(cond, thenBody, elseBody) =>
      && (place == InArm && cond.LitStr? ==> NoLaterCase(cond.text))
      && TameBody(thenBody, Inside(place)) && TameBody(elseBody, Inside(place))
    case ShellCase(word, arms) => WellFormedWord(word) && TameArms(arms)
    case _ => Stays(s)
  }

  ghost predicate TameBody(body: seq<Stmt>, place: Place)
    decreases body
  {
    body == [] || (Tame(body[0], place) && TameBody(body[1..], place))
  }

  ghost predicate TameArms(arms: seq<CaseArm>)
    decreases arms
  {
    arms == [] || (WellFormedPatterns(arms[0].patterns) && TameBody(arms[0].body, InArm) && TameArms(arms[1..]))
  }

  lemma {:induction false} TameAppend(a: seq<Stmt>, b: seq<Stmt>, place: Place)
    ensures TameBody(a + b, place) <==> TameBody(a, place) && TameBody(b, place)
    decreases |a|
  {
    hide Tame;
    if a == [] {
      assert a + b == b;
    } else {
      assert (a + b)[1..] == a[1..] + b;
      TameAppend(a[1..], b, place);
    }
  }

  lemma {:induction false} WellFormedAppend(a: seq<Stmt>, b: seq<Stmt>, place: Place)
    ensures WellFormedBody(a + b, place) <==> WellFormedBody(a, place) && WellFormedBody(b, place)
    decreases |a|
  {
    hide WellFormedStmt;
    if a == [] {
      assert a + b == b;
    } else {
      assert (a + b)[1..] == a[1..] + b;
      WellFormedAppend(a[1..], b, place);
    }
  }

  // ---- segments ----

  /** A trimmed piece of a line. */
  ghost predicate SegmentText(seg: string) {
    Trimmed(seg) && '\n' !in seg && ';' !in seg
  }

  ghost predicate SegmentTexts(segs: seq<string>) {
    forall k :: 0 <= k < |segs| ==> SegmentText(segs[k])
  }

  lemma TextsAppend(a: seq<string>, b: seq<string>)
    ensures SegmentTexts(a + b) <==> SegmentTexts(a) && SegmentTexts(b)
  {
    hide SegmentText;
    if SegmentTexts(a + b) {
      forall k | 0 <= k < |a| ensures SegmentText(a[k]) {
        assert (a + b)[k] == a[k];
      }
      forall k | 0 <= k < |b| ensures SegmentText(b[k]) {
        assert (a + b)[|a| + k] == b[k];
      }
    }
  }

  lemma PieceTexts(raw: string)
    requires '\n' !in raw && ';' !in raw
    ensures SegmentTexts(PieceSegments(raw))
  {
    hide TrimStart, TrimEnd, FirstKeyword, Spelling;
    var s := Trim(raw);
    var pre, post := TrimShape(raw);
    assert forall c :: c in s ==> c in raw;
    if s != "" && !StartsWithHash(s) {
      BehindWord(s);
      if FirstKeyword(s) != NoKeyword {
        SpelledText(FirstKeyword(s));
      }
    }
  }

  lemma SpelledText(k: Keyword)
    requires k != NoKeyword
    ensures SegmentText(Spelling(k))
  {
  }

  lemma BehindWord(s: string)
    ensures AfterFirstWord(s) == "" || Trimmed(AfterFirstWord(s))
    ensures forall c :: c in AfterFirstWord(s) ==> c in s
  {
    hide TrimStart, TrimEnd, WordLength;
    var t := TrimStart(s);
    TrimStartShape(s);
    var pre, post := TrimShape(DropWord(s));
    assert forall c :: c in DropWord(s) ==> c in t;
    assert forall c :: c in t ==> c in s;
    assert forall c :: c in AfterFirstWord(s) ==> c in DropWord(s);
  }

  lemma PiecesPlain(line: string, k: nat)
    requires '\n' !in line && k < |Pieces(line)|
    ensures '\n' !in Pieces(line)[k] && ';' !in Pieces(line)[k]
  {
    hide Split;
    SplitPieces(line, SEMICOLON);
    var pieces := Split(line, SEMICOLON);
    assert Without(pieces[k], SEMICOLON);
  }

  ghost predicate PlainPieces(pieces: seq<string>) {
    forall k :: 0 <= k < |pieces| ==> '\n' !in pieces[k] && ';' !in pieces[k]
  }

  ghost predicate PlainLines(lines: seq<string>) {
    forall k :: 0 <= k < |lines| ==> '\n' !in lines[k]
  }

  lemma {:induction false} CollectedTexts(pieces: seq<string>, lines: seq<string>, li: nat, depth: int)
    requires li <= |lines| && PlainPieces(pieces) && PlainLines(lines) && CollectFrom(pieces, lines, li, depth).Ok?
    ensures SegmentTexts(CollectFrom(pieces, lines, li, depth).value.0)
    decreases |lines| - li, |pieces|
  {
    hide PieceSegments, Pieces, DepthStep, SegmentText;
    if pieces != [] {
      var segs := PieceSegments(pieces[0]);
      PieceTexts(pieces[0]);
      if segs == [] {
        CollectedTexts(pieces[1..], lines, li, depth);
      } else if !ClosesRegion(Last(segs), depth) {
        var next := depth + DepthStep(Last(segs));
        CollectedTexts(pieces[1..], lines, li, next);
        TextsAppend(segs, CollectFrom(pieces[1..], lines, li, next).value.0);
      }
    } else {
      forall k | 0 <= k < |Pieces(lines[li])| ensures '\n' !in Pieces(lines[li])[k] && ';' !in Pieces(lines[li])[k] {
        PiecesPlain(lines[li], k);
      }
      CollectedTexts(Pieces(lines[li]), lines, li + 1, depth);
    }
  }

  lemma {:induction false} AllPieceTexts(pieces: seq<string>)
    requires PlainPieces(pieces)
    ensures SegmentTexts(AllPieceSegments(pieces))
  {
    hide PieceSegments, SegmentText;
    if pieces != [] {
      PieceTexts(pieces[0]);
      AllPieceTexts(pieces[1..]);
      TextsAppend(PieceSegments(pieces[0]), AllPieceSegments(pieces[1..]));
    }
  }

  lemma {:induction false} LineTexts(lines: seq<string>)
    requires PlainLines(lines)
    ensures SegmentTexts(LineSegments(lines))
  {
    hide AllPieceSegments, Pieces, SegmentText, Trim;
    if lines != [] {
      var line := Trim(lines[0]);
      TrimLacks(lines[0], '\n');
      forall k | 0 <= k < |Pieces(line)| ensures '\n' !in Pieces(line)[k] && ';' !in Pieces(line)[k] {
        PiecesPlain(line, k);
      }
      AllPieceTexts(Pieces(line));
      LineTexts(lines[1..]);
      TextsAppend(AllPieceSegments(Pieces(line)), LineSegments(lines[1..]));
    }
  }

  lemma ArmTexts(text: string)
    ensures SegmentTexts(SegmentsOf(text))
  {
    hide LineSegments, Split, SegmentText;
    SplitPieces(text, NEWLINE);
    var lines := Lines(text);
    forall k | 0 <= k < |lines| ensures '\n' !in lines[k] {
      var piece := Split(text, NEWLINE)[k];
      assert '\n' !in piece;
    }
    LineTexts(lines);
  }

  // ---- flat segments ----

  /** Printing brings in no semicolon. */
  lemma FlatLacks(line: string, s: Stmt)
    requires LineOf(line, s) && ';' !in line
    ensures ';' !in StmtText(s)
  {
    hide FlatLine, ControlFlowKeyword, StmtText, Command, CmdText, Stages, Split, StageTexts, ArgText, LowerRawToken,
         IsPosixIdentifier, TokenizeFrom, Trim;
    TakenBranch(line, s);
    if s.Cmd? {
      PrintOfCommand(s);
      CommandLineLacks(line, s, ';');
    } else if s.Pipeline? {
      var texts := StageTexts(s.stages);
      forall k | 0 <= k < |texts| ensures ';' !in texts[k] {
        StageLacks(line, s.stages, k);
      }
      JoinPipesLacks(texts, ';');
      PrintOfPipeline(s);
    } else {
      var text, ts := AssignmentParts(line, s);
      ValueLacks(line, s, text, ts);
      PrintOfAssignment(s);
    }
  }

  lemma PrintOfPipeline(s: Stmt)
    requires s.Pipeline?
    ensures StmtText(s) == Join(" | ", StageTexts(s.stages))
  {
  }

  lemma PrintOfAssignment(s: Stmt)
    requires s.ShellAssign?
    ensures StmtText(s) == s.target + "=" + ArgText(s.value)
  {
  }

  lemma StageLacks(line: string, stages: seq<Stmt>, k: nat)
    requires ';' !in line && Stages(Split(line, PIPE)) == Ok(stages) && k < |stages|
    ensures ';' !in StageTexts(stages)[k]
  {
    hide Command, CmdText, Stages, Split, StageTexts, Trim;
    var pieces := Split(line, PIPE);
    StagesFromPieces(pieces);
    assert FromPiece(pieces, stages[k]);
    var piece :| piece in pieces && Command(Trim(piece)) == Ok(Some(stages[k]));
    var i :| 0 <= i < |pieces| && pieces[i] == piece;
    SplitPieces(line, PIPE);
    assert ';' !in piece;
    TrimLacks(piece, ';');
    CommandLineLacks(Trim(piece), stages[k], ';');
    StageTextAt(stages, k);
  }

  lemma ValueLacks(line: string, s: Stmt, text: string, ts: seq<RawToken>)
    requires Assigns(line, s, text, ts) && ';' !in line
    ensures ';' !in s.target && ';' !in ArgText(s.value)
  {
    hide TokenizeFrom, LowerRawToken, IsPosixIdentifier, ArgText;
    assert forall c :: c in s.target ==> c in line;
    assert forall c :: c in text ==> c in line;
    ValuePrinted(line, s, text, ts);
    if ts != [] {
      TokenCharacters(text, "", ';');
      assert ts[0] in ts;
      ArgumentLacks(ts[0], ';');
    }
  }

  lemma FlatIsWellFormed(seg: string, s: Stmt, place: Place)
    requires SegmentText(seg) && ControlFlowKeyword(seg) == NoKeyword && FlatLine(seg) == Ok(Some(s)) && Tame(s, place)
    ensures WellFormedStmt(s, place)
  {
    hide FlatLine, ControlFlowKeyword, StmtText, WellFormedFlat, Returns;
    assert LineOf(seg, s);
    TakenBranch(seg, s);
    FlatExactly(seg, s);
    FlatLacks(seg, s);
  }

  // ---- loop headers ----

  lemma ItemWellFormed(ts: seq<RawToken>, i: nat)
    requires i < |ts| && Produced(ts, i) && LowerRawToken(ts[i]).Ok? && TameItem(LowerRawToken(ts[i]).value)
    ensures WellFormedArg(LowerRawToken(ts[i]).value)
  {
    hide LowerRawToken, ParenFree, OpenBare, ArithmeticBare, WellFormedToken;
    var one := [ts[i]];
    assert Produced(one, 0);
    FirstExactly(one);
    LastIsClosed(LowerRawToken(ts[i]).value);
  }

  lemma LastIsClosed(e: Expr)
    requires WellFormedLast(e) && (e.LitStr? && OpenBare(e.text) ==> ArithmeticBare(e.text))
    ensures WellFormedArg(e)
  {
    hide OpenBare;
    if !WellFormedArg(e) {
      OpenIsLiteral(e.text);
    }
  }

  lemma {:induction false} ItemsWellFormed(ts: seq<RawToken>)
    requires AllProduced(ts) && ForItems(ts).Ok? && forall e :: e in ForItems(ts).value ==> TameItem(e)
    ensures WellFormedArgs(ForItems(ts).value) && LitStr("do") !in ForItems(ts).value
  {
    hide LowerRawToken, TameItem, WellFormedToken, OpenBare, WellFormedArg;
    if ts != [] {
      var items := ForItems(ts).value;
      assert items == [LowerRawToken(ts[0]).value] + ForItems(ts[1..]).value;
      assert items[1..] == ForItems(ts[1..]).value;
      ProducedRest(ts);
      assert Produced(ts, 0);
      assert items[0] in items && forall e :: e in items[1..] ==> e in items;
      ItemWellFormed(ts, 0);
      ItemsWellFormed(ts[1..]);
      NotDo(ts[0]);
    }
  }

  lemma NotDo(t: RawToken)
    requires t != Bare("do") && LowerRawToken(t).Ok?
    ensures LowerRawToken(t).value != LitStr("do")
  {
    hide TokenizeFrom, LowerTokens, Trim;
  }

  lemma {:induction false} ItemsLack(ts: seq<RawToken>, c: char)
    requires ForItems(ts).Ok? && NotPrinted(c) && forall t :: t in ts ==> c !in t.text
    ensures forall e :: e in ForItems(ts).value ==> c !in ArgText(e)
  {
    hide LowerRawToken, ArgText;
    if ts != [] {
      assert ForItems(ts).value == [LowerRawToken(ts[0]).value] + ForItems(ts[1..]).value;
      assert ts[0] in ts;
      ArgumentLacks(ts[0], c);
      ItemsLack(ts[1..], c);
    }
  }

  lemma {:induction false} TextsLack(items: seq<Expr>, c: char)
    requires c != ' ' && forall e :: e in items ==> c !in ArgText(e)
    ensures c !in Join(" ", ArgTexts(items))
  {
    hide ArgText;
    var texts := ArgTexts(items);
    forall k | 0 <= k < |texts| ensures c !in texts[k] {
      ArgTextAt(items, k);
      assert items[k] in items;
    }
    JoinLacks(texts, c);
  }

  lemma ForWellFormed(header: string, kind: LoopKind)
    requires SegmentText(header) && ForHeader(header) == Ok(kind) && kind.For?
    requires forall e :: e in kind.items ==> TameItem(e)
    ensures WellFormedKind(kind)
  {
    hide TokenizeFrom, ForItems, IsPosixIdentifier, TameItem, WellFormedArgs, OpenBare, WellFormedToken, ArgTexts;
    var ts := Tokenize(header).value;
    LineProduces(header);
    forall i | 0 <= i < |ts[3..]| ensures Produced(ts[3..], i) {
      assert Produced(ts, i + 3);
    }
    ItemsWellFormed(ts[3..]);
    TokenCharacters(header, "", ';');
    TokenCharacters(header, "", '\n');
    assert forall t :: t in ts[3..] ==> t in ts;
    ItemsLack(ts[3..], ';');
    ItemsLack(ts[3..], '\n');
    TextsLack(kind.items, ';');
    TextsLack(kind.items, '\n');
    assert ts[1] in ts;
  }

  lemma KindWellFormed(header: string, kind: LoopKind)
    requires SegmentText(header) && LoopHeader(header) == Ok(kind)
    requires kind.For? ==> forall e :: e in kind.items ==> TameItem(e)
    ensures WellFormedKind(kind)
  {
    hide FirstKeyword, ForHeader, AfterFirstWord, TameItem, WellFormedArgs;
    BehindWord(header);
    if FirstKeyword(header) == KFor {
      ForIsFor(header);
      ForWellFormed(header, kind);
    }
  }

  lemma ForIsFor(header: string)
    ensures ForHeader(header).Ok? ==> ForHeader(header).value.For?
  {
    hide TokenizeFrom, ForItems, IsPosixIdentifier;
  }

  lemma ConditionWellFormed(head: string)
    requires SegmentText(head) && AfterFirstWord(head) != ""
    ensures WellFormedCondition(LitStr(AfterFirstWord(head)))
  {
    hide AfterFirstWord;
    BehindWord(head);
  }

  // ---- derivations ----

  lemma {:induction false} TreeWellFormed(c: Cst, place: Place)
    requires Derives(c) && SegmentTexts(Yield(c)) && TameBody(Meaning(c), place)
    ensures WellFormedBody(Meaning(c), place)
    decreases c
  {
    hide FirstKeyword, ControlFlowKeyword, FlatLine, LoopHeader, AfterFirstWord, SegmentTexts, DerivesAll, MeaningAll,
         YieldAll, DerivesChain, MeaningChain, YieldChain, WellFormedKind, NoLaterCase, WellFormedFlat, StmtText,
         Stays, SegmentText, HeaderText;
    match c {
      case Flat(seg) =>
        OneText(seg);
        if FlatLine(seg).value.Some? {
          FlatIsWellFormed(seg, FlatLine(seg).value.value, place);
          LoneBody(FlatLine(seg).value.value, place);
        }
      case Loop(header, word, body) =>
        FourTexts(header, word, YieldAll(body), ["done"]);
        LoneBody(Meaning(c)[0], place);
        TreesWellFormed(body, Inside(place));
        KindWellFormed(header, LoopHeader(header).value);
      case Conditional(chain) =>
        LoneBody(MeaningChain(chain, KIf), place);
        ChainWellFormed(chain, KIf, place);
    }
  }

  lemma OneText(seg: string)
    ensures SegmentTexts([seg]) <==> SegmentText(seg)
  {
    hide SegmentText;
    assert [seg][0] == seg;
  }

  lemma LoneBody(s: Stmt, place: Place)
    ensures TameBody([s], place) <==> Tame(s, place)
    ensures WellFormedBody([s], place) <==> WellFormedStmt(s, place)
  {
    hide Tame, WellFormedStmt;
    assert [s][1..] == [];
  }

  lemma FourTexts(head: string, word: string, body: seq<string>, rest: seq<string>)
    requires SegmentTexts([head, word] + body + rest)
    ensures SegmentText(head) && SegmentText(word) && SegmentTexts(body) && SegmentTexts(rest)
  {
    hide SegmentText, SegmentTexts;
    TextsAppend([head, word] + body, rest);
    TextsAppend([head, word], body);
    assert [head, word] == [head] + [word];
    TextsAppend([head], [word]);
    OneText(head);
    OneText(word);
  }

  lemma {:induction false} TreesWellFormed(cs: seq<Cst>, place: Place)
    requires DerivesAll(cs) && SegmentTexts(YieldAll(cs)) && TameBody(MeaningAll(cs), place)
    ensures WellFormedBody(MeaningAll(cs), place)
    decreases cs
  {
    hide Derives, Meaning, Yield, SegmentTexts, Tame, WellFormedStmt, TameBody, WellFormedBody;
    if cs == [] {
      NothingWellFormed(place);
    } else {
      TextsAppend(Yield(cs[0]), YieldAll(cs[1..]));
      TameAppend(Meaning(cs[0]), MeaningAll(cs[1..]), place);
      TreeWellFormed(cs[0], place);
      TreesWellFormed(cs[1..], place);
      WellFormedAppend(Meaning(cs[0]), MeaningAll(cs[1..]), place);
    }
  }

  lemma NothingWellFormed(place: Place)
    ensures WellFormedBody([], place)
  {
  }

  lemma {:induction false} ChainWellFormed(c: Chain, opener: Keyword, place: Place)
    requires DerivesChain(c, opener) && SegmentTexts(YieldChain(c)) && Tame(MeaningChain(c, opener), place)
    ensures WellFormedStmt(MeaningChain(c, opener), place)
    decreases c
  {
    hide FirstKeyword, AfterFirstWord, SegmentTexts, DerivesAll, MeaningAll, YieldAll, DerivesTail, MeaningTail,
         YieldTail, NoLaterCase, SegmentText, TameBody, WellFormedBody;
    FourTexts(c.head, c.thenSeg, YieldAll(c.thenBody), YieldTail(c.tail));
    ConditionWellFormed(c.head);
    TreesWellFormed(c.thenBody, Inside(place));
    TailWellFormed(c.tail, Inside(place));
  }

  lemma {:induction false} TailWellFormed(t: Tail, place: Place)
    requires DerivesTail(t) && SegmentTexts(YieldTail(t)) && TameBody(MeaningTail(t), place)
    ensures WellFormedBody(MeaningTail(t), place)
    decreases t
  {
    hide FirstKeyword, SegmentTexts, DerivesAll, MeaningAll, YieldAll, DerivesChain, MeaningChain, YieldChain, Tame,
         WellFormedStmt, TameBody, WellFormedBody;
    match t {
      case Fi => NothingWellFormed(place);
      case Else(word, body) =>
        TextsAppend([word] + YieldAll(body), ["fi"]);
        TextsAppend([word], YieldAll(body));
        TreesWellFormed(body, place);
      case Elif(chain) =>
        LoneBody(MeaningChain(chain, KElif), place);
        ChainWellFormed(chain, KElif, place);
    }
  }

  // ---- blocks, cases and the walk ----

  lemma BlockWellFormed(lines: seq<string>, i: nat)
    requires i < |lines| && FirstKeyword(lines[i]) in BLOCK_OPENERS && Trim(lines[i]) == lines[i] && PlainLines(lines)
    requires BlockAt(lines, i).Ok? && Tame(BlockAt(lines, i).value.0, AtTop)
    ensures WellFormedStmt(BlockAt(lines, i).value.0, AtTop)
  {
    hide BlockOf, CollectFrom, Meaning, FirstKeyword, Yield, Derives, SegmentTexts, Tame, WellFormedStmt;
    ParserConsumesWholeRegion(lines, i);
    var segs := BlockRegion(lines, i).value.0;
    CollectedTexts([], lines, i, 0);
    var c := BlockHasDerivation(segs);
    assert segs[0..|segs|] == segs;
    LoneBody(BlockAt(lines, i).value.0, AtTop);
    TreeWellFormed(c, AtTop);
  }

  lemma SequenceWellFormed(segs: seq<string>, place: Place)
    requires SegmentSeq(segs, 0, {}).Ok? && SegmentTexts(segs) && TameBody(SegmentSeq(segs, 0, {}).value.0, place)
    ensures WellFormedBody(SegmentSeq(segs, 0, {}).value.0, place)
  {
    hide SegmentTexts, Meaning, Yield, Derives, TameBody, WellFormedBody;
    var cs := SoundAll(segs, 0, {});
    assert segs[0..|segs|] == segs;
    TreesWellFormed(cs, place);
  }

  lemma ArmWellFormed(chunk: string)
    requires ArmOf(chunk).Ok? && TameBody(ArmOf(chunk).value.body, InArm)
    ensures WellFormedBody(ArmOf(chunk).value.body, InArm)
  {
    hide SegmentSeq, SegmentsOf, SegmentTexts, TameBody, WellFormedBody;
    var text := Trim(chunk[IndexOf(chunk, ')').value + 1..]);
    ArmTexts(text);
    SequenceWellFormed(SegmentsOf(text), InArm);
  }

  lemma {:induction false} ArmsWellFormed(chunks: seq<string>)
    requires ArmsOf(chunks).Ok? && TameArms(ArmsOf(chunks).value)
    ensures WellFormedArms(ArmsOf(chunks).value)
  {
    hide ArmOf, Trim, TameBody, WellFormedBody, WellFormedPatterns;
    if chunks != [] {
      if Trim(chunks[0]) == "" {
        ArmsWellFormed(chunks[1..]);
      } else {
        var arm := ArmOf(Trim(chunks[0])).value;
        assert ArmsOf(chunks).value == [arm] + ArmsOf(chunks[1..]).value;
        assert ArmsOf(chunks).value[1..] == ArmsOf(chunks[1..]).value;
        ArmWellFormed(Trim(chunks[0]));
        ArmsWellFormed(chunks[1..]);
      }
    }
  }

  lemma CaseWellFormed(lines: seq<string>, i: nat)
    requires i < |lines| && CaseAt(lines, i).Ok? && Tame(CaseAt(lines, i).value.0, AtTop)
    ensures WellFormedStmt(CaseAt(lines, i).value.0, AtTop)
  {
    hide CaseHead, CaseWord, ArmsOf, SplitArms, RegionEnd, TameArms, WellFormedArms, WellFormedWord;
    var next := RegionEnd(lines, i, 0).value;
    var armsText := CaseHead(Join("\n", lines[i..next])).value.1;
    ArmsWellFormed(SplitArms(armsText));
  }

  ghost predicate SeenLines(lines: seq<string>) {
    PlainLines(lines) && forall k :: 0 <= k < |lines| ==>
      Trim(lines[k]) == lines[k] && (lines[k] == "" || Trimmed(lines[k]))
  }

  lemma {:induction false} WalkWellFormed(lines: seq<string>, i: nat)
    requires i <= |lines| && Walk(lines, i).Ok? && SeenLines(lines) && TameBody(Walk(lines, i).value, AtTop)
    ensures WellFormedBody(Walk(lines, i).value, AtTop)
    decreases |lines| - i
  {
    hide FirstKeyword, ControlFlowKeyword, BlockAt, CaseAt, FlatLine, Trim, Tame, WellFormedStmt, TameBody,
         WellFormedBody, IsSkipped;
    if i == |lines| {
      NothingWellFormed(AtTop);
    } else {
      var line := lines[i];
      if IsSkipped(line) {
        WalkWellFormed(lines, i + 1);
      } else if FirstKeyword(line) in BLOCK_OPENERS {
        var (s, next) := BlockAt(lines, i).value;
        TameAppend([s], Walk(lines, next).value, AtTop);
        LoneBody(s, AtTop);
        BlockWellFormed(lines, i);
        WalkWellFormed(lines, next);
        WellFormedAppend([s], Walk(lines, next).value, AtTop);
      } else if FirstKeyword(line) == KCase {
        var (s, next) := CaseAt(lines, i).value;
        TameAppend([s], Walk(lines, next).value, AtTop);
        LoneBody(s, AtTop);
        CaseWellFormed(lines, i);
        WalkWellFormed(lines, next);
        WellFormedAppend([s], Walk(lines, next).value, AtTop);
      } else {
        var found := AsList(FlatLine(line).value);
        TameAppend(found, Walk(lines, i + 1).value, AtTop);
        WalkWellFormed(lines, i + 1);
        TopLineWellFormed(line);
        WellFormedAppend(found, Walk(lines, i + 1).value, AtTop);
      }
    }
  }

  /** At the top level a line may hold a semicolon. */
  lemma TopLineWellFormed(line: string)
    requires '\n' !in line && (line == "" || Trimmed(line)) && !IsSkipped(line)
    requires ControlFlowKeyword(line) == NoKeyword && FlatLine(line).Ok?
    ensures var found := AsList(FlatLine(line).value); TameBody(found, AtTop) ==> WellFormedBody(found, AtTop)
  {
    hide ControlFlowKeyword, FlatLine, WellFormedFlat, StmtText, Returns;
    if FlatLine(line).value.Some? {
      var s := FlatLine(line).value.value;
      assert LineOf(line, s);
      TakenBranch(line, s);
      FlatExactly(line, s);
      LoneBody(s, AtTop);
    } else {
      NothingWellFormed(AtTop);
    }
  }

  /** The statements of every accepted source are well-formed if they are tame. */
  lemma AcceptedIsWellFormed(source: string)
    requires ScriptOf(source).Ok? && TameBody(ScriptOf(source).value, AtTop)
    ensures WellFormedScript(ScriptOf(source).value)
  {
    hide Splice, Split, TrimStart, TrimEnd, Walk, TameBody, WellFormedBody;
    var spliced := Splice(source);
    var lines := TrimAll(Lines(spliced));
    SplitPieces(spliced, NEWLINE);
    forall k | 0 <= k < |lines|
      ensures '\n' !in lines[k] && (lines[k] == "" || Trimmed(lines[k])) && Trim(lines[k]) == lines[k]
    {
      var piece := Split(spliced, NEWLINE)[k];
      assert '\n' !in piece;
      assert '\n' !in Lines(spliced)[k];
      var pre, post := TrimShape(Lines(spliced)[k]);
      assert forall c :: c in lines[k] ==> c in Lines(spliced)[k];
      TrimTwice(Lines(spliced)[k]);
    }
    WalkWellFormed(lines, 0);
  }

  /** So the emitted file of a tame accepted source is read as the same script, unless some body is empty. */
  lemma TameComesBack(header: seq<string>, source: string)
    requires HeaderComments(header) && ScriptOf(source).Ok? && TameBody(ScriptOf(source).value, AtTop)
    ensures var stmts := ScriptOf(source).value;
      ScriptOf(ScriptText(header, stmts)) == ScriptOf(source) <==> NoEmptyBodies(stmts)
  {
    hide ScriptOf, ScriptText, TameBody, WellFormedBody, HeaderComments;
    AcceptedIsWellFormed(source);
    ScriptComesBack(header, ScriptOf(source).value);
  }
}
