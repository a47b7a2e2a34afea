/** The derivation a well-formed block is printed as, and what it stands for. */
module Derivations {
  import opened Outcomes
  import opened Text
  import opened ShellAst
  import opened Splicer
  import opened Tokenizer
  import opened TokenText
  import opened FlatLines
  import opened Blocks
  import opened Grammar
  import opened Printer
  import opened FlatRoundTrip
  import opened WellFormed

  // ---- the derivation ----

  function CstOf(s: Stmt): Cst
    decreases s
  {
    match s
    case ShellLoop(kind, body) => Loop(Trim(HeaderText(kind)), "do", CstsOfBody(body))
    case ShellIf(cond, thenBody, elseBody) =>
      Conditional(Chain(HeadText("if", cond), "then", CstsOfBody(thenBody), TailOf(elseBody)))
    case _ => Flat(StmtText(s))
  }

  function HeadText(keyword: string, cond: Expr): string {
    keyword + " " + ArgText(cond)
  }

  function CstsOf(body: seq<Stmt>): seq<Cst>
    decreases body, 0
  {
    if body == [] then [] else [CstOf(body[0])] + CstsOf(body[1..])
  }

  function CstsOfBody(body: seq<Stmt>): seq<Cst>
    decreases body, 1
  {
    if body == [] then [Flat(":")] else CstsOf(body)
  }

  function TailOf(elseBody: seq<Stmt>): Tail
    decreases elseBody, 1
  {
    if elseBody == [] then Fi
    else if |elseBody| == 1 && elseBody[0].ShellIf? then
      var s := elseBody[0];
      Elif(Chain(HeadText("elif", s.condition), "then", CstsOfBody(s.thenBody), TailOf(s.elseBody)))
    else Else("else", CstsOf(elseBody))
  }

  // ---- headers ----

  lemma KeywordHead(k: Keyword, cond: string)
    requires k != NoKeyword && Trimmed(cond)
    ensures var head := Spelling(k) + " " + cond;
            FirstKeyword(head) == k && AfterFirstWord(head) == cond && Trimmed(head)
  {
    hide KeywordOf, FirstWord, AfterFirstWord, Spelling;
    SpellingRoundTrip(k);
    AfterFirstWordOf(Spelling(k), " ", cond);
  }

  lemma KeywordAlone(k: Keyword)
    requires k != NoKeyword
    ensures FirstKeyword(Spelling(k)) == k && Trimmed(Spelling(k)) && Spelling(k)[0] != '#'
  {
    hide KeywordOf, FirstWord, Spelling;
    SpellingRoundTrip(k);
    FirstWordAlone(Spelling(k));
  }

  function ForTokens(variable: string, items: seq<Expr>): seq<RawToken> {
    [Bare("for"), Bare(variable), Bare("in")] + ArgTokens(items)
  }

  lemma NoDoToken(e: Expr)
    requires WellFormedArg(e) && e != LitStr("do")
    ensures ArgToken(e) != Bare("do")
  {
    if e.ShellVar? || e.ShellSpecial? {
      assert ArgText(e)[0] == '$' && "do"[0] == 'd';
    }
  }

  lemma {:induction false} ItemsRoundTrip(items: seq<Expr>)
    requires WellFormedArgs(items) && LitStr("do") !in items
    ensures ForItems(ArgTokens(items)) == Ok(items)
  {
    hide WellFormedArg, ArgToken, LowerRawToken;
    if items != [] {
      assert items[0] in items && forall e :: e in items[1..] ==> e in items;
      NoDoToken(items[0]);
      ArgRoundTrip(items[0]);
      ItemsRoundTrip(items[1..]);
      assert ArgTokens(items)[1..] == ArgTokens(items[1..]);
      assert [items[0]] + items[1..] == items;
    }
  }

  lemma ForLine(variable: string, items: seq<Expr>)
    requires IsPosixIdentifier(variable) && WellFormedArgs(items)
    ensures Tokenize(Trim(HeaderText(For(variable, items)))) == Ok(ForTokens(variable, items))
    ensures Trim(HeaderText(For(variable, items))) == LineText(ForTokens(variable, items))
    ensures Trimmed(LineText(ForTokens(variable, items)))
  {
    hide TokenizeFrom, WellFormedArgs, ArgTexts, LineText, WellFormedToken, Trim;
    var ts := ForTokens(variable, items);
    ArgsRoundTrip(items);
    ForTokensPlain(variable);
    TokensReadBack(ts);
    LineTextTrimmed(ts);
    var start := [Bare("for"), Bare(variable), Bare("in")];
    ForStart(variable);
    if items == [] {
      assert ts == start;
      assert ArgTexts(items) == [];
      TrimPadded("", LineText(start), " ");
      assert HeaderText(For(variable, items)) == "" + LineText(start) + " ";
    } else {
      LineTextAppend(start, ArgTokens(items));
      TrimOfTrimmed(LineText(ts));
      assert LineText(ArgTokens(items)) == Join(" ", ArgTexts(items)) by {
        LineTextIsJoin(ArgTokens(items));
      }
      assert "for " + variable + " in " + Join(" ", ArgTexts(items))
          == ("for " + variable + " in") + " " + Join(" ", ArgTexts(items));
    }
  }

  lemma LineTextIsJoin(ts: seq<RawToken>)
    ensures LineText(ts) == Join(" ", PrintTokens(ts))
  {
  }

  lemma ForTokensPlain(variable: string)
    requires IsPosixIdentifier(variable)
    ensures WellFormedToken(Bare("for")) && WellFormedToken(Bare(variable)) && WellFormedToken(Bare("in"))
  {
  }

  lemma ForStart(variable: string)
    ensures LineText([Bare("for"), Bare(variable), Bare("in")]) == "for " + variable + " in"
  {
    var parts := PrintTokens([Bare("for"), Bare(variable), Bare("in")]);
    assert parts == ["for", variable, "in"];
    assert parts[1..] == [variable, "in"] && parts[1..][1..] == ["in"];
    assert Join(" ", ["in"]) == "in";
    assert Join(" ", [variable, "in"]) == variable + " " + "in";
    assert "for" + " " + (variable + " " + "in") == "for " + variable + " in";
  }

  lemma ForKeyword(variable: string, items: seq<Expr>)
    requires Trimmed(LineText(ForTokens(variable, items)))
    ensures FirstKeyword(LineText(ForTokens(variable, items))) == KFor
  {
    hide KeywordOf, FirstWord, ArgTokens, Trimmed;
    var ts := ForTokens(variable, items);
    assert ts[1..] != [];
    assert [ts[0]] + ts[1..] == ts;
    LineTextAppend([ts[0]], ts[1..]);
    assert PrintTokens([ts[0]]) == ["for"];
    assert LineText([ts[0]]) == "for";
    FirstWordOf("", "for", " " + LineText(ts[1..]));
    assert "" + "for" + (" " + LineText(ts[1..])) == LineText(ts);
    SpellingRoundTrip(KFor);
  }

  /** A loop header, as its own segment, is read back as the loop's kind. */
  lemma HeaderRoundTrip(kind: LoopKind)
    requires WellFormedKind(kind)
    ensures FirstKeyword(Trim(HeaderText(kind))) in LOOP_OPENERS
    ensures LoopHeader(Trim(HeaderText(kind))) == Ok(kind)
    ensures Trimmed(Trim(HeaderText(kind)))
  {
    hide FirstKeyword, TokenizeFrom, ForItems, AfterFirstWord, Trimmed, ArgTokens, WellFormedArgs, LineText,
         IsPosixIdentifier;
    match kind {
      case For(variable, items) =>
        ForLine(variable, items);
        ForKeyword(variable, items);
        ItemsRoundTrip(items);
        assert ForTokens(variable, items)[3..] == ArgTokens(items);
      case While(cond) => ConditionRoundTrip(KWhile, cond);
      case Until(cond) => ConditionRoundTrip(KUntil, cond);
    }
  }

  lemma ConditionRoundTrip(k: Keyword, cond: Expr)
    requires k in {KWhile, KUntil} && WellFormedCondition(cond)
    ensures var kind := if k == KWhile then While(cond) else Until(cond);
            && FirstKeyword(Trim(HeaderText(kind))) == k && Trimmed(Trim(HeaderText(kind)))
            && LoopHeader(Trim(HeaderText(kind))) == Ok(kind)
  {
    assert cond.text != "";
    hide FirstKeyword, AfterFirstWord, Trimmed;
    var kind := if k == KWhile then While(cond) else Until(cond);
    var head := Spelling(k) + " " + cond.text;
    assert head == HeaderText(kind) by {
      assert Spelling(k) + " " == if k == KWhile then "while " else "until ";
    }
    KeywordHead(k, cond.text);
    TrimOfTrimmed(head);
    assert cond == LitStr(cond.text);
  }

  // ---- the derivation derives, and stands for the padded tree ----

  lemma NoOpDerives()
    ensures DerivesAll([Flat(":")]) && MeaningAll([Flat(":")]) == [NO_OP]
    ensures WellFormedFlat(NO_OP) && StmtText(NO_OP) == ":"
  {
    hide FlatLine, ControlFlowKeyword, WellFormedCommand;
    NoOpWellFormed();
    FlatRoundTrips(NO_OP);
    assert [Flat(":")][1..] == [];
    assert Meaning(Flat(":")) == [NO_OP];
    assert [NO_OP] + MeaningAll([]) == [NO_OP];
  }

  lemma NoOpWellFormed()
    ensures WellFormedFlat(NO_OP) && StmtText(NO_OP) == ":"
  {
    assert StmtText(NO_OP) == ":";
    assert WellFormedToken(Bare(":"));
    assert ArgTokens([]) == [];
    assert CmdTokens(":", []) == [Bare(":")];
    assert !HasLonePipe(":");
    assert TailRun(":") == 0;
    assert IndexOf(":", '=') == None by {
      assert ":"[1..] == "";
    }
    assert ControlFlowKeyword(":") == NoKeyword by {
      SplitUnbroken(":", COMMAND_SEPARATORS);
      FirstWordAlone(":");
      assert [":"][1..] == [];
      assert FirstKeyword(":") == NoKeyword;
    }
  }

  lemma {:induction false} BlockDerives(s: Stmt, place: Place)
    requires WellFormedStmt(s, place) && place != AtTop
    ensures Derives(CstOf(s)) && Meaning(CstOf(s)) == [Pad(s)]
    ensures s.ShellLoop? || s.ShellIf? ==> !CstOf(s).Flat?
    decreases s, 1
  {
    hide FlatLine, ControlFlowKeyword, FirstKeyword, LoopHeader, AfterFirstWord, WellFormedKind, WellFormedFlat,
         HeaderText, Trim, CstsOfBody, TailOf, DerivesAll, MeaningAll, PadBody, PadAll, StmtText;
    match s {
      case ShellLoop(kind, body) =>
        HeaderRoundTrip(kind);
        KeywordAlone(KDo);
        BodyDerives(body, Inside(place));
      case ShellIf(cond, thenBody, elseBody) =>
        KeywordHead(KIf, cond.text);
        KeywordAlone(KThen);
        BodyDerives(thenBody, Inside(place));
        TailDerives(elseBody, Inside(place));
      case ShellCase(_, _) => assert false;
      case _ =>
        FlatRoundTrips(s);
        FlatIsSafe(s);
    }
  }

  lemma FlatIsSafe(s: Stmt)
    requires WellFormedFlat(s)
    ensures ControlFlowKeyword(StmtText(s)) == NoKeyword
    ensures '\n' !in StmtText(s) && !Continues(StmtText(s))
  {
  }

  lemma {:induction false} AllDerive(body: seq<Stmt>, place: Place)
    requires WellFormedBody(body, place) && place != AtTop
    ensures DerivesAll(CstsOf(body)) && MeaningAll(CstsOf(body)) == PadAll(body)
    decreases body, 0
  {
    hide Derives, Meaning, CstOf, Pad, WellFormedStmt;
    if body != [] {
      BlockDerives(body[0], place);
      AllDerive(body[1..], place);
      assert CstsOf(body)[1..] == CstsOf(body[1..]);
    }
  }

  lemma {:induction false} BodyDerives(body: seq<Stmt>, place: Place)
    requires WellFormedBody(body, place) && place != AtTop
    ensures DerivesAll(CstsOfBody(body)) && MeaningAll(CstsOfBody(body)) == PadBody(body)
    decreases body, 1
  {
    hide DerivesAll, MeaningAll, CstsOf, PadAll, WellFormedBody;
    NoOpDerives();
    AllDerive(body, place);
  }

  lemma {:induction false} TailDerives(elseBody: seq<Stmt>, place: Place)
    requires WellFormedBody(elseBody, place) && place != AtTop
    ensures DerivesTail(TailOf(elseBody)) && MeaningTail(TailOf(elseBody)) == PadAll(elseBody)
    decreases elseBody, 1
  {
    hide FirstKeyword, AfterFirstWord, CstsOfBody, CstsOf, DerivesAll, MeaningAll, PadBody;
    KeywordAlone(KElse);
    if |elseBody| == 1 && elseBody[0].ShellIf? {
      var s := elseBody[0];
      KeywordHead(KElif, s.condition.text);
      KeywordAlone(KThen);
      BodyDerives(s.thenBody, Inside(place));
      TailDerives(s.elseBody, Inside(place));
      assert PadAll(elseBody) == [Pad(s)];
    } else if elseBody != [] {
      AllDerive(elseBody, place);
    }
  }
}
