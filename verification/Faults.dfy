/**
 * Two refusals that look only at the surface of a line: reserved words where a command starts, and here-documents.
 * Exactly which accepted scripts contain either one deeper down.
 */
module Faults {
  import opened Outcomes
  import opened Text
  import opened ShellAst
  import opened Splicer
  import opened Tokenizer
  import opened FlatLines
  import opened Blocks
  import opened Grammar
  import opened Regions
  import opened Cases
  import opened Scripts
  import opened NoShredding

  datatype Fault = ShreddedKeyword | HereDocumentText

  // ---- in what was parsed ----

  /** A bareword that holds no here-document operator. */
  predicate SoundWord(f: Fault, word: string) {
    f == HereDocumentText ==> !IsHereDocToken(Bare(word))
  }

  predicate SoundExpr(f: Fault, e: Expr) {
    match e
    case LitStr(text) => SoundWord(f, text)
    case CommandSubstitution(inner) => SoundStmt(f, inner)
    case _ => true
  }

  /** The condition is opaque text; what it says as a line is what counts. */
  predicate SoundCondition(f: Fault, cond: Expr) {
    f == HereDocumentText && cond.LitStr? ==> !HasHereDoc(cond.text)
  }

  /** No fault in the statement, in its arguments and values, or in what they substitute, at any depth. */
  predicate SoundStmt(f: Fault, s: Stmt) {
    match s
    case Cmd(program, args) =>
      && (f == ShreddedKeyword ==> KeywordOf(program) == NoKeyword) && SoundWord(f, program)
      && forall e :: e in args ==> SoundExpr(f, e)
    case Pipeline(stages) => forall stage :: stage in stages ==> SoundStmt(f, stage)
    case ShellAssign(_, value) => SoundExpr(f, value)
    case ShellLoop(kind, body) =>
      && (match kind
          case For(_, items) => forall e :: e in items ==> SoundExpr(f, e)
          case While(cond) => SoundCondition(f, cond)
          case Until(cond) => SoundCondition(f, cond))
      && forall t :: t in body ==> SoundStmt(f, t)
    case ShellIf(cond, thenBody, elseBody) =>
      && SoundCondition(f, cond)
      && (forall t :: t in thenBody ==> SoundStmt(f, t)) && (forall t :: t in elseBody ==> SoundStmt(f, t))
    case ShellCase(word, arms) =>
      SoundExpr(f, word) && forall arm, t :: arm in arms && t in arm.body ==> SoundStmt(f, t)
    case Unshelled => true
  }

  predicate SoundExprs(f: Fault, es: seq<Expr>) {
    forall e :: e in es ==> SoundExpr(f, e)
  }

  predicate SoundStmts(f: Fault, stmts: seq<Stmt>) {
    forall t :: t in stmts ==> SoundStmt(f, t)
  }

  // ---- in the tokens ----

  /** A substitution's text starts with no reserved word, and its own tokens are sound. */
  predicate SoundToken(f: Fault, t: RawToken)
    decreases Size(t), 0
  {
    match t
    case Bare(text) => SoundWord(f, text)
    case CommandSubst(inner) =>
      (f == ShreddedKeyword ==> FirstKeyword(inner) == NoKeyword) &&
      var raw := Tokenize(Trim(inner));
      raw.Ok? ==> (
        assert TotalSize(raw.value) < Size(t) by {
          TokensFit(Trim(inner), "");
          TrimNeverGrows(inner);
        }
        SoundTokens(f, raw.value))
    case _ => true
  }

  predicate SoundTokens(f: Fault, ts: seq<RawToken>)
    decreases TotalSize(ts), 1, |ts|
  {
    ts == [] || (SoundToken(f, ts[0]) && SoundTokens(f, ts[1..]))
  }

  predicate SoundText(f: Fault, text: string) {
    Tokenize(text).Ok? ==> SoundTokens(f, Tokenize(text).value)
  }

  // ---- tokens and what they are lowered to ----

  lemma PlainWordSound(f: Fault, tok: string)
    ensures SoundExpr(f, LowerToken(tok)) <==> SoundWord(f, tok)
  {
    var e := LowerToken(tok);
    if !e.LitStr? {
      forall i | 0 <= i < |tok| ensures tok[i] != '<' {
        if i > 0 {
          assert tok[i] == tok[1..][i - 1];
          if e.ShellVar? && tok[1] == '{' && 1 < i < |tok| - 1 {
            assert tok[i] == tok[1..][1..|tok| - 2][i - 2];
          }
        }
      }
    }
  }

  /** The program of a text is a reserved word exactly when the text's first word is one. */
  lemma ProgramIsFirstWord(text: string)
    requires Tokenize(text).Ok? && Tokenize(text).value != [] && Tokenize(text).value[0].Bare?
    ensures KeywordOf(Tokenize(text).value[0].text) == NoKeyword <==> FirstKeyword(text) == NoKeyword
  {
    FirstBareIsFirstWord(text);
    DollarIsNoKeyword(Tokenize(text).value[0].text);
    DollarIsNoKeyword(FirstWord(text));
  }

  lemma DollarIsNoKeyword(w: string)
    ensures w != "" && w[0] == '$' ==> KeywordOf(w) == NoKeyword
  {
    if KeywordOf(w) != NoKeyword {
      KeywordSpelled(w);
      SpellingRoundTrip(KeywordOf(w));
    }
  }

  lemma {:induction false} LoweredSound(f: Fault, t: RawToken)
    requires LowerRawToken(t).Ok?
    ensures SoundExpr(f, LowerRawToken(t).value) <==> SoundToken(f, t)
    decreases Size(t), 0
  {
    hide LowerToken, SoundWord, FirstKeyword, KeywordOf, Trim, TokenizeFrom;
    if t.Bare? {
      PlainWordSound(f, t.text);
    } else if t.CommandSubst? {
      var trimmed := Trim(t.text);
      var raw := Tokenize(trimmed).value;
      TokensFit(trimmed, "");
      TrimNeverGrows(t.text);
      FirstWordOfTrim(t.text);
      ProgramIsFirstWord(trimmed);
      SameKeyword(t.text);
      AllLoweredSound(f, raw[1..]);
      SubstitutedSound(f, raw[0].text, LowerTokens(raw[1..]).value);
      SubstitutionSound(f, t.text);
    }
  }

  lemma SubstitutedSound(f: Fault, program: string, args: seq<Expr>)
    ensures SoundExpr(f, CommandSubstitution(Cmd(program, args))) <==> SoundStmt(f, Cmd(program, args))
    ensures SoundStmt(f, Cmd(program, args)) <==>
            (f == ShreddedKeyword ==> KeywordOf(program) == NoKeyword) && SoundWord(f, program) && SoundExprs(f, args)
  {
    hide SoundWord, KeywordOf;
    assert SoundExpr(f, CommandSubstitution(Cmd(program, args))) == SoundStmt(f, Cmd(program, args));
  }

  lemma SubstitutionSound(f: Fault, inner: string)
    requires Tokenize(Trim(inner)).Ok? && Tokenize(Trim(inner)).value != [] && Tokenize(Trim(inner)).value[0].Bare?
    ensures var raw := Tokenize(Trim(inner)).value;
            SoundToken(f, CommandSubst(inner)) <==>
            (f == ShreddedKeyword ==> FirstKeyword(inner) == NoKeyword) && SoundWord(f, raw[0].text)
            && SoundTokens(f, raw[1..])
  {
    hide SoundWord, FirstKeyword, Trim, TokenizeFrom;
    WordThenTokens(f, Tokenize(Trim(inner)).value);
  }

  lemma SameKeyword(text: string)
    ensures FirstKeyword(Trim(text)) == FirstKeyword(text)
  {
    hide KeywordOf, Trim, FirstWord;
    FirstWordOfTrim(text);
  }

  lemma {:induction false} AllLoweredSound(f: Fault, ts: seq<RawToken>)
    requires LowerTokens(ts).Ok?
    ensures SoundExprs(f, LowerTokens(ts).value) <==> SoundTokens(f, ts)
    decreases TotalSize(ts), 1, |ts|
  {
    hide SoundExpr, SoundToken, LowerRawToken;
    if ts != [] {
      LoweredSound(f, ts[0]);
      AllLoweredSound(f, ts[1..]);
      assert LowerTokens(ts).value == [LowerRawToken(ts[0]).value] + LowerTokens(ts[1..]).value;
    }
  }

  /** The program inside a substitution is the reserved word its text starts with, if it starts with one. */
  lemma SubstitutedProgram(inner: string)
    requires LowerRawToken(CommandSubst(inner)).Ok?
    ensures var e := LowerRawToken(CommandSubst(inner)).value;
            e.CommandSubstitution? && e.inner.Cmd? && KeywordOf(e.inner.program) == FirstKeyword(inner)
  {
    hide FirstWord, KeywordOf, Trim, TokenizeFrom;
    var trimmed := Trim(inner);
    SameKeyword(inner);
    FirstBareIsFirstWord(trimmed);
    DollarIsNoKeyword(Tokenize(trimmed).value[0].text);
    DollarIsNoKeyword(FirstWord(trimmed));
  }

  // ---- flat lines ----

  /** The texts whose tokens a flat line is lowered from. */
  predicate SoundLine(f: Fault, line: string) {
    if IsAssignment(line) then SoundText(f, line[IndexOf(line, '=').value + 1..])
    else if HasLonePipe(line) then forall piece :: piece in Split(line, PIPE) ==> SoundText(f, Trim(piece))
    else SoundText(f, line)
  }

  lemma CommandSound(f: Fault, text: string)
    requires Command(text).Ok? && FirstKeyword(text) == NoKeyword
    ensures SoundStmts(f, AsList(Command(text).value)) <==> SoundText(f, text)
  {
    hide SoundWord, FirstKeyword, KeywordOf, TokenizeFrom, LowerTokens;
    var raw := Tokenize(text).value;
    if raw != [] {
      ProgramIsFirstWord(text);
      AllLoweredSound(f, raw[1..]);
      var args := LowerTokens(raw[1..]).value;
      OneSound(f, Cmd(raw[0].text, args));
      SubstitutedSound(f, raw[0].text, args);
      WordThenTokens(f, raw);
    }
  }

  lemma WordThenTokens(f: Fault, ts: seq<RawToken>)
    requires ts != []
    ensures SoundTokens(f, ts) <==> SoundToken(f, ts[0]) && SoundTokens(f, ts[1..])
    ensures ts[0].Bare? ==> (SoundToken(f, ts[0]) <==> SoundWord(f, ts[0].text))
    ensures SoundTokens(f, [])
  {
    hide SoundWord;
  }

  lemma {:induction false} StagesSound(f: Fault, pieces: seq<string>)
    requires Stages(pieces).Ok? && forall k :: 0 <= k < |pieces| ==> FirstKeyword(Trim(pieces[k])) == NoKeyword
    ensures SoundStmts(f, Stages(pieces).value) <==> forall piece :: piece in pieces ==> SoundText(f, Trim(piece))
  {
    hide FirstKeyword, Command, SoundStmt, SoundText, Trim;
    if pieces != [] {
      StagesSound(f, pieces[1..]);
      CommandSound(f, Trim(pieces[0]));
      assert forall piece :: piece in pieces <==> piece == pieces[0] || piece in pieces[1..];
      var first := AsList(Command(Trim(pieces[0])).value);
      assert Stages(pieces).value == first + Stages(pieces[1..]).value;
      SoundAppend(f, first, Stages(pieces[1..]).value);
    }
  }

  lemma SoundAppend(f: Fault, a: seq<Stmt>, b: seq<Stmt>)
    ensures SoundStmts(f, a + b) <==> SoundStmts(f, a) && SoundStmts(f, b)
  {
    hide SoundStmt;
    assert forall t :: t in a + b <==> t in a || t in b;
  }

  /** The guards of a flat line are enough exactly when the texts its tokens come from are sound. */
  lemma FlatLineSound(f: Fault, line: string)
    requires ControlFlowKeyword(line) == NoKeyword && FlatLine(line).Ok?
    ensures SoundStmts(f, AsList(FlatLine(line).value)) <==> SoundLine(f, line)
  {
    hide FirstKeyword, Command, ControlFlowKeyword, Stages, SoundText, HasHereDoc, Split, Trim;
    if IsAssignment(line) {
      AssignmentSound(f, line[..IndexOf(line, '=').value], line[IndexOf(line, '=').value + 1..]);
    } else if HasLonePipe(line) {
      var pieces := Split(line, PIPE);
      forall k | 0 <= k < |pieces| ensures FirstKeyword(Trim(pieces[k])) == NoKeyword {
        StageHasNoKeyword(line, k);
      }
      StagesSound(f, pieces);
      OneSound(f, Pipeline(Stages(pieces).value));
    } else {
      FlatHasNoFirstKeyword(line);
      CommandSound(f, line);
    }
  }

  lemma OneSound(f: Fault, s: Stmt)
    ensures SoundStmts(f, [s]) <==> SoundStmt(f, s)
    ensures s.Pipeline? ==> (SoundStmt(f, s) <==> SoundStmts(f, s.stages))
  {
  }

  lemma AssignmentSound(f: Fault, name: string, text: string)
    requires Assignment(name, text).Ok?
    ensures SoundStmts(f, AsList(Assignment(name, text).value)) <==> SoundText(f, text)
  {
    hide TokenizeFrom, LowerRawToken, SoundToken;
    var ts := Tokenize(text).value;
    var stmt := Assignment(name, text).value.value;
    OneSound(f, stmt);
    assert SoundStmt(f, stmt) == SoundExpr(f, stmt.value);
    if |ts| == 1 {
      LoweredSound(f, ts[0]);
      WordThenTokens(f, ts);
      assert ts[1..] == [];
    }
  }

  // ---- segments ----

  /** What a segment contributes: items, a condition, or a flat line. */
  predicate SoundSegment(f: Fault, seg: string) {
    match FirstKeyword(seg)
    case KFor => Tokenize(seg).Ok? && |Tokenize(seg).value| >= 3 ==> SoundTokens(f, Tokenize(seg).value[3..])
    case KWhile | KUntil | KIf | KElif => SoundCondition(f, LitStr(AfterFirstWord(seg)))
    case NoKeyword => SoundLine(f, seg)
    case _ => true
  }

  predicate SoundSegments(f: Fault, segs: seq<string>) {
    forall seg :: seg in segs ==> SoundSegment(f, seg)
  }

  lemma SegmentsAppend(f: Fault, a: seq<string>, b: seq<string>)
    ensures SoundSegments(f, a + b) <==> SoundSegments(f, a) && SoundSegments(f, b)
  {
    hide SoundSegment;
    assert forall s :: s in a + b <==> s in a || s in b;
  }

  lemma OneSegment(f: Fault, seg: string)
    ensures SoundSegments(f, [seg]) <==> SoundSegment(f, seg)
  {
    hide SoundSegment;
  }

  lemma {:induction false} ItemsSound(f: Fault, ts: seq<RawToken>)
    requires ForItems(ts).Ok?
    ensures SoundExprs(f, ForItems(ts).value) <==> SoundTokens(f, ts)
  {
    hide SoundExpr, SoundToken, LowerRawToken;
    if ts != [] {
      LoweredSound(f, ts[0]);
      ItemsSound(f, ts[1..]);
      assert ForItems(ts).value == [LowerRawToken(ts[0]).value] + ForItems(ts[1..]).value;
    }
  }

  lemma HeaderSound(f: Fault, header: string, body: seq<Stmt>)
    requires LoopHeader(header).Ok?
    ensures SoundStmt(f, ShellLoop(LoopHeader(header).value, body)) <==> SoundSegment(f, header) && SoundStmts(f, body)
  {
    hide FirstKeyword, AfterFirstWord, TokenizeFrom, ForItems, SoundCondition, SoundTokens, SoundLine;
    if FirstKeyword(header) == KFor {
      ItemsSound(f, Tokenize(header).value[3..]);
      assert SoundExprs(f, ForItems(Tokenize(header).value[3..]).value) == SoundTokens(f, Tokenize(header).value[3..]);
    }
  }

  // ---- derivations ----

  lemma PlainSegments(f: Fault)
    ensures SoundSegment(f, "done") && SoundSegment(f, "fi")
  {
    hide FirstKeyword;
    CloserKeywords();
  }

  lemma {:induction false} TreeSound(f: Fault, c: Cst)
    requires Derives(c)
    ensures SoundStmts(f, Meaning(c)) <==> SoundSegments(f, Yield(c))
    decreases c
  {
    hide FirstKeyword, ControlFlowKeyword, FlatLine, LoopHeader, AfterFirstWord, SoundSegments, SoundStmts, SoundStmt,
         SoundLine, DerivesAll, MeaningAll, YieldAll, DerivesChain, MeaningChain, YieldChain;
    match c {
      case Flat(seg) =>
        FlatHasNoFirstKeyword(seg);
        FlatLineSound(f, seg);
        OneSegment(f, seg);
      case Loop(header, word, body) =>
        TreesSound(f, body);
        HeaderSound(f, header, MeaningAll(body));
        OneSound(f, Meaning(c)[0]);
        PlainSegments(f);
        OneSegment(f, header);
        OneSegment(f, word);
        OneSegment(f, "done");
        FourSegments(f, header, word, YieldAll(body), ["done"]);
      case Conditional(chain) =>
        ChainSound(f, chain, KIf);
        OneSound(f, MeaningChain(chain, KIf));
    }
  }

  lemma FourSegments(f: Fault, head: string, word: string, body: seq<string>, rest: seq<string>)
    ensures SoundSegments(f, [head, word] + body + rest) <==>
            SoundSegments(f, [head]) && SoundSegments(f, [word]) && SoundSegments(f, body) && SoundSegments(f, rest)
  {
    hide SoundSegments;
    SegmentsAppend(f, [head, word] + body, rest);
    SegmentsAppend(f, [head, word], body);
    assert [head, word] == [head] + [word];
    SegmentsAppend(f, [head], [word]);
  }

  lemma {:induction false} TreesSound(f: Fault, cs: seq<Cst>)
    requires DerivesAll(cs)
    ensures SoundStmts(f, MeaningAll(cs)) <==> SoundSegments(f, YieldAll(cs))
    decreases cs
  {
    hide Derives, Meaning, Yield, SoundStmt, SoundSegment;
    if cs != [] {
      TreeSound(f, cs[0]);
      TreesSound(f, cs[1..]);
      SoundAppend(f, Meaning(cs[0]), MeaningAll(cs[1..]));
      SegmentsAppend(f, Yield(cs[0]), YieldAll(cs[1..]));
    }
  }

  lemma {:induction false} ChainSound(f: Fault, c: Chain, opener: Keyword)
    requires DerivesChain(c, opener) && opener in {KIf, KElif}
    ensures SoundStmt(f, MeaningChain(c, opener)) <==> SoundSegments(f, YieldChain(c))
    decreases c
  {
    hide FirstKeyword, AfterFirstWord, SoundSegments, SoundCondition, DerivesAll, MeaningAll, YieldAll, DerivesTail,
         MeaningTail, YieldTail, SoundLine, SoundTokens;
    TreesSound(f, c.thenBody);
    TailSound(f, c.tail);
    OneSegment(f, c.head);
    OneSegment(f, c.thenSeg);
    FourSegments(f, c.head, c.thenSeg, YieldAll(c.thenBody), YieldTail(c.tail));
  }

  lemma {:induction false} TailSound(f: Fault, t: Tail)
    requires DerivesTail(t)
    ensures SoundStmts(f, MeaningTail(t)) <==> SoundSegments(f, YieldTail(t))
    decreases t
  {
    hide FirstKeyword, SoundSegments, SoundStmt, DerivesAll, MeaningAll, YieldAll, DerivesChain, MeaningChain,
         YieldChain, SoundLine, SoundTokens;
    PlainSegments(f);
    OneSegment(f, "fi");
    match t {
      case Fi =>
      case Else(word, body) =>
        TreesSound(f, body);
        OneSegment(f, word);
        SegmentsAppend(f, [word] + YieldAll(body), ["fi"]);
        SegmentsAppend(f, [word], YieldAll(body));
      case Elif(chain) =>
        ChainSound(f, chain, KElif);
        OneSound(f, MeaningChain(chain, KElif));
    }
  }

  // ---- blocks, cases and whole sources ----

  lemma SequenceSound(f: Fault, segs: seq<string>)
    requires SegmentSeq(segs, 0, {}).Ok?
    ensures SoundStmts(f, SegmentSeq(segs, 0, {}).value.0) <==> SoundSegments(f, segs)
  {
    hide SoundStmts, SoundSegments, Meaning, Yield, Derives;
    var cs := SoundAll(segs, 0, {});
    TreesSound(f, cs);
    assert segs[0..|segs|] == segs;
  }

  predicate SoundRegion(f: Fault, lines: seq<string>, i: nat)
    requires i < |lines|
  {
    BlockRegion(lines, i).Ok? ==> SoundSegments(f, BlockRegion(lines, i).value.0)
  }

  lemma BlockSound(f: Fault, lines: seq<string>, i: nat)
    requires i < |lines| && FirstKeyword(lines[i]) in BLOCK_OPENERS && Trim(lines[i]) == lines[i]
    requires BlockAt(lines, i).Ok?
    ensures SoundStmt(f, BlockAt(lines, i).value.0) <==> SoundRegion(f, lines, i)
  {
    hide BlockOf, BlockRegion, Meaning, SoundStmt, SoundSegments, FirstKeyword, Yield, Derives;
    ParserConsumesWholeRegion(lines, i);
    var segs := BlockRegion(lines, i).value.0;
    var c := BlockHasDerivation(segs);
    assert segs[0..|segs|] == segs;
    TreeSound(f, c);
    OneSound(f, BlockAt(lines, i).value.0);
  }

  predicate SoundArm(f: Fault, chunk: string) {
    IndexOf(chunk, ')').Some? ==> SoundSegments(f, SegmentsOf(Trim(chunk[IndexOf(chunk, ')').value + 1..])))
  }

  predicate SoundArms(f: Fault, chunks: seq<string>) {
    forall chunk :: chunk in chunks && Trim(chunk) != "" ==> SoundArm(f, Trim(chunk))
  }

  predicate SoundBodies(f: Fault, arms: seq<CaseArm>) {
    forall arm :: arm in arms ==> SoundStmts(f, arm.body)
  }

  lemma {:induction false} ArmsSound(f: Fault, chunks: seq<string>)
    requires ArmsOf(chunks).Ok?
    ensures SoundBodies(f, ArmsOf(chunks).value) <==> SoundArms(f, chunks)
  {
    hide SoundStmts, SoundArm, ArmOf, Trim;
    if chunks != [] {
      ArmsSound(f, chunks[1..]);
      assert forall c :: c in chunks <==> c == chunks[0] || c in chunks[1..];
      var chunk := Trim(chunks[0]);
      if chunk != "" {
        ArmSound(f, chunk);
        assert ArmsOf(chunks).value == [ArmOf(chunk).value] + ArmsOf(chunks[1..]).value;
      }
    }
  }

  lemma ArmSound(f: Fault, chunk: string)
    requires ArmOf(chunk).Ok?
    ensures SoundStmts(f, ArmOf(chunk).value.body) <==> SoundArm(f, chunk)
  {
    hide SegmentSeq, SegmentsOf, SoundStmts, SoundSegments;
    var paren := IndexOf(chunk, ')').value;
    SequenceSound(f, SegmentsOf(Trim(chunk[paren + 1..])));
  }

  /** The word and the arms that the lines of a `case` are read as. */
  predicate SoundCase(f: Fault, joined: string) {
    CaseHead(joined).Ok? ==> SoundText(f, CaseHead(joined).value.0) && SoundArms(f, SplitArms(CaseHead(joined).value.1))
  }

  lemma CaseSound(f: Fault, joined: string)
    requires CaseOf(joined).Ok?
    ensures SoundStmt(f, CaseOf(joined).value) <==> SoundCase(f, joined)
  {
    hide ArmsOf, CaseHead, SplitArms, SoundArms, TokenizeFrom, LowerRawToken, SoundToken, SoundExpr;
    var (wordText, armsText) := CaseHead(joined).value;
    ArmsSound(f, SplitArms(armsText));
    var ts := Tokenize(wordText).value;
    LoweredSound(f, ts[0]);
    WordThenTokens(f, ts);
    assert ts[1..] == [];
    CaseParts(f, CaseOf(joined).value);
  }

  lemma CaseParts(f: Fault, s: Stmt)
    requires s.ShellCase?
    ensures SoundStmt(f, s) <==> SoundExpr(f, s.word) && SoundBodies(f, s.arms)
  {
    hide SoundExpr;
  }

  /** The walk over the lines, with the guard of each statement's kind. */
  predicate SoundWalk(f: Fault, lines: seq<string>, i: nat)
    requires i <= |lines|
    decreases |lines| - i
  {
    if i == |lines| then true
    else
      var line := lines[i];
      if IsSkipped(line) then SoundWalk(f, lines, i + 1)
      else if FirstKeyword(line) in BLOCK_OPENERS then
        BlockAt(lines, i).Ok? ==> SoundRegion(f, lines, i) && SoundWalk(f, lines, BlockAt(lines, i).value.1)
      else if FirstKeyword(line) == KCase then
        CaseAt(lines, i).Ok? ==>
          var next := CaseAt(lines, i).value.1;
          SoundCase(f, Join("\n", lines[i..next])) && SoundWalk(f, lines, next)
      else SoundLine(f, line) && SoundWalk(f, lines, i + 1)
  }

  lemma {:induction false} WalkSound(f: Fault, lines: seq<string>, i: nat)
    requires i <= |lines| && Walk(lines, i).Ok? && forall k :: 0 <= k < |lines| ==> Trim(lines[k]) == lines[k]
    ensures SoundStmts(f, Walk(lines, i).value) <==> SoundWalk(f, lines, i)
    decreases |lines| - i
  {
    hide FirstKeyword, ControlFlowKeyword, BlockAt, CaseAt, FlatLine, SoundStmts, SoundCase, SoundRegion, SoundLine,
         IsSkipped, Trim, Join;
    if i == |lines| {
      NothingSound(f);
    } else {
      var line := lines[i];
      if IsSkipped(line) {
        WalkSound(f, lines, i + 1);
      } else if FirstKeyword(line) in BLOCK_OPENERS {
        var (stmt, next) := BlockAt(lines, i).value;
        BlockSound(f, lines, i);
        OneSound(f, stmt);
        WalkSound(f, lines, next);
        SoundAppend(f, [stmt], Walk(lines, next).value);
      } else if FirstKeyword(line) == KCase {
        var (stmt, next) := CaseAt(lines, i).value;
        CaseLinesSound(f, lines, i);
        OneSound(f, stmt);
        WalkSound(f, lines, next);
        SoundAppend(f, [stmt], Walk(lines, next).value);
      } else {
        FlatLineSound(f, line);
        WalkSound(f, lines, i + 1);
        SoundAppend(f, AsList(FlatLine(line).value), Walk(lines, i + 1).value);
      }
    }
  }

  lemma NothingSound(f: Fault)
    ensures SoundStmts(f, [])
  {
  }

  lemma CaseLinesSound(f: Fault, lines: seq<string>, i: nat)
    requires i < |lines| && CaseAt(lines, i).Ok?
    ensures var (stmt, next) := CaseAt(lines, i).value;
            SoundStmt(f, stmt) <==> SoundCase(f, Join("\n", lines[i..next]))
  {
    hide CaseOf, SoundCase, SoundStmt, Join, RegionEnd;
    var next := RegionEnd(lines, i, 0).value;
    CaseSound(f, Join("\n", lines[i..next]));
  }

  /**
   * An accepted script has no reserved word as a program at any depth, substitutions included, exactly when no
   * substitution read from the source starts with one; and it holds no here-document operator exactly when none is
   * among those tokens or in a condition.
   */
  lemma ScriptSoundExactly(f: Fault, source: string)
    requires ScriptOf(source).Ok?
    ensures SoundStmts(f, ScriptOf(source).value) <==> SoundWalk(f, TrimAll(Lines(Splice(source))), 0)
  {
    hide SoundStmts, SoundWalk, Walk, Splice, Lines, Trim;
    var raw := Lines(Splice(source));
    forall k | 0 <= k < |raw| ensures Trim(TrimAll(raw)[k]) == TrimAll(raw)[k] {
      TrimTwice(raw[k]);
    }
    WalkSound(f, TrimAll(raw), 0);
  }
}
