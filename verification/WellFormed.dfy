/** The scripts that survive printing and parsing, and the tree each of them comes back as. */
module WellFormed {
  import opened Text
  import opened ShellAst
  import opened FlatLines
  import opened Printer
  import opened FlatRoundTrip

  // ---- what comes back ----

  const NO_OP := Cmd(":", [])

  /** Empty loop and then bodies come back as the no-op they are printed as. */
  function Pad(s: Stmt): Stmt
    decreases s
  {
    match s
    case ShellLoop(kind, body) => ShellLoop(kind, PadBody(body))
    case ShellIf(cond, thenBody, elseBody) => ShellIf(cond, PadBody(thenBody), PadAll(elseBody))
    case ShellCase(word, arms) => ShellCase(word, PadArms(arms))
    case _ => s
  }

  function PadBody(body: seq<Stmt>): seq<Stmt>
    decreases body, 1
  {
    if body == [] then [NO_OP] else PadAll(body)
  }

  function PadAll(body: seq<Stmt>): (r: seq<Stmt>)
    ensures |r| == |body|
    decreases body, 0
  {
    if body == [] then [] else [Pad(body[0])] + PadAll(body[1..])
  }

  function PadArms(arms: seq<CaseArm>): (r: seq<CaseArm>)
    ensures |r| == |arms|
    decreases arms
  {
    if arms == [] then [] else [CaseArm(arms[0].patterns, PadAll(arms[0].body))] + PadArms(arms[1..])
  }

  /** No loop body and no then body is empty. */
  predicate NoEmptyBody(s: Stmt)
    decreases s
  {
    match s
    case ShellLoop(_, body) => body != [] && NoEmptyBodies(body)
    case ShellIf(_, thenBody, elseBody) => thenBody != [] && NoEmptyBodies(thenBody) && NoEmptyBodies(elseBody)
    case ShellCase(_, arms) => NoEmptyBodyInArms(arms)
    case _ => true
  }

  predicate NoEmptyBodies(body: seq<Stmt>)
    decreases body
  {
    body == [] || (NoEmptyBody(body[0]) && NoEmptyBodies(body[1..]))
  }

  predicate NoEmptyBodyInArms(arms: seq<CaseArm>)
    decreases arms
  {
    arms == [] || (NoEmptyBodies(arms[0].body) && NoEmptyBodyInArms(arms[1..]))
  }

  // ---- what must hold for it to come back ----

  datatype Place = AtTop | InBlock | InArm

  function Inside(place: Place): Place {
    if place == InArm then InArm else InBlock
  }

  /** Behind its first command, the line has no `case` and no `esac` in a command position. */
  predicate NoLaterCase(line: string) {
    var parts := Split(line, COMMAND_SEPARATORS);
    forall k :: 1 <= k < |parts| ==> FirstKeyword(parts[k]) !in {KCase, KEsac}
  }

  /** A header that stays on its line and is split nowhere by `;`. */
  predicate OneSegment(text: string) {
    ';' !in text && '\n' !in text
  }

  ghost predicate WellFormedCondition(e: Expr) {
    e.LitStr? && Trimmed(e.text) && OneSegment(e.text)
  }

  ghost predicate WellFormedKind(kind: LoopKind) {
    match kind
    case For(variable, items) =>
      IsPosixIdentifier(variable) && WellFormedArgs(items) && LitStr("do") !in items && OneSegment(HeaderText(kind))
    case While(cond) => WellFormedCondition(cond)
    case Until(cond) => WellFormedCondition(cond)
  }

  /** Trimmed, not empty, and without the characters that end a pattern or an arm. */
  ghost predicate WellFormedPattern(pattern: string) {
    Trimmed(pattern) && forall c :: c in pattern ==> c !in {'|', ')', ';', '\n'}
  }

  /** The pattern line opens and closes no `case` of its own. */
  ghost predicate WellFormedPatterns(patterns: seq<string>) {
    && patterns != []
    && (forall k :: 0 <= k < |patterns| ==> WellFormedPattern(patterns[k]))
    && (forall part :: part in Split(Join("|", patterns) + ")", COMMAND_SEPARATORS) ==>
          FirstKeyword(part) !in {KCase, KEsac})
  }

  ghost predicate WellFormedWord(word: Expr) {
    && WellFormedArg(word) && Solid(ArgText(word))
    && NoLaterCase("case " + ArgText(word) + " in")
  }

  ghost predicate WellFormedStmt(s: Stmt, place: Place)
    decreases s
  {
    match s
    case ShellLoop(kind, body) =>
      && WellFormedKind(kind) && (place == InArm ==> NoLaterCase(HeaderText(kind)))
      && WellFormedBody(body, Inside(place))
    case ShellIf(cond, thenBody, elseBody) =>
      && WellFormedCondition(cond) && (place == InArm ==> NoLaterCase(cond.text))
      && WellFormedBody(thenBody, Inside(place)) && WellFormedBody(elseBody, Inside(place))
    case ShellCase(word, arms) => place == AtTop && WellFormedWord(word) && arms != [] && WellFormedArms(arms)
    case _ => WellFormedFlat(s) && (place != AtTop ==> ';' !in StmtText(s))
  }

  ghost predicate WellFormedBody(body: seq<Stmt>, place: Place)
    decreases body
  {
    body == [] || (WellFormedStmt(body[0], place) && WellFormedBody(body[1..], place))
  }

  ghost predicate WellFormedArms(arms: seq<CaseArm>)
    decreases arms
  {
    arms == [] || (WellFormedPatterns(arms[0].patterns) && WellFormedBody(arms[0].body, InArm)
      && WellFormedArms(arms[1..]))
  }

  ghost predicate WellFormedScript(stmts: seq<Stmt>) {
    WellFormedBody(stmts, AtTop)
  }

  // ---- properties of the padding ----

  /** A tree comes back unchanged exactly when it has no empty body. */
  lemma {:induction false} PadKeepsExactly(s: Stmt)
    ensures Pad(s) == s <==> NoEmptyBody(s)
    decreases s
  {
    match s {
      case ShellLoop(_, body) => PadAllKeepsExactly(body);
      case ShellIf(_, thenBody, elseBody) =>
        PadAllKeepsExactly(thenBody);
        PadAllKeepsExactly(elseBody);
      case ShellCase(_, arms) => PadArmsKeepExactly(arms);
      case _ =>
    }
  }

  lemma {:induction false} PadAllKeepsExactly(body: seq<Stmt>)
    ensures PadAll(body) == body <==> NoEmptyBodies(body)
    decreases body
  {
    hide Pad, NoEmptyBody;
    if body != [] {
      PadKeepsExactly(body[0]);
      PadAllKeepsExactly(body[1..]);
      assert PadAll(body)[0] == Pad(body[0]) && PadAll(body)[1..] == PadAll(body[1..]);
    }
  }

  lemma {:induction false} PadArmsKeepExactly(arms: seq<CaseArm>)
    ensures PadArms(arms) == arms <==> NoEmptyBodyInArms(arms)
    decreases arms
  {
    hide PadAll, NoEmptyBodies;
    if arms != [] {
      PadAllKeepsExactly(arms[0].body);
      PadArmsKeepExactly(arms[1..]);
      assert PadArms(arms)[0].body == PadAll(arms[0].body) && PadArms(arms)[1..] == PadArms(arms[1..]);
    }
  }

  /** The padded tree prints the same text. */
  lemma {:induction false} PadPrintsSame(s: Stmt)
    ensures StmtText(Pad(s)) == StmtText(s)
    ensures Pad(s).ShellIf? == s.ShellIf?
    decreases s, 0
  {
    hide BodyText, ElseText, BodyLines;
    match s {
      case ShellLoop(kind, body) => PadBodyPrintsSame(body);
      case ShellIf(cond, thenBody, elseBody) =>
        PadBodyPrintsSame(thenBody);
        PadElsePrintsSame(elseBody);
      case ShellCase(word, arms) => PadArmsPrintSame(arms);
      case _ =>
    }
  }

  lemma {:induction false} PadAllPrintsSame(prefix: string, body: seq<Stmt>)
    ensures BodyLines(prefix, PadAll(body)) == BodyLines(prefix, body)
    decreases body, 0
  {
    hide StmtText, Pad;
    if body != [] {
      PadPrintsSame(body[0]);
      PadAllPrintsSame(prefix, body[1..]);
      assert PadAll(body)[1..] == PadAll(body[1..]);
    }
  }

  lemma NoOpPrints()
    ensures BodyLines("\t", [NO_OP]) == ["\t:"]
  {
    hide Pad;
    assert StmtText(NO_OP) == ":";
    SplitUnbroken(":", NEWLINE);
    assert "\t" + ":" == "\t:";
    assert Prefixed("\t", [":"]) == ["\t:"];
    assert BodyLines("\t", [NO_OP][1..]) == [];
  }

  lemma {:induction false} PadBodyPrintsSame(body: seq<Stmt>)
    ensures BodyText(PadBody(body)) == BodyText(body)
    decreases body, 1
  {
    hide StmtText, Pad, Prefixed, BodyLines;
    NoOpPrints();
    if body == [] {
      NoLines();
    } else {
      PadAllPrintsSame("\t", body);
    }
  }

  lemma NoLines()
    ensures BodyLines("\t", []) == []
  {
  }

  lemma {:induction false} PadElsePrintsSame(elseBody: seq<Stmt>)
    ensures ElseText(PadAll(elseBody)) == ElseText(elseBody)
    decreases elseBody, 2
  {
    hide StmtText, BodyText, BodyLines;
    if |elseBody| == 1 && elseBody[0].ShellIf? {
      var nested := elseBody[0];
      assert PadAll(elseBody) == [Pad(nested)];
      PadBodyPrintsSame(nested.thenBody);
      PadElsePrintsSame(nested.elseBody);
    } else if elseBody != [] {
      PadPrintsSame(elseBody[0]);
      PadBodyPrintsSame(elseBody);
      assert PadAll(elseBody)[0] == Pad(elseBody[0]);
    }
  }

  lemma {:induction false} PadArmsPrintSame(arms: seq<CaseArm>)
    ensures ArmsText(PadArms(arms)) == ArmsText(arms)
    decreases arms
  {
    hide BodyLines, PadAll;
    if arms != [] {
      PadAllPrintsSame("\t\t", arms[0].body);
      PadArmsPrintSame(arms[1..]);
      assert PadArms(arms)[1..] == PadArms(arms[1..]);
    }
  }
}
