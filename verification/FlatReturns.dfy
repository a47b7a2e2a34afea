/** Exactly which accepted flat lines come back from the text of the statement they were lowered to. */
module FlatReturns {
  import opened Outcomes
  import opened Text
  import opened ShellAst
  import opened Splicer
  import opened Tokenizer
  import opened TokenText
  import opened FlatLines
  import opened NoShredding
  import opened Printer
  import opened FlatRoundTrip
  import opened Machines
  import opened Reprints
  import opened Lowerings
  import opened Misreadings

  /** An accepted flat line, as the walk sees it, and its statement. */
  ghost predicate LineOf(line: string, s: Stmt) {
    && Trimmed(line) && '\n' !in line
    && ControlFlowKeyword(line) == NoKeyword && FlatLine(line) == Ok(Some(s))
  }

  /**
   * No parenthesis in the text of a rendered substitution; for a pipeline, no here-document on the rendered line, and
   * no `&` and no assignment in front of it.
   */
  predicate Returns(s: Stmt) {
    match s
    case Cmd(_, args) => AllParenFree(args)
    case Pipeline(stages) =>
      && (forall stage :: stage in stages && stage.Cmd? ==> AllParenFree(stage.args))
      && !HasHereDoc(StmtText(s)) && FirstWord(StmtText(s)) != "&" && !IsAssignment(StmtText(s))
    case ShellAssign(_, value) => ParenFree(value)
    case _ => false
  }

  // ---- characters that printing does not bring in ----

  predicate NotPrinted(c: char) {
    c !in {' ', '$', '(', ')', '\'', '"', '='}
  }

  lemma {:induction false} ArgumentLacks(t: RawToken, c: char)
    requires LowerRawToken(t).Ok? && c !in t.text && NotPrinted(c)
    ensures c !in ArgText(LowerRawToken(t).value)
    decreases Size(t), 0
  {
    hide TokenizeFrom, LowerTokens, CmdText, Trim;
    var e := LowerRawToken(t).value;
    if t.CommandSubst? {
      var raw := Tokenize(Trim(t.text)).value;
      TokensFit(Trim(t.text), "");
      TrimNeverGrows(t.text);
      TrimLacks(t.text, c);
      TokenCharacters(Trim(t.text), "", c);
      CommandLacks(raw, c);
    } else {
      PlainLacks(t, c);
    }
  }

  lemma PlainLacks(t: RawToken, c: char)
    requires LowerRawToken(t).Ok? && !t.CommandSubst? && c !in t.text && NotPrinted(c)
    ensures c !in ArgText(LowerRawToken(t).value)
  {
    if t.Bare? && !LowerToken(t.text).LitStr? {
      var e := LowerToken(t.text);
      var name := if e.ShellVar? then e.name else e.param;
      forall i | 0 <= i < |name| ensures name[i] in t.text {
        if e.ShellVar? && t.text[1..][0] == '{' {
          assert name[i] == t.text[1..][i + 1] == t.text[i + 2];
        } else {
          assert name[i] == t.text[i + 1];
        }
      }
      assert ArgText(e) == "$" + name;
      assert forall d :: d in name ==> d in t.text;
    }
  }

  lemma TrimLacks(s: string, c: char)
    requires c !in s
    ensures c !in Trim(s)
  {
    var pre, post := TrimShape(s);
  }

  /** A command printed from tokens without the character lacks it. */
  lemma {:induction false} CommandLacks(raw: seq<RawToken>, c: char)
    requires raw != [] && raw[0].Bare? && LowerTokens(raw[1..]).Ok? && NotPrinted(c)
    requires forall t :: t in raw ==> c !in t.text
    ensures c !in CmdText(raw[0].text, LowerTokens(raw[1..]).value)
    decreases TotalSize(raw), 1
  {
    hide LowerRawToken, ArgText, Join;
    var program, args := raw[0].text, LowerTokens(raw[1..]).value;
    var parts := [program] + ArgTexts(args);
    LoweredLength(raw[1..]);
    JoinedArgs(program, args);
    forall k | 0 <= k < |parts| ensures c !in parts[k] {
      if k > 0 {
        LoweredAt(raw[1..], k - 1);
        ArgTextAt(args, k - 1);
        assert raw[1..][k - 1] == raw[k] && raw[k] in raw;
        SizeAt(raw, k);
        ArgumentLacks(raw[k], c);
      } else {
        assert raw[0] in raw;
      }
    }
    JoinLacks(parts, c);
  }

  lemma {:induction false} SizeAt(ts: seq<RawToken>, k: nat)
    requires k < |ts|
    ensures Size(ts[k]) <= TotalSize(ts)
  {
    if k > 0 {
      SizeAt(ts[1..], k - 1);
    }
  }

  lemma {:induction false} JoinLacks(parts: seq<string>, c: char)
    requires c != ' ' && forall k :: 0 <= k < |parts| ==> c !in parts[k]
    ensures c !in Join(" ", parts)
  {
    if |parts| > 1 {
      JoinLacks(parts[1..], c);
    }
  }

  // ---- trimmed lines ----

  lemma ProducedTrimmed(ts: seq<RawToken>, i: nat)
    requires i < |ts| && Produced(ts, i)
    ensures Trimmed(PrintToken(ts[i])) && PrintToken(ts[i])[0] != '#'
  {
    hide WellFormedToken, OpenBare;
    if WellFormedToken(ts[i]) {
      PrintedTokenTrimmed(ts[i]);
    } else if !ts[i].CommandSubst? {
      LastReadBack(ts[i]);
    }
  }

  lemma PrintedTrimmed(ts: seq<RawToken>, i: nat, c: RawToken)
    requires i < |ts| && Produced(ts, i) && PrintedAs(ts[i], c)
    ensures Trimmed(PrintToken(c)) && PrintToken(c)[0] != '#'
  {
    hide WellFormedToken, OpenBare, CmdText, TokenizeFrom, LowerTokens, Trim;
    ProducedTrimmed(ts, i);
    if ts[i].Bare? && c != ts[i] {
      var e := LowerToken(ts[i].text);
      assert e.ShellVar? || e.ShellSpecial?;
      assert WellFormedArg(e);
      VariableToken(e);
      PrintedTokenTrimmed(c);
    }
  }

  lemma {:induction false} LineTrimmed(cs: seq<RawToken>)
    requires cs != [] && forall i :: 0 <= i < |cs| ==> Trimmed(PrintToken(cs[i]))
    ensures Trimmed(LineText(cs)) && LineText(cs)[0] == PrintToken(cs[0])[0]
  {
    hide PrintToken;
    if |cs| == 1 {
      LoneLine(cs);
    } else {
      LineTrimmed(cs[1..]);
      assert PrintTokens(cs)[1..] == PrintTokens(cs[1..]);
      assert LineText(cs) == PrintToken(cs[0]) + " " + LineText(cs[1..]);
    }
  }

  // ---- one command ----

  /** A command's text comes from a text: what printing makes of it. */
  lemma CommandShape(text: string, s: Stmt)
    requires Command(text) == Ok(Some(s))
    ensures s.Cmd? && Tokenize(text).Ok? && Tokenize(text).value != [] && Tokenize(text).value[0] == Bare(s.program)
    ensures LowerTokens(Tokenize(text).value[1..]) == Ok(s.args)
    ensures var raw := Tokenize(text).value; var cs := CmdTokens(s.program, s.args);
      AllProduced(raw) && AllPrintedAs(raw, cs) && CmdText(s.program, s.args) == LineText(cs)
    ensures Trimmed(CmdText(s.program, s.args)) && CmdText(s.program, s.args)[0] == s.program[0] != '#'
  {
    hide TokenizeFrom, LowerTokens, PrintedAs, CmdText, WellFormedToken, OpenBare, LineText;
    var raw := Tokenize(text).value;
    LineProduces(text);
    CommandPrinted(raw);
    var cs := CmdTokens(s.program, s.args);
    forall i | 0 <= i < |cs| ensures Trimmed(PrintToken(cs[i])) && PrintToken(cs[i])[0] != '#' {
      assert Produced(raw, i) && PrintedAs(raw[i], cs[i]);
      PrintedTrimmed(raw, i, cs[i]);
    }
    LineTrimmed(cs);
  }

  /** A command is well-formed exactly when it is free of parentheses. */
  lemma CommandExactly(text: string, s: Stmt)
    requires Command(text) == Ok(Some(s))
    ensures WellFormedCommand(s) <==> AllParenFree(s.args)
  {
    hide TokenizeFrom, LowerTokens, PrintedAs, CmdText, WellFormedToken, OpenBare, LineText, ParenFree,
         WellFormedArgList;
    CommandShape(text, s);
    var raw := Tokenize(text).value;
    ProducedRest(raw);
    ArgumentsExactly(raw[1..]);
    LoweredLength(raw[1..]);
    assert Produced(raw, 0);
  }

  /** A command that is not free of parentheses is not read back, whatever follows its last argument but one. */
  lemma CommandNotBack(text: string, s: Stmt) returns (front: string, rest: string)
    requires Command(text) == Ok(Some(s)) && !AllParenFree(s.args)
    ensures CmdText(s.program, s.args) == front + rest && Trimmed(front) && front[|front| - 1] == ')'
    ensures rest == "" || rest[0] == ' '
    ensures forall other :: Command(front + other) != Ok(Some(s))
  {
    hide TokenizeFrom, LowerTokens, PrintedAs, CmdText, WellFormedToken, OpenBare, LineText, ParenFree, ArgText,
         BadSubstitution, WellFormedArgs, Command;
    CommandParts(text, s);
    CommandShape(text, s);
    var raw := Tokenize(text).value;
    ProducedRest(raw);
    var j := FirstBad(raw[1..]);
    var program, args := s.program, s.args;
    front := CmdText(program, args[..j]) + " " + ArgText(args[j]);
    rest := TextCut(program, args, j);
    LoweredLength(raw[1..]);
    forall other ensures Command(front + other) != Ok(Some(s)) {
      CommandMisread(program, args, j, other);
    }
    BadIsTrimmed(args[j]);
    CommandText(program, args[..j]);
    assert Cmd(program, args) == s;
  }

  lemma CommandParts(text: string, s: Stmt)
    requires Command(text) == Ok(Some(s)) && !AllParenFree(s.args)
    ensures s.Cmd? && WellFormedToken(Bare(s.program))
  {
    hide TokenizeFrom, LowerTokens, PrintedAs, CmdText, OpenBare, LineText, ParenFree, WellFormedToken;
    CommandShape(text, s);
    var raw := Tokenize(text).value;
    LoweredLength(raw[1..]);
    assert Produced(raw, 0);
  }

  lemma BadIsTrimmed(e: Expr)
    requires BadSubstitution(e)
    ensures Trimmed(ArgText(e)) && ArgText(e)[|ArgText(e)| - 1] == ')'
  {
    hide CmdText;
  }

  /** A command's text up to one of its arguments. */
  lemma TextCut(program: string, args: seq<Expr>, j: nat) returns (rest: string)
    requires j < |args|
    ensures CmdText(program, args) == CmdText(program, args[..j]) + " " + ArgText(args[j]) + rest
    ensures rest == "" || rest[0] == ' '
  {
    hide ArgText;
    var parts := [program] + ArgTexts(args);
    JoinedArgs(program, args);
    JoinedArgs(program, args[..j]);
    ArgTextsCut(args, j);
    var front := [program] + ArgTexts(args[..j]);
    var back := ArgTexts(args[j + 1..]);
    assert parts == front + ([ArgText(args[j])] + back);
    JoinAppend(" ", front, [ArgText(args[j])] + back);
    if back == [] {
      rest := "";
      assert [ArgText(args[j])] + back == [ArgText(args[j])];
    } else {
      JoinAppend(" ", [ArgText(args[j])], back);
      rest := " " + Join(" ", back);
      assert Join(" ", [ArgText(args[j])]) == ArgText(args[j]);
      Associative(ArgText(args[j]), " ", Join(" ", back));
    }
  }

  lemma {:induction false} ArgTextsCut(args: seq<Expr>, j: nat)
    requires j < |args|
    ensures ArgTexts(args) == ArgTexts(args[..j]) + ([ArgText(args[j])] + ArgTexts(args[j + 1..]))
  {
    hide ArgText;
    if j > 0 {
      ArgTextsCut(args[1..], j - 1);
      assert args[1..][..j - 1] == args[..j][1..] && args[1..][j..] == args[j + 1..];
    } else {
      assert args[..0] == [];
    }
  }

  /** The first bareword of an accepted line starts a command, as the line does. */
  lemma StartsLikeLine(line: string, program: string)
    requires Trimmed(line) && Tokenize(line).Ok? && Tokenize(line).value != []
      && Tokenize(line).value[0] == Bare(program)
    ensures IsAssignment(program) ==> IsAssignment(line)
    ensures program == "&" ==> FirstWord(line) == "&"
  {
    hide TokenizeFrom, IsPosixIdentifier;
    FirstBareIsFirstWord(line);
    var pre, rest := FirstWordShape(line);
    assert line[0] == (pre + FirstWord(line) + rest)[0];
    assert pre == "";
    if program == FirstWord(line) {
      assert line == program + rest;
      AssignmentInFront(program, rest);
    } else {
      DollarIsNoAssignment(program);
    }
  }

  lemma AssignmentInFront(program: string, rest: string)
    ensures IsAssignment(program) ==> IsAssignment(program + rest)
  {
    hide IsPosixIdentifier;
    if IsAssignment(program) {
      var k := IndexOf(program, '=').value;
      var line := program + rest;
      assert line == program[..k] + ['='] + (program[k + 1..] + rest);
      IndexOfFirst(program[..k], '=', program[k + 1..] + rest);
      assert line[..k] == program[..k];
    }
  }

  lemma DollarIsNoAssignment(program: string)
    requires program != "" && program[0] == '$'
    ensures !IsAssignment(program)
  {
    hide IndexOf;
  }

  // ---- the guards on the printed line ----

  lemma PrintedSafely(m: Machine, text: string, s: Stmt)
    requires Command(text) == Ok(Some(s)) && Run(m, Start(m), text + " ") != Found
    ensures s.Cmd? && Run(m, Start(m), CmdText(s.program, s.args) + " ") != Found
  {
    hide Run, Step, PrintedAs, LineText, CmdText, TokenizeFrom, LowerTokens, WellFormedToken, OpenBare;
    CommandShape(text, s);
    NothingNewFound(m, text, CmdTokens(s.program, s.args));
  }

  lemma CommandLineLacks(text: string, s: Stmt, c: char)
    requires Command(text) == Ok(Some(s)) && c !in text && NotPrinted(c)
    ensures s.Cmd? && c !in CmdText(s.program, s.args)
  {
    hide PrintedAs, LineText, CmdText, TokenizeFrom, LowerTokens, WellFormedToken, OpenBare;
    CommandShape(text, s);
    TokenCharacters(text, "", c);
    CommandLacks(Tokenize(text).value, c);
  }

  /** What holds of the print of every accepted flat line. */
  ghost predicate Prints(s: Stmt) {
    var text := StmtText(s);
    Trimmed(text) && text[0] != '#' && '\n' !in text && ControlFlowKeyword(text) == NoKeyword
  }

  lemma CommandPrints(line: string, s: Stmt)
    requires LineOf(line, s) && Command(line) == Ok(Some(s))
    ensures Prints(s)
  {
    hide Run, Step, PrintedAs, LineText, CmdText, TokenizeFrom, LowerTokens, WellFormedToken, OpenBare, Command,
         FlatLine, ControlFlowKeyword;
    CommandShape(line, s);
    KeywordRefused(line);
    PrintedSafely(Keywords, line, s);
    KeywordRefused(CmdText(s.program, s.args));
    CommandLineLacks(line, s, '\n');
  }

  /** Which branch a line took can be told from its statement. */
  lemma TakenBranch(line: string, s: Stmt)
    requires FlatLine(line) == Ok(Some(s))
    ensures !HasHereDoc(line) && FirstWord(line) != "&"
    ensures s.Cmd? ==> Command(line) == Ok(Some(s)) && !IsAssignment(line) && !HasLonePipe(line)
    ensures s.Pipeline? ==>
      !IsAssignment(line) && HasLonePipe(line) && Stages(Split(line, PIPE)) == Ok(s.stages) && |s.stages| >= 2
    ensures s.ShellAssign? ==>
      IsAssignment(line) && s.target == line[..IndexOf(line, '=').value]
      && Assignment(s.target, line[IndexOf(line, '=').value + 1..]) == Ok(Some(s))
    ensures s.Cmd? || s.Pipeline? || s.ShellAssign?
  {
    hide HasHereDoc, HasLonePipe, Stages, LowerRawToken, TokenizeFrom, IsPosixIdentifier, FirstWord, LowerTokens;
  }

  /** The same tokens: a here-document on the printed line was one on the line. */
  lemma CommandHidesNothing(line: string, s: Stmt)
    requires Command(line) == Ok(Some(s)) && !HasHereDoc(line) && WellFormedCommand(s)
    ensures !HasHereDoc(CmdText(s.program, s.args))
  {
    hide PrintedAs, LineText, CmdText, TokenizeFrom, LowerTokens, WellFormedToken, OpenBare, WellFormedCommand,
         IsHereDocToken;
    CommandShape(line, s);
    CommandHereDoc(s);
    var raw, cs := Tokenize(line).value, CmdTokens(s.program, s.args);
    forall c | c in cs ensures !IsHereDocToken(c) {
      var i :| 0 <= i < |cs| && cs[i] == c;
      assert raw[i] in raw && PrintedAs(raw[i], c);
      PrintedOperator(raw[i], c);
    }
  }

  lemma OnlyNamesChange(tok: string)
    ensures !LowerToken(tok).ShellVar? ==> ArgToken(LowerToken(tok)) == Bare(tok)
  {
  }

  lemma PrintedOperator(t: RawToken, c: RawToken)
    requires PrintedAs(t, c) && !IsHereDocToken(t)
    ensures !IsHereDocToken(c)
  {
    hide CmdText, TokenizeFrom, LowerTokens, Trim;
    if t.Bare? && c != t {
      OnlyNamesChange(t.text);
      var name := LowerToken(t.text).name;
      assert c.text == "$" + name && '<' !in name;
      forall i | 0 <= i < |c.text| ensures c.text[i] != '<' {
        assert i > 0 ==> c.text[i] == name[i - 1];
      }
    }
  }

  // ---- commands ----

  lemma CommandReturns(line: string, s: Stmt)
    requires LineOf(line, s) && s.Cmd?
    ensures Prints(s) && (FlatLine(StmtText(s)) == Ok(Some(s)) <==> Returns(s))
    ensures WellFormedFlat(s) <==> Returns(s) && !Continues(StmtText(s))
  {
    hide Run, Step, PrintedAs, LineText, CmdText, TokenizeFrom, LowerTokens, WellFormedToken, OpenBare, Command,
         FlatLine, ControlFlowKeyword, ParenFree, HasHereDoc, IsAssignment, FirstWord, HasLonePipe, WellFormedCommand,
         Continues;
    TakenBranch(line, s);
    CommandPrints(line, s);
    CommandExactly(line, s);
    CommandShape(line, s);
    StartsLikeLine(line, s.program);
    PipeFound(line);
    PrintedSafely(Pipes, line, s);
    PipeFound(CmdText(s.program, s.args));
    assert StmtText(s) == CmdText(s.program, s.args);
    if AllParenFree(s.args) {
      CommandHidesNothing(line, s);
      CommandRoundTrip(s);
    } else {
      var front, rest := CommandNotBack(line, s);
      if FlatLine(StmtText(s)) == Ok(Some(s)) {
        TakenBranch(StmtText(s), s);
      }
    }
  }

  // ---- pipelines ----

  ghost predicate FromPiece(pieces: seq<string>, stage: Stmt) {
    exists piece :: piece in pieces && Command(Trim(piece)) == Ok(Some(stage))
  }

  lemma {:induction false} StagesFromPieces(pieces: seq<string>)
    requires Stages(pieces).Ok?
    ensures |Stages(pieces).value| <= |pieces|
    ensures forall stage :: stage in Stages(pieces).value ==> FromPiece(pieces, stage)
  {
    hide Command, Trim;
    if pieces != [] {
      StagesFromPieces(pieces[1..]);
      var c := Command(Trim(pieces[0])).value;
      var rest := Stages(pieces[1..]).value;
      assert Stages(pieces).value == (if c.Some? then [c.value] else []) + rest;
      forall stage | stage in Stages(pieces).value ensures FromPiece(pieces, stage) {
        if stage in rest {
          var piece :| piece in pieces[1..] && Command(Trim(piece)) == Ok(Some(stage));
          assert piece in pieces;
        } else {
          assert Command(Trim(pieces[0])) == Ok(Some(stage));
        }
      }
    }
  }

  /** As many stages as pieces: each piece is its stage. */
  lemma {:induction false} StagesFull(pieces: seq<string>)
    requires Stages(pieces).Ok? && |Stages(pieces).value| == |pieces|
    ensures forall i :: 0 <= i < |pieces| ==> Command(Trim(pieces[i])) == Ok(Some(Stages(pieces).value[i]))
  {
    hide Command, Trim;
    if pieces != [] {
      StagesFromPieces(pieces[1..]);
      StagesFull(pieces[1..]);
      var stages := Stages(pieces).value;
      assert stages[1..] == Stages(pieces[1..]).value;
      forall i | 0 <= i < |pieces| ensures Command(Trim(pieces[i])) == Ok(Some(stages[i])) {
        if i > 0 {
          assert pieces[i] == pieces[1..][i - 1] && stages[i] == stages[1..][i - 1];
        }
      }
    }
  }

  lemma {:induction false} KeywordRun(st: State, s: string)
    requires KeywordState(st)
    ensures KeywordState(Run(Keywords, st, s))
    decreases |s|
  {
    hide Step;
    if s != "" {
      KeywordStep(st, s[0]);
      KeywordRun(Step(Keywords, st, s[0]), s[1..]);
    }
  }

  /** At a separator the machine finds what it finds at a blank, and starts afresh. */
  lemma SeparatorStarts(s: string, rest: string)
    requires Run(Keywords, Fresh, s + "|" + rest) != Found
    ensures Run(Keywords, Fresh, s + " ") != Found
    ensures Run(Keywords, Fresh, s + "|" + rest) == Run(Keywords, Fresh, rest)
  {
    hide Run, Step, KeywordState;
    FreshIsState();
    KeywordRun(Fresh, s);
    var at := Run(Keywords, Fresh, s);
    RunAppend(Keywords, Fresh, s + "|", rest);
    RunAppend(Keywords, Fresh, s, "|");
    RunAppend(Keywords, Fresh, s, " ");
    RunOne(Keywords, at, '|');
    RunOne(Keywords, at, ' ');
    WordEnds(at, '|');
    WordEnds(at, ' ');
    FoundStays(Keywords, rest);
  }

  lemma FreshIsState()
    ensures KeywordState(Fresh)
  {
  }

  lemma {:induction false} PiecesSafe(pieces: seq<string>)
    requires pieces != [] && Run(Keywords, Fresh, Join("|", pieces) + " ") != Found
    ensures forall k :: 0 <= k < |pieces| ==> Run(Keywords, Fresh, pieces[k] + " ") != Found
  {
    hide Run, Step;
    if |pieces| > 1 {
      var rest := Join("|", pieces[1..]) + " ";
      assert Join("|", pieces) + " " == pieces[0] + "|" + rest;
      SeparatorStarts(pieces[0], rest);
      PiecesSafe(pieces[1..]);
    }
  }

  lemma TrimmedSafe(piece: string)
    requires Run(Keywords, Fresh, piece + " ") != Found
    ensures Run(Keywords, Fresh, Trim(piece) + " ") != Found
  {
    hide Run, Step, Trim;
    var pre, post := TrimShape(piece);
    var t := Trim(piece);
    PastStays(Keywords);
    assert piece + " " == pre + (t + (post + " "));
    RunAppend(Keywords, Fresh, pre, t + (post + " "));
    BlanksStay(Keywords, Fresh, pre);
    RunAppend(Keywords, Fresh, t, post + " ");
    BlanksAreOne(Keywords, Run(Keywords, Fresh, t), post + " ");
    RunAppend(Keywords, Fresh, t, " ");
    RunOne(Keywords, Run(Keywords, Fresh, t), ' ');
  }

  /** The texts of the stages, joined, find nothing that none of them finds. */
  lemma {:induction false} JoinedSafe(texts: seq<string>)
    requires texts != [] && forall k :: 0 <= k < |texts| ==> Run(Keywords, Fresh, texts[k] + " ") != Found
    ensures Run(Keywords, Fresh, Join(" | ", texts) + " ") != Found
  {
    hide Run, Step;
    if |texts| > 1 {
      JoinedSafe(texts[1..]);
      var rest := Join(" | ", texts[1..]) + " ";
      assert Join(" | ", texts) + " " == (texts[0] + " ") + ("| " + rest);
      RunAppend(Keywords, Fresh, texts[0] + " ", "| " + rest);
      RunAppend(Keywords, Run(Keywords, Fresh, texts[0] + " "), "| ", rest);
      PipeRestarts(texts[0]);
    }
  }

  lemma PipeRestarts(text: string)
    requires Run(Keywords, Fresh, text + " ") != Found
    ensures Run(Keywords, Run(Keywords, Fresh, text + " "), "| ") == Fresh
  {
    hide Run, Step;
    var at := Run(Keywords, Fresh, text);
    var next := Run(Keywords, Fresh, text + " ");
    RunAppend(Keywords, Fresh, text, " ");
    RunOne(Keywords, at, ' ');
    BlankLeavesWord(at);
    assert "| " == "|" + " ";
    RunAppend(Keywords, next, "|", " ");
    RunOne(Keywords, next, '|');
    RunOne(Keywords, Fresh, ' ');
    PastStays(Keywords);
  }

  lemma BlankLeavesWord(st: State)
    ensures var next := Step(Keywords, st, ' '); next != Found ==> Step(Keywords, next, '|') == Fresh
  {
  }

  lemma {:induction false} StageTextAt(stages: seq<Stmt>, k: nat)
    requires k < |stages| && stages[k].Cmd?
    ensures |StageTexts(stages)| == |stages| && StageTexts(stages)[k] == CmdText(stages[k].program, stages[k].args)
  {
    hide CmdText;
    if k > 0 {
      StageTextAt(stages[1..], k - 1);
    }
  }

  /** Cut at its pipe signs and trimmed, the joined text is the texts. */
  lemma {:induction false} PiecesOfJoin(pad: string, texts: seq<string>)
    requires texts != [] && (pad == "" || pad == " ")
    requires forall k :: 0 <= k < |texts| ==> Trimmed(texts[k]) && Without(texts[k], PIPE)
    ensures var pieces := Split(pad + Join(" | ", texts), PIPE);
      |pieces| == |texts| && forall k :: 0 <= k < |texts| ==> Trim(pieces[k]) == texts[k]
    decreases |texts|
  {
    hide Split, Trim;
    var text := texts[0];
    if |texts| == 1 {
      SplitUnbroken(pad + text, PIPE);
      TrimPadded(pad, text, "");
      assert pad + text + "" == pad + text;
    } else {
      var rest := " " + Join(" | ", texts[1..]);
      PiecesOfJoin(" ", texts[1..]);
      var first := pad + text + " ";
      assert pad + Join(" | ", texts) == first + ['|'] + rest;
      SplitAtSeparator(first, '|', rest, PIPE);
      SplitUnbroken(first, PIPE);
      TrimPadded(pad, text, " ");
    }
  }

  lemma {:induction false} JoinTrimmed(texts: seq<string>)
    requires texts != [] && forall k :: 0 <= k < |texts| ==> Trimmed(texts[k])
    ensures Trimmed(Join(" | ", texts)) && Join(" | ", texts)[0] == texts[0][0]
  {
    if |texts| > 1 {
      JoinTrimmed(texts[1..]);
    }
  }

  lemma {:induction false} JoinPipesLacks(texts: seq<string>, c: char)
    requires c !in {' ', '|'} && forall k :: 0 <= k < |texts| ==> c !in texts[k]
    ensures c !in Join(" | ", texts)
  {
    if |texts| > 1 {
      JoinPipesLacks(texts[1..], c);
    }
  }

  /** What holds of each stage of an accepted pipeline. */
  ghost predicate StageOf(s: Stmt) {
    && s.Cmd? && (exists text :: Command(text) == Ok(Some(s)))
    && var printed := CmdText(s.program, s.args);
       Trimmed(printed) && printed[0] != '#' && '\n' !in printed && '|' !in printed
       && Run(Keywords, Fresh, printed + " ") != Found
  }

  lemma StageAccepted(line: string, stages: seq<Stmt>, stage: Stmt)
    requires '\n' !in line && ControlFlowKeyword(line) == NoKeyword
    requires Stages(Split(line, PIPE)) == Ok(stages) && stage in stages
    ensures StageOf(stage)
  {
    hide Run, Step, CmdText, Command, Split, Trim, Stages;
    var pieces := Split(line, PIPE);
    StagesFromPieces(pieces);
    assert FromPiece(pieces, stage);
    var piece :| piece in pieces && Command(Trim(piece)) == Ok(Some(stage));
    var k :| 0 <= k < |pieces| && pieces[k] == piece;
    KeywordRefused(line);
    JoinedSplit(line, '|');
    PiecesSafe(pieces);
    TrimmedSafe(piece);
    PrintedSafely(Keywords, Trim(piece), stage);
    SplitPieces(line, PIPE);
    assert '|' !in piece && '\n' !in piece;
    TrimLacks(piece, '|');
    TrimLacks(piece, '\n');
    CommandLineLacks(Trim(piece), stage, '|');
    CommandLineLacks(Trim(piece), stage, '\n');
    CommandShape(Trim(piece), stage);
  }

  lemma PipelinePrints(line: string, s: Stmt)
    requires LineOf(line, s) && s.Pipeline?
    ensures Prints(s) && forall k :: 0 <= k < |s.stages| ==> StageOf(s.stages[k])
  {
    hide Run, Step, CmdText, Command, Split, Trim, Stages, FlatLine, StageOf, ControlFlowKeyword, Join, StageTexts;
    TakenBranch(line, s);
    var texts := StageTexts(s.stages);
    forall k | 0 <= k < |s.stages| ensures StageOf(s.stages[k]) {
      StageAccepted(line, s.stages, s.stages[k]);
    }
    StageTextsOf(s.stages);
    JoinTrimmed(texts);
    JoinPipesLacks(texts, '\n');
    JoinedSafe(texts);
    KeywordRefused(Join(" | ", texts));
  }

  lemma StageTextsOf(stages: seq<Stmt>)
    requires forall k :: 0 <= k < |stages| ==> StageOf(stages[k])
    ensures var texts := StageTexts(stages);
      |texts| == |stages| && forall k :: 0 <= k < |texts| ==>
        Trimmed(texts[k]) && texts[k][0] != '#' && '\n' !in texts[k] && Without(texts[k], PIPE)
        && Run(Keywords, Fresh, texts[k] + " ") != Found
  {
    hide Run, Step, CmdText, StageTexts;
    forall k | 0 <= k < |stages|
      ensures |StageTexts(stages)| == |stages| && StageTexts(stages)[k] == CmdText(stages[k].program, stages[k].args)
    {
      assert StageOf(stages[k]);
      StageTextAt(stages, k);
    }
    if stages == [] {
      NoStageTexts();
    }
  }

  lemma NoStageTexts()
    ensures StageTexts([]) == []
  {
  }

  lemma PipelineWellFormed(line: string, s: Stmt)
    requires LineOf(line, s) && s.Pipeline?
    ensures WellFormedFlat(s) <==> Returns(s) && !Continues(StmtText(s))
  {
    hide Run, Step, CmdText, Command, Split, Trim, Stages, FlatLine, ControlFlowKeyword, Join, StageTexts, ParenFree,
         WellFormedCommand, HasHereDoc, IsAssignment, FirstWord, Continues;
    TakenBranch(line, s);
    PipelinePrints(line, s);
    forall k | 0 <= k < |s.stages|
      ensures s.stages[k].Cmd? && (WellFormedStage(s.stages[k]) <==> AllParenFree(s.stages[k].args))
    {
      assert StageOf(s.stages[k]);
      var text :| Command(text) == Ok(Some(s.stages[k]));
      CommandExactly(text, s.stages[k]);
    }
    FirstProgram(s);
    if WellFormedFlat(s) {
      forall k | 0 <= k < |s.stages| ensures AllParenFree(s.stages[k].args) {
        assert WellFormedStage(s.stages[k]);
      }
      PipelineStart(s.stages);
      StagesAllFree(s.stages);
    }
    if Returns(s) && !Continues(StmtText(s)) {
      assert WellFormedStages(s.stages);
    }
  }

  lemma StagesAllFree(stages: seq<Stmt>)
    requires forall k :: 0 <= k < |stages| ==> stages[k].Cmd? && AllParenFree(stages[k].args)
    ensures forall stage :: stage in stages && stage.Cmd? ==> AllParenFree(stage.args)
  {
    hide ParenFree;
  }

  /** The printed line starts as its first program does. */
  lemma FirstProgram(s: Stmt)
    requires s.Pipeline? && |s.stages| >= 2 && s.stages[0].Cmd?
    ensures IsAssignment(s.stages[0].program) ==> IsAssignment(StmtText(s))
    ensures s.stages[0].program == "&" ==> FirstWord(StmtText(s)) == "&"
  {
    hide Join, StageTexts, IsAssignment, FirstWord, CmdText;
    JoinedFirst(s.stages);
    var rest := CmdTextStart(s.stages[0].program, s.stages[0].args);
    var more := rest + " | " + Join(" | ", StageTexts(s.stages[1..]));
    assert StmtText(s) == s.stages[0].program + more;
    AssignmentInFront(s.stages[0].program, more);
    if s.stages[0].program == "&" {
      FirstWordOf("", "&", more);
      assert "" + "&" + more == StmtText(s);
    }
  }

  lemma PipelineReturns(line: string, s: Stmt)
    requires LineOf(line, s) && s.Pipeline?
    ensures Prints(s) && (FlatLine(StmtText(s)) == Ok(Some(s)) <==> Returns(s))
    ensures WellFormedFlat(s) <==> Returns(s) && !Continues(StmtText(s))
  {
    hide Run, Step, CmdText, Command, Split, Trim, Stages, FlatLine, ControlFlowKeyword, Join, StageTexts, ParenFree,
         WellFormedCommand, HasHereDoc, IsAssignment, FirstWord, Continues, StageOf;
    PipelinePrints(line, s);
    PipelineWellFormed(line, s);
    if FlatLine(StmtText(s)) == Ok(Some(s)) {
      TakenBranch(StmtText(s), s);
      forall stage | stage in s.stages && stage.Cmd? ensures AllParenFree(stage.args) {
        var k :| 0 <= k < |s.stages| && s.stages[k] == stage;
        StageNotBack(s.stages, k);
      }
    }
    if Returns(s) {
      PipelineComesBack(line, s);
    }
  }

  /** A stage that is read back inside the pipeline's text is free of parentheses. */
  lemma StageNotBack(stages: seq<Stmt>, k: nat)
    requires k < |stages| && forall i :: 0 <= i < |stages| ==> StageOf(stages[i])
    requires Stages(Split(Join(" | ", StageTexts(stages)), PIPE)) == Ok(stages)
    ensures stages[k].Cmd? && AllParenFree(stages[k].args)
  {
    hide Run, Step, CmdText, Command, Split, Trim, Stages, Join, StageTexts, ParenFree;
    StageTextsOf(stages);
    PiecesOfJoin("", StageTexts(stages));
    assert "" + Join(" | ", StageTexts(stages)) == Join(" | ", StageTexts(stages));
    StagesFull(Split(Join(" | ", StageTexts(stages)), PIPE));
    assert StageOf(stages[k]);
    StageTextAt(stages, k);
    if !AllParenFree(stages[k].args) {
      var text :| Command(text) == Ok(Some(stages[k]));
      var front, rest := CommandNotBack(text, stages[k]);
    }
  }

  lemma PipelineComesBack(line: string, s: Stmt)
    requires LineOf(line, s) && s.Pipeline? && Returns(s)
    ensures FlatLine(StmtText(s)) == Ok(Some(s))
  {
    hide Run, Step, CmdText, Command, Split, Trim, Stages, ControlFlowKeyword, Join, StageTexts, ParenFree,
         WellFormedCommand, HasHereDoc, IsAssignment, FirstWord, HasLonePipe;
    TakenBranch(line, s);
    PipelinePrints(line, s);
    forall k | 0 <= k < |s.stages| ensures WellFormedStage(s.stages[k]) {
      assert StageOf(s.stages[k]);
      var text :| Command(text) == Ok(Some(s.stages[k]));
      CommandExactly(text, s.stages[k]);
    }
    FirstProgram(s);
    PipelineStart(s.stages);
    StagesRoundTrip("", s.stages);
    assert "" + StmtText(s) == StmtText(s);
    PipelineHasLonePipe(s.stages);
  }

  // ---- assignments ----

  ghost predicate NameText(name: string) {
    name != "" && forall i :: 0 <= i < |name| ==> IsAlpha(name[i]) || IsDigit(name[i]) || name[i] == '='
  }

  lemma TargetText(target: string)
    requires IsPosixIdentifier(target)
    ensures NameText(target + "=") && PlainBare(target + "=")
  {
    IdentifierIsPlain(target);
  }

  /** A name is pushed character by character, whatever comes behind it. */
  lemma {:induction false} NamePushed(name: string, rest: string, current: string)
    requires forall i :: 0 <= i < |name| ==> IsAlpha(name[i]) || IsDigit(name[i]) || name[i] == '='
    ensures TokenizeFrom(name + rest, current) == TokenizeFrom(rest, current + name)
    decreases |name|
  {
    if name == "" {
      assert name + rest == rest && current + name == current;
    } else {
      var s := name + rest;
      assert s[1..] == name[1..] + rest && s[0] == name[0];
      NamePushed(name[1..], rest, current + [name[0]]);
      assert current + [name[0]] + name[1..] == current + name;
    }
  }

  /** The rest of a first word is pushed behind whatever is waiting. */
  lemma {:induction false} WordPushed(s: string, a: string, b: string)
    requires a != "" && b != "" && TokenizeFrom(s, a).Ok?
    ensures var w := s[..WordLength(s)]; var ts := TokenizeFrom(s, a).value;
      ts != [] && ts[0] == Bare(a + w) && TokenizeFrom(s, b) == Ok([Bare(b + w)] + ts[1..])
    decreases |s|
  {
    if s == "" || IsWhitespace(s[0]) {
      assert a + s[..0] == a && b + s[..0] == b;
      assert TokenizeFrom(s, a) == After([Bare(a)], if s == "" then Ok([]) else TokenizeFrom(s[1..], "")) by {
        assert [Bare(a)] + [] == [Bare(a)];
      }
      assert TokenizeFrom(s, b) == After([Bare(b)], if s == "" then Ok([]) else TokenizeFrom(s[1..], "")) by {
        assert [Bare(b)] + [] == [Bare(b)];
      }
    } else if !OpensDelimited(s) {
      WordPushed(s[1..], a + [s[0]], b + [s[0]]);
      var n := WordLength(s[1..]);
      assert [s[0]] + s[1..][..n] == s[..n + 1];
      Associative(a, [s[0]], s[1..][..n]);
      Associative(b, [s[0]], s[1..][..n]);
    }
  }

  /** The value of an accepted assignment, if it is one plain bareword, holds no here-document operator. */
  lemma ValueHasNoOperator(name: string, text: string, value: string)
    requires NameText(name) && !HasHereDoc(name + text)
    requires Tokenize(text) == Ok([Bare(value)]) && PlainBare(value)
    ensures !HasDoubleLess(value)
  {
    hide IsHereDocToken, PlainBare;
    NamePushed(name, text, "");
    assert "" + name == name;
    PlainStart(value);
    if IsWhitespace(text[0]) {
      AfterNothing(Tokenize(text[1..]));
      assert Tokenize(name + text) == Ok([Bare(name)] + [Bare(value)]);
      assert Bare(value) in [Bare(name)] + [Bare(value)];
      PlainOperator(value);
    } else if OpensDelimited(text) {
      DelimitedPlain(text);
    } else {
      assert "" + [text[0]] == [text[0]];
      WordPushed(text[1..], [text[0]], name + [text[0]]);
      var w := text[1..][..WordLength(text[1..])];
      assert value == [text[0]] + w;
      assert name + [text[0]] + w == name + value;
      assert Tokenize(name + text) == Ok([Bare(name + value)] + []);
      assert Bare(name + value) in [Bare(name + value)] + [];
      if HasDoubleLess(value) {
        NameOperator(name, value);
      }
    }
  }

  lemma PlainStart(value: string)
    requires PlainBare(value)
    ensures value != "" && !StartsWith(value, "$(") && value[0] != '#'
  {
    if |value| >= 2 {
      assert value[..2] == [value[0]] + [value[1]];
    }
  }

  lemma PlainOperator(value: string)
    requires PlainBare(value)
    ensures IsHereDocToken(Bare(value)) <==> HasDoubleLess(value)
  {
    PlainIsPrintable(value);
  }

  lemma NameOperator(name: string, value: string)
    requires NameText(name) && HasDoubleLess(value)
    ensures IsHereDocToken(Bare(name + value))
  {
    var s := name + value;
    assert s[0] == name[0];
    assert |s| >= 3 ==> s[..3][0] == s[0];
    var i :| 0 <= i < |value| - 1 && value[i] == '<' && value[i + 1] == '<';
    assert s[|name| + i] == '<' && s[|name| + i + 1] == '<';
  }

  /** A delimited token that is bare is an arithmetic expansion, which is no plain bareword. */
  lemma DelimitedPlain(text: string)
    requires OpensDelimited(text) && Tokenize(text).Ok? && !IsWhitespace(text[0])
    ensures Tokenize(text).value != []
      && (Tokenize(text).value[0].Bare? ==> StartsWith(Tokenize(text).value[0].text, "$("))
  {
    hide ArithmeticLength, SubstitutionBody, IndexOf, DoubleQuoteLength;
    var (t, n) := Delimited(text).value;
    if t.Bare? {
      assert text[..n][..2] == text[..2] == "$(";
    }
  }

  /** Behind the name, a printed value is read in one piece with it, or refused. */
  lemma AssignmentOperator(name: string, value: Expr)
    requires NameText(name) && PlainBare(name) && WellFormedLast(value)
    requires var c := ArgToken(value); c.Bare? && PlainBare(c.text) ==> !HasDoubleLess(c.text)
    ensures !HasHereDoc(name + ArgText(value))
  {
    hide WellFormedLast, PlainBare, LastToken;
    LastArgument(value);
    var c := ArgToken(value);
    if c.Bare? && PlainBare(c.text) {
      NameEnd(name);
      PlainAppend(name, c.text);
      SinglePlainToken(name + c.text);
      NameHasNoOperator(name);
      NoDoubleLessAppend(name, c.text);
      PlainOperator(name + c.text);
    } else {
      LastOpens(c);
      NameEnd(name);
      PlainName(name);
      AdjacentIsRefused(name, "", ArgText(value));
    }
  }

  lemma PlainName(name: string)
    requires PlainBare(name)
    ensures PlainChars(name) && name != "" && name[0] != '#'
  {
  }

  lemma NameEnd(name: string)
    requires NameText(name)
    ensures name[|name| - 1] != '$' && name[|name| - 1] != '<'
  {
  }

  lemma NameHasNoOperator(name: string)
    requires NameText(name)
    ensures !HasDoubleLess(name)
  {
  }

  lemma LastOpens(c: RawToken)
    requires LastToken(c) && !(c.Bare? && PlainBare(c.text))
    ensures OpensDelimited(PrintToken(c))
  {
    hide PlainBare;
    if WellFormedToken(c) {
      PrintedOpens(c);
    } else {
      assert c.text[..3][0] == '$' && c.text[..3][1] == '(';
    }
  }

  lemma BareNameNoOperator(name: string)
    requires NameText(name) && PlainBare(name)
    ensures !HasHereDoc(name)
  {
    hide PlainBare;
    SinglePlainToken(name);
    NameHasNoOperator(name);
    PlainOperator(name);
  }

  /** An accepted assignment: its name, the text behind the sign, and the one token there, if there is one. */
  ghost predicate Assigns(line: string, s: Stmt, text: string, ts: seq<RawToken>) {
    && s.ShellAssign? && IsPosixIdentifier(s.target) && line == s.target + "=" + text && Tokenize(text) == Ok(ts)
    && (if ts == [] then s.value == LitStr("") else |ts| == 1 && LowerRawToken(ts[0]) == Ok(s.value))
  }

  lemma AssignmentParts(line: string, s: Stmt) returns (text: string, ts: seq<RawToken>)
    requires FlatLine(line) == Ok(Some(s)) && s.ShellAssign?
    ensures Assigns(line, s, text, ts)
  {
    hide TokenizeFrom, LowerRawToken, IsPosixIdentifier, FlatLine;
    TakenBranch(line, s);
    var eq := IndexOf(line, '=').value;
    text := line[eq + 1..];
    ts := Tokenize(text).value;
    assert line == line[..eq] + [line[eq]] + text;
  }

  lemma ValuePrinted(line: string, s: Stmt, text: string, ts: seq<RawToken>)
    requires Assigns(line, s, text, ts)
    ensures ts == [] ==> ArgText(s.value) == ""
    ensures ts != [] ==> Produced(ts, 0) && PrintedAs(ts[0], ArgToken(s.value))
    ensures ts != [] ==> Trimmed(ArgText(s.value)) && PrintToken(ArgToken(s.value)) == ArgText(s.value)
    ensures ts != [] ==> AllPrintedAs(ts, [ArgToken(s.value)]) && LineText([ArgToken(s.value)]) == ArgText(s.value)
  {
    hide TokenizeFrom, LowerRawToken, IsPosixIdentifier, WellFormedToken, OpenBare, ArgToken, ArgText, PrintToken;
    if ts == [] {
      NothingPrinted();
    } else {
      LineProduces(text);
      assert Produced(ts, 0);
      LoweredIsPrinted(ts[0]);
      PrintedTrimmed(ts, 0, ArgToken(s.value));
      LoneLine([ArgToken(s.value)]);
    }
  }

  lemma NothingPrinted()
    ensures ArgText(LitStr("")) == "" && LowerToken("") == LitStr("")
  {
  }

  lemma NamePast(name: string)
    requires name != "" && name[|name| - 1] == '=' && Run(Keywords, Fresh, name) != Found
    ensures Run(Keywords, Fresh, name) == Past
  {
    hide Run;
    var front := name[..|name| - 1];
    assert name == front + "=";
    RunAppend(Keywords, Fresh, front, "=");
    RunOne(Keywords, Run(Keywords, Fresh, front), '=');
    SignStep(Run(Keywords, Fresh, front));
  }

  lemma SignStep(st: State)
    ensures Step(Keywords, st, '=') in {Past, Found}
  {
  }

  lemma AssignmentSafe(name: string, text: string, cs: seq<RawToken>)
    requires name != "" && name[|name| - 1] == '=' && Run(Keywords, Fresh, name + text + " ") != Found
    requires Tokenize(text).Ok? && AllPrintedAs(Tokenize(text).value, cs)
    ensures Run(Keywords, Fresh, name + LineText(cs) + " ") != Found
  {
    hide Run, Step, TokenizeFrom, PrintedAs, LineText;
    var more := text + " ";
    assert name + text + " " == name + more;
    FrontNotFound(Keywords, Fresh, name, more);
    NamePast(name);
    RunAppend(Keywords, Fresh, name, more);
    FrontNotFound(Keywords, Past, text, " ");
    PastStays(Keywords);
    assert "" + text == text;
    Simulated(Keywords, Past, text, "", cs);
    RunAppend(Keywords, Past, text, " ");
    RunOne(Keywords, Run(Keywords, Past, text), ' ');
    var printed := LineText(cs);
    RunAppend(Keywords, Past, printed, " ");
    RunOne(Keywords, Run(Keywords, Past, printed), ' ');
    assert name + printed + " " == name + (printed + " ");
    RunAppend(Keywords, Fresh, name, printed + " ");
  }

  lemma AssignmentPrints(line: string, s: Stmt)
    requires LineOf(line, s) && s.ShellAssign?
    ensures Prints(s)
  {
    hide Run, Step, TokenizeFrom, LowerRawToken, IsPosixIdentifier, WellFormedToken, OpenBare, ArgToken, ArgText,
         PrintToken, FlatLine, ControlFlowKeyword, PrintedAs, LineText, FirstWord;
    var text, ts := AssignmentParts(line, s);
    ValuePrinted(line, s, text, ts);
    var value, name := ArgText(s.value), s.target + "=";
    AssignmentShape(s.target, value);
    KeywordRefused(line);
    assert name[|name| - 1] == '=';
    if ts == [] {
      NothingPrintedAs();
      AssignmentSafe(name, text, []);
    } else {
      AssignmentSafe(name, text, [ArgToken(s.value)]);
      TokenCharacters(text, "", '\n');
      assert ts[0] in ts;
      ArgumentLacks(ts[0], '\n');
    }
    KeywordRefused(name + value);
  }

  lemma NothingPrintedAs()
    ensures AllPrintedAs([], []) && LineText([]) == ""
  {
  }

  lemma AssignmentWellFormed(line: string, s: Stmt)
    requires LineOf(line, s) && s.ShellAssign?
    ensures WellFormedValue(s.value) <==> ParenFree(s.value)
    ensures WellFormedValue(s.value) ==> !HasHereDoc(StmtText(s))
    ensures IsPosixIdentifier(s.target)
  {
    hide TokenizeFrom, LowerRawToken, IsPosixIdentifier, WellFormedToken, OpenBare, ArgToken, ArgText, PrintToken,
         FlatLine, ControlFlowKeyword, PrintedAs, LineText, FirstWord, HasHereDoc, PlainBare, HasDoubleLess,
         ParenFree, WellFormedLast;
    TakenBranch(line, s);
    var text, ts := AssignmentParts(line, s);
    ValuePrinted(line, s, text, ts);
    var name := s.target + "=";
    TargetText(s.target);
    if ts == [] {
      EmptyValue();
      BareNameNoOperator(name);
      assert name + "" == name;
    } else {
      FirstExactly(ts);
      NotEmptyValue(s.value, ts[0]);
      if WellFormedLast(s.value) {
        PlainValue(line, s, text, ts);
        AssignmentOperator(name, s.value);
      }
    }
  }

  lemma EmptyValue()
    ensures ParenFree(LitStr(""))
  {
  }

  lemma NotEmptyValue(e: Expr, t: RawToken)
    requires Trimmed(ArgText(e))
    ensures e != LitStr("")
  {
  }

  lemma PlainValue(line: string, s: Stmt, text: string, ts: seq<RawToken>)
    requires Assigns(line, s, text, ts) && ts != [] && !HasHereDoc(line) && WellFormedLast(s.value)
    ensures var c := ArgToken(s.value); c.Bare? && PlainBare(c.text) ==> !HasDoubleLess(c.text)
  {
    hide TokenizeFrom, IsPosixIdentifier, WellFormedToken, OpenBare, HasHereDoc, PlainBare, WellFormedLast, CmdText,
         LowerTokens, HasDoubleLess, LowerToken;
    var t, c := ts[0], ArgToken(s.value);
    TargetText(s.target);
    if t.Bare? && c == t && PlainBare(c.text) {
      assert ts == [Bare(c.text)];
      ValueHasNoOperator(s.target + "=", text, c.text);
    } else if t.Bare? && c.Bare? {
      assert s.value == LowerToken(t.text);
      OnlyNamesChange(t.text);
      assert c != t ==> s.value.ShellVar?;
      NamesHaveNoOperator(s.value, t.text);
    }
  }

  lemma NamesHaveNoOperator(e: Expr, tok: string)
    requires e == LowerToken(tok)
    ensures e.ShellVar? ==> !HasDoubleLess(ArgText(e))
  {
    if e.ShellVar? {
      var text := ArgText(e);
      forall i | 0 <= i < |text| ensures text[i] != '<' {
        assert i > 0 ==> text[i] == e.name[i - 1];
      }
    }
  }

  lemma AssignmentReturns(line: string, s: Stmt)
    requires LineOf(line, s) && s.ShellAssign?
    ensures Prints(s) && (FlatLine(StmtText(s)) == Ok(Some(s)) <==> Returns(s))
    ensures WellFormedFlat(s) <==> Returns(s) && !Continues(StmtText(s))
  {
    hide TokenizeFrom, LowerRawToken, IsPosixIdentifier, FlatLine, ControlFlowKeyword, FirstWord, HasHereDoc,
         ParenFree, WellFormedLast, Continues, ArgText;
    AssignmentPrints(line, s);
    AssignmentWellFormed(line, s);
    if ParenFree(s.value) {
      AssignmentBack(s);
    } else if FlatLine(StmtText(s)) == Ok(Some(s)) {
      BadValue(line, s);
    }
  }

  lemma AssignmentBack(s: Stmt)
    requires s.ShellAssign? && IsPosixIdentifier(s.target) && WellFormedValue(s.value) && !HasHereDoc(StmtText(s))
    ensures FlatLine(StmtText(s)) == Ok(Some(s))
  {
    hide TokenizeFrom, Command, HasLonePipe, IsPosixIdentifier, FirstWord, HasHereDoc, Stages, Split, LowerRawToken,
         WellFormedLast, RenderableArg, ArgText;
    ValueTokens(s.value);
    AssignmentShape(s.target, ArgText(s.value));
  }

  lemma BadValue(line: string, s: Stmt)
    requires LineOf(line, s) && s.ShellAssign? && !ParenFree(s.value)
    ensures FlatLine(StmtText(s)) != Ok(Some(s))
  {
    hide TokenizeFrom, LowerRawToken, IsPosixIdentifier, FlatLine, ControlFlowKeyword, FirstWord, HasHereDoc, ArgText,
         CmdText;
    BadIsSubstitution(s.value);
    if FlatLine(StmtText(s)) == Ok(Some(s)) {
      var text, ts := AssignmentParts(StmtText(s), s);
      var name := s.target + "=";
      assert text == ArgText(s.value) by {
        assert (name + text)[|name|..] == text && (name + ArgText(s.value))[|name|..] == ArgText(s.value);
      }
      assert ArgText(s.value) + "" == ArgText(s.value);
      SubstitutionMisread(s.value, "");
    }
  }

  lemma BadIsSubstitution(e: Expr)
    requires !ParenFree(e)
    ensures BadSubstitution(e) && e != LitStr("")
  {
  }

  // ---- main result for one line ----

  /** An accepted flat line's statement is read back from its own text exactly when it satisfies `Returns`. */
  lemma FlatExactly(line: string, s: Stmt)
    requires LineOf(line, s)
    ensures Prints(s) && (FlatLine(StmtText(s)) == Ok(Some(s)) <==> Returns(s))
    ensures WellFormedFlat(s) <==> Returns(s) && !Continues(StmtText(s))
  {
    hide Prints, Returns, WellFormedFlat, Continues, FlatLine, ControlFlowKeyword, StmtText;
    TakenBranch(line, s);
    if s.Cmd? {
      CommandReturns(line, s);
    } else if s.Pipeline? {
      PipelineReturns(line, s);
    } else {
      AssignmentReturns(line, s);
    }
  }
}
