/** Printing a flat statement and lowering the line again gives the statement back. */
module FlatRoundTrip {
  import opened Outcomes
  import opened Text
  import opened ShellAst
  import opened Splicer
  import opened Tokenizer
  import opened TokenText
  import opened FlatLines
  import opened Printer

  // ---- the arguments that survive printing ----

  /** The raw token an argument is printed as. */
  function ArgToken(e: Expr): RawToken {
    match e
    case QuotedString(s, Single) => SingleQuoted(s)
    case QuotedString(s, Double) => DoubleQuoted(s)
    case CommandSubstitution(inner) => CommandSubst(if inner.Cmd? then CmdText(inner.program, inner.args) else "")
    case _ => Bare(ArgText(e))
  }

  function ArgTokens(args: seq<Expr>): seq<RawToken> {
    if args == [] then [] else [ArgToken(args[0])] + ArgTokens(args[1..])
  }

  function CmdTokens(program: string, args: seq<Expr>): seq<RawToken> {
    [Bare(program)] + ArgTokens(args)
  }

  /** A literal must be one bareword that is no variable; a substitution may hold no parenthesis. */
  predicate WellFormedArg(e: Expr)
    decreases e
  {
    match e
    case LitStr(s) => WellFormedToken(Bare(s)) && LowerToken(s) == LitStr(s)
    case QuotedString(s, Single) => WellFormedToken(SingleQuoted(s))
    case QuotedString(s, Double) => WellFormedToken(DoubleQuoted(s))
    case QuotedString(_, Backslash) => false
    case ShellVar(name) => IsPosixIdentifier(name)
    case ShellSpecial(param) => IsShellSpecial(param)
    case CommandSubstitution(inner) =>
      && inner.Cmd? && WellFormedToken(Bare(inner.program)) && WellFormedArgs(inner.args)
      && WellFormedToken(CommandSubst(CmdText(inner.program, inner.args)))
    case Foreign => false
  }

  predicate WellFormedArgs(args: seq<Expr>)
    decreases args
  {
    args == [] || (WellFormedArg(args[0]) && WellFormedArgs(args[1..]))
  }

  lemma VariableToken(e: Expr)
    requires e.ShellVar? || e.ShellSpecial?
    requires WellFormedArg(e)
    ensures WellFormedToken(ArgToken(e)) && LowerRawToken(ArgToken(e)) == Ok(e)
  {
    var s := ArgText(e);
    assert s[1..] == if e.ShellVar? then e.name else e.param;
    forall i | 0 <= i < |s| ensures BareChar(s[i]) && !(s[i] == '$' && i + 1 < |s| && s[i + 1] == '(') {
      if i > 0 {
        assert s[i] == s[1..][i - 1];
      }
      if i + 1 < |s| {
        assert s[i + 1] == s[1..][i];
      }
    }
  }

  /** Every well-formed argument prints as one well-formed token, which lowers to the argument. */
  lemma {:induction false} ArgRoundTrip(e: Expr)
    requires WellFormedArg(e)
    ensures WellFormedToken(ArgToken(e)) && PrintToken(ArgToken(e)) == ArgText(e)
    ensures LowerRawToken(ArgToken(e)) == Ok(e)
    ensures RenderableArg(e)
    decreases e, 0
  {
    hide IsPosixIdentifier, IsShellSpecial, LowerToken;
    match e {
      case LitStr(s) =>
      case QuotedString(s, quoting) =>
      case ShellVar(_) => VariableToken(e);
      case ShellSpecial(_) => VariableToken(e);
      case CommandSubstitution(inner) => SubstitutionRoundTrip(inner.program, inner.args);
      case Foreign =>
    }
  }

  lemma {:induction false} ArgsRoundTrip(args: seq<Expr>)
    requires WellFormedArgs(args)
    ensures WellFormedTokens(ArgTokens(args)) && PrintTokens(ArgTokens(args)) == ArgTexts(args)
    ensures LowerTokens(ArgTokens(args)) == Ok(args)
    ensures RenderableArgs(args)
    decreases args, 0
  {
    hide WellFormedArg, ArgToken, LowerRawToken, WellFormedToken, PrintToken, RenderableArg;
    if args != [] {
      var ts := ArgTokens(args);
      ArgRoundTrip(args[0]);
      ArgsRoundTrip(args[1..]);
      assert ts[1..] == ArgTokens(args[1..]);
      assert PrintTokens(ts) == [PrintToken(ts[0])] + PrintTokens(ts[1..]);
      assert [args[0]] + args[1..] == args;
    }
  }

  lemma {:induction false} SubstitutionRoundTrip(program: string, args: seq<Expr>)
    requires WellFormedToken(Bare(program)) && WellFormedArgs(args)
    ensures LowerRawToken(CommandSubst(CmdText(program, args))) == Ok(CommandSubstitution(Cmd(program, args)))
    ensures RenderableArgs(args)
    decreases args, 2
  {
    hide WellFormedToken, LowerTokens;
    var text := CmdText(program, args);
    CommandText(program, args);
    TrimOfTrimmed(text);
    assert CmdTokens(program, args)[1..] == ArgTokens(args);
  }

  /** A command's text is its tokens with single spaces between them. */
  lemma {:induction false} CommandText(program: string, args: seq<Expr>)
    requires WellFormedToken(Bare(program)) && WellFormedArgs(args)
    ensures WellFormedTokens(CmdTokens(program, args))
    ensures CmdText(program, args) == LineText(CmdTokens(program, args))
    ensures Tokenize(CmdText(program, args)) == Ok(CmdTokens(program, args))
    ensures LowerTokens(ArgTokens(args)) == Ok(args) && RenderableArgs(args)
    ensures Trimmed(CmdText(program, args)) && CmdText(program, args)[0] == program[0] != '#'
    decreases args, 1
  {
    hide WellFormedToken, LowerTokens, TokenizeFrom, RenderableArgs, WellFormedArgs;
    var ts := CmdTokens(program, args);
    ArgsRoundTrip(args);
    assert PrintTokens(ts) == [program] + PrintTokens(ArgTokens(args));
    TokensReadBack(ts);
    LineTextTrimmed(ts);
  }

  // ---- flat statements ----

  /** The last argument of a command may be an arithmetic expansion that nothing closes. */
  predicate WellFormedLast(e: Expr) {
    WellFormedArg(e) || (e.LitStr? && OpenBare(e.text))
  }

  predicate WellFormedArgList(args: seq<Expr>) {
    if |args| <= 1 then args == [] || WellFormedLast(args[0])
    else WellFormedArg(args[0]) && WellFormedArgList(args[1..])
  }

  predicate WellFormedCommand(s: Stmt) {
    && s.Cmd? && WellFormedArgList(s.args)
    && (WellFormedToken(Bare(s.program)) || (s.args == [] && OpenBare(s.program)))
  }

  predicate WellFormedStage(s: Stmt) {
    WellFormedCommand(s) && '|' !in CmdText(s.program, s.args)
  }

  predicate WellFormedStages(stages: seq<Stmt>) {
    stages != [] && forall i :: 0 <= i < |stages| ==> WellFormedStage(stages[i])
  }

  /** The first program of a line is neither `&` nor an assignment. */
  predicate StartsCommand(program: string) {
    program != "&" && !IsAssignment(program)
  }

  predicate WellFormedValue(value: Expr) {
    value == LitStr("") || WellFormedLast(value)
  }

  /** A line that stays one logical line and holds no reserved word in a command position and no here-document. */
  predicate SafeLine(line: string) {
    '\n' !in line && !Continues(line) && ControlFlowKeyword(line) == NoKeyword && !HasHereDoc(line)
  }

  /** The statements of one line that come back from their own text. */
  predicate WellFormedFlat(s: Stmt) {
    && SafeLine(StmtText(s))
    && match s
       case Cmd(program, _) => WellFormedCommand(s) && StartsCommand(program) && !HasLonePipe(StmtText(s))
       case Pipeline(stages) => |stages| >= 2 && WellFormedStages(stages) && StartsCommand(stages[0].program)
       case ShellAssign(target, value) => IsPosixIdentifier(target) && WellFormedValue(value)
       case _ => false
  }

  // ---- commands ----

  lemma LastArgument(e: Expr)
    requires WellFormedLast(e)
    ensures LastToken(ArgToken(e)) && PrintToken(ArgToken(e)) == ArgText(e)
    ensures LowerRawToken(ArgToken(e)) == Ok(e) && RenderableArg(e)
  {
    hide OpenBare;
    if WellFormedArg(e) {
      ArgRoundTrip(e);
    } else {
      OpenIsLiteral(e.text);
    }
  }

  lemma OpenIsLiteral(s: string)
    requires OpenBare(s)
    ensures LowerToken(s) == LitStr(s)
  {
    assert s[..3][0] == '$' && s[..3][1] == '(';
    assert s[1..][0] == '(';
  }

  lemma {:induction false} ArgumentsRead(args: seq<Expr>)
    requires WellFormedArgList(args)
    ensures ReadableLine(ArgTokens(args)) && PrintTokens(ArgTokens(args)) == ArgTexts(args)
    ensures LowerTokens(ArgTokens(args)) == Ok(args) && RenderableArgs(args)
  {
    hide WellFormedArg, WellFormedLast, ArgToken, LowerRawToken, WellFormedToken, PrintToken, RenderableArg, LastToken;
    if args != [] {
      var ts := ArgTokens(args);
      assert ts[1..] == ArgTokens(args[1..]) && |ts| == |args| by { ArgTokensLength(args); }
      assert PrintTokens(ts) == [PrintToken(ts[0])] + PrintTokens(ts[1..]);
      assert [args[0]] + args[1..] == args;
      if |args| == 1 {
        LastArgument(args[0]);
        assert args[1..] == [] && ts[1..] == [];
        assert LowerTokens([]) == Ok([]) && RenderableArgs([]) && ArgTexts([]) == [] && PrintTokens([]) == [];
      } else {
        ArgRoundTrip(args[0]);
        ArgumentsRead(args[1..]);
      }
    }
  }

  lemma {:induction false} ArgTokensLength(args: seq<Expr>)
    ensures |ArgTokens(args)| == |args|
  {
    if args != [] {
      ArgTokensLength(args[1..]);
    }
  }

  /** A well-formed command's text is read as its tokens, which lower to its arguments. */
  lemma CommandReads(s: Stmt)
    requires WellFormedCommand(s)
    ensures var text, ts := CmdText(s.program, s.args), CmdTokens(s.program, s.args);
      && ReadableLine(ts) && text == LineText(ts) && Tokenize(text) == Ok(ts)
      && LowerTokens(ArgTokens(s.args)) == Ok(s.args) && RenderableArgs(s.args)
      && Trimmed(text) && text[0] == s.program[0] != '#'
  {
    hide WellFormedToken, LowerTokens, TokenizeFrom, RenderableArgs, OpenBare, PrintTokens;
    var ts := CmdTokens(s.program, s.args);
    ArgumentsRead(s.args);
    CommandTexts(s.program, s.args);
    ProgramNonEmpty(s);
    LineReadBack(ts);
  }

  lemma CommandTexts(program: string, args: seq<Expr>)
    ensures var ts := CmdTokens(program, args);
      && |ts| == |args| + 1 && ts[1..] == ArgTokens(args)
      && PrintTokens(ts) == [program] + PrintTokens(ArgTokens(args))
      && |PrintTokens(ArgTokens(args))| == |args|
  {
    ArgTokensLength(args);
  }

  lemma ProgramNonEmpty(s: Stmt)
    requires WellFormedCommand(s)
    ensures s.program != ""
  {
  }

  /** A first word of plain characters is the program; an arithmetic expansion starts with a dollar sign. */
  lemma NotAmpersand(s: Stmt, rest: string)
    requires WellFormedCommand(s) && s.program != "&" && (rest == "" || rest[0] == ' ')
    ensures FirstWord(s.program + rest) != "&"
  {
    hide FirstWord, WellFormedArgList;
    var program := s.program;
    if PlainBare(program) {
      FirstWordOf("", program, rest);
      assert "" + program + rest == program + rest;
    } else {
      assert program[..3][0] == '$';
      FirstWordStarts(program + rest);
    }
  }

  lemma NotAssignment(program: string, rest: string)
    requires !IsAssignment(program) && (rest == "" || rest[0] == ' ')
    ensures !IsAssignment(program + rest)
  {
    var text := program + rest;
    var eq := IndexOf(text, '=');
    if eq.Some? && eq.value < |program| {
      var k := eq.value;
      assert text[..k] == program[..k];
      IndexOfFirst(program[..k], '=', program[k + 1..]);
      assert program == program[..k] + ['='] + program[k + 1..];
    } else if eq.Some? {
      assert text[..eq.value][|program|] == ' ';
    }
  }

  lemma CmdTextStart(program: string, args: seq<Expr>) returns (rest: string)
    ensures CmdText(program, args) == program + rest && (rest == "" || rest[0] == ' ')
  {
    rest := if args == [] then "" else " " + Join(" ", ArgTexts(args));
    assert program + "" == program;
  }

  lemma CommandLowers(s: Stmt)
    requires WellFormedCommand(s)
    ensures Command(CmdText(s.program, s.args)) == Ok(Some(s))
  {
    hide TokenizeFrom, LowerTokens, WellFormedCommand;
    CommandIsCmd(s);
    CommandReads(s);
    assert CmdTokens(s.program, s.args)[1..] == ArgTokens(s.args);
  }

  predicate OperatorFree(ts: seq<RawToken>) {
    forall t :: t in ts ==> !IsHereDocToken(t)
  }

  /** A command's line holds a here-document exactly when one of its tokens is the operator. */
  lemma CommandHereDoc(s: Stmt)
    requires WellFormedCommand(s)
    ensures HasHereDoc(CmdText(s.program, s.args)) <==> !OperatorFree(CmdTokens(s.program, s.args))
  {
    hide WellFormedCommand, TokenizeFrom, IsHereDocToken, ReadableLine;
    CommandIsCmd(s);
    CommandReads(s);
  }

  lemma CommandRoundTrip(s: Stmt)
    requires WellFormedCommand(s) && StartsCommand(s.program) && !HasLonePipe(StmtText(s)) && !HasHereDoc(StmtText(s))
    ensures FlatLine(StmtText(s)) == Ok(Some(s))
  {
    hide TokenizeFrom, LowerTokens, WellFormedCommand, Command, HasLonePipe, ControlFlowKeyword, IsAssignment,
         FirstWord, HasHereDoc, ArgTokens;
    CommandIsCmd(s);
    assert StmtText(s) == CmdText(s.program, s.args);
    CommandLowers(s);
    var rest := CmdTextStart(s.program, s.args);
    NotAmpersand(s, rest);
    NotAssignment(s.program, rest);
  }

  // ---- pipelines ----

  /** Splitting at `|` and trimming gives the stages back, whatever blank stands in front. */
  lemma {:induction false} StagesRoundTrip(pad: string, stages: seq<Stmt>)
    requires WellFormedStages(stages) && (pad == "" || pad == " ")
    ensures Stages(Split(pad + Join(" | ", StageTexts(stages)), PIPE)) == Ok(stages)
    decreases |stages|
  {
    hide Split, Stages, CmdText, Trim, Join, Command, StageTexts;
    var s := stages[0];
    assert WellFormedStage(s);
    var text := CmdText(s.program, s.args);
    StageFacts(s);
    if |stages| == 1 {
      LoneStageText(s);
      assert stages == [s];
      SplitUnbroken(pad + text, PIPE);
      TrimPadded(pad, text, "");
      assert pad + text + "" == pad + text;
      NoStages();
      FirstStage(pad + text, [], s, []);
      assert [pad + text] + [] == [pad + text] && [s] + [] == [s];
    } else {
      var rest := " " + Join(" | ", StageTexts(stages[1..]));
      StagesRoundTrip(" ", stages[1..]);
      JoinedFirst(stages);
      var first := pad + text + " ";
      assert pad + Join(" | ", StageTexts(stages)) == first + ['|'] + rest;
      SplitAtSeparator(first, '|', rest, PIPE);
      SplitUnbroken(first, PIPE);
      TrimPadded(pad, text, " ");
      FirstStage(first, Split(rest, PIPE), s, stages[1..]);
      assert [s] + stages[1..] == stages;
    }
  }

  lemma NoStages()
    ensures Stages([]) == Ok([])
  {
  }

  lemma LoneStageText(s: Stmt)
    requires s.Cmd?
    ensures Join(" | ", StageTexts([s])) == CmdText(s.program, s.args)
  {
  }

  lemma FirstStage(piece: string, pieces: seq<string>, s: Stmt, rest: seq<Stmt>)
    requires Trim(piece) != "" && Command(Trim(piece)) == Ok(Some(s)) && Stages(pieces) == Ok(rest)
    ensures Stages([piece] + pieces) == Ok([s] + rest)
  {
    hide Command, Trim;
    assert ([piece] + pieces)[1..] == pieces;
  }

  lemma StageFacts(s: Stmt)
    requires WellFormedStage(s)
    ensures Command(CmdText(s.program, s.args)) == Ok(Some(s))
    ensures Trimmed(CmdText(s.program, s.args)) && Without(CmdText(s.program, s.args), PIPE)
    ensures CmdText(s.program, s.args)[0] != '#'
  {
    hide Command, CmdText, WellFormedCommand;
    CommandLowers(s);
    CommandReads(s);
  }

  lemma PipelineHasLonePipe(stages: seq<Stmt>)
    requires WellFormedStages(stages) && |stages| >= 2
    ensures HasLonePipe(Join(" | ", StageTexts(stages)))
  {
    hide CmdText, Join;
    assert WellFormedStage(stages[0]);
    var text := CmdText(stages[0].program, stages[0].args);
    JoinedFirst(stages);
    var rest := Join(" | ", StageTexts(stages[1..]));
    var line := text + " | " + rest;
    assert line[|text|] == ' ' && line[|text| + 1] == '|' && line[|text| + 2] == ' ';
    assert IsLonePipe(line, |text| + 1);
  }

  lemma JoinedFirst(stages: seq<Stmt>)
    requires |stages| >= 2 && stages[0].Cmd?
    ensures Join(" | ", StageTexts(stages)) ==
            CmdText(stages[0].program, stages[0].args) + " | " + Join(" | ", StageTexts(stages[1..]))
  {
    hide CmdText;
    assert StageTexts(stages)[1..] == StageTexts(stages[1..]);
  }

  lemma PipelineRoundTrip(s: Stmt)
    requires s.Pipeline? && WellFormedFlat(s)
    ensures FlatLine(StmtText(s)) == Ok(Some(s))
    ensures Trimmed(StmtText(s)) && StmtText(s)[0] != '#'
    ensures Renderable(s)
  {
    hide TokenizeFrom, Command, HasLonePipe, ControlFlowKeyword, IsAssignment, FirstWord, HasHereDoc, Stages, Split,
         WellFormedCommand, Trimmed, CmdText, RenderableArgs;
    var text := StmtText(s);
    forall stage | stage in s.stages ensures RenderableStage(stage) {
      assert WellFormedStage(stage);
      StageRenders(stage);
    }
    PipelineTrimmed(s.stages);
    assert WellFormedStage(s.stages[0]);
    CommandIsCmd(s.stages[0]);
    PipelineStart(s.stages);
    StagesRoundTrip("", s.stages);
    assert "" + text == text;
    PipelineHasLonePipe(s.stages);
  }

  lemma StageRenders(s: Stmt)
    requires WellFormedCommand(s)
    ensures RenderableStage(s)
  {
    hide WellFormedCommand;
    CommandReads(s);
    assert s.Cmd? by { CommandIsCmd(s); }
  }

  lemma CommandIsCmd(s: Stmt)
    requires WellFormedCommand(s)
    ensures s.Cmd?
  {
  }

  lemma {:induction false} PipelineTrimmed(stages: seq<Stmt>)
    requires WellFormedStages(stages)
    ensures var text := Join(" | ", StageTexts(stages)); Trimmed(text) && text[0] != '#'
  {
    hide WellFormedCommand, CmdText, Join, StageTexts;
    assert WellFormedStage(stages[0]);
    CommandIsCmd(stages[0]);
    StageFacts(stages[0]);
    if |stages| == 1 {
      assert stages == [stages[0]];
      LoneStageText(stages[0]);
    } else {
      PipelineTrimmed(stages[1..]);
      JoinedFirst(stages);
    }
  }

  lemma PipelineShape(stages: seq<Stmt>) returns (rest: string)
    requires WellFormedStages(stages) && |stages| >= 2
    ensures Join(" | ", StageTexts(stages)) == stages[0].program + rest && rest != "" && rest[0] == ' '
  {
    hide CmdText, Join, StageTexts, WellFormedCommand;
    assert WellFormedStage(stages[0]);
    CommandIsCmd(stages[0]);
    JoinedFirst(stages);
    var first := CmdTextStart(stages[0].program, stages[0].args);
    rest := first + " | " + Join(" | ", StageTexts(stages[1..]));
  }

  lemma PipelineStart(stages: seq<Stmt>)
    requires WellFormedStages(stages) && |stages| >= 2 && stages[0].Cmd? && StartsCommand(stages[0].program)
    ensures var text := Join(" | ", StageTexts(stages)); FirstWord(text) != "&" && !IsAssignment(text)
  {
    hide IsAssignment, FirstWord, Join, StageTexts, CmdText, WellFormedCommand;
    var rest := PipelineShape(stages);
    assert WellFormedStage(stages[0]);
    NotAmpersand(stages[0], rest);
    NotAssignment(stages[0].program, rest);
  }

  // ---- assignments ----

  lemma {:induction false} AdjacentIsRefused(s: string, current: string, rest: string)
    requires PlainChars(s) && OpensDelimited(rest)
    requires s != "" ==> s[|s| - 1] != '$' && (current == "" ==> s[0] != '#')
    requires s != "" || current != ""
    ensures TokenizeFrom(s + rest, current).Err?
    decreases |s|
  {
    if s == "" {
      assert s + rest == rest;
    } else {
      var line := s + rest;
      assert line[1..] == s[1..] + rest;
      assert !OpensDelimited(line) by {
        assert |s| > 1 ==> line[1] == s[1];
      }
      PlainCharsTail(s);
      AdjacentIsRefused(s[1..], current + [s[0]], rest);
    }
  }

  lemma IdentifierIsPlain(target: string)
    requires IsPosixIdentifier(target)
    ensures PlainBare(target + "=") && Without(target, {'='}) && !HasDoubleLess(target + "=")
    ensures target != "" && target[0] != '$' && target[0] != '&'
  {
    var s := target + "=";
    forall i | 0 <= i < |s| ensures BareChar(s[i]) && s[i] != '$' && s[i] != '<' {
      if i < |target| {
        assert s[i] == target[i];
      }
    }
  }

  lemma PlainAppend(a: string, b: string)
    requires PlainBare(a) && PlainBare(b) && a[|a| - 1] != '$'
    ensures PlainBare(a + b)
  {
    var s := a + b;
    forall i | 0 <= i < |s| ensures BareChar(s[i]) && !(s[i] == '$' && i + 1 < |s| && s[i + 1] == '(') {
      if i < |a| {
        assert s[i] == a[i];
        assert i + 1 < |a| ==> s[i + 1] == a[i + 1];
      } else {
        assert s[i] == b[i - |a|];
        assert i + 1 < |s| ==> s[i + 1] == b[i - |a| + 1];
      }
    }
  }

  lemma NoDoubleLessAppend(a: string, b: string)
    requires !HasDoubleLess(a) && !HasDoubleLess(b) && a != "" && a[|a| - 1] != '<'
    ensures !HasDoubleLess(a + b)
  {
    var s := a + b;
    forall i | 0 <= i < |s| - 1 ensures !(s[i] == '<' && s[i + 1] == '<') {
      if i + 1 < |a| {
        assert s[i] == a[i] && s[i + 1] == a[i + 1];
      } else if i >= |a| {
        assert s[i] == b[i - |a|] && s[i + 1] == b[i - |a| + 1];
      }
    }
  }

  lemma SinglePlainToken(s: string)
    requires PlainBare(s)
    ensures Tokenize(s) == Ok([Bare(s)])
  {
    TokensReadBack([Bare(s)]);
    assert PrintTokens([Bare(s)]) == [s];
  }

  lemma PrintedOpens(t: RawToken)
    requires WellFormedToken(t) && !(t.Bare? && PlainBare(t.text))
    ensures OpensDelimited(PrintToken(t))
  {
    if t.Bare? {
      assert t.text[..3][0] == '$' && t.text[..3][1] == '(';
    }
  }

  lemma AssignmentRoundTrip(s: Stmt)
    requires s.ShellAssign? && WellFormedFlat(s)
    ensures FlatLine(StmtText(s)) == Ok(Some(s))
    ensures Trimmed(StmtText(s)) && StmtText(s)[0] != '#'
    ensures Renderable(s)
  {
    hide TokenizeFrom, Command, HasLonePipe, ControlFlowKeyword, IsPosixIdentifier, FirstWord, HasHereDoc, Stages,
         Split, LowerRawToken, WellFormedLast, RenderableArg, ArgText;
    ValueTokens(s.value);
    AssignmentShape(s.target, ArgText(s.value));
  }

  lemma AssignmentShape(target: string, value: string)
    requires IsPosixIdentifier(target) && (value == "" || Trimmed(value))
    ensures var text := target + "=" + value;
            && IndexOf(text, '=') == Some(|target|) && text[..|target|] == target && text[|target| + 1..] == value
            && Trimmed(text) && text[0] != '#' && FirstWord(text) != "&"
  {
    var text := target + "=" + value;
    IdentifierIsPlain(target);
    IndexOfFirst(target, '=', value);
    assert text == target + ['='] + value;
    FirstWordStarts(text);
  }

  lemma ValueTokens(value: Expr)
    requires WellFormedValue(value)
    ensures ArgText(value) == "" || Trimmed(ArgText(value))
    ensures RenderableArg(value)
    ensures value == LitStr("") ==> Tokenize(ArgText(value)) == Ok([])
    ensures value != LitStr("") ==>
              Tokenize(ArgText(value)) == Ok([ArgToken(value)]) && LowerRawToken(ArgToken(value)) == Ok(value)
  {
    hide WellFormedLast, LastToken;
    if value != LitStr("") {
      LastArgument(value);
      LastReadBack(ArgToken(value));
    }
  }

  // ---- every flat statement ----

  /** Every well-formed flat statement is lowered back from its own line. */
  lemma FlatRoundTrips(s: Stmt)
    requires WellFormedFlat(s)
    ensures FlatLine(StmtText(s)) == Ok(Some(s))
    ensures Renderable(s)
    ensures Trimmed(StmtText(s)) && StmtText(s)[0] != '#' && FirstKeyword(StmtText(s)) == NoKeyword
  {
    hide FlatLine, FirstKeyword, ControlFlowKeyword, Continues, HasLonePipe, HasHereDoc, WellFormedCommand;
    FlatHasNoFirstKeyword(StmtText(s));
    match s {
      case Cmd(program, args) =>
        CommandRoundTrip(s);
        CommandReads(s);
      case Pipeline(_) => PipelineRoundTrip(s);
      case ShellAssign(_, _) => AssignmentRoundTrip(s);
      case _ =>
    }
  }
}
