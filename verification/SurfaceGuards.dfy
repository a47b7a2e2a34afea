/** Inputs on which the keyword and here-document refusals see nothing: substitutions, conditions and comments. */
module SurfaceGuards {
  import opened Outcomes
  import opened Text
  import opened ShellAst
  import opened Tokenizer
  import opened TokenText
  import opened FlatLines
  import opened Grammar
  import opened Printer
  import opened FlatRoundTrip
  import opened Faults
  import opened Posix
  import opened LostText

  // ---- inside a substitution nothing is refused ----

  /** A command that can stand inside `$(…)` and leaves the line around it one command. */
  ghost predicate Nestable(inner: Stmt) {
    && inner.Cmd? && WellFormedArg(CommandSubstitution(inner))
    && Without(CmdText(inner.program, inner.args), {'\n', ';', '&', '|'})
  }

  function Echo(inner: Stmt): Stmt {
    Cmd("echo", [CommandSubstitution(inner)])
  }

  lemma EchoText(inner: Stmt)
    requires inner.Cmd?
    ensures StmtText(Echo(inner)) == "echo $(" + CmdText(inner.program, inner.args) + ")"
  {
    hide CmdText;
    var e := CommandSubstitution(inner);
    assert [e][1..] == [];
    assert ArgTexts([e]) == [ArgText(e)];
    EchoArgs(e);
  }

  lemma EchoArgs(e: Expr)
    ensures CmdText("echo", [e]) == "echo " + ArgText(e)
  {
    assert [e][1..] == [];
    assert ArgTexts([e]) == [ArgText(e)];
  }

  lemma EchoGuards(inner: Stmt)
    requires Nestable(inner)
    ensures SafeLine(StmtText(Echo(inner))) && !HasLonePipe(StmtText(Echo(inner)))
  {
    hide CmdText, FirstWord, KeywordOf, WellFormedArg, HasHereDoc;
    EchoHereDoc(inner);
    EchoText(inner);
    var text := CmdText(inner.program, inner.args);
    var line := "echo $(" + text + ")";
    assert line[|line| - 1] == ')' && '\n' !in line && '|' !in line;
    SplitUnbroken(line, COMMAND_SEPARATORS);
    assert line == "" + "echo" + (" $(" + text + ")");
    FirstWordOf("", "echo", " $(" + text + ")");
    NoKeywordAmong([line]);
    EchoIsNoKeyword();
  }

  lemma EchoCommand(inner: Stmt)
    requires Nestable(inner)
    ensures WellFormedCommand(Echo(inner))
    ensures CmdTokens("echo", [CommandSubstitution(inner)]) == [Bare("echo"), ArgToken(CommandSubstitution(inner))]
  {
    hide CmdText, WellFormedArg;
    var e := CommandSubstitution(inner);
    assert [e][1..] == [] && ArgTokens([]) == [];
    EchoIsPlain();
    assert WellFormedArgList([e]);
    assert ArgTokens([e]) == [ArgToken(e)];
  }

  lemma EchoHereDoc(inner: Stmt)
    requires Nestable(inner)
    ensures !HasHereDoc(StmtText(Echo(inner)))
  {
    hide CmdText, WellFormedArg, WellFormedCommand, HasHereDoc, CmdTokens;
    EchoCommand(inner);
    EchoIsPlain();
    CommandHereDoc(Echo(inner));
    assert ArgToken(CommandSubstitution(inner)).CommandSubst?;
  }

  lemma EchoIsNoKeyword()
    ensures KeywordOf("echo") == NoKeyword
  {
    assert "echo"[1] != "else"[1] && "echo"[1] != "elif"[1] && "echo"[1] != "esac"[1];
    assert "echo"[0] != "case"[0] && "echo"[0] != "then"[0] && "echo"[0] != "done"[0];
  }

  /** Whatever command stands inside the substitution, the line is accepted with it. */
  lemma SubstitutionUnguarded(inner: Stmt)
    requires Nestable(inner)
    ensures FlatLine("echo $(" + CmdText(inner.program, inner.args) + ")") == Ok(Some(Echo(inner)))
  {
    hide CmdText, FlatLine, SafeLine, HasLonePipe, WellFormedToken, LowerToken, WellFormedArg, StmtText;
    EchoText(inner);
    EchoGuards(inner);
    EchoWellFormed(inner);
    FlatRoundTrips(Echo(inner));
  }

  lemma EchoWellFormed(inner: Stmt)
    requires Nestable(inner) && SafeLine(StmtText(Echo(inner))) && !HasLonePipe(StmtText(Echo(inner)))
    ensures WellFormedFlat(Echo(inner))
  {
    hide CmdText, SafeLine, HasLonePipe, WellFormedArg, StmtText, WellFormedCommand;
    EchoCommand(inner);
    EchoIsPlain();
  }

  lemma EchoIsPlain()
    ensures WellFormedToken(Bare("echo")) && !IsHereDocToken(Bare("echo")) && StartsCommand("echo")
  {
    assert PlainBare("echo");
    assert '=' !in "echo";
  }

  /** Every reserved word is accepted as the program of a substitution. */
  lemma KeywordSubstituted(k: Keyword)
    requires k != NoKeyword
    ensures var s := Echo(Cmd(Spelling(k), []));
            FlatLine("echo $(" + Spelling(k) + ")") == Ok(Some(s)) && !SoundStmt(ShreddedKeyword, s)
  {
    hide FlatLine, SoundStmt, Spelling;
    var inner := Cmd(Spelling(k), []);
    KeywordNestable(k);
    SubstitutionUnguarded(inner);
    SpellingRoundTrip(k);
    ShreddedInside(Spelling(k));
  }

  lemma ShreddedInside(program: string)
    requires KeywordOf(program) != NoKeyword
    ensures !SoundStmt(ShreddedKeyword, Echo(Cmd(program, [])))
  {
    hide KeywordOf;
    SubstitutedSound(ShreddedKeyword, program, []);
    SubstitutedSound(ShreddedKeyword, "echo", [CommandSubstitution(Cmd(program, []))]);
    assert CommandSubstitution(Cmd(program, [])) in [CommandSubstitution(Cmd(program, []))];
  }

  lemma KeywordNestable(k: Keyword)
    requires k != NoKeyword
    ensures Nestable(Cmd(Spelling(k), []))
  {
    hide Spelling;
    SpellingLetters(k);
    assert PlainBare(Spelling(k)) && '(' !in Spelling(k) && ')' !in Spelling(k);
    assert WellFormedArgs([]);
  }

  lemma SpellingLetters(k: Keyword)
    requires k != NoKeyword
    ensures Spelling(k) != "" && forall i :: 0 <= i < |Spelling(k)| ==> 'a' <= Spelling(k)[i] <= 'z'
  {
  }

  lemma IfSubstituted()
    ensures FlatLine("echo $(if)") == Ok(Some(Cmd("echo", [CommandSubstitution(Cmd("if", []))])))
  {
    hide FlatLine;
    assert "echo $(" + "if" + ")" == "echo $(if)";
    KeywordSubstituted(KIf);
  }

  // ---- here-documents that are not seen ----

  const READER: Stmt := Cmd("cat", [LitStr("<<EOF")])

  lemma OperatorPlain()
    ensures PlainBare("<<EOF") && LowerToken("<<EOF") == LitStr("<<EOF") && IsHereDocToken(Bare("<<EOF"))
    ensures PlainBare("cat") && !IsHereDocToken(Bare("cat"))
  {
    assert "<<EOF"[0] == '<' && "<<EOF"[1] == '<';
  }

  lemma ReaderText()
    ensures CmdText("cat", [LitStr("<<EOF")]) == "cat <<EOF"
  {
    var e := LitStr("<<EOF");
    assert [e][1..] == [];
    assert ArgTexts([e]) == ["<<EOF"];
    assert "cat" + " " + "<<EOF" == "cat <<EOF";
  }

  lemma ReaderNestable()
    ensures Nestable(READER)
  {
    hide LowerToken, ArithmeticBare;
    var e := LitStr("<<EOF");
    OperatorPlain();
    ReaderText();
    OneArgument(e);
    assert Without("cat <<EOF", {'\n', ';', '&', '|', '(', ')'});
  }

  lemma OneArgument(e: Expr)
    requires WellFormedArg(e)
    ensures WellFormedArgs([e])
  {
    hide WellFormedArg;
    assert [e][1..] == [] && WellFormedArgs([]);
  }

  lemma ReaderFaulty()
    ensures !SoundStmt(HereDocumentText, READER)
  {
    OperatorPlain();
    assert LitStr("<<EOF") in READER.args;
  }

  /** Inside a substitution, as an argument. */
  lemma HereDocumentSubstituted()
    ensures FlatLine("echo $(cat <<EOF)") == Ok(Some(Echo(READER))) && !SoundStmt(HereDocumentText, Echo(READER))
  {
    hide FlatLine, SoundStmt, Nestable;
    ReaderText();
    ReaderNestable();
    ReaderFaulty();
    SubstitutionUnguarded(READER);
    assert "echo $(" + "cat <<EOF" + ")" == "echo $(cat <<EOF)";
    var e := CommandSubstitution(READER);
    SubstitutedSound(HereDocumentText, "cat", [LitStr("<<EOF")]);
    SubstitutedSound(HereDocumentText, "echo", [e]);
    assert e in [e];
  }

  lemma ReaderTokens()
    ensures Tokenize("cat <<EOF") == Ok([Bare("cat"), Bare("<<EOF")])
  {
    hide TokenizeFrom;
    OperatorPlain();
    var ts := [Bare("cat"), Bare("<<EOF")];
    assert ts[1..] == [Bare("<<EOF")] && ts[1..][1..] == [];
    assert PrintTokens(ts[1..]) == ["<<EOF"];
    assert PrintTokens(ts) == ["cat", "<<EOF"];
    assert LineText(ts) == "cat <<EOF";
    TokensReadBack(ts);
  }

  /** In a condition. */
  lemma HereDocumentInCondition()
    ensures var s := ShellIf(LitStr("cat <<EOF"), [], []);
            BlockOf(["if cat <<EOF", "then", "fi"]) == Ok((s, 3)) && !SoundStmt(HereDocumentText, s)
  {
    hide BlockOf, HasHereDoc, Tidy;
    EmptyChoice("cat <<EOF");
    assert "if " + "cat <<EOF" == "if cat <<EOF";
    ReaderIsHereDoc();
  }

  lemma ReaderIsHereDoc()
    ensures HasHereDoc("cat <<EOF")
  {
    hide TokenizeFrom, IsHereDocToken;
    ReaderTokens();
    OperatorPlain();
    assert Bare("<<EOF") in [Bare("cat"), Bare("<<EOF")];
  }

  /** Behind a comment sign, where the line is cut at its pipes all the same. */
  lemma HereDocumentBehindComment()
    ensures var s := Pipeline([Cmd("echo", []), READER]);
            FlatLine("echo # | cat <<EOF") == Ok(Some(s)) && !SoundStmt(HereDocumentText, s)
  {
    hide TokenizeFrom, Split, Trim, FirstWord, SoundStmt, IsLonePipe, Command;
    CommentedPipe();
    CommentedStages();
    ReaderFaulty();
    OneSound(HereDocumentText, Pipeline([Cmd("echo", []), READER]));
    assert READER in [Cmd("echo", []), READER];
  }

  lemma CommentCutsTokens(rest: string)
    ensures Tokenize("echo #" + rest) == Ok([Bare("echo")])
  {
    hide TokenizeFrom;
    EchoIsPlain();
    TokenReadBack(Bare("echo"), " #" + rest);
    assert "echo" + (" #" + rest) == "echo #" + rest;
    assert TokenizeFrom(" #" + rest, "") == Ok([]) by { CommentIsNothing(rest); }
    assert [Bare("echo")] + [] == [Bare("echo")];
  }

  lemma CommentIsNothing(rest: string)
    ensures TokenizeFrom(" #" + rest, "") == Ok([])
  {
    assert (" #" + rest)[1..] == "#" + rest;
    assert TokenizeFrom("#" + rest, "") == Ok([]);
    AfterNothing(TokenizeFrom("#" + rest, ""));
  }

  lemma CommentedPipe()
    ensures var line := "echo # | cat <<EOF";
            !HasHereDoc(line) && FirstWord(line) != "&" && !IsAssignment(line) && HasLonePipe(line)
  {
    hide HasHereDoc, FirstWord, IsAssignment, HasLonePipe;
    var line := "echo # | cat <<EOF";
    CommentHidesOperator();
    FirstWordOf("", "echo", " # | cat <<EOF");
    assert "" + "echo" + " # | cat <<EOF" == line;
    NoSign(line) by { assert '=' !in line; }
    SinglePipe(line, 7) by { assert line[7] == '|' && line[6] == ' ' && line[8] == ' '; }
  }

  lemma CommentHidesOperator()
    ensures !HasHereDoc("echo # | cat <<EOF")
  {
    hide TokenizeFrom, IsHereDocToken;
    assert "echo # | cat <<EOF" == "echo #" + " | cat <<EOF";
    CommentCutsTokens(" | cat <<EOF");
    EchoIsPlain();
  }

  lemma NoSign(line: string)
    requires '=' !in line
    ensures !IsAssignment(line)
  {
    hide IndexOf, IsPosixIdentifier;
  }

  lemma SinglePipe(line: string, i: nat)
    requires 0 < i < |line| - 1 && line[i] == '|' && line[i - 1] == line[i + 1] == ' '
    ensures HasLonePipe(line)
  {
    assert IsLonePipe(line, i);
  }

  lemma CommentedStages()
    ensures Stages(Split("echo # | cat <<EOF", PIPE)) == Ok([Cmd("echo", []), READER])
  {
    hide TokenizeFrom, Split, Trim, Command, Stages;
    var line := "echo # | cat <<EOF";
    assert line == "echo # " + ['|'] + " cat <<EOF";
    SplitAtSeparator("echo # ", '|', " cat <<EOF", PIPE);
    SplitUnbroken("echo # ", PIPE);
    SplitUnbroken(" cat <<EOF", PIPE);
    assert "" + "echo #" + " " == "echo # " && " " + "cat <<EOF" + "" == " cat <<EOF";
    TrimPadded("", "echo #", " ");
    TrimPadded(" ", "cat <<EOF", "");
    CommentedEcho();
    ReaderLowered();
    NoStages();
    StagesStep(" cat <<EOF", [], READER, []);
    assert Stages([" cat <<EOF"]) == Ok([READER]) by {
      assert [" cat <<EOF"] + [] == [" cat <<EOF"] && [READER] + [] == [READER];
    }
    StagesStep("echo # ", [" cat <<EOF"], Cmd("echo", []), [READER]);
    assert Split(line, PIPE) == ["echo # "] + [" cat <<EOF"];
    assert [Cmd("echo", [])] + [READER] == [Cmd("echo", []), READER];
  }

  lemma StagesStep(piece: string, pieces: seq<string>, stage: Stmt, stages: seq<Stmt>)
    requires Trim(piece) != "" && Command(Trim(piece)) == Ok(Some(stage)) && Stages(pieces) == Ok(stages)
    ensures Stages([piece] + pieces) == Ok([stage] + stages)
  {
    hide Trim, Command;
    assert ([piece] + pieces)[1..] == pieces;
  }

  lemma CommentedEcho()
    ensures Command("echo #") == Ok(Some(Cmd("echo", [])))
  {
    hide TokenizeFrom;
    CommentCutsTokens("");
    assert "echo #" + "" == "echo #";
    assert [Bare("echo")][1..] == [];
  }

  lemma ReaderLowered()
    ensures Command("cat <<EOF") == Ok(Some(READER))
  {
    hide TokenizeFrom, LowerToken;
    ReaderTokens();
    OperatorPlain();
    var ts := [Bare("cat"), Bare("<<EOF")];
    assert ts[1..] == [Bare("<<EOF")];
    OneLowered(Bare("<<EOF"), LitStr("<<EOF"));
  }

  lemma OneLowered(t: RawToken, e: Expr)
    requires LowerRawToken(t) == Ok(e)
    ensures LowerTokens([t]) == Ok([e])
  {
    hide LowerRawToken;
    assert [t][1..] == [];
    assert LowerTokens([]) == Ok([]);
    assert [e] + [] == [e];
  }
}
