/** Accepted lines whose printed text is refused, and an accepted script whose emitted file is another script. */
module LostLines {
  import opened Outcomes
  import opened Text
  import opened ShellAst
  import opened Splicer
  import opened Tokenizer
  import opened TokenText
  import opened FlatLines
  import opened Blocks
  import opened Scripts
  import opened Printer
  import opened FlatRoundTrip
  import opened Lowerings
  import opened Misreadings
  import opened FlatReturns
  import opened SurfaceGuards
  import opened Truncations

  /** Letters, digits and underscores. */
  ghost predicate Word(w: string) {
    w != "" && forall i :: 0 <= i < |w| ==> IsAlpha(w[i]) || IsDigit(w[i])
  }

  /** A word, and perhaps a backslash behind it. */
  ghost predicate Argument(a: string) {
    Word(a) || (a != "" && a[|a| - 1] == '\\' && Word(a[..|a| - 1]))
  }

  function EchoAll(arguments: seq<string>): Stmt {
    Cmd("echo", seq(|arguments|, i requires 0 <= i < |arguments| => LitStr(arguments[i])))
  }

  // ---- one line ----

  lemma ArgumentChars(a: string)
    requires Argument(a)
    ensures forall i :: 0 <= i < |a| ==> IsAlpha(a[i]) || IsDigit(a[i]) || a[i] == '\\'
  {
  }

  lemma ArgumentWellFormed(a: string)
    requires Argument(a)
    ensures WellFormedArg(LitStr(a)) && !IsHereDocToken(Bare(a)) && WellFormedToken(Bare(a))
  {
    hide IsAlpha, IsDigit;
    ArgumentChars(a);
    PlainLetters(a);
  }

  lemma PlainLetters(a: string)
    requires a != "" && forall i :: 0 <= i < |a| ==> IsAlpha(a[i]) || IsDigit(a[i]) || a[i] == '\\'
    ensures PlainBare(a) && a[0] != '$' && '<' !in a
    ensures forall c :: c in a ==> c !in {'\n', ' ', ';', '&', '|', '='}
  {
  }

  lemma OneText(a: string)
    ensures StmtText(EchoAll([a])) == "echo " + a && EchoAll([a]).args == [LitStr(a)]
  {
    assert EchoAll([a]).args == [LitStr(a)];
    EchoArgs(LitStr(a));
  }

  lemma TwoText(a: string, b: string)
    ensures StmtText(EchoAll([a, b])) == "echo " + a + " " + b && EchoAll([a, b]).args == [LitStr(a), LitStr(b)]
  {
    var args := [LitStr(a), LitStr(b)];
    assert EchoAll([a, b]).args == args;
    assert args[1..] == [LitStr(b)] && args[1..][1..] == [];
    assert ArgTexts([LitStr(b)]) == [b];
    assert ArgTexts(args) == [a, b];
    assert Join(" ", [a, b]) == a + " " + b by { assert [a, b][1..] == [b]; }
  }

  lemma LineAccepted(s: Stmt)
    requires s.Cmd? && s.program == "echo" && WellFormedCommand(s) && OperatorFree(CmdTokens(s.program, s.args))
    requires forall c :: c in StmtText(s) ==> c !in {';', '&', '|'}
    requires exists rest :: StmtText(s) == "echo" + rest && rest != "" && rest[0] == ' '
    ensures FlatLine(StmtText(s)) == Ok(Some(s)) && FirstKeyword(StmtText(s)) == NoKeyword
    ensures ControlFlowKeyword(StmtText(s)) == NoKeyword
  {
    hide FlatLine, WellFormedCommand, StmtText, FirstWord, KeywordOf, CmdTokens, HasHereDoc, CmdText;
    CommandHereDoc(s);
    PrintOfCommand(s);
    var text := StmtText(s);
    EchoIsPlain();
    forall i | 0 <= i < |text| ensures text[i] !in COMMAND_SEPARATORS {
      assert text[i] in text;
    }
    assert s.program == "echo";
    CommandRoundTrip(s);
    var rest :| text == "echo" + rest && rest != "" && rest[0] == ' ';
    FirstWordOf("", "echo", rest);
    assert "" + "echo" + rest == text;
    EchoIsNoKeyword();
    SplitUnbroken(text, COMMAND_SEPARATORS);
    NoKeywordAmong([text]);
  }

  lemma OneWellFormed(a: string)
    requires Argument(a)
    ensures WellFormedCommand(EchoAll([a])) && OperatorFree(CmdTokens("echo", EchoAll([a]).args))
  {
    hide WellFormedArg, IsHereDocToken, WellFormedToken, StmtText;
    OneText(a);
    ArgumentWellFormed(a);
    EchoIsPlain();
    assert [LitStr(a)][1..] == [] && WellFormedArgs([]);
    assert WellFormedArgList([LitStr(a)]);
    assert ArgTokens([LitStr(a)]) == [Bare(a)];
    assert CmdTokens("echo", [LitStr(a)]) == [Bare("echo"), Bare(a)];
  }

  lemma TwoWellFormed(a: string, b: string)
    requires Argument(a) && Argument(b)
    ensures WellFormedCommand(EchoAll([a, b])) && OperatorFree(CmdTokens("echo", EchoAll([a, b]).args))
  {
    hide WellFormedArg, IsHereDocToken, WellFormedToken, StmtText;
    TwoText(a, b);
    ArgumentWellFormed(a);
    ArgumentWellFormed(b);
    EchoIsPlain();
    var args := [LitStr(a), LitStr(b)];
    assert args[1..] == [LitStr(b)] && args[1..][1..] == [] && WellFormedArgs([]);
    assert WellFormedArgList([LitStr(b)]) && WellFormedArgList(args);
    assert ArgTokens([LitStr(b)]) == [Bare(b)];
    assert ArgTokens(args) == [Bare(a), Bare(b)];
    assert CmdTokens("echo", args) == [Bare("echo"), Bare(a), Bare(b)];
  }

  lemma OneAccepted(a: string)
    requires Argument(a)
    ensures var line := "echo " + a;
      FlatLine(line) == Ok(Some(EchoAll([a]))) && FirstKeyword(line) == NoKeyword
      && ControlFlowKeyword(line) == NoKeyword && Trimmed(line) && line[0] != '#' && '\n' !in line
  {
    hide FlatLine, WellFormedCommand, StmtText, FirstKeyword, ControlFlowKeyword, IsAlpha, IsDigit, PlainBare;
    OneText(a);
    OneWellFormed(a);
    ArgumentChars(a);
    PlainLetters(a);
    assert "echo " + a == "echo" + (" " + a);
    LineAccepted(EchoAll([a]));
    EndsVisible(a);
  }

  lemma EndsVisible(a: string)
    requires Argument(a)
    ensures Trimmed(a)
  {
    ArgumentChars(a);
  }

  lemma TwoAccepted(a: string, b: string)
    requires Argument(a) && Argument(b)
    ensures var line := "echo " + a + " " + b;
      FlatLine(line) == Ok(Some(EchoAll([a, b]))) && FirstKeyword(line) == NoKeyword
      && ControlFlowKeyword(line) == NoKeyword && Trimmed(line) && line[0] != '#' && '\n' !in line
  {
    hide FlatLine, WellFormedCommand, StmtText, FirstKeyword, ControlFlowKeyword, IsAlpha, IsDigit, PlainBare;
    TwoText(a, b);
    TwoWellFormed(a, b);
    ArgumentChars(a);
    PlainLetters(a);
    ArgumentChars(b);
    PlainLetters(b);
    assert "echo " + a + " " + b == "echo" + (" " + a + " " + b);
    LineAccepted(EchoAll([a, b]));
    EndsVisible(b);
  }

  // ---- two lines become one ----

  lemma TwoLines(first: string, second: string)
    requires PlainStart(first) && PlainStart(second)
    requires FlatLine(first).Ok? && FlatLine(second).Ok?
    ensures Walk([first, second], 0) == Ok(AsList(FlatLine(first).value) + AsList(FlatLine(second).value))
  {
    hide FirstKeyword, ControlFlowKeyword, FlatLine;
    OneLine([first, second], 1);
    assert Walk([first, second], 1) == Ok(AsList(FlatLine(second).value));
  }

  ghost predicate PlainStart(line: string) {
    line != "" && line[0] != '#' && FirstKeyword(line) == NoKeyword == ControlFlowKeyword(line)
  }

  lemma OneLine(lines: seq<string>, i: nat)
    requires i + 1 == |lines| && PlainStart(lines[i]) && FlatLine(lines[i]).Ok?
    ensures Walk(lines, i) == Ok(AsList(FlatLine(lines[i]).value))
  {
    hide FirstKeyword, ControlFlowKeyword, FlatLine;
    assert Walk(lines, i + 1) == Ok([]);
    var found := AsList(FlatLine(lines[i]).value);
    assert found + [] == found;
  }

  /** The source: a backslash, a blank, and only then the end of the line. */
  function Source(b: string, c: string): string {
    "echo " + b + "\\ " + "\n" + "echo " + c
  }

  lemma SourceLines(b: string, c: string)
    requires Word(b) && Word(c)
    ensures TrimAll(Lines(Splice(Source(b, c)))) == ["echo " + b + "\\", "echo " + c]
  {
    hide Splice, Split, Trim, Continues, FlatLine, FirstKeyword, ControlFlowKeyword;
    var first, second := "echo " + b + "\\", "echo " + c;
    assert first == "echo " + (b + "\\") && (b + "\\")[..|b|] == b;
    OneAccepted(b + "\\");
    OneAccepted(c);
    var line := first + " ";
    assert Source(b, c) == line + "\n" + second;
    BlankEndsIt(first);
    SpliceLine(line, second);
    SpliceLastLine(second);
    SplitAtSeparator(line, '\n', second, NEWLINE);
    SplitUnbroken(line, NEWLINE);
    SplitUnbroken(second, NEWLINE);
    assert line + "\n" + second == line + ['\n'] + second;
    TwoPieces(line, second);
    TrimPadded("", first, " ");
    assert "" + first + " " == line;
    TrimOfTrimmed(second);
  }

  lemma BlankEndsIt(line: string)
    ensures !Continues(line + " ")
  {
  }

  /** Two lines that end visibly or in a blank are the lines of their text. */
  lemma TwoPieces(first: string, second: string)
    requires Split(first + "\n" + second, NEWLINE) == [first, second]
    requires second != "" && first != "" && first[|first| - 1] == ' ' && !IsWhitespace(second[|second| - 1])
    ensures Lines(first + "\n" + second) == [first, second]
  {
    hide Split;
  }

  /** The source is accepted as two commands, the first with an argument that ends in a backslash. */
  lemma SourceAccepted(b: string, c: string)
    requires Word(b) && Word(c)
    ensures ScriptOf(Source(b, c)) == Ok([EchoAll([b + "\\"]), EchoAll([c])])
  {
    hide Splice, Lines, FlatLine, FirstKeyword, ControlFlowKeyword, Walk, Source;
    var first, second := "echo " + b + "\\", "echo " + c;
    SourceLines(b, c);
    assert first == "echo " + (b + "\\") && (b + "\\")[..|b|] == b;
    OneAccepted(b + "\\");
    OneAccepted(c);
    TwoLines(first, second);
    assert [EchoAll([b + "\\"])] + [EchoAll([c])] == [EchoAll([b + "\\"]), EchoAll([c])];
  }

  /** Printed, the backslash ends its line and takes the newline with it. */
  lemma EmittedLine(b: string, c: string)
    requires Word(b) && Word(c)
    ensures var text := ScriptText([], [EchoAll([b + "\\"]), EchoAll([c])]);
      TrimAll(Lines(Splice(text))) == ["echo " + (b + "echo") + " " + c]
  {
    hide Splice, Split, Trim, FlatLine, PlainStart, EchoAll, ScriptText, Word;
    EmittedText(b, c);
    JoinedAccepted(b, c);
    JoinedText(b, c);
    OnlyLine("echo " + (b + "echo") + " " + c);
  }

  lemma JoinedText(b: string, c: string)
    requires Word(b) && Word(c)
    ensures Splice("echo " + b + "\\" + "\n" + ("echo " + c + "\n")) == "echo " + (b + "echo") + " " + c + "\n"
  {
    hide Splice, Continues, Word;
    var first, second := "echo " + b + "\\", "echo " + c;
    WordsStayOnLine(b, c);
    SpliceLine(first, second + "\n");
    SpliceLine(second, "");
    SpliceLastLine("");
    assert second + "\n" + "" == second + "\n";
    assert first[..|first| - 1] == "echo " + b;
    assert "echo " + b + (second + "\n") == "echo " + (b + "echo") + " " + c + "\n";
  }

  lemma WordsStayOnLine(b: string, c: string)
    requires Word(b) && Word(c)
    ensures var first, second := "echo " + b + "\\", "echo " + c;
      Without(first, NEWLINE) && Without(second, NEWLINE) && Continues(first) && !Continues(second)
  {
    hide Continues, FlatLine, FirstKeyword, ControlFlowKeyword, EchoAll;
    var first, second := "echo " + b + "\\", "echo " + c;
    assert first == "echo " + (b + "\\") && (b + "\\")[..|b|] == b;
    OneAccepted(c);
    OneAccepted(b + "\\");
    assert b[|b| - 1] != '\\' && c[|c| - 1] != '\\';
    BackslashContinues("echo " + b);
    VisibleEnd(second);
  }

  lemma VisibleEnd(line: string)
    requires line != "" && line[|line| - 1] != '\\'
    ensures !Continues(line)
  {
  }

  lemma BackslashContinues(line: string)
    requires line != "" && line[|line| - 1] != '\\'
    ensures Continues(line + "\\")
  {
    assert (line + "\\")[..|line|] == line;
  }

  lemma OnlyLine(line: string)
    requires Trimmed(line) && '\n' !in line
    ensures TrimAll(Lines(line + "\n")) == [line]
  {
    hide Split, Trim;
    SplitAtSeparator(line, '\n', "", NEWLINE);
    assert line + ['\n'] + "" == line + "\n";
    SplitUnbroken(line, NEWLINE);
    SplitUnbroken("", NEWLINE);
    TrimOfTrimmed(line);
  }

  lemma EmittedText(b: string, c: string)
    ensures ScriptText([], [EchoAll([b + "\\"]), EchoAll([c])]) == "echo " + b + "\\" + "\n" + ("echo " + c + "\n")
  {
    hide StmtText, EchoAll;
    OneText(b + "\\");
    OneText(c);
    var stmts := [EchoAll([b + "\\"]), EchoAll([c])];
    var texts := StmtTexts(stmts);
    assert texts == ["echo " + (b + "\\"), "echo " + c];
    assert texts[1..] == ["echo " + c] && texts[1..][1..] == [];
    assert Written([]) == "";
    assert Written(texts[1..]) == "echo " + c + "\n" + "";
  }

  lemma JoinedAccepted(b: string, c: string)
    requires Word(b) && Word(c)
    ensures var line := "echo " + (b + "echo") + " " + c;
      FlatLine(line) == Ok(Some(EchoAll([b + "echo", c]))) && PlainStart(line) && Trimmed(line) && '\n' !in line
  {
    hide FlatLine, FirstKeyword, ControlFlowKeyword;
    assert Word(b + "echo") by {
      assert IsAlpha('e') && IsAlpha('c') && IsAlpha('h') && IsAlpha('o');
    }
    TwoAccepted(b + "echo", c);
  }

  /** For any two words: the emitted file of an accepted source is accepted as one command instead of two. */
  lemma EmittedScriptDiffers(b: string, c: string)
    requires Word(b) && Word(c)
    ensures var script := ScriptOf(Source(b, c));
      script.Ok? && |script.value| == 2
      && ScriptOf(ScriptText([], script.value)) == Ok([EchoAll([b + "echo", c])])
  {
    hide Splice, Lines, FlatLine, FirstKeyword, ControlFlowKeyword, Walk, Source, ScriptText, EchoAll;
    SourceAccepted(b, c);
    EmittedLine(b, c);
    JoinedAccepted(b, c);
    OneLine(["echo " + (b + "echo") + " " + c], 0);
  }

  // ---- printed lines that are refused ----

  const COMMENTED: Stmt := Pipeline([Cmd("echo", []), READER])

  /** The comment is gone from the print, and the here-document behind it comes to light. */
  lemma CommentUncovers()
    ensures FlatLine("echo # | cat <<EOF") == Ok(Some(COMMENTED))
    ensures StmtText(COMMENTED) == "echo | cat <<EOF" && FlatLine("echo | cat <<EOF") == Err(HereDocument)
  {
    hide FlatLine, StmtText, HasHereDoc;
    HereDocumentBehindComment();
    CommentedText();
    UncoveredIsHereDoc();
    HereDocRefused("echo | cat <<EOF");
  }

  lemma HereDocRefused(line: string)
    requires HasHereDoc(line)
    ensures FlatLine(line) == Err(HereDocument)
  {
  }

  lemma CommentedText()
    ensures StmtText(COMMENTED) == "echo | cat <<EOF"
  {
    hide CmdText, Join;
    ReaderText();
    EchoAlone();
    var stages := [Cmd("echo", []), READER];
    assert stages[1..] == [READER] && stages[1..][1..] == [];
    assert StageTexts([READER]) == ["cat <<EOF"] + StageTexts([]);
    assert StageTexts(stages) == ["echo", "cat <<EOF"];
    JoinedFirst(stages);
    LoneStageText(READER);
    assert "echo" + " | " + "cat <<EOF" == "echo | cat <<EOF";
  }

  lemma EchoAlone()
    ensures CmdText("echo", []) == "echo"
  {
  }

  lemma UncoveredIsHereDoc()
    ensures HasHereDoc("echo | cat <<EOF")
  {
    hide TokenizeFrom, IsHereDocToken, PlainBare;
    OperatorPlain();
    EchoIsPlain();
    var good := [Bare("echo"), Bare("|")];
    assert PlainBare("|") by { PipeIsPlain(); }
    assert good[1..] == [Bare("|")] && good[1..][1..] == [];
    assert PrintTokens([Bare("|")]) == ["|"] && PrintTokens(good) == ["echo", "|"];
    assert LineText(good) == "echo |" by { assert ["echo", "|"][1..] == ["|"]; }
    PrefixRead(good, "cat <<EOF");
    ReaderTokens();
    assert "echo |" + " " + "cat <<EOF" == "echo | cat <<EOF";
    var all := good + [Bare("cat"), Bare("<<EOF")];
    assert all[3] == Bare("<<EOF");
  }

  lemma PipeIsPlain()
    ensures PlainBare("|")
  {
  }

  /** `&` glued to a pipe sign is a program; printed with blanks around the sign, the line starts with it. */
  lemma AmpersandUncovers()
    ensures var s := Pipeline([Cmd("&", []), Cmd("a", [])]);
      FlatLine("&|a") == Ok(Some(s)) && StmtText(s) == "& | a" && FlatLine("& | a") == Err(AmpersandCommand)
  {
    hide Split, Stages, TokenizeFrom, FirstWord;
    AmpersandStages();
    AmpersandTokens();
    AmpersandText();
    assert FirstWord("&|a") == "&|a" by { FirstWordAlone("&|a"); }
    FirstWordOf("", "&", " | a");
    assert "" + "&" + " | a" == "& | a";
    assert '=' !in "&|a";
    assert IsLonePipe("&|a", 1);
  }

  lemma AmpersandTokens()
    ensures !HasHereDoc("&|a") && !HasHereDoc("& | a")
  {
    hide TokenizeFrom;
    SinglePlainToken("&|a") by { assert PlainBare("&|a"); }
    var ts := [Bare("&"), Bare("|"), Bare("a")];
    assert PlainBare("&") && PlainBare("|") && PlainBare("a");
    assert ts[1..] == [Bare("|"), Bare("a")] && ts[1..][1..] == [Bare("a")] && ts[1..][1..][1..] == [];
    assert PrintTokens([Bare("a")]) == ["a"] && PrintTokens(ts[1..]) == ["|", "a"];
    assert PrintTokens(ts) == ["&", "|", "a"];
    assert ["&", "|", "a"][1..] == ["|", "a"] && ["|", "a"][1..] == ["a"];
    assert LineText(ts) == "& | a";
    TokensReadBack(ts);
  }

  lemma AmpersandText()
    ensures StmtText(Pipeline([Cmd("&", []), Cmd("a", [])])) == "& | a"
  {
    hide Join;
    var stages := [Cmd("&", []), Cmd("a", [])];
    assert stages[1..] == [Cmd("a", [])] && stages[1..][1..] == [];
    JoinedFirst(stages);
    LoneStageText(Cmd("a", []));
    assert CmdText("&", []) == "&" && CmdText("a", []) == "a";
    assert "&" + " | " + "a" == "& | a";
  }

  lemma AmpersandStages()
    ensures Stages(Split("&|a", PIPE)) == Ok([Cmd("&", []), Cmd("a", [])])
  {
    hide Split, Stages, Trim, Command, PlainBare;
    assert "&|a" == "&" + ['|'] + "a";
    SplitAtSeparator("&", '|', "a", PIPE);
    SplitUnbroken("&", PIPE);
    SplitUnbroken("a", PIPE);
    TrimOfTrimmed("&");
    TrimOfTrimmed("a");
    PlainCommand("&");
    PlainCommand("a");
    NoStages();
    StagesStep("a", [], Cmd("a", []), []);
    assert Stages(["a"]) == Ok([Cmd("a", [])]) by {
      assert ["a"] + [] == ["a"] && [Cmd("a", [])] + [] == [Cmd("a", [])];
    }
    StagesStep("&", ["a"], Cmd("&", []), [Cmd("a", [])]);
    assert ["&"] + ["a"] == Split("&|a", PIPE);
    assert [Cmd("&", [])] + [Cmd("a", [])] == [Cmd("&", []), Cmd("a", [])];
  }

  lemma PlainCommand(w: string)
    requires w in {"&", "a"}
    ensures Command(w) == Ok(Some(Cmd(w, [])))
  {
    hide TokenizeFrom;
    SinglePlainToken(w) by { assert PlainBare("&") && PlainBare("a"); }
    assert [Bare(w)][1..] == [];
  }

  /** Backticks around a substitution: printed with `$(`, the inner parenthesis is refused. */
  lemma BackticksUncover(inner: Stmt)
    requires Nestable(inner) && '`' !in CmdText(inner.program, inner.args)
    ensures var s := Echo(Echo(inner)); var text := "echo $(" + CmdText(inner.program, inner.args) + ")";
      && FlatLine("echo `" + text + "`") == Ok(Some(s))
      && StmtText(s) == "echo $(" + text + ")" && FlatLine(StmtText(s)) == Err(NestedSubstitution)
  {
    hide FlatLine, CmdText, StmtText, WellFormedArg;
    EchoText(inner);
    EchoText(Echo(inner));
    PrintOfCommand(Echo(inner));
    BackticksAccepted(inner);
    NestedRefused(inner);
  }

  /** The line in backticks, as tokens. */
  lemma BackticksTokens(text: string)
    requires '`' !in text
    ensures Tokenize("echo `" + text + "`") == Ok([Bare("echo"), CommandSubst(text)])
  {
    hide TokenizeFrom, PlainBare;
    EchoIsPlain();
    var quoted := "`" + text + "`";
    assert [Bare("echo")][1..] == [] && PrintTokens([Bare("echo")]) == ["echo"];
    assert LineText([Bare("echo")]) == "echo";
    PrefixRead([Bare("echo")], quoted);
    assert "echo" + " " + quoted == "echo `" + text + "`";
    QuotedToken(text);
    assert [Bare("echo")] + [CommandSubst(text)] == [Bare("echo"), CommandSubst(text)];
  }

  lemma QuotedToken(text: string)
    requires '`' !in text
    ensures Tokenize("`" + text + "`") == Ok([CommandSubst(text)])
  {
    hide IndexOf;
    var quoted := "`" + text + "`";
    assert quoted[1..] == text + ['`'] + "";
    IndexOfFirst(text, '`', "");
    assert quoted[1..|text| + 1] == text;
    assert Delimited(quoted) == Ok((CommandSubst(text), |quoted|));
    assert quoted[|quoted|..] == "" && TokenizeFrom("", "") == Ok([]);
    assert [CommandSubst(text)] + [] == [CommandSubst(text)];
  }

  lemma BackticksAccepted(inner: Stmt)
    requires Nestable(inner) && '`' !in CmdText(inner.program, inner.args)
    ensures FlatLine("echo `" + CmdText("echo", [CommandSubstitution(inner)]) + "`") == Ok(Some(Echo(Echo(inner))))
  {
    hide CmdText, TokenizeFrom, LowerTokens, LowerRawToken, WellFormedArg, HasLonePipe, IsAssignment, FirstWord,
         PlainBare;
    var e := CommandSubstitution(inner);
    EchoText(inner);
    PrintOfCommand(Echo(inner));
    var text := CmdText("echo", [e]);
    EchoIsPlain();
    OneArgument(e);
    SubstitutionRoundTrip("echo", [e]);
    var line := "echo `" + text + "`";
    BackticksTokens(text);
    OneLowered(CommandSubst(text), CommandSubstitution(Echo(inner)));
    assert [Bare("echo"), CommandSubst(text)][1..] == [CommandSubst(text)];
    var rest := " `" + text + "`";
    assert line == "echo" + rest && line == "" + "echo" + rest;
    NotAssignment("echo", rest);
    FirstWordOf("", "echo", rest);
    assert '|' !in line;
    NoLonePipe(line);
    assert !IsHereDocToken(CommandSubst(text));
  }

  lemma NoLonePipe(line: string)
    requires '|' !in line
    ensures !HasLonePipe(line)
  {
  }

  lemma NestedRefused(inner: Stmt)
    requires Nestable(inner)
    ensures var text := CmdText("echo", [CommandSubstitution(inner)]);
      FlatLine("echo $(" + text + ")") == Err(NestedSubstitution)
  {
    hide CmdText, TokenizeFrom, WellFormedArg, HasLonePipe, IsAssignment, FirstWord, PlainBare;
    EchoText(inner);
    PrintOfCommand(Echo(inner));
    var text := CmdText("echo", [CommandSubstitution(inner)]);
    var line := "echo $(" + text + ")";
    EchoIsPlain();
    assert [Bare("echo")][1..] == [] && PrintTokens([Bare("echo")]) == ["echo"];
    assert LineText([Bare("echo")]) == "echo";
    PrefixRead([Bare("echo")], "$(" + text + ")");
    assert "echo" + " " + ("$(" + text + ")") == line;
    NestedToken("echo $(" + CmdText(inner.program, inner.args) + ")" + ")");
    var rest := " $(" + text + ")";
    assert line == "echo" + rest && line == "" + "echo" + rest;
    NotAssignment("echo", rest);
    FirstWordOf("", "echo", rest);
    assert '|' !in line;
    NoLonePipe(line);
    assert "$(" + text + ")" == "$(" + ("echo $(" + CmdText(inner.program, inner.args) + ")" + ")");
  }

  lemma NestedToken(body: string)
    requires |body| > 6 && body[..7] == "echo $("
    ensures Tokenize("$(" + body) == Err(NestedSubstitution)
  {
    var s := "$(" + body;
    assert s[2..] == body && body[0] == 'e';
    var front := "echo $";
    assert body == front + ("(" + body[7..]) by { assert body[..7] == front + "("; }
    NestedBody(front, "(" + body[7..]);
  }

  lemma {:induction false} NestedBody(front: string, rest: string)
    requires !HasParenthesis(front) && rest != "" && rest[0] == '('
    ensures SubstitutionBody(front + rest) == Nested
  {
    if front == "" {
      assert front + rest == rest;
    } else {
      assert (front + rest)[1..] == front[1..] + rest;
      NestedBody(front[1..], rest);
    }
  }
}
