/** A line against the text its tokens are printed as: printing brings in no reserved word and no lone pipe sign. */
module Reprints {
  import opened Outcomes
  import opened Text
  import opened ShellAst
  import opened Tokenizer
  import opened TokenText
  import opened FlatLines
  import opened Printer
  import opened FlatRoundTrip
  import opened Machines

  // ---- what a token is printed as ----

  /** A program keeps its spelling; an argument is printed from what it was lowered to. */
  predicate PrintedAs(t: RawToken, c: RawToken) {
    (t.Bare? && c == t) || (LowerRawToken(t).Ok? && c == ArgToken(LowerRawToken(t).value))
  }

  predicate AllPrintedAs(ts: seq<RawToken>, cs: seq<RawToken>) {
    |ts| == |cs| && forall i :: 0 <= i < |ts| ==> PrintedAs(ts[i], cs[i])
  }

  lemma ArgumentPrinted(e: Expr)
    requires e.CommandSubstitution? ==> e.inner.Cmd?
    ensures PrintToken(ArgToken(e)) == ArgText(e)
  {
    hide CmdText;
  }

  lemma LoweredIsPrinted(t: RawToken)
    requires LowerRawToken(t).Ok?
    ensures var e := LowerRawToken(t).value;
      (e.CommandSubstitution? ==> e.inner.Cmd?) && PrintToken(ArgToken(e)) == ArgText(e)
  {
    hide CmdText, TokenizeFrom, LowerTokens, Trim;
    ArgumentPrinted(LowerRawToken(t).value);
  }

  lemma {:induction false} ArgumentsPrinted(ts: seq<RawToken>)
    requires LowerTokens(ts).Ok?
    ensures var args := LowerTokens(ts).value;
      AllPrintedAs(ts, ArgTokens(args)) && PrintTokens(ArgTokens(args)) == ArgTexts(args)
  {
    hide LowerRawToken, ArgToken, PrintToken, ArgText;
    if ts != [] {
      var args := LowerTokens(ts).value;
      ArgumentsPrinted(ts[1..]);
      LoweredIsPrinted(ts[0]);
      assert args == [LowerRawToken(ts[0]).value] + LowerTokens(ts[1..]).value;
      assert args[1..] == LowerTokens(ts[1..]).value;
      var cs := ArgTokens(args);
      assert cs == [ArgToken(args[0])] + ArgTokens(args[1..]);
      assert cs[1..] == ArgTokens(args[1..]);
      forall i | 0 <= i < |ts| ensures PrintedAs(ts[i], cs[i]) {
        if i > 0 {
          assert PrintedAs(ts[1..][i - 1], cs[1..][i - 1]);
        }
      }
    }
  }

  /** A command is printed as its tokens are. */
  lemma CommandPrinted(raw: seq<RawToken>)
    requires raw != [] && raw[0].Bare? && LowerTokens(raw[1..]).Ok?
    ensures var program, args := raw[0].text, LowerTokens(raw[1..]).value;
      AllPrintedAs(raw, CmdTokens(program, args)) && CmdText(program, args) == LineText(CmdTokens(program, args))
  {
    hide LowerRawToken, ArgToken, PrintToken, ArgText, LowerTokens;
    var program, args := raw[0].text, LowerTokens(raw[1..]).value;
    var cs := CmdTokens(program, args);
    ArgumentsPrinted(raw[1..]);
    assert cs[1..] == ArgTokens(args);
    forall i | 0 <= i < |raw| ensures PrintedAs(raw[i], cs[i]) {
      if i > 0 {
        assert PrintedAs(raw[1..][i - 1], cs[1..][i - 1]);
      }
    }
    ProgramPrinted(program);
    assert PrintTokens(cs) == [program] + PrintTokens(cs[1..]);
    JoinedArgs(program, args);
  }

  lemma ProgramPrinted(program: string)
    ensures PrintToken(Bare(program)) == program
  {
  }

  lemma JoinedArgs(program: string, args: seq<Expr>)
    ensures CmdText(program, args) == Join(" ", [program] + ArgTexts(args))
  {
    hide ArgText;
    var texts := [program] + ArgTexts(args);
    assert texts[1..] == ArgTexts(args);
  }

  // ---- the machines on both texts ----

  /** Behind the text and behind its print: the same state, or the print can still be followed by a blank. */
  predicate Follows(m: Machine, raw: State, printed: State) {
    printed != Found && (raw == printed || Step(m, printed, ' ') != Found)
  }

  lemma PlainPrinted(m: Machine, st: State, t: RawToken, c: RawToken)
    requires t.Bare? && PrintedAs(t, c) && Run(m, st, t.text) != Found
    ensures Run(m, st, PrintToken(c)) == Run(m, st, t.text)
  {
    hide Step;
    if c != t {
      VariablePrinted(m, st, t.text);
    }
  }

  /** `${name}` and `$name` are the same to the machines. */
  lemma VariablePrinted(m: Machine, st: State, tok: string)
    requires Run(m, st, tok) != Found
    ensures PrintToken(ArgToken(LowerToken(tok))) == ArgText(LowerToken(tok))
    ensures Run(m, st, ArgText(LowerToken(tok))) == Run(m, st, tok)
  {
    hide Step;
    var e := LowerToken(tok);
    if e.ShellVar? && tok != "$" + e.name {
      assert tok == "${" + e.name + "}" by {
        assert tok[1..][1..|tok| - 2] == e.name && tok[1..][0] == '{' && tok[1..][|tok| - 2] == '}';
      }
      BracedName(m, st, e.name);
    } else if e.ShellVar? || e.ShellSpecial? {
      assert tok == "$" + tok[1..];
    }
  }

  lemma BracedName(m: Machine, st: State, name: string)
    requires IsPosixIdentifier(name) && Run(m, st, "${" + name + "}") != Found
    ensures Run(m, st, "${" + name + "}") == Run(m, st, "$" + name)
  {
    hide Step, Run;
    assert "${" == "$" + "{";
    assert "${" + name + "}" == "$" + ("{" + name + "}");
    PastStays(m);
    RunAppend(m, st, "$", "{" + name + "}");
    RunOne(m, st, '$');
    DelimiterStep(m, st, '$', '$');
    FoundStays(m, "{" + name + "}");
    RunAppend(m, st, "$", name);
    RunAppend(m, Past, "{" + name, "}");
    RunAppend(m, Past, "{", name);
    RunOne(m, Past, '{');
    RunOne(m, Past, '}');
    NameStays(m, name);
  }

  /** Between two delimiters, from wherever it starts: the machine is past it or has found something. */
  lemma Enclosed(m: Machine, st: State, open: char, inner: string, close: char)
    requires Delimits(open) && Delimits(close) && Run(m, st, [open] + inner + [close]) != Found
    ensures Run(m, st, [open] + inner + [close]) == Past
    ensures Step(m, st, open) == Past && Run(m, Past, inner) != Found
    ensures Step(m, Run(m, Past, inner), close) == Past
  {
    hide Step, Run;
    RunAppend(m, st, [open] + inner, [close]);
    RunAppend(m, st, [open], inner);
    RunOne(m, st, open);
    DelimiterStep(m, st, open, open);
    FoundStays(m, inner);
    FoundStays(m, [close]);
    RunOne(m, Run(m, st, [open] + inner), close);
    DelimiterStep(m, Run(m, st, [open] + inner), close, close);
  }

  /** One delimited token, whatever opens it, is printed without finding anything new. */
  lemma {:induction false} DelimitedSimulated(m: Machine, st: State, s: string, c: RawToken)
    requires OpensDelimited(s) && Delimited(s).Ok? && PrintedAs(Delimited(s).value.0, c)
    requires st != Found && Run(m, st, s[..Delimited(s).value.1]) != Found
    ensures Run(m, st, s[..Delimited(s).value.1]) == Past == Run(m, st, PrintToken(c))
    decreases |s|, 2
  {
    hide Step, Run, LowerRawToken, LowerToken, ArithmeticLength, SubstitutionBody, DoubleQuoteLength, IndexOf;
    var (t, n) := Delimited(s).value;
    match t {
      case SingleQuoted(text) =>
        assert s[..n] == ['\''] + text + ['\''];
        Enclosed(m, st, '\'', text, '\'');
        QuotedPrinted(t, c);
      case DoubleQuoted(text) =>
        assert s[..n] == ['"'] + text + ['"'];
        Enclosed(m, st, '"', text, '"');
        QuotedPrinted(t, c);
      case Bare(text) =>
        assert s[..n] == text && n >= 2;
        ArithmeticEnds(s);
        assert text == ['$'] + text[1..n - 1] + [')'];
        Enclosed(m, st, '$', text[1..n - 1], ')');
        PlainPrinted(m, st, t, c);
      case CommandSubst(inner) =>
        SubstitutionSimulated(m, st, s, c);
    }
  }

  lemma ArithmeticEnds(s: string)
    requires OpensDelimited(s) && Delimited(s).Ok? && Delimited(s).value.0.Bare?
    ensures var n := Delimited(s).value.1; 2 <= n <= |s| && s[0] == '$' && s[..n][n - 1] == ')'
  {
    var n := Delimited(s).value.1;
    assert s[..n][n - 2..][1] == ')';
  }

  lemma QuotedPrinted(t: RawToken, c: RawToken)
    requires (t.SingleQuoted? || t.DoubleQuoted?) && PrintedAs(t, c)
    ensures c == t
    ensures t.SingleQuoted? ==> PrintToken(c) == ['\''] + t.text + ['\'']
    ensures t.DoubleQuoted? ==> PrintToken(c) == ['"'] + t.text + ['"']
  {
  }

  /** What a substitution is printed as, and the tokens it was read from. */
  lemma SubstitutionPrinted(inner: string, c: RawToken) returns (cs: seq<RawToken>)
    requires PrintedAs(CommandSubst(inner), c)
    ensures Tokenize(Trim(inner)).Ok? && AllPrintedAs(Tokenize(Trim(inner)).value, cs)
    ensures Tokenize(Trim(inner)).value != [] && Tokenize(Trim(inner)).value[0].Bare?
    ensures c == CommandSubst(LineText(cs)) && PrintToken(c) == ['$'] + "(" + LineText(cs) + [')']
  {
    hide TokenizeFrom, LowerTokens, CmdText, LineText, Trim;
    var raw := Tokenize(Trim(inner)).value;
    CommandPrinted(raw);
    cs := CmdTokens(raw[0].text, LowerTokens(raw[1..]).value);
  }

  lemma {:induction false} SubstitutionSimulated(m: Machine, st: State, s: string, c: RawToken)
    requires OpensDelimited(s) && Delimited(s).Ok? && Delimited(s).value.0.CommandSubst?
    requires PrintedAs(Delimited(s).value.0, c)
    requires st != Found && Run(m, st, s[..Delimited(s).value.1]) != Found
    ensures Run(m, st, s[..Delimited(s).value.1]) == Past == Run(m, st, PrintToken(c))
    decreases |s|, 1
  {
    hide Step, Run, LowerRawToken, TokenizeFrom, Trim, PrintedAs, PrintToken, LineText;
    var (t, n) := Delimited(s).value;
    var inner := t.text;
    var opener := SubstitutionOpener(m, st, s);
    var cs := SubstitutionPrinted(inner, c);
    var pre, post := TrimShape(inner);
    InnerSimulated(m, pre, Trim(inner), post, opener);
    TrimNeverGrows(inner);
    assert "" + Trim(inner) == Trim(inner);
    PastStays(m);
    Simulated(m, Past, Trim(inner), "", cs);
    ClosesPrint(m, st, opener, Run(m, Past, Trim(inner)), post, LineText(cs));
  }

  /** Either spelling: past the opener, and the inner text is run from there up to a closing character. */
  lemma SubstitutionOpener(m: Machine, st: State, s: string) returns (close: char)
    requires OpensDelimited(s) && Delimited(s).Ok? && Delimited(s).value.0.CommandSubst?
    requires Run(m, st, s[..Delimited(s).value.1]) != Found
    ensures var inner := Delimited(s).value.0.text;
      && Delimits(close) && Run(m, Past, inner) != Found && Step(m, Run(m, Past, inner), close) == Past
      && |inner| < |s| && Step(m, st, '$') == Past && Run(m, st, s[..Delimited(s).value.1]) == Past
  {
    hide Step, Run, ArithmeticLength, SubstitutionBody, DoubleQuoteLength, IndexOf;
    var (t, n) := Delimited(s).value;
    var inner := t.text;
    if s[0] == '`' {
      close := '`';
      assert s[..n] == ['`'] + inner + ['`'];
      Enclosed(m, st, '`', inner, '`');
    } else {
      close := ')';
      assert s[0] == '$' && s[1] == '(';
      assert s[..n] == ['$'] + ("(" + inner) + [')'];
      Enclosed(m, st, '$', "(" + inner, ')');
      RunAppend(m, Past, "(", inner);
      RunOne(m, Past, '(');
      PastStays(m);
    }
    DelimiterStep(m, st, s[0], '$');
  }

  lemma InnerSimulated(m: Machine, pre: string, text: string, post: string, close: char)
    requires Blank(pre) && Run(m, Past, pre + text + post) != Found
    ensures Run(m, Past, text) != Found
    ensures Run(m, Past, pre + text + post) == Run(m, Run(m, Past, text), post)
  {
    hide Step, Run;
    PastStays(m);
    RunAppend(m, Past, pre + text, post);
    RunAppend(m, Past, pre, text);
    BlanksStay(m, Past, pre);
    FoundStays(m, post);
  }

  lemma ClosesPrint(m: Machine, st: State, close: char, raw: State, post: string, text: string)
    requires Blank(post) && Delimits(close) && Step(m, Run(m, raw, post), close) == Past && raw != Found
    requires Step(m, st, '$') == Past && Follows(m, raw, Run(m, Past, text))
    ensures Run(m, st, ['$'] + "(" + text + [')']) == Past
  {
    hide Step, Run;
    var printed := Run(m, Past, text);
    PastStays(m);
    RunAppend(m, st, ['$'] + "(" + text, [')']);
    RunAppend(m, st, ['$'] + "(", text);
    RunAppend(m, st, ['$'], "(");
    RunOne(m, st, '$');
    RunOne(m, Past, '(');
    RunOne(m, printed, ')');
    DelimiterStep(m, printed, ')', close);
    if post == "" {
      RunNothing(m, raw);
    } else {
      BlanksAreOne(m, raw, post);
      DelimiterStep(m, Step(m, raw, ' '), close, close);
      FoundCloses(m, close);
    }
  }

  lemma FoundCloses(m: Machine, c: char)
    ensures Step(m, Found, c) == Found
  {
  }

  /** Whatever the text does not make the machine find, its print does not either, from the same state. */
  lemma {:induction false} Simulated(m: Machine, st: State, s: string, current: string, cs: seq<RawToken>)
    requires Boundary(m, st) && TokenizeFrom(s, current).Ok? && AllPrintedAs(TokenizeFrom(s, current).value, cs)
    requires Run(m, st, current + s) != Found
    ensures Follows(m, Run(m, st, current + s), Run(m, st, LineText(cs)))
    decreases |s|, 3
  {
    hide Step, Run, LowerRawToken, PrintedAs, PrintToken;
    var ts := TokenizeFrom(s, current).value;
    if s == "" {
      assert current + s == current;
      PendingSimulated(m, st, current, cs);
    } else if s[0] == '#' && current == "" {
      assert LineText(cs) == "" by { NoLine(cs); }
      RunNothing(m, st);
    } else if IsWhitespace(s[0]) {
      BlankSimulated(m, st, s, current, cs);
    } else if OpensDelimited(s) {
      var (t, n) := Delimited(s).value;
      var rest := TokenizeFrom(s[n..], "").value;
      assert ts == [t] + rest && ts[1..] == rest;
      assert s == s[..n] + s[n..] && current + s == s;
      FrontNotFound(m, st, s[..n], s[n..]);
      assert PrintedAs(ts[0], cs[0]);
      DelimitedSimulated(m, st, s, cs[0]);
      RunAppend(m, st, s[..n], s[n..]);
      PastStays(m);
      RestPrinted(ts, cs);
      assert "" + s[n..] == s[n..];
      Simulated(m, Past, s[n..], "", cs[1..]);
      FirstThenRest(m, st, cs, Past);
      if cs[1..] == [] {
        NoLine(cs[1..]);
        RunNothing(m, Past);
      }
    } else {
      assert current + s == current + [s[0]] + s[1..];
      Simulated(m, st, s[1..], current + [s[0]], cs);
    }
  }

  lemma NoLine(cs: seq<RawToken>)
    requires cs == []
    ensures LineText(cs) == ""
  {
  }

  lemma RestPrinted(ts: seq<RawToken>, cs: seq<RawToken>)
    requires AllPrintedAs(ts, cs) && ts != []
    ensures AllPrintedAs(ts[1..], cs[1..])
  {
    hide PrintedAs;
    forall i | 0 <= i < |ts| - 1 ensures PrintedAs(ts[1..][i], cs[1..][i]) {
      assert PrintedAs(ts[i + 1], cs[i + 1]);
    }
  }

  lemma PendingSimulated(m: Machine, st: State, current: string, cs: seq<RawToken>)
    requires AllPrintedAs(Pending(current), cs) && Run(m, st, current) != Found
    ensures Run(m, st, LineText(cs)) == Run(m, st, current)
  {
    hide Step, Run, PrintedAs, PrintToken;
    if current == "" {
      NoLine(cs);
    } else {
      assert PrintedAs(Pending(current)[0], cs[0]);
      PlainPrinted(m, st, Bare(current), cs[0]);
      LoneLine(cs);
    }
  }

  lemma LoneLine(cs: seq<RawToken>)
    requires |cs| == 1
    ensures LineText(cs) == PrintToken(cs[0])
  {
    hide PrintToken;
    assert cs == [cs[0]] && cs[1..] == [];
    assert PrintTokens([]) == [];
  }

  lemma {:induction false} BlankSimulated(m: Machine, st: State, s: string, current: string, cs: seq<RawToken>)
    requires s != "" && IsWhitespace(s[0]) && Boundary(m, st)
    requires TokenizeFrom(s, current).Ok? && AllPrintedAs(TokenizeFrom(s, current).value, cs)
    requires Run(m, st, current + s) != Found
    ensures Follows(m, Run(m, st, current + s), Run(m, st, LineText(cs)))
    decreases |s|, 2
  {
    hide Step, Run, LowerRawToken, PrintedAs, PrintToken;
    var ts := TokenizeFrom(s, current).value;
    var rest := s[1..];
    var at := Run(m, st, current);
    var next := Step(m, at, ' ');
    assert current + s == current + ([s[0]] + rest);
    RunAppend(m, st, current, [s[0]] + rest);
    RunAppend(m, at, [s[0]], rest);
    RunOne(m, at, s[0]);
    BlankSteps(m, at, s[0]);
    FoundStays(m, rest);
    assert "" + rest == rest;
    if current == "" {
      RunNothing(m, st);
      AfterNothing(TokenizeFrom(rest, ""));
      Simulated(m, st, rest, "", cs);
    } else {
      assert ts == [Bare(current)] + TokenizeFrom(rest, "").value && ts[1..] == TokenizeFrom(rest, "").value;
      assert PrintedAs(ts[0], cs[0]);
      FrontNotFound(m, st, current, s);
      PlainPrinted(m, st, Bare(current), cs[0]);
      RestPrinted(ts, cs);
      Simulated(m, next, rest, "", cs[1..]);
      FirstThenRest(m, st, cs, at);
    }
  }

  /** A printed line is its first token and, behind one blank, the rest. */
  lemma FirstThenRest(m: Machine, st: State, cs: seq<RawToken>, at: State)
    requires cs != [] && Run(m, st, PrintToken(cs[0])) == at
    ensures Run(m, st, LineText(cs)) ==
            if cs[1..] == [] then at else Run(m, Step(m, at, ' '), LineText(cs[1..]))
  {
    hide Step, Run, PrintToken;
    assert PrintTokens(cs)[1..] == PrintTokens(cs[1..]);
    if |cs| == 1 {
      LoneLine(cs);
    } else {
      var first, rest := PrintToken(cs[0]), LineText(cs[1..]);
      assert LineText(cs) == first + " " + rest;
      RunAppend(m, st, first + " ", rest);
      RunAppend(m, st, first, " ");
      RunOne(m, at, ' ');
    }
  }

  // ---- main result ----

  /** Printed, a line finds nothing at its end that it did not find itself. */
  lemma NothingNewFound(m: Machine, line: string, cs: seq<RawToken>)
    requires Tokenize(line).Ok? && AllPrintedAs(Tokenize(line).value, cs)
    requires Run(m, Start(m), line + " ") != Found
    ensures Run(m, Start(m), LineText(cs) + " ") != Found
  {
    hide Step, Run, PrintedAs, LineText;
    var st := Start(m);
    PastStays(m);
    RunAppend(m, st, line, " ");
    RunOne(m, Run(m, st, line), ' ');
    FrontNotFound(m, st, line, " ");
    assert "" + line == line;
    Simulated(m, st, line, "", cs);
    RunAppend(m, st, LineText(cs), " ");
    RunOne(m, Run(m, st, LineText(cs)), ' ');
  }
}
