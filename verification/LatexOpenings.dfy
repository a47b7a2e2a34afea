/** What an opener, a percent sign or a pair of dollars does where nothing ends it, or behind a backslash. */
module LatexOpenings {
  import opened Outcomes
  import opened Text
  import opened Search
  import opened LatexScanner
  import opened LatexProofs
  import opened LatexLeaks
  import opened LatexDocuments

  /** Openers that take everything behind them with them when their closer is missing. */
  predicate EndsAll(open: string, close: string) {
    || (open == "\\[" && close == "\\]")
    || (open == "\\(" && close == "\\)")
    || (open == "\\begin{equation}" && close == "\\end{equation}")
    || (open == "\\begin{align}" && close == "\\end{align}")
    || (open == "\\begin{gather}" && close == "\\end{gather}")
    || (open == "\\begin{proof}" && close == "\\end{proof}")
  }

  lemma OpenerFound(open: string, close: string, rest: string) returns (o: Opening)
    requires EndsAll(open, close)
    ensures OpeningOf(open + rest, false) == o
    ensures o == ProofOpen || (o.MathOpen? && Closer(o.kind) == close)
    ensures OpeningText(o) == open && (o == ProofOpen ==> close == "\\end{proof}")
  {
    hide OpeningOf;
    o := if open == "\\begin{proof}" then ProofOpen
         else if open == "\\[" then MathOpen(Display)
         else if open == "\\(" then MathOpen(Paren)
         else if open == "\\begin{equation}" then MathOpen(EquationEnv)
         else if open == "\\begin{align}" then MathOpen(Align)
         else MathOpen(Gather);
    OpeningIs(o, rest);
  }

  lemma OpeningIs(o: Opening, rest: string)
    requires o == ProofOpen || (o.MathOpen? && o.kind != Inline)
    ensures OpeningOf(OpeningText(o) + rest, false) == o
  {
    hide StartsWith, EnvBegin, Find;
    var s := OpeningText(o) + rest;
    Started(OpeningText(o), rest);
    NotStarted(s, "%", 0);
    if o == ProofOpen {
      assert s[1] == 'b' && s[7] == 'p';
      NotStarted(s, Opener(Display), 1);
      forall k | k in {EquationEnv, Align, Gather} ensures !StartsWith(s, Opener(k)) {
        NotStarted(s, Opener(k), 7);
      }
    } else if o.kind == Paren {
      assert s[1] == '(';
      forall k | k != Paren && k != Inline ensures !StartsWith(s, Opener(k)) {
        NotStarted(s, Opener(k), 1);
      }
      NotStarted(s, PROOF_BEGIN, 1);
      NotStarted(s, CONTRACT, 1);
      NotStarted(s, CITE, 1);
    } else if o.kind != Display {
      assert s[1] == 'b' && s[7] == Opener(o.kind)[7];
      NotStarted(s, Opener(Display), 1);
      forall k | k in {EquationEnv, Align, Gather} && k != o.kind ensures !StartsWith(s, Opener(k)) {
        NotStarted(s, Opener(k), 7);
      }
    }
  }

  /** Without its closer an opener ends the scan: nothing behind it is found. */
  lemma UnclosedEnds(open: string, close: string, rest: string)
    requires EndsAll(open, close) && Find(rest, close) == None
    ensures Tokens(open + rest, false) == Ok([])
  {
    hide OpeningOf, Find, TheoremStep, ContractStep, CiteStep, EnvBegin, Tokens;
    var o := OpenerFound(open, close, rest);
    var s := open + rest;
    assert s[|open|..] == rest;
    assert StepAt(s, false) == Finished;
    TokensStep(s, false);
  }

  /** A percent sign behind a backslash, or behind two, is text; elsewhere it takes the rest of its line with it. */
  lemma PercentEscaped(rest: string, line: string)
    ensures Tokens("\\%" + rest, false) == Tokens(rest, false)
    ensures Tokens("\\\\%" + rest, false) == Tokens(rest, false)
    ensures '\n' !in line ==> Tokens("%" + (line + ("\n" + rest)), false) == Tokens(rest, false)
    ensures '\n' !in line ==> Tokens("%" + line, false) == Ok([])
  {
    hide Tokens;
    LoneBackslash("%" + rest);
    LoneBackslash("\\%" + rest);
    assert "\\" + ("%" + rest) == "\\%" + rest && "\\" + ("\\%" + rest) == "\\\\%" + rest;
    EscapedPercent(rest);
    BackslashAgain(rest);
    if '\n' !in line {
      CommentTakesLine(line, rest);
      CommentTakesRest(line);
    }
  }

  /** A backslash in front of a percent sign or another backslash opens nothing. */
  lemma LoneBackslash(rest: string)
    requires rest != "" && rest[0] in {'%', '\\'}
    ensures Tokens("\\" + rest, false) == Tokens(rest, true)
  {
    hide Tokens, StepAt;
    var s := "\\" + rest;
    BackslashStep(s, false);
    TokensStep(s, false);
    assert s[1..] == rest;
  }

  lemma BackslashStep(s: string, escaped: bool)
    requires |s| > 1 && s[0] == '\\' && s[1] in {'%', '\\'}
    ensures StepAt(s, escaped) == Skip(1)
  {
    hide StartsWith, TheoremStep, ContractStep, CiteStep, UpTo, Find, OpeningText, OpeningOf;
    var o := OpeningOf(s, escaped);
    if o != Plain {
      OpenerSecond(o);
      NotStarted(s, OpeningText(o), if OpeningText(o)[0] == '\\' then 1 else 0);
    }
  }

  lemma OpenerSecond(o: Opening)
    requires o != Plain
    ensures OpeningText(o) != ""
    ensures OpeningText(o)[0] == '\\' ==> |OpeningText(o)| > 1 && OpeningText(o)[1] !in {'%', '\\'}
  {
    hide EnvironmentName;
  }

  lemma EscapedPercent(rest: string)
    ensures Tokens("%" + rest, true) == Tokens(rest, false)
  {
    hide Tokens, StepAt;
    var s := "%" + rest;
    PercentStep(s);
    TokensStep(s, true);
    assert s[1..] == rest;
  }

  lemma PercentStep(s: string)
    requires s != "" && s[0] == '%'
    ensures StepAt(s, true) == Skip(1)
  {
    hide StartsWith, TheoremStep, ContractStep, CiteStep, UpTo, Find, OpeningText, OpeningOf;
    var o := OpeningOf(s, true);
    if o == Comment {
      EscapedIsNoComment(s);
    } else if o != Plain {
      OpenerNotPercent(o);
      NotStarted(s, OpeningText(o), 0);
    }
  }

  lemma EscapedIsNoComment(s: string)
    ensures OpeningOf(s, true) != Comment
  {
    hide StartsWith;
  }

  lemma OpenerNotPercent(o: Opening)
    requires o != Plain && o != Comment
    ensures OpeningText(o) != "" && OpeningText(o)[0] != '%'
  {
    hide EnvironmentName;
  }

  /** Of two backslashes and a percent sign, the second backslash is the one in front of the sign. */
  lemma BackslashAgain(rest: string)
    ensures Tokens("\\%" + rest, true) == Tokens(rest, false)
  {
    hide Tokens, StepAt;
    var s := "\\%" + rest;
    BackslashStep(s, true);
    TokensStep(s, true);
    assert s[1..] == "%" + rest;
    EscapedPercent(rest);
  }

  lemma CommentTakesLine(line: string, rest: string)
    requires '\n' !in line
    ensures Tokens("%" + (line + ("\n" + rest)), false) == Tokens(rest, false)
  {
    hide Tokens, StepAt;
    FindAbsent(line, "\n");
    CommentScanned(line, rest);
    var s := "%" + line + "\n" + rest;
    assert s == "%" + (line + ("\n" + rest));
    TokensStep(s, false);
    assert s[|line| + 2..] == rest;
    assert s[|line| + 1] == '\n';
  }

  lemma CommentTakesRest(line: string)
    requires '\n' !in line
    ensures Tokens("%" + line, false) == Ok([])
  {
    hide Tokens, Find, TheoremStep, ContractStep, CiteStep, UpTo, StartsWith;
    var s := "%" + line;
    Started("%", line);
    FindAbsent(s, "\n");
    TokensStep(s, false);
    assert s[|s|..] == "" && forall e :: Tokens("", e) == Ok([]) by { NothingLeft(); }
  }

  lemma NothingLeft()
    ensures forall e :: Tokens("", e) == Ok([])
  {
  }

  /** A pair of dollars that no other pair follows is passed over alone; what follows is scanned in the open. */
  lemma DollarsAlone(rest: string)
    requires Find(rest, "$$") == None
    ensures Tokens("$$" + rest, false) == Tokens(rest, false)
  {
    hide Tokens, Find, OpeningOf, TheoremStep, ContractStep, CiteStep, UpTo, StartsWith;
    var s := "$$" + rest;
    DollarsOpen(rest);
    assert s[2..] == rest;
    TokensStep(s, false);
  }

  /** A dollar sign that no other follows ends the scan too. */
  lemma DollarEnds(rest: string)
    requires '$' !in rest
    ensures Tokens("$" + rest, false) == Ok([])
  {
    hide Tokens, Find, OpeningOf, TheoremStep, ContractStep, CiteStep, EnvBegin;
    var s := "$" + rest;
    DollarOpens(rest);
    assert s[1..] == rest;
    FindAbsent(rest, "$");
    TokensStep(s, false);
  }

  lemma DollarOpens(rest: string)
    requires '$' !in rest
    ensures OpeningOf("$" + rest, false) == MathOpen(Inline)
  {
    hide StartsWith, EnvBegin;
    var s := "$" + rest;
    Started("$", rest);
    NotStarted(s, "%", 0);
    if rest != "" {
      assert rest[0] in rest && s[1] == rest[0];
      NotStarted(s, "$$", 1);
    }
    TooShort(s, "$$");
    NotBackslash(s);
  }

  lemma TooShort(s: string, o: string)
    ensures |s| < |o| ==> !StartsWith(s, o)
  {
  }
}
