/** Exactly which LaTeX sources make the whole parse run past the end of a text. */
module LatexFailures {
  import opened Outcomes
  import opened Text
  import opened Search
  import opened LatexScanner
  import opened LatexObligations
  import opened LatexBlocks
  import opened LatexProofs
  import opened LatexLeaks
  import opened LatexOverruns
  import opened LatexDocuments

  ghost predicate SomeStatementRunsOut(ts: seq<Token>) {
    exists t :: t in ts && t.TheoremEnv? && ReachesOverrun(Stated(t.body), false)
  }

  lemma LoweringFailsExactly(t: Token)
    ensures Stating(t).Err? <==> t.TheoremEnv? && ReachesOverrun(Stated(t.body), false)
  {
    hide Tokens, ReachesOverrun;
    if t.TheoremEnv? {
      OverrunExactly(Stated(t.body), false);
    }
  }

  lemma {:induction false} ObligationsFailExactly(ts: seq<Token>)
    ensures Obligations(ts).Err? <==> SomeStatementRunsOut(ts)
  {
    hide Stating, ReachesOverrun, Stated;
    if ts != [] {
      var n := |ts| - 1;
      LoweringFailsExactly(ts[n]);
      ObligationsFailExactly(ts[..n]);
      assert forall t :: t in ts <==> t in ts[..n] || t == ts[n];
    }
  }

  /** The parse fails exactly when the scan of the source, or of the statement of one of its theorems, runs out. */
  lemma ParseFailsExactly(src: string)
    ensures Parsed(src).Err? <==>
            ReachesOverrun(src, false) || (Tokens(src, false).Ok? && SomeStatementRunsOut(Tokens(src, false).value))
  {
    hide Tokens, ReachesOverrun, SomeStatementRunsOut, Obligations, Equations, Formulas;
    OverrunExactly(src, false);
    if Tokens(src, false).Ok? {
      ObligationsFailExactly(Tokens(src, false).value);
    }
  }

  // ---- a source that fails inside a theorem ----

  /** Neither braces nor backslashes. */
  predicate PlainKey(key: string) {
    forall i :: 0 <= i < |key| ==> key[i] !in {'\\', '{', '}'}
  }

  function OpenCitation(key: string): string {
    CITE + key + "\\"
  }

  lemma OpenCitationFails(key: string)
    requires PlainKey(key)
    ensures Tokens(OpenCitation(key), false) == Err(OutOfBounds)
  {
    hide OpeningOf, CloseBrace, Tokens;
    var s := OpenCitation(key);
    assert s == CITE + (key + "\\");
    CommandOpens(CiteOpen, key + "\\");
    assert s[|CITE|..] == key + "\\";
    BracesPastPlain(key, "\\", 1);
    LoneBackslashOverruns();
    TokensStep(s, false);
  }

  lemma LoneBackslashOverruns()
    ensures CloseBrace("\\", 1) == PastEnd
  {
  }

  lemma OpenCitationStated(key: string)
    ensures Stated(OpenCitation(key)) == OpenCitation(key)
  {
    hide StartsWith, Trim;
    var s := OpenCitation(key);
    assert s[0] == '\\' && s[1] == 'c' && s[|s| - 1] == '\\';
    TrimOfTrimmed(s);
    NotStarted(s, PRECONDITION_FLAG, 1);
  }

  lemma OpenCitationBody(env: Environment, key: string)
    requires PlainKey(key)
    ensures WellWritten(Statement(env, None, OpenCitation(key)))
  {
    hide Find, StartsWith, EnvEnd;
    var s, c := OpenCitation(key), EnvEnd(env);
    EnvEndShape(env);
    NotStarted(s, "[", 0);
    NotStarted(s, c, 1);
    FindStep(s, c);
    var inner := "cite{" + key;
    assert s[1..] == inner + "\\";
    FindPastOthers(inner, c, "\\");
    ShortText("\\", c);
  }

  lemma ShortText(s: string, needle: string)
    requires |s| < |needle|
    ensures Find(s, needle) == None
  {
  }

  /**
   * For every theorem environment and key: a citation that the environment's end leaves open behind a backslash. The
   * scan of the source is fine; lowering the environment fails.
   */
  lemma StatementRunsOut(env: Environment, key: string)
    requires PlainKey(key)
    ensures var src := EnvBegin(env) + OpenCitation(key) + EnvEnd(env);
      && Tokens(src, false) == Ok([TheoremEnv("", OpenCitation(key))]) && !ReachesOverrun(src, false)
      && Parsed(src).Err?
  {
    hide Tokens, ReachesOverrun, OpenCitation, WellWritten, EnvEnd, EnvBegin;
    var body := OpenCitation(key);
    var src := EnvBegin(env) + body + EnvEnd(env);
    var p := Statement(env, None, body);
    OpenCitationBody(env, key);
    assert [p][1..] == [];
    AloneInDocument(p);
    DocumentScanned([p]);
    assert EnvBegin(env) + "" + body + EnvEnd(env) == src;
    OverrunExactly(src, false);
    OpenCitationFails(key);
    OpenCitationStated(key);
    FailingStatement(body);
  }

  lemma AloneInDocument(p: Piece)
    ensures DocumentText([p]) == PieceText(p) && DocumentTokens([p]) == PieceTokens(p)
    ensures !p.Contract? ==> AllApart([p])
  {
    hide PieceText, PieceTokens;
    assert [p][1..] == [] && DocumentText([]) == "" && DocumentTokens([]) == [];
    assert PieceText(p) + "" == PieceText(p) && PieceTokens(p) + [] == PieceTokens(p);
  }

  lemma FailingStatement(body: string)
    requires Tokens(Stated(body), false).Err?
    ensures Obligations([TheoremEnv("", body)]).Err?
  {
    hide Tokens, Stated;
    assert [TheoremEnv("", body)][..0] == [];
    assert Obligations([]) == Ok([]);
    assert Stating(TheoremEnv("", body)).Err?;
  }
}
