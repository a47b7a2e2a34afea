/** Exactly when the LaTeX scan moves its position past the end of the source. */
module LatexOverruns {
  import opened Outcomes
  import opened Text
  import opened Splicer
  import opened LatexScanner
  import opened LatexProofs

  /** The text and escape flag after `k` steps, if the scan gets that far. */
  function Remaining(s: string, escaped: bool, k: nat): Option<(string, bool)>
    decreases k
  {
    if k == 0 then Some((s, escaped))
    else if s == "" then None
    else
      StepBounds(s, escaped);
      match StepAt(s, escaped)
      case Skip(n) => Remaining(s[n..], s[n - 1] == '\\', k - 1)
      case Emit(_, n) => Remaining(s[n..], s[n - 1] == '\\', k - 1)
      case _ => None
  }

  /** An argument that the source's end leaves open behind a backslash without a partner. */
  predicate EndsInBackslash(argument: string) {
    !CloseBrace(argument, 1).Closed? && TailRun(argument) % 2 == 1
  }

  /** A citation stands here, and its argument, or the second one of a contract, ends so. */
  predicate RunsOut(s: string, escaped: bool) {
    s != "" &&
    match OpeningOf(s, escaped)
    case CiteOpen => EndsInBackslash(s[|CITE|..])
    case ContractOpen =>
      var w := s[|CONTRACT|..];
      if CloseBrace(w, 1).Closed? then
        var r := w[CloseBrace(w, 1).at + 1..];
        StartsWith(r, "{") && EndsInBackslash(r[1..])
      else EndsInBackslash(w)
    case _ => false
  }

  lemma TailRunOfPair(c: char, rest: string)
    ensures TailRun("\\" + [c] + rest) % 2 == TailRun(rest) % 2
  {
    var pair := "\\" + [c];
    TailRunAppend(pair, rest);
    TailRunShape(pair);
    TailRunAppend("\\", [c]);
    assert TailRun("\\") == 1 + TailRun("") by { assert "\\"[..0] == ""; }
    assert c == '\\' ==> TailRun([c]) == 1;
  }

  lemma TailRunOfOther(c: char, rest: string)
    requires c != '\\'
    ensures TailRun([c] + rest) == TailRun(rest)
  {
    TailRunAppend([c], rest);
  }

  /** The brace scan passes the end exactly on an unclosed argument with an odd run of backslashes at its end. */
  lemma {:induction false} PastEndExactly(w: string, depth: nat)
    requires depth > 0
    ensures CloseBrace(w, depth) == PastEnd <==> !CloseBrace(w, depth).Closed? && TailRun(w) % 2 == 1
    decreases |w|
  {
    hide TailRun;
    if w == "" {
      assert TailRun("") == 0 by { NoTail(); }
    } else if w[0] == '\\' {
      if |w| == 1 {
        LoneBackslashContinues();
        assert w == "\\";
      } else {
        assert w == "\\" + [w[1]] + w[2..];
        TailRunOfPair(w[1], w[2..]);
        PastEndExactly(w[2..], depth);
      }
    } else {
      assert w == [w[0]] + w[1..];
      TailRunOfOther(w[0], w[1..]);
      if w[0] == '{' {
        PastEndExactly(w[1..], depth + 1);
      } else if w[0] != '}' {
        PastEndExactly(w[1..], depth);
      } else if depth > 1 {
        PastEndExactly(w[1..], depth - 1);
      }
    }
  }

  lemma NoTail()
    ensures TailRun("") == 0
  {
  }

  lemma StepOverrunsExactly(s: string, escaped: bool)
    requires s != ""
    ensures StepAt(s, escaped) == Overrun <==> RunsOut(s, escaped)
  {
    hide CloseBrace, OpeningOf, TheoremStep, UpTo, TailRun;
    if OpeningOf(s, escaped) == ContractOpen {
      var w := s[|CONTRACT|..];
      PastEndExactly(w, 1);
      ContractOverruns(s);
      if CloseBrace(w, 1).Closed? && StartsWith(w[CloseBrace(w, 1).at + 1..], "{") {
        PastEndExactly(w[CloseBrace(w, 1).at + 1..][1..], 1);
      }
    } else if OpeningOf(s, escaped) == CiteOpen {
      PastEndExactly(s[|CITE|..], 1);
    } else {
      TheoremNeverOverruns(s, escaped);
    }
  }

  lemma ContractOverruns(s: string)
    requires StartsWith(s, CONTRACT)
    ensures var w := s[|CONTRACT|..];
      ContractStep(s) == Overrun <==>
      if CloseBrace(w, 1).Closed? then
        var r := w[CloseBrace(w, 1).at + 1..]; StartsWith(r, "{") && CloseBrace(r[1..], 1) == PastEnd
      else CloseBrace(w, 1) == PastEnd
  {
    hide CloseBrace;
    var w := s[|CONTRACT|..];
    if CloseBrace(w, 1).Closed? {
      var at := CloseBrace(w, 1).at;
      assert s[|CONTRACT| + at + 1..] == w[at + 1..];
    }
  }

  lemma RemainingStep(s: string, escaped: bool, k: nat)
    requires s != "" && (StepAt(s, escaped).Skip? || StepAt(s, escaped).Emit?)
    ensures var n := StepAt(s, escaped).length;
      0 < n <= |s| && Remaining(s, escaped, k + 1) == Remaining(s[n..], s[n - 1] == '\\', k)
  {
    hide StepAt;
    StepBounds(s, escaped);
  }

  ghost predicate ReachesOverrun(s: string, escaped: bool) {
    exists k: nat :: Remaining(s, escaped, k).Some?
      && RunsOut(Remaining(s, escaped, k).value.0, Remaining(s, escaped, k).value.1)
  }

  /** The scan fails exactly when one of its steps stands at a citation that runs out. */
  lemma {:induction false} OverrunExactly(s: string, escaped: bool)
    ensures Tokens(s, escaped) == Err(OutOfBounds) <==> ReachesOverrun(s, escaped)
    ensures Tokens(s, escaped).Ok? <==> !ReachesOverrun(s, escaped)
    decreases |s|
  {
    hide StepAt, RunsOut, Tokens;
    assert Remaining(s, escaped, 0) == Some((s, escaped));
    if s == "" {
      NothingLeft(escaped);
      NothingRunsOut(escaped);
    } else {
      StepOverrunsExactly(s, escaped);
      TokensStep(s, escaped);
      var step := StepAt(s, escaped);
      if step.Skip? || step.Emit? {
        var t, f := s[step.length..], s[step.length - 1] == '\\';
        OverrunExactly(t, f);
        forall k: nat ensures Remaining(s, escaped, k + 1) == Remaining(t, f, k) {
          RemainingStep(s, escaped, k);
        }
        ReachedLater(s, escaped, t, f);
      } else {
        StopsThere(s, escaped);
      }
    }
  }

  lemma NothingRunsOut(escaped: bool)
    ensures !RunsOut("", escaped)
    ensures forall k: nat :: k > 0 ==> Remaining("", escaped, k) == None
  {
  }

  lemma ReachedLater(s: string, escaped: bool, t: string, f: bool)
    requires !RunsOut(s, escaped) && forall k: nat :: Remaining(s, escaped, k + 1) == Remaining(t, f, k)
    ensures ReachesOverrun(s, escaped) <==> ReachesOverrun(t, f)
  {
    hide RunsOut;
    assert Remaining(s, escaped, 0) == Some((s, escaped));
    if ReachesOverrun(s, escaped) {
      var k: nat :| Remaining(s, escaped, k).Some?
        && RunsOut(Remaining(s, escaped, k).value.0, Remaining(s, escaped, k).value.1);
      assert k > 0;
      assert Remaining(s, escaped, (k - 1) + 1) == Remaining(t, f, k - 1);
    }
    if ReachesOverrun(t, f) {
      var k: nat :| Remaining(t, f, k).Some?
        && RunsOut(Remaining(t, f, k).value.0, Remaining(t, f, k).value.1);
      assert Remaining(s, escaped, k + 1) == Remaining(t, f, k);
    }
  }

  lemma StopsThere(s: string, escaped: bool)
    requires s != "" && !StepAt(s, escaped).Skip? && !StepAt(s, escaped).Emit?
    ensures ReachesOverrun(s, escaped) <==> RunsOut(s, escaped)
  {
    hide StepAt, RunsOut;
    assert Remaining(s, escaped, 0) == Some((s, escaped));
    assert forall k: nat :: k > 0 ==> Remaining(s, escaped, k) == None;
  }

  /** The shortest source that fails: a citation with nothing but a backslash in it. */
  lemma CiteOverruns()
    ensures Tokens(CITE + "\\", false) == Err(OutOfBounds)
  {
    hide OpeningOf, TailRun;
    var s := CITE + "\\";
    CiteOpens(s);
    assert s[|CITE|..] == "\\";
    LoneBackslashContinues();
    PastEndExactly("\\", 1);
    StepOverrunsExactly(s, false);
    TokensStep(s, false);
  }

  lemma CiteOpens(s: string)
    requires s == CITE + "\\"
    ensures OpeningOf(s, false) == CiteOpen
  {
    hide StartsWith, EnvBegin;
    assert s[0] == '\\' && s[1] == 'c';
    NotStarted(s, "%", 0);
    NotStarted(s, Opener(Display), 1);
    NotStarted(s, Opener(EquationEnv), 1);
    NotStarted(s, Opener(Align), 1);
    NotStarted(s, Opener(Gather), 1);
    NotStarted(s, PROOF_BEGIN, 1);
    NotStarted(s, CONTRACT, 1);
    Started(CITE, "\\");
  }
}
