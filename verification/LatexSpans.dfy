/** The formulas that an obligation's prose loses, against the formulas that its formal half holds. */
module LatexSpans {
  import opened Outcomes
  import opened Text
  import opened Search
  import opened LatexScanner
  import opened LatexObligations
  import opened LatexProofs
  import opened LatexLeaks
  import opened LatexDocuments

  datatype Extent = Extent(start: nat, length: nat)

  /** Where the scanner finds formulas. */
  function ScannedSpans(s: string, escaped: bool, at: nat): seq<Extent>
    decreases |s|
  {
    if s == "" then []
    else
      StepBounds(s, escaped);
      match StepAt(s, escaped)
      case Skip(n) => ScannedSpans(s[n..], s[n - 1] == '\\', at + n)
      case Emit(t, n) => (if t.Math? then [Extent(at, n)] else []) + ScannedSpans(s[n..], s[n - 1] == '\\', at + n)
      case _ => []
  }

  /** Where the prose loses spans. */
  function StrippedSpans(s: string, at: nat): seq<Extent>
    decreases |s|
  {
    if s == "" then []
    else
      match SpanLength(s)
      case Some(n) => [Extent(at, n)] + StrippedSpans(s[n..], at + n)
      case None => StrippedSpans(s[1..], at + 1)
  }

  predicate NoSpanWithin(s: string, n: nat)
    requires n <= |s|
  {
    forall k :: 0 <= k < n ==> SpanLength(s[k..]) == None
  }

  /**
   * Every formula the scanner finds is a span of the same length, so none is an environment, and in whatever it
   * passes over without a formula no span starts.
   */
  predicate InStep(s: string, escaped: bool)
    decreases |s|
  {
    s == "" || (
      StepBounds(s, escaped);
      match StepAt(s, escaped)
      case Skip(n) => NoSpanWithin(s, n) && InStep(s[n..], s[n - 1] == '\\')
      case Emit(t, n) =>
        (if t.Math? then SpanLength(s) == Some(n) else NoSpanWithin(s, n)) && InStep(s[n..], s[n - 1] == '\\')
      case _ => NoSpanWithin(s, |s|))
  }

  lemma {:induction false} PassedOver(s: string, n: nat, at: nat)
    requires n <= |s| && NoSpanWithin(s, n)
    ensures StrippedSpans(s, at) == StrippedSpans(s[n..], at + n)
    decreases n
  {
    hide SpanLength;
    if n > 0 {
      assert s[0..] == s;
      var t := s[1..];
      forall k | 0 <= k < n - 1 ensures SpanLength(t[k..]) == None {
        assert t[k..] == s[k + 1..];
      }
      PassedOver(t, n - 1, at + 1);
      assert t[n - 1..] == s[n..];
    } else {
      assert s[0..] == s;
    }
  }

  /** A span that starts within the first `n` characters is listed as starting there. */
  lemma {:induction false} StartsWithin(s: string, n: nat, at: nat)
    requires n <= |s| && !NoSpanWithin(s, n)
    ensures StrippedSpans(s, at) != [] && StrippedSpans(s, at)[0].start < at + n
    decreases n
  {
    hide SpanLength;
    var k :| 0 <= k < n && SpanLength(s[k..]) != None;
    if SpanLength(s) == None {
      assert s[0..] == s && k > 0;
      var t := s[1..];
      assert t[k - 1..] == s[k..];
      StartsWithin(t, n - 1, at + 1);
    }
  }

  lemma {:induction false} ScannedBehind(s: string, escaped: bool, at: nat)
    ensures forall i :: 0 <= i < |ScannedSpans(s, escaped, at)| ==> ScannedSpans(s, escaped, at)[i].start >= at
    decreases |s|
  {
    hide StepAt;
    if s != "" {
      StepBounds(s, escaped);
      match StepAt(s, escaped) {
        case Skip(n) => ScannedBehind(s[n..], s[n - 1] == '\\', at + n);
        case Emit(_, n) => ScannedBehind(s[n..], s[n - 1] == '\\', at + n);
        case _ =>
      }
    }
  }

  lemma {:induction false} StrippedBehind(s: string, at: nat)
    ensures forall i :: 0 <= i < |StrippedSpans(s, at)| ==> StrippedSpans(s, at)[i].start >= at
    decreases |s|
  {
    hide SpanLength;
    if s != "" {
      match SpanLength(s) {
        case Some(n) => StrippedBehind(s[n..], at + n);
        case None => StrippedBehind(s[1..], at + 1);
      }
    }
  }

  lemma ScannedStep(s: string, escaped: bool, at: nat)
    requires s != ""
    ensures match StepAt(s, escaped)
      case Skip(n) => 0 < n <= |s| && ScannedSpans(s, escaped, at) == ScannedSpans(s[n..], s[n - 1] == '\\', at + n)
      case Emit(t, n) =>
        0 < n <= |s|
        && ScannedSpans(s, escaped, at)
           == (if t.Math? then [Extent(at, n)] else []) + ScannedSpans(s[n..], s[n - 1] == '\\', at + n)
      case _ => ScannedSpans(s, escaped, at) == []
  {
    hide StepAt;
    StepBounds(s, escaped);
  }

  lemma InStepStep(s: string, escaped: bool)
    requires s != ""
    ensures match StepAt(s, escaped)
      case Skip(n) => 0 < n <= |s| && (InStep(s, escaped) <==> NoSpanWithin(s, n) && InStep(s[n..], s[n - 1] == '\\'))
      case Emit(t, n) =>
        0 < n <= |s|
        && (InStep(s, escaped) <==>
            (if t.Math? then SpanLength(s) == Some(n) else NoSpanWithin(s, n)) && InStep(s[n..], s[n - 1] == '\\'))
      case _ => InStep(s, escaped) <==> NoSpanWithin(s, |s|)
  {
    hide StepAt, SpanLength, NoSpanWithin;
    StepBounds(s, escaped);
  }

  /** The prose loses exactly the formulas of the formal half exactly when the two are in step. */
  lemma {:induction false} SpansAgreeExactly(s: string, escaped: bool, at: nat)
    ensures ScannedSpans(s, escaped, at) == StrippedSpans(s, at) <==> InStep(s, escaped)
    decreases |s|
  {
    hide StepAt, SpanLength, NoSpanWithin, ScannedSpans, StrippedSpans, InStep;
    if s == "" {
      NothingAgrees(escaped, at);
    } else {
      ScannedStep(s, escaped, at);
      InStepStep(s, escaped);
      var step := StepAt(s, escaped);
      if step.Skip? || step.Emit? {
        var n := step.length;
        var rest, e := s[n..], s[n - 1] == '\\';
        SpansAgreeExactly(rest, e, at + n);
        BothPassOver(s, escaped, n, at);
        FormulaIsSpan(s, escaped, n, at);
        assert [] + ScannedSpans(rest, e, at + n) == ScannedSpans(rest, e, at + n);
      } else {
        NothingScanned(s, at);
      }
    }
  }

  lemma NothingAgrees(escaped: bool, at: nat)
    ensures ScannedSpans("", escaped, at) == StrippedSpans("", at) && InStep("", escaped)
  {
  }

  lemma NothingScanned(s: string, at: nat)
    ensures StrippedSpans(s, at) == [] <==> NoSpanWithin(s, |s|)
  {
    hide SpanLength, NoSpanWithin;
    if NoSpanWithin(s, |s|) {
      PassedOver(s, |s|, at);
      assert s[|s|..] == "";
    } else {
      StartsWithin(s, |s|, at);
    }
  }

  lemma BothPassOver(s: string, escaped: bool, n: nat, at: nat)
    requires 0 < n <= |s|
    ensures var scanned := ScannedSpans(s[n..], s[n - 1] == '\\', at + n);
      scanned == StrippedSpans(s, at) <==> NoSpanWithin(s, n) && scanned == StrippedSpans(s[n..], at + n)
  {
    hide StepAt, SpanLength, NoSpanWithin, ScannedSpans, StrippedSpans;
    if NoSpanWithin(s, n) {
      PassedOver(s, n, at);
    } else {
      StartsWithin(s, n, at);
      ScannedBehind(s[n..], s[n - 1] == '\\', at + n);
    }
  }

  lemma FormulaIsSpan(s: string, escaped: bool, n: nat, at: nat)
    requires 0 < n <= |s|
    ensures var rest := ScannedSpans(s[n..], s[n - 1] == '\\', at + n);
      [Extent(at, n)] + rest == StrippedSpans(s, at) <==>
      SpanLength(s) == Some(n) && rest == StrippedSpans(s[n..], at + n)
  {
    hide SpanLength, ScannedSpans;
    var rest := ScannedSpans(s[n..], s[n - 1] == '\\', at + n);
    var all := [Extent(at, n)] + rest;
    assert all[0] == Extent(at, n) && all[1..] == rest;
    if SpanLength(s) == None {
      StrippedBehind(s[1..], at + 1);
    } else {
      var m := SpanLength(s).value;
      var more := StrippedSpans(s[m..], at + m);
      assert ([Extent(at, m)] + more)[0] == Extent(at, m) && ([Extent(at, m)] + more)[1..] == more;
    }
  }

  // ---- where they are not in step ----

  /** No character starts a span. */
  predicate SpanFree(s: string) {
    forall i :: 0 <= i < |s| ==> StartsNoSpan(s, i)
  }

  predicate StartsNoSpan(s: string, i: nat)
    requires i < |s|
  {
    s[i] != '$' && (s[i] == '\\' ==> i + 1 < |s| && s[i + 1] !in {'(', '['})
  }

  lemma SpanFreeStart(s: string)
    requires s != "" && SpanFree(s)
    ensures SpanLength(s) == None
  {
    hide StartsWith;
    assert StartsNoSpan(s, 0);
    NotStarted(s, "$", 0);
    if s[0] == '\\' {
      NotStarted(s, "\\(", 1);
      NotStarted(s, "\\[", 1);
    } else {
      NotStarted(s, "\\(", 0);
      NotStarted(s, "\\[", 0);
    }
  }

  lemma {:induction false} SpanFreeKept(s: string)
    requires SpanFree(s)
    ensures WithoutSpans(s) == s
  {
    hide SpanLength;
    if s != "" {
      SpanFreeStart(s);
      forall i | 0 <= i < |s| - 1 ensures StartsNoSpan(s[1..], i) {
        assert StartsNoSpan(s, i + 1);
      }
      SpanFreeKept(s[1..]);
    }
  }

  lemma OneWord(s: string)
    requires Solid(s)
    ensures Words(s) == [s]
  {
    FirstWordAlone(s);
    DropWordOf("", s, "");
    assert "" + s + "" == s;
    assert FirstWord("") == "" && Words("") == [];
  }

  lemma OneBackslash(t: string)
    requires |t| > 1 && t[0] == '\\' && t[1] !in {'(', '['} && '\\' !in t[1..] && '$' !in t
    ensures SpanFree(t)
  {
    forall i | 0 < i < |t| ensures t[i] != '\\' {
      assert t[1..][i - 1] == t[i];
    }
  }

  lemma SpanFreeAppend(a: string, b: string)
    requires SpanFree(a) && SpanFree(b)
    ensures SpanFree(a + b)
  {
    forall i | 0 <= i < |a + b| ensures StartsNoSpan(a + b, i) {
      if i < |a| {
        assert StartsNoSpan(a, i);
      } else {
        assert StartsNoSpan(b, i - |a|);
      }
    }
  }

  lemma EquationShape()
    ensures var o, c := "\\begin{equation}", "\\end{equation}"; SpanFree(o) && SpanFree(c) && Solid(o) && Solid(c)
  {
    hide SpanFree;
    OneBackslash("\\begin{equation}");
    OneBackslash("\\end{equation}");
  }

  lemma AlignShape()
    ensures var o, c := "\\begin{align}", "\\end{align}"; SpanFree(o) && SpanFree(c) && Solid(o) && Solid(c)
  {
    hide SpanFree;
    OneBackslash("\\begin{align}");
    OneBackslash("\\end{align}");
  }

  lemma GatherShape()
    ensures var o, c := "\\begin{gather}", "\\end{gather}"; SpanFree(o) && SpanFree(c) && Solid(o) && Solid(c)
  {
    hide SpanFree;
    OneBackslash("\\begin{gather}");
    OneBackslash("\\end{gather}");
  }

  lemma EnvironmentShape(kind: MathKind)
    requires kind in {EquationEnv, Align, Gather}
    ensures SpanFree(Opener(kind)) && SpanFree(Closer(kind)) && Solid(Opener(kind)) && Solid(Closer(kind))
  {
    hide SpanFree;
    match kind {
      case EquationEnv => EquationShape();
      case Align => AlignShape();
      case Gather => GatherShape();
    }
  }

  lemma EnvironmentText(kind: MathKind)
    requires kind in {EquationEnv, Align, Gather}
    ensures var s := Opener(kind) + "x" + Closer(kind); SpanFree(s) && Solid(s)
    ensures WellWritten(Formula(kind, "x"))
  {
    hide Find, Opener, Closer, StartsWith;
    ClosersDiffer(kind);
    FindAbsent("x", Closer(kind));
    EnvironmentShape(kind);
    assert SpanFree("x");
    SpanFreeAppend(Opener(kind), "x");
    SpanFreeAppend(Opener(kind) + "x", Closer(kind));
  }

  /** An equation environment is a formula of the formal half and stays in the prose as it is. */
  lemma EnvironmentStays(kind: MathKind)
    requires kind in {EquationEnv, Align, Gather}
    ensures var s := Opener(kind) + "x" + Closer(kind);
      && Tokens(s, false) == Ok([Math(kind, "x")]) && Formal(MathOf([Math(kind, "x")])) == "x"
      && Property(s) == s && !InStep(s, false)
  {
    hide StepAt, Opener, Closer, SpanLength, SpanFree, Words, WithoutSpans, Tokens;
    var s := Opener(kind) + "x" + Closer(kind);
    EnvironmentText(kind);
    FormulaScanned(kind, "x", "");
    assert PieceText(Formula(kind, "x")) + "" == s;
    SpanFreeStart(s);
    SpanFreeKept(s);
    OneWord(s);
    TokensStep(s, false);
    AloneScanned(kind, s);
    OneFormula(kind);
  }

  lemma AloneScanned(kind: MathKind, s: string)
    ensures s[|s|..] == "" && forall e :: Tokens(s[|s|..], e) == Ok([])
    ensures After<Token, Crash>([Math(kind, "x")], Ok([])) == Ok([Math(kind, "x")])
  {
    assert [Math(kind, "x")] + [] == [Math(kind, "x")];
  }

  lemma OneFormula(kind: MathKind)
    ensures Formal(MathOf([Math(kind, "x")])) == "x"
  {
    assert [Math(kind, "x")][..0] == [] && MathOf([]) == [];
    TrimOfTrimmed("x");
    assert MathOf([]) + ["x"] == ["x"];
  }
}
