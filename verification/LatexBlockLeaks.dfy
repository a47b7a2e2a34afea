/** Exactly which text in front of a proof lets its body leak into the parsed block. */
module LatexBlockLeaks {
  import opened Outcomes
  import opened LatexScanner
  import opened LatexBlocks
  import opened LatexProofs
  import opened LatexLeaks

  /** No two closer-free proof bodies, and no text behind them, make a difference to the block behind `pre`. */
  ghost predicate KeepsBlocks(pre: string) {
    forall b1: string, b2: string, post: string | NoCloser(b1) && NoCloser(b2) ::
      Parsed(pre + (Proof(b1) + post)) == Parsed(pre + (Proof(b2) + post))
  }

  lemma SameTokensSameBlock(a: string, b: string)
    requires Tokens(a, false) == Tokens(b, false)
    ensures Parsed(a) == Parsed(b)
  {
    hide Tokens, Obligations, Formulas, Citations, References, Equations;
  }

  /** A theorem in front that cannot be lowered fails the parse whatever comes behind. */
  lemma FrontFails(pre: string, u: string)
    requires Obligations(Front(pre, false)).Err? && (u == "" || u[0] == '\\')
    ensures Parsed(pre + u) == Err(OutOfBounds)
  {
    hide Tokens, Obligations, Formulas, Citations, References, Equations, Front, Stuck;
    StuckPrefix(pre, u, false);
    var (y, e) := Stuck(pre, false);
    if Tokens(y + u, e).Ok? {
      FailureStays(Front(pre, false), Tokens(y + u, e).value);
      OneCrash(Obligations(Front(pre, false)).error, OutOfBounds);
    } else {
      OneCrash(Tokens(y + u, e).error, OutOfBounds);
    }
  }

  lemma {:induction false} ObligationsAppend(a: seq<Token>, b: seq<Token>)
    requires Obligations(a).Ok?
    ensures Obligations(a + b) ==
            if Obligations(b).Ok? then Ok(Obligations(a).value + Obligations(b).value) else Obligations(b)
    decreases |b|
  {
    hide Stating;
    if b == [] {
      assert a + b == a;
      assert Obligations(a).value + [] == Obligations(a).value;
    } else {
      var n := |b| - 1;
      assert (a + b)[..|a + b| - 1] == a + b[..n] && (a + b)[|a + b| - 1] == b[n];
      ObligationsAppend(a, b[..n]);
      if Obligations(b).Ok? {
        Associative(Obligations(a).value, Obligations(b[..n]).value, Stating(b[n]).value);
      }
    }
  }

  lemma SamePrefix<T>(front: seq<T>, a: seq<T>, b: seq<T>)
    ensures front + a == front + b <==> a == b
  {
    if front + a == front + b {
      assert a == (front + a)[|front|..] && b == (front + b)[|front|..];
    }
  }

  /** What differs behind the same tokens still differs. */
  lemma RevealedBehind(front: seq<Token>, a: Scanned, b: Scanned)
    requires Obligations(front).Ok? && Revealing(a, b)
    ensures Revealing(After(front, a), After(front, b))
  {
    hide Obligations, Formulas, Citations, References;
    ObligationsAppend(front, a.value);
    if b.Ok? {
      FormulasAppend(front, a.value);
      OthersAppend(front, a.value);
      FormulasAppend(front, b.value);
      OthersAppend(front, b.value);
      ObligationsAppend(front, b.value);
      SamePrefix(Citations(front), Citations(a.value), Citations(b.value));
      SamePrefix(References(front), References(a.value), References(b.value));
      if Obligations(b.value).Ok? {
        SamePrefix(Obligations(front).value, Obligations(a.value).value, Obligations(b.value).value);
      }
    }
  }

  lemma RevealedBlocks(a: string, b: string)
    requires Revealing(Tokens(a, false), Tokens(b, false))
    ensures Parsed(a).Ok? && Parsed(a) != Parsed(b)
  {
    hide Tokens, Obligations, Formulas, Citations, References, Equations, HoldsFormulas;
    if Tokens(b, false).Ok? {
      EquationCount(Formulas(Tokens(a, false).value));
      EquationCount(Formulas(Tokens(b, false).value));
    }
  }

  lemma EquationCount(fs: seq<(MathKind, string)>)
    ensures |Equations(fs)| == |fs|
  {
    EquationsHold(fs);
  }

  /**
   * Proof bodies behind `pre` make no difference to the block exactly when `pre` is settled, or ends inside a proof,
   * or holds a theorem that fails the parse in any case.
   */
  lemma BlocksKeptExactly(pre: string)
    ensures KeepsBlocks(pre) <==>
            Settled(pre, false) || InsideProof(pre) || Obligations(Front(pre, false)).Err?
  {
    hide Tokens, Settled, Complete, OpeningOf, Stuck, NoCloser, Proof, Obligations, Front, Parsed, Revealing;
    if Obligations(Front(pre, false)).Err? {
      forall b1: string, b2: string, post: string | NoCloser(b1) && NoCloser(b2)
        ensures Parsed(pre + (Proof(b1) + post)) == Parsed(pre + (Proof(b2) + post))
      {
        ProofText(b1);
        ProofText(b2);
        FrontFails(pre, Proof(b1) + post);
        FrontFails(pre, Proof(b2) + post);
      }
    } else if Settled(pre, false) || InsideProof(pre) {
      ProofsKeptExactly(pre);
      forall b1: string, b2: string, post: string | NoCloser(b1) && NoCloser(b2)
        ensures Parsed(pre + (Proof(b1) + post)) == Parsed(pre + (Proof(b2) + post))
      {
        SameTokensSameBlock(pre + (Proof(b1) + post), pre + (Proof(b2) + post));
      }
    } else {
      SettledIsUnstuck(pre, false);
      StuckIsIncomplete(pre, false);
      var (y, e) := Stuck(pre, false);
      var b1, b2 := SomethingLeaks(y, e);
      BlocksBehind(pre, b1, b2);
      assert NoCloser(b1) && NoCloser(b2);
    }
  }

  lemma BlocksBehind(pre: string, b1: string, b2: string)
    requires Obligations(Front(pre, false)).Ok?
    requires var (y, e) := Stuck(pre, false); Leaking(y, e, b1, b2)
    ensures NoCloser(b1) && NoCloser(b2)
    ensures Parsed(pre + (Proof(b1) + "")) != Parsed(pre + (Proof(b2) + ""))
  {
    hide Tokens, Stuck, NoCloser, Front, Obligations, Revealing;
    var (y, e) := Stuck(pre, false);
    assert Proof(b1) + "" == Proof(b1) && Proof(b2) + "" == Proof(b2);
    ProofText(b1);
    ProofText(b2);
    StuckPrefix(pre, Proof(b1), false);
    StuckPrefix(pre, Proof(b2), false);
    RevealedBehind(Front(pre, false), Tokens(y + Proof(b1), e), Tokens(y + Proof(b2), e));
    RevealedBlocks(pre + Proof(b1), pre + Proof(b2));
  }
}
