/** `parse_to_equations`: the scanned tokens as a block, every equation under its own key. */
module LatexBlocks {
  import opened Outcomes
  import opened Text
  import opened LatexScanner
  import opened LatexObligations

  datatype Block = Block(
    equations: map<string, string>,
    obligations: seq<Obligation>,
    citations: seq<string>,
    references: seq<string>)

  function KindName(kind: MathKind): string {
    match kind
    case Inline => "inline"
    case Display => "display"
    case EquationEnv => "equation"
    case Align => "align"
    case Gather => "gather"
    case Paren => "paren"
  }

  function Key(kind: MathKind, index: nat): string {
    "eq_" + KindName(kind) + "_" + DecimalText(index)
  }

  // ---- what a block must hold, read off the tokens ----

  function Formulas(ts: seq<Token>): seq<(MathKind, string)> {
    if ts == [] then []
    else
      var t := ts[|ts| - 1];
      Formulas(ts[..|ts| - 1]) + if t.Math? then [(t.kind, t.formula)] else []
  }

  /** The obligations in order; the first one whose statement the scanner leaves ends it all. */
  function Obligations(ts: seq<Token>): Result<seq<Obligation>, Crash> {
    if ts == [] then Ok([])
    else
      var before :- Obligations(ts[..|ts| - 1]);
      var more :- Stating(ts[|ts| - 1]);
      Ok(before + more)
  }

  function Stating(t: Token): Result<seq<Obligation>, Crash> {
    if t.TheoremEnv? then
      var o :- Lowered(t.title, t.body);
      Ok([o])
    else Ok([])
  }

  function Citations(ts: seq<Token>): seq<string> {
    if ts == [] then []
    else
      var t := ts[|ts| - 1];
      Citations(ts[..|ts| - 1]) + if t.XpileContract? then [t.id] else []
  }

  function References(ts: seq<Token>): seq<string> {
    if ts == [] then []
    else
      var t := ts[|ts| - 1];
      References(ts[..|ts| - 1]) + if t.Cite? then [t.key] else []
  }

  /** Exactly one equation for each formula, trimmed, under the key of its kind and position. */
  predicate HoldsFormulas(equations: map<string, string>, fs: seq<(MathKind, string)>) {
    |equations| == |fs|
    && (forall i :: 0 <= i < |fs| ==> Key(fs[i].0, i) in equations && equations[Key(fs[i].0, i)] == Trim(fs[i].1))
    && forall key :: key in equations ==> exists i :: 0 <= i < |fs| && key == Key(fs[i].0, i)
  }

  /** Nothing but what the tokens say, and the citations and references in their order. */
  predicate Says(block: Block, ts: seq<Token>) {
    HoldsFormulas(block.equations, Formulas(ts))
    && Obligations(ts) == Ok(block.obligations)
    && block.citations == Citations(ts)
    && block.references == References(ts)
  }

  // ---- keys ----

  /** A numeral holds no underscore, so the last one of a key stands before its index. */
  lemma KeyShape(kind: MathKind, index: nat)
    ensures var key, n := Key(kind, index), |DecimalText(index)|;
      |key| > n && key[|key| - n - 1] == '_' && key[|key| - n..] == DecimalText(index)
      && forall j :: |key| - n <= j < |key| ==> key[j] != '_'
  {
    hide KindName, DecimalText;
    var key, n := Key(kind, index), |DecimalText(index)|;
    forall j | |key| - n <= j < |key| ensures key[j] != '_' {
      assert key[j] == DecimalText(index)[j - (|key| - n)];
    }
  }

  /** The index can be read back from a key, whatever the kinds are. */
  lemma KeyDeterminesIndex(k1: MathKind, i1: nat, k2: MathKind, i2: nat)
    requires Key(k1, i1) == Key(k2, i2)
    ensures i1 == i2
  {
    hide Key, DecimalText;
    KeyShape(k1, i1);
    KeyShape(k2, i2);
    assert |DecimalText(i1)| == |DecimalText(i2)|;
    DecimalReadBack(i1);
    DecimalReadBack(i2);
  }

  // ---- the loop ----

  /** A formula more, under a key that no earlier formula has. */
  lemma Inserted(equations: map<string, string>, kind: MathKind, formula: string, fs: seq<(MathKind, string)>)
    requires HoldsFormulas(equations, fs)
    ensures HoldsFormulas(equations[Key(kind, |fs|) := Trim(formula)], fs + [(kind, formula)])
  {
    hide Key, Trim;
    var key, index := Key(kind, |fs|), |fs|;
    var inserted := equations[key := Trim(formula)];
    var more := fs + [(kind, formula)];
    assert more[index] == (kind, formula);
    assert key !in equations && forall i :: 0 <= i < |fs| ==> Key(fs[i].0, i) != key by {
      forall i | 0 <= i < |fs| ensures Key(fs[i].0, i) != key {
        if Key(fs[i].0, i) == key {
          KeyDeterminesIndex(fs[i].0, i, kind, index);
        }
      }
    }
    forall k | k in inserted ensures exists i :: 0 <= i < |more| && k == Key(more[i].0, i) {
      if k == key {
        assert k == Key(more[index].0, index);
      } else {
        var i :| 0 <= i < |fs| && k == Key(fs[i].0, i);
        assert k == Key(more[i].0, i);
      }
    }
    forall i | 0 <= i < |more|
      ensures Key(more[i].0, i) in inserted && inserted[Key(more[i].0, i)] == Trim(more[i].1)
    {
      if i < |fs| {
        assert more[i] == fs[i];
      }
    }
  }

  method InsertMathEquation(equations: map<string, string>, index: nat, kind: MathKind, formula: string,
      ghost fs: seq<(MathKind, string)>)
    returns (inserted: map<string, string>)
    requires HoldsFormulas(equations, fs) && index == |fs|
    ensures HoldsFormulas(inserted, fs + [(kind, formula)])
  {
    hide HoldsFormulas;
    Inserted(equations, kind, formula, fs);
    return equations[Key(kind, index) := Trim(formula)];
  }

  // ---- the block as a function of the source ----

  function Equations(fs: seq<(MathKind, string)>): map<string, string> {
    if fs == [] then map[]
    else
      var n := |fs| - 1;
      Equations(fs[..n])[Key(fs[n].0, n) := Trim(fs[n].1)]
  }

  lemma {:induction false} EquationsHold(fs: seq<(MathKind, string)>)
    ensures HoldsFormulas(Equations(fs), fs)
  {
    hide Key, Trim;
    if fs != [] {
      var n := |fs| - 1;
      EquationsHold(fs[..n]);
      Inserted(Equations(fs[..n]), fs[n].0, fs[n].1, fs[..n]);
      assert fs[..n] + [(fs[n].0, fs[n].1)] == fs;
    }
  }

  /** Fails where the scan of the source, or of the statement of one of its theorem environments, runs out. */
  function Parsed(src: string): Result<Block, Crash> {
    var ts :- Tokens(src, false);
    var obligations :- Obligations(ts);
    Ok(Block(Equations(Formulas(ts)), obligations, Citations(ts), References(ts)))
  }

  lemma Appended(ts: seq<Token>, t: Token)
    ensures Formulas(ts + [t]) == if t.Math? then Formulas(ts) + [(t.kind, t.formula)] else Formulas(ts)
    ensures Obligations(ts + [t]) ==
            if Obligations(ts).Err? then Obligations(ts)
            else if Stating(t).Err? then Stating(t)
            else Ok(Obligations(ts).value + Stating(t).value)
    ensures Citations(ts + [t]) == if t.XpileContract? then Citations(ts) + [t.id] else Citations(ts)
    ensures References(ts + [t]) == if t.Cite? then References(ts) + [t.key] else References(ts)
  {
    hide Lowered;
    assert (ts + [t])[..|ts + [t]| - 1] == ts;
  }

  method LowerToken(before: Block, index: nat, t: Token, ghost ts: seq<Token>)
    returns (r: Result<Block, Crash>, next: nat)
    requires Says(before, ts) && index == |Formulas(ts)|
    ensures match r
      case Ok(block) => Says(block, ts + [t]) && next == |Formulas(ts + [t])|
      case Err(e) => Obligations(ts + [t]) == Err(e)
  {
    hide HoldsFormulas, Formulas, Obligations, Citations, References, Lowered;
    Appended(ts, t);
    var block := before;
    next := index;
    assert before.obligations + [] == before.obligations;
    match t {
      case Math(kind, formula) =>
        var equations := InsertMathEquation(block.equations, index, kind, formula, Formulas(ts));
        block := block.(equations := equations);
        next := index + 1;
      case TheoremEnv(title, body) =>
        var o := LowerTheoremEnv(title, body);
        if o.Err? {
          return Err(o.error), next;
        }
        block := block.(obligations := block.obligations + [o.value]);
      case ProofEnv =>
      case XpileContract(id) =>
        block := block.(citations := block.citations + [id]);
      case Cite(key) =>
        block := block.(references := block.references + [key]);
    }
    return Ok(block), next;
  }

  lemma {:induction false} FailureStays(ts: seq<Token>, more: seq<Token>)
    requires Obligations(ts).Err?
    ensures Obligations(ts + more) == Obligations(ts)
    decreases |more|
  {
    hide Stating;
    if more == [] {
      assert ts + more == ts;
    } else {
      var init := more[..|more| - 1];
      assert (ts + more)[..|ts + more| - 1] == ts + init;
      FailureStays(ts, init);
    }
  }

  /**
   * On every source: the failure, or one equation for each top-level formula, none overwritten, and the rest in
   * source order.
   */
  method ParseToEquations(src: string) returns (r: Result<Block, Crash>)
    ensures r == Parsed(src)
    ensures r.Ok? ==> Tokens(src, false).Ok? && Says(r.value, Tokens(src, false).value)
  {
    hide Tokens, HoldsFormulas, Formulas, Obligations, Citations, References;
    var block := Block(map[], [], [], []);
    var index := 0;
    var scanner := new Scanner(src);
    ghost var ts: seq<Token> := [];
    AfterNothing(Tokens(src, false));
    SaysNothing();
    while true
      invariant scanner.Valid()
      invariant Tokens(src, false) == After(ts, Tokens(scanner.Rest(), scanner.Escaped()))
      invariant index == |Formulas(ts)| && Says(block, ts)
      modifies scanner
      decreases |src| - scanner.pos
    {
      var next := scanner.NextToken();
      if next.Err? {
        return Err(next.error);
      }
      if next.value == None {
        assert ts + [] == ts;
        ParsedSays(src);
        OneBlock(block, Parsed(src).value, ts);
        return Ok(block);
      }
      AfterAfter(ts, [next.value.value], Tokens(scanner.Rest(), scanner.Escaped()));
      var lowered;
      lowered, index := LowerToken(block, index, next.value.value, ts);
      ts := ts + [next.value.value];
      if lowered.Err? {
        if Tokens(scanner.Rest(), scanner.Escaped()).Ok? {
          FailureStays(ts, Tokens(scanner.Rest(), scanner.Escaped()).value);
        } else {
          OneCrash(Tokens(scanner.Rest(), scanner.Escaped()).error, lowered.error);
        }
        return Err(lowered.error);
      }
      block := lowered.value;
    }
  }

  lemma OneCrash(a: Crash, b: Crash)
    ensures a == b
  {
  }

  lemma ParsedSays(src: string)
    ensures Parsed(src).Ok? ==> Says(Parsed(src).value, Tokens(src, false).value)
  {
    hide Tokens, HoldsFormulas, Formulas, Obligations, Citations, References, Equations;
    if Tokens(src, false).Ok? {
      EquationsHold(Formulas(Tokens(src, false).value));
    }
  }

  lemma SaysNothing()
    ensures Says(Block(map[], [], [], []), []) && |Formulas([])| == 0
  {
  }

  /** The tokens leave no choice of block. */
  lemma OneBlock(a: Block, b: Block, ts: seq<Token>)
    requires Says(a, ts) && Says(b, ts)
    ensures a == b
  {
    hide Formulas, Obligations, Citations, References, Key;
    assert a.equations.Keys == b.equations.Keys;
    assert a.equations == b.equations;
  }

  lemma {:induction false} ListsAppended(xs: seq<Token>, ys: seq<Token>)
    ensures Formulas(xs + ys) == Formulas(xs) + Formulas(ys)
    ensures Citations(xs + ys) == Citations(xs) + Citations(ys)
    ensures References(xs + ys) == References(xs) + References(ys)
    decreases |ys|
  {
    if ys == [] {
      assert xs + ys == xs;
    } else {
      var init, last := ys[..|ys| - 1], ys[|ys| - 1];
      assert (xs + ys)[..|xs + ys| - 1] == xs + init && (xs + ys)[|xs + ys| - 1] == last;
      ListsAppended(xs, init);
    }
  }

  lemma {:induction false} ObligationsAppended(xs: seq<Token>, ys: seq<Token>)
    ensures Obligations(xs + ys) ==
            if Obligations(xs).Err? then Obligations(xs) else After(Obligations(xs).value, Obligations(ys))
    decreases |ys|
  {
    hide Stating;
    if ys == [] {
      assert xs + ys == xs;
      assert Obligations(xs).Ok? ==> Obligations(xs).value + [] == Obligations(xs).value;
    } else {
      var init, last := ys[..|ys| - 1], ys[|ys| - 1];
      assert (xs + ys)[..|xs + ys| - 1] == xs + init && (xs + ys)[|xs + ys| - 1] == last;
      ObligationsAppended(xs, init);
      if Obligations(xs).Ok? && Obligations(init).Ok? && Stating(last).Ok? {
        Associative(Obligations(xs).value, Obligations(init).value, Stating(last).value);
      }
    }
  }

  lemma OneToken(t: Token)
    ensures Formulas([t]) == if t.Math? then [(t.kind, t.formula)] else []
    ensures Citations([t]) == if t.XpileContract? then [t.id] else []
    ensures References([t]) == if t.Cite? then [t.key] else []
    ensures Obligations([t]) == Stating(t)
  {
    hide Lowered;
    assert [t][..0] == [] && Obligations([]) == Ok([]);
    assert Stating(t).Ok? ==> [] + Stating(t).value == Stating(t).value;
  }

  lemma NoTokens()
    ensures Formulas([]) == [] && Citations([]) == [] && References([]) == [] && Obligations([]) == Ok([])
  {
  }

  /** A proof environment adds nothing, wherever it stands. */
  lemma ProofSaysNothing(before: seq<Token>, after: seq<Token>, block: Block)
    ensures Says(block, before + [ProofEnv] + after) <==> Says(block, before + after)
  {
    hide HoldsFormulas, Formulas, Obligations, Citations, References;
    SameProjections(before, after);
  }

  lemma SameProjections(before: seq<Token>, after: seq<Token>)
    ensures Formulas(before + [ProofEnv] + after) == Formulas(before + after)
    ensures Obligations(before + [ProofEnv] + after) == Obligations(before + after)
    ensures Citations(before + [ProofEnv] + after) == Citations(before + after)
    ensures References(before + [ProofEnv] + after) == References(before + after)
  {
    hide Formulas, Obligations, Citations, References;
    OneToken(ProofEnv);
    ListsAppended(before, [ProofEnv]);
    ListsAppended(before + [ProofEnv], after);
    ListsAppended(before, after);
    ObligationsAppended(before, [ProofEnv]);
    ObligationsAppended(before + [ProofEnv], after);
    ObligationsAppended(before, after);
    assert Obligations(before).Ok? ==> Obligations(before).value + [] == Obligations(before).value;
  }
}
