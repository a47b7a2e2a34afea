/**
 * The grammar the block parser reads: `for`/`while`/`until … do … done` and `if … elif … else … fi` as concrete
 * syntax trees over segments, and the parser's soundness and completeness for it. It is wider than section 2.9.4 of
 * POSIX: a body may be empty, and a `do`, `then` or `else` segment may carry text. Module `Posix` has that standard's
 * own grammar.
 */
module Grammar {
  import opened Outcomes
  import opened Text
  import opened ShellAst
  import opened FlatLines
  import opened Blocks

  /** One node per production; the strings are the segments the production is spelled with. */
  datatype Cst =
    | Flat(seg: string)
    | Loop(header: string, doSeg: string, body: seq<Cst>)
    | Conditional(chain: Chain)

  datatype Chain = Chain(head: string, thenSeg: string, thenBody: seq<Cst>, tail: Tail)

  datatype Tail =
    | Fi
    | Else(elseSeg: string, elseBody: seq<Cst>)
    | Elif(chain: Chain)

  // ---- the segments a tree is spelled with ----

  function Yield(c: Cst): (r: seq<string>)
    ensures r != []
  {
    match c
    case Flat(seg) => [seg]
    case Loop(header, doSeg, body) => [header, doSeg] + YieldAll(body) + ["done"]
    case Conditional(chain) => YieldChain(chain)
  }

  function YieldAll(cs: seq<Cst>): seq<string> {
    if cs == [] then [] else Yield(cs[0]) + YieldAll(cs[1..])
  }

  function YieldChain(c: Chain): (r: seq<string>)
    ensures r != []
  {
    [c.head, c.thenSeg] + YieldAll(c.thenBody) + YieldTail(c.tail)
  }

  function YieldTail(t: Tail): (r: seq<string>)
    ensures r != []
  {
    match t
    case Fi => ["fi"]
    case Else(seg, body) => [seg] + YieldAll(body) + ["fi"]
    case Elif(chain) => YieldChain(chain)
  }

  // ---- which trees are derivations ----

  predicate Derives(c: Cst) {
    match c
    case Flat(seg) => ControlFlowKeyword(seg) == NoKeyword && FlatLine(seg).Ok?
    case Loop(header, doSeg, body) =>
      && FirstKeyword(header) in LOOP_OPENERS && LoopHeader(header).Ok?
      && FirstKeyword(doSeg) == KDo
      && DerivesAll(body)
    case Conditional(chain) => DerivesChain(chain, KIf)
  }

  predicate DerivesAll(cs: seq<Cst>) {
    cs == [] || (Derives(cs[0]) && DerivesAll(cs[1..]))
  }

  predicate DerivesChain(c: Chain, opener: Keyword) {
    && FirstKeyword(c.head) == opener && AfterFirstWord(c.head) != ""
    && FirstKeyword(c.thenSeg) == KThen
    && DerivesAll(c.thenBody)
    && DerivesTail(c.tail)
  }

  predicate DerivesTail(t: Tail) {
    match t
    case Fi => true
    case Else(seg, body) => FirstKeyword(seg) == KElse && DerivesAll(body)
    case Elif(chain) => DerivesChain(chain, KElif)
  }

  // ---- the statements a derivation stands for ----

  function Meaning(c: Cst): seq<Stmt>
    requires Derives(c)
  {
    match c
    case Flat(seg) => AsList(FlatLine(seg).value)
    case Loop(header, doSeg, body) => [ShellLoop(LoopHeader(header).value, MeaningAll(body))]
    case Conditional(chain) => [MeaningChain(chain, KIf)]
  }

  function MeaningAll(cs: seq<Cst>): seq<Stmt>
    requires DerivesAll(cs)
  {
    if cs == [] then [] else Meaning(cs[0]) + MeaningAll(cs[1..])
  }

  function MeaningChain(c: Chain, opener: Keyword): Stmt
    requires DerivesChain(c, opener)
  {
    ShellIf(LitStr(AfterFirstWord(c.head)), MeaningAll(c.thenBody), MeaningTail(c.tail))
  }

  function MeaningTail(t: Tail): seq<Stmt>
    requires DerivesTail(t)
  {
    match t
    case Fi => []
    case Else(_, body) => MeaningAll(body)
    case Elif(chain) => [MeaningChain(chain, KElif)]
  }

  // ---- spelling facts ----

  lemma CloserKeywords()
    ensures FirstKeyword("done") == KDone && FirstKeyword("fi") == KFi
  {
    SpellingRoundTrip(KDone);
    SpellingRoundTrip(KFi);
    FirstWordAlone("done");
    FirstWordAlone("fi");
  }

  // ---- completeness ----

  ghost predicate At(segs: seq<string>, pos: nat, part: seq<string>) {
    pos + |part| <= |segs| && segs[pos..pos + |part|] == part
  }

  lemma AtParts(segs: seq<string>, pos: nat, a: seq<string>, b: seq<string>)
    requires At(segs, pos, a + b)
    ensures At(segs, pos, a) && At(segs, pos + |a|, b)
  {
    assert segs[pos..pos + |a|] == (a + b)[..|a|];
    assert segs[pos + |a|..pos + |a| + |b|] == (a + b)[|a|..];
  }

  lemma AtFirst(segs: seq<string>, pos: nat, part: seq<string>)
    requires At(segs, pos, part)
    ensures forall i :: 0 <= i < |part| ==> segs[pos + i] == part[i]
  {
    forall i | 0 <= i < |part| ensures segs[pos + i] == part[i] {
      assert segs[pos..pos + |part|][i] == segs[pos + i];
    }
  }

  /** Every derivation is recognised, as the statements it stands for, wherever it occurs. */
  lemma {:induction false} CompleteAll(segs: seq<string>, pos: nat, cs: seq<Cst>, terminators: set<Keyword>)
    requires DerivesAll(cs) && At(segs, pos, YieldAll(cs)) && terminators <= BODY_TERMINATORS
    ensures SegmentSeq(segs, pos, terminators) ==
            Then(MeaningAll(cs), SegmentSeq(segs, pos + |YieldAll(cs)|, terminators))
    decreases cs, 0
  {
    hide SegmentSeq, Meaning, Yield, Derives;
    if cs == [] {
      ThenNothing(SegmentSeq(segs, pos, terminators));
    } else {
      var mid := pos + |Yield(cs[0])|;
      AtParts(segs, pos, Yield(cs[0]), YieldAll(cs[1..]));
      CompleteOne(segs, pos, cs[0], terminators);
      CompleteAll(segs, mid, cs[1..], terminators);
      ThenThen(Meaning(cs[0]), MeaningAll(cs[1..]), SegmentSeq(segs, pos + |YieldAll(cs)|, terminators));
    }
  }

  lemma {:induction false} CompleteOne(segs: seq<string>, pos: nat, c: Cst, terminators: set<Keyword>)
    requires Derives(c) && At(segs, pos, Yield(c)) && terminators <= BODY_TERMINATORS
    ensures SegmentSeq(segs, pos, terminators) ==
            Then(Meaning(c), SegmentSeq(segs, pos + |Yield(c)|, terminators))
    decreases c, 1
  {
    hide SegmentSeq, FirstKeyword, ControlFlowKeyword, FlatLine, LoopHeader, AfterFirstWord, LoopAt, IfAt, DerivesAll;
    AtFirst(segs, pos, Yield(c));
    match c {
      case Flat(seg) =>
        FlatHasNoFirstKeyword(seg);
        StepsOverFlat(segs, pos, terminators);
      case Loop(header, doSeg, body) =>
        CompleteLoop(segs, pos, header, doSeg, body);
        StepsOverLoop(segs, pos, terminators);
      case Conditional(chain) =>
        AtFirst(segs, pos, YieldChain(chain));
        CompleteChain(segs, pos, chain, KIf);
        StepsOverIf(segs, pos, terminators);
    }
  }

  lemma {:induction false} CompleteBody(segs: seq<string>, pos: nat, cs: seq<Cst>, closer: Keyword)
    requires closer in {KDone, KFi} && DerivesAll(cs)
    requires At(segs, pos, YieldAll(cs) + [Spelling(closer)])
    ensures SegmentSeq(segs, pos, {closer}) == Ok((MeaningAll(cs), pos + |YieldAll(cs)|, closer))
    decreases cs, 1
  {
    hide SegmentSeq, FirstKeyword, YieldAll, MeaningAll, DerivesAll;
    var end := pos + |YieldAll(cs)|;
    AtParts(segs, pos, YieldAll(cs), [Spelling(closer)]);
    AtFirst(segs, end, [Spelling(closer)]);
    CompleteAll(segs, pos, cs, {closer});
    CloserKeywords();
    StopsAt(segs, end, closer, {closer});
    assert MeaningAll(cs) + [] == MeaningAll(cs);
  }

  lemma {:induction false} CompleteLoop(segs: seq<string>, pos: nat, header: string, doSeg: string, body: seq<Cst>)
    requires FirstKeyword(header) in LOOP_OPENERS && LoopHeader(header).Ok? && FirstKeyword(doSeg) == KDo
    requires DerivesAll(body) && At(segs, pos, [header, doSeg] + YieldAll(body) + ["done"])
    ensures LoopAt(segs, pos) == Ok((ShellLoop(LoopHeader(header).value, MeaningAll(body)), pos + |YieldAll(body)| + 3))
    decreases body, 2
  {
    hide FirstKeyword, LoopHeader, SegmentSeq, YieldAll, MeaningAll, DerivesAll;
    var rest := YieldAll(body) + ["done"];
    assert [header, doSeg] + YieldAll(body) + ["done"] == [header, doSeg] + rest;
    AtParts(segs, pos, [header, doSeg], rest);
    AtFirst(segs, pos, [header, doSeg]);
    CompleteBody(segs, pos + 2, body, KDone);
  }

  lemma {:induction false} CompleteChain(segs: seq<string>, pos: nat, c: Chain, opener: Keyword)
    requires DerivesChain(c, opener) && At(segs, pos, YieldChain(c))
    ensures IfAt(segs, pos) == Ok((MeaningChain(c, opener), pos + |YieldChain(c)|))
    decreases c, 0
  {
    hide FirstKeyword, AfterFirstWord, SegmentSeq, ElseAt, YieldAll, MeaningAll, DerivesAll, YieldTail, MeaningTail,
         DerivesTail;
    AtFirst(segs, pos, YieldChain(c));
    var body, tail := YieldAll(c.thenBody), YieldTail(c.tail);
    assert YieldChain(c) == [c.head, c.thenSeg] + (body + tail);
    AtParts(segs, pos, [c.head, c.thenSeg], body + tail);
    AtParts(segs, pos + 2, body, tail);
    CompleteAll(segs, pos + 2, c.thenBody, {KElif, KElse, KFi});
    CompleteTail(segs, pos + 2 + |body|, c.tail);
    assert MeaningAll(c.thenBody) + [] == MeaningAll(c.thenBody);
  }

  function TailKeyword(t: Tail): Keyword {
    match t
    case Fi => KFi
    case Else(_, _) => KElse
    case Elif(_) => KElif
  }

  /** At a tail, the then-body ends with the tail's keyword, and the rest is read from there. */
  lemma {:induction false} CompleteTail(segs: seq<string>, pos: nat, t: Tail)
    requires DerivesTail(t) && At(segs, pos, YieldTail(t))
    ensures SegmentSeq(segs, pos, {KElif, KElse, KFi}) == Ok(([], pos, TailKeyword(t)))
    ensures ElseAt(segs, pos, TailKeyword(t)) == Ok((MeaningTail(t), pos + |YieldTail(t)|))
    decreases t, 1
  {
    hide SegmentSeq, FirstKeyword, IfAt, DerivesAll, YieldAll, MeaningAll, AfterFirstWord;
    TailStarts(t);
    AtFirst(segs, pos, YieldTail(t));
    assert segs[pos + 0] == YieldTail(t)[0];
    StopsAt(segs, pos, TailKeyword(t), {KElif, KElse, KFi});
    match t {
      case Fi =>
      case Elif(chain) => CompleteChain(segs, pos, chain, KElif);
      case Else(seg, body) =>
        var rest := YieldAll(body) + ["fi"];
        assert YieldTail(t) == [seg] + rest;
        AtParts(segs, pos, [seg], rest);
        CompleteBody(segs, pos + 1, body, KFi);
    }
  }

  lemma TailStarts(t: Tail)
    requires DerivesTail(t)
    ensures FirstKeyword(YieldTail(t)[0]) == TailKeyword(t)
    ensures t.Fi? ==> YieldTail(t)[0] == "fi"
  {
    hide FirstKeyword, DerivesAll, YieldAll;
    CloserKeywords();
  }

  // ---- soundness ----

  lemma AtSplit(segs: seq<string>, a: nat, b: nat, c: nat)
    requires a <= b <= c <= |segs|
    ensures segs[a..b] + segs[b..c] == segs[a..c]
  {
  }

  /** Whatever the parser accepts is a derivation of exactly the segments it consumed. */
  lemma {:induction false} SoundAll(segs: seq<string>, pos: nat, terminators: set<Keyword>) returns (cs: seq<Cst>)
    requires pos <= |segs| && terminators <= BODY_TERMINATORS
    requires SegmentSeq(segs, pos, terminators).Ok?
    ensures var (stmts, end, term) := SegmentSeq(segs, pos, terminators).value;
            && DerivesAll(cs) && MeaningAll(cs) == stmts && YieldAll(cs) == segs[pos..end]
            && (terminators != {} ==> FirstKeyword(segs[end]) == term)
            && (term in {KDone, KFi} ==> segs[end] == Spelling(term))
    decreases |segs| - pos, 2
  {
    hide FirstKeyword, ControlFlowKeyword, FlatLine, LoopAt, IfAt, Derives, Yield, Meaning;
    if pos == |segs| || FirstKeyword(segs[pos]) in terminators {
      cs := [];
    } else {
      var c, next := SoundOne(segs, pos, terminators);
      var rest := SoundAll(segs, next, terminators);
      cs := [c] + rest;
      var end := SegmentSeq(segs, pos, terminators).value.1;
      AtSplit(segs, pos, next, end);
      assert cs[1..] == rest;
    }
  }

  lemma {:induction false} SoundOne(segs: seq<string>, pos: nat, terminators: set<Keyword>) returns (c: Cst, next: nat)
    requires pos < |segs| && terminators <= BODY_TERMINATORS
    requires SegmentSeq(segs, pos, terminators).Ok? && FirstKeyword(segs[pos]) !in terminators
    ensures pos < next <= |segs|
    ensures Derives(c) && Yield(c) == segs[pos..next]
    ensures SegmentSeq(segs, next, terminators).Ok?
    ensures SegmentSeq(segs, pos, terminators) == Then(Meaning(c), SegmentSeq(segs, next, terminators))
    decreases |segs| - pos, 1
  {
    hide FirstKeyword, ControlFlowKeyword, FlatLine, LoopAt, IfAt, DerivesChain, YieldChain, MeaningChain;
    match FirstKeyword(segs[pos]) {
      case KFor | KWhile | KUntil =>
        c := SoundLoop(segs, pos);
        next := LoopAt(segs, pos).value.1;
      case KIf =>
        var chain := SoundChain(segs, pos, KIf);
        c, next := Conditional(chain), IfAt(segs, pos).value.1;
      case NoKeyword =>
        c, next := Flat(segs[pos]), pos + 1;
      case _ =>
        assert false;
    }
  }

  lemma {:induction false} SoundLoop(segs: seq<string>, pos: nat) returns (c: Cst)
    requires pos < |segs| && FirstKeyword(segs[pos]) in LOOP_OPENERS && LoopAt(segs, pos).Ok?
    ensures Derives(c) && c.Loop?
    ensures Yield(c) == segs[pos..LoopAt(segs, pos).value.1]
    ensures Meaning(c) == [LoopAt(segs, pos).value.0]
    decreases |segs| - pos, 0
  {
    hide FirstKeyword, LoopHeader, SegmentSeq, YieldAll, MeaningAll, DerivesAll;
    var body := SoundAll(segs, pos + 2, {KDone});
    var done := SegmentSeq(segs, pos + 2, {KDone}).value.1;
    c := Loop(segs[pos], segs[pos + 1], body);
    assert segs[pos..done + 1] == [segs[pos], segs[pos + 1]] + segs[pos + 2..done] + [segs[done]];
  }

  lemma {:induction false} SoundChain(segs: seq<string>, pos: nat, opener: Keyword) returns (c: Chain)
    requires pos < |segs| && FirstKeyword(segs[pos]) == opener && IfAt(segs, pos).Ok?
    ensures DerivesChain(c, opener)
    ensures YieldChain(c) == segs[pos..IfAt(segs, pos).value.1]
    ensures MeaningChain(c, opener) == IfAt(segs, pos).value.0
    decreases |segs| - pos, 0
  {
    hide FirstKeyword, AfterFirstWord, SegmentSeq, ElseAt, YieldAll, MeaningAll, DerivesAll, YieldTail, MeaningTail,
         DerivesTail;
    var body := SoundAll(segs, pos + 2, {KElif, KElse, KFi});
    var (_, end, term) := SegmentSeq(segs, pos + 2, {KElif, KElse, KFi}).value;
    var tail := SoundTail(segs, end, term);
    var next := ElseAt(segs, end, term).value.1;
    c := Chain(segs[pos], segs[pos + 1], body, tail);
    assert segs[pos..next] == [segs[pos], segs[pos + 1]] + segs[pos + 2..end] + segs[end..next];
  }

  lemma {:induction false} SoundTail(segs: seq<string>, end: nat, term: Keyword) returns (t: Tail)
    requires end < |segs| && term in {KElif, KElse, KFi} && FirstKeyword(segs[end]) == term
    requires term == KFi ==> segs[end] == "fi"
    requires ElseAt(segs, end, term).Ok?
    ensures DerivesTail(t)
    ensures YieldTail(t) == segs[end..ElseAt(segs, end, term).value.1]
    ensures MeaningTail(t) == ElseAt(segs, end, term).value.0
    decreases |segs| - end, 1
  {
    hide FirstKeyword, IfAt, SegmentSeq;
    match term {
      case KFi =>
        t := Fi;
      case KElif =>
        var chain := SoundChain(segs, end, KElif);
        t := Elif(chain);
      case KElse =>
        var body := SoundAll(segs, end + 1, {KFi});
        var fi := SegmentSeq(segs, end + 1, {KFi}).value.1;
        t := Else(segs[end], body);
        assert segs[end..fi + 1] == [segs[end]] + segs[end + 1..fi] + [segs[fi]];
    }
  }

  // ---- the grammar theorems ----

  /** The block a region starts with, parsed as the source dispatches on its first segment. */
  function BlockOf(segs: seq<string>): Block
    requires segs != []
  {
    if FirstKeyword(segs[0]) == KIf then IfAt(segs, 0) else LoopAt(segs, 0)
  }

  ghost predicate IsBlock(c: Cst) {
    Derives(c) && !c.Flat?
  }

  /** A stream parses to one block and nothing more exactly when the grammar above derives it. */
  lemma BlockParsesExactly(segs: seq<string>)
    requires segs != []
    ensures (BlockOf(segs).Ok? && BlockOf(segs).value.1 == |segs|) <==>
            exists c: Cst :: IsBlock(c) && Yield(c) == segs
  {
    if BlockOf(segs).Ok? && BlockOf(segs).value.1 == |segs| {
      var c := BlockHasDerivation(segs);
      assert segs[0..|segs|] == segs;
    }
    forall c: Cst | IsBlock(c) && Yield(c) == segs
      ensures BlockOf(segs) == Ok((Meaning(c)[0], |segs|))
    {
      DerivationIsParsed(segs, c);
    }
  }

  lemma BlockHasDerivation(segs: seq<string>) returns (c: Cst)
    requires segs != [] && BlockOf(segs).Ok?
    ensures IsBlock(c) && Yield(c) == segs[0..BlockOf(segs).value.1]
    ensures Meaning(c) == [BlockOf(segs).value.0]
  {
    hide FirstKeyword, IfAt;
    if FirstKeyword(segs[0]) == KIf {
      var chain := SoundChain(segs, 0, KIf);
      c := Conditional(chain);
    } else {
      LoopNeedsOpener(segs[0]);
      c := SoundLoop(segs, 0);
    }
  }

  lemma LoopNeedsOpener(header: string)
    requires LoopHeader(header).Ok?
    ensures FirstKeyword(header) in LOOP_OPENERS
  {
    hide FirstKeyword, ForHeader, AfterFirstWord;
  }

  lemma DerivationIsParsed(segs: seq<string>, c: Cst)
    requires segs != [] && IsBlock(c) && Yield(c) == segs
    ensures BlockOf(segs) == Ok((Meaning(c)[0], |segs|))
  {
    hide FirstKeyword, LoopHeader, AfterFirstWord, IfAt, LoopAt, DerivesAll;
    assert segs[0..|segs|] == segs;
    match c {
      case Loop(header, doSeg, body) => CompleteLoop(segs, 0, header, doSeg, body);
      case Conditional(chain) => CompleteChain(segs, 0, chain, KIf);
    }
  }

  /** The grammar is unambiguous: two derivations of one stream stand for the same statement. */
  lemma Unambiguous(a: Cst, b: Cst)
    requires IsBlock(a) && IsBlock(b) && Yield(a) == Yield(b)
    ensures Meaning(a)[0] == Meaning(b)[0]
  {
    DerivationIsParsed(Yield(a), a);
    DerivationIsParsed(Yield(a), b);
  }
}
