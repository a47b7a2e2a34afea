/**
 * The compound commands of POSIX section 2.9.4 over segments, and which accepted streams they derive. The parser
 * reads more: it takes bodies without a command, and text on a `do`, `then` or `else` segment.
 */
module Posix {
  import opened Outcomes
  import opened Text
  import opened ShellAst
  import opened FlatLines
  import opened Blocks
  import opened Grammar
  import opened Regions
  import opened GluedText

  // ---- the grammar of the standard ----

  /** A segment that is no command: blank, or a comment alone. */
  predicate NoCommand(seg: string) {
    FirstKeyword(seg) == NoKeyword && FlatLine(seg) == Ok(None)
  }

  predicate IsCommand(c: Cst) {
    c.Flat? ==> !NoCommand(c.seg)
  }

  /** Body keywords stand alone, and every compound list holds a command; conditions are opaque, as in the source. */
  predicate PosixDerives(c: Cst) {
    match c
    case Flat(seg) => ControlFlowKeyword(seg) == NoKeyword && FlatLine(seg).Ok?
    case Loop(header, word, body) =>
      && FirstKeyword(header) in LOOP_OPENERS && LoopHeader(header).Ok?
      && word == "do"
      && HasCommand(body) && PosixDerivesAll(body)
    case Conditional(chain) => PosixDerivesChain(chain, KIf)
  }

  predicate PosixDerivesAll(cs: seq<Cst>) {
    cs == [] || (PosixDerives(cs[0]) && PosixDerivesAll(cs[1..]))
  }

  predicate HasCommand(body: seq<Cst>) {
    body != [] && (IsCommand(body[0]) || HasCommand(body[1..]))
  }

  predicate PosixDerivesChain(c: Chain, opener: Keyword) {
    && FirstKeyword(c.head) == opener && AfterFirstWord(c.head) != ""
    && c.thenSeg == "then"
    && HasCommand(c.thenBody) && PosixDerivesAll(c.thenBody)
    && PosixDerivesTail(c.tail)
  }

  predicate PosixDerivesTail(t: Tail) {
    match t
    case Fi => true
    case Else(word, body) => word == "else" && HasCommand(body) && PosixDerivesAll(body)
    case Elif(chain) => PosixDerivesChain(chain, KElif)
  }

  ghost predicate IsPosixBlock(c: Cst) {
    PosixDerives(c) && !c.Flat?
  }

  ghost predicate PosixBlock(segs: seq<string>) {
    exists c: Cst :: IsPosixBlock(c) && Yield(c) == segs
  }

  // ---- the same on the stream alone ----

  /** Behind its comments the stream goes on with a command and not with the end of the body. */
  predicate GoesOn(segs: seq<string>) {
    segs != [] && if NoCommand(segs[0]) then GoesOn(segs[1..]) else FirstKeyword(segs[0]) !in BODY_TERMINATORS
  }

  /** Every body keyword is the bare word with a command behind it. */
  predicate Tidy(segs: seq<string>) {
    segs == [] ||
    ((FirstKeyword(segs[0]) in BODY_OPENERS ==> !Glued(segs[0]) && GoesOn(segs[1..])) && Tidy(segs[1..]))
  }

  lemma TidyStep(seg: string, rest: seq<string>)
    ensures Tidy([seg] + rest) <==>
            (FirstKeyword(seg) in BODY_OPENERS ==> !Glued(seg) && GoesOn(rest)) && Tidy(rest)
  {
    hide FirstKeyword, GoesOn, Glued;
    assert ([seg] + rest)[1..] == rest;
  }

  lemma GoesOnStep(seg: string, rest: seq<string>)
    ensures GoesOn([seg] + rest) <==> if NoCommand(seg) then GoesOn(rest) else FirstKeyword(seg) !in BODY_TERMINATORS
  {
    hide FirstKeyword, NoCommand;
    assert ([seg] + rest)[1..] == rest;
  }

  // ---- the standard's grammar is part of the parser's ----

  lemma {:induction false} PosixIsDerived(c: Cst)
    requires PosixDerives(c)
    ensures Derives(c)
    decreases c
  {
    hide FirstKeyword, ControlFlowKeyword, FlatLine, LoopHeader, AfterFirstWord, HasCommand;
    match c {
      case Flat(_) =>
      case Loop(_, _, body) =>
        BodyWords();
        PosixListDerived(body);
      case Conditional(chain) => PosixChainDerived(chain, KIf);
    }
  }

  lemma {:induction false} PosixListDerived(cs: seq<Cst>)
    requires PosixDerivesAll(cs)
    ensures DerivesAll(cs)
    decreases cs
  {
    hide PosixDerives, Derives;
    if cs != [] {
      PosixIsDerived(cs[0]);
      PosixListDerived(cs[1..]);
    }
  }

  lemma {:induction false} PosixChainDerived(c: Chain, opener: Keyword)
    requires PosixDerivesChain(c, opener)
    ensures DerivesChain(c, opener)
    decreases c
  {
    hide FirstKeyword, AfterFirstWord, DerivesAll, PosixDerivesAll, HasCommand;
    BodyWords();
    PosixListDerived(c.thenBody);
    match c.tail {
      case Fi =>
      case Else(_, body) => PosixListDerived(body);
      case Elif(chain) => PosixChainDerived(chain, KElif);
    }
  }

  // ---- what the stream says about the tree ----

  lemma {:induction false} BodyGoesOn(cs: seq<Cst>, closer: string, rest: seq<string>)
    requires DerivesAll(cs) && FirstKeyword(closer) in BODY_TERMINATORS
    ensures GoesOn(YieldAll(cs) + ([closer] + rest)) <==> HasCommand(cs)
    decreases |cs|
  {
    hide FirstKeyword, GoesOn, NoCommand;
    var end := [closer] + rest;
    if cs == [] {
      assert YieldAll(cs) + end == end;
      GoesOnStep(closer, rest);
      CloserIsNoComment(closer);
    } else {
      BodyGoesOn(cs[1..], closer, rest);
      var first, more := Yield(cs[0]), YieldAll(cs[1..]) + end;
      assert YieldAll(cs) + end == first + more;
      FirstSegment(cs[0]);
      assert first + more == [first[0]] + (first[1..] + more);
      GoesOnStep(first[0], first[1..] + more);
      if cs[0].Flat? {
        assert first[1..] + more == more;
      }
    }
  }

  lemma CloserIsNoComment(closer: string)
    requires FirstKeyword(closer) in BODY_TERMINATORS
    ensures !NoCommand(closer)
  {
    hide FirstKeyword, FlatLine;
  }

  /** No derivation starts like the end of a body, and only a flat one can be no command. */
  lemma FirstSegment(c: Cst)
    requires Derives(c)
    ensures FirstKeyword(Yield(c)[0]) !in BODY_TERMINATORS && FirstKeyword(Yield(c)[0]) !in BODY_OPENERS
    ensures NoCommand(Yield(c)[0]) <==> !IsCommand(c)
    ensures c.Flat? ==> Yield(c) == [c.seg]
  {
    hide FirstKeyword, FlatLine, ControlFlowKeyword, LoopHeader, AfterFirstWord, DerivesAll;
    if c.Flat? {
      FlatHasNoFirstKeyword(c.seg);
    }
  }

  /** The stream of a derivation is tidy exactly when the standard derives the tree. */
  lemma {:induction false} TidyTree(c: Cst, rest: seq<string>)
    requires Derives(c)
    ensures Tidy(Yield(c) + rest) <==> PosixDerives(c) && Tidy(rest)
    decreases c
  {
    hide FirstKeyword, ControlFlowKeyword, FlatLine, LoopHeader, Tidy, GoesOn, Glued, DerivesAll, PosixDerivesAll,
         HasCommand, YieldAll, DerivesChain, PosixDerivesChain, YieldChain;
    match c {
      case Flat(seg) =>
        FlatHasNoFirstKeyword(seg);
        TidyStep(seg, rest);
      case Loop(header, word, body) =>
        CloserKeywords();
        TidyStep(header, [word] + (YieldAll(body) + (["done"] + rest)));
        assert Yield(c) + rest == [header] + ([word] + (YieldAll(body) + (["done"] + rest)));
        TidyBody(word, body, "done", rest);
        TidyStep("done", rest);
      case Conditional(chain) => TidyChain(chain, KIf, rest);
    }
  }

  /** A body keyword, its body and what ends it. */
  lemma {:induction false} TidyBody(word: string, body: seq<Cst>, closer: string, rest: seq<string>)
    requires FirstKeyword(word) in BODY_OPENERS && DerivesAll(body) && FirstKeyword(closer) in BODY_TERMINATORS
    ensures Tidy([word] + (YieldAll(body) + ([closer] + rest))) <==>
            word == Spelling(FirstKeyword(word)) && HasCommand(body) && PosixDerivesAll(body) && Tidy([closer] + rest)
    decreases body, 1
  {
    hide FirstKeyword, Tidy, GoesOn, DerivesAll, PosixDerivesAll, HasCommand, YieldAll;
    TidyStep(word, YieldAll(body) + ([closer] + rest));
    BodyGoesOn(body, closer, rest);
    TidyTrees(body, [closer] + rest);
  }

  lemma {:induction false} TidyTrees(cs: seq<Cst>, rest: seq<string>)
    requires DerivesAll(cs)
    ensures Tidy(YieldAll(cs) + rest) <==> PosixDerivesAll(cs) && Tidy(rest)
    decreases cs, 0
  {
    hide Tidy, Derives, PosixDerives, Yield;
    if cs == [] {
      assert YieldAll(cs) + rest == rest;
    } else {
      assert YieldAll(cs) + rest == Yield(cs[0]) + (YieldAll(cs[1..]) + rest);
      TidyTree(cs[0], YieldAll(cs[1..]) + rest);
      TidyTrees(cs[1..], rest);
    }
  }

  lemma {:induction false} TidyChain(c: Chain, opener: Keyword, rest: seq<string>)
    requires DerivesChain(c, opener) && opener in {KIf, KElif}
    ensures Tidy(YieldChain(c) + rest) <==> PosixDerivesChain(c, opener) && Tidy(rest)
    decreases c
  {
    hide FirstKeyword, AfterFirstWord, Tidy, GoesOn, Glued, DerivesAll, PosixDerivesAll, HasCommand, YieldAll,
         DerivesTail, PosixDerivesTail, YieldTail;
    var tail := YieldTail(c.tail);
    var after := tail[1..] + rest;
    assert tail + rest == [tail[0]] + after;
    assert YieldChain(c) + rest == [c.head] + ([c.thenSeg] + (YieldAll(c.thenBody) + (tail + rest)));
    TailStarts(c.tail);
    TailEndsBody(c.tail);
    TidyStep(c.head, [c.thenSeg] + (YieldAll(c.thenBody) + (tail + rest)));
    TidyBody(c.thenSeg, c.thenBody, tail[0], after);
    TidyTail(c.tail, rest);
  }

  lemma TailEndsBody(t: Tail)
    ensures TailKeyword(t) in BODY_TERMINATORS
  {
  }

  lemma {:induction false} TidyTail(t: Tail, rest: seq<string>)
    requires DerivesTail(t)
    ensures Tidy(YieldTail(t) + rest) <==> PosixDerivesTail(t) && Tidy(rest)
    decreases t
  {
    hide FirstKeyword, Tidy, GoesOn, Glued, DerivesAll, PosixDerivesAll, HasCommand, YieldAll, DerivesChain,
         PosixDerivesChain, YieldChain;
    CloserKeywords();
    TidyStep("fi", rest);
    match t {
      case Fi =>
      case Else(word, body) =>
        assert YieldTail(t) + rest == [word] + (YieldAll(body) + (["fi"] + rest));
        TidyBody(word, body, "fi", rest);
      case Elif(chain) => TidyChain(chain, KElif, rest);
    }
  }

  // ---- the theorems ----

  /** The blocks of the standard are the streams the parser accepts to the end that are tidy. */
  lemma PosixExactly(segs: seq<string>)
    requires segs != []
    ensures PosixBlock(segs) <==> BlockOf(segs).Ok? && BlockOf(segs).value.1 == |segs| && Tidy(segs)
  {
    hide BlockOf, Derives, PosixDerives, Yield, Tidy, Meaning;
    assert segs + [] == segs;
    NothingIsTidy();
    if PosixBlock(segs) {
      var c: Cst :| IsPosixBlock(c) && Yield(c) == segs;
      PosixIsDerived(c);
      DerivationIsParsed(segs, c);
      TidyTree(c, []);
    }
    if BlockOf(segs).Ok? && BlockOf(segs).value.1 == |segs| && Tidy(segs) {
      var c := BlockHasDerivation(segs);
      assert segs[0..|segs|] == segs;
      TidyTree(c, []);
      assert IsPosixBlock(c);
    }
  }

  lemma NothingIsTidy()
    ensures Tidy([])
  {
  }

  /** An accepted region of source lines is a block of the standard exactly when its segments are tidy. */
  lemma PosixRegions(lines: seq<string>, start: nat)
    requires start < |lines| && FirstKeyword(lines[start]) in BLOCK_OPENERS && Trim(lines[start]) == lines[start]
    requires BlockAt(lines, start).Ok?
    ensures PosixBlock(BlockRegion(lines, start).value.0) <==> Tidy(BlockRegion(lines, start).value.0)
  {
    hide FirstKeyword, BlockOf, BlockRegion, Tidy, PosixBlock;
    ParserConsumesWholeRegion(lines, start);
    PosixExactly(BlockRegion(lines, start).value.0);
  }
}
