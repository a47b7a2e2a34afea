/**
 * What a parsed block keeps of its segments: everything but text on a `do`, `then` or `else` segment, which the
 * region collector can leave there and the parser drops.
 */
module GluedText {
  import opened Outcomes
  import opened Text
  import opened ShellAst
  import opened FlatLines
  import opened Blocks
  import opened Grammar
  import opened Regions

  /** The same tree with its `do`, `then` and `else` segments spelled as the bare words. */
  function Unglued(c: Cst): Cst {
    match c
    case Flat(_) => c
    case Loop(header, _, body) => Loop(header, "do", UngluedAll(body))
    case Conditional(chain) => Conditional(UngluedChain(chain))
  }

  function UngluedAll(cs: seq<Cst>): (r: seq<Cst>)
    ensures |r| == |cs|
  {
    if cs == [] then [] else [Unglued(cs[0])] + UngluedAll(cs[1..])
  }

  function UngluedChain(c: Chain): Chain {
    Chain(c.head, "then", UngluedAll(c.thenBody), UngluedTail(c.tail))
  }

  function UngluedTail(t: Tail): Tail {
    match t
    case Fi => Fi
    case Else(_, body) => Else("else", UngluedAll(body))
    case Elif(chain) => Elif(UngluedChain(chain))
  }

  lemma BodyWords()
    ensures FirstKeyword("do") == KDo && FirstKeyword("then") == KThen && FirstKeyword("else") == KElse
  {
    hide FirstWord, KeywordOf;
    SpellingRoundTrip(KDo);
    SpellingRoundTrip(KThen);
    SpellingRoundTrip(KElse);
    FirstWordAlone("do");
    FirstWordAlone("then");
    FirstWordAlone("else");
  }

  lemma {:induction false} UngluedOne(c: Cst)
    requires Derives(c)
    ensures Derives(Unglued(c)) && Meaning(Unglued(c)) == Meaning(c) && |Yield(Unglued(c))| == |Yield(c)|
    decreases c
  {
    hide FirstKeyword, FlatLine, LoopHeader, ControlFlowKeyword;
    match c {
      case Flat(_) =>
      case Loop(_, _, body) =>
        BodyWords();
        UngluedList(body);
      case Conditional(chain) => UngluedArm(chain, KIf);
    }
  }

  lemma {:induction false} UngluedList(cs: seq<Cst>)
    requires DerivesAll(cs)
    ensures DerivesAll(UngluedAll(cs)) && MeaningAll(UngluedAll(cs)) == MeaningAll(cs)
    ensures |YieldAll(UngluedAll(cs))| == |YieldAll(cs)|
    decreases cs
  {
    hide Derives, Meaning, Yield;
    if cs != [] {
      UngluedOne(cs[0]);
      UngluedList(cs[1..]);
      assert UngluedAll(cs)[1..] == UngluedAll(cs[1..]);
    }
  }

  lemma {:induction false} UngluedArm(c: Chain, opener: Keyword)
    requires DerivesChain(c, opener)
    ensures DerivesChain(UngluedChain(c), opener) && MeaningChain(UngluedChain(c), opener) == MeaningChain(c, opener)
    ensures |YieldChain(UngluedChain(c))| == |YieldChain(c)|
    decreases c
  {
    hide FirstKeyword, DerivesAll, MeaningAll, YieldAll, AfterFirstWord, DerivesTail, MeaningTail;
    BodyWords();
    UngluedList(c.thenBody);
    UngluedRest(c.tail);
  }

  lemma {:induction false} UngluedRest(t: Tail)
    requires DerivesTail(t)
    ensures DerivesTail(UngluedTail(t)) && MeaningTail(UngluedTail(t)) == MeaningTail(t)
    ensures |YieldTail(UngluedTail(t))| == |YieldTail(t)|
    decreases t
  {
    hide FirstKeyword, DerivesAll, MeaningAll, YieldAll, DerivesChain, MeaningChain;
    match t {
      case Fi =>
      case Else(_, body) =>
        BodyWords();
        UngluedList(body);
      case Elif(chain) => UngluedArm(chain, KElif);
    }
  }

  // ---- which streams lose text ----

  /** A `do`, `then` or `else` segment that is more than the bare word. */
  predicate Glued(seg: string) {
    FirstKeyword(seg) in BODY_OPENERS && seg != Spelling(FirstKeyword(seg))
  }

  predicate NoneGlued(segs: seq<string>) {
    forall seg :: seg in segs ==> !Glued(seg)
  }

  lemma NoneGluedParts(a: seq<string>, b: seq<string>)
    ensures NoneGlued(a + b) <==> NoneGlued(a) && NoneGlued(b)
  {
    hide Glued;
    assert forall seg :: seg in a + b <==> seg in a || seg in b;
  }

  lemma SameParts(a: seq<string>, b: seq<string>, c: seq<string>, d: seq<string>)
    requires |a| == |c| && |b| == |d|
    ensures a + b == c + d <==> a == c && b == d
  {
    if a + b == c + d {
      assert a == (a + b)[..|a|] && c == (c + d)[..|a|];
      assert b == (a + b)[|a|..] && d == (c + d)[|a|..];
    }
  }

  /** Spelling the body keywords bare changes the segments exactly when some body keyword carries text. */
  lemma {:induction false} UngluedSame(c: Cst)
    requires Derives(c)
    ensures Yield(Unglued(c)) == Yield(c) <==> NoneGlued(Yield(c))
    decreases c
  {
    hide FirstKeyword, FlatLine, LoopHeader, ControlFlowKeyword, NoneGlued, YieldAll, DerivesAll, UngluedAll,
         YieldChain, DerivesChain, UngluedChain;
    match c {
      case Flat(seg) =>
        FlatHasNoFirstKeyword(seg);
        OneGlued(seg);
      case Loop(header, doSeg, body) =>
        BodyWords();
        CloserKeywords();
        UngluedList(body);
        UngluedListSame(body);
        OneGlued(header);
        OneGlued(doSeg);
        OneGlued("done");
        var inner, bare := YieldAll(body), YieldAll(UngluedAll(body));
        FourParts(header, doSeg, inner, ["done"]);
        SameFour(header, "do", doSeg, bare, inner, ["done"]);
      case Conditional(chain) => UngluedArmSame(chain, KIf);
    }
  }

  lemma OneGlued(seg: string)
    ensures NoneGlued([seg]) <==> !Glued(seg)
  {
    hide Glued;
  }

  lemma FourParts(head: string, word: string, body: seq<string>, rest: seq<string>)
    ensures NoneGlued([head, word] + body + rest) <==>
            NoneGlued([head]) && NoneGlued([word]) && NoneGlued(body) && NoneGlued(rest)
  {
    hide NoneGlued;
    NoneGluedParts([head, word] + body, rest);
    NoneGluedParts([head, word], body);
    assert [head, word] == [head] + [word];
    NoneGluedParts([head], [word]);
  }

  lemma SameFour(head: string, bareWord: string, word: string, bare: seq<string>, body: seq<string>, rest: seq<string>)
    requires |bare| == |body|
    ensures [head, bareWord] + bare + rest == [head, word] + body + rest <==> bareWord == word && bare == body
  {
    SameParts([head, bareWord] + bare, rest, [head, word] + body, rest);
    SameParts([head, bareWord], bare, [head, word], body);
  }

  lemma {:induction false} UngluedListSame(cs: seq<Cst>)
    requires DerivesAll(cs)
    ensures YieldAll(UngluedAll(cs)) == YieldAll(cs) <==> NoneGlued(YieldAll(cs))
    decreases cs
  {
    hide Derives, Meaning, Yield, NoneGlued, Unglued;
    if cs == [] {
      NothingGlued();
    } else {
      UngluedOne(cs[0]);
      UngluedList(cs[1..]);
      UngluedSame(cs[0]);
      UngluedListSame(cs[1..]);
      assert UngluedAll(cs)[1..] == UngluedAll(cs[1..]);
      NoneGluedParts(Yield(cs[0]), YieldAll(cs[1..]));
      SameParts(Yield(Unglued(cs[0])), YieldAll(UngluedAll(cs[1..])), Yield(cs[0]), YieldAll(cs[1..]));
    }
  }

  lemma NothingGlued()
    ensures NoneGlued([])
  {
  }

  lemma {:induction false} UngluedArmSame(c: Chain, opener: Keyword)
    requires DerivesChain(c, opener) && opener in {KIf, KElif}
    ensures YieldChain(UngluedChain(c)) == YieldChain(c) <==> NoneGlued(YieldChain(c))
    decreases c
  {
    hide FirstKeyword, DerivesAll, YieldAll, AfterFirstWord, DerivesTail, YieldTail, NoneGlued, UngluedAll, UngluedTail;
    BodyWords();
    UngluedList(c.thenBody);
    UngluedListSame(c.thenBody);
    UngluedRest(c.tail);
    UngluedRestSame(c.tail);
    OneGlued(c.head);
    OneGlued(c.thenSeg);
    var inner, bare := YieldAll(c.thenBody), YieldAll(UngluedAll(c.thenBody));
    var rest, bareRest := YieldTail(c.tail), YieldTail(UngluedTail(c.tail));
    FourParts(c.head, c.thenSeg, inner, rest);
    SameParts([c.head, "then"] + bare, bareRest, [c.head, c.thenSeg] + inner, rest);
    SameParts([c.head, "then"], bare, [c.head, c.thenSeg], inner);
  }

  lemma {:induction false} UngluedRestSame(t: Tail)
    requires DerivesTail(t)
    ensures YieldTail(UngluedTail(t)) == YieldTail(t) <==> NoneGlued(YieldTail(t))
    decreases t
  {
    hide FirstKeyword, DerivesAll, YieldAll, DerivesChain, YieldChain, NoneGlued, UngluedAll, UngluedChain;
    match t {
      case Fi =>
        CloserKeywords();
        OneGlued("fi");
      case Else(seg, body) =>
        BodyWords();
        CloserKeywords();
        UngluedList(body);
        UngluedListSame(body);
        OneGlued(seg);
        OneGlued("fi");
        var inner, bare := YieldAll(body), YieldAll(UngluedAll(body));
        NoneGluedParts([seg] + inner, ["fi"]);
        NoneGluedParts([seg], inner);
        SameParts(["else"] + bare, ["fi"], [seg] + inner, ["fi"]);
        SameParts(["else"], bare, [seg], inner);
      case Elif(chain) => UngluedArmSame(chain, KElif);
    }
  }

  /**
   * Every stream that parses to a block parses to the same block without its glued text, as many segments long; it is
   * a different stream, so that text was dropped, exactly when some body keyword carries text.
   */
  lemma GluedTextDropped(segs: seq<string>) returns (bare: seq<string>)
    requires segs != [] && BlockOf(segs).Ok? && BlockOf(segs).value.1 == |segs|
    ensures bare != [] && |bare| == |segs| && BlockOf(bare) == BlockOf(segs)
    ensures exists c :: IsBlock(c) && Yield(c) == segs && bare == Yield(Unglued(c))
    ensures bare == segs <==> NoneGlued(segs)
  {
    hide BlockOf, Derives, Meaning, Yield, Unglued, NoneGlued;
    var c := BlockHasDerivation(segs);
    assert segs[0..|segs|] == segs;
    UngluedOne(c);
    UngluedSame(c);
    bare := Yield(Unglued(c));
    UngluedBlock(c);
    DerivationIsParsed(bare, Unglued(c));
    DerivationIsParsed(segs, c);
  }

  lemma UngluedBlock(c: Cst)
    requires IsBlock(c) && Derives(Unglued(c))
    ensures IsBlock(Unglued(c))
  {
    hide Derives;
  }

  // ---- where the segments come from ----

  /** The collector leaves glued text exactly for two body keywords in a row with text behind them. */
  lemma PieceGlued(raw: string)
    ensures var s := Trim(raw);
            NoneGlued(PieceSegments(raw)) <==>
            s == "" || StartsWithHash(s) || FirstKeyword(s) !in BODY_OPENERS || !Glued(AfterFirstWord(s))
  {
    hide FirstKeyword, AfterFirstWord, StartsWithHash, Trim;
    var s := Trim(raw);
    if s == "" || StartsWithHash(s) {
    } else if Glued(s) {
      BodyWords();
      assert !Glued(Spelling(FirstKeyword(s)));
      NothingBehind();
    } else {
      OneGlued(s);
      if FirstKeyword(s) in BODY_OPENERS {
        BodyWordsAlone();
        NothingBehind();
      }
    }
  }

  lemma BodyWordsAlone()
    ensures AfterFirstWord("do") == "" && AfterFirstWord("then") == "" && AfterFirstWord("else") == ""
  {
    hide FirstWord, KeywordOf;
    AloneAfter("do");
    AloneAfter("then");
    AloneAfter("else");
  }

  lemma AloneAfter(w: string)
    requires Solid(w)
    ensures AfterFirstWord(w) == ""
  {
    hide FirstWord, DropWord;
    DropWordOf("", w, "");
    assert "" + w + "" == w;
  }

  lemma NothingBehind()
    ensures FirstKeyword("") == NoKeyword && !Glued("")
  {
    assert FirstWord("") == "";
  }
}
