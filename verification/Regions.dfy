/**
 * `collect_block_region`: the segments of one block, cut where a depth counter returns to zero,
 * and its agreement with the recursive parser that reads them.
 */
module Regions {
  import opened Outcomes
  import opened Text
  import opened ShellAst
  import opened FlatLines
  import opened Blocks
  import opened Grammar

  /** The region's segments and the line after it. */
  type Region = Result<(seq<string>, nat), Refusal>

  const BODY_OPENERS: set<Keyword> := {KDo, KThen, KElse}
  const BLOCK_OPENERS: set<Keyword> := {KFor, KWhile, KUntil, KIf}

  // ---- segments ----

  /** One `;` piece: nothing, a segment, or a body keyword and the command it was written in front of. */
  function PieceSegments(raw: string): seq<string> {
    var s := Trim(raw);
    if s == "" || StartsWithHash(s) then []
    else
      var keyword := FirstKeyword(s);
      if keyword in BODY_OPENERS && s != Spelling(keyword) then
        [Spelling(keyword)] + (if AfterFirstWord(s) == "" then [] else [AfterFirstWord(s)])
      else [s]
  }

  function Pieces(line: string): seq<string> {
    if line == "" || StartsWithHash(line) then [] else Split(line, SEMICOLON)
  }

  function AllPieceSegments(pieces: seq<string>): seq<string> {
    if pieces == [] then [] else PieceSegments(pieces[0]) + AllPieceSegments(pieces[1..])
  }

  // ---- depth ----

  function DepthStep(seg: string): int {
    match FirstKeyword(seg)
    case KFor | KWhile | KUntil | KIf => 1
    case KDone | KFi => -1
    case _ => 0
  }

  function Depth(segs: seq<string>): int {
    if segs == [] then 0 else DepthStep(segs[0]) + Depth(segs[1..])
  }

  function Last(segs: seq<string>): string
    requires segs != []
  {
    segs[|segs| - 1]
  }

  /** Only a closer can end the region, and only when it brings the depth to zero. */
  predicate ClosesRegion(seg: string, depth: int) {
    DepthStep(seg) == -1 && depth - 1 == 0
  }

  function Ahead(before: seq<string>, r: Region): Region {
    match r
    case Err(e) => Err(e)
    case Ok((segs, next)) => Ok((before + segs, next))
  }

  /** The pieces still to read on the current line, then the lines from `li` on. */
  function CollectFrom(pieces: seq<string>, lines: seq<string>, li: nat, depth: int): (r: Region)
    requires li <= |lines|
    ensures r.Ok? ==> li <= r.value.1 <= |lines|
    decreases |lines| - li, |pieces|
  {
    if pieces != [] then
      var segs := PieceSegments(pieces[0]);
      if segs == [] then CollectFrom(pieces[1..], lines, li, depth)
      else if ClosesRegion(Last(segs), depth) then Ok((segs, li))
      else Ahead(segs, CollectFrom(pieces[1..], lines, li, depth + DepthStep(Last(segs))))
    else if li == |lines| then Err(UnterminatedBlock)
    else CollectFrom(Pieces(lines[li]), lines, li + 1, depth)
  }

  function BlockRegion(lines: seq<string>, start: nat): (r: Region)
    requires start < |lines|
    ensures r.Ok? ==> start < r.value.1 <= |lines|
  {
    CollectFrom([], lines, start, 0)
  }

  // ---- the loop the source runs ----

  lemma AheadAhead(xs: seq<string>, ys: seq<string>, r: Region)
    ensures Ahead(xs, Ahead(ys, r)) == Ahead(xs + ys, r)
  {
    if r.Ok? {
      assert xs + (ys + r.value.0) == xs + ys + r.value.0;
    }
  }

  lemma AheadNothing(r: Region)
    ensures Ahead([], r) == r
  {
    if r.Ok? {
      assert [] + r.value.0 == r.value.0;
    }
  }

  method CollectBlockRegion(lines: seq<string>, start: nat) returns (r: Region)
    requires start < |lines|
    ensures r == BlockRegion(lines, start)
  {
    hide PieceSegments, Pieces, DepthStep;
    var segs: seq<string> := [];
    var depth := 0;
    var li := start;
    AheadNothing(BlockRegion(lines, start));
    while li < |lines|
      invariant start <= li <= |lines|
      invariant BlockRegion(lines, start) == Ahead(segs, CollectFrom([], lines, li, depth))
    {
      var pieces := Pieces(lines[li]);
      li := li + 1;
      assert pieces[0..] == pieces;
      for p := 0 to |pieces|
        invariant BlockRegion(lines, start) == Ahead(segs, CollectFrom(pieces[p..], lines, li, depth))
      {
        assert pieces[p..][1..] == pieces[p + 1..];
        var more := PieceSegments(pieces[p]);
        if more == [] {
          continue;
        }
        if ClosesRegion(Last(more), depth) {
          return Ok((segs + more, li));
        }
        depth := depth + DepthStep(Last(more));
        AheadAhead(segs, more, CollectFrom(pieces[p + 1..], lines, li, depth));
        segs := segs + more;
      }
      assert pieces[|pieces|..] == [];
    }
    return Err(UnterminatedBlock);
  }

  // ---- the depth of what the parser consumes ----

  lemma {:induction false} DepthAppend(a: seq<string>, b: seq<string>)
    ensures Depth(a + b) == Depth(a) + Depth(b)
  {
    hide DepthStep;
    if a == [] {
      assert a + b == b;
    } else {
      assert (a + b)[1..] == a[1..] + b;
      DepthAppend(a[1..], b);
    }
  }

  /** Every derivation is balanced. */
  lemma {:induction false} DerivationBalanced(c: Cst)
    requires Derives(c)
    ensures Depth(Yield(c)) == 0
    decreases c
  {
    hide FirstKeyword, ControlFlowKeyword, FlatLine, LoopHeader, AfterFirstWord;
    match c {
      case Flat(seg) =>
        FlatHasNoFirstKeyword(seg);
      case Loop(header, doSeg, body) =>
        CloserKeywords();
        DerivationsBalanced(body);
        DepthAppend([header, doSeg] + YieldAll(body), ["done"]);
        DepthAppend([header, doSeg], YieldAll(body));
      case Conditional(chain) =>
        ChainDepth(chain, KIf);
    }
  }

  lemma {:induction false} DerivationsBalanced(cs: seq<Cst>)
    requires DerivesAll(cs)
    ensures Depth(YieldAll(cs)) == 0
    decreases cs
  {
    hide DepthStep, Derives, Yield;
    if cs != [] {
      DerivationBalanced(cs[0]);
      DerivationsBalanced(cs[1..]);
      DepthAppend(Yield(cs[0]), YieldAll(cs[1..]));
    }
  }

  /** An `if` chain is balanced; the part of it that starts at an `elif` closes one level. */
  lemma {:induction false} ChainDepth(c: Chain, opener: Keyword)
    requires DerivesChain(c, opener) && opener in {KIf, KElif}
    ensures Depth(YieldChain(c)) == if opener == KIf then 0 else -1
    decreases c
  {
    hide FirstKeyword, AfterFirstWord, DerivesAll, YieldAll, DerivesTail, YieldTail;
    DerivationsBalanced(c.thenBody);
    TailDepth(c.tail);
    DepthAppend([c.head, c.thenSeg] + YieldAll(c.thenBody), YieldTail(c.tail));
    DepthAppend([c.head, c.thenSeg], YieldAll(c.thenBody));
  }

  lemma {:induction false} TailDepth(t: Tail)
    requires DerivesTail(t)
    ensures Depth(YieldTail(t)) == -1
    decreases t
  {
    hide FirstKeyword, AfterFirstWord, DerivesAll, YieldAll, DerivesChain, YieldChain;
    CloserKeywords();
    match t {
      case Fi =>
      case Else(seg, body) =>
        DerivationsBalanced(body);
        DepthAppend([seg] + YieldAll(body), ["fi"]);
        DepthAppend([seg], YieldAll(body));
      case Elif(chain) =>
        ChainDepth(chain, KElif);
    }
  }

  // ---- the depth of what the collector collects ----

  /** From depth `d` inside a block: zero at the end, positive at every proper prefix. */
  ghost predicate ClosesOnlyAtEnd(segs: seq<string>, d: int) {
    && d + Depth(segs) == 0
    && forall k :: 0 <= k < |segs| ==> d + Depth(segs[..k]) > 0
  }

  lemma BodyOpenersAreNeutral(k: Keyword)
    requires k in BODY_OPENERS
    ensures DepthStep(Spelling(k)) == 0
  {
    SpellingRoundTrip(k);
    FirstWordAlone(Spelling(k));
  }

  lemma PieceDepth(raw: string)
    requires PieceSegments(raw) != []
    ensures var segs := PieceSegments(raw);
            Depth(segs) == DepthStep(Last(segs)) && forall k :: 0 <= k < |segs| ==> Depth(segs[..k]) == 0
  {
    hide DepthStep, FirstKeyword, AfterFirstWord, StartsWithHash;
    var segs := PieceSegments(raw);
    if |segs| == 2 {
      BodyOpenersAreNeutral(FirstKeyword(Trim(raw)));
      assert segs[1..] == [segs[1]] && segs[..1] == [segs[0]];
      assert Depth(segs[1..]) == DepthStep(segs[1]);
    }
  }

  lemma ClosesAfter(a: seq<string>, b: seq<string>, d: int)
    requires ClosesOnlyAtEnd(b, d + Depth(a)) && forall k :: 0 <= k < |a| ==> d + Depth(a[..k]) > 0
    ensures ClosesOnlyAtEnd(a + b, d)
  {
    hide DepthStep;
    DepthAppend(a, b);
    forall k | 0 <= k < |a + b| ensures d + Depth((a + b)[..k]) > 0 {
      if k < |a| {
        assert (a + b)[..k] == a[..k];
      } else {
        assert (a + b)[..k] == a + b[..k - |a|];
        DepthAppend(a, b[..k - |a|]);
      }
    }
  }

  lemma {:induction false} RegionDepth(pieces: seq<string>, lines: seq<string>, li: nat, d: int)
    requires li <= |lines| && d > 0 && CollectFrom(pieces, lines, li, d).Ok?
    ensures ClosesOnlyAtEnd(CollectFrom(pieces, lines, li, d).value.0, d)
    decreases |lines| - li, |pieces|
  {
    hide PieceSegments, Pieces, DepthStep;
    if pieces == [] {
      RegionDepth(Pieces(lines[li]), lines, li + 1, d);
    } else {
      var segs := PieceSegments(pieces[0]);
      if segs == [] {
        RegionDepth(pieces[1..], lines, li, d);
      } else {
        PieceDepth(pieces[0]);
        if !ClosesRegion(Last(segs), d) {
          var next := d + DepthStep(Last(segs));
          StepIsSmall(Last(segs));
          RegionDepth(pieces[1..], lines, li, next);
          ClosesAfter(segs, CollectFrom(pieces[1..], lines, li, next).value.0, d);
        }
      }
    }
  }

  lemma StepIsSmall(seg: string)
    ensures -1 <= DepthStep(seg) <= 1
  {
    hide FirstKeyword;
  }

  /** A line that starts with a block keyword gives that keyword's segment first. */
  lemma OpeningPiece(line: string)
    requires FirstKeyword(line) in BLOCK_OPENERS && Trim(line) == line
    ensures Pieces(line) != []
    ensures PieceSegments(Pieces(line)[0]) == [Trim(Pieces(line)[0])]
    ensures FirstKeyword(Trim(Pieces(line)[0])) == FirstKeyword(line)
  {
    FirstWordSurvivesSplit(line, SEMICOLON);
    var piece := Split(line, SEMICOLON)[0];
    FirstWordOfTrim(piece);
    KeywordSpelled(FirstWord(line));
    SpellingRoundTrip(FirstKeyword(line));
    TrimTwice(piece);
    NotHash(line);
    NotHash(Trim(piece));
  }

  lemma NotHash(s: string)
    requires KeywordOf(FirstWord(s)) != NoKeyword && Trim(s) == s
    ensures s != "" && !StartsWithHash(s)
  {
    var pre, rest := FirstWordShape(s);
    var w := FirstWord(s);
    KeywordSpelled(w);
    SpellingRoundTrip(KeywordOf(w));
    var p, q := TrimShape(s);
    assert s[0] == (pre + w + rest)[0];
  }

  lemma OpenedRegion(lines: seq<string>, start: nat)
    requires start < |lines| && FirstKeyword(lines[start]) in BLOCK_OPENERS && Trim(lines[start]) == lines[start]
    requires BlockRegion(lines, start).Ok?
    ensures var segs := BlockRegion(lines, start).value.0;
            && segs != [] && Depth(segs) == 0
            && (forall k :: 0 < k < |segs| ==> Depth(segs[..k]) > 0)
            && FirstKeyword(segs[0]) == FirstKeyword(lines[start])
  {
    hide PieceSegments, Pieces, FirstKeyword;
    OpeningPiece(lines[start]);
    var pieces := Pieces(lines[start]);
    var head := PieceSegments(pieces[0]);
    assert Last(head) == head[0] && DepthStep(head[0]) == 1;
    var rest := CollectFrom(pieces[1..], lines, start + 1, 1);
    assert CollectFrom(pieces, lines, start + 1, 0) == Ahead(head, rest);
    assert BlockRegion(lines, start) == CollectFrom(pieces, lines, start + 1, 0);
    RegionDepth(pieces[1..], lines, start + 1, 1);
    var segs := BlockRegion(lines, start).value.0;
    assert segs == head + rest.value.0;
    DepthAppend(head, rest.value.0);
    assert Depth(head) == 1 by {
      assert head[1..] == [];
    }
    forall k | 0 < k < |segs| ensures Depth(segs[..k]) > 0 {
      assert segs[..k] == head + rest.value.0[..k - 1];
      DepthAppend(head, rest.value.0[..k - 1]);
    }
  }

  // ---- parse_block ----

  /** `parse_block`: collect, parse, and drop the parser's own end index. */
  function BlockAt(lines: seq<string>, start: nat): (r: Block)
    requires start < |lines|
    ensures r.Ok? ==> start < r.value.1 <= |lines|
  {
    var (segs, next) :- BlockRegion(lines, start);
    if segs == [] then Err(UnterminatedBlock)
    else
      var (stmt, _) :- BlockOf(segs);
      Ok((stmt, next))
  }

  method ParseBlock(lines: seq<string>, start: nat) returns (r: Block)
    requires start < |lines|
    requires FirstKeyword(lines[start]) in BLOCK_OPENERS && Trim(lines[start]) == lines[start]
    ensures r == BlockAt(lines, start)
  {
    hide FirstKeyword;
    var region := CollectBlockRegion(lines, start);
    if region.Err? {
      return Err(region.error);
    }
    var (segs, next) := region.value;
    OpenedRegion(lines, start);
    var block: Block;
    if FirstKeyword(segs[0]) == KIf {
      block := ParseIfAt(segs, 0);
    } else {
      block := ParseLoopAt(segs, 0);
    }
    if block.Err? {
      return Err(block.error);
    }
    return Ok((block.value.0, next));
  }

  /**
   * The depth counter and the recursive parser agree on every input: whenever the parser accepts a
   * collected region, the end index that `parse_block` throws away is the region's length.
   */
  lemma ParserConsumesWholeRegion(lines: seq<string>, start: nat)
    requires start < |lines| && FirstKeyword(lines[start]) in BLOCK_OPENERS && Trim(lines[start]) == lines[start]
    requires BlockAt(lines, start).Ok?
    ensures var segs := BlockRegion(lines, start).value.0;
            segs != [] && BlockOf(segs) == Ok((BlockAt(lines, start).value.0, |segs|))
  {
    hide FirstKeyword, BlockOf, BlockRegion;
    OpenedRegion(lines, start);
    var segs := BlockRegion(lines, start).value.0;
    var c := BlockHasDerivation(segs);
    DerivationBalanced(c);
    var end := BlockOf(segs).value.1;
    BlockEnds(segs);
    assert segs[0..end] == segs[..end];
  }

  lemma BlockEnds(segs: seq<string>)
    requires segs != [] && BlockOf(segs).Ok?
    ensures 0 < BlockOf(segs).value.1 <= |segs|
  {
    hide FirstKeyword;
  }
}
