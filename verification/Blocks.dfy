/** The recursive-descent parser over command-position segments: loops, conditionals and their bodies. */
module Blocks {
  import opened Outcomes
  import opened Text
  import opened ShellAst
  import opened Tokenizer
  import opened FlatLines

  /** Statements, the index reached, and the terminator found there (`NoKeyword` at the end of input). */
  type Sequence = Result<(seq<Stmt>, nat, Keyword), Refusal>

  /** A statement and the index after it. */
  type Block = Result<(Stmt, nat), Refusal>

  const LOOP_OPENERS: set<Keyword> := {KFor, KWhile, KUntil}
  const BODY_TERMINATORS: set<Keyword> := {KDone, KElif, KElse, KFi}

  function Then(before: seq<Stmt>, r: Sequence): Sequence {
    match r
    case Err(e) => Err(e)
    case Ok((stmts, end, term)) => Ok((before + stmts, end, term))
  }

  lemma ThenThen(xs: seq<Stmt>, ys: seq<Stmt>, r: Sequence)
    ensures Then(xs, Then(ys, r)) == Then(xs + ys, r)
  {
    if r.Ok? {
      assert xs + (ys + r.value.0) == xs + ys + r.value.0;
    }
  }

  lemma ThenNothing(r: Sequence)
    ensures Then([], r) == r
  {
    if r.Ok? {
      assert [] + r.value.0 == r.value.0;
    }
  }

  function AsList(s: Option<Stmt>): seq<Stmt> {
    if s.Some? then [s.value] else []
  }

  // ---- loop headers ----

  function ForItems(ts: seq<RawToken>): Result<seq<Expr>, Refusal> {
    if ts == [] then Ok([])
    else if ts[0] == Bare("do") then Err(DoAmongItems)
    else
      var item :- LowerRawToken(ts[0]);
      After([item], ForItems(ts[1..]))
  }

  function ForHeader(header: string): Result<LoopKind, Refusal> {
    var ts :- Tokenize(header);
    if |ts| == 0 || ts[0] != Bare("for") then Err(MalformedForHeader)
    else if |ts| == 1 || !ts[1].Bare? || !IsPosixIdentifier(ts[1].text) then Err(ForVariableNotIdentifier)
    else if |ts| == 2 then Err(ForWithoutItems)
    else if ts[2] != Bare("in") then Err(ForWithoutIn)
    else
      var items :- ForItems(ts[3..]);
      Ok(For(ts[1].text, items))
  }

  /** `for` items are lowered; a `while` or `until` condition stays the opaque text it is. */
  function LoopHeader(header: string): Result<LoopKind, Refusal> {
    match FirstKeyword(header)
    case KFor => ForHeader(header)
    case KWhile =>
      var cond := AfterFirstWord(header);
      if cond == "" then Err(EmptyLoopCondition) else Ok(While(LitStr(cond)))
    case KUntil =>
      var cond := AfterFirstWord(header);
      if cond == "" then Err(EmptyLoopCondition) else Ok(Until(LitStr(cond)))
    case _ => Err(UnknownLoopHeader)
  }

  // ---- the parser as functions of a position ----

  function SegmentSeq(segs: seq<string>, pos: nat, terminators: set<Keyword>): (r: Sequence)
    requires pos <= |segs| && NoKeyword !in terminators
    ensures r.Ok? ==> pos <= r.value.1 <= |segs|
    ensures r.Ok? && terminators != {} ==> r.value.1 < |segs| && r.value.2 in terminators
    ensures r.Ok? && terminators == {} ==> r.value.1 == |segs| && r.value.2 == NoKeyword
    decreases |segs| - pos, 2
  {
    if pos == |segs| then
      if terminators == {} then Ok(([], pos, NoKeyword)) else Err(UnterminatedBlock)
    else
      var seg := segs[pos];
      var keyword := FirstKeyword(seg);
      if keyword in terminators then
        if keyword in {KDone, KFi} && seg != Spelling(keyword) then Err(TextAfterCloser)
        else Ok(([], pos, keyword))
      else
        match keyword
        case KFor | KWhile | KUntil =>
          var (block, next) :- LoopAt(segs, pos);
          Then([block], SegmentSeq(segs, next, terminators))
        case KIf =>
          var (block, next) :- IfAt(segs, pos);
          Then([block], SegmentSeq(segs, next, terminators))
        case KDo | KDone | KThen | KElif | KElse | KFi => Err(StrayKeyword)
        case KCase | KEsac => Err(NestedCase)
        case NoKeyword =>
          if ControlFlowKeyword(seg) != NoKeyword then Err(KeywordAfterOperator)
          else
            var stmt :- FlatLine(seg);
            Then(AsList(stmt), SegmentSeq(segs, pos + 1, terminators))
  }

  function LoopAt(segs: seq<string>, start: nat): (r: Block)
    requires start < |segs|
    ensures r.Ok? ==> start + 2 < r.value.1 <= |segs|
    decreases |segs| - start, 1
  {
    var kind :- LoopHeader(segs[start]);
    if start + 1 >= |segs| || FirstKeyword(segs[start + 1]) != KDo then Err(LoopWithoutDo)
    else
      var (body, done, _) :- SegmentSeq(segs, start + 2, {KDone});
      Ok((ShellLoop(kind, body), done + 1))
  }

  /** `if` or `elif` at `start`; an `elif` becomes a conditional alone in the else body. */
  function IfAt(segs: seq<string>, start: nat): (r: Block)
    requires start < |segs|
    ensures r.Ok? ==> start + 2 < r.value.1 <= |segs|
    decreases |segs| - start, 1
  {
    var cond := AfterFirstWord(segs[start]);
    if cond == "" then Err(EmptyIfCondition)
    else if start + 1 >= |segs| || FirstKeyword(segs[start + 1]) != KThen then Err(IfWithoutThen)
    else
      var (thenBody, end, term) :- SegmentSeq(segs, start + 2, {KElif, KElse, KFi});
      var (elseBody, next) :- ElseAt(segs, end, term);
      Ok((ShellIf(LitStr(cond), thenBody, elseBody), next))
  }

  /** What follows a then-body: nothing, a nested conditional, or an else body. */
  function ElseAt(segs: seq<string>, end: nat, term: Keyword): (r: Result<(seq<Stmt>, nat), Refusal>)
    requires end < |segs|
    ensures r.Ok? ==> end < r.value.1 <= |segs|
    decreases |segs| - end, 2
  {
    match term
    case KFi => Ok(([], end + 1))
    case KElif =>
      var (nested, next) :- IfAt(segs, end);
      Ok(([nested], next))
    case KElse =>
      var (elseBody, fi, _) :- SegmentSeq(segs, end + 1, {KFi});
      Ok((elseBody, fi + 1))
    case _ => Err(IfWithoutFi)
  }

  // ---- one step of the sequence parser ----

  lemma StopsAt(segs: seq<string>, pos: nat, keyword: Keyword, terminators: set<Keyword>)
    requires pos < |segs| && NoKeyword !in terminators
    requires FirstKeyword(segs[pos]) == keyword && keyword in terminators
    requires keyword in {KDone, KFi} ==> segs[pos] == Spelling(keyword)
    ensures SegmentSeq(segs, pos, terminators) == Ok(([], pos, keyword))
  {
    hide FirstKeyword;
  }

  lemma StepsOverLoop(segs: seq<string>, pos: nat, terminators: set<Keyword>)
    requires pos < |segs| && terminators <= BODY_TERMINATORS
    requires FirstKeyword(segs[pos]) in LOOP_OPENERS && LoopAt(segs, pos).Ok?
    ensures var (block, next) := LoopAt(segs, pos).value;
            SegmentSeq(segs, pos, terminators) == Then([block], SegmentSeq(segs, next, terminators))
  {
    hide FirstKeyword, LoopAt;
  }

  lemma StepsOverIf(segs: seq<string>, pos: nat, terminators: set<Keyword>)
    requires pos < |segs| && terminators <= BODY_TERMINATORS
    requires FirstKeyword(segs[pos]) == KIf && IfAt(segs, pos).Ok?
    ensures var (block, next) := IfAt(segs, pos).value;
            SegmentSeq(segs, pos, terminators) == Then([block], SegmentSeq(segs, next, terminators))
  {
    hide FirstKeyword, IfAt;
  }

  lemma StepsOverFlat(segs: seq<string>, pos: nat, terminators: set<Keyword>)
    requires pos < |segs| && NoKeyword !in terminators
    requires FirstKeyword(segs[pos]) == NoKeyword == ControlFlowKeyword(segs[pos]) && FlatLine(segs[pos]).Ok?
    ensures SegmentSeq(segs, pos, terminators) ==
            Then(AsList(FlatLine(segs[pos]).value), SegmentSeq(segs, pos + 1, terminators))
  {
    hide FirstKeyword, ControlFlowKeyword, FlatLine;
  }

  // ---- the loops the source runs ----

  method ParseForHeader(header: string) returns (r: Result<LoopKind, Refusal>)
    ensures r == ForHeader(header)
  {
    var ts :- TokenizeLine(header);
    if |ts| == 0 || ts[0] != Bare("for") {
      return Err(MalformedForHeader);
    }
    if |ts| == 1 || !ts[1].Bare? || !IsPosixIdentifier(ts[1].text) {
      return Err(ForVariableNotIdentifier);
    }
    if |ts| == 2 {
      return Err(ForWithoutItems);
    }
    if ts[2] != Bare("in") {
      return Err(ForWithoutIn);
    }
    var items: seq<Expr> := [];
    AfterNothing(ForItems(ts[3..]));
    for i := 3 to |ts|
      invariant ForItems(ts[3..]) == After(items, ForItems(ts[i..]))
    {
      assert ts[i..][1..] == ts[i + 1..];
      if ts[i] == Bare("do") {
        return Err(DoAmongItems);
      }
      var item := LowerRawToken(ts[i]);
      if item.Err? {
        return Err(item.error);
      }
      AfterAfter(items, [item.value], ForItems(ts[i + 1..]));
      items := items + [item.value];
    }
    assert items + [] == items;
    return Ok(For(ts[1].text, items));
  }

  method ParseLoopHeader(header: string) returns (r: Result<LoopKind, Refusal>)
    ensures r == LoopHeader(header)
  {
    var keyword := FirstKeyword(header);
    if keyword == KFor {
      r := ParseForHeader(header);
    } else if keyword == KWhile || keyword == KUntil {
      var cond := AfterFirstWord(header);
      if cond == "" {
        return Err(EmptyLoopCondition);
      }
      return Ok(if keyword == KWhile then While(LitStr(cond)) else Until(LitStr(cond)));
    } else {
      return Err(UnknownLoopHeader);
    }
  }

  method ParseSegmentSeq(segs: seq<string>, pos: nat, terminators: set<Keyword>) returns (r: Sequence)
    requires pos <= |segs| && NoKeyword !in terminators
    ensures r == SegmentSeq(segs, pos, terminators)
    decreases |segs| - pos, 2
  {
    hide FirstKeyword, ControlFlowKeyword, FlatLine, Spelling, LoopAt, IfAt;
    var stmts: seq<Stmt> := [];
    var i := pos;
    ThenNothing(SegmentSeq(segs, pos, terminators));
    while i < |segs|
      invariant pos <= i <= |segs|
      invariant SegmentSeq(segs, pos, terminators) == Then(stmts, SegmentSeq(segs, i, terminators))
    {
      var seg := segs[i];
      var keyword := FirstKeyword(seg);
      if keyword in terminators {
        if keyword in {KDone, KFi} && seg != Spelling(keyword) {
          return Err(TextAfterCloser);
        }
        assert stmts + [] == stmts;
        return Ok((stmts, i, keyword));
      }
      match keyword {
        case KFor | KWhile | KUntil =>
          var block := ParseLoopAt(segs, i);
          if block.Err? {
            return Err(block.error);
          }
          ThenThen(stmts, [block.value.0], SegmentSeq(segs, block.value.1, terminators));
          stmts, i := stmts + [block.value.0], block.value.1;
        case KIf =>
          var block := ParseIfAt(segs, i);
          if block.Err? {
            return Err(block.error);
          }
          ThenThen(stmts, [block.value.0], SegmentSeq(segs, block.value.1, terminators));
          stmts, i := stmts + [block.value.0], block.value.1;
        case KDo | KDone | KThen | KElif | KElse | KFi =>
          return Err(StrayKeyword);
        case KCase | KEsac =>
          return Err(NestedCase);
        case NoKeyword =>
          if ControlFlowKeyword(seg) != NoKeyword {
            return Err(KeywordAfterOperator);
          }
          var stmt := LowerFlatLine(seg);
          if stmt.Err? {
            return Err(stmt.error);
          }
          ThenThen(stmts, AsList(stmt.value), SegmentSeq(segs, i + 1, terminators));
          stmts, i := stmts + AsList(stmt.value), i + 1;
      }
    }
    if terminators != {} {
      return Err(UnterminatedBlock);
    }
    assert stmts + [] == stmts;
    return Ok((stmts, i, NoKeyword));
  }

  method ParseLoopAt(segs: seq<string>, start: nat) returns (r: Block)
    requires start < |segs|
    ensures r == LoopAt(segs, start)
    decreases |segs| - start, 1
  {
    hide FirstKeyword, LoopHeader, SegmentSeq;
    var kind := ParseLoopHeader(segs[start]);
    if kind.Err? {
      return Err(kind.error);
    }
    if start + 1 >= |segs| || FirstKeyword(segs[start + 1]) != KDo {
      return Err(LoopWithoutDo);
    }
    var body := ParseSegmentSeq(segs, start + 2, {KDone});
    if body.Err? {
      return Err(body.error);
    }
    return Ok((ShellLoop(kind.value, body.value.0), body.value.1 + 1));
  }

  method ParseIfAt(segs: seq<string>, start: nat) returns (r: Block)
    requires start < |segs|
    ensures r == IfAt(segs, start)
    decreases |segs| - start, 1
  {
    hide FirstKeyword, AfterFirstWord, SegmentSeq;
    var cond := AfterFirstWord(segs[start]);
    if cond == "" {
      return Err(EmptyIfCondition);
    }
    if start + 1 >= |segs| || FirstKeyword(segs[start + 1]) != KThen {
      return Err(IfWithoutThen);
    }
    var thenBody := ParseSegmentSeq(segs, start + 2, {KElif, KElse, KFi});
    if thenBody.Err? {
      return Err(thenBody.error);
    }
    var (stmts, end, term) := thenBody.value;
    match term {
      case KFi =>
        return Ok((ShellIf(LitStr(cond), stmts, []), end + 1));
      case KElif =>
        var nested := ParseIfAt(segs, end);
        if nested.Err? {
          return Err(nested.error);
        }
        return Ok((ShellIf(LitStr(cond), stmts, [nested.value.0]), nested.value.1));
      case KElse =>
        var elseBody := ParseSegmentSeq(segs, end + 1, {KFi});
        if elseBody.Err? {
          return Err(elseBody.error);
        }
        return Ok((ShellIf(LitStr(cond), stmts, elseBody.value.0), elseBody.value.1 + 1));
      case _ =>
        return Err(IfWithoutFi);
    }
  }
}
