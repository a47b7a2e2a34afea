/** The recursive-descent parser of the C frontend: one cursor over the tokens, moved by every method. */
module CParser {
  import opened Outcomes
  import opened CLexer
  import opened CExpressions
  import opened CStatements

  /** What a call that started at `before` must leave: the parse, and the cursor just past it. */
  ghost predicate Agrees<T>(r: Result<T, ParseError>, after: seq<Tok>, spec: Result<Parsed<T>, ParseError>) {
    match spec
    case Ok(p) => r == Ok(p.tree) && after == p.rest
    case Err(e) => r == Err(e)
  }

  lemma LevelStep(level: nat, ts: seq<Tok>)
    requires 1 <= level <= UNARY
    ensures Level(level, ts) ==
      if level == UNARY then UnaryExpr(ts)
      else
        match Level(level + 1, ts)
        case Ok(lhs) => Climb(level, lhs.tree, lhs.rest)
        case Err(e) => Err(e)
  {
    hide UnaryExpr, Climb;
  }

  lemma ClimbOnce(level: nat, lhs: CExpr, ts: seq<Tok>)
    requires 1 <= level <= UNARY
    ensures OperatorAt(level, ts).Some? ==> level < UNARY
    ensures Climb(level, lhs, ts) ==
      if OperatorAt(level, ts) == None then Ok(Parsed(lhs, ts))
      else
        match Level(level + 1, ts[1..])
        case Ok(rhs) => Climb(level, Binary(OperatorAt(level, ts).value, lhs, rhs.tree), rhs.rest)
        case Err(e) => Err(e)
  {
    hide Level;
  }

  class Parser {
    const toks: seq<Tok>
    var pos: nat

    constructor (toks: seq<Tok>)
      ensures this.toks == toks && pos == 0
    {
      this.toks, pos := toks, 0;
    }

    ghost predicate Valid()
      reads this
    {
      pos <= |toks|
    }

    function Remaining(): seq<Tok>
      requires pos <= |toks|
      reads this
    {
      toks[pos..]
    }

    method Bump() returns (t: Option<Tok>)
      requires Valid()
      modifies this
      ensures Valid() && t == First(old(Remaining()))
      ensures Remaining() == if t.None? then [] else old(Remaining())[1..]
    {
      if pos < |toks| {
        t := Some(toks[pos]);
        pos := pos + 1;
      } else {
        t := None;
      }
    }

    method EatToken(want: Tok) returns (r: Result<(), ParseError>)
      requires Valid()
      modifies this
      ensures Valid()
      ensures r.Ok? <==> Eat(want, old(Remaining())).Ok?
      ensures r.Ok? ==> Remaining() == Eat(want, old(Remaining())).value
      ensures r.Err? ==> r.error == Eat(want, old(Remaining())).error && Remaining() == old(Remaining())
    {
      if pos < |toks| && toks[pos] == want {
        pos := pos + 1;
        r := Ok(());
      } else {
        r := Err(Expected(want, if pos < |toks| then Some(toks[pos]) else None));
      }
    }

    method ParseExpr() returns (r: Result<CExpr, ParseError>)
      requires Valid()
      modifies this
      ensures Valid() && Agrees(r, Remaining(), Conditional(old(Remaining())))
      decreases |toks| - pos, 13
    {
      hide Level;
      ghost var ts := Remaining();
      var cond :- ParseLevel(1);
      if pos < |toks| && toks[pos] == Question {
        pos := pos + 1;
        assert Remaining() == Level(1, ts).value.rest[1..];
        var yes :- ParseExpr();
        var colon := EatToken(Colon);
        if colon.Err? {
          return Err(colon.error);
        }
        var no :- ParseExpr();
        return Ok(IfExpr(cond, yes, no));
      }
      return Ok(cond);
    }

    /** The ten binary levels differ only in their operators and in the level below. */
    method ParseLevel(level: nat) returns (r: Result<CExpr, ParseError>)
      requires Valid() && 1 <= level <= UNARY
      modifies this
      ensures Valid() && Agrees(r, Remaining(), Level(level, old(Remaining())))
      decreases |toks| - pos, 13 - level
    {
      hide UnaryExpr, BinaryAt, Level, Climb;
      LevelStep(level, Remaining());
      if level == UNARY {
        r := ParseUnary();
        return;
      }
      ghost var ts := Remaining();
      var lhs :- ParseLevel(level + 1);
      while pos < |toks| && BinaryAt(level, toks[pos]).Some?
        invariant Valid() && |Remaining()| < |ts|
        invariant Level(level, ts) == Climb(level, lhs, Remaining())
        decreases |toks| - pos
      {
        var op := BinaryAt(level, toks[pos]).value;
        ghost var here := Remaining();
        ClimbOnce(level, lhs, here);
        pos := pos + 1;
        assert Remaining() == here[1..];
        var rhs :- ParseLevel(level + 1);
        lhs := Binary(op, lhs, rhs);
      }
      ClimbOnce(level, lhs, Remaining());
      return Ok(lhs);
    }

    method ParseUnary() returns (r: Result<CExpr, ParseError>)
      requires Valid()
      modifies this
      ensures Valid() && Agrees(r, Remaining(), UnaryExpr(old(Remaining())))
      decreases |toks| - pos, 1
    {
      hide Primary;
      if pos < |toks| && UnaryOf(toks[pos]).Some? {
        var op := UnaryOf(toks[pos]).value;
        ghost var here := Remaining();
        pos := pos + 1;
        assert Remaining() == here[1..];
        var operand :- ParseUnary();
        return Ok(Unary(op, operand));
      }
      r := ParsePrimary();
    }

    method ParsePrimary() returns (r: Result<CExpr, ParseError>)
      requires Valid()
      modifies this
      ensures Valid() && Agrees(r, Remaining(), Primary(old(Remaining())))
      decreases |toks| - pos, 0
    {
      hide Conditional, Arguments;
      var t := Bump();
      if t == None {
        return Err(UnexpectedInExpression(None));
      }
      match t.value {
        case TNum(v) => return Ok(LitInt(v));
        case TFNum(digits) => return Ok(LitFloat(digits));
        case LParen =>
          var e :- ParseExpr();
          var close := EatToken(RParen);
          return if close.Ok? then Ok(e) else Err(close.error);
        case TIdent(name) =>
          if pos < |toks| && toks[pos] == LParen {
            pos := pos + 1;
            r := ParseCall(name);
          } else {
            return Ok(Var(name));
          }
        case other => return Err(UnexpectedInExpression(Some(other)));
      }
    }

    method ParseCall(name: string) returns (r: Result<CExpr, ParseError>)
      requires Valid()
      modifies this
      ensures Valid() && Agrees(r, Remaining(), CallFrom(name, old(Remaining())))
      decreases |toks| - pos, 15
    {
      hide Conditional;
      ghost var ts := Remaining();
      var args: seq<CExpr> := [];
      if !(pos < |toks| && toks[pos] == RParen) {
        var more := true;
        while more
          invariant Valid() && |Remaining()| <= |ts|
          invariant more ==> Arguments([], ts) == Arguments(args, Remaining())
          invariant !more ==> Arguments([], ts) == Ok(Parsed(args, Remaining()))
          decreases |toks| - pos, more
        {
          ghost var here := Remaining();
          var e :- ParseExpr();
          args := args + [e];
          if pos < |toks| && toks[pos] == Comma {
            ghost var there := Remaining();
            pos := pos + 1;
            assert Remaining() == there[1..];
          } else {
            more := false;
          }
        }
      }
      var close := EatToken(RParen);
      return if close.Ok? then Ok(Call(name, args)) else Err(close.error);
    }

    // ---- types, parameters, statements, functions ----

    method ParseBaseType() returns (r: Result<CType, ParseError>)
      requires Valid()
      modifies this
      ensures Valid() && Agrees(r, Remaining(), BaseType(old(Remaining())))
    {
      ghost var ts := Remaining();
      var t := Bump();
      if t == None {
        return Err(ExpectedType(None));
      }
      match t.value {
        case TInt => return Ok(I64);
        case TChar => return Ok(CChar);
        case TLong =>
          Skip(TLong);
          return Ok(CLong);
        case TUnsigned =>
          if pos < |toks| && toks[pos] == TLong {
            pos := pos + 1;
            assert Remaining() == ts[2..];
            Skip(TLong);
            return Ok(CULong);
          }
          Skip(TInt);
          return Ok(CUInt);
        case TULong => return Ok(CULong);
        case TDouble => return Ok(F64);
        case TFloat => return Ok(F32);
        case other => return Err(ExpectedType(Some(other)));
      }
    }

    method Skip(t: Tok)
      requires Valid()
      modifies this
      ensures Valid() && Remaining() == Skipping(t, old(Remaining()))
    {
      if pos < |toks| && toks[pos] == t {
        pos := pos + 1;
      }
    }

    method ParseCType() returns (r: Result<CType, ParseError>)
      requires Valid()
      modifies this
      ensures Valid() && Agrees(r, Remaining(), TypeAt(old(Remaining())))
    {
      hide BaseType;
      var base :- ParseBaseType();
      ghost var rest := Remaining();
      if pos < |toks| && toks[pos] == Star {
        pos := pos + 1;
        assert Remaining() == rest[1..];
        return if pos < |toks| && toks[pos] == Star then Err(PointerToPointer) else Ok(Ptr(base));
      }
      return if base == CChar then Err(BareChar) else Ok(base);
    }

    method ParseIdent() returns (r: Result<string, ParseError>)
      requires Valid()
      modifies this
      ensures Valid() && Agrees(r, Remaining(), IdentAt(old(Remaining())))
    {
      var t := Bump();
      return if t.Some? && t.value.TIdent? then Ok(t.value.name) else Err(ExpectedIdentifier(t));
    }

    method ParseParams() returns (r: Result<seq<Param>, ParseError>)
      requires Valid()
      modifies this
      ensures Valid() && Agrees(r, Remaining(), Params(old(Remaining())))
    {
      hide TypeAt, IdentAt, ParamList;
      ghost var ts := Remaining();
      if pos < |toks| && toks[pos] == RParen {
        return Ok([]);
      }
      if pos < |toks| && toks[pos] == TVoid {
        pos := pos + 1;
        assert Remaining() == ts[1..];
        return Ok([]);
      }
      var params: seq<Param>, more := [], true;
      while more
        invariant Valid()
        invariant more ==> ParamList([], ts) == ParamList(params, Remaining())
        invariant !more ==> ParamList([], ts) == Ok(Parsed(params, Remaining()))
        decreases |toks| - pos, more
      {
        ParamListOnce(params, Remaining());
        var ty :- ParseCType();
        var name :- ParseIdent();
        params := params + [Param(name, ty)];
        if pos < |toks| && toks[pos] == Comma {
          ghost var there := Remaining();
          pos := pos + 1;
          assert Remaining() == there[1..];
        } else {
          more := false;
        }
      }
      return Ok(params);
    }

    method ParseValued() returns (r: Result<CExpr, ParseError>)
      requires Valid()
      modifies this
      ensures Valid() && Agrees(r, Remaining(), Valued(old(Remaining())))
    {
      hide Conditional;
      var e :- ParseExpr();
      var _ :- EatToken(Semi);
      return Ok(e);
    }

    method ParseGuard() returns (r: Result<CExpr, ParseError>)
      requires Valid()
      modifies this
      ensures Valid() && Agrees(r, Remaining(), Guard(old(Remaining())))
    {
      hide Conditional;
      var _ :- EatToken(LParen);
      var e :- ParseExpr();
      var _ :- EatToken(RParen);
      return Ok(e);
    }

    method ParseNameAndValue() returns (r: Result<(string, CExpr), ParseError>)
      requires Valid()
      modifies this
      ensures Valid() && Agrees(r, Remaining(), NameAndValue(old(Remaining())))
    {
      hide Valued;
      var name :- ParseIdent();
      var _ :- EatToken(Tok.Assign);
      var value :- ParseValued();
      return Ok((name, value));
    }

    method ParseStmt() returns (r: Result<Stmt, ParseError>)
      requires Valid()
      modifies this
      ensures Valid() && Agrees(r, Remaining(), StmtAt(old(Remaining())))
      decreases |toks| - pos, 1
    {
      hide TypeAt, NameAndValue, Guard, Block, IfAt;
      ghost var ts := Remaining();
      if pos < |toks| && toks[pos] in {TInt, TLong, TUnsigned, TULong, TDouble, TFloat} {
        var ty :- ParseCType();
        var nv :- ParseNameAndValue();
        return Ok(Let(nv.0, ty, nv.1, false));
      } else if pos < |toks| && toks[pos] == TWhile {
        pos := pos + 1;
        assert Remaining() == ts[1..];
        var cond :- ParseGuard();
        var body :- ParseBlock(false);
        return Ok(While(cond, body));
      } else if pos < |toks| && toks[pos] == TIf {
        r := ParseIf();
      } else if pos < |toks| && toks[pos].TIdent? {
        var nv :- ParseNameAndValue();
        return Ok(Stmt.Assign(nv.0, nv.1));
      } else {
        return Err(UnexpectedStatement(if pos < |toks| then Some(toks[pos]) else None));
      }
    }

    method ParseIf() returns (r: Result<Stmt, ParseError>)
      requires Valid()
      modifies this
      ensures Valid() && Agrees(r, Remaining(), IfAt(old(Remaining())))
      decreases |toks| - pos, 0
    {
      hide Guard, Block, ElseAt;
      var _ :- EatToken(TIf);
      var cond :- ParseGuard();
      var yes :- ParseBlock(true);
      var no :- ParseElse();
      return Ok(If(cond, yes, no));
    }

    method ParseElse() returns (r: Result<seq<Stmt>, ParseError>)
      requires Valid()
      modifies this
      ensures Valid() && Agrees(r, Remaining(), ElseAt(old(Remaining())))
      decreases |toks| - pos, 1
    {
      hide IfAt, Block;
      ghost var ts := Remaining();
      if !(pos < |toks| && toks[pos] == TElse) {
        return Ok([]);
      }
      pos := pos + 1;
      assert Remaining() == ts[1..];
      if pos < |toks| && toks[pos] == TIf {
        var nested :- ParseIf();
        return Ok([nested]);
      }
      r := ParseBlock(true);
    }

    method ParseBlock(early: bool) returns (r: Result<seq<Stmt>, ParseError>)
      requires Valid()
      modifies this
      ensures Valid() && Agrees(r, Remaining(), Block(early, old(Remaining())))
      decreases |toks| - pos, 3
    {
      hide StmtAt, Valued, Stmts;
      var _ :- EatToken(LBrace);
      ghost var ts := Remaining();
      var body: seq<Stmt> := [];
      while !(pos < |toks| && toks[pos] == RBrace)
        invariant Valid() && |Remaining()| <= |ts|
        invariant Stmts(early, [], ts) == Stmts(early, body, Remaining())
        decreases |toks| - pos
      {
        StmtsOnce(early, body, Remaining());
        if pos < |toks| && toks[pos] == TReturn {
          if !early {
            return Err(ReturnInWhile);
          }
          ghost var here := Remaining();
          pos := pos + 1;
          assert Remaining() == here[1..];
          var e :- ParseValued();
          body := body + [Return(e)];
        } else {
          var s :- ParseStmt();
          body := body + [s];
        }
      }
      StmtsOnce(early, body, Remaining());
      // The loop stops only at a closing brace, so this one is there.
      var _ := EatToken(RBrace);
      return Ok(body);
    }

    method ParseBody() returns (r: Result<Body, ParseError>)
      requires Valid()
      modifies this
      ensures Valid() && Agrees(r, Remaining(), BodyAt([], old(Remaining())))
    {
      hide StmtAt, Valued, Marked, Reassigned, BodyAt;
      ghost var ts := Remaining();
      var stmts: seq<Stmt> := [];
      while !(pos < |toks| && toks[pos] == RBrace)
        invariant Valid()
        invariant BodyAt([], ts) == BodyAt(stmts, Remaining())
        decreases |toks| - pos
      {
        BodyOnce(stmts, Remaining());
        if pos < |toks| && toks[pos] == TReturn {
          ghost var here := Remaining();
          pos := pos + 1;
          assert Remaining() == here[1..];
          var e :- ParseValued();
          stmts := MarkMutable(stmts);
          return Ok(Body(stmts, e));
        }
        var s :- ParseStmt();
        stmts := stmts + [s];
      }
      BodyOnce(stmts, Remaining());
      return Err(NoReturn);
    }

    method ParseHeader() returns (r: Result<Header, ParseError>)
      requires Valid()
      modifies this
      ensures Valid() && Agrees(r, Remaining(), HeaderAt(old(Remaining())))
    {
      hide TypeAt, IdentAt, Params;
      var ty :- ParseCType();
      var name :- ParseIdent();
      var _ :- EatToken(LParen);
      var params :- ParseParams();
      var _ :- EatToken(RParen);
      var _ :- EatToken(LBrace);
      return Ok(Header(name, params, ty));
    }

    method ParseFunction() returns (r: Result<Function, ParseError>)
      requires Valid()
      modifies this
      ensures Valid() && Agrees(r, Remaining(), FunctionAt(old(Remaining())))
    {
      hide HeaderAt, BodyAt;
      var header :- ParseHeader();
      var body :- ParseBody();
      var _ :- EatToken(RBrace);
      return Ok(Function(header.name, header.params, header.returnType, body.stmts, body.trailing));
    }

    method ParseModule() returns (r: Result<seq<Function>, ParseError>)
      requires Valid()
      modifies this
      ensures r == ModuleFrom([], old(Remaining()))
    {
      hide FunctionAt;
      ghost var ts := Remaining();
      var items: seq<Function> := [];
      while pos < |toks|
        invariant Valid()
        invariant ModuleFrom([], ts) == ModuleFrom(items, Remaining())
        decreases |toks| - pos
      {
        var f :- ParseFunction();
        items := items + [f];
      }
      return if items == [] then Err(NoFunctions) else Ok(items);
    }
  }

  // ---- mutability ----

  method CollectReassigned(ss: seq<Stmt>, before: set<string>) returns (names: set<string>)
    ensures names == before + Reassigned(ss)
    decreases ss
  {
    hide Reassigned;
    names := before;
    assert ss[0..] == ss && ss[|ss|..] == [];
    for i := 0 to |ss|
      invariant names + Reassigned(ss[i..]) == before + Reassigned(ss)
    {
      ReassignedStep(ss, i);
      match ss[i] {
        case Assign(name, _) => names := names + {name};
        case While(_, body) => names := CollectReassigned(body, names);
        case If(_, yes, no) =>
          names := CollectReassigned(yes, names);
          names := CollectReassigned(no, names);
        case _ =>
      }
    }
    NothingReassigned();
  }

  lemma ReassignedStep(ss: seq<Stmt>, i: nat)
    requires i < |ss|
    ensures Reassigned(ss[i..]) == ReassignedBy(ss[i]) + Reassigned(ss[i + 1..])
  {
    assert ss[i..][1..] == ss[i + 1..];
  }

  lemma NothingReassigned()
    ensures Reassigned([]) == {}
  {
  }

  /** The statement list is rewritten element by element. */
  method SetLetMut(ss: seq<Stmt>, names: set<string>) returns (marked: seq<Stmt>)
    ensures marked == Marked(ss, names)
    decreases ss
  {
    hide Marked;
    marked := [];
    MarkedParts(ss, names);
    for i := 0 to |ss|
      invariant |marked| == i && forall k :: 0 <= k < i ==> marked[k] == MarkedStmt(ss[k], names)
    {
      var s := ss[i];
      match s {
        case Let(name, _, _, _) =>
          if name in names {
            s := s.(mutable := true);
          }
        case While(_, body) =>
          var inner := SetLetMut(body, names);
          s := s.(body := inner);
        case If(_, yes, no) =>
          var first := SetLetMut(yes, names);
          var second := SetLetMut(no, names);
          s := s.(thenBody := first, elseBody := second);
        case _ =>
      }
      marked := marked + [s];
    }
  }

  lemma {:induction false} MarkedParts(ss: seq<Stmt>, names: set<string>)
    ensures forall k :: 0 <= k < |ss| ==> Marked(ss, names)[k] == MarkedStmt(ss[k], names)
  {
    if ss != [] {
      MarkedParts(ss[1..], names);
    }
  }

  method MarkMutable(ss: seq<Stmt>) returns (marked: seq<Stmt>)
    ensures marked == Marked(ss, Reassigned(ss))
  {
    var names := CollectReassigned(ss, {});
    assert names == Reassigned(ss);
    marked := SetLetMut(ss, names);
  }
}
