/** Types, statements, functions and modules of the C subset, as functions of the remaining tokens. */
module CStatements {
  import opened Outcomes
  import opened CLexer
  import opened CExpressions

  /** Every pointer is a `*mut` pointer. */
  datatype CType = I64 | CLong | CUInt | CULong | F64 | F32 | CChar | Ptr(pointee: CType)

  datatype Stmt =
    | Let(name: string, ty: CType, value: CExpr, mutable: bool)
    | Assign(name: string, value: CExpr)
    | If(cond: CExpr, thenBody: seq<Stmt>, elseBody: seq<Stmt>)
    | While(cond: CExpr, body: seq<Stmt>)
    | Return(value: CExpr)

  datatype Param = Param(name: string, ty: CType)

  datatype Function = Function(name: string, params: seq<Param>, returnType: CType, body: seq<Stmt>, trailing: CExpr)

  type Outcome<T> = Result<Parsed<T>, ParseError>

  // ---- types and parameters ----

  function BaseType(ts: seq<Tok>): (r: Outcome<CType>)
    ensures r.Ok? ==> |r.value.rest| < |ts|
  {
    if ts == [] then Err(ExpectedType(None))
    else
      match ts[0]
      case TInt => Ok(Parsed(I64, ts[1..]))
      case TChar => Ok(Parsed(CChar, ts[1..]))
      case TLong => Ok(Parsed(CLong, Skipping(TLong, ts[1..])))
      case TUnsigned =>
        if Starts(ts[1..], TLong) then Ok(Parsed(CULong, Skipping(TLong, ts[2..])))
        else Ok(Parsed(CUInt, Skipping(TInt, ts[1..])))
      case TULong => Ok(Parsed(CULong, ts[1..]))
      case TDouble => Ok(Parsed(F64, ts[1..]))
      case TFloat => Ok(Parsed(F32, ts[1..]))
      case t => Err(ExpectedType(Some(t)))
  }

  function Skipping(t: Tok, ts: seq<Tok>): seq<Tok> {
    if Starts(ts, t) then ts[1..] else ts
  }

  /** At most one level of pointer; `char` only behind one. */
  function TypeAt(ts: seq<Tok>): (r: Outcome<CType>)
    ensures r.Ok? ==> |r.value.rest| < |ts|
  {
    var base :- BaseType(ts);
    if Starts(base.rest, Star) then
      if Starts(base.rest[1..], Star) then Err(PointerToPointer) else Ok(Parsed(Ptr(base.tree), base.rest[1..]))
    else if base.tree == CChar then Err(BareChar)
    else Ok(base)
  }

  function IdentAt(ts: seq<Tok>): (r: Outcome<string>)
    ensures r.Ok? ==> |r.value.rest| < |ts|
  {
    if ts != [] && ts[0].TIdent? then Ok(Parsed(ts[0].name, ts[1..])) else Err(ExpectedIdentifier(First(ts)))
  }

  function ParamAt(ts: seq<Tok>): (r: Outcome<Param>)
    ensures r.Ok? ==> |r.value.rest| < |ts|
  {
    var ty :- TypeAt(ts);
    var name :- IdentAt(ty.rest);
    Ok(Parsed(Param(name.tree, ty.tree), name.rest))
  }

  function ParamList(before: seq<Param>, ts: seq<Tok>): (r: Outcome<seq<Param>>)
    ensures r.Ok? ==> |r.value.rest| < |ts|
    decreases |ts|
  {
    var p :- ParamAt(ts);
    if Starts(p.rest, Comma) then ParamList(before + [p.tree], p.rest[1..]) else Ok(Parsed(before + [p.tree], p.rest))
  }

  lemma ParamListOnce(before: seq<Param>, ts: seq<Tok>)
    ensures var p := ParamAt(ts);
      ParamList(before, ts) ==
      if p.Err? then Err(p.error)
      else if Starts(p.value.rest, Comma) then ParamList(before + [p.value.tree], p.value.rest[1..])
      else Ok(Parsed(before + [p.value.tree], p.value.rest))
  {
    hide ParamAt;
  }

  /** `()` and `(void)` have no parameters. */
  function Params(ts: seq<Tok>): (r: Outcome<seq<Param>>)
    ensures r.Ok? ==> |r.value.rest| <= |ts|
  {
    if Starts(ts, RParen) then Ok(Parsed([], ts))
    else if Starts(ts, TVoid) then Ok(Parsed([], ts[1..]))
    else ParamList([], ts)
  }

  // ---- statements ----

  /** `expr ;` after the keyword or the assignment sign. */
  function Valued(ts: seq<Tok>): (r: Outcome<CExpr>)
    ensures r.Ok? ==> |r.value.rest| < |ts|
  {
    var e :- Conditional(ts);
    var rest :- Eat(Semi, e.rest);
    Ok(Parsed(e.tree, rest))
  }

  /** `( expr )` */
  function Guard(ts: seq<Tok>): (r: Outcome<CExpr>)
    ensures r.Ok? ==> |r.value.rest| < |ts|
  {
    var inner :- Eat(LParen, ts);
    var e :- Conditional(inner);
    var rest :- Eat(RParen, e.rest);
    Ok(Parsed(e.tree, rest))
  }

  /** `name = expr ;` */
  function NameAndValue(ts: seq<Tok>): (r: Outcome<(string, CExpr)>)
    ensures r.Ok? ==> |r.value.rest| < |ts|
  {
    var name :- IdentAt(ts);
    var after :- Eat(Tok.Assign, name.rest);
    var value :- Valued(after);
    Ok(Parsed((name.tree, value.tree), value.rest))
  }

  predicate StartsType(ts: seq<Tok>) {
    ts != [] && ts[0] in {TInt, TLong, TUnsigned, TULong, TDouble, TFloat}
  }

  function StmtAt(ts: seq<Tok>): (r: Outcome<Stmt>)
    ensures r.Ok? ==> |r.value.rest| < |ts|
    decreases |ts|, 1
  {
    if StartsType(ts) then
      var ty :- TypeAt(ts);
      var nv :- NameAndValue(ty.rest);
      Ok(Parsed(Let(nv.tree.0, ty.tree, nv.tree.1, false), nv.rest))
    else if Starts(ts, TWhile) then
      var cond :- Guard(ts[1..]);
      var body :- Block(false, cond.rest);
      Ok(Parsed(While(cond.tree, body.tree), body.rest))
    else if Starts(ts, TIf) then IfAt(ts)
    else if ts != [] && ts[0].TIdent? then
      var nv :- NameAndValue(ts);
      Ok(Parsed(Stmt.Assign(nv.tree.0, nv.tree.1), nv.rest))
    else Err(UnexpectedStatement(First(ts)))
  }

  function IfAt(ts: seq<Tok>): (r: Outcome<Stmt>)
    ensures r.Ok? ==> |r.value.rest| < |ts|
    decreases |ts|, 0
  {
    var header :- Eat(TIf, ts);
    var cond :- Guard(header);
    var yes :- Block(true, cond.rest);
    var no :- ElseAt(yes.rest);
    Ok(Parsed(If(cond.tree, yes.tree, no.tree), no.rest))
  }

  /** The else body, empty without `else`; `else if` nests as its only statement. */
  function ElseAt(ts: seq<Tok>): (r: Outcome<seq<Stmt>>)
    ensures r.Ok? ==> |r.value.rest| <= |ts|
    decreases |ts|, 1
  {
    if !Starts(ts, TElse) then Ok(Parsed([], ts))
    else if Starts(ts[1..], TIf) then
      var nested :- IfAt(ts[1..]);
      Ok(Parsed([nested.tree], nested.rest))
    else Block(true, ts[1..])
  }

  /** `{ statements }`; `early` says whether an early return may stand among them. */
  function Block(early: bool, ts: seq<Tok>): (r: Outcome<seq<Stmt>>)
    ensures r.Ok? ==> |r.value.rest| < |ts|
    decreases |ts|, 3
  {
    var inner :- Eat(LBrace, ts);
    var body :- Stmts(early, [], inner);
    var rest :- Eat(RBrace, body.rest);
    Ok(Parsed(body.tree, rest))
  }

  /** The statements before the next closing brace, after the ones already read. */
  function Stmts(early: bool, before: seq<Stmt>, ts: seq<Tok>): (r: Outcome<seq<Stmt>>)
    ensures r.Ok? ==> |r.value.rest| <= |ts|
    decreases |ts|, 2
  {
    if Starts(ts, RBrace) then Ok(Parsed(before, ts))
    else if Starts(ts, TReturn) then
      if !early then Err(ReturnInWhile)
      else
        var e :- Valued(ts[1..]);
        Stmts(early, before + [Return(e.tree)], e.rest)
    else
      var s :- StmtAt(ts);
      Stmts(early, before + [s.tree], s.rest)
  }

  lemma StmtsOnce(early: bool, before: seq<Stmt>, ts: seq<Tok>)
    ensures Starts(ts, RBrace) ==> Stmts(early, before, ts) == Ok(Parsed(before, ts))
    ensures Starts(ts, TReturn) && !early ==> Stmts(early, before, ts) == Err(ReturnInWhile)
    ensures Starts(ts, TReturn) && early ==>
      var e := Valued(ts[1..]);
      Stmts(early, before, ts) ==
      if e.Ok? then Stmts(early, before + [Return(e.value.tree)], e.value.rest) else Err(e.error)
    ensures !Starts(ts, RBrace) && !Starts(ts, TReturn) ==>
      var s := StmtAt(ts);
      Stmts(early, before, ts) == if s.Ok? then Stmts(early, before + [s.value.tree], s.value.rest) else Err(s.error)
  {
    hide StmtAt, Valued;
  }

  // ---- mutability ----

  /** `collect_reassigned`: the names assigned at any depth. */
  function Reassigned(ss: seq<Stmt>): set<string>
    decreases ss
  {
    if ss == [] then {} else ReassignedBy(ss[0]) + Reassigned(ss[1..])
  }

  function ReassignedBy(s: Stmt): set<string>
    decreases s
  {
    match s
    case Assign(name, _) => {name}
    case While(_, body) => Reassigned(body)
    case If(_, yes, no) => Reassigned(yes) + Reassigned(no)
    case _ => {}
  }

  /** `set_let_mut`: every declaration of one of the names, at any depth, becomes mutable. */
  function Marked(ss: seq<Stmt>, names: set<string>): (r: seq<Stmt>)
    ensures |r| == |ss|
    decreases ss
  {
    if ss == [] then [] else [MarkedStmt(ss[0], names)] + Marked(ss[1..], names)
  }

  function MarkedStmt(s: Stmt, names: set<string>): Stmt
    decreases s
  {
    match s
    case Let(name, ty, value, mutable) => Let(name, ty, value, mutable || name in names)
    case While(cond, body) => While(cond, Marked(body, names))
    case If(cond, yes, no) => If(cond, Marked(yes, names), Marked(no, names))
    case _ => s
  }

  // ---- functions and modules ----

  datatype Body = Body(stmts: seq<Stmt>, trailing: CExpr)

  /** The trailing return ends the body; everything before it is a statement. */
  function BodyAt(before: seq<Stmt>, ts: seq<Tok>): (r: Outcome<Body>)
    ensures r.Ok? ==> |r.value.rest| < |ts|
    decreases |ts|
  {
    if Starts(ts, RBrace) then Err(NoReturn)
    else if Starts(ts, TReturn) then
      var e :- Valued(ts[1..]);
      Ok(Parsed(Body(Marked(before, Reassigned(before)), e.tree), e.rest))
    else
      var s :- StmtAt(ts);
      BodyAt(before + [s.tree], s.rest)
  }

  /** Everything of a function before its body. */
  datatype Header = Header(name: string, params: seq<Param>, returnType: CType)

  function HeaderAt(ts: seq<Tok>): (r: Outcome<Header>)
    ensures r.Ok? ==> |r.value.rest| < |ts|
  {
    var ty :- TypeAt(ts);
    var name :- IdentAt(ty.rest);
    var inner :- Eat(LParen, name.rest);
    var params :- Params(inner);
    var close :- Eat(RParen, params.rest);
    var brace :- Eat(LBrace, close);
    Ok(Parsed(Header(name.tree, params.tree, ty.tree), brace))
  }

  lemma BodyOnce(before: seq<Stmt>, ts: seq<Tok>)
    ensures Starts(ts, RBrace) ==> BodyAt(before, ts) == Err(NoReturn)
    ensures Starts(ts, TReturn) ==>
      var e := Valued(ts[1..]);
      BodyAt(before, ts) ==
      if e.Ok? then Ok(Parsed(Body(Marked(before, Reassigned(before)), e.value.tree), e.value.rest)) else Err(e.error)
    ensures !Starts(ts, RBrace) && !Starts(ts, TReturn) ==>
      var s := StmtAt(ts);
      BodyAt(before, ts) == if s.Ok? then BodyAt(before + [s.value.tree], s.value.rest) else Err(s.error)
  {
    hide StmtAt, Valued, Marked, Reassigned;
  }

  function FunctionAt(ts: seq<Tok>): (r: Outcome<Function>)
    ensures r.Ok? ==> |r.value.rest| < |ts|
  {
    var header :- HeaderAt(ts);
    var body :- BodyAt([], header.rest);
    var rest :- Eat(RBrace, body.rest);
    var h, b := header.tree, body.tree;
    Ok(Parsed(Function(h.name, h.params, h.returnType, b.stmts, b.trailing), rest))
  }

  function ModuleFrom(before: seq<Function>, ts: seq<Tok>): Result<seq<Function>, ParseError>
    decreases |ts|
  {
    if ts == [] then if before == [] then Err(NoFunctions) else Ok(before)
    else
      var f :- FunctionAt(ts);
      ModuleFrom(before + [f.tree], f.rest)
  }
}
