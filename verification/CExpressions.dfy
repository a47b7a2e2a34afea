/** Expression trees of the C subset, and the precedence levels of its parser as functions of the remaining tokens. */
module CExpressions {
  import opened Outcomes
  import opened CLexer

  /** The binary operators that C spells. */
  datatype BinOp = Or | And | BitOr | BitXor | BitAnd | Eq | NotEq | Lt | LtEq | Gt | GtEq | Shl | Shr
    | Add | Sub | Mul | FloorDiv | Mod

  datatype UnOp = Neg | Not | BitNot

  datatype CExpr =
    | LitInt(value: int)
    | LitFloat(digits: string)
    | Var(name: string)
    | Call(callee: string, args: seq<CExpr>)
    | Unary(uop: UnOp, operand: CExpr)
    | Binary(bop: BinOp, lhs: CExpr, rhs: CExpr)
    | IfExpr(cond: CExpr, thenExpr: CExpr, elseExpr: CExpr)

  datatype ParseError =
    | Expected(want: Tok, found: Option<Tok>)
    | ExpectedIdentifier(found: Option<Tok>)
    | ExpectedType(found: Option<Tok>)
    | PointerToPointer
    | BareChar
    | UnexpectedInExpression(found: Option<Tok>)
    | UnexpectedStatement(found: Option<Tok>)
    | ReturnInWhile
    | NoReturn
    | NoFunctions

  /** What was parsed, and the tokens after it. */
  datatype Parsed<T> = Parsed(tree: T, rest: seq<Tok>)

  // ---- operators ----

  /** The level of unary operators; the ten binary levels are 1 to 10 and the conditional operator is 0. */
  const UNARY: nat := 11
  const PRIMARY: nat := 12

  function BinaryAt(level: nat, t: Tok): Option<BinOp> {
    match level
    case 1 => if t == Tok.OrOr then Some(Or) else None
    case 2 => if t == Tok.AndAnd then Some(And) else None
    case 3 => if t == Tok.Pipe then Some(BitOr) else None
    case 4 => if t == Tok.Caret then Some(BitXor) else None
    case 5 => if t == Tok.Amp then Some(BitAnd) else None
    case 6 => if t == Tok.EqEq then Some(Eq) else if t == Tok.Ne then Some(NotEq) else None
    case 7 =>
      if t == Tok.Lt then Some(BinOp.Lt) else if t == Tok.Le then Some(LtEq)
      else if t == Tok.Gt then Some(BinOp.Gt) else if t == Tok.Ge then Some(GtEq) else None
    case 8 => if t == Tok.Shl then Some(BinOp.Shl) else if t == Tok.Shr then Some(BinOp.Shr) else None
    case 9 => if t == Tok.Plus then Some(Add) else if t == Tok.Minus then Some(Sub) else None
    case 10 =>
      if t == Tok.Star then Some(Mul) else if t == Tok.Slash then Some(FloorDiv)
      else if t == Tok.Percent then Some(Mod) else None
    case _ => None
  }

  function UnaryOf(t: Tok): Option<UnOp> {
    match t
    case Minus => Some(Neg)
    case Bang => Some(Not)
    case Tilde => Some(BitNot)
    case _ => None
  }

  function First(ts: seq<Tok>): Option<Tok> {
    if ts == [] then None else Some(ts[0])
  }

  predicate Starts(ts: seq<Tok>, t: Tok) {
    ts != [] && ts[0] == t
  }

  function OperatorAt(level: nat, ts: seq<Tok>): Option<BinOp> {
    if ts == [] then None else BinaryAt(level, ts[0])
  }

  // ---- the grammar as functions of the remaining tokens ----

  type ExprResult = Result<Parsed<CExpr>, ParseError>

  function Eat(want: Tok, ts: seq<Tok>): (r: Result<seq<Tok>, ParseError>)
    ensures r.Ok? ==> Starts(ts, want) && r.value == ts[1..]
  {
    if Starts(ts, want) then Ok(ts[1..]) else Err(Expected(want, First(ts)))
  }

  function Conditional(ts: seq<Tok>): (r: ExprResult)
    ensures r.Ok? ==> |r.value.rest| < |ts|
    decreases |ts|, 13
  {
    var cond :- Level(1, ts);
    if Starts(cond.rest, Question) then
      var yes :- Conditional(cond.rest[1..]);
      var afterColon :- Eat(Colon, yes.rest);
      var no :- Conditional(afterColon);
      Ok(Parsed(IfExpr(cond.tree, yes.tree, no.tree), no.rest))
    else
      Ok(cond)
  }

  function Level(level: nat, ts: seq<Tok>): (r: ExprResult)
    requires 1 <= level <= UNARY
    ensures r.Ok? ==> |r.value.rest| < |ts|
    decreases |ts|, 13 - level
  {
    if level == UNARY then UnaryExpr(ts)
    else
      var lhs :- Level(level + 1, ts);
      Climb(level, lhs.tree, lhs.rest)
  }

  /** Folds operators of one level onto `lhs` from the left. */
  function Climb(level: nat, lhs: CExpr, ts: seq<Tok>): (r: ExprResult)
    requires 1 <= level <= UNARY
    ensures r.Ok? ==> |r.value.rest| <= |ts|
    decreases |ts|, 13
  {
    var op := OperatorAt(level, ts);
    if op.Some? then
      assert level < UNARY;
      var rhs :- Level(level + 1, ts[1..]);
      Climb(level, Binary(op.value, lhs, rhs.tree), rhs.rest)
    else
      Ok(Parsed(lhs, ts))
  }

  function UnaryExpr(ts: seq<Tok>): (r: ExprResult)
    ensures r.Ok? ==> |r.value.rest| < |ts|
    decreases |ts|, 1
  {
    if ts != [] && UnaryOf(ts[0]).Some? then
      var x :- UnaryExpr(ts[1..]);
      Ok(Parsed(Unary(UnaryOf(ts[0]).value, x.tree), x.rest))
    else
      Primary(ts)
  }

  function Primary(ts: seq<Tok>): (r: ExprResult)
    ensures r.Ok? ==> |r.value.rest| < |ts|
    decreases |ts|, 0
  {
    if ts == [] then Err(UnexpectedInExpression(None))
    else
      match ts[0]
      case TNum(v) => Ok(Parsed(LitInt(v), ts[1..]))
      case TFNum(digits) => Ok(Parsed(LitFloat(digits), ts[1..]))
      case LParen =>
        var e :- Conditional(ts[1..]);
        var after :- Eat(RParen, e.rest);
        Ok(Parsed(e.tree, after))
      case TIdent(name) =>
        if Starts(ts[1..], LParen) then CallFrom(name, ts[2..]) else Ok(Parsed(Var(name), ts[1..]))
      case t => Err(UnexpectedInExpression(Some(t)))
  }

  /** An argument list from just past its opening parenthesis. */
  function CallFrom(name: string, ts: seq<Tok>): (r: ExprResult)
    ensures r.Ok? ==> |r.value.rest| < |ts|
    decreases |ts|, 15
  {
    if Starts(ts, RParen) then Ok(Parsed(Call(name, []), ts[1..]))
    else
      var args :- Arguments([], ts);
      var after :- Eat(RParen, args.rest);
      Ok(Parsed(Call(name, args.tree), after))
  }

  /** At least one more argument, after the ones already read. */
  function Arguments(before: seq<CExpr>, ts: seq<Tok>): (r: Result<Parsed<seq<CExpr>>, ParseError>)
    ensures r.Ok? ==> |r.value.rest| < |ts|
    decreases |ts|, 14
  {
    var e :- Conditional(ts);
    if Starts(e.rest, Comma) then Arguments(before + [e.tree], e.rest[1..])
    else Ok(Parsed(before + [e.tree], e.rest))
  }
}
