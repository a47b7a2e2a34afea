/** C expressions as tokens, with parentheses only where the grammar needs them. */
module CPrinting {
  import opened Outcomes
  import opened CLexer
  import opened CExpressions

  function LevelOf(op: BinOp): (level: nat)
    ensures 1 <= level <= 10
  {
    match op
    case Or => 1
    case And => 2
    case BitOr => 3
    case BitXor => 4
    case BitAnd => 5
    case Eq | NotEq => 6
    case Lt | LtEq | Gt | GtEq => 7
    case Shl | Shr => 8
    case Add | Sub => 9
    case Mul | FloorDiv | Mod => 10
  }

  function BinaryToken(op: BinOp): Tok {
    match op
    case Or => Tok.OrOr
    case And => Tok.AndAnd
    case BitOr => Tok.Pipe
    case BitXor => Tok.Caret
    case BitAnd => Tok.Amp
    case Eq => Tok.EqEq
    case NotEq => Tok.Ne
    case Lt => Tok.Lt
    case LtEq => Tok.Le
    case Gt => Tok.Gt
    case GtEq => Tok.Ge
    case Shl => Tok.Shl
    case Shr => Tok.Shr
    case Add => Tok.Plus
    case Sub => Tok.Minus
    case Mul => Tok.Star
    case FloorDiv => Tok.Slash
    case Mod => Tok.Percent
  }

  function UnaryToken(op: UnOp): Tok {
    match op
    case Neg => Tok.Minus
    case Not => Tok.Bang
    case BitNot => Tok.Tilde
  }

  function Rank(e: CExpr): (level: nat)
    ensures level <= PRIMARY
  {
    match e
    case IfExpr(_, _, _) => 0
    case Binary(op, _, _) => LevelOf(op)
    case Unary(_, _) => UNARY
    case _ => PRIMARY
  }

  /** Literals are not negative: a minus sign is an operator. */
  predicate Writable(e: CExpr)
    decreases e, 0
  {
    match e
    case LitInt(v) => 0 <= v <= I64_MAX
    case LitFloat(digits) => Printable(TFNum(digits))
    case Var(name) => Printable(TIdent(name))
    case Call(name, args) => Printable(TIdent(name)) && AllWritable(args)
    case Unary(_, x) => Writable(x)
    case Binary(_, l, r) => Writable(l) && Writable(r)
    case IfExpr(c, t, f) => Writable(c) && Writable(t) && Writable(f)
  }

  predicate AllWritable(es: seq<CExpr>)
    decreases es, 0
  {
    es == [] || (Writable(es[0]) && AllWritable(es[1..]))
  }

  /** Parentheses exactly when `e` binds less tightly than its place. */
  function Show(e: CExpr, level: nat): seq<Tok>
    decreases e, 1
  {
    if Rank(e) < level then [LParen] + Bare(e) + [RParen] else Bare(e)
  }

  function Bare(e: CExpr): (ts: seq<Tok>)
    ensures ts != []
    decreases e, 0
  {
    match e
    case LitInt(v) => [TNum(v)]
    case LitFloat(digits) => [TFNum(digits)]
    case Var(name) => [TIdent(name)]
    case Call(name, args) => [TIdent(name), LParen] + ShowAll(args) + [RParen]
    case Unary(op, x) => [UnaryToken(op)] + Show(x, UNARY)
    case Binary(op, l, r) => Show(l, LevelOf(op)) + [BinaryToken(op)] + Show(r, LevelOf(op) + 1)
    case IfExpr(c, t, f) => Show(c, 1) + [Question] + Show(t, 0) + [Colon] + Show(f, 0)
  }

  function ShowAll(es: seq<CExpr>): seq<Tok>
    decreases es, 0
  {
    if es == [] then []
    else if |es| == 1 then Show(es[0], 0)
    else Show(es[0], 0) + [Comma] + ShowAll(es[1..])
  }

  lemma ShowAtOwnLevel(e: CExpr, level: nat)
    requires level <= Rank(e)
    ensures Show(e, level) == Bare(e)
  {
    hide Bare, Rank;
  }

  // ---- tables ----

  lemma TablesAgree(op: BinOp, level: nat)
    ensures BinaryAt(level, BinaryToken(op)) == if level == LevelOf(op) then Some(op) else None
    ensures BinaryToken(op) != LParen && BinaryToken(op) != Question
  {
  }

  lemma NoneAtUnary(t: Tok)
    ensures BinaryAt(UNARY, t) == None
  {
  }

  lemma LevelIsUnique(level: nat, t: Tok, op: BinOp)
    requires BinaryAt(level, t) == Some(op)
    ensures LevelOf(op) == level
  {
    hide LevelOf, BinaryAt;
    if level <= 6 {
      LooseLevelIsUnique(level, t, op);
    } else {
      TightLevelIsUnique(level, t, op);
    }
  }

  lemma LooseLevelIsUnique(level: nat, t: Tok, op: BinOp)
    requires level <= 6 && BinaryAt(level, t) == Some(op)
    ensures LevelOf(op) == level
  {
  }

  lemma TightLevelIsUnique(level: nat, t: Tok, op: BinOp)
    requires level > 6 && BinaryAt(level, t) == Some(op)
    ensures LevelOf(op) == level
  {
  }

  lemma UnaryTablesAgree(op: UnOp)
    ensures UnaryOf(UnaryToken(op)) == Some(op)
  {
  }

  /** The token after an expression does not continue it at a level above `level`, nor turn a name into a call. */
  predicate Ends(level: nat, rest: seq<Tok>) {
    !Starts(rest, LParen) && forall k :: level < k <= UNARY ==> OperatorAt(k, rest) == None
  }

  predicate EndsAll(rest: seq<Tok>) {
    Ends(0, rest) && !Starts(rest, Question)
  }

  lemma EndsBefore(t: Tok, rest: seq<Tok>)
    requires t in {RParen, Comma, Colon, Semi, Question}
    ensures Ends(0, [t] + rest)
    ensures t != Question ==> EndsAll([t] + rest)
  {
  }

  lemma EndsAtOperator(op: BinOp, rest: seq<Tok>)
    ensures Ends(LevelOf(op), [BinaryToken(op)] + rest)
    ensures OperatorAt(LevelOf(op), [BinaryToken(op)] + rest) == Some(op)
  {
    forall k | LevelOf(op) < k <= UNARY ensures OperatorAt(k, [BinaryToken(op)] + rest) == None {
      TablesAgree(op, k);
    }
    TablesAgree(op, LevelOf(op));
  }
}
