/** C token lists that the parser refuses, and with which answer; and the two ways to write no parameters. */
module CRefusals {
  import opened Outcomes
  import opened CLexer
  import opened CExpressions
  import opened CStatements
  import opened CPrinting
  import opened CReadBack
  import opened CModules

  // ---- expressions ----

  /** An operand can start here. */
  predicate StartsOperand(ts: seq<Tok>) {
    ts != [] && (ts[0].TNum? || ts[0].TFNum? || ts[0].TIdent? || ts[0] in {LParen, Minus, Bang, Tilde})
  }

  lemma {:induction false} LevelRefuses(level: nat, ts: seq<Tok>)
    requires 1 <= level <= UNARY && UnaryExpr(ts).Err?
    ensures Level(level, ts) == UnaryExpr(ts)
    decreases UNARY - level
  {
    hide UnaryExpr, Climb;
    if level < UNARY {
      LevelRefuses(level + 1, ts);
    }
  }

  lemma ExpressionRefuses(ts: seq<Tok>)
    requires UnaryExpr(ts).Err?
    ensures Conditional(ts) == UnaryExpr(ts)
  {
    hide Level, UnaryExpr;
    LevelRefuses(1, ts);
  }

  /** Where no operand starts there is no expression. */
  lemma NoOperand(ts: seq<Tok>)
    requires !StartsOperand(ts)
    ensures Conditional(ts) == Err(UnexpectedInExpression(if ts == [] then None else Some(ts[0])))
  {
    hide Conditional;
    assert UnaryExpr(ts).Err?;
    ExpressionRefuses(ts);
  }

  /** An expression that something else than its closing parenthesis follows. */
  lemma ParenthesisMissing(e: CExpr, rest: seq<Tok>)
    requires EndsAll(rest) && !Starts(rest, RParen)
    ensures Conditional([LParen] + (Show(e, 0) + rest)) == Err(Expected(RParen, First(rest)))
  {
    hide Conditional, Show, EndsAll;
    var ts := [LParen] + (Show(e, 0) + rest);
    ExpressionRoundTrip(e, rest);
    assert ts[1..] == Show(e, 0) + rest;
    assert UnaryExpr(ts) == Err(Expected(RParen, First(rest)));
    ExpressionRefuses(ts);
  }

  /** A statement's expression that something else than the semicolon follows. */
  lemma SemicolonMissing(e: CExpr, rest: seq<Tok>)
    requires EndsAll(rest) && !Starts(rest, Semi)
    ensures Valued(Show(e, 0) + rest) == Err(Expected(Semi, First(rest)))
  {
    hide Conditional, Show, EndsAll;
    ExpressionRoundTrip(e, rest);
  }

  // ---- types and statements ----

  /** Where no type word stands, in front of a function or a parameter. */
  lemma NoType(ts: seq<Tok>)
    requires ts == [] || ts[0] !in {TInt, TLong, TUnsigned, TULong, TDouble, TFloat, TChar}
    ensures TypeAt(ts) == Err(ExpectedType(First(ts)))
  {
  }

  /** Where neither a type other than `char`, `while`, `if` nor a name stands, no statement starts. */
  lemma NoStatement(ts: seq<Tok>)
    requires ts == [] ||
      (ts[0] !in {TInt, TLong, TUnsigned, TULong, TDouble, TFloat, TWhile, TIf} && !ts[0].TIdent?)
    ensures StmtAt(ts) == Err(UnexpectedStatement(First(ts)))
  {
  }

  // ---- statements in front of something else ----

  lemma {:induction false} StmtsReach(early: bool, before: seq<Stmt>, ss: seq<Stmt>, rest: seq<Tok>)
    requires GoodStmts(ss, early) && !Starts(rest, TElse)
    ensures Stmts(early, before, ShowStmts(ss, rest)) == Stmts(early, before + Fresh(ss), rest)
    decreases ss
  {
    hide StmtAt, Valued, ShowStmt, ShowValued, GoodStmt, FreshStmt, Stmts;
    if ss == [] {
      assert before + Fresh(ss) == before;
    } else {
      var s, others := ss[0], ShowStmts(ss[1..], rest);
      StmtsOnce(early, before, ShowStmts(ss, rest));
      StmtsReach(early, before + [FreshStmt(s)], ss[1..], rest);
      assert before + [FreshStmt(s)] + Fresh(ss[1..]) == before + Fresh(ss);
      if s.Return? {
        ReturnShown(s, early, others);
        ValuedRead(s.value, others);
      } else {
        StmtStarts(s, early, others);
        FollowerIsNoElse(ss[1..], early, rest);
        StmtRead(s, early, others);
      }
    }
  }

  lemma {:induction false} BodyReach(before: seq<Stmt>, ss: seq<Stmt>, rest: seq<Tok>)
    requires GoodStmts(ss, false) && !Starts(rest, TElse)
    ensures BodyAt(before, ShowStmts(ss, rest)) == BodyAt(before + Fresh(ss), rest)
    decreases ss
  {
    hide StmtAt, Valued, ShowStmt, GoodStmt, GoodStmts, FreshStmt, BodyAt;
    if ss == [] {
      assert before + Fresh(ss) == before;
    } else {
      var s, others := ss[0], ShowStmts(ss[1..], rest);
      BodyOnce(before, ShowStmts(ss, rest));
      GoodFirst(ss, false);
      NoReturnHere(s);
      StmtStarts(s, false, others);
      FollowerIsNoElse(ss[1..], false, rest);
      StmtRead(s, false, others);
      BodyReach(before + [FreshStmt(s)], ss[1..], rest);
      assert before + [FreshStmt(s)] + Fresh(ss[1..]) == before + Fresh(ss);
    }
  }

  /** A return among the statements of a loop. */
  lemma LoopReturns(cond: CExpr, ss: seq<Stmt>, rest: seq<Tok>)
    requires GoodStmts(ss, false)
    ensures StmtAt([TWhile] + ShowGuard(cond, [LBrace] + ShowStmts(ss, [TReturn] + rest))) == Err(ReturnInWhile)
  {
    hide Guard, Stmts, ShowGuard, ShowStmts, GoodStmts, Fresh;
    var inner := ShowStmts(ss, [TReturn] + rest);
    var body := [LBrace] + inner;
    var ts := [TWhile] + ShowGuard(cond, body);
    GuardRead(cond, body);
    assert ts[1..] == ShowGuard(cond, body);
    EatHead(LBrace, inner);
    StmtsReach(false, [], ss, [TReturn] + rest);
    StmtsOnce(false, [] + Fresh(ss), [TReturn] + rest);
  }

  // ---- a function's header, and what ends it early ----

  function ShowHeader(name: string, params: seq<Param>, returnType: CType, body: seq<Tok>): seq<Tok> {
    ShowType(returnType, [TIdent(name)] + ([LParen] + ShowParams(params, [RParen] + ([LBrace] + body))))
  }

  lemma HeaderShown(name: string, params: seq<Param>, returnType: CType, body: seq<Tok>)
    requires GoodType(returnType) && GoodParams(params)
    ensures HeaderAt(ShowHeader(name, params, returnType, body)) == Ok(Parsed(Header(name, params, returnType), body))
    ensures ShowHeader(name, params, returnType, body) != []
  {
    hide TypeAt, IdentAt, Params, ShowType, ShowParams, GoodType, GoodParams;
    var inner := ShowParams(params, [RParen] + ([LBrace] + body));
    TypeStarts(returnType, [TIdent(name)] + ([LParen] + inner));
    TypeRead(returnType, [TIdent(name)] + ([LParen] + inner));
    IdentRead(name, [LParen] + inner);
    EatHead(LParen, inner);
    ParamsRead(params, [RParen] + ([LBrace] + body));
    EatHead(RParen, [LBrace] + body);
    EatHead(LBrace, body);
  }

  /** A function whose body goes on to its brace without a return; and a module without functions. */
  lemma ReturnMissing(name: string, params: seq<Param>, returnType: CType, ss: seq<Stmt>, rest: seq<Tok>)
    requires GoodType(returnType) && GoodParams(params) && GoodStmts(ss, false)
    ensures ModuleFrom([], ShowHeader(name, params, returnType, ShowStmts(ss, [RBrace] + rest))) == Err(NoReturn)
    ensures ModuleFrom([], []) == Err(NoFunctions)
  {
    hide HeaderAt, BodyAt, ShowHeader, ShowStmts, GoodStmts, GoodParams, GoodType, Fresh;
    HeaderShown(name, params, returnType, ShowStmts(ss, [RBrace] + rest));
    BodyReach([], ss, [RBrace] + rest);
    BodyOnce([] + Fresh(ss), [RBrace] + rest);
  }

  /** `()` and `(void)` say the same. */
  lemma NoParameters(rest: seq<Tok>)
    requires Starts(rest, RParen)
    ensures Params(rest) == Params([TVoid] + rest) == Ok(Parsed([], rest))
  {
    assert ([TVoid] + rest)[1..] == rest;
  }
}
