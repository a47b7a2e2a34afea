/** Every form of a C statement and of a function, token by token, and what it is read as. */
module CForms {
  import opened Outcomes
  import opened CLexer
  import opened CExpressions
  import opened CStatements
  import opened CPrinting
  import opened CModules

  /** `T name = e;` and `name = e;`, for every type a local can have and every expression. */
  lemma AssignmentForms(ty: CType, name: string, e: CExpr, rest: seq<Tok>)
    requires GoodLocalType(ty)
    ensures StmtAt(ShowType(ty, [TIdent(name), Tok.Assign] + (Show(e, 0) + ([Semi] + rest)))) ==
            Ok(Parsed(Let(name, ty, e, false), rest))
    ensures StmtAt([TIdent(name), Tok.Assign] + (Show(e, 0) + ([Semi] + rest))) ==
            Ok(Parsed(Stmt.Assign(name, e), rest))
  {
    hide TypeAt, NameAndValue, ShowType, Show, GoodType;
    var named := [TIdent(name), Tok.Assign] + (Show(e, 0) + ([Semi] + rest));
    assert named == ShowNamed(name, e, rest) by {
      assert [TIdent(name), Tok.Assign] == [TIdent(name)] + [Tok.Assign];
    }
    NamedRead(name, e, rest);
    TypeStarts(ty, named);
    TypeRead(ty, named);
  }

  /** `while ( e ) { statements }`, in which no statement returns. */
  lemma WhileForm(e: CExpr, body: seq<Stmt>, rest: seq<Tok>)
    requires GoodStmts(body, false)
    ensures StmtAt([TWhile, LParen] + (Show(e, 0) + ([RParen, LBrace] + ShowStmts(body, [RBrace] + rest)))) ==
            Ok(Parsed(While(e, Fresh(body)), rest))
  {
    hide Guard, Block, Show, ShowStmts, GoodStmts, Fresh;
    var block := [LBrace] + ShowStmts(body, [RBrace] + rest);
    var guard := [LParen] + (Show(e, 0) + ([RParen] + block));
    var ts := [TWhile, LParen] + (Show(e, 0) + ([RParen, LBrace] + ShowStmts(body, [RBrace] + rest)));
    assert [RParen, LBrace] + ShowStmts(body, [RBrace] + rest) == [RParen] + block;
    assert ts[1..] == guard;
    GuardRead(e, block);
    BlockRead(body, false, rest);
  }

  /** `if ( e ) { statements }`, with no `else`, with an `else` body, or with another `if` behind the `else`. */
  lemma IfForms(e: CExpr, yes: seq<Stmt>, no: seq<Stmt>, next: Stmt, rest: seq<Tok>)
    requires GoodStmts(yes, true) && GoodStmts(no, true) && GoodStmt(next, true) && next.If? && !Starts(rest, TElse)
    ensures StmtAt(IfTokens(e, yes, rest)) == Ok(Parsed(If(e, Fresh(yes), []), rest))
    ensures StmtAt(IfTokens(e, yes, [TElse, LBrace] + ShowStmts(no, [RBrace] + rest))) ==
            Ok(Parsed(If(e, Fresh(yes), Fresh(no)), rest))
    ensures StmtAt(IfTokens(e, yes, [TElse] + ShowStmt(next, rest))) ==
            Ok(Parsed(If(e, Fresh(yes), [FreshStmt(next)]), rest))
  {
    hide IfTokens, ElseAt, ShowStmts, ShowStmt, GoodStmts, GoodStmt, Fresh, FreshStmt, Block;
    var block := [LBrace] + ShowStmts(no, [RBrace] + rest);
    assert [TElse, LBrace] + ShowStmts(no, [RBrace] + rest) == [TElse] + block;
    ElseForms(no, next, rest);
    IfRead(e, yes, rest);
    IfRead(e, yes, [TElse] + block);
    IfRead(e, yes, [TElse] + ShowStmt(next, rest));
  }

  /** `if ( e ) { statements }` in front of `behind`. */
  function IfTokens(e: CExpr, yes: seq<Stmt>, behind: seq<Tok>): seq<Tok> {
    [TIf, LParen] + (Show(e, 0) + ([RParen, LBrace] + ShowStmts(yes, [RBrace] + behind)))
  }

  lemma IfRead(e: CExpr, yes: seq<Stmt>, behind: seq<Tok>)
    requires GoodStmts(yes, true)
    ensures StmtAt(IfTokens(e, yes, behind)) ==
      match ElseAt(behind)
      case Ok(no) => Ok(Parsed(If(e, Fresh(yes), no.tree), no.rest))
      case Err(error) => Err(error)
  {
    hide Guard, Block, ElseAt, Show, ShowStmts, GoodStmts, Fresh;
    var block := [LBrace] + ShowStmts(yes, [RBrace] + behind);
    var guard := [LParen] + (Show(e, 0) + ([RParen] + block));
    var ts := IfTokens(e, yes, behind);
    assert [RParen, LBrace] + ShowStmts(yes, [RBrace] + behind) == [RParen] + block;
    assert ts == [TIf] + guard && ts[1..] == guard;
    GuardRead(e, block);
    BlockRead(yes, true, behind);
  }

  lemma ElseForms(no: seq<Stmt>, next: Stmt, rest: seq<Tok>)
    requires GoodStmts(no, true) && GoodStmt(next, true) && next.If? && !Starts(rest, TElse)
    ensures ElseAt(rest) == Ok(Parsed([], rest))
    ensures ElseAt([TElse] + ([LBrace] + ShowStmts(no, [RBrace] + rest))) == Ok(Parsed(Fresh(no), rest))
    ensures ElseAt([TElse] + ShowStmt(next, rest)) == Ok(Parsed([FreshStmt(next)], rest))
  {
    hide Block, IfAt, ShowStmts, GoodStmts, GoodStmt, Fresh, FreshStmt;
    var block := [LBrace] + ShowStmts(no, [RBrace] + rest);
    assert ([TElse] + block)[1..] == block && !Starts(block, TIf);
    BlockRead(no, true, rest);
    assert ([TElse] + ShowStmt(next, rest))[1..] == ShowStmt(next, rest);
    IfStarts(next, rest);
    CModules.IfRead(next, true, rest);
  }

  lemma IfStarts(s: Stmt, rest: seq<Tok>)
    requires s.If?
    ensures Starts(ShowStmt(s, rest), TIf)
  {
    hide ShowGuard;
  }

  /** `return e;` among the statements of an `if` body. */
  lemma ReturnForm(before: seq<Stmt>, e: CExpr, rest: seq<Tok>)
    ensures Stmts(true, before, [TReturn] + (Show(e, 0) + ([Semi] + rest))) == Stmts(true, before + [Return(e)], rest)
  {
    hide Valued, Show, Stmts;
    var ts := [TReturn] + (Show(e, 0) + ([Semi] + rest));
    assert ts[1..] == ShowValued(e, rest);
    ValuedRead(e, rest);
    StmtsOnce(true, before, ts);
  }

  /** `T name , more`, and the last parameter in front of the closing parenthesis. */
  lemma ParameterForms(ty: CType, name: string, more: seq<Param>, rest: seq<Tok>)
    requires GoodType(ty) && GoodParams(more) && Starts(rest, RParen)
    ensures Params(ShowType(ty, [TIdent(name)] + rest)) == Ok(Parsed([Param(name, ty)], rest))
    ensures more != [] ==>
      Params(ShowType(ty, [TIdent(name), Comma] + ShowParams(more, rest))) ==
      Ok(Parsed([Param(name, ty)] + more, rest))
  {
    hide ParamAt, ShowType, ShowParams, ParamList, GoodType, GoodParams;
    var p := Param(name, ty);
    TypeStarts(ty, [TIdent(name)] + rest);
    ParamRead(p, rest);
    ParamListOnce([], ShowType(ty, [TIdent(name)] + rest));
    assert [] + [p] == [p];
    if more != [] {
      var tail := [Comma] + ShowParams(more, rest);
      assert [TIdent(name), Comma] + ShowParams(more, rest) == [TIdent(name)] + tail;
      TypeStarts(ty, [TIdent(name)] + tail);
      ParamRead(p, tail);
      assert tail[1..] == ShowParams(more, rest);
      ParamListOnce([], ShowType(ty, [TIdent(name)] + tail));
      ParamListRead([p], more, rest);
    }
  }

  /** `T name ( parameters ) { statements return e; }`, with the reassigned locals marked. */
  lemma FunctionForm(name: string, params: seq<Param>, ty: CType, body: seq<Stmt>, e: CExpr, rest: seq<Tok>)
    requires GoodType(ty) && GoodParams(params) && GoodStmts(body, false)
    ensures FunctionAt(ShowType(ty, [TIdent(name), LParen] + ShowParams(params,
              [RParen, LBrace] + ShowStmts(body, [TReturn] + (Show(e, 0) + ([Semi, RBrace] + rest)))))) ==
            Ok(Parsed(Function(name, params, ty, Marked(Fresh(body), Reassigned(body)), e), rest))
  {
    hide TypeAt, IdentAt, Params, BodyAt, ShowType, ShowParams, ShowStmts, Show, GoodType, GoodParams, GoodStmts,
         Marked, Reassigned, Fresh;
    var end := [TReturn] + ShowValued(e, [RBrace] + rest);
    var tokens := ShowStmts(body, end);
    assert [Semi, RBrace] + rest == [Semi] + ([RBrace] + rest);
    var close := [RParen] + ([LBrace] + tokens);
    assert [RParen, LBrace] + tokens == close;
    var inner := ShowParams(params, close);
    assert [TIdent(name), LParen] + inner == [TIdent(name)] + ([LParen] + inner);
    TypeRead(ty, [TIdent(name)] + ([LParen] + inner));
    IdentRead(name, [LParen] + inner);
    EatHead(LParen, inner);
    ParamsRead(params, close);
    EatHead(RParen, [LBrace] + tokens);
    EatHead(LBrace, tokens);
    BodyRead([], body, e, [RBrace] + rest);
    assert [] + Fresh(body) == Fresh(body);
    MarkedFresh(body, {});
    EatHead(RBrace, rest);
  }
}
