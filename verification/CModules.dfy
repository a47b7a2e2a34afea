/** Whole C modules printed and read back: types, parameters, statements with their `else if` chains, functions. */
module CModules {
  import opened Outcomes
  import opened CLexer
  import opened CExpressions
  import opened CStatements
  import opened CPrinting
  import opened CReadBack

  // ---- the printed form, each part in front of what follows it ----

  function ShowType(ty: CType, rest: seq<Tok>): seq<Tok> {
    match ty
    case I64 => [TInt] + rest
    case CLong => [TLong] + rest
    case CUInt => [TUnsigned] + rest
    case CULong => [TULong] + rest
    case F64 => [TDouble] + rest
    case F32 => [TFloat] + rest
    case CChar => [TChar] + rest
    case Ptr(pointee) => ShowType(pointee, [Star] + rest)
  }

  function ShowParam(p: Param, rest: seq<Tok>): seq<Tok> {
    ShowType(p.ty, [TIdent(p.name)] + rest)
  }

  function ShowParams(ps: seq<Param>, rest: seq<Tok>): seq<Tok> {
    if ps == [] then rest
    else if |ps| == 1 then ShowParam(ps[0], rest)
    else ShowParam(ps[0], [Comma] + ShowParams(ps[1..], rest))
  }

  function ShowValued(e: CExpr, rest: seq<Tok>): seq<Tok> {
    Show(e, 0) + ([Semi] + rest)
  }

  function ShowGuard(e: CExpr, rest: seq<Tok>): seq<Tok> {
    [LParen] + (Show(e, 0) + ([RParen] + rest))
  }

  function ShowNamed(name: string, e: CExpr, rest: seq<Tok>): seq<Tok> {
    [TIdent(name)] + ([Tok.Assign] + ShowValued(e, rest))
  }

  function ShowStmt(s: Stmt, rest: seq<Tok>): seq<Tok>
    decreases s, 0
  {
    match s
    case Let(name, ty, value, _) => ShowType(ty, ShowNamed(name, value, rest))
    case Assign(name, value) => ShowNamed(name, value, rest)
    case If(cond, yes, no) => [TIf] + ShowGuard(cond, ShowBlock(yes, ShowElse(no, rest)))
    case While(cond, body) => [TWhile] + ShowGuard(cond, ShowBlock(body, rest))
    case Return(value) => [TReturn] + ShowValued(value, rest)
  }

  /** A lone `if` in an else body is written as `else if`. */
  function ShowElse(ss: seq<Stmt>, rest: seq<Tok>): seq<Tok>
    decreases ss, 2
  {
    if ss == [] then rest
    else if |ss| == 1 && ss[0].If? then [TElse] + ShowStmt(ss[0], rest)
    else [TElse] + ShowBlock(ss, rest)
  }

  function ShowBlock(ss: seq<Stmt>, rest: seq<Tok>): seq<Tok>
    decreases ss, 1
  {
    [LBrace] + ShowStmts(ss, [RBrace] + rest)
  }

  function ShowStmts(ss: seq<Stmt>, rest: seq<Tok>): seq<Tok>
    decreases ss, 0
  {
    if ss == [] then rest else ShowStmt(ss[0], ShowStmts(ss[1..], rest))
  }

  function ShowFunction(f: Function, rest: seq<Tok>): seq<Tok> {
    var body := ShowStmts(f.body, [TReturn] + ShowValued(f.trailing, [RBrace] + rest));
    ShowType(f.returnType, [TIdent(f.name)] + ([LParen] + ShowParams(f.params, [RParen] + ([LBrace] + body))))
  }

  function ModuleTokens(fs: seq<Function>): seq<Tok> {
    if fs == [] then [] else ShowFunction(fs[0], ModuleTokens(fs[1..]))
  }

  // ---- what can be written ----

  predicate GoodName(name: string) {
    Printable(TIdent(name))
  }

  /** No pointer to a pointer, and no `char` but behind one. */
  predicate GoodType(ty: CType) {
    match ty
    case CChar => false
    case Ptr(pointee) => !pointee.Ptr?
    case _ => true
  }

  /** A local declaration cannot begin with `char`. */
  predicate GoodLocalType(ty: CType) {
    GoodType(ty) && ty != Ptr(CChar)
  }

  predicate GoodStmt(s: Stmt, early: bool)
    decreases s
  {
    match s
    case Let(name, ty, value, _) => GoodName(name) && GoodLocalType(ty) && Writable(value)
    case Assign(name, value) => GoodName(name) && Writable(value)
    case If(cond, yes, no) => Writable(cond) && GoodStmts(yes, true) && GoodStmts(no, true)
    case While(cond, body) => Writable(cond) && GoodStmts(body, false)
    case Return(value) => early && Writable(value)
  }

  predicate GoodStmts(ss: seq<Stmt>, early: bool)
    decreases ss
  {
    ss == [] || (GoodStmt(ss[0], early) && GoodStmts(ss[1..], early))
  }

  predicate GoodParams(ps: seq<Param>) {
    forall i :: 0 <= i < |ps| ==> GoodType(ps[i].ty) && GoodName(ps[i].name)
  }

  /** Every declaration is mutable exactly when its name is one of `names`. */
  predicate FlagsAre(ss: seq<Stmt>, names: set<string>)
    decreases ss
  {
    ss == [] || (FlagIs(ss[0], names) && FlagsAre(ss[1..], names))
  }

  predicate FlagIs(s: Stmt, names: set<string>)
    decreases s
  {
    match s
    case Let(name, _, _, mutable) => mutable <==> name in names
    case While(_, body) => FlagsAre(body, names)
    case If(_, yes, no) => FlagsAre(yes, names) && FlagsAre(no, names)
    case _ => true
  }

  /** A function whose locals are marked mutable exactly when the function assigns to them. */
  predicate GoodFunction(f: Function) {
    GoodType(f.returnType) && GoodName(f.name) && GoodParams(f.params)
    && GoodStmts(f.body, false) && Writable(f.trailing)
    && FlagsAre(f.body, Reassigned(f.body))
  }

  predicate GoodModule(fs: seq<Function>) {
    fs != [] && forall i :: 0 <= i < |fs| ==> GoodFunction(fs[i])
  }

  // ---- flags ----

  /** What the parser makes of statements before mutability is known. */
  function Fresh(ss: seq<Stmt>): (r: seq<Stmt>)
    ensures |r| == |ss|
    decreases ss
  {
    if ss == [] then [] else [FreshStmt(ss[0])] + Fresh(ss[1..])
  }

  function FreshStmt(s: Stmt): Stmt
    decreases s
  {
    match s
    case Let(name, ty, value, _) => Let(name, ty, value, false)
    case While(cond, body) => While(cond, Fresh(body))
    case If(cond, yes, no) => If(cond, Fresh(yes), Fresh(no))
    case _ => s
  }

  /** Marking fresh statements gives every flag its meaning and changes nothing else. */
  lemma {:induction false} MarkedFresh(ss: seq<Stmt>, names: set<string>)
    ensures FlagsAre(ss, names) <==> Marked(Fresh(ss), names) == ss
    ensures Reassigned(Fresh(ss)) == Reassigned(ss)
    ensures FlagsAre(Marked(Fresh(ss), names), names) && Fresh(Marked(Fresh(ss), names)) == Fresh(ss)
    decreases ss
  {
    if ss != [] {
      var plain := Fresh(ss);
      assert plain[0] == FreshStmt(ss[0]) && plain[1..] == Fresh(ss[1..]);
      var marked := Marked(plain, names);
      assert marked[0] == MarkedStmt(FreshStmt(ss[0]), names) && marked[1..] == Marked(Fresh(ss[1..]), names);
      assert ss == [ss[0]] + ss[1..];
      MarkedFresh(ss[1..], names);
      MarkedFreshStmt(ss[0], names);
    }
  }

  lemma {:induction false} MarkedFreshStmt(s: Stmt, names: set<string>)
    ensures FlagIs(s, names) <==> MarkedStmt(FreshStmt(s), names) == s
    ensures ReassignedBy(FreshStmt(s)) == ReassignedBy(s)
    ensures FlagIs(MarkedStmt(FreshStmt(s), names), names) && FreshStmt(MarkedStmt(FreshStmt(s), names)) == FreshStmt(s)
    decreases s
  {
    hide Marked, Fresh, FlagsAre, Reassigned;
    match s {
      case While(_, body) => MarkedFresh(body, names);
      case If(_, yes, no) =>
        MarkedFresh(yes, names);
        MarkedFresh(no, names);
      case _ =>
    }
  }

  // ---- reading back ----

  lemma EatHead(t: Tok, rest: seq<Tok>)
    ensures Eat(t, [t] + rest) == Ok(rest)
  {
    assert ([t] + rest)[1..] == rest;
  }

  lemma BaseRead(ty: CType, rest: seq<Tok>)
    requires !ty.Ptr? && rest != [] && (rest[0].TIdent? || rest[0] == Star)
    ensures BaseType(ShowType(ty, rest)) == Ok(Parsed(ty, rest))
  {
    assert ShowType(ty, rest)[1..] == rest;
  }

  lemma TypeRead(ty: CType, rest: seq<Tok>)
    requires GoodType(ty) && rest != [] && rest[0].TIdent?
    ensures TypeAt(ShowType(ty, rest)) == Ok(Parsed(ty, rest))
  {
    hide BaseType;
    if ty.Ptr? {
      BaseRead(ty.pointee, [Star] + rest);
      assert ([Star] + rest)[1..] == rest;
    } else {
      BaseRead(ty, rest);
    }
  }

  lemma IdentRead(name: string, rest: seq<Tok>)
    ensures IdentAt([TIdent(name)] + rest) == Ok(Parsed(name, rest))
  {
    assert ([TIdent(name)] + rest)[1..] == rest;
  }

  lemma ParamRead(p: Param, rest: seq<Tok>)
    requires GoodType(p.ty)
    ensures ParamAt(ShowParam(p, rest)) == Ok(Parsed(p, rest))
  {
    hide TypeAt, IdentAt, ShowType;
    TypeRead(p.ty, [TIdent(p.name)] + rest);
    IdentRead(p.name, rest);
  }

  lemma {:induction false} ParamListRead(before: seq<Param>, ps: seq<Param>, rest: seq<Tok>)
    requires GoodParams(ps) && ps != [] && Starts(rest, RParen)
    ensures ParamList(before, ShowParams(ps, rest)) == Ok(Parsed(before + ps, rest))
    decreases ps
  {
    hide ParamAt, ShowParam, ParamList, GoodType, GoodName;
    if |ps| == 1 {
      ParamRead(ps[0], rest);
      ParamListOnce(before, ShowParams(ps, rest));
      assert before + [ps[0]] == before + ps;
    } else {
      var others := ShowParams(ps[1..], rest);
      ParamRead(ps[0], [Comma] + others);
      ParamListOnce(before, ShowParams(ps, rest));
      assert ([Comma] + others)[1..] == others;
      ParamListRead(before + [ps[0]], ps[1..], rest);
      assert before + [ps[0]] + ps[1..] == before + ps;
    }
  }

  lemma ParamsRead(ps: seq<Param>, rest: seq<Tok>)
    requires GoodParams(ps) && Starts(rest, RParen)
    ensures Params(ShowParams(ps, rest)) == Ok(Parsed(ps, rest))
  {
    hide ParamList;
    if ps != [] {
      ParamListRead([], ps, rest);
      assert [] + ps == ps;
      TypeStarts(ps[0].ty, [TIdent(ps[0].name)] + if |ps| == 1 then rest else [Comma] + ShowParams(ps[1..], rest));
    }
  }

  /** A type is written with a type keyword first; only `char` and pointers to it begin with `char`. */
  lemma {:induction false} TypeStarts(ty: CType, rest: seq<Tok>)
    ensures var ts := ShowType(ty, rest);
      ts != [] && ts[0] in {TInt, TLong, TUnsigned, TULong, TDouble, TFloat, TChar}
    ensures GoodLocalType(ty) ==> StartsType(ShowType(ty, rest))
    decreases ty
  {
    if ty.Ptr? {
      TypeStarts(ty.pointee, [Star] + rest);
    }
  }

  lemma ValuedRead(e: CExpr, rest: seq<Tok>)
    ensures Valued(ShowValued(e, rest)) == Ok(Parsed(e, rest))
  {
    hide Conditional, Show, EndsAll;
    EndsBefore(Semi, rest);
    ExpressionRoundTrip(e, [Semi] + rest);
    EatHead(Semi, rest);
  }

  lemma GuardRead(e: CExpr, rest: seq<Tok>)
    ensures Guard(ShowGuard(e, rest)) == Ok(Parsed(e, rest))
  {
    hide Conditional, Show, EndsAll;
    EndsBefore(RParen, rest);
    ExpressionRoundTrip(e, [RParen] + rest);
    EatHead(LParen, Show(e, 0) + ([RParen] + rest));
    EatHead(RParen, rest);
  }

  lemma NamedRead(name: string, e: CExpr, rest: seq<Tok>)
    ensures NameAndValue(ShowNamed(name, e, rest)) == Ok(Parsed((name, e), rest))
  {
    hide Valued, ShowValued;
    IdentRead(name, [Tok.Assign] + ShowValued(e, rest));
    EatHead(Tok.Assign, ShowValued(e, rest));
    ValuedRead(e, rest);
  }

  /** Everything but an early return is one statement; an `if` without `else` must not be followed by one. */
  lemma {:induction false} StmtRead(s: Stmt, early: bool, rest: seq<Tok>)
    requires GoodStmt(s, early) && !s.Return? && !Starts(rest, TElse)
    ensures StmtAt(ShowStmt(s, rest)) == Ok(Parsed(FreshStmt(s), rest))
    decreases s, 1
  {
    hide TypeAt, NameAndValue, Guard, Block, IfAt, ShowGuard, ShowBlock, ShowElse, ShowType, ShowNamed, Fresh,
         GoodStmts;
    match s {
      case Let(name, ty, value, _) =>
        NamedStarts(name, value, rest);
        TypeStarts(ty, ShowNamed(name, value, rest));
        TypeRead(ty, ShowNamed(name, value, rest));
        NamedRead(name, value, rest);
      case Assign(name, value) =>
        NamedStarts(name, value, rest);
        NamedRead(name, value, rest);
      case While(cond, body) =>
        var afterGuard := ShowBlock(body, rest);
        assert ([TWhile] + ShowGuard(cond, afterGuard))[1..] == ShowGuard(cond, afterGuard);
        GuardRead(cond, afterGuard);
        BlockRead(body, false, rest);
      case If(_, _, _) =>
        IfRead(s, early, rest);
    }
  }

  lemma NamedStarts(name: string, e: CExpr, rest: seq<Tok>)
    ensures ShowNamed(name, e, rest) != [] && ShowNamed(name, e, rest)[0] == TIdent(name)
  {
  }

  lemma {:induction false} IfRead(s: Stmt, early: bool, rest: seq<Tok>)
    requires s.If? && GoodStmt(s, early) && !Starts(rest, TElse)
    ensures IfAt(ShowStmt(s, rest)) == Ok(Parsed(FreshStmt(s), rest))
    decreases s, 0
  {
    hide Guard, Block, ElseAt, ShowGuard, ShowBlock, ShowElse, Fresh, GoodStmts;
    var afterYes := ShowElse(s.elseBody, rest);
    var afterGuard := ShowBlock(s.thenBody, afterYes);
    EatHead(TIf, ShowGuard(s.cond, afterGuard));
    GuardRead(s.cond, afterGuard);
    BlockRead(s.thenBody, true, afterYes);
    ElseRead(s.elseBody, rest);
  }

  /** After the `then` block: nothing of the statement's own, an `else if`, or an `else` block. */
  lemma {:induction false} ElseRead(ss: seq<Stmt>, rest: seq<Tok>)
    requires GoodStmts(ss, true) && !Starts(rest, TElse)
    ensures ElseAt(ShowElse(ss, rest)) == Ok(Parsed(Fresh(ss), rest))
    decreases ss, 2
  {
    hide Block, IfAt, ShowGuard, ShowBlock, GoodStmts, FreshStmt;
    if ss != [] {
      GoodFirst(ss, true);
      if |ss| == 1 && ss[0].If? {
        var nested := ShowStmt(ss[0], rest);
        assert ShowElse(ss, rest) == [TElse] + nested;
        assert ShowElse(ss, rest)[1..] == nested && Starts(nested, TIf);
        IfRead(ss[0], true, rest);
        assert Fresh(ss[1..]) == [] && Fresh(ss) == [FreshStmt(ss[0])];
        assert IfAt(ShowElse(ss, rest)[1..]) == Ok(Parsed(FreshStmt(ss[0]), rest));
      } else {
        assert ([TElse] + ShowBlock(ss, rest))[1..] == ShowBlock(ss, rest);
        BlockRead(ss, true, rest);
        BlockStarts(ss, rest);
      }
    }
  }

  lemma GoodFirst(ss: seq<Stmt>, early: bool)
    requires GoodStmts(ss, early) && ss != []
    ensures GoodStmt(ss[0], early) && GoodStmts(ss[1..], early)
  {
    hide GoodStmt;
  }

  lemma BlockStarts(ss: seq<Stmt>, rest: seq<Tok>)
    ensures Starts(ShowBlock(ss, rest), LBrace)
  {
    hide ShowStmts;
  }

  lemma {:induction false} BlockRead(ss: seq<Stmt>, early: bool, rest: seq<Tok>)
    requires GoodStmts(ss, early)
    ensures Block(early, ShowBlock(ss, rest)) == Ok(Parsed(Fresh(ss), rest))
    decreases ss, 1
  {
    hide Stmts, ShowStmts, GoodStmts, Fresh;
    EatHead(LBrace, ShowStmts(ss, [RBrace] + rest));
    StmtsRead(early, [], ss, [RBrace] + rest);
    assert [] + Fresh(ss) == Fresh(ss);
    EatHead(RBrace, rest);
  }

  /** Statements up to a closing brace, or up to the trailing return when early returns are not read. */
  lemma {:induction false} StmtsRead(early: bool, before: seq<Stmt>, ss: seq<Stmt>, rest: seq<Tok>)
    requires GoodStmts(ss, early) && Starts(rest, RBrace)
    ensures Stmts(early, before, ShowStmts(ss, rest)) == Ok(Parsed(before + Fresh(ss), rest))
    decreases ss, 0
  {
    hide StmtAt, Valued, ShowStmt, ShowValued, GoodStmt, FreshStmt, Stmts;
    StmtsOnce(early, before, ShowStmts(ss, rest));
    if ss == [] {
      assert before + Fresh(ss) == before;
    } else {
      var s, others := ss[0], ShowStmts(ss[1..], rest);
      StmtsRead(early, before + [FreshStmt(s)], ss[1..], rest);
      assert before + [FreshStmt(s)] + Fresh(ss[1..]) == before + Fresh(ss);
      if s.Return? {
        ReturnShown(s, early, others);
        ValuedRead(s.value, others);
      } else {
        StmtStarts(s, early, others);
        FollowerIsNoElse(ss[1..], early, rest);
        StmtRead(s, early, others);
      }
    }
  }

  lemma ReturnShown(s: Stmt, early: bool, rest: seq<Tok>)
    requires s.Return? && GoodStmt(s, early)
    ensures early && FreshStmt(s) == s
    ensures Starts(ShowStmt(s, rest), TReturn) && ShowStmt(s, rest)[1..] == ShowValued(s.value, rest)
  {
  }

  lemma StmtStarts(s: Stmt, early: bool, rest: seq<Tok>)
    requires GoodStmt(s, early) && !s.Return?
    ensures ShowStmt(s, rest) != [] && ShowStmt(s, rest)[0] !in {RBrace, TReturn, TElse}
  {
    hide ShowGuard, ShowBlock, ShowElse, Show;
    match s {
      case Let(name, ty, value, _) => TypeStarts(ty, ShowNamed(name, value, rest));
      case _ =>
    }
  }

  lemma FollowerIsNoElse(ss: seq<Stmt>, early: bool, rest: seq<Tok>)
    requires GoodStmts(ss, early) && !Starts(rest, TElse)
    ensures !Starts(ShowStmts(ss, rest), TElse)
  {
    hide ShowStmt, GoodStmt;
    if ss != [] {
      if ss[0].Return? {
        ReturnShown(ss[0], early, ShowStmts(ss[1..], rest));
      } else {
        StmtStarts(ss[0], early, ShowStmts(ss[1..], rest));
      }
    }
  }

  lemma {:induction false} BodyRead(before: seq<Stmt>, ss: seq<Stmt>, e: CExpr, rest: seq<Tok>)
    requires GoodStmts(ss, false)
    ensures var stmts := before + Fresh(ss);
      BodyAt(before, ShowStmts(ss, [TReturn] + ShowValued(e, rest)))
      == Ok(Parsed(Body(Marked(stmts, Reassigned(stmts)), e), rest))
    decreases ss
  {
    hide StmtAt, Valued, ShowStmt, ShowValued, GoodStmt, GoodStmts, FreshStmt, Marked, Reassigned, BodyAt;
    var end := [TReturn] + ShowValued(e, rest);
    BodyOnce(before, ShowStmts(ss, end));
    if ss == [] {
      assert end[1..] == ShowValued(e, rest);
      ValuedRead(e, rest);
      assert before + Fresh(ss) == before;
    } else {
      var s, others := ss[0], ShowStmts(ss[1..], end);
      GoodFirst(ss, false);
      NoReturnHere(s);
      StmtStarts(s, false, others);
      FollowerIsNoElse(ss[1..], false, end);
      StmtRead(s, false, others);
      BodyRead(before + [FreshStmt(s)], ss[1..], e, rest);
      assert before + [FreshStmt(s)] + Fresh(ss[1..]) == before + Fresh(ss);
    }
  }

  lemma NoReturnHere(s: Stmt)
    requires GoodStmt(s, false)
    ensures !s.Return?
  {
  }

  lemma FunctionRead(f: Function, rest: seq<Tok>)
    requires GoodFunction(f)
    ensures FunctionAt(ShowFunction(f, rest)) == Ok(Parsed(f, rest))
  {
    hide TypeAt, IdentAt, Params, BodyAt, ShowType, ShowParams, ShowStmts, ShowValued, GoodType, GoodParams,
         GoodStmts, FlagsAre, Marked, Reassigned, Fresh;
    var body := ShowStmts(f.body, [TReturn] + ShowValued(f.trailing, [RBrace] + rest));
    var params := ShowParams(f.params, [RParen] + ([LBrace] + body));
    TypeRead(f.returnType, [TIdent(f.name)] + ([LParen] + params));
    IdentRead(f.name, [LParen] + params);
    EatHead(LParen, params);
    ParamsRead(f.params, [RParen] + ([LBrace] + body));
    EatHead(RParen, [LBrace] + body);
    EatHead(LBrace, body);
    BodyRead([], f.body, f.trailing, [RBrace] + rest);
    assert [] + Fresh(f.body) == Fresh(f.body);
    MarkedFresh(f.body, Reassigned(f.body));
    EatHead(RBrace, rest);
  }

  lemma {:induction false} ModuleRead(before: seq<Function>, fs: seq<Function>)
    requires before + fs != [] && forall i :: 0 <= i < |fs| ==> GoodFunction(fs[i])
    ensures ModuleFrom(before, ModuleTokens(fs)) == Ok(before + fs)
    decreases fs
  {
    hide FunctionAt, ShowFunction, GoodFunction;
    if fs == [] {
      assert before + fs == before;
    } else {
      FunctionShown(fs[0], ModuleTokens(fs[1..]));
      FunctionRead(fs[0], ModuleTokens(fs[1..]));
      assert before + [fs[0]] + fs[1..] == before + fs;
      ModuleRead(before + [fs[0]], fs[1..]);
    }
  }

  lemma FunctionShown(f: Function, rest: seq<Tok>)
    ensures ShowFunction(f, rest) != []
  {
    hide ShowType, ShowStmts, ShowParams;
    var body := ShowStmts(f.body, [TReturn] + ShowValued(f.trailing, [RBrace] + rest));
    TypeStarts(f.returnType, [TIdent(f.name)] + ([LParen] + ShowParams(f.params, [RParen] + ([LBrace] + body))));
  }
}
