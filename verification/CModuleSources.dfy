/** C modules as source text: which modules have one, and that each is read back from its own. */
module CModuleSources {
  import opened Outcomes
  import opened CLexer
  import opened CExpressions
  import opened CStatements
  import opened CParser
  import opened CPrinting
  import opened CSources
  import opened CModules

  // ---- printed modules can be lexed ----

  lemma HeadPrintable(t: Tok, rest: seq<Tok>)
    requires PrintableAll(rest) && (Printable(t) || (!t.TIdent? && !t.TNum? && !t.TFNum?))
    ensures PrintableAll([t] + rest)
  {
    hide Printable;
    if !t.TIdent? && !t.TNum? && !t.TFNum? {
      PunctuationIsPrintable(t);
    }
  }

  lemma {:induction false} TypePrintable(ty: CType, rest: seq<Tok>)
    requires PrintableAll(rest)
    ensures PrintableAll(ShowType(ty, rest))
    decreases ty
  {
    hide Printable, PrintableAll;
    match ty {
      case Ptr(pointee) =>
        HeadPrintable(Star, rest);
        TypePrintable(pointee, [Star] + rest);
      case I64 => HeadPrintable(TInt, rest);
      case CLong => HeadPrintable(TLong, rest);
      case CUInt => HeadPrintable(TUnsigned, rest);
      case CULong => HeadPrintable(TULong, rest);
      case F64 => HeadPrintable(TDouble, rest);
      case F32 => HeadPrintable(TFloat, rest);
      case CChar => HeadPrintable(TChar, rest);
    }
  }

  lemma ExprPrintable(e: CExpr, rest: seq<Tok>)
    requires Writable(e) && PrintableAll(rest)
    ensures PrintableAll(Show(e, 0) + rest)
  {
    hide Printable, Writable, Show;
    ShownIsPrintable(e, 0);
  }

  lemma ValuedPrintable(e: CExpr, rest: seq<Tok>)
    requires Writable(e) && PrintableAll(rest)
    ensures PrintableAll(ShowValued(e, rest))
  {
    hide Printable, Writable, Show, PrintableAll;
    HeadPrintable(Semi, rest);
    ExprPrintable(e, [Semi] + rest);
  }

  lemma GuardPrintable(e: CExpr, rest: seq<Tok>)
    requires Writable(e) && PrintableAll(rest)
    ensures PrintableAll(ShowGuard(e, rest))
  {
    hide Printable, Writable, Show, PrintableAll;
    HeadPrintable(RParen, rest);
    ExprPrintable(e, [RParen] + rest);
    HeadPrintable(LParen, Show(e, 0) + ([RParen] + rest));
  }

  lemma NamedPrintable(name: string, e: CExpr, rest: seq<Tok>)
    requires GoodName(name) && Writable(e) && PrintableAll(rest)
    ensures PrintableAll(ShowNamed(name, e, rest))
  {
    hide Printable, Writable, PrintableAll, ShowValued;
    ValuedPrintable(e, rest);
    HeadPrintable(Tok.Assign, ShowValued(e, rest));
    HeadPrintable(TIdent(name), [Tok.Assign] + ShowValued(e, rest));
  }

  lemma {:induction false} StmtPrintable(s: Stmt, early: bool, rest: seq<Tok>)
    requires GoodStmt(s, early) && PrintableAll(rest)
    ensures PrintableAll(ShowStmt(s, rest))
    decreases s, 0
  {
    hide Printable, Writable, PrintableAll, ShowValued, ShowGuard, ShowNamed, ShowBlock, ShowElse, ShowType,
         GoodStmts, GoodName;
    match s {
      case Let(name, ty, value, _) =>
        NamedPrintable(name, value, rest);
        TypePrintable(ty, ShowNamed(name, value, rest));
      case Assign(name, value) =>
        NamedPrintable(name, value, rest);
      case Return(value) =>
        ValuedPrintable(value, rest);
        HeadPrintable(TReturn, ShowValued(value, rest));
      case While(cond, body) =>
        BlockPrintable(body, false, rest);
        GuardPrintable(cond, ShowBlock(body, rest));
        HeadPrintable(TWhile, ShowGuard(cond, ShowBlock(body, rest)));
      case If(cond, yes, no) =>
        ElsePrintable(no, rest);
        BlockPrintable(yes, true, ShowElse(no, rest));
        GuardPrintable(cond, ShowBlock(yes, ShowElse(no, rest)));
        HeadPrintable(TIf, ShowGuard(cond, ShowBlock(yes, ShowElse(no, rest))));
    }
  }

  lemma {:induction false} ElsePrintable(ss: seq<Stmt>, rest: seq<Tok>)
    requires GoodStmts(ss, true) && PrintableAll(rest)
    ensures PrintableAll(ShowElse(ss, rest))
    decreases ss, 2
  {
    hide PrintableAll, Printable, ShowStmt, ShowBlock, GoodStmt;
    if |ss| == 1 && ss[0].If? {
      StmtPrintable(ss[0], true, rest);
      HeadPrintable(TElse, ShowStmt(ss[0], rest));
    } else if ss != [] {
      BlockPrintable(ss, true, rest);
      HeadPrintable(TElse, ShowBlock(ss, rest));
    }
  }

  lemma {:induction false} BlockPrintable(ss: seq<Stmt>, early: bool, rest: seq<Tok>)
    requires GoodStmts(ss, early) && PrintableAll(rest)
    ensures PrintableAll(ShowBlock(ss, rest))
    decreases ss, 1
  {
    hide PrintableAll, Printable, ShowStmts, GoodStmts;
    HeadPrintable(RBrace, rest);
    StmtsPrintable(ss, early, [RBrace] + rest);
    HeadPrintable(LBrace, ShowStmts(ss, [RBrace] + rest));
  }

  lemma {:induction false} StmtsPrintable(ss: seq<Stmt>, early: bool, rest: seq<Tok>)
    requires GoodStmts(ss, early) && PrintableAll(rest)
    ensures PrintableAll(ShowStmts(ss, rest))
    decreases ss, 0
  {
    hide PrintableAll, ShowStmt, GoodStmt;
    if ss != [] {
      StmtsPrintable(ss[1..], early, rest);
      StmtPrintable(ss[0], early, ShowStmts(ss[1..], rest));
    }
  }

  lemma {:induction false} ParamsPrintable(ps: seq<Param>, rest: seq<Tok>)
    requires GoodParams(ps) && PrintableAll(rest)
    ensures PrintableAll(ShowParams(ps, rest))
    decreases ps
  {
    hide PrintableAll, Printable, ShowType, GoodType;
    if ps != [] {
      ParamsPrintable(ps[1..], rest);
      HeadPrintable(Comma, ShowParams(ps[1..], rest));
      var after := if |ps| == 1 then rest else [Comma] + ShowParams(ps[1..], rest);
      HeadPrintable(TIdent(ps[0].name), after);
      TypePrintable(ps[0].ty, [TIdent(ps[0].name)] + after);
    }
  }

  lemma {:induction false} ModulePrintable(fs: seq<Function>)
    requires forall i :: 0 <= i < |fs| ==> GoodFunction(fs[i])
    ensures PrintableAll(ModuleTokens(fs))
    decreases fs
  {
    hide ShowFunction, GoodFunction, Printable;
    if fs != [] {
      ModulePrintable(fs[1..]);
      FunctionPrintable(fs[0], ModuleTokens(fs[1..]));
    }
  }

  lemma FunctionPrintable(f: Function, rest: seq<Tok>)
    requires GoodFunction(f) && PrintableAll(rest)
    ensures PrintableAll(ShowFunction(f, rest))
  {
    hide PrintableAll, Printable, ShowType, ShowParams, ShowStmts, ShowValued, GoodType, GoodParams, GoodStmts,
         FlagsAre, Writable;
    HeadPrintable(RBrace, rest);
    ValuedPrintable(f.trailing, [RBrace] + rest);
    HeadPrintable(TReturn, ShowValued(f.trailing, [RBrace] + rest));
    var body := ShowStmts(f.body, [TReturn] + ShowValued(f.trailing, [RBrace] + rest));
    StmtsPrintable(f.body, false, [TReturn] + ShowValued(f.trailing, [RBrace] + rest));
    HeadPrintable(LBrace, body);
    HeadPrintable(RParen, [LBrace] + body);
    var params := ShowParams(f.params, [RParen] + ([LBrace] + body));
    ParamsPrintable(f.params, [RParen] + ([LBrace] + body));
    HeadPrintable(LParen, params);
    HeadPrintable(TIdent(f.name), [LParen] + params);
    TypePrintable(f.returnType, [TIdent(f.name)] + ([LParen] + params));
  }

  // ---- parsed modules can be printed ----

  lemma BaseGood(ts: seq<Tok>)
    requires PrintableAll(ts)
    ensures var r := BaseType(ts); r.Ok? ==> !r.value.tree.Ptr? && PrintableAll(r.value.rest)
    ensures var r := BaseType(ts); r.Ok? ==> (r.value.tree == CChar <==> ts[0] == TChar)
  {
    hide Printable;
  }

  lemma TypeGood(ts: seq<Tok>)
    requires PrintableAll(ts)
    ensures var r := TypeAt(ts);
      r.Ok? ==> GoodType(r.value.tree) && PrintableAll(r.value.rest) && (StartsType(ts) ==> GoodLocalType(r.value.tree))
  {
    hide Printable, BaseType;
    BaseGood(ts);
  }

  lemma IdentGood(ts: seq<Tok>)
    requires PrintableAll(ts)
    ensures var r := IdentAt(ts); r.Ok? ==> GoodName(r.value.tree) && PrintableAll(r.value.rest)
  {
    hide Printable;
    if ts != [] && ts[0].TIdent? {
      assert ts[0] in ts && ts[0] == TIdent(ts[0].name);
    }
  }

  lemma TailPrintable(ts: seq<Tok>)
    requires PrintableAll(ts) && ts != []
    ensures PrintableAll(ts[1..])
  {
    hide Printable;
  }

  lemma {:induction false} ParamListGood(before: seq<Param>, ts: seq<Tok>)
    requires PrintableAll(ts) && GoodParams(before)
    ensures var r := ParamList(before, ts); r.Ok? ==> GoodParams(r.value.tree) && PrintableAll(r.value.rest)
    decreases |ts|
  {
    hide Printable, TypeAt, IdentAt, GoodType, PrintableAll;
    TypeGood(ts);
    var ty := TypeAt(ts);
    if ty.Ok? {
      IdentGood(ty.value.rest);
      var p := ParamAt(ts);
      if p.Ok? && Starts(p.value.rest, Comma) {
        TailPrintable(p.value.rest);
        ParamListGood(before + [p.value.tree], p.value.rest[1..]);
      }
    }
  }

  lemma ValuedGood(ts: seq<Tok>)
    requires PrintableAll(ts)
    ensures var r := Valued(ts); r.Ok? ==> Writable(r.value.tree) && PrintableAll(r.value.rest)
  {
    hide Printable, Conditional, Writable;
    ConditionalWritable(ts);
  }

  lemma GuardGood(ts: seq<Tok>)
    requires PrintableAll(ts)
    ensures var r := Guard(ts); r.Ok? ==> Writable(r.value.tree) && PrintableAll(r.value.rest)
  {
    hide Printable, Conditional, Writable;
    if Starts(ts, LParen) {
      ConditionalWritable(ts[1..]);
    }
  }

  lemma NamedGood(ts: seq<Tok>)
    requires PrintableAll(ts)
    ensures var r := NameAndValue(ts);
      r.Ok? ==> GoodName(r.value.tree.0) && Writable(r.value.tree.1) && PrintableAll(r.value.rest)
  {
    hide Printable, Valued, Writable, IdentAt, PrintableAll;
    IdentGood(ts);
    var name := IdentAt(ts);
    if name.Ok? && Starts(name.value.rest, Tok.Assign) {
      TailPrintable(name.value.rest);
      ValuedGood(name.value.rest[1..]);
    }
  }

  /** A parsed statement is good anywhere, and every flag in it is still unset. */
  ghost predicate ParsedWell(s: Stmt) {
    GoodStmt(s, false) && FreshStmt(s) == s
  }

  ghost predicate ParsedAllWell(ss: seq<Stmt>, early: bool) {
    GoodStmts(ss, early) && Fresh(ss) == ss
  }

  lemma {:induction false} AppendWell(ss: seq<Stmt>, s: Stmt, early: bool)
    requires ParsedAllWell(ss, early) && GoodStmt(s, early) && FreshStmt(s) == s
    ensures ParsedAllWell(ss + [s], early)
  {
    hide GoodStmt, FreshStmt;
    if ss == [] {
      assert ss + [s] == [s] && [s][1..] == [];
    } else {
      assert ss == [ss[0]] + ss[1..];
      AppendWell(ss[1..], s, early);
      assert (ss + [s])[1..] == ss[1..] + [s];
    }
  }

  lemma GoodEither(s: Stmt, early: bool)
    requires GoodStmt(s, false)
    ensures GoodStmt(s, early)
  {
  }

  lemma {:induction false} StmtGood(ts: seq<Tok>)
    requires PrintableAll(ts)
    ensures var r := StmtAt(ts); r.Ok? ==> ParsedWell(r.value.tree) && PrintableAll(r.value.rest)
    decreases |ts|, 1
  {
    hide Printable, PrintableAll, TypeAt, NameAndValue, Guard, Block, IfAt, Writable, GoodName, GoodLocalType,
         GoodStmts, Fresh;
    if StartsType(ts) {
      TypeGood(ts);
      var ty := TypeAt(ts);
      if ty.Ok? {
        NamedGood(ty.value.rest);
      }
    } else if Starts(ts, TWhile) {
      TailPrintable(ts);
      GuardGood(ts[1..]);
      var cond := Guard(ts[1..]);
      if cond.Ok? {
        BlockGood(false, cond.value.rest);
      }
    } else if Starts(ts, TIf) {
      IfGood(ts);
    } else {
      NamedGood(ts);
    }
  }

  lemma {:induction false} IfGood(ts: seq<Tok>)
    requires PrintableAll(ts)
    ensures var r := IfAt(ts); r.Ok? ==> ParsedWell(r.value.tree) && PrintableAll(r.value.rest)
    decreases |ts|, 0
  {
    hide Printable, PrintableAll, Guard, Block, ElseAt, Writable, GoodStmts, Fresh;
    var r := IfAt(ts);
    if r.Ok? {
      TailPrintable(ts);
      GuardGood(ts[1..]);
      var afterGuard := Guard(ts[1..]).value.rest;
      BlockGood(true, afterGuard);
      ElseGood(Block(true, afterGuard).value.rest);
    }
  }

  lemma {:induction false} ElseGood(ts: seq<Tok>)
    requires PrintableAll(ts)
    ensures var r := ElseAt(ts); r.Ok? ==> ParsedAllWell(r.value.tree, true) && PrintableAll(r.value.rest)
    decreases |ts|, 1
  {
    hide Printable, PrintableAll, IfAt, Block, GoodStmts, Fresh;
    NoneWell();
    if Starts(ts, TElse) {
      TailPrintable(ts);
      if Starts(ts[1..], TIf) {
        IfGood(ts[1..]);
        if IfAt(ts[1..]).Ok? {
          OneWell(IfAt(ts[1..]).value.tree);
        }
      } else {
        BlockGood(true, ts[1..]);
      }
    }
  }

  lemma NoneWell()
    ensures GoodStmts([], true) && Fresh([]) == []
  {
  }

  lemma OneWell(s: Stmt)
    requires ParsedWell(s)
    ensures GoodStmts([s], true) && Fresh([s]) == [s]
  {
    hide GoodStmt, FreshStmt;
    GoodEither(s, true);
    assert [s][1..] == [];
  }

  lemma {:induction false} BlockGood(early: bool, ts: seq<Tok>)
    requires PrintableAll(ts)
    ensures var r := Block(early, ts); r.Ok? ==> ParsedAllWell(r.value.tree, early) && PrintableAll(r.value.rest)
    decreases |ts|, 3
  {
    hide Printable, PrintableAll, Stmts;
    if Starts(ts, LBrace) {
      TailPrintable(ts);
      StmtsGood(early, [], ts[1..]);
      var body := Stmts(early, [], ts[1..]);
      if body.Ok? && Starts(body.value.rest, RBrace) {
        TailPrintable(body.value.rest);
      }
    }
  }

  lemma {:induction false} StmtsGood(early: bool, before: seq<Stmt>, ts: seq<Tok>)
    requires PrintableAll(ts) && ParsedAllWell(before, early)
    ensures var r := Stmts(early, before, ts);
            r.Ok? ==> ParsedAllWell(r.value.tree, early) && PrintableAll(r.value.rest)
    decreases |ts|, 2
  {
    hide Printable, PrintableAll, StmtAt, Valued, ParsedAllWell, Writable;
    if Starts(ts, TReturn) && early {
      TailPrintable(ts);
      ValuedGood(ts[1..]);
      var e := Valued(ts[1..]);
      if e.Ok? {
        AppendWell(before, Return(e.value.tree), early);
        StmtsGood(early, before + [Return(e.value.tree)], e.value.rest);
      }
    } else if !Starts(ts, RBrace) && !Starts(ts, TReturn) {
      StmtGood(ts);
      var s := StmtAt(ts);
      if s.Ok? {
        GoodEither(s.value.tree, early);
        AppendWell(before, s.value.tree, early);
        StmtsGood(early, before + [s.value.tree], s.value.rest);
      }
    }
  }

  /** Marking keeps statements good. */
  lemma {:induction false} MarkedGood(ss: seq<Stmt>, names: set<string>, early: bool)
    requires GoodStmts(ss, early)
    ensures GoodStmts(Marked(ss, names), early)
    decreases ss
  {
    hide GoodLocalType, GoodName, Writable;
    if ss != [] {
      MarkedGood(ss[1..], names, early);
      match ss[0] {
        case While(_, body) => MarkedGood(body, names, false);
        case If(_, yes, no) =>
          MarkedGood(yes, names, true);
          MarkedGood(no, names, true);
        case _ =>
      }
    }
  }

  lemma {:induction false} BodyGood(before: seq<Stmt>, ts: seq<Tok>)
    requires PrintableAll(ts) && ParsedAllWell(before, false)
    ensures var r := BodyAt(before, ts);
      r.Ok? ==>
        var stmts := r.value.tree.stmts;
        GoodStmts(stmts, false) && FlagsAre(stmts, Reassigned(stmts))
        && Writable(r.value.tree.trailing) && PrintableAll(r.value.rest)
    decreases |ts|
  {
    hide Printable, PrintableAll, StmtAt, Valued, GoodStmts, Writable, Marked, Reassigned, Fresh, FlagsAre;
    if Starts(ts, TReturn) {
      TailPrintable(ts);
      ValuedGood(ts[1..]);
      var names := Reassigned(before);
      MarkedGood(before, names, false);
      MarkedFresh(before, names);
      MarkedFresh(Marked(before, names), names);
    } else if !Starts(ts, RBrace) {
      StmtGood(ts);
      var s := StmtAt(ts);
      if s.Ok? {
        AppendWell(before, s.value.tree, false);
        BodyGood(before + [s.value.tree], s.value.rest);
      }
    }
  }

  lemma FunctionGood(ts: seq<Tok>)
    requires PrintableAll(ts)
    ensures var r := FunctionAt(ts); r.Ok? ==> GoodFunction(r.value.tree) && PrintableAll(r.value.rest)
  {
    hide Printable, PrintableAll, TypeAt, IdentAt, Params, BodyAt, GoodType, GoodName, GoodParams, GoodStmts,
         FlagsAre, Reassigned, Writable;
    var r := FunctionAt(ts);
    if r.Ok? {
      TypeGood(ts);
      var afterType := TypeAt(ts).value.rest;
      IdentGood(afterType);
      var afterName := IdentAt(afterType).value.rest;
      TailPrintable(afterName);
      ParamsGood(afterName[1..]);
      var afterParams := Params(afterName[1..]).value.rest;
      TailPrintable(afterParams);
      TailPrintable(afterParams[1..]);
      NothingWell();
      BodyGood([], afterParams[1..][1..]);
      TailPrintable(BodyAt([], afterParams[1..][1..]).value.rest);
    }
  }

  lemma NothingWell()
    ensures ParsedAllWell([], false)
  {
  }

  lemma ParamsGood(ts: seq<Tok>)
    requires PrintableAll(ts)
    ensures var r := Params(ts); r.Ok? ==> GoodParams(r.value.tree) && PrintableAll(r.value.rest)
  {
    hide Printable, PrintableAll, ParamList;
    if Starts(ts, TVoid) {
      TailPrintable(ts);
    }
    ParamListGood([], ts);
  }

  lemma {:induction false} ModuleGood(before: seq<Function>, ts: seq<Tok>)
    requires PrintableAll(ts) && forall i :: 0 <= i < |before| ==> GoodFunction(before[i])
    ensures var r := ModuleFrom(before, ts); r.Ok? ==> GoodModule(r.value)
    decreases |ts|
  {
    hide Printable, PrintableAll, FunctionAt, GoodFunction;
    if ts != [] {
      FunctionGood(ts);
      var f := FunctionAt(ts);
      if f.Ok? {
        ModuleGood(before + [f.value.tree], f.value.rest);
      }
    }
  }

  // ---- main results ----

  function ModuleText(fs: seq<Function>): string {
    SourceText(ModuleTokens(fs))
  }

  /** The C frontend reads `text` as the functions `fs`. */
  predicate ReadsModule(text: string, fs: seq<Function>) {
    LexFrom(text).Ok? && ModuleFrom([], LexFrom(text).value) == Ok(fs)
  }

  /**
   * The modules that some source is read as are exactly the good ones, whose locals are mutable when and only when
   * they are reassigned; and each is read back from its own text.
   */
  lemma ModulesExactly(fs: seq<Function>)
    ensures GoodModule(fs) <==> exists text :: ReadsModule(text, fs)
    ensures GoodModule(fs) ==> ReadsModule(ModuleText(fs), fs)
  {
    hide GoodFunction, LexFrom, ModuleFrom, SourceText, ModuleTokens;
    if GoodModule(fs) {
      ModulePrintable(fs);
      TokensReadBack(ModuleTokens(fs));
      ModuleRead([], fs);
      assert [] + fs == fs;
      assert ReadsModule(ModuleText(fs), fs);
    }
    forall text | ReadsModule(text, fs) ensures GoodModule(fs) {
      LexedIsPrintable(text);
      ModuleGood([], LexFrom(text).value);
    }
  }

  datatype SourceError = Unlexable(lexError: LexError) | Unparsable(parseError: ParseError)

  /** `parse_and_lower`: lex, then parse the whole module. */
  method ParseAndLower(src: string) returns (r: Result<seq<Function>, SourceError>)
    ensures forall fs :: ReadsModule(src, fs) <==> r == Ok(fs)
  {
    hide LexFrom, ModuleFrom;
    var lexed := Lex(src);
    if lexed.Err? {
      return Err(Unlexable(lexed.error));
    }
    var parser := new Parser(lexed.value);
    assert parser.Remaining() == lexed.value;
    var items := parser.ParseModule();
    return if items.Ok? then Ok(items.value) else Err(Unparsable(items.error));
  }
}
