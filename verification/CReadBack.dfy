/** Printed C expressions are read back. */
module CReadBack {
  import opened Outcomes
  import opened CLexer
  import opened CExpressions
  import opened CPrinting

  lemma ConditionalStep(ts: seq<Tok>, c: CExpr, a: seq<Tok>, t: CExpr, b: seq<Tok>, f: CExpr, rest: seq<Tok>)
    requires Level(1, ts) == Ok(Parsed(c, [Question] + a))
    requires Conditional(a) == Ok(Parsed(t, [Colon] + b))
    requires Conditional(b) == Ok(Parsed(f, rest))
    ensures Conditional(ts) == Ok(Parsed(IfExpr(c, t, f), rest))
  {
    hide Level;
    assert ([Question] + a)[1..] == a;
    assert ([Colon] + b)[1..] == b;
  }

  lemma ClimbStep(level: nat, lhs: CExpr, op: BinOp, a: seq<Tok>, rhs: CExpr, rest: seq<Tok>)
    requires level == LevelOf(op) && Level(level + 1, a) == Ok(Parsed(rhs, rest))
    ensures Climb(level, lhs, [BinaryToken(op)] + a) == Climb(level, Binary(op, lhs, rhs), rest)
  {
    hide Level, BinaryAt, BinaryToken, LevelOf;
    TablesAgree(op, level);
    assert ([BinaryToken(op)] + a)[1..] == a;
  }

  lemma UnaryStep(op: UnOp, a: seq<Tok>, x: CExpr, rest: seq<Tok>)
    requires UnaryExpr(a) == Ok(Parsed(x, rest))
    ensures UnaryExpr([UnaryToken(op)] + a) == Ok(Parsed(Unary(op, x), rest))
  {
    hide Primary, UnaryOf, UnaryToken;
    UnaryTablesAgree(op);
    assert ([UnaryToken(op)] + a)[1..] == a;
  }

  lemma AtomStep(e: CExpr, rest: seq<Tok>)
    requires e.LitInt? || e.LitFloat? || e.Var?
    requires !Starts(rest, LParen)
    ensures UnaryExpr(Bare(e) + rest) == Ok(Parsed(e, rest))
  {
    hide CallFrom, Conditional;
    assert (Bare(e) + rest)[1..] == rest;
  }

  lemma CallStep(name: string, a: seq<Tok>)
    ensures UnaryExpr([TIdent(name), LParen] + a) == CallFrom(name, a)
  {
    hide CallFrom, Conditional;
    var ts := [TIdent(name), LParen] + a;
    assert Starts(ts[1..], LParen);
    assert ts[2..] == a;
  }

  /** A complete operand falls through every level that its follower does not continue. */
  lemma {:induction false} Falls(e: CExpr, from: nat, level: nat, ts: seq<Tok>, rest: seq<Tok>)
    requires 1 <= level <= from <= UNARY && Ends(level, rest)
    requires Level(from, ts) == Climb(from, e, rest)
    ensures Level(level, ts) == Climb(level, e, rest)
    decreases from - level
  {
    hide BinaryAt, UnaryExpr;
    if level < from {
      assert OperatorAt(from, rest) == None;
      assert Level(from, ts) == Ok(Parsed(e, rest));
      assert Level(from - 1, ts) == Climb(from - 1, e, rest);
      Falls(e, from - 1, level, ts, rest);
    }
  }

  lemma UnaryFalls(e: CExpr, level: nat, ts: seq<Tok>, rest: seq<Tok>)
    requires 1 <= level <= UNARY && Ends(level, rest)
    requires UnaryExpr(ts) == Ok(Parsed(e, rest))
    ensures Level(level, ts) == Climb(level, e, rest)
  {
    hide BinaryAt, UnaryExpr;
    if rest != [] {
      NoneAtUnary(rest[0]);
    }
    assert OperatorAt(UNARY, rest) == None;
    Falls(e, UNARY, level, ts, rest);
  }

  /** Printed at any level, an expression is the next operand of that level. */
  lemma {:induction false} ShownIsOperand(e: CExpr, level: nat, rest: seq<Tok>)
    requires 1 <= level <= UNARY && Ends(level, rest)
    ensures Level(level, Show(e, level) + rest) == Climb(level, e, rest)
    decreases e, 4
  {
    hide Level, Climb, UnaryExpr, Conditional, Bare, Ends, BinaryAt;
    if Rank(e) < level {
      ParenthesesRead(e, rest);
      UnaryFalls(e, level, Show(e, level) + rest, rest);
    } else if Rank(e) >= UNARY {
      TightRead(e, rest) by { EndsAbove(level, rest); }
      UnaryFalls(e, level, Bare(e) + rest, rest);
    } else {
      EndsHigher(level, Rank(e), rest);
      BinaryRead(e, rest);
      Falls(e, Rank(e), level, Bare(e) + rest, rest);
    }
  }

  lemma EndsHigher(level: nat, higher: nat, rest: seq<Tok>)
    requires Ends(level, rest) && level <= higher
    ensures Ends(higher, rest)
  {
  }

  lemma EndsAbove(level: nat, rest: seq<Tok>)
    requires Ends(level, rest)
    ensures !Starts(rest, LParen)
  {
  }

  /** A parenthesised expression is a primary, whatever follows it. */
  lemma {:induction false} ParenthesesRead(e: CExpr, rest: seq<Tok>)
    ensures UnaryExpr([LParen] + Bare(e) + [RParen] + rest) == Ok(Parsed(e, rest))
    decreases e, 3
  {
    hide Conditional, Bare, EndsAll, Ends;
    var ts := [LParen] + Bare(e) + [RParen] + rest;
    EndsBefore(RParen, rest);
    BareRead(e, [RParen] + rest);
    assert ts[1..] == Bare(e) + ([RParen] + rest);
    assert Eat(RParen, [RParen] + rest) == Ok(rest) by { assert ([RParen] + rest)[1..] == rest; }
    assert Primary(ts) == Ok(Parsed(e, rest));
  }

  /** Unparenthesised, an expression is read to its end when nothing continues it. */
  lemma {:induction false} BareRead(e: CExpr, rest: seq<Tok>)
    requires EndsAll(rest)
    ensures Conditional(Bare(e) + rest) == Ok(Parsed(e, rest))
    decreases e, 2
  {
    hide Level, Climb, Bare, Ends, UnaryExpr;
    if e.IfExpr? {
      ConditionalRead(e, rest);
    } else {
      if Rank(e) >= UNARY {
        EndsAbove(0, rest);
        TightRead(e, rest);
        EndsHigher(0, 1, rest);
        UnaryFalls(e, 1, Bare(e) + rest, rest);
      } else {
        EndsHigher(0, 1, rest);
        EndsHigher(0, Rank(e), rest);
        BinaryRead(e, rest);
        Falls(e, Rank(e), 1, Bare(e) + rest, rest);
      }
      NothingToClimb(1, e, rest);
    }
  }

  lemma NothingToClimb(level: nat, e: CExpr, rest: seq<Tok>)
    requires 1 <= level <= UNARY && Ends(level - 1, rest)
    ensures Climb(level, e, rest) == Ok(Parsed(e, rest))
  {
    hide BinaryAt;
  }

  /** The branches of a conditional take everything up to their `:` or to the end. */
  lemma {:induction false} ConditionalRead(e: CExpr, rest: seq<Tok>)
    requires e.IfExpr? && EndsAll(rest)
    ensures Conditional(Bare(e) + rest) == Ok(Parsed(e, rest))
    decreases e, 1
  {
    hide Level, Climb, Ends, EndsAll, UnaryExpr, Show, Conditional, BinaryAt;
    var afterColon := Show(e.elseExpr, 0) + rest;
    var afterQuestion := Show(e.thenExpr, 0) + ([Colon] + afterColon);
    var ts := Bare(e) + rest;
    assert ts == Show(e.cond, 1) + ([Question] + afterQuestion);
    EndsBefore(Question, afterQuestion);
    EndsHigher(0, 1, [Question] + afterQuestion);
    ShownIsOperand(e.cond, 1, [Question] + afterQuestion);
    NothingToClimb(1, e.cond, [Question] + afterQuestion);
    EndsBefore(Colon, afterColon);
    ShowAtOwnLevel(e.thenExpr, 0);
    ShowAtOwnLevel(e.elseExpr, 0);
    BareRead(e.thenExpr, [Colon] + afterColon);
    BareRead(e.elseExpr, rest);
    ConditionalStep(ts, e.cond, afterQuestion, e.thenExpr, afterColon, e.elseExpr, rest);
  }

  /** A binary expression ends its left operand at its operator and folds it with the right one. */
  lemma {:induction false} BinaryRead(e: CExpr, rest: seq<Tok>)
    requires e.Binary? && Ends(Rank(e), rest)
    ensures Level(Rank(e), Bare(e) + rest) == Climb(Rank(e), e, rest)
    decreases e, 1
  {
    hide Ends, Show, BinaryAt, Conditional, UnaryExpr, OperatorAt, Level, Climb, LevelOf, BinaryToken;
    var level := LevelOf(e.bop);
    var afterOp := Show(e.rhs, level + 1) + rest;
    var middle := [BinaryToken(e.bop)] + afterOp;
    assert Bare(e) + rest == Show(e.lhs, level) + middle;
    EndsAtOperator(e.bop, afterOp);
    ShownIsOperand(e.lhs, level, middle);
    EndsHigher(level, level + 1, rest);
    ShownIsOperand(e.rhs, level + 1, rest);
    NothingToClimb(level + 1, e.rhs, rest);
    ClimbStep(level, e.lhs, e.bop, afterOp, e.rhs, rest);
  }

  /** Unary operators, names, literals and calls are read back before any binary operator is looked for. */
  lemma {:induction false} TightRead(e: CExpr, rest: seq<Tok>)
    requires Rank(e) >= UNARY && !Starts(rest, LParen)
    ensures UnaryExpr(Bare(e) + rest) == Ok(Parsed(e, rest))
    decreases e, 1
  {
    hide Conditional, Level, UnaryExpr, CallFrom, UnaryToken, ShowAll;
    var ts := Bare(e) + rest;
    match e {
      case Call(name, args) =>
        assert ts == [TIdent(name), LParen] + (ShowAll(args) + ([RParen] + rest));
        CallStep(name, ShowAll(args) + ([RParen] + rest));
        CallRead(e, rest);
      case Unary(op, x) =>
        assert ts == [UnaryToken(op)] + (Show(x, UNARY) + rest);
        if Rank(x) < UNARY {
          ParenthesesRead(x, rest);
        } else {
          TightRead(x, rest);
        }
        UnaryStep(op, Show(x, UNARY) + rest, x, rest);
      case _ =>
        AtomStep(e, rest);
    }
  }

  lemma {:induction false} CallRead(e: CExpr, rest: seq<Tok>)
    requires e.Call?
    ensures CallFrom(e.callee, ShowAll(e.args) + ([RParen] + rest)) == Ok(Parsed(e, rest))
    decreases e, 0
  {
    hide Conditional, Show;
    assert ([RParen] + rest)[1..] == rest;
    if e.args == [] {
      assert ShowAll(e.args) + ([RParen] + rest) == [RParen] + rest;
    } else {
      ArgumentsRead([], e.args, rest);
      assert [] + e.args == e.args;
      ShowAllStarts(e.args);
      assert Eat(RParen, [RParen] + rest) == Ok(rest);
    }
  }

  lemma {:induction false} ArgumentsRead(before: seq<CExpr>, es: seq<CExpr>, rest: seq<Tok>)
    requires es != []
    ensures Arguments(before, ShowAll(es) + ([RParen] + rest)) == Ok(Parsed(before + es, [RParen] + rest))
    decreases es, 0
  {
    hide Conditional, Show, EndsAll, ShowAll, Arguments;
    var close := [RParen] + rest;
    EndsBefore(RParen, rest);
    ShowAllUnfold(es);
    ShowAtOwnLevel(es[0], 0);
    if |es| == 1 {
      BareRead(es[0], close);
      ArgumentsStep(before, es[0], ShowAll(es) + close, close);
      assert before + [es[0]] == before + es;
    } else {
      var others := ShowAll(es[1..]) + close;
      EndsBefore(Comma, others);
      BareRead(es[0], [Comma] + others);
      assert ShowAll(es) + close == Show(es[0], 0) + ([Comma] + others);
      ArgumentsStep(before, es[0], ShowAll(es) + close, [Comma] + others);
      assert ([Comma] + others)[1..] == others;
      ArgumentsRead(before + [es[0]], es[1..], rest);
      assert before + [es[0]] + es[1..] == before + es;
    }
  }

  lemma ShowAllUnfold(es: seq<CExpr>)
    requires es != []
    ensures ShowAll(es) == if |es| == 1 then Show(es[0], 0) else Show(es[0], 0) + [Comma] + ShowAll(es[1..])
  {
    hide Show;
  }

  lemma ArgumentsStep(before: seq<CExpr>, e: CExpr, ts: seq<Tok>, after: seq<Tok>)
    requires Conditional(ts) == Ok(Parsed(e, after))
    ensures Arguments(before, ts) ==
      if Starts(after, Comma) then Arguments(before + [e], after[1..]) else Ok(Parsed(before + [e], after))
  {
    hide Conditional;
  }

  lemma {:induction false} BareStarts(e: CExpr)
    ensures Bare(e)[0] != RParen
    decreases e
  {
    match e {
      case Binary(_, l, _) => BareStarts(l);
      case IfExpr(c, _, _) => BareStarts(c);
      case _ =>
    }
  }

  lemma ShowAllStarts(es: seq<CExpr>)
    requires es != []
    ensures ShowAll(es) != [] && ShowAll(es)[0] != RParen
  {
    BareStarts(es[0]);
  }


  /** Parsing the tokens of any printed expression gives back the expression and stops just past it. */
  lemma ExpressionRoundTrip(e: CExpr, rest: seq<Tok>)
    requires EndsAll(rest)
    ensures Conditional(Show(e, 0) + rest) == Ok(Parsed(e, rest))
  {
    ShowAtOwnLevel(e, 0);
    BareRead(e, rest);
  }
}
