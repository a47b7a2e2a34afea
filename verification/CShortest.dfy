/** No token list shorter than the printed one parses to the same tree. */
module CShortest {
  import opened Outcomes
  import opened CLexer
  import opened CExpressions
  import opened CPrinting

  /** Whatever tokens the parser reads as `e` at a level, the printed form is no longer. */
  lemma {:induction false} ConditionalNoShorter(ts: seq<Tok>)
    ensures var r := Conditional(ts); r.Ok? ==> |Show(r.value.tree, 0)| + |r.value.rest| <= |ts|
    decreases |ts|, 13
  {
    hide Level, Show, Bare;
    LevelNoShorter(1, ts);
    var cond := Level(1, ts);
    if cond.Ok? {
      ShowGrows(cond.value.tree, 0, 1);
      if Starts(cond.value.rest, Question) {
        ConditionalNoShorter(cond.value.rest[1..]);
        var yes := Conditional(cond.value.rest[1..]);
        if yes.Ok? && Eat(Colon, yes.value.rest).Ok? {
          ConditionalNoShorter(yes.value.rest[1..]);
          var no := Conditional(yes.value.rest[1..]);
          if no.Ok? {
            ConditionalCost(cond.value.tree, yes.value.tree, no.value.tree);
          }
        }
      }
    }
  }

  lemma ConditionalCost(c: CExpr, t: CExpr, f: CExpr)
    ensures |Show(IfExpr(c, t, f), 0)| == |Show(c, 1)| + |Show(t, 0)| + |Show(f, 0)| + 2
  {
    hide Show;
    ShowAtOwnLevel(IfExpr(c, t, f), 0);
  }

  lemma {:induction false} LevelNoShorter(level: nat, ts: seq<Tok>)
    requires 1 <= level <= UNARY
    ensures var r := Level(level, ts); r.Ok? ==> |Show(r.value.tree, level)| + |r.value.rest| <= |ts|
    decreases |ts|, 13 - level
  {
    hide Climb, Show, UnaryExpr, Bare;
    if level == UNARY {
      UnaryNoShorter(ts);
    } else {
      LevelNoShorter(level + 1, ts);
      var lhs := Level(level + 1, ts);
      if lhs.Ok? {
        ShowGrows(lhs.value.tree, level, level + 1);
        ClimbNoShorter(level, lhs.value.tree, lhs.value.rest);
      }
    }
  }

  lemma {:induction false} ClimbNoShorter(level: nat, lhs: CExpr, ts: seq<Tok>)
    requires 1 <= level <= UNARY
    ensures var r := Climb(level, lhs, ts);
      r.Ok? ==> |Show(r.value.tree, level)| + |r.value.rest| <= |Show(lhs, level)| + |ts|
    decreases |ts|, 13
  {
    hide Level, Show, BinaryAt;
    var op := OperatorAt(level, ts);
    if op.Some? {
      NoneAtUnary(ts[0]);
      LevelNoShorter(level + 1, ts[1..]);
      var rhs := Level(level + 1, ts[1..]);
      if rhs.Ok? {
        LevelIsUnique(level, ts[0], op.value);
        ShowAtOwnLevel(Binary(op.value, lhs, rhs.value.tree), level);
        assert |Show(Binary(op.value, lhs, rhs.value.tree), level)|
            == |Show(lhs, level)| + 1 + |Show(rhs.value.tree, level + 1)|;
        ClimbNoShorter(level, Binary(op.value, lhs, rhs.value.tree), rhs.value.rest);
      }
    }
  }

  lemma {:induction false} UnaryNoShorter(ts: seq<Tok>)
    ensures var r := UnaryExpr(ts); r.Ok? ==> |Show(r.value.tree, UNARY)| + |r.value.rest| <= |ts|
    decreases |ts|, 1
  {
    hide Primary, Show;
    if ts != [] && UnaryOf(ts[0]).Some? {
      UnaryNoShorter(ts[1..]);
      var x := UnaryExpr(ts[1..]);
      if x.Ok? {
        ShowAtOwnLevel(Unary(UnaryOf(ts[0]).value, x.value.tree), UNARY);
      }
    } else {
      PrimaryNoShorter(ts);
      var r := Primary(ts);
      if r.Ok? {
        ShowGrows(r.value.tree, UNARY, PRIMARY);
      }
    }
  }

  lemma {:induction false} PrimaryNoShorter(ts: seq<Tok>)
    ensures var r := Primary(ts); r.Ok? ==> |Show(r.value.tree, PRIMARY)| + |r.value.rest| <= |ts|
    decreases |ts|, 0
  {
    hide Conditional, CallFrom, Show;
    var r := Primary(ts);
    if r.Ok? {
      if ts[0] == LParen {
        ConditionalNoShorter(ts[1..]);
        ParenthesesCost(r.value.tree);
      } else if ts[0].TIdent? && Starts(ts[1..], LParen) {
        CallNoShorter(ts[0].name, ts[2..]);
      } else {
        ShowAtOwnLevel(r.value.tree, PRIMARY);
      }
    }
  }

  lemma ParenthesesCost(e: CExpr)
    ensures |Show(e, PRIMARY)| <= 2 + |Show(e, 0)|
  {
    hide Bare, Rank;
  }

  lemma {:induction false} CallNoShorter(name: string, ts: seq<Tok>)
    ensures var r := CallFrom(name, ts); r.Ok? ==> |Show(r.value.tree, PRIMARY)| + |r.value.rest| <= |ts| + 2
    decreases |ts|, 15
  {
    hide Arguments, Show;
    var r := CallFrom(name, ts);
    if r.Ok? {
      ShowAtOwnLevel(r.value.tree, PRIMARY);
      if !Starts(ts, RParen) {
        ArgumentsNoShorter([], ts);
        var args := Arguments([], ts).value.tree;
        assert args[0..] == args;
      }
    }
  }

  /** Commas included, the arguments read so far and the ones to come. */
  lemma {:induction false} ArgumentsNoShorter(before: seq<CExpr>, ts: seq<Tok>)
    ensures var r := Arguments(before, ts);
      r.Ok? ==> before < r.value.tree && |ShowAll(r.value.tree[|before|..])| + |r.value.rest| <= |ts|
    decreases |ts|, 14
  {
    hide Conditional, Show;
    ConditionalNoShorter(ts);
    var e := Conditional(ts);
    if e.Ok? {
      var now := before + [e.value.tree];
      if Starts(e.value.rest, Comma) {
        ArgumentsNoShorter(now, e.value.rest[1..]);
        var r := Arguments(now, e.value.rest[1..]);
        if r.Ok? {
          var mine, theirs := r.value.tree[|before|..], r.value.tree[|now|..];
          assert mine == [e.value.tree] + theirs;
          assert mine[1..] == theirs && mine[0] == e.value.tree;
        }
      } else {
        assert now[|before|..] == [e.value.tree];
      }
    }
  }

  lemma ShowGrows(e: CExpr, level: nat, higher: nat)
    requires level <= higher
    ensures |Show(e, level)| <= |Show(e, higher)|
  {
  }

  /** The printed form is the shortest token list that parses to its tree, so no parenthesis can be left out. */
  lemma PrintedIsShortest(e: CExpr, ts: seq<Tok>)
    requires Conditional(ts) == Ok(Parsed(e, []))
    ensures |Show(e, 0)| <= |ts|
  {
    ConditionalNoShorter(ts);
  }
}
