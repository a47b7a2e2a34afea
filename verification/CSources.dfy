/** C expressions as source text: which trees have one, and that printing keeps what a text says. */
module CSources {
  import opened Outcomes
  import opened CLexer
  import opened CExpressions
  import opened CPrinting
  import opened CReadBack

  lemma {:induction false} ConditionalWritable(ts: seq<Tok>)
    requires PrintableAll(ts)
    ensures var r := Conditional(ts); r.Ok? ==> Writable(r.value.tree) && PrintableAll(r.value.rest)
    decreases |ts|, 13
  {
    hide Level, Printable;
    LevelWritable(1, ts);
    var cond := Level(1, ts);
    if cond.Ok? && Starts(cond.value.rest, Question) {
      ConditionalWritable(cond.value.rest[1..]);
      var yes := Conditional(cond.value.rest[1..]);
      if yes.Ok? && Eat(Colon, yes.value.rest).Ok? {
        ConditionalWritable(yes.value.rest[1..]);
      }
    }
  }

  lemma {:induction false} LevelWritable(level: nat, ts: seq<Tok>)
    requires 1 <= level <= UNARY && PrintableAll(ts)
    ensures var r := Level(level, ts); r.Ok? ==> Writable(r.value.tree) && PrintableAll(r.value.rest)
    decreases |ts|, 13 - level
  {
    hide Climb, UnaryExpr, Printable, Writable, PrintableAll;
    if level == UNARY {
      UnaryWritable(ts);
    } else {
      LevelWritable(level + 1, ts);
      var lhs := Level(level + 1, ts);
      if lhs.Ok? {
        ClimbWritable(level, lhs.value.tree, lhs.value.rest);
      }
    }
  }

  lemma {:induction false} ClimbWritable(level: nat, lhs: CExpr, ts: seq<Tok>)
    requires 1 <= level <= UNARY && PrintableAll(ts) && Writable(lhs)
    ensures var r := Climb(level, lhs, ts); r.Ok? ==> Writable(r.value.tree) && PrintableAll(r.value.rest)
    decreases |ts|, 13
  {
    hide Level, BinaryAt, Printable;
    var op := OperatorAt(level, ts);
    if op.Some? {
      NoneAtUnary(ts[0]);
      LevelWritable(level + 1, ts[1..]);
      var rhs := Level(level + 1, ts[1..]);
      if rhs.Ok? {
        ClimbWritable(level, Binary(op.value, lhs, rhs.value.tree), rhs.value.rest);
      }
    }
  }

  lemma {:induction false} UnaryWritable(ts: seq<Tok>)
    requires PrintableAll(ts)
    ensures var r := UnaryExpr(ts); r.Ok? ==> Writable(r.value.tree) && PrintableAll(r.value.rest)
    decreases |ts|, 1
  {
    hide Primary, Printable;
    if ts != [] && UnaryOf(ts[0]).Some? {
      UnaryWritable(ts[1..]);
    } else {
      PrimaryWritable(ts);
    }
  }

  lemma {:induction false} PrimaryWritable(ts: seq<Tok>)
    requires PrintableAll(ts)
    ensures var r := Primary(ts); r.Ok? ==> Writable(r.value.tree) && PrintableAll(r.value.rest)
    decreases |ts|, 0
  {
    hide Conditional, Arguments;
    var r := Primary(ts);
    if r.Ok? {
      assert Printable(ts[0]);
      if ts[0] == LParen {
        ConditionalWritable(ts[1..]);
      } else if ts[0].TIdent? && Starts(ts[1..], LParen) && !Starts(ts[2..], RParen) {
        assert AllWritable([]);
        ArgumentsWritable([], ts[2..]);
      }
    }
  }

  lemma {:induction false} ArgumentsWritable(before: seq<CExpr>, ts: seq<Tok>)
    requires PrintableAll(ts) && AllWritable(before)
    ensures var r := Arguments(before, ts); r.Ok? ==> AllWritable(r.value.tree) && PrintableAll(r.value.rest)
    decreases |ts|, 14
  {
    hide Conditional, Printable;
    ConditionalWritable(ts);
    var e := Conditional(ts);
    if e.Ok? {
      AppendWritable(before, e.value.tree);
      if Starts(e.value.rest, Comma) {
        ArgumentsWritable(before + [e.value.tree], e.value.rest[1..]);
      }
    }
  }

  lemma {:induction false} AppendWritable(es: seq<CExpr>, e: CExpr)
    requires AllWritable(es) && Writable(e)
    ensures AllWritable(es + [e])
  {
    if es == [] {
      assert [e][1..] == [];
    } else {
      AppendWritable(es[1..], e);
      assert (es + [e])[1..] == es[1..] + [e];
    }
  }

  /** A tree of writable names and literals prints to tokens the lexer can read. */
  lemma {:induction false} ShownIsPrintable(e: CExpr, level: nat)
    requires Writable(e)
    ensures PrintableAll(Show(e, level))
    decreases e, 1
  {
    hide Printable, Writable, Bare;
    BareIsPrintable(e);
    assert Printable(LParen) && Printable(RParen) by { PunctuationIsPrintable(LParen); PunctuationIsPrintable(RParen); }
  }

  lemma PunctuationIsPrintable(t: Tok)
    requires !t.TIdent? && !t.TNum? && !t.TFNum?
    ensures Printable(t)
  {
  }

  lemma {:induction false} BareIsPrintable(e: CExpr)
    requires Writable(e)
    ensures PrintableAll(Bare(e))
    decreases e, 0
  {
    hide Show;
    match e {
      case Call(_, args) => AllShownPrintable(args);
      case Unary(_, x) => ShownIsPrintable(x, UNARY);
      case Binary(op, l, r) =>
        ShownIsPrintable(l, LevelOf(op));
        ShownIsPrintable(r, LevelOf(op) + 1);
      case IfExpr(c, t, f) =>
        ShownIsPrintable(c, 1);
        ShownIsPrintable(t, 0);
        ShownIsPrintable(f, 0);
      case _ =>
    }
  }

  lemma {:induction false} AllShownPrintable(es: seq<CExpr>)
    requires AllWritable(es)
    ensures PrintableAll(ShowAll(es))
    decreases es, 0
  {
    hide Show, Printable;
    PunctuationIsPrintable(Comma);
    if es != [] {
      ShownIsPrintable(es[0], 0);
      AllShownPrintable(es[1..]);
    }
  }

  function ExpressionText(e: CExpr): string {
    SourceText(Show(e, 0))
  }

  /** `e` is what the whole of `text` says. */
  predicate Reads(text: string, e: CExpr) {
    LexFrom(text).Ok? && Conditional(LexFrom(text).value) == Ok(Parsed(e, []))
  }

  /** A tree can be written as text at all exactly when its names and literals can, and its own text is one way. */
  lemma WritableExactly(e: CExpr)
    ensures Writable(e) <==> exists text :: Reads(text, e)
    ensures Writable(e) ==> Reads(ExpressionText(e), e)
  {
    hide Writable, Show, LexFrom, Conditional, SourceText;
    if Writable(e) {
      ShownIsPrintable(e, 0);
      TokensReadBack(Show(e, 0));
      ExpressionRoundTrip(e, []);
      assert Show(e, 0) + [] == Show(e, 0);
      assert Reads(ExpressionText(e), e);
    }
    forall text | Reads(text, e) ensures Writable(e) {
      LexedIsPrintable(text);
      ConditionalWritable(LexFrom(text).value);
    }
  }

  /** Printing what any text says gives text that says the same. */
  lemma ReprintedReadsTheSame(text: string, e: CExpr)
    requires Reads(text, e)
    ensures Reads(ExpressionText(e), e)
  {
    hide Reads, ExpressionText, Writable;
    WritableExactly(e);
  }
}
