/** How tightly the C operators bind, and to which side, over source text. */
module CPrecedence {
  import opened Text
  import opened CLexer
  import opened CExpressions
  import opened CPrinting
  import opened CReadBack
  import opened CSources

  /** Each binary operator's text, its level (C17 sections 6.5.5 to 6.5.14, loosest first) and its meaning. */
  function Operators(): map<string, (nat, BinOp)> {
    map[
      "||" := (1, Or), "&&" := (2, And), "|" := (3, BitOr), "^" := (4, BitXor), "&" := (5, BitAnd),
      "==" := (6, Eq), "!=" := (6, NotEq),
      "<" := (7, BinOp.Lt), "<=" := (7, LtEq), ">" := (7, BinOp.Gt), ">=" := (7, GtEq),
      "<<" := (8, BinOp.Shl), ">>" := (8, BinOp.Shr),
      "+" := (9, Add), "-" := (9, Sub),
      "*" := (10, Mul), "/" := (10, FloorDiv), "%" := (10, Mod)
    ]
  }

  function UnaryOperators(): map<string, UnOp> {
    map["-" := Neg, "!" := Not, "~" := BitNot]
  }

  lemma OperatorWritten(p: string)
    requires p in Operators()
    ensures var (level, op) := Operators()[p]; TokenText(BinaryToken(op)) == p && LevelOf(op) == level
  {
    hide TokenText, BinaryToken, LevelOf;
    if p in {"||", "&&", "|"} {
      LoosestWritten(p);
    } else if p in {"^", "&", "==", "!="} {
      LooseWritten(p);
    } else if p in {"<", "<=", ">", ">=", "<<", ">>"} {
      MiddleWritten(p);
    } else {
      TightWritten(p);
    }
  }

  lemma LoosestWritten(p: string)
    requires p in {"||", "&&", "|"}
    ensures var (level, op) := Operators()[p]; TokenText(BinaryToken(op)) == p && LevelOf(op) == level
  {
    hide DecimalText;
  }

  lemma LooseWritten(p: string)
    requires p in {"^", "&", "==", "!="}
    ensures var (level, op) := Operators()[p]; TokenText(BinaryToken(op)) == p && LevelOf(op) == level
  {
    hide DecimalText;
  }

  lemma MiddleWritten(p: string)
    requires p in {"<", "<=", ">", ">=", "<<", ">>"}
    ensures var (level, op) := Operators()[p]; TokenText(BinaryToken(op)) == p && LevelOf(op) == level
  {
    hide DecimalText;
  }

  lemma TightWritten(p: string)
    requires p in {"+", "-", "*", "/", "%"}
    ensures var (level, op) := Operators()[p]; TokenText(BinaryToken(op)) == p && LevelOf(op) == level
  {
    hide DecimalText;
  }

  lemma UnaryWritten(u: string)
    requires u in UnaryOperators()
    ensures TokenText(UnaryToken(UnaryOperators()[u])) == u
  {
    hide DecimalText;
  }

  predicate IsName(a: string) {
    Printable(TIdent(a))
  }

  /** Printable tokens with single blanks between them are read as the tree they show. */
  lemma TextReads(text: string, ts: seq<Tok>, e: CExpr)
    requires PrintableAll(ts) && text == SourceText(ts) && ts == Show(e, 0)
    ensures Reads(text, e)
  {
    hide LexFrom, Conditional, SourceText, Show;
    TokensReadBack(ts);
    ExpressionRoundTrip(e, []);
    assert Show(e, 0) + [] == Show(e, 0);
  }

  lemma NameShown(a: string, level: nat)
    requires level <= PRIMARY
    ensures Show(Var(a), level) == [TIdent(a)]
  {
  }

  lemma MarkPrintable(op: BinOp)
    ensures Printable(BinaryToken(op))
  {
  }

  lemma TwoShown(a: string, op: BinOp, b: string, level: nat)
    ensures var e := Binary(op, Var(a), Var(b)); var ts := [TIdent(a), BinaryToken(op), TIdent(b)];
      Show(e, level) == if LevelOf(op) < level then [LParen] + ts + [RParen] else ts
  {
    hide BinaryToken, LevelOf;
    NameShown(a, LevelOf(op));
    NameShown(b, LevelOf(op) + 1);
  }

  /** Three operands and two operators, without parentheses. */
  function Chain(a: string, p: string, b: string, q: string, c: string): string {
    a + " " + (p + " " + (b + " " + (q + " " + c)))
  }

  lemma ChainText(a: string, t: Tok, b: string, u: Tok, c: string)
    ensures SourceText([TIdent(a), t, TIdent(b), u, TIdent(c)]) == Chain(a, TokenText(t), b, TokenText(u), c)
  {
    hide TokenText;
    var ts := [TIdent(a), t, TIdent(b), u, TIdent(c)];
    var xs := [a, TokenText(t), b, TokenText(u), c];
    NameText(a);
    NameText(b);
    NameText(c);
    assert TokenTexts(ts) == xs;
    assert xs[1..] == [TokenText(t), b, TokenText(u), c];
    assert xs[1..][1..] == [b, TokenText(u), c];
    assert xs[1..][1..][1..] == [TokenText(u), c];
    assert xs[1..][1..][1..][1..] == [c];
    JoinStep(xs);
    JoinStep(xs[1..]);
    JoinStep(xs[1..][1..]);
    JoinStep(xs[1..][1..][1..]);
    assert Join(" ", [c]) == c;
  }

  lemma NameText(a: string)
    ensures TokenText(TIdent(a)) == a
  {
  }

  lemma JoinStep(xs: seq<string>)
    requires |xs| > 1
    ensures Join(" ", xs) == xs[0] + " " + Join(" ", xs[1..])
  {
  }

  /**
   * Of two operators the one with the higher level binds first, and on the same level the left one, for all eighteen
   * operators and all names.
   */
  lemma TighterFirst(a: string, p: string, b: string, q: string, c: string)
    requires IsName(a) && IsName(b) && IsName(c) && p in Operators() && q in Operators()
    ensures var (i, first) := Operators()[p]; var (j, second) := Operators()[q];
      Reads(Chain(a, p, b, q, c),
            if i >= j then Binary(second, Binary(first, Var(a), Var(b)), Var(c))
            else Binary(first, Var(a), Binary(second, Var(b), Var(c))))
  {
    hide Operators, Show, Reads, BinaryToken, LevelOf, SourceText, Chain, Printable, TokenText;
    OperatorWritten(p);
    OperatorWritten(q);
    var first, second := Operators()[p].1, Operators()[q].1;
    var t, u := BinaryToken(first), BinaryToken(second);
    MarkPrintable(first);
    MarkPrintable(second);
    var ts := [TIdent(a), t, TIdent(b), u, TIdent(c)];
    ChainText(a, t, b, u, c);
    if LevelOf(first) >= LevelOf(second) {
      LeftShown(a, first, b, second, c);
      TextReads(Chain(a, p, b, q, c), ts, Binary(second, Binary(first, Var(a), Var(b)), Var(c)));
    } else {
      RightShown(a, first, b, second, c);
      TextReads(Chain(a, p, b, q, c), ts, Binary(first, Var(a), Binary(second, Var(b), Var(c))));
    }
  }

  lemma LeftShown(a: string, first: BinOp, b: string, second: BinOp, c: string)
    requires LevelOf(first) >= LevelOf(second)
    ensures Show(Binary(second, Binary(first, Var(a), Var(b)), Var(c)), 0) ==
            [TIdent(a), BinaryToken(first), TIdent(b), BinaryToken(second), TIdent(c)]
  {
    hide BinaryToken, LevelOf;
    TwoShown(a, first, b, LevelOf(second));
    NameShown(c, LevelOf(second) + 1);
  }

  lemma RightShown(a: string, first: BinOp, b: string, second: BinOp, c: string)
    requires LevelOf(first) < LevelOf(second)
    ensures Show(Binary(first, Var(a), Binary(second, Var(b), Var(c))), 0) ==
            [TIdent(a), BinaryToken(first), TIdent(b), BinaryToken(second), TIdent(c)]
  {
    hide BinaryToken, LevelOf;
    TwoShown(b, second, c, LevelOf(first) + 1);
    NameShown(a, LevelOf(first));
  }

  /** A unary operator binds before every binary one. */
  lemma UnaryFirst(u: string, a: string, p: string, b: string)
    requires IsName(a) && IsName(b) && u in UnaryOperators() && p in Operators()
    ensures Reads(u + " " + (a + " " + (p + " " + b)),
                  Binary(Operators()[p].1, Unary(UnaryOperators()[u], Var(a)), Var(b)))
  {
    hide Operators, UnaryOperators, Reads, BinaryToken, LevelOf, SourceText, Printable, TokenText, UnaryToken;
    OperatorWritten(p);
    UnaryWritten(u);
    var op, uop := Operators()[p].1, UnaryOperators()[u];
    var t, v := BinaryToken(op), UnaryToken(uop);
    MarkPrintable(op);
    UnaryPrintable(uop);
    NameShown(a, UNARY);
    NameShown(b, LevelOf(op) + 1);
    var e := Binary(op, Unary(uop, Var(a)), Var(b));
    assert Show(Unary(uop, Var(a)), LevelOf(op)) == [v, TIdent(a)];
    assert Show(e, 0) == [v, TIdent(a), t, TIdent(b)];
    var ts := [v, TIdent(a), t, TIdent(b)];
    var xs := [u, a, p, b];
    NameText(a);
    NameText(b);
    assert TokenTexts(ts) == xs;
    assert xs[1..] == [a, p, b] && xs[1..][1..] == [p, b] && xs[1..][1..][1..] == [b];
    JoinStep(xs);
    JoinStep(xs[1..]);
    JoinStep(xs[1..][1..]);
    assert Join(" ", [b]) == b;
    SourceIsJoin(ts);
    TextReads(u + " " + (a + " " + (p + " " + b)), ts, e);
  }

  lemma UnaryPrintable(uop: UnOp)
    ensures Printable(UnaryToken(uop))
  {
  }

  lemma SourceIsJoin(ts: seq<Tok>)
    ensures SourceText(ts) == Join(" ", TokenTexts(ts))
  {
  }

  /** The conditional operator binds last and to the right. */
  lemma ConditionalLast(a: string, p: string, b: string, c: string, d: string, e: string, f: string)
    requires IsName(a) && IsName(b) && IsName(c) && IsName(d) && IsName(e) && IsName(f) && p in Operators()
    ensures Reads(a + " " + (p + " " + (b + " " + ("?" + " " + (c + " " + (":" + " " +
              (d + " " + ("?" + " " + (e + " " + (":" + " " + f))))))))),
              IfExpr(Binary(Operators()[p].1, Var(a), Var(b)), Var(c), IfExpr(Var(d), Var(e), Var(f))))
  {
    hide Operators, Reads, BinaryToken, LevelOf, SourceText, Printable, TokenText;
    OperatorWritten(p);
    var op := Operators()[p].1;
    MarkPrintable(op);
    MarksPrintable();
    var inner := IfExpr(Var(d), Var(e), Var(f));
    var tree := IfExpr(Binary(op, Var(a), Var(b)), Var(c), inner);
    var ts := [TIdent(a), BinaryToken(op), TIdent(b), Question, TIdent(c), Colon,
               TIdent(d), Question, TIdent(e), Colon, TIdent(f)];
    TwoShown(a, op, b, 1);
    NameShown(c, 0);
    NameShown(d, 1);
    NameShown(e, 0);
    NameShown(f, 0);
    assert Show(inner, 0) == [TIdent(d), Question, TIdent(e), Colon, TIdent(f)];
    assert Show(tree, 0) == ts;
    ConditionalText(a, BinaryToken(op), b, c, d, e, f);
    TextReads(SourceText(ts), ts, tree);
  }

  lemma MarksPrintable()
    ensures Printable(Question) && Printable(Colon) && TokenText(Question) == "?" && TokenText(Colon) == ":"
  {
  }

  lemma ConditionalText(a: string, t: Tok, b: string, c: string, d: string, e: string, f: string)
    ensures SourceText([TIdent(a), t, TIdent(b), Question, TIdent(c), Colon,
                        TIdent(d), Question, TIdent(e), Colon, TIdent(f)]) ==
            a + " " + (TokenText(t) + " " + (b + " " + ("?" + " " + (c + " " + (":" + " " +
              (d + " " + ("?" + " " + (e + " " + (":" + " " + f)))))))))
  {
    hide TokenText;
    MarksPrintable();
    var last := [TIdent(d), Question, TIdent(e), Colon, TIdent(f)];
    ChainText(d, Question, e, Colon, f);
    Front(Colon, last);
    Front(TIdent(c), [Colon] + last);
    Front(Question, [TIdent(c)] + ([Colon] + last));
    Front(TIdent(b), [Question] + ([TIdent(c)] + ([Colon] + last)));
    Front(t, [TIdent(b)] + ([Question] + ([TIdent(c)] + ([Colon] + last))));
    var more := [t] + ([TIdent(b)] + ([Question] + ([TIdent(c)] + ([Colon] + last))));
    Front(TIdent(a), more);
    NameText(a);
    NameText(b);
    NameText(c);
    assert [TIdent(a)] + more == [TIdent(a), t, TIdent(b), Question, TIdent(c), Colon,
                                  TIdent(d), Question, TIdent(e), Colon, TIdent(f)];
  }

  lemma Front(t: Tok, ts: seq<Tok>)
    requires ts != []
    ensures SourceText([t] + ts) == TokenText(t) + " " + SourceText(ts)
  {
    hide TokenText;
    assert TokenTexts([t] + ts) == [TokenText(t)] + TokenTexts(ts);
    assert ([TokenText(t)] + TokenTexts(ts))[1..] == TokenTexts(ts);
  }
}
