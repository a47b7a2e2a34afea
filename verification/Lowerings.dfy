/** Which lowered arguments are read back from their own text: all but substitutions with a parenthesis in theirs. */
module Lowerings {
  import opened Outcomes
  import opened Text
  import opened ShellAst
  import opened Tokenizer
  import opened TokenText
  import opened FlatLines
  import opened Printer
  import opened FlatRoundTrip
  import opened Reprints

  predicate HasParenthesis(s: string) {
    '(' in s || ')' in s
  }

  /** The substitution's rendered text has no parenthesis of its own. */
  predicate ParenFree(e: Expr) {
    e.CommandSubstitution? && e.inner.Cmd? ==> !HasParenthesis(CmdText(e.inner.program, e.inner.args))
  }

  predicate AllParenFree(args: seq<Expr>) {
    forall e :: e in args ==> ParenFree(e)
  }

  // ---- the tokens of a text ----

  /** Well-formed, or a substitution, or the last token and an arithmetic expansion that nothing closes. */
  predicate Produced(ts: seq<RawToken>, i: nat)
    requires i < |ts|
  {
    WellFormedToken(ts[i]) || ts[i].CommandSubst? || (i == |ts| - 1 && ts[i].Bare? && OpenBare(ts[i].text))
  }

  predicate AllProduced(ts: seq<RawToken>) {
    forall i :: 0 <= i < |ts| ==> Produced(ts, i)
  }

  lemma {:induction false} ArithmeticEnd(s: string, depth: nat)
    requires depth > 0
    ensures var n := ArithmeticLength(s, depth);
      ArithmeticLength(s[..n], depth) == n && (n < |s| ==> ClosesAtEnd(s[..n], depth))
    decreases |s|
  {
    var n := ArithmeticLength(s, depth);
    if s != "" && !(s[0] == ')' && depth == 1) {
      var d := if s[0] == '(' then depth + 1 else if s[0] == ')' then depth - 1 else depth;
      ArithmeticEnd(s[1..], d);
      assert s[..n][1..] == s[1..][..n - 1];
    }
  }

  lemma DelimitedProduced(s: string)
    requires OpensDelimited(s) && Delimited(s).Ok?
    ensures var (t, n) := Delimited(s).value;
      WellFormedToken(t) || t.CommandSubst? || (n == |s| && t.Bare? && OpenBare(t.text))
  {
    hide ArithmeticLength, ClosesAtEnd;
    var (t, n) := Delimited(s).value;
    DelimitedTokenWellFormed(s);
    if t.Bare? {
      ArithmeticEnd(s[3..], 2);
      assert t.text == s[..n] && s[..n][3..] == s[3..][..n - 3];
      assert s[..n][..3] == s[..3] == "$((";
    }
  }

  /** Every text's tokens are of these kinds. */
  lemma {:induction false} TextProduces(s: string, current: string)
    requires GoodBuffer(current, s) && TokenizeFrom(s, current).Ok?
    ensures AllProduced(TokenizeFrom(s, current).value)
    decreases |s|
  {
    hide WellFormedToken, Delimited, PlainChars;
    var ts := TokenizeFrom(s, current).value;
    PendingProduced(current, s);
    if s == "" || (s[0] == '#' && current == "") {
    } else if IsWhitespace(s[0]) {
      FreshBuffer(s[1..]);
      TextProduces(s[1..], "");
      ProducedBehind(Pending(current), TokenizeFrom(s[1..], "").value);
    } else if OpensDelimited(s) {
      var (t, n) := Delimited(s).value;
      DelimitedProduced(s);
      FreshBuffer(s[n..]);
      TextProduces(s[n..], "");
      if n == |s| {
        assert ts == [t] + [];
      } else {
        ProducedBehind([t], TokenizeFrom(s[n..], "").value);
      }
    } else {
      BufferGrows(current, s);
      TextProduces(s[1..], current + [s[0]]);
    }
  }

  lemma FreshBuffer(s: string)
    ensures GoodBuffer("", s)
  {
  }

  lemma PendingProduced(current: string, s: string)
    requires GoodBuffer(current, s)
    ensures forall t :: t in Pending(current) ==> WellFormedToken(t)
  {
  }

  lemma ProducedBehind(a: seq<RawToken>, b: seq<RawToken>)
    requires AllProduced(b) && forall t :: t in a ==> WellFormedToken(t) || t.CommandSubst?
    ensures AllProduced(a + b)
  {
    hide WellFormedToken, OpenBare;
    forall i | 0 <= i < |a + b| ensures Produced(a + b, i) {
      if i < |a| {
        assert (a + b)[i] in a;
      } else {
        assert Produced(b, i - |a|);
      }
    }
  }

  lemma LineProduces(line: string)
    requires Tokenize(line).Ok?
    ensures AllProduced(Tokenize(line).value)
  {
    FreshBuffer(line);
    TextProduces(line, "");
  }

  lemma ProducedRest(ts: seq<RawToken>)
    requires AllProduced(ts) && ts != []
    ensures AllProduced(ts[1..])
  {
    hide WellFormedToken, OpenBare;
    forall i | 0 <= i < |ts| - 1 ensures Produced(ts[1..], i) {
      assert Produced(ts, i + 1);
    }
  }

  // ---- what they are lowered to ----

  lemma BareLowered(s: string)
    requires WellFormedToken(Bare(s))
    ensures WellFormedArg(LowerToken(s))
  {
    hide WellFormedToken;
  }

  lemma JoinHolds(sep: string, parts: seq<string>, k: nat, c: char)
    requires k < |parts|
    ensures c in parts[k] ==> c in Join(sep, parts)
  {
    if |parts| > 1 && k > 0 {
      JoinHolds(sep, parts[1..], k - 1, c);
    }
  }

  /** What a command's text lacks, its program and its arguments' texts lack. */
  lemma TextLacks(program: string, args: seq<Expr>, c: char)
    requires c !in CmdText(program, args)
    ensures c !in program && forall k :: 0 <= k < |args| ==> c !in ArgText(args[k])
  {
    hide ArgText, Join;
    JoinedArgs(program, args);
    var parts := [program] + ArgTexts(args);
    JoinHolds(" ", parts, 0, c);
    forall k | 0 <= k < |args| ensures c !in ArgText(args[k]) {
      ArgTextAt(args, k);
      assert parts[k + 1] == ArgText(args[k]);
      JoinHolds(" ", parts, k + 1, c);
    }
  }

  lemma {:induction false} ArgTextAt(args: seq<Expr>, k: nat)
    requires k < |args|
    ensures ArgTexts(args)[k] == ArgText(args[k])
  {
    hide ArgText;
    if k > 0 {
      ArgTextAt(args[1..], k - 1);
    }
  }

  lemma OpenHasParenthesis(s: string)
    requires OpenBare(s) || ArithmeticBare(s)
    ensures '(' in s && LowerToken(s) == LitStr(s)
  {
    assert s[..3][1] == '(' && s[..3][0] == '$';
    assert s[1] == '(' && s[1..][0] == '(';
  }

  lemma SubstitutionHasParenthesis(e: Expr)
    requires e.CommandSubstitution? && e.inner.Cmd?
    ensures '(' in ArgText(e)
  {
    hide CmdText;
    assert ArgText(e)[1] == '(';
  }

  /** Without a parenthesis in its text a lowered argument is no substitution, and well-formed. */
  lemma PlainLowered(ts: seq<RawToken>, i: nat)
    requires i < |ts| && Produced(ts, i) && LowerRawToken(ts[i]).Ok?
    requires !HasParenthesis(ArgText(LowerRawToken(ts[i]).value)) || (WellFormedToken(ts[i]) && !ts[i].CommandSubst?)
    ensures WellFormedArg(LowerRawToken(ts[i]).value)
  {
    hide OpenBare, ArithmeticBare, PlainBare, TokenizeFrom, LowerTokens, CmdText;
    var t := ts[i];
    match t {
      case Bare(s) =>
        if WellFormedToken(t) {
          BareLowered(s);
        } else {
          OpenHasParenthesis(s);
        }
      case CommandSubst(_) => SubstitutionHasParenthesis(LowerRawToken(t).value);
      case _ =>
    }
  }

  lemma {:induction false} PlainListLowered(ts: seq<RawToken>)
    requires AllProduced(ts) && LowerTokens(ts).Ok?
    requires forall e :: e in LowerTokens(ts).value ==> !HasParenthesis(ArgText(e))
    ensures WellFormedArgs(LowerTokens(ts).value)
  {
    hide WellFormedArg, LowerRawToken, WellFormedToken, ArgText, OpenBare;
    if ts != [] {
      ProducedRest(ts);
      assert LowerTokens(ts).value == [LowerRawToken(ts[0]).value] + LowerTokens(ts[1..]).value;
      assert Produced(ts, 0);
      PlainLowered(ts, 0);
      assert forall e :: e in LowerTokens(ts[1..]).value ==> e in LowerTokens(ts).value;
      PlainListLowered(ts[1..]);
      assert LowerTokens(ts).value[1..] == LowerTokens(ts[1..]).value;
    }
  }

  lemma SubstitutionLowered(inner: string)
    requires LowerRawToken(CommandSubst(inner)).Ok? && ParenFree(LowerRawToken(CommandSubst(inner)).value)
    ensures WellFormedArg(LowerRawToken(CommandSubst(inner)).value)
  {
    hide WellFormedArgs, LowerTokens, WellFormedToken, CmdText, TokenizeFrom, Trim, ArgText, OpenBare;
    var raw := Tokenize(Trim(inner)).value;
    var program, args := raw[0].text, LowerTokens(raw[1..]).value;
    LineProduces(Trim(inner));
    ProducedRest(raw);
    TextLacks(program, args, '(');
    TextLacks(program, args, ')');
    forall e | e in args ensures !HasParenthesis(ArgText(e)) {
      var k :| 0 <= k < |args| && args[k] == e;
    }
    PlainListLowered(raw[1..]);
    assert Produced(raw, 0);
    PlainProgram(raw);
    SubstitutionText(CmdText(program, args));
  }

  lemma SubstitutionText(text: string)
    requires !HasParenthesis(text)
    ensures WellFormedToken(CommandSubst(text))
  {
  }

  lemma PlainProgram(raw: seq<RawToken>)
    requires raw != [] && raw[0].Bare? && Produced(raw, 0) && '(' !in raw[0].text
    ensures WellFormedToken(raw[0])
  {
    hide OpenBare, ArithmeticBare, PlainBare;
    if !WellFormedToken(raw[0]) {
      OpenHasParenthesis(raw[0].text);
    }
  }

  /** An argument lowered from a text is well-formed in its place exactly when it is free of parentheses. */
  lemma {:induction false} ArgumentsExactly(ts: seq<RawToken>)
    requires AllProduced(ts) && LowerTokens(ts).Ok?
    ensures WellFormedArgList(LowerTokens(ts).value) <==> AllParenFree(LowerTokens(ts).value)
  {
    hide WellFormedArg, WellFormedLast, LowerRawToken, WellFormedToken, OpenBare, ParenFree;
    if ts != [] {
      var args := LowerTokens(ts).value;
      ProducedRest(ts);
      assert args == [LowerRawToken(ts[0]).value] + LowerTokens(ts[1..]).value;
      assert args[1..] == LowerTokens(ts[1..]).value;
      assert forall e :: e in args <==> e == args[0] || e in args[1..];
      assert Produced(ts, 0);
      FirstExactly(ts);
      LoweredLength(ts);
      ArgumentsExactly(ts[1..]);
    }
  }

  lemma {:induction false} LoweredLength(ts: seq<RawToken>)
    requires LowerTokens(ts).Ok?
    ensures |LowerTokens(ts).value| == |ts|
  {
    hide LowerRawToken;
    if ts != [] {
      LoweredLength(ts[1..]);
    }
  }

  lemma FirstExactly(ts: seq<RawToken>)
    requires ts != [] && Produced(ts, 0) && LowerRawToken(ts[0]).Ok?
    ensures var e := LowerRawToken(ts[0]).value;
      (if |ts| == 1 then WellFormedLast(e) else WellFormedArg(e)) <==> ParenFree(e)
  {
    hide OpenBare, WellFormedToken, CmdText, TokenizeFrom, LowerTokens, WellFormedArgs, LowerToken, Trim;
    var t := ts[0];
    var e := LowerRawToken(t).value;
    FormedIsFree(e);
    if t.CommandSubst? {
      if ParenFree(e) {
        SubstitutionLowered(t.text);
      }
    } else {
      LoweredKind(t);
      if WellFormedToken(t) {
        PlainLowered(ts, 0);
      } else {
        OpenHasParenthesis(t.text);
      }
    }
  }

  lemma LoweredKind(t: RawToken)
    requires LowerRawToken(t).Ok? && !t.CommandSubst?
    ensures !LowerRawToken(t).value.CommandSubstitution?
    ensures t.Bare? ==> LowerRawToken(t).value == LowerToken(t.text)
  {
  }

  lemma FormedIsFree(e: Expr)
    ensures WellFormedLast(e) || WellFormedArg(e) ==> ParenFree(e)
  {
  }
}
