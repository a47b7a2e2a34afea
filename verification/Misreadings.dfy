/** A substitution whose rendered text holds a parenthesis is never read back, whatever follows it. */
module Misreadings {
  import opened Outcomes
  import opened Text
  import opened ShellAst
  import opened Tokenizer
  import opened TokenText
  import opened FlatLines
  import opened Printer
  import opened FlatRoundTrip
  import opened Reprints
  import opened Lowerings

  // ---- closing before opening ----

  /** No closing parenthesis stands in front of every opening one. */
  predicate OpenFirst(s: string) {
    forall i :: 0 <= i < |s| && s[i] == ')' ==> '(' in s[..i]
  }

  lemma OpenFirstAppend(a: string, b: string)
    requires OpenFirst(a) && OpenFirst(b)
    ensures OpenFirst(a + b)
  {
    var s := a + b;
    forall i | 0 <= i < |s| && s[i] == ')' ensures '(' in s[..i] {
      if i < |a| {
        assert s[..i] == a[..i];
      } else {
        assert s[i] == b[i - |a|];
        assert s[..i] == a + b[..i - |a|];
      }
    }
  }

  lemma {:induction false} OpenFirstJoin(parts: seq<string>)
    requires forall k :: 0 <= k < |parts| ==> OpenFirst(parts[k])
    ensures OpenFirst(Join(" ", parts))
  {
    hide OpenFirst;
    if parts == [] {
      NoParenthesis("");
    } else if |parts| > 1 {
      OpenFirstJoin(parts[1..]);
      NoParenthesis(" ");
      OpenFirstAppend(parts[0], " ");
      OpenFirstAppend(parts[0] + " ", Join(" ", parts[1..]));
    }
  }

  lemma NoParenthesis(s: string)
    requires !HasParenthesis(s)
    ensures OpenFirst(s)
  {
  }

  lemma DollarFirst(s: string)
    requires |s| > 1 && s[0] == '$' && s[1] == '('
    ensures OpenFirst(s)
  {
    forall i | 0 <= i < |s| && s[i] == ')' ensures '(' in s[..i] {
      assert s[..i][1] == '(';
    }
  }

  /** A token's characters come from the text. */
  lemma {:induction false} TokenCharacters(s: string, current: string, c: char)
    requires TokenizeFrom(s, current).Ok? && c !in s && c !in current
    ensures forall t :: t in TokenizeFrom(s, current).value ==> c !in t.text
    decreases |s|
  {
    hide Delimited;
    if s == "" || (s[0] == '#' && current == "") {
    } else if IsWhitespace(s[0]) {
      TokenCharacters(s[1..], "", c);
    } else if OpensDelimited(s) {
      var (t, n) := Delimited(s).value;
      DelimitedCharacters(s, c);
      TokenCharacters(s[n..], "", c);
    } else {
      TokenCharacters(s[1..], current + [s[0]], c);
    }
  }

  lemma DelimitedCharacters(s: string, c: char)
    requires OpensDelimited(s) && Delimited(s).Ok? && c !in s
    ensures c !in Delimited(s).value.0.text
  {
    hide IndexOf, DoubleQuoteLength, ArithmeticLength, SubstitutionBody;
  }

  lemma ArgumentOpensFirst(t: RawToken)
    requires LowerRawToken(t).Ok? && !HasParenthesis(t.text)
    ensures OpenFirst(ArgText(LowerRawToken(t).value))
  {
    hide OpenFirst, CmdText, TokenizeFrom, LowerTokens, Trim;
    var e := LowerRawToken(t).value;
    if t.CommandSubst? {
      DollarFirst(ArgText(e));
    } else {
      assert !HasParenthesis(ArgText(e)) by { PlainTextKept(t); }
      NoParenthesis(ArgText(e));
    }
  }

  lemma PlainTextKept(t: RawToken)
    requires LowerRawToken(t).Ok? && !t.CommandSubst? && !HasParenthesis(t.text)
    ensures !HasParenthesis(ArgText(LowerRawToken(t).value))
  {
    if t.Bare? && !LowerToken(t.text).LitStr? {
      var e := LowerToken(t.text);
      var name := if e.ShellVar? then e.name else e.param;
      forall i | 0 <= i < |name| ensures name[i] in t.text {
        if e.ShellVar? && t.text[1..][0] == '{' {
          assert name[i] == t.text[1..][i + 1] == t.text[i + 2];
        } else {
          assert name[i] == t.text[i + 1];
        }
      }
      assert ArgText(e) == "$" + name;
      assert forall c :: c in name ==> c in t.text;
    }
  }

  lemma {:induction false} LoweredAt(ts: seq<RawToken>, k: nat)
    requires LowerTokens(ts).Ok? && k < |ts|
    ensures |LowerTokens(ts).value| == |ts| && LowerRawToken(ts[k]).Ok?
    ensures LowerTokens(ts).value[k] == LowerRawToken(ts[k]).value
  {
    hide LowerRawToken;
    LoweredLength(ts);
    if k > 0 {
      LoweredAt(ts[1..], k - 1);
    }
  }

  /** A command lowered from a text without parentheses is printed with none closing first. */
  lemma CommandOpensFirst(text: string)
    requires Tokenize(text).Ok? && !HasParenthesis(text)
    requires Tokenize(text).value != [] && LowerTokens(Tokenize(text).value[1..]).Ok?
    ensures var raw := Tokenize(text).value; OpenFirst(CmdText(raw[0].text, LowerTokens(raw[1..]).value))
  {
    hide OpenFirst, LowerRawToken, ArgText, TokenizeFrom, Join;
    var raw := Tokenize(text).value;
    var program, args := raw[0].text, LowerTokens(raw[1..]).value;
    TokenCharacters(text, "", '(');
    TokenCharacters(text, "", ')');
    assert raw[0] in raw;
    NoParenthesis(program);
    JoinedArgs(program, args);
    var parts := [program] + ArgTexts(args);
    LoweredLength(raw[1..]);
    forall k | 0 <= k < |parts| ensures OpenFirst(parts[k]) {
      if k > 0 {
        LoweredAt(raw[1..], k - 1);
        ArgTextAt(args, k - 1);
        assert raw[1..][k - 1] == raw[k] && raw[k] in raw;
        ArgumentOpensFirst(raw[k]);
      }
    }
    OpenFirstJoin(parts);
  }

  // ---- reading the substitution ----

  lemma {:induction false} ClosesInside(text: string, tail: string)
    requires HasParenthesis(text)
    ensures var r := SubstitutionBody(text + tail);
      r.Nested? || (r.Closed? && r.length < |text| && text[r.length] == ')' && !HasParenthesis(text[..r.length]))
    decreases |text|
  {
    var s := text + tail;
    assert text != "" && s[0] == text[0] && s[1..] == text[1..] + tail;
    if text[0] !in {'(', ')'} {
      assert text == [text[0]] + text[1..];
      ClosesInside(text[1..], tail);
      var r := SubstitutionBody(s[1..]);
      if r.Closed? {
        assert text[..r.length + 1] == [text[0]] + text[1..][..r.length];
      }
    }
  }

  predicate BadSubstitution(e: Expr) {
    e.CommandSubstitution? && e.inner.Cmd? && HasParenthesis(CmdText(e.inner.program, e.inner.args))
  }

  /** In front of anything, it is refused or its place is taken by something else. */
  lemma SubstitutionMisread(e: Expr, rest: string)
    requires BadSubstitution(e)
    ensures var r := Tokenize(ArgText(e) + rest);
      r.Ok? ==> r.value != [] && LowerRawToken(r.value[0]) != Ok(e)
  {
    hide OpenFirst, ArithmeticLength, SubstitutionBody, CmdText, TokenizeFrom, LowerTokens, Trim;
    var text := CmdText(e.inner.program, e.inner.args);
    var s := ArgText(e) + rest;
    var tail := ")" + rest;
    assert s == "$(" + (text + tail);
    assert s[0] == '$' && s[1] == '(' && s[2..] == text + tail && |s| > 2 && s[2] == text[0];
    ClosesInside(text, tail);
    SpelledSubstitution(s);
    if Tokenize(s).Ok? {
      var t := Delimited(s).value.0;
      if t.CommandSubst? {
        var k := SubstitutionBody(s[2..]).length;
        assert t.text == text[..k] by {
          assert s[2..k + 2] == s[2..][..k] == (text + tail)[..k];
        }
        OtherCommand(e, text[..k]);
      }
    }
  }

  lemma SpelledSubstitution(s: string)
    requires |s| > 2 && s[0] == '$' && s[1] == '('
    ensures Tokenize(s).Ok? ==> Delimited(s).Ok?
    ensures Tokenize(s).Ok? ==> Tokenize(s).value != [] && Tokenize(s).value[0] == Delimited(s).value.0
    ensures Delimited(s).Ok? && s[2] == '(' ==> Delimited(s).value.0.Bare?
    ensures Delimited(s).Ok? && s[2] != '(' ==>
      SubstitutionBody(s[2..]).Closed? && SubstitutionBody(s[2..]).length + 2 <= |s|
      && Delimited(s).value.0 == CommandSubst(s[2..SubstitutionBody(s[2..]).length + 2])
    ensures Delimited(s).Ok? ==> !Delimited(s).value.0.SingleQuoted? && !Delimited(s).value.0.DoubleQuoted?
  {
    hide ArithmeticLength, SubstitutionBody, IndexOf, DoubleQuoteLength;
  }

  lemma OtherCommand(e: Expr, inner: string)
    requires BadSubstitution(e) && !HasParenthesis(inner)
    requires var text := CmdText(e.inner.program, e.inner.args);
      |inner| < |text| && text[..|inner|] == inner && text[|inner|] == ')'
    ensures LowerRawToken(CommandSubst(inner)) != Ok(e)
  {
    hide CmdText, TokenizeFrom, LowerTokens, Trim;
    if LowerRawToken(CommandSubst(inner)).Ok? {
      TrimKeepsOut(inner);
      CommandOpensFirst(Trim(inner));
      var text := CmdText(e.inner.program, e.inner.args);
      assert !OpenFirst(text) by {
        assert '(' !in text[..|inner|];
      }
    }
  }

  lemma TrimKeepsOut(s: string)
    requires !HasParenthesis(s)
    ensures !HasParenthesis(Trim(s))
  {
    var pre, post := TrimShape(s);
    assert forall c :: c in Trim(s) ==> c in s;
  }

  // ---- behind tokens that are read back ----

  lemma {:induction false} PrefixRead(good: seq<RawToken>, rest: string)
    requires good != [] && WellFormedTokens(good)
    ensures Tokenize(LineText(good) + " " + rest) == After(good, Tokenize(rest))
  {
    hide WellFormedToken, TokenizeFrom, PrintToken;
    assert PrintTokens(good)[1..] == PrintTokens(good[1..]);
    var first := PrintToken(good[0]);
    var more := " " + (if |good| == 1 then rest else LineText(good[1..]) + " " + rest);
    if |good| == 1 {
      LoneLine(good);
      assert good == [good[0]];
    } else {
      PrefixRead(good[1..], rest);
      assert LineText(good) == first + " " + LineText(good[1..]);
      AfterAfter([good[0]], good[1..], Tokenize(rest));
      assert [good[0]] + good[1..] == good;
    }
    assert LineText(good) + " " + rest == first + more;
    TokenReadBack(good[0], more);
    BlankFirst(more);
  }

  lemma BlankFirst(s: string)
    requires s != "" && s[0] == ' '
    ensures TokenizeFrom(s, "") == Tokenize(s[1..])
  {
    AfterNothing(Tokenize(s[1..]));
  }

  /** A command whose text goes on with a bad substitution is not read back. */
  lemma CommandMisread(program: string, args: seq<Expr>, j: nat, rest: string)
    requires WellFormedToken(Bare(program)) && j < |args| && WellFormedArgs(args[..j]) && BadSubstitution(args[j])
    ensures Command(CmdText(program, args[..j]) + " " + ArgText(args[j]) + rest) != Ok(Some(Cmd(program, args)))
  {
    hide WellFormedToken, TokenizeFrom, LowerTokens, CmdText, ArgText, LowerRawToken, BadSubstitution, WellFormedArgs;
    var good := CmdTokens(program, args[..j]);
    var tail := ArgText(args[j]) + rest;
    var text := CmdText(program, args[..j]) + " " + ArgText(args[j]) + rest;
    CommandText(program, args[..j]);
    ArgTokensLength(args[..j]);
    assert text == LineText(good) + " " + tail;
    PrefixRead(good, tail);
    SubstitutionMisread(args[j], rest);
    if Command(text).Ok? {
      var raw := Tokenize(text).value;
      var more := Tokenize(tail).value;
      assert raw == good + more && raw[1..][j] == more[0];
      LoweredAt(raw[1..], j);
    }
  }

  /** The first bad substitution of a command whose arguments were lowered from a text. */
  lemma {:induction false} FirstBad(ts: seq<RawToken>) returns (j: nat)
    requires AllProduced(ts) && LowerTokens(ts).Ok? && !AllParenFree(LowerTokens(ts).value)
    ensures var args := LowerTokens(ts).value; j < |args| && WellFormedArgs(args[..j]) && BadSubstitution(args[j])
  {
    hide LowerRawToken, WellFormedToken, OpenBare, WellFormedArg;
    var args := LowerTokens(ts).value;
    LoweredLength(ts);
    assert args == [LowerRawToken(ts[0]).value] + LowerTokens(ts[1..]).value;
    assert args[1..] == LowerTokens(ts[1..]).value;
    if !ParenFree(args[0]) {
      j := 0;
      assert args[..0] == [];
    } else {
      assert forall e :: e in args <==> e == args[0] || e in args[1..];
      ProducedRest(ts);
      var k := FirstBad(ts[1..]);
      j := k + 1;
      assert args[..j][1..] == args[1..][..k];
      FirstExactlyProduced(ts);
    }
  }

  lemma FirstExactlyProduced(ts: seq<RawToken>)
    requires AllProduced(ts) && |ts| > 1 && LowerRawToken(ts[0]).Ok? && ParenFree(LowerRawToken(ts[0]).value)
    ensures WellFormedArg(LowerRawToken(ts[0]).value)
  {
    hide WellFormedToken, OpenBare, ParenFree;
    assert Produced(ts, 0);
    FirstExactly(ts);
  }
}
