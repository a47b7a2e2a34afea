/** The printed form of raw tokens, and what the tokenizer reads back from it. */
module TokenText {
  import opened Outcomes
  import opened Text
  import opened ShellAst
  import opened Tokenizer

  function PrintToken(t: RawToken): string {
    match t
    case Bare(s) => s
    case SingleQuoted(s) => "'" + s + "'"
    case DoubleQuoted(s) => "\"" + s + "\""
    case CommandSubst(s) => "$(" + s + ")"
  }

  function PrintTokens(ts: seq<RawToken>): seq<string> {
    seq(|ts|, i requires 0 <= i < |ts| => PrintToken(ts[i]))
  }

  /** Tokens with single spaces between them. */
  function LineText(ts: seq<RawToken>): string {
    Join(" ", PrintTokens(ts))
  }

  // ---- the tokens that survive printing ----

  predicate BareChar(c: char) {
    !IsWhitespace(c) && c !in {'\'', '"', '`'}
  }

  /** No whitespace, no quote and no `$(`. */
  predicate PlainChars(s: string) {
    forall i :: 0 <= i < |s| ==> BareChar(s[i]) && !(s[i] == '$' && i + 1 < |s| && s[i + 1] == '(')
  }

  predicate PlainBare(s: string) {
    s != "" && s[0] != '#' && PlainChars(s)
  }

  /** The parentheses of `s`, entered at this depth, return to zero at the last character and not before. */
  predicate ClosesAtEnd(s: string, depth: nat)
    requires depth > 0
  {
    s != "" &&
    if s[0] == ')' && depth == 1 then |s| == 1
    else ClosesAtEnd(s[1..], if s[0] == '(' then depth + 1 else if s[0] == ')' then depth - 1 else depth)
  }

  predicate ArithmeticBare(s: string) {
    StartsWith(s, "$((") && EndsWith(s, "))") && ClosesAtEnd(s[3..], 2)
  }

  /** No `"` outside a backslash pair, and no backslash without a partner. */
  predicate EscapesClosed(s: string) {
    s == "" ||
    (s[0] != '"' && if s[0] == '\\' then |s| > 1 && EscapesClosed(s[2..]) else EscapesClosed(s[1..]))
  }

  predicate WellFormedToken(t: RawToken) {
    match t
    case Bare(s) => PlainBare(s) || ArithmeticBare(s)
    case SingleQuoted(s) => '\'' !in s
    case DoubleQuoted(s) => EscapesClosed(s)
    case CommandSubst(s) => '(' !in s && ')' !in s
  }

  predicate WellFormedTokens(ts: seq<RawToken>) {
    forall t :: t in ts ==> WellFormedToken(t)
  }

  predicate AtBoundary(rest: string) {
    rest == "" || IsWhitespace(rest[0])
  }

  // ---- reading one printed token ----

  lemma {:induction false} ArithmeticReadBack(s: string, depth: nat, rest: string)
    requires depth > 0 && ClosesAtEnd(s, depth)
    ensures ArithmeticLength(s + rest, depth) == |s|
    decreases |s|
  {
    assert (s + rest)[1..] == s[1..] + rest;
    if !(s[0] == ')' && depth == 1) {
      ArithmeticReadBack(s[1..], if s[0] == '(' then depth + 1 else if s[0] == ')' then depth - 1 else depth, rest);
    }
  }

  lemma {:induction false} DoubleQuoteReadBack(s: string, rest: string)
    requires EscapesClosed(s)
    ensures DoubleQuoteLength(s + "\"" + rest) == Some(|s|)
    decreases |s|
  {
    var t := s + "\"" + rest;
    if s == "" {
      assert t[0] == '"';
    } else if s[0] == '\\' {
      assert t[2..] == s[2..] + "\"" + rest;
      DoubleQuoteReadBack(s[2..], rest);
    } else {
      assert t[1..] == s[1..] + "\"" + rest;
      DoubleQuoteReadBack(s[1..], rest);
    }
  }

  lemma {:induction false} SubstitutionReadBack(s: string, rest: string)
    requires '(' !in s && ')' !in s
    ensures SubstitutionBody(s + ")" + rest) == Closed(|s|)
    decreases |s|
  {
    var t := s + ")" + rest;
    if s == "" {
      assert t[0] == ')';
    } else {
      assert s[0] in s;
      assert t[1..] == s[1..] + ")" + rest;
      SubstitutionReadBack(s[1..], rest);
    }
  }

  lemma SingleQuotedReadBack(s: string, rest: string)
    requires '\'' !in s
    ensures var line := PrintToken(SingleQuoted(s)) + rest;
            OpensDelimited(line) && Delimited(line) == Ok((SingleQuoted(s), |s| + 2))
  {
    hide ArithmeticLength, SubstitutionBody, DoubleQuoteLength;
    var line := PrintToken(SingleQuoted(s)) + rest;
    IndexOfFirst(s, '\'', rest);
    assert line[1..] == s + ['\''] + rest;
    assert line[1..|s| + 1] == s;
  }

  lemma DoubleQuotedReadBack(s: string, rest: string)
    requires EscapesClosed(s)
    ensures var line := PrintToken(DoubleQuoted(s)) + rest;
            OpensDelimited(line) && Delimited(line) == Ok((DoubleQuoted(s), |s| + 2))
  {
    hide ArithmeticLength, SubstitutionBody, IndexOf, DoubleQuoteLength, EscapesClosed;
    var line := PrintToken(DoubleQuoted(s)) + rest;
    DoubleQuoteReadBack(s, rest);
    assert line[1..] == s + "\"" + rest;
    assert line[1..|s| + 1] == s;
  }

  lemma CommandSubstReadBack(s: string, rest: string)
    requires '(' !in s && ')' !in s
    ensures var line := PrintToken(CommandSubst(s)) + rest;
            OpensDelimited(line) && Delimited(line) == Ok((CommandSubst(s), |s| + 3))
  {
    hide ArithmeticLength, IndexOf, DoubleQuoteLength, SubstitutionBody;
    var line := PrintToken(CommandSubst(s)) + rest;
    SubstitutionReadBack(s, rest);
    assert line[2..] == s + ")" + rest;
    assert line[2..|s| + 2] == s;
    if s != "" {
      assert s[0] in s && line[2] == s[0];
    } else {
      assert line[2] == ')';
    }
  }

  lemma ArithmeticBareReadBack(s: string, rest: string)
    requires ArithmeticBare(s)
    ensures OpensDelimited(s + rest) && Delimited(s + rest) == Ok((Bare(s), |s|))
  {
    var line := s + rest;
    assert s[..3][0] == '$' && s[..3][1] == '(' && s[..3][2] == '(';
    ArithmeticReadBack(s[3..], 2, rest);
    assert line[3..] == s[3..] + rest;
    assert line[..|s|] == s;
  }

  /** A bareword is pushed character by character. */
  lemma {:induction false} PlainReadBack(s: string, current: string, rest: string)
    requires PlainChars(s) && AtBoundary(rest)
    requires current == "" && s != "" ==> s[0] != '#'
    ensures TokenizeFrom(s + rest, current) == TokenizeFrom(rest, current + s)
    decreases |s|
  {
    if s == "" {
      assert s + rest == rest && current + s == current;
    } else {
      var line := s + rest;
      assert line[1..] == s[1..] + rest;
      assert !OpensDelimited(line) by {
        if line[0] == '$' && |line| > 1 && line[1] == '(' {
          assert |s| == 1;
          assert line[1] == rest[0];
        }
      }
      PlainCharsTail(s);
      PlainReadBack(s[1..], current + [s[0]], rest);
      assert current + [s[0]] + s[1..] == current + s;
    }
  }

  lemma PlainCharsTail(s: string)
    requires s != "" && PlainChars(s)
    ensures PlainChars(s[1..])
  {
    forall i | 0 <= i < |s| - 1
      ensures BareChar(s[1..][i]) && !(s[1..][i] == '$' && i + 1 < |s| - 1 && s[1..][i + 1] == '(')
    {
      assert s[1..][i] == s[i + 1];
    }
  }

  lemma TokenReadBack(t: RawToken, rest: string)
    requires WellFormedToken(t) && AtBoundary(rest)
    ensures TokenizeFrom(PrintToken(t) + rest, "") == After([t], TokenizeFrom(rest, ""))
  {
    var line := PrintToken(t) + rest;
    if t.Bare? && PlainBare(t.text) {
      PlainReadBack(t.text, "", rest);
      assert "" + t.text == t.text;
      if rest == "" {
        assert [t] + [] == [t];
      } else {
        AfterNothing(TokenizeFrom(rest[1..], ""));
      }
    } else {
      match t {
        case Bare(s) => ArithmeticBareReadBack(s, rest);
        case SingleQuoted(s) => SingleQuotedReadBack(s, rest);
        case DoubleQuoted(s) => DoubleQuotedReadBack(s, rest);
        case CommandSubst(s) => CommandSubstReadBack(s, rest);
      }
      assert line[|PrintToken(t)|..] == rest;
      assert !IsWhitespace(line[0]) && line[0] != '#';
    }
  }

  // ---- reading a line of printed tokens ----

  /** Every list of well-formed tokens, printed with single spaces, is read back exactly. */
  lemma {:induction false} TokensReadBack(ts: seq<RawToken>)
    requires WellFormedTokens(ts)
    ensures Tokenize(LineText(ts)) == Ok(ts)
  {
    if |ts| == 1 {
      TokenReadBack(ts[0], "");
      assert PrintToken(ts[0]) + "" == PrintToken(ts[0]);
      assert [ts[0]] + [] == ts;
    } else if |ts| > 1 {
      var rest := " " + LineText(ts[1..]);
      assert PrintTokens(ts)[1..] == PrintTokens(ts[1..]);
      assert LineText(ts) == PrintToken(ts[0]) + rest;
      TokenReadBack(ts[0], rest);
      TokensReadBack(ts[1..]);
      assert rest[1..] == LineText(ts[1..]);
      AfterNothing(Tokenize(LineText(ts[1..])));
      assert [ts[0]] + ts[1..] == ts;
    }
  }

  lemma LineTextAppend(xs: seq<RawToken>, ys: seq<RawToken>)
    requires xs != [] && ys != []
    ensures LineText(xs + ys) == LineText(xs) + " " + LineText(ys)
  {
    assert PrintTokens(xs + ys) == PrintTokens(xs) + PrintTokens(ys);
    JoinAppend(" ", PrintTokens(xs), PrintTokens(ys));
  }

  lemma PrintedTokenTrimmed(t: RawToken)
    requires WellFormedToken(t)
    ensures Trimmed(PrintToken(t))
    ensures PrintToken(t)[0] != '#'
  {
    match t {
      case Bare(s) =>
        if !PlainBare(s) {
          assert s[..3][0] == '$';
          assert s[|s| - 2..][1] == ')';
        }
      case _ =>
    }
  }

  /** A printed line of well-formed tokens starts with no blank, no comment, and ends with no blank. */
  lemma {:induction false} LineTextTrimmed(ts: seq<RawToken>)
    requires WellFormedTokens(ts) && ts != []
    ensures Trimmed(LineText(ts)) && LineText(ts)[0] == PrintToken(ts[0])[0] != '#'
  {
    PrintedTokenTrimmed(ts[0]);
    if |ts| > 1 {
      LineTextTrimmed(ts[1..]);
      LineTextAppend(ts[..1], ts[1..]);
      assert ts[..1] + ts[1..] == ts;
      assert PrintTokens(ts[..1]) == [PrintToken(ts[0])];
    }
  }

  // ---- a last token that takes the rest of the line ----

  /** An arithmetic expansion that is read to the end of its text, closed or not. */
  predicate OpenBare(s: string) {
    StartsWith(s, "$((") && EndsWith(s, "))") && ArithmeticLength(s[3..], 2) == |s| - 3
  }

  predicate LastToken(t: RawToken) {
    WellFormedToken(t) || (t.Bare? && OpenBare(t.text))
  }

  /** Well-formed tokens, the last of which may be an arithmetic expansion that nothing closes. */
  predicate ReadableLine(ts: seq<RawToken>) {
    ts == [] || (if |ts| == 1 then LastToken(ts[0]) else WellFormedToken(ts[0]) && ReadableLine(ts[1..]))
  }

  lemma LastReadBack(t: RawToken)
    requires LastToken(t)
    ensures Tokenize(PrintToken(t)) == Ok([t])
    ensures Trimmed(PrintToken(t)) && PrintToken(t)[0] != '#'
  {
    var text := PrintToken(t);
    if WellFormedToken(t) {
      TokensReadBack([t]);
      LineTextTrimmed([t]);
      assert PrintTokens([t]) == [text];
    } else {
      assert text[..3][0] == '$' && text[..3][1] == '(' && text[..3][2] == '(';
      assert text[|text| - 2..][1] == ')';
      assert text[..|text|] == text && text[|text|..] == "";
      assert Delimited(text) == Ok((t, |text|));
      assert TokenizeFrom("", "") == Ok([]);
      assert [t] + [] == [t];
    }
  }

  lemma {:induction false} LineReadBack(ts: seq<RawToken>)
    requires ts != [] && ReadableLine(ts)
    ensures Tokenize(LineText(ts)) == Ok(ts)
    ensures Trimmed(LineText(ts)) && LineText(ts)[0] == PrintToken(ts[0])[0] != '#'
  {
    hide WellFormedToken, TokenizeFrom, LastToken, PrintToken;
    assert PrintTokens(ts)[1..] == PrintTokens(ts[1..]);
    if |ts| == 1 {
      LastReadBack(ts[0]);
      assert ts == [ts[0]] && ts[1..] == [] && PrintTokens([]) == [];
      assert PrintTokens(ts) == [PrintToken(ts[0])];
    } else {
      LineReadBack(ts[1..]);
      FirstReadBack(ts[0], LineText(ts[1..]));
      assert [ts[0]] + ts[1..] == ts;
    }
  }

  /** A well-formed token in front of a text that is trimmed. */
  lemma FirstReadBack(t: RawToken, text: string)
    requires WellFormedToken(t) && Trimmed(text)
    ensures var line := PrintToken(t) + " " + text;
      Tokenize(line) == After([t], Tokenize(text)) && Trimmed(line) && line[0] == PrintToken(t)[0] != '#'
  {
    hide WellFormedToken;
    PrintedTokenTrimmed(t);
    var rest := " " + text;
    assert PrintToken(t) + " " + text == PrintToken(t) + rest;
    TokenReadBack(t, rest);
    assert rest[1..] == text;
    AfterNothing(Tokenize(text));
  }

  // ---- what the tokenizer can produce ----

  /** The two shapes that printing does not preserve. */
  predicate Printable(t: RawToken) {
    match t
    case Bare(s) => StartsWith(s, "$((") ==> ClosesAtEnd(s[3..], 2)
    case CommandSubst(s) => '(' !in s && ')' !in s
    case _ => true
  }

  lemma {:induction false} EscapesClosedPrefix(s: string)
    ensures var r := DoubleQuoteLength(s); r.Some? ==> EscapesClosed(s[..r.value])
    decreases |s|
  {
    var r := DoubleQuoteLength(s);
    if r.Some? && s[0] != '"' {
      var n := if s[0] == '\\' && |s| > 1 then 2 else 1;
      EscapesClosedPrefix(s[n..]);
      var k := DoubleQuoteLength(s[n..]).value;
      assert s[..r.value][n..] == s[n..][..k];
    }
  }

  lemma DelimitedTokenWellFormed(s: string)
    requires OpensDelimited(s) && Delimited(s).Ok?
    ensures var t := Delimited(s).value.0; WellFormedToken(t) <==> Printable(t)
  {
    var (t, n) := Delimited(s).value;
    if s[0] == '"' {
      EscapesClosedPrefix(s[1..]);
      assert s[1..][..n - 2] == t.text;
    } else if s[0] == '\'' {
      assert s[1..][..n - 2] == t.text;
      assert forall i :: 0 <= i < |t.text| ==> t.text[i] == s[1..][..n - 2][i];
    } else if s[0] == '$' && |s| > 2 && s[2] == '(' {
      assert t.text == s[..n];
      assert s[..3] == "$((";
      assert t.text[..3] == s[..3];
      assert !PlainBare(t.text) by {
        assert t.text[0] == '$' && t.text[1] == '(';
      }
    }
  }

  /** What may be waiting in the bareword buffer in front of `s`. */
  predicate GoodBuffer(current: string, s: string) {
    && PlainChars(current)
    && (current != "" ==> current[0] != '#')
    && (current != "" && current[|current| - 1] == '$' && s != "" ==> s[0] != '(')
  }

  lemma BufferGrows(current: string, s: string)
    requires s != "" && GoodBuffer(current, s)
    requires !IsWhitespace(s[0]) && !OpensDelimited(s) && !(s[0] == '#' && current == "")
    ensures GoodBuffer(current + [s[0]], s[1..])
  {
    var grown := current + [s[0]];
    forall i | 0 <= i < |grown|
      ensures BareChar(grown[i]) && !(grown[i] == '$' && i + 1 < |grown| && grown[i + 1] == '(')
    {
      if i < |current| {
        assert grown[i] == current[i];
      }
    }
  }

  lemma PlainIsPrintable(s: string)
    requires PlainChars(s)
    ensures !StartsWith(s, "$((")
  {
    if |s| >= 3 {
      assert s[..3][0] == s[0] && s[..3][1] == s[1];
    }
  }

  /** Every token the tokenizer produces survives printing, unless it is one of the two excepted shapes. */
  lemma {:induction false} TokensWellFormedExactly(s: string, current: string)
    requires GoodBuffer(current, s)
    ensures var r := TokenizeFrom(s, current);
            r.Ok? ==> forall t :: t in r.value ==> (WellFormedToken(t) <==> Printable(t))
    decreases |s|
  {
    PlainIsPrintable(current);
    var r := TokenizeFrom(s, current);
    if s == "" || (s[0] == '#' && current == "") || r.Err? {
    } else if IsWhitespace(s[0]) {
      TokensWellFormedExactly(s[1..], "");
    } else if OpensDelimited(s) {
      DelimitedTokenWellFormed(s);
      TokensWellFormedExactly(s[Delimited(s).value.1..], "");
    } else {
      BufferGrows(current, s);
      TokensWellFormedExactly(s[1..], current + [s[0]]);
    }
  }

  /**
   * Tokenizing a printed line is a fixed point for every line the tokenizer accepts, however oddly it
   * was spelled, as long as no substitution holds a parenthesis and every arithmetic token is closed.
   */
  lemma RetokenizingIsStable(line: string)
    requires Tokenize(line).Ok?
    requires forall t :: t in Tokenize(line).value ==> Printable(t)
    ensures Tokenize(LineText(Tokenize(line).value)) == Tokenize(line)
  {
    TokensWellFormedExactly(line, "");
    TokensReadBack(Tokenize(line).value);
  }
}
