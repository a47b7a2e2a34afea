/** `tokenize_line`: one shell line into raw tokens. */
module Tokenizer {
  import opened Outcomes
  import opened Text
  import opened ShellAst

  type Tokens = Result<seq<RawToken>, Refusal>

  /** A token and the number of characters it was read from. */
  type Reading = Result<(RawToken, nat), Refusal>

  // ---- the scanner as a function of the text still to read ----

  /** Characters read by `$((`, up to the parenthesis that brings the depth to zero. */
  function ArithmeticLength(s: string, depth: nat): (n: nat)
    requires depth > 0
    ensures n <= |s|
  {
    if s == "" then 0
    else if s[0] == '(' then 1 + ArithmeticLength(s[1..], depth + 1)
    else if s[0] == ')' then if depth == 1 then 1 else 1 + ArithmeticLength(s[1..], depth - 1)
    else 1 + ArithmeticLength(s[1..], depth)
  }

  datatype SubstitutionEnd = Closed(length: nat) | Nested | Open

  /** Inside `$(`: whichever parenthesis comes first decides. */
  function SubstitutionBody(s: string): (r: SubstitutionEnd)
    ensures r.Closed? ==> r.length < |s| && s[r.length] == ')' && Without(s[..r.length], {'(', ')'})
  {
    if s == "" then Open
    else if s[0] == '(' then Nested
    else if s[0] == ')' then Closed(0)
    else Later(SubstitutionBody(s[1..]), 1)
  }

  function Later(e: SubstitutionEnd, n: nat): SubstitutionEnd {
    match e
    case Closed(k) => Closed(k + n)
    case _ => e
  }

  /** Inside `"`: a backslash takes the next character with it, so `\"` does not close. */
  function DoubleQuoteLength(s: string): (r: Option<nat>)
    ensures r.Some? ==> r.value < |s| && s[r.value] == '"'
  {
    if s == "" then None
    else if s[0] == '"' then Some(0)
    else if s[0] == '\\' && |s| > 1 then Plus(DoubleQuoteLength(s[2..]), 2)
    else Plus(DoubleQuoteLength(s[1..]), 1)
  }

  function Plus(r: Option<nat>, n: nat): Option<nat> {
    match r
    case None => None
    case Some(k) => Some(k + n)
  }

  /** The four openers that must stand at a token boundary. */
  predicate OpensDelimited(s: string) {
    s != "" && (s[0] in {'`', '\'', '"'} || (s[0] == '$' && |s| > 1 && s[1] == '('))
  }

  function Adjacent(opener: char): Refusal {
    if opener == '`' then BacktickAdjacent
    else if opener == '\'' then SingleQuoteAdjacent
    else if opener == '"' then DoubleQuoteAdjacent
    else SubstitutionAdjacent
  }

  function Delimited(s: string): (r: Reading)
    requires OpensDelimited(s)
    ensures r.Ok? ==> 2 <= r.value.1 <= |s| && |r.value.0.text| <= r.value.1
    ensures r.Ok? && r.value.0.CommandSubst? ==> |r.value.0.text| + 2 <= r.value.1
  {
    if s[0] == '`' then
      match IndexOf(s[1..], '`')
      case None => Err(UnterminatedBacktick)
      case Some(k) => Ok((CommandSubst(s[1..k + 1]), k + 2))
    else if s[0] == '\'' then
      match IndexOf(s[1..], '\'')
      case None => Err(UnterminatedSingleQuote)
      case Some(k) => Ok((SingleQuoted(s[1..k + 1]), k + 2))
    else if s[0] == '"' then
      match DoubleQuoteLength(s[1..])
      case None => Err(UnterminatedDoubleQuote)
      case Some(k) => Ok((DoubleQuoted(s[1..k + 1]), k + 2))
    else if |s| > 2 && s[2] == '(' then
      var k := 3 + ArithmeticLength(s[3..], 2);
      if EndsWith(s[..k], "))") then Ok((Bare(s[..k]), k)) else Err(UnterminatedArithmetic)
    else
      match SubstitutionBody(s[2..])
      case Nested => Err(NestedSubstitution)
      case Open => Err(UnterminatedSubstitution)
      case Closed(k) => Ok((CommandSubst(s[2..k + 2]), k + 3))
  }

  function Pending(current: string): seq<RawToken> {
    if current == "" then [] else [Bare(current)]
  }

  function TokenizeFrom(s: string, current: string): Tokens
    decreases |s|
  {
    if s == "" then Ok(Pending(current))
    else if s[0] == '#' && current == "" then Ok([])
    else if IsWhitespace(s[0]) then After(Pending(current), TokenizeFrom(s[1..], ""))
    else if OpensDelimited(s) then
      if current != "" then Err(Adjacent(s[0]))
      else
        match Delimited(s)
        case Err(e) => Err(e)
        case Ok((token, n)) => After([token], TokenizeFrom(s[n..], ""))
    else TokenizeFrom(s[1..], current + [s[0]])
  }

  function Tokenize(line: string): Tokens {
    TokenizeFrom(line, "")
  }

  // ---- the loops the source runs ----

  method TokenizeLine(line: string) returns (r: Tokens)
    ensures r == Tokenize(line)
  {
    var tokens: seq<RawToken> := [];
    var current := "";
    var i := 0;
    AfterNothing(Tokenize(line));
    assert line[0..] == line;
    while i < |line|
      invariant 0 <= i <= |line|
      invariant Tokenize(line) == After(tokens, TokenizeFrom(line[i..], current))
    {
      var c := line[i];
      ghost var s := line[i..];
      assert s[1..] == line[i + 1..];
      if c == '#' && current == "" {
        break;
      } else if IsWhitespace(c) {
        AfterAfter(tokens, Pending(current), TokenizeFrom(line[i + 1..], ""));
        tokens := tokens + Pending(current);
        current := "";
        i := i + 1;
      } else if c in {'`', '\'', '"'} || (c == '$' && i + 1 < |line| && line[i + 1] == '(') {
        assert OpensDelimited(s);
        if current != "" {
          return Err(Adjacent(c));
        }
        var reading := ReadDelimited(line, i);
        if reading.Err? {
          return Err(reading.error);
        }
        var (token, n) := reading.value;
        assert s[n..] == line[i + n..];
        AfterAfter(tokens, [token], TokenizeFrom(line[i + n..], ""));
        tokens := tokens + [token];
        i := i + n;
      } else {
        current := current + [c];
        i := i + 1;
      }
    }
    return Ok(tokens + Pending(current));
  }

  method ReadDelimited(line: string, i: nat) returns (r: Reading)
    requires i < |line| && OpensDelimited(line[i..])
    ensures r == Delimited(line[i..])
  {
    hide ArithmeticLength, SubstitutionBody, IndexOf, DoubleQuoteLength;
    ghost var s := line[i..];
    if line[i] == '`' || line[i] == '\'' {
      assert s[1..] == line[i + 1..];
      var content := ReadUntil(line, i + 1, line[i]);
      if content.None? {
        return Err(if line[i] == '`' then UnterminatedBacktick else UnterminatedSingleQuote);
      }
      var text := content.value;
      assert s[1..][..|text|] == s[1..|text| + 1];
      return Ok((if line[i] == '`' then CommandSubst(text) else SingleQuoted(text), |text| + 2));
    } else if line[i] == '"' {
      assert s[1..] == line[i + 1..];
      var content := ReadDoubleQuoted(line, i + 1);
      if content.None? {
        return Err(UnterminatedDoubleQuote);
      }
      assert s[1..][..|content.value|] == s[1..|content.value| + 1];
      return Ok((DoubleQuoted(content.value), |content.value| + 2));
    } else if i + 2 < |line| && line[i + 2] == '(' {
      var buf := ReadArithmetic(line, i);
      if !EndsWith(buf, "))") {
        return Err(UnterminatedArithmetic);
      }
      return Ok((Bare(buf), |buf|));
    } else {
      assert s[2..] == line[i + 2..];
      var content, end := ReadSubstitution(line, i + 2);
      match end {
        case Nested => return Err(NestedSubstitution);
        case Open => return Err(UnterminatedSubstitution);
        case Closed(k) =>
          assert s[2..][..k] == s[2..k + 2];
          return Ok((CommandSubst(content), k + 3));
      }
    }
  }

  /** Reads up to the next `quote`. */
  method ReadUntil(line: string, start: nat, quote: char) returns (content: Option<string>)
    requires start <= |line|
    ensures var end := IndexOf(line[start..], quote);
            content == if end.None? then None else Some(line[start..][..end.value])
  {
    hide IndexOf;
    ghost var end := IndexOf(line[start..], quote);
    var j := start;
    while j < |line|
      invariant start <= j <= |line|
      invariant end == Plus(IndexOf(line[j..], quote), j - start)
    {
      IndexOfStep(line, j, quote);
      if line[j] == quote {
        assert line[start..][..j - start] == line[start..j];
        return Some(line[start..j]);
      }
      j := j + 1;
    }
    IndexOfNothing(quote);
    return None;
  }

  lemma IndexOfStep(line: string, j: nat, quote: char)
    requires j < |line|
    ensures IndexOf(line[j..], quote) == if line[j] == quote then Some(0) else Plus(IndexOf(line[j + 1..], quote), 1)
  {
    assert line[j..][1..] == line[j + 1..];
  }

  lemma IndexOfNothing(quote: char)
    ensures IndexOf("", quote) == None
  {
  }

  lemma DoubleQuoteEmpty()
    ensures DoubleQuoteLength("") == None
  {
  }

  lemma DoubleQuoteStep(line: string, j: nat)
    requires j < |line|
    ensures DoubleQuoteLength(line[j..]) ==
            if line[j] == '"' then Some(0)
            else if line[j] == '\\' && j + 1 < |line| then Plus(DoubleQuoteLength(line[j + 2..]), 2)
            else Plus(DoubleQuoteLength(line[j + 1..]), 1)
  {
    assert line[j..][1..] == line[j + 1..];
    if j + 1 < |line| {
      assert line[j..][2..] == line[j + 2..];
    }
  }

  /** Reads the inside of `"`, keeping every backslash pair verbatim. */
  method ReadDoubleQuoted(line: string, start: nat) returns (content: Option<string>)
    requires start <= |line|
    ensures var end := DoubleQuoteLength(line[start..]);
            content == if end.None? then None else Some(line[start..][..end.value])
  {
    hide DoubleQuoteLength;
    ghost var end := DoubleQuoteLength(line[start..]);
    var j := start;
    while j < |line|
      invariant start <= j <= |line|
      invariant end == Plus(DoubleQuoteLength(line[j..]), j - start)
    {
      DoubleQuoteStep(line, j);
      if line[j] == '"' {
        assert line[start..][..j - start] == line[start..j];
        return Some(line[start..j]);
      }
      j := j + if line[j] == '\\' && j + 1 < |line| then 2 else 1;
    }
    DoubleQuoteEmpty();
    return None;
  }

  /** Reads `$((` and what follows until the parentheses balance or the line ends. */
  method ReadArithmetic(line: string, start: nat) returns (buf: string)
    requires start + 3 <= |line| && line[start] == '$' && line[start + 1] == '(' && line[start + 2] == '('
    ensures buf == line[start..][..3 + ArithmeticLength(line[start..][3..], 2)]
  {
    ghost var end := start + 3 + ArithmeticLength(line[start + 3..], 2);
    assert line[start..][3..] == line[start + 3..];
    var j, depth := start + 3, 2;
    while j < |line| && depth > 0
      invariant start + 3 <= j <= |line| && depth >= 0
      invariant end == if depth == 0 then j else j + ArithmeticLength(line[j..], depth)
    {
      assert line[j..][1..] == line[j + 1..];
      if line[j] == '(' {
        depth := depth + 1;
      } else if line[j] == ')' {
        depth := depth - 1;
      }
      j := j + 1;
    }
    return line[start..j];
  }

  /** Reads the inside of `$(`: `(` before `)` is a refusal. */
  method ReadSubstitution(line: string, start: nat) returns (content: string, end: SubstitutionEnd)
    requires start <= |line|
    ensures end == SubstitutionBody(line[start..])
    ensures end.Closed? ==> content == line[start..][..end.length]
  {
    var j := start;
    content := "";
    while j < |line|
      invariant start <= j <= |line| && content == line[start..j]
      invariant SubstitutionBody(line[start..]) == Later(SubstitutionBody(line[j..]), |content|)
    {
      assert line[j..][1..] == line[j + 1..];
      if line[j] == '(' {
        return content, Nested;
      }
      if line[j] == ')' {
        assert line[start..][..|content|] == content;
        return content, Closed(|content|);
      }
      content := content + [line[j]];
      j := j + 1;
    }
    return content, Open;
  }

  // ---- sizes, for the lowering of nested substitutions ----

  /** Characters a token takes from its line, at least. */
  function Size(t: RawToken): nat {
    if t.CommandSubst? then |t.text| + 2 else |t.text|
  }

  function TotalSize(ts: seq<RawToken>): nat {
    if ts == [] then 0 else Size(ts[0]) + TotalSize(ts[1..])
  }

  lemma {:induction false} TotalSizeAppend(xs: seq<RawToken>, ys: seq<RawToken>)
    ensures TotalSize(xs + ys) == TotalSize(xs) + TotalSize(ys)
  {
    if xs == [] {
      assert xs + ys == ys;
    } else {
      assert (xs + ys)[1..] == xs[1..] + ys;
      TotalSizeAppend(xs[1..], ys);
    }
  }

  /** Tokens never grow: the contents of a line's tokens fit in the line. */
  lemma {:induction false} TokensFit(s: string, current: string)
    ensures var r := TokenizeFrom(s, current);
            r.Ok? ==> TotalSize(r.value) <= |s| + |current|
    decreases |s|
  {
    var r := TokenizeFrom(s, current);
    if s == "" || (s[0] == '#' && current == "") || r.Err? {
    } else if IsWhitespace(s[0]) {
      TokensFit(s[1..], "");
      TotalSizeAppend(Pending(current), TokenizeFrom(s[1..], "").value);
    } else if OpensDelimited(s) {
      var (token, n) := Delimited(s).value;
      TokensFit(s[n..], "");
      TotalSizeAppend([token], TokenizeFrom(s[n..], "").value);
    } else {
      TokensFit(s[1..], current + [s[0]]);
    }
  }
}
