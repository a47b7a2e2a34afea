/** `lex` of the C frontend: source text into tokens, and the text each token is lexed back from. */
module CLexer {
  import opened Outcomes
  import opened Text

  /** The value of a float literal stays its text. */
  datatype Tok =
    | TInt | TLong | TUnsigned | TULong | TDouble | TFloat | TChar | TReturn | TVoid | TWhile | TIf | TElse
    | TIdent(name: string) | TNum(value: int) | TFNum(digits: string)
    | LParen | RParen | LBrace | RBrace | Semi | Comma
    | Plus | Minus | Star | Slash | Percent
    | Lt | Le | Gt | Ge | EqEq | Ne | AndAnd | OrOr | Bang
    | Amp | Pipe | Caret | Tilde | Shl | Shr | Question | Colon | Assign

  datatype LexError = UnexpectedCharacter(c: char) | BadOctal | TooLarge

  type Lexed = Result<seq<Tok>, LexError>

  const I64_MAX: int := 0x7FFF_FFFF_FFFF_FFFF

  // ---- characters and words ----

  predicate IsBlankC(c: char) {
    c in {' ', '\t', '\r', '\n'}
  }

  predicate IsNameStart(c: char) {
    'a' <= c <= 'z' || 'A' <= c <= 'Z' || c == '_'
  }

  predicate IsNameChar(c: char) {
    IsNameStart(c) || IsDigit(c)
  }

  function DigitRun(s: string): (n: nat)
    ensures n <= |s|
    ensures forall i :: 0 <= i < n ==> IsDigit(s[i])
    ensures n < |s| ==> !IsDigit(s[n])
  {
    if s != "" && IsDigit(s[0]) then
      var n := DigitRun(s[1..]);
      assert forall i :: 0 < i <= n ==> s[i] == s[1..][i - 1];
      n + 1
    else 0
  }

  function NameRun(s: string): (n: nat)
    ensures n <= |s|
    ensures forall i :: 0 <= i < n ==> IsNameChar(s[i])
    ensures n < |s| ==> !IsNameChar(s[n])
  {
    if s != "" && IsNameChar(s[0]) then
      var n := NameRun(s[1..]);
      assert forall i :: 0 < i <= n ==> s[i] == s[1..][i - 1];
      n + 1
    else 0
  }

  /** Every alias of a type keyword lexes to the keyword's token. */
  function WordToken(w: string): Tok {
    if w == "int" then TInt
    else if w in {"long", "int64_t", "int_least64_t", "int_fast64_t"} then TLong
    else if w in {"unsigned", "uint32_t", "uint_least32_t", "uint_fast32_t"} then TUnsigned
    else if w in {"uint64_t", "uint_least64_t", "uint_fast64_t"} then TULong
    else if w == "double" then TDouble
    else if w == "float" then TFloat
    else if w == "char" then TChar
    else if w == "return" then TReturn
    else if w == "void" then TVoid
    else if w == "while" then TWhile
    else if w == "if" then TIf
    else if w == "else" then TElse
    else TIdent(w)
  }

  // ---- numbers ----

  predicate AllOctal(s: string) {
    forall i :: 0 <= i < |s| ==> '0' <= s[i] <= '7'
  }

  function Octal(s: string): (v: int)
    requires AllOctal(s)
    ensures v >= 0
  {
    if s == "" then 0 else 8 * Octal(s[..|s| - 1]) + DigitValue(s[|s| - 1])
  }

  /** A leading zero makes the rest octal (C17 section 6.4.4.1). */
  function IntegerToken(digits: string): Result<Tok, LexError>
    requires digits != "" && AllDigits(digits)
  {
    if |digits| > 1 && digits[0] == '0' then
      if !AllOctal(digits[1..]) || Octal(digits[1..]) > I64_MAX then Err(BadOctal) else Ok(TNum(Octal(digits[1..])))
    else if Decimal(digits) > I64_MAX then Err(TooLarge)
    else Ok(TNum(Decimal(digits)))
  }

  // ---- one step of the lexer ----

  datatype Step =
    | Skip(length: nat)
    | Emit(token: Tok, length: nat)
    | Stop(error: LexError)

  /** Characters up to the next newline. */
  function LineRun(s: string): (n: nat)
    ensures n <= |s|
  {
    if s == "" || s[0] == '\n' then 0 else 1 + LineRun(s[1..])
  }

  /** Characters through the next comment close, or all of them. */
  function CommentRun(s: string): (n: nat)
    ensures n <= |s|
  {
    if |s| < 2 then |s|
    else if s[0] == '*' && s[1] == '/' then 2
    else 1 + CommentRun(s[1..])
  }

  predicate Follows(s: string, c: char) {
    |s| > 1 && s[1] == c
  }

  function Operator(s: string): Step
    requires s != ""
  {
    match s[0]
    case '(' => Emit(LParen, 1)
    case ')' => Emit(RParen, 1)
    case '{' => Emit(LBrace, 1)
    case '}' => Emit(RBrace, 1)
    case ';' => Emit(Semi, 1)
    case ',' => Emit(Comma, 1)
    case '+' => Emit(Plus, 1)
    case '-' => Emit(Minus, 1)
    case '*' => Emit(Star, 1)
    case '/' => Emit(Slash, 1)
    case '%' => Emit(Percent, 1)
    case '?' => Emit(Question, 1)
    case ':' => Emit(Colon, 1)
    case '<' => if Follows(s, '=') then Emit(Le, 2) else if Follows(s, '<') then Emit(Shl, 2) else Emit(Lt, 1)
    case '>' => if Follows(s, '=') then Emit(Ge, 2) else if Follows(s, '>') then Emit(Shr, 2) else Emit(Gt, 1)
    case '=' => if Follows(s, '=') then Emit(EqEq, 2) else Emit(Assign, 1)
    case '!' => if Follows(s, '=') then Emit(Ne, 2) else Emit(Bang, 1)
    case '&' => if Follows(s, '&') then Emit(AndAnd, 2) else Emit(Amp, 1)
    case '|' => if Follows(s, '|') then Emit(OrOr, 2) else Emit(Pipe, 1)
    case '^' => Emit(Caret, 1)
    case '~' => Emit(Tilde, 1)
    case c => Stop(UnexpectedCharacter(c))
  }

  function Number(s: string): Step
    requires s != "" && IsDigit(s[0])
  {
    var n := DigitRun(s);
    if n < |s| && s[n] == '.' then
      var m := n + 1 + DigitRun(s[n + 1..]);
      Emit(TFNum(s[..m]), m)
    else
      match IntegerToken(s[..n])
      case Ok(t) => Emit(t, n)
      case Err(e) => Stop(e)
  }

  function StepAt(s: string): Step
    requires s != ""
  {
    if IsBlankC(s[0]) then Skip(1)
    else if s[0] == '/' && Follows(s, '/') then Skip(LineRun(s))
    else if s[0] == '/' && Follows(s, '*') then Skip(2 + CommentRun(s[2..]))
    else if IsDigit(s[0]) then Number(s)
    else if IsNameStart(s[0]) then Emit(WordToken(s[..NameRun(s)]), NameRun(s))
    else Operator(s)
  }

  lemma StepLength(s: string)
    requires s != ""
    ensures StepAt(s).Skip? || StepAt(s).Emit? ==> 0 < StepAt(s).length <= |s|
  {
    hide IntegerToken, WordToken;
  }

  function LexFrom(s: string): Lexed
    decreases |s|
  {
    if s == "" then Ok([])
    else
      StepLength(s);
      match StepAt(s)
      case Skip(n) => LexFrom(s[n..])
      case Emit(t, n) => After([t], LexFrom(s[n..]))
      case Stop(e) => Err(e)
  }

  // ---- the loops the source runs ----

  method ScanDigits(src: string, i: nat) returns (j: nat)
    requires i <= |src|
    ensures j == i + DigitRun(src[i..])
  {
    j := i;
    while j < |src| && IsDigit(src[j])
      invariant i <= j <= |src|
      invariant i + DigitRun(src[i..]) == j + DigitRun(src[j..])
    {
      assert src[j..][1..] == src[j + 1..];
      j := j + 1;
    }
  }

  method ScanName(src: string, i: nat) returns (j: nat)
    requires i <= |src|
    ensures j == i + NameRun(src[i..])
  {
    j := i;
    while j < |src| && IsNameChar(src[j])
      invariant i <= j <= |src|
      invariant i + NameRun(src[i..]) == j + NameRun(src[j..])
    {
      assert src[j..][1..] == src[j + 1..];
      j := j + 1;
    }
  }

  method SkipLine(src: string, i: nat) returns (j: nat)
    requires i <= |src|
    ensures j == i + LineRun(src[i..])
  {
    j := i;
    while j < |src| && src[j] != '\n'
      invariant i <= j <= |src|
      invariant i + LineRun(src[i..]) == j + LineRun(src[j..])
    {
      assert src[j..][1..] == src[j + 1..];
      j := j + 1;
    }
  }

  /** An unclosed comment leaves the index one past the end. */
  method SkipComment(src: string, i: nat) returns (j: nat)
    requires i <= |src|
    ensures j >= i && Rest(src, j) == Rest(src, i + CommentRun(src[i..]))
    ensures j > |src| ==> CommentRun(src[i..]) == |src| - i
  {
    j := i;
    while j + 1 < |src| && !(src[j] == '*' && src[j + 1] == '/')
      invariant i <= j <= |src|
      invariant i + CommentRun(src[i..]) == j + CommentRun(src[j..])
    {
      assert src[j..][1..] == src[j + 1..];
      j := j + 1;
    }
    j := j + 2;
  }

  function Rest(src: string, i: nat): string {
    if i <= |src| then src[i..] else ""
  }

  /** A digit at `i` starts an integer or, with a dot after it, a float literal. */
  method ReadNumber(src: string, i: nat) returns (t: Result<Tok, LexError>, j: nat)
    requires i < |src| && IsDigit(src[i])
    ensures i <= j <= |src|
    ensures Number(src[i..]) == if t.Ok? then Emit(t.value, j - i) else Stop(t.error)
  {
    hide DigitRun, IntegerToken;
    var s := src[i..];
    j := ScanDigits(src, i);
    assert src[i..j] == s[..j - i];
    if j < |src| && src[j] == '.' {
      assert src[j + 1..] == s[j - i + 1..];
      j := ScanDigits(src, j + 1);
      t := Ok(TFNum(src[i..j]));
      assert src[i..j] == s[..j - i];
    } else {
      t := IntegerToken(src[i..j]);
    }
  }

  /** One pass through the outer match: nothing or one token, and the index to go on from. */
  method LexOne(src: string, i: nat) returns (t: Result<Option<Tok>, LexError>, j: nat)
    requires i < |src|
    ensures match StepAt(src[i..])
      case Skip(n) => t == Ok(None) && Rest(src, j) == Rest(src, i + n)
      case Emit(token, n) => t == Ok(Some(token)) && j == i + n
      case Stop(e) => t == Err(e)
    ensures t.Ok? ==> i < j
  {
    hide WordToken, Number, Operator, LineRun, CommentRun, NameRun;
    var c := src[i];
    ghost var s := src[i..];
    StepLength(s);
    t, j := Ok(None), i + 1;
    if IsBlankC(c) {
    } else if c == '/' && i + 1 < |src| && src[i + 1] == '/' {
      j := SkipLine(src, i);
    } else if c == '/' && i + 1 < |src| && src[i + 1] == '*' {
      assert s[2..] == src[i + 2..];
      j := SkipComment(src, i + 2);
    } else if IsDigit(c) {
      var number, k := ReadNumber(src, i);
      t, j := if number.Ok? then Ok(Some(number.value)) else Err(number.error), k;
    } else if IsNameStart(c) {
      j := ScanName(src, i);
      assert src[i..j] == s[..j - i];
      t := Ok(Some(WordToken(src[i..j])));
    } else {
      OperatorNeverSkips(s);
      match Operator(src[i..]) {
        case Emit(token, n) =>
          t, j := Ok(Some(token)), i + n;
        case Stop(e) =>
          t := Err(e);
      }
    }
  }

  lemma OperatorNeverSkips(s: string)
    requires s != ""
    ensures !Operator(s).Skip?
  {
  }

  method Lex(src: string) returns (r: Lexed)
    ensures r == LexFrom(src)
  {
    hide StepAt, LexFrom, After;
    var toks: seq<Tok> := [];
    var i := 0;
    AfterNothing(LexFrom(src));
    assert src[0..] == src;
    while i < |src|
      invariant LexFrom(src) == After(toks, LexFrom(Rest(src, i)))
    {
      LexStep(src, i, toks);
      var t, j := LexOne(src, i);
      if t.Err? {
        return Err(t.error);
      }
      if t.value.Some? {
        toks := toks + [t.value.value];
      }
      i := j;
    }
    assert Rest(src, i) == "";
    LexEnd(toks);
    return Ok(toks);
  }

  /** Skipping or emitting moves the index and the token list together. */
  lemma LexStep(src: string, i: nat, toks: seq<Tok>)
    requires i < |src|
    ensures After(toks, LexFrom(src[i..])) ==
      match StepAt(src[i..])
      case Skip(n) => After(toks, LexFrom(Rest(src, i + n)))
      case Emit(token, n) => After(toks + [token], LexFrom(Rest(src, i + n)))
      case Stop(e) => Err(e)
  {
    hide StepAt;
    var s := src[i..];
    StepLength(s);
    match StepAt(s) {
      case Skip(n) =>
        assert s[n..] == Rest(src, i + n);
      case Emit(token, n) =>
        assert s[n..] == Rest(src, i + n);
        AfterAfter(toks, [token], LexFrom(s[n..]));
      case Stop(_) =>
    }
  }

  lemma LexEnd(toks: seq<Tok>)
    ensures After(toks, LexFrom("")) == Ok(toks)
  {
    assert toks + [] == toks;
  }

  // ---- printed tokens ----

  function TokenText(t: Tok): string {
    match t
    case TInt => "int"
    case TLong => "long"
    case TUnsigned => "unsigned"
    case TULong => "uint64_t"
    case TDouble => "double"
    case TFloat => "float"
    case TChar => "char"
    case TReturn => "return"
    case TVoid => "void"
    case TWhile => "while"
    case TIf => "if"
    case TElse => "else"
    case TIdent(name) => name
    case TNum(v) => if v < 0 then "" else DecimalText(v)
    case TFNum(digits) => digits
    case LParen => "("
    case RParen => ")"
    case LBrace => "{"
    case RBrace => "}"
    case Semi => ";"
    case Comma => ","
    case Plus => "+"
    case Minus => "-"
    case Star => "*"
    case Slash => "/"
    case Percent => "%"
    case Lt => "<"
    case Le => "<="
    case Gt => ">"
    case Ge => ">="
    case EqEq => "=="
    case Ne => "!="
    case AndAnd => "&&"
    case OrOr => "||"
    case Bang => "!"
    case Amp => "&"
    case Pipe => "|"
    case Caret => "^"
    case Tilde => "~"
    case Shl => "<<"
    case Shr => ">>"
    case Question => "?"
    case Colon => ":"
    case Assign => "="
  }

  /** An identifier is no keyword, a number fits, a float literal is digits, a dot and digits. */
  predicate Printable(t: Tok) {
    match t
    case TIdent(name) =>
      name != "" && IsNameStart(name[0]) && (forall i :: 0 <= i < |name| ==> IsNameChar(name[i]))
        && WordToken(name) == t
    case TNum(v) => 0 <= v <= I64_MAX
    case TFNum(digits) =>
      var n := DigitRun(digits);
      0 < n < |digits| && digits[n] == '.' && AllDigits(digits[n + 1..])
    case _ => true
  }

  predicate PrintableAll(ts: seq<Tok>) {
    forall t :: t in ts ==> Printable(t)
  }

  function TokenTexts(ts: seq<Tok>): seq<string> {
    seq(|ts|, i requires 0 <= i < |ts| => TokenText(ts[i]))
  }

  function SourceText(ts: seq<Tok>): string {
    Join(" ", TokenTexts(ts))
  }

  predicate AtBlank(rest: string) {
    rest == "" || IsBlankC(rest[0])
  }

  lemma {:induction false} DigitRunOf(s: string, rest: string)
    requires AllDigits(s) && (rest == "" || !IsDigit(rest[0]))
    ensures DigitRun(s + rest) == |s|
  {
    if s == "" {
      assert s + rest == rest;
    } else {
      assert (s + rest)[1..] == s[1..] + rest;
      DigitRunOf(s[1..], rest);
    }
  }

  lemma {:induction false} NameRunOf(s: string, rest: string)
    requires (forall i :: 0 <= i < |s| ==> IsNameChar(s[i])) && (rest == "" || !IsNameChar(rest[0]))
    ensures NameRun(s + rest) == |s|
  {
    if s == "" {
      assert s + rest == rest;
    } else {
      assert (s + rest)[1..] == s[1..] + rest;
      NameRunOf(s[1..], rest);
    }
  }

  lemma WordReadBack(w: string, rest: string)
    requires w != "" && IsNameStart(w[0]) && (forall i :: 0 <= i < |w| ==> IsNameChar(w[i])) && AtBlank(rest)
    ensures StepAt(w + rest) == Emit(WordToken(w), |w|)
  {
    hide WordToken, NameRun, Number, Operator;
    NameRunOf(w, rest);
    assert (w + rest)[..|w|] == w;
  }

  lemma IntegerReadBack(v: int, rest: string)
    requires 0 <= v <= I64_MAX && AtBlank(rest)
    ensures StepAt(DecimalText(v) + rest) == Emit(TNum(v), |DecimalText(v)|)
  {
    hide DecimalText, DigitRun, Decimal, Octal, Operator, WordToken;
    var s := DecimalText(v);
    DecimalReadBack(v);
    DigitRunOf(s, rest);
    assert (s + rest)[..|s|] == s;
  }

  lemma FloatReadBack(digits: string, rest: string)
    requires Printable(TFNum(digits)) && AtBlank(rest)
    ensures StepAt(digits + rest) == Emit(TFNum(digits), |digits|)
  {
    hide Operator, WordToken, IntegerToken, DigitRun, NameRun, LineRun, CommentRun;
    var n := DigitRun(digits);
    var s := digits + rest;
    var whole, fraction := digits[..n], digits[n + 1..];
    assert DigitRun(s) == n by {
      DigitRunOf(whole, "." + fraction + rest);
      assert s == whole + ("." + fraction + rest);
    }
    assert DigitRun(s[n + 1..]) == |fraction| by {
      DigitRunOf(fraction, rest);
      assert s[n + 1..] == fraction + rest;
    }
    assert s[..|digits|] == digits;
    assert s[0] == digits[0] && IsDigit(s[0]) && s[n] == '.';
    assert Number(s) == Emit(TFNum(digits), |digits|);
  }

  predicate LexedBack(t: Tok, rest: string) {
    var text := TokenText(t);
    text != "" && StepAt(text + rest) == Emit(t, |text|)
  }

  /** One printed token, followed by a blank or the end, is lexed back. */
  lemma TokenReadBack(t: Tok, rest: string)
    requires Printable(t) && AtBlank(rest)
    ensures LexedBack(t, rest)
  {
    hide DecimalText, DigitRun, NameRun, WordToken, Number;
    match t {
      case TIdent(name) => WordReadBack(name, rest);
      case TNum(v) => IntegerReadBack(v, rest);
      case TFNum(digits) =>
        FloatReadBack(digits, rest);
      case TInt | TLong | TUnsigned | TULong | TDouble | TFloat | TChar | TReturn | TVoid | TWhile | TIf | TElse =>
        KeywordReadBack(t, rest);
      case _ => OperatorReadBack(t, rest);
    }
  }

  lemma KeywordReadBack(t: Tok, rest: string)
    requires t in {TInt, TLong, TUnsigned, TULong, TDouble, TFloat, TChar, TReturn, TVoid, TWhile, TIf, TElse}
      && AtBlank(rest)
    ensures StepAt(TokenText(t) + rest) == Emit(t, |TokenText(t)|)
  {
    hide StepAt;
    KeywordWords(t);
    KeywordLetters(t);
    WordReadBack(TokenText(t), rest);
  }

  lemma KeywordWords(t: Tok)
    requires t in {TInt, TLong, TUnsigned, TULong, TDouble, TFloat, TChar, TReturn, TVoid, TWhile, TIf, TElse}
    ensures WordToken(TokenText(t)) == t
  {
    assert "uint64_t"[4] != "uint32_t"[4];
    assert "uint64_t"[1] != "unsigned"[1];
    assert "char"[0] != "long"[0];
    assert "void"[0] != "long"[0] && "void"[0] != "char"[0];
    assert "else"[0] != "long"[0] && "else"[0] != "char"[0] && "else"[0] != "void"[0];
    assert "while"[0] != "float"[0];
    assert "return"[0] != "double"[0];
  }

  lemma KeywordLetters(t: Tok)
    requires t in {TInt, TLong, TUnsigned, TULong, TDouble, TFloat, TChar, TReturn, TVoid, TWhile, TIf, TElse}
    ensures TokenText(t) != "" && IsNameStart(TokenText(t)[0])
    ensures forall i :: 0 <= i < |TokenText(t)| ==> IsNameChar(TokenText(t)[i])
  {
  }

  lemma OperatorReadBack(t: Tok, rest: string)
    requires !t.TIdent? && !t.TNum? && !t.TFNum? && AtBlank(rest)
    requires t !in {TInt, TLong, TUnsigned, TULong, TDouble, TFloat, TChar, TReturn, TVoid, TWhile, TIf, TElse}
    ensures TokenText(t) != "" && StepAt(TokenText(t) + rest) == Emit(t, |TokenText(t)|)
  {
    hide DecimalText, DigitRun, NameRun, WordToken, Number;
    var s := TokenText(t) + rest;
    assert s[0] == TokenText(t)[0];
    assert |s| > 1 ==> s[1] == if |TokenText(t)| > 1 then TokenText(t)[1] else rest[0];
  }

  /** Every list of printable tokens, printed with single spaces, is lexed back exactly. */
  lemma {:induction false} TokensReadBack(ts: seq<Tok>)
    requires PrintableAll(ts)
    ensures LexFrom(SourceText(ts)) == Ok(ts)
  {
    hide StepAt, TokenText, Printable;
    if ts != [] {
      var text := TokenText(ts[0]);
      var rest := if |ts| == 1 then "" else " " + SourceText(ts[1..]);
      assert TokenTexts(ts)[1..] == TokenTexts(ts[1..]);
      assert SourceText(ts) == text + rest by {
        assert |ts| == 1 ==> text + rest == text;
        assert |ts| > 1 ==> text + " " + SourceText(ts[1..]) == text + rest;
      }
      TokenReadBack(ts[0], rest);
      assert (text + rest)[|text|..] == rest;
      TokensReadBack(ts[1..]);
      if |ts| > 1 {
        BlankSkipped(SourceText(ts[1..]));
      } else {
        assert ts[1..] == [];
      }
      assert [ts[0]] + ts[1..] == ts;
    }
  }

  lemma BlankSkipped(s: string)
    ensures LexFrom(" " + s) == LexFrom(s)
  {
    assert (" " + s)[1..] == s;
  }

  // ---- what the lexer can produce ----

  lemma NumberPrintable(s: string)
    requires s != "" && IsDigit(s[0])
    ensures Number(s).Emit? ==> Printable(Number(s).token)
  {
    hide Octal, Decimal;
    var n := DigitRun(s);
    if n < |s| && s[n] == '.' {
      var m := n + 1 + DigitRun(s[n + 1..]);
      var digits := s[..m];
      assert digits == s[..n] + digits[n..];
      DigitRunOf(s[..n], digits[n..]);
      assert digits[n] == '.';
      assert AllDigits(digits[n + 1..]) by {
        var fraction := digits[n + 1..];
        forall i | 0 <= i < |fraction| ensures IsDigit(fraction[i]) {
          assert fraction[i] == s[n + 1..][i];
        }
      }
    }
  }

  lemma WordPrintable(s: string)
    requires s != "" && IsNameStart(s[0])
    ensures Printable(WordToken(s[..NameRun(s)]))
  {
    hide NameRun;
    var w := s[..NameRun(s)];
    assert NameRun(s) > 0 && w[0] == s[0];
    WordTokenShape(w);
  }

  lemma WordTokenShape(w: string)
    ensures WordToken(w).TIdent? ==> WordToken(w) == TIdent(w)
    ensures !WordToken(w).TNum? && !WordToken(w).TFNum?
  {
  }

  /** Every token the lexer produces is printable. */
  lemma {:induction false} LexedIsPrintable(s: string)
    ensures LexFrom(s).Ok? ==> PrintableAll(LexFrom(s).value)
    decreases |s|
  {
    hide StepAt, Printable;
    if s != "" {
      StepLength(s);
      match StepAt(s) {
        case Skip(n) => LexedIsPrintable(s[n..]);
        case Emit(t, n) =>
          EmittedIsPrintable(s);
          LexedIsPrintable(s[n..]);
        case Stop(_) =>
      }
    }
  }

  lemma EmittedIsPrintable(s: string)
    requires s != "" && StepAt(s).Emit?
    ensures Printable(StepAt(s).token)
  {
    hide Number, NameRun, WordToken, DigitRun;
    if IsDigit(s[0]) {
      NumberPrintable(s);
    } else if IsNameStart(s[0]) {
      WordPrintable(s);
    }
  }

  /** Lexing is stable: the printed tokens of any source that lexes are lexed to the same tokens. */
  lemma RelexingIsStable(s: string)
    requires LexFrom(s).Ok?
    ensures LexFrom(SourceText(LexFrom(s).value)) == LexFrom(s)
  {
    LexedIsPrintable(s);
    TokensReadBack(LexFrom(s).value);
  }
}
