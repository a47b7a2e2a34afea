/** C source text as lexemes with blanks and comments between them. */
module CSpacing {
  import opened Outcomes
  import opened Text
  import opened CLexer
  import opened CWords

  /** A blank, a comment to the end of its line, or a comment that is closed. */
  datatype Gap = Space(c: char) | Line(text: string) | Note(text: string)

  datatype Lexeme =
    | AWord(word: string)
    | ADecimal(n: nat)
    | AnOctal(n: nat)
    | AFloat(whole: string, fraction: string)
    | Mark(token: Tok)

  datatype Spaced = Spaced(gaps: seq<Gap>, lexeme: Lexeme)

  function GapText(g: Gap): string {
    match g
    case Space(c) => [c]
    case Line(text) => "//" + text + "\n"
    case Note(text) => "/*" + text + "*/"
  }

  function GapsText(gs: seq<Gap>): string {
    if gs == [] then "" else GapText(gs[0]) + GapsText(gs[1..])
  }

  function LexemeText(l: Lexeme): string {
    match l
    case AWord(word) => word
    case ADecimal(n) => DecimalText(n)
    case AnOctal(n) => "0" + OctalText(n)
    case AFloat(whole, fraction) => whole + "." + fraction
    case Mark(token) => TokenText(token)
  }

  function LexemeToken(l: Lexeme): Tok {
    match l
    case AWord(word) => WordToken(word)
    case ADecimal(n) => TNum(n)
    case AnOctal(n) => TNum(n)
    case AFloat(whole, fraction) => TFNum(whole + "." + fraction)
    case Mark(token) => token
  }

  function SpacedText(ls: seq<Spaced>): string {
    if ls == [] then "" else GapsText(ls[0].gaps) + LexemeText(ls[0].lexeme) + SpacedText(ls[1..])
  }

  function SpacedTokens(ls: seq<Spaced>): seq<Tok> {
    if ls == [] then [] else [LexemeToken(ls[0].lexeme)] + SpacedTokens(ls[1..])
  }

  // ---- what may stand in a source ----

  predicate ClosesInside(text: string) {
    exists i :: 0 <= i < |text| - 1 && text[i] == '*' && text[i + 1] == '/'
  }

  predicate GoodGap(g: Gap) {
    match g
    case Space(c) => c in {' ', '\t', '\r', '\n'}
    case Line(text) => '\n' !in text
    case Note(text) => !ClosesInside(text)
  }

  predicate GoodGaps(gs: seq<Gap>) {
    forall g :: g in gs ==> GoodGap(g)
  }

  /** A letter or an underscore, and behind it letters, digits and underscores. */
  predicate IsWord(w: string) {
    && w != "" && !('0' <= w[0] <= '9')
    && forall i :: 0 <= i < |w| ==>
      'a' <= w[i] <= 'z' || 'A' <= w[i] <= 'Z' || '0' <= w[i] <= '9' || w[i] == '_'
  }

  predicate GoodLexeme(l: Lexeme) {
    match l
    case AWord(word) => IsWord(word)
    case ADecimal(n) => n <= 9223372036854775807
    case AnOctal(n) => n <= 9223372036854775807
    case AFloat(whole, fraction) => whole != "" && AllDigits(whole) && AllDigits(fraction)
    case Mark(token) =>
      !token.TIdent? && !token.TNum? && !token.TFNum?
        && token !in {TInt, TLong, TUnsigned, TULong, TDouble, TFloat, TChar, TReturn, TVoid, TWhile, TIf, TElse}
  }

  /** Every lexeme is well formed and has a blank in front, perhaps with comments behind the blank. */
  predicate GoodSpacing(ls: seq<Spaced>) {
    forall l :: l in ls ==> GoodGaps(l.gaps) && l.gaps != [] && l.gaps[0].Space? && GoodLexeme(l.lexeme)
  }

  // ---- one gap ----

  lemma {:induction false} LineRunOf(text: string, rest: string)
    requires '\n' !in text
    ensures LineRun(text + "\n" + rest) == |text| && LineRun(text) == |text|
  {
    if text == "" {
      assert text + "\n" + rest == "\n" + rest;
    } else {
      assert text[0] in text;
      assert (text + "\n" + rest)[1..] == text[1..] + "\n" + rest;
      LineRunOf(text[1..], rest);
    }
  }

  lemma {:induction false} CommentRunOf(text: string, rest: string)
    requires !ClosesInside(text)
    ensures CommentRun(text + "*/" + rest) == |text| + 2 && CommentRun(text) == |text|
  {
    var s := text + "*/" + rest;
    if text != "" {
      assert s[1..] == text[1..] + "*/" + rest;
      assert s[0] == text[0] && s[1] == if |text| > 1 then text[1] else '*';
      assert !ClosesInside(text[1..]);
      CommentRunOf(text[1..], rest);
    }
  }

  lemma LineSkipped(text: string, rest: string)
    requires '\n' !in text
    ensures LexFrom("//" + text + "\n" + rest) == LexFrom(rest)
  {
    hide LineRun, CommentRun, Number, Operator, NameRun, WordToken;
    var line, s := "//" + text, "//" + text + "\n" + rest;
    assert '\n' !in line;
    LineRunOf(line, rest);
    assert s[|line|..] == "\n" + rest;
    assert LexFrom(s) == LexFrom("\n" + rest);
    assert ("\n" + rest)[1..] == rest;
    assert LexFrom("\n" + rest) == LexFrom(rest);
  }

  lemma NoteSkipped(text: string, rest: string)
    requires !ClosesInside(text)
    ensures LexFrom("/*" + text + "*/" + rest) == LexFrom(rest)
  {
    hide LineRun, CommentRun, Number, Operator, NameRun, WordToken;
    var s := "/*" + text + "*/" + rest;
    CommentRunOf(text, rest);
    assert s[2..] == text + "*/" + rest;
    assert s[|text| + 4..] == rest;
  }

  /** A gap is skipped, whatever stands behind it. */
  lemma GapSkipped(g: Gap, rest: string)
    requires GoodGap(g)
    ensures LexFrom(GapText(g) + rest) == LexFrom(rest)
  {
    hide Number, Operator, NameRun, WordToken;
    match g {
      case Space(c) => assert ([c] + rest)[1..] == rest;
      case Line(text) => LineSkipped(text, rest);
      case Note(text) => NoteSkipped(text, rest);
    }
  }

  lemma {:induction false} GapsSkipped(gs: seq<Gap>, rest: string)
    requires GoodGaps(gs)
    ensures LexFrom(GapsText(gs) + rest) == LexFrom(rest)
  {
    hide LexFrom, GoodGap, GapText;
    if gs == [] {
      assert GapsText(gs) + rest == rest;
    } else {
      GapsSkipped(gs[1..], rest);
      GapSkipped(gs[0], GapsText(gs[1..]) + rest);
      assert GapsText(gs) + rest == GapText(gs[0]) + (GapsText(gs[1..]) + rest);
    }
  }

  /** A comment that nothing ends takes the rest of the source with it. */
  lemma OpenComment(text: string)
    ensures '\n' !in text ==> LexFrom("//" + text) == Ok([])
    ensures !ClosesInside(text) ==> LexFrom("/*" + text) == Ok([])
  {
    hide LineRun, CommentRun, Number, Operator, NameRun, WordToken;
    var line, note := "//" + text, "/*" + text;
    assert LexFrom("") == Ok([]);
    if '\n' !in text {
      assert '\n' !in line;
      LineRunOf(line, "");
      assert line[|line|..] == "";
    }
    if !ClosesInside(text) {
      CommentRunOf(text, "");
      assert note[2..] == text && note[|note|..] == "";
    }
  }

  /** No letter, digit, underscore or blank, and none of the characters of an operator. */
  predicate Unknown(c: char) {
    && !('a' <= c <= 'z') && !('A' <= c <= 'Z') && !('0' <= c <= '9')
    && c !in {'_', ' ', '\t', '\r', '\n', '(', ')', '{', '}', ';', ',', '+', '-', '*', '/', '%', '?', ':', '<', '>', '=',
              '!', '&', '|', '^', '~'}
  }

  /** Any other character refuses the source and is named in the refusal. */
  lemma UnknownRefused(c: char, rest: string)
    requires Unknown(c)
    ensures LexFrom([c] + rest) == Err(UnexpectedCharacter(c))
  {
    hide Number, NameRun, WordToken, LineRun, CommentRun;
  }

  // ---- one lexeme ----

  lemma LexemeRead(l: Lexeme, rest: string)
    requires GoodLexeme(l) && AtBlank(rest)
    ensures StepAt(LexemeText(l) + rest) == Emit(LexemeToken(l), |LexemeText(l)|) && LexemeText(l) != ""
  {
    hide StepAt, WordToken;
    match l {
      case AWord(word) => WordReadBack(word, rest);
      case ADecimal(n) => DecimalLiteral(n, rest);
      case AnOctal(n) => OctalLiteral(n, rest);
      case AFloat(whole, fraction) => FloatLiteral(whole, fraction, rest);
      case Mark(token) => OperatorReadBack(token, rest);
    }
  }

  /** Lexemes are lexed to their tokens whatever blanks and comments stand between them and behind them. */
  lemma {:induction false} SpacedRead(ls: seq<Spaced>, behind: seq<Gap>)
    requires GoodSpacing(ls) && GoodGaps(behind) && (behind != [] ==> behind[0].Space?)
    ensures LexFrom(SpacedText(ls) + GapsText(behind)) == Ok(SpacedTokens(ls))
  {
    hide StepAt, GoodGaps, GoodLexeme, LexemeText, LexemeToken, GapText;
    if ls == [] {
      assert SpacedText(ls) + GapsText(behind) == GapsText(behind) + "";
      GapsSkipped(behind, "");
      assert LexFrom("") == Ok([]);
    } else {
      var first := ls[0];
      var more := SpacedText(ls[1..]) + GapsText(behind);
      SpacedRead(ls[1..], behind);
      SpacedStart(ls[1..], behind);
      LexemeRead(first.lexeme, more);
      var text := LexemeText(first.lexeme);
      GapsSkipped(first.gaps, text + more);
      assert SpacedText(ls) + GapsText(behind) == GapsText(first.gaps) + (text + more);
      assert (text + more)[|text|..] == more;
      assert LexFrom(text + more) == After([LexemeToken(first.lexeme)], LexFrom(more));
    }
  }

  lemma SpacedStart(ls: seq<Spaced>, behind: seq<Gap>)
    requires GoodSpacing(ls) && GoodGaps(behind) && (behind != [] ==> behind[0].Space?)
    ensures AtBlank(SpacedText(ls) + GapsText(behind))
  {
    hide GoodLexeme, LexemeText;
    if ls != [] {
      GapsStart(ls[0].gaps);
    } else if behind != [] {
      GapsStart(behind);
    }
  }

  lemma GapsStart(gs: seq<Gap>)
    requires GoodGaps(gs) && gs != [] && gs[0].Space?
    ensures GapsText(gs) != "" && IsBlankC(GapsText(gs)[0])
  {
    assert gs[0] in gs;
  }
}
