/** The spellings of the C types, and declarations written with them. */
module CTypes {
  import opened Outcomes
  import opened CLexer
  import opened CExpressions
  import opened CStatements
  import opened CPrinting
  import opened CReadBack
  import opened CModuleSources
  import opened CWords
  import opened CSpacing

  /** The words of a type, and whether a star follows them. */
  datatype Spelling = Spelling(words: seq<string>, pointer: bool)

  /** The integer types by signedness and width, the floating types, and `char` (C17 section 6.7.2). */
  ghost predicate Spells(words: seq<string>, ty: CType) {
    match ty
    case I64 => words == ["int"]
    case CLong => words == ["long"] || words == ["long", "long"] || NamesWidth(words, true, 64)
    case CUInt => words == ["unsigned"] || words == ["unsigned", "int"] || NamesWidth(words, false, 32)
    case CULong =>
      words == ["unsigned", "long"] || words == ["unsigned", "long", "long"] || NamesWidth(words, false, 64)
    case F64 => words == ["double"]
    case F32 => words == ["float"]
    case CChar => words == ["char"]
    case Ptr(_) => false
  }

  ghost predicate NamesWidth(words: seq<string>, signed: bool, bits: nat) {
    exists kind :: words == [IntegerName(signed, kind, bits)]
  }

  function WordTokens(words: seq<string>): seq<Tok> {
    seq(|words|, i requires 0 <= i < |words| => WordToken(words[i]))
  }

  /** The type of the words, whatever name or star stands behind them. */
  lemma BaseRead(words: seq<string>, ty: CType, rest: seq<Tok>)
    requires Spells(words, ty) && rest != [] && (rest[0].TIdent? || rest[0] == Star)
    ensures BaseType(WordTokens(words) + rest) == Ok(Parsed(ty, rest))
  {
    hide WordToken, IntegerName, BaseType;
    LiteralWords();
    TokensSpell(rest);
    SignedSpell(rest);
    UnsignedSpell(rest);
    WideSpell(rest);
    match ty {
      case CLong => WidthRead(words, true, 64, TLong);
      case CUInt => WidthRead(words, false, 32, TUnsigned);
      case CULong => WidthRead(words, false, 64, TULong);
      case _ =>
    }
    var ts := WordTokens(words);
    assert |words| == 1 ==> ts == [WordToken(words[0])];
    assert |words| == 2 ==> ts == [WordToken(words[0]), WordToken(words[1])];
    assert |words| == 3 ==> ts == [WordToken(words[0]), WordToken(words[1]), WordToken(words[2])];
  }

  predicate NameOrStar(rest: seq<Tok>) {
    rest != [] && (rest[0].TIdent? || rest[0] == Star)
  }

  lemma TokensSpell(rest: seq<Tok>)
    requires NameOrStar(rest)
    ensures BaseType([TInt] + rest) == Ok(Parsed(I64, rest)) && BaseType([TChar] + rest) == Ok(Parsed(CChar, rest))
    ensures BaseType([TDouble] + rest) == Ok(Parsed(F64, rest)) && BaseType([TFloat] + rest) == Ok(Parsed(F32, rest))
  {
    assert ([TInt] + rest)[1..] == rest && ([TChar] + rest)[1..] == rest;
    assert ([TDouble] + rest)[1..] == rest && ([TFloat] + rest)[1..] == rest;
  }

  lemma SignedSpell(rest: seq<Tok>)
    requires NameOrStar(rest)
    ensures BaseType([TLong] + rest) == BaseType([TLong, TLong] + rest) == Ok(Parsed(CLong, rest))
  {
    var long := [TLong, TLong] + rest;
    assert ([TLong] + rest)[1..] == rest;
    assert long[1..] == [TLong] + rest && long[1..][1..] == rest;
  }

  lemma UnsignedSpell(rest: seq<Tok>)
    requires NameOrStar(rest)
    ensures BaseType([TUnsigned] + rest) == BaseType([TUnsigned, TInt] + rest) == Ok(Parsed(CUInt, rest))
  {
    var plain := [TUnsigned, TInt] + rest;
    assert ([TUnsigned] + rest)[1..] == rest;
    assert plain[1..] == [TInt] + rest && plain[1..][1..] == rest;
  }

  lemma WideSpell(rest: seq<Tok>)
    requires NameOrStar(rest)
    ensures BaseType([TULong] + rest) == BaseType([TUnsigned, TLong] + rest) == Ok(Parsed(CULong, rest))
    ensures BaseType([TUnsigned, TLong, TLong] + rest) == Ok(Parsed(CULong, rest))
  {
    var wide, longer := [TUnsigned, TLong] + rest, [TUnsigned, TLong, TLong] + rest;
    assert ([TULong] + rest)[1..] == rest;
    assert wide[1..] == [TLong] + rest && wide[2..] == rest;
    assert longer[1..] == [TLong, TLong] + rest && longer[2..] == [TLong] + rest && longer[2..][1..] == rest;
  }

  lemma LiteralWords()
    ensures WordToken("int") == TInt && WordToken("long") == TLong && WordToken("unsigned") == TUnsigned
    ensures WordToken("double") == TDouble && WordToken("float") == TFloat && WordToken("char") == TChar
    ensures WordToken("return") == TReturn
  {
    KeywordTokens("int");
    KeywordTokens("long");
    KeywordTokens("unsigned");
    KeywordTokens("double");
    KeywordTokens("float");
    KeywordTokens("char");
    KeywordTokens("return");
  }

  lemma WidthRead(words: seq<string>, signed: bool, bits: nat, token: Tok)
    requires WidthToken(signed, bits) == Some(token)
    ensures NamesWidth(words, signed, bits) ==> |words| == 1 && WordToken(words[0]) == token
  {
    hide WordToken, IntegerName;
    if NamesWidth(words, signed, bits) {
      var kind :| words == [IntegerName(signed, kind, bits)];
      AliasTokens(words[0], signed, kind, bits);
    }
  }

  /** One star makes a pointer, two are refused, and so is `char` without a star. */
  lemma TypeRead(words: seq<string>, ty: CType, rest: seq<Tok>)
    requires Spells(words, ty) && rest != [] && rest[0].TIdent?
    ensures TypeAt(WordTokens(words) + rest) == if ty == CChar then Err(BareChar) else Ok(Parsed(ty, rest))
    ensures TypeAt(WordTokens(words) + ([Star] + rest)) == Ok(Parsed(Ptr(ty), rest))
    ensures TypeAt(WordTokens(words) + ([Star, Star] + rest)) == Err(PointerToPointer)
  {
    hide BaseType, WordTokens, Spells;
    BaseRead(words, ty, rest);
    BaseRead(words, ty, [Star] + rest);
    BaseRead(words, ty, [Star, Star] + rest);
    assert ([Star] + rest)[1..] == rest;
    assert ([Star, Star] + rest)[1..] == [Star] + rest;
  }

  // ---- a function written with two spellings ----

  function SpellingTokens(s: Spelling): seq<Tok> {
    WordTokens(s.words) + if s.pointer then [Star] else []
  }

  function TypeOf(s: Spelling, ty: CType): CType {
    if s.pointer then Ptr(ty) else ty
  }

  ghost predicate GoodSpelling(s: Spelling, ty: CType) {
    Spells(s.words, ty) && (s.pointer || ty != CChar)
  }

  lemma SpellingRead(s: Spelling, ty: CType, rest: seq<Tok>)
    requires GoodSpelling(s, ty) && rest != [] && rest[0].TIdent?
    ensures TypeAt(SpellingTokens(s) + rest) == Ok(Parsed(TypeOf(s, ty), rest))
  {
    hide TypeAt, WordTokens, Spells;
    TypeRead(s.words, ty, rest);
    assert SpellingTokens(s) + rest == WordTokens(s.words) + if s.pointer then [Star] + rest else rest;
  }

  /** `T f(U x) { return x; }` as tokens. */
  function IdentityTokens(f: string, result: Spelling, x: string, given: Spelling): seq<Tok> {
    SpellingTokens(result) + ([TIdent(f), LParen] + (SpellingTokens(given) +
      [TIdent(x), RParen, LBrace, TReturn, TIdent(x), Semi, RBrace]))
  }

  lemma TypeStarts(ts: seq<Tok>)
    ensures TypeAt(ts).Ok? ==> !Starts(ts, RParen) && !Starts(ts, TVoid)
  {
  }

  lemma ParamsRead(given: Spelling, pty: CType, x: string, rest: seq<Tok>)
    requires GoodSpelling(given, pty) && Starts(rest, RParen)
    ensures Params(SpellingTokens(given) + ([TIdent(x)] + rest)) == Ok(Parsed([Param(x, TypeOf(given, pty))], rest))
  {
    hide TypeAt, SpellingTokens, GoodSpelling;
    var tail := [TIdent(x)] + rest;
    var ts := SpellingTokens(given) + tail;
    SpellingRead(given, pty, tail);
    assert tail[1..] == rest;
    assert ParamAt(ts) == Ok(Parsed(Param(x, TypeOf(given, pty)), rest));
    TypeStarts(ts);
    ParamListOnce([], ts);
    assert [] + [Param(x, TypeOf(given, pty))] == [Param(x, TypeOf(given, pty))];
  }

  lemma HeaderRead(f: string, result: Spelling, rty: CType, x: string, given: Spelling, pty: CType, body: seq<Tok>)
    requires GoodSpelling(result, rty) && GoodSpelling(given, pty)
    ensures HeaderAt(SpellingTokens(result) + ([TIdent(f), LParen] + (SpellingTokens(given) +
              ([TIdent(x)] + ([RParen, LBrace] + body))))) ==
            Ok(Parsed(Header(f, [Param(x, TypeOf(given, pty))], TypeOf(result, rty)), body))
  {
    hide TypeAt, SpellingTokens, GoodSpelling, Params;
    var close := [RParen, LBrace] + body;
    var inner := SpellingTokens(given) + ([TIdent(x)] + close);
    var named := [TIdent(f), LParen] + inner;
    SpellingRead(result, rty, named);
    ParamsRead(given, pty, x, close);
    assert named[1..] == [LParen] + inner && named[1..][1..] == inner;
    assert close[1..] == [LBrace] + body && close[1..][1..] == body;
  }

  lemma ReturnRead(x: string)
    ensures BodyAt([], [TReturn, TIdent(x), Semi, RBrace]) == Ok(Parsed(Body([], Var(x)), [RBrace]))
  {
    hide Conditional;
    var ts := [TReturn, TIdent(x), Semi, RBrace];
    ExpressionRoundTrip(Var(x), [Semi, RBrace]) by {
      EndsBefore(Semi, [RBrace]);
      assert [Semi] + [RBrace] == [Semi, RBrace];
    }
    assert Show(Var(x), 0) == [TIdent(x)];
    assert ts[1..] == [TIdent(x)] + [Semi, RBrace];
    assert [Semi, RBrace][1..] == [RBrace];
  }

  lemma IdentityParsed(f: string, result: Spelling, rty: CType, x: string, given: Spelling, pty: CType)
    requires GoodSpelling(result, rty) && GoodSpelling(given, pty)
    ensures ModuleFrom([], IdentityTokens(f, result, x, given)) ==
            Ok([Function(f, [Param(x, TypeOf(given, pty))], TypeOf(result, rty), [], Var(x))])
  {
    hide HeaderAt, BodyAt, SpellingTokens, GoodSpelling;
    var body := [TReturn, TIdent(x), Semi, RBrace];
    var ts := IdentityTokens(f, result, x, given);
    HeaderRead(f, result, rty, x, given, pty, body);
    ReturnRead(x);
    assert [TIdent(x)] + ([RParen, LBrace] + body) == [TIdent(x), RParen, LBrace, TReturn, TIdent(x), Semi, RBrace];
    assert [RBrace][1..] == [];
    var fn := Function(f, [Param(x, TypeOf(given, pty))], TypeOf(result, rty), [], Var(x));
    assert FunctionAt(ts) == Ok(Parsed(fn, []));
    assert [] + [fn] == [fn] && ModuleFrom([fn], []) == Ok([fn]);
  }

  // ---- the source text ----

  function WordLexemes(words: seq<string>): seq<Lexeme> {
    seq(|words|, i requires 0 <= i < |words| => AWord(words[i]))
  }

  function SpellingLexemes(s: Spelling): seq<Lexeme> {
    WordLexemes(s.words) + if s.pointer then [Mark(Star)] else []
  }

  function IdentityLexemes(f: string, result: Spelling, x: string, given: Spelling): seq<Lexeme> {
    SpellingLexemes(result) + ([AWord(f), Mark(LParen)] + (SpellingLexemes(given) +
      [AWord(x), Mark(RParen), Mark(LBrace), AWord("return"), AWord(x), Mark(Semi), Mark(RBrace)]))
  }

  function Tokens(ls: seq<Lexeme>): seq<Tok> {
    seq(|ls|, i requires 0 <= i < |ls| => LexemeToken(ls[i]))
  }

  function Lexemes(ls: seq<Spaced>): seq<Lexeme> {
    seq(|ls|, i requires 0 <= i < |ls| => ls[i].lexeme)
  }

  lemma {:induction false} SpacedIsTokens(ls: seq<Spaced>)
    ensures SpacedTokens(ls) == Tokens(Lexemes(ls))
  {
    hide LexemeToken;
    if ls != [] {
      SpacedIsTokens(ls[1..]);
      assert Tokens(Lexemes(ls)) == [LexemeToken(ls[0].lexeme)] + Tokens(Lexemes(ls[1..]));
    }
  }

  lemma SpellingAgrees(s: Spelling)
    ensures Tokens(SpellingLexemes(s)) == SpellingTokens(s)
  {
    hide WordToken;
  }

  lemma IdentityAgrees(f: string, result: Spelling, x: string, given: Spelling)
    requires WordToken(f) == TIdent(f) && WordToken(x) == TIdent(x)
    ensures Tokens(IdentityLexemes(f, result, x, given)) == IdentityTokens(f, result, x, given)
  {
    hide WordToken, SpellingTokens, SpellingLexemes;
    SpellingAgrees(result);
    SpellingAgrees(given);
    LiteralWords();
    var tail := [AWord(x), Mark(RParen), Mark(LBrace), AWord("return"), AWord(x), Mark(Semi), Mark(RBrace)];
    assert Tokens(tail) == [TIdent(x), RParen, LBrace, TReturn, TIdent(x), Semi, RBrace];
    TokensAppend(SpellingLexemes(given), tail);
    var named := [AWord(f), Mark(LParen)];
    assert Tokens(named) == [TIdent(f), LParen];
    TokensAppend(named, SpellingLexemes(given) + tail);
    TokensAppend(SpellingLexemes(result), named + (SpellingLexemes(given) + tail));
  }

  lemma TokensAppend(a: seq<Lexeme>, b: seq<Lexeme>)
    ensures Tokens(a + b) == Tokens(a) + Tokens(b)
  {
    hide LexemeToken;
  }

  /**
   * A function that takes one spelled type and returns another is read with these types, whatever its names, blanks
   * and comments.
   */
  lemma SpelledTypes(f: string, result: Spelling, rty: CType, x: string, given: Spelling, pty: CType,
                     ls: seq<Spaced>, behind: seq<Gap>)
    requires GoodSpelling(result, rty) && GoodSpelling(given, pty)
    requires WordToken(f) == TIdent(f) && WordToken(x) == TIdent(x)
    requires GoodSpacing(ls) && Lexemes(ls) == IdentityLexemes(f, result, x, given)
    requires GoodGaps(behind) && (behind != [] ==> behind[0].Space?)
    ensures ReadsModule(SpacedText(ls) + GapsText(behind),
                        [Function(f, [Param(x, TypeOf(given, pty))], TypeOf(result, rty), [], Var(x))])
  {
    hide LexFrom, ModuleFrom, GoodSpelling, WordToken, IdentityLexemes, IdentityTokens, Lexemes, Tokens, GoodSpacing;
    SpacedRead(ls, behind);
    SpacedIsTokens(ls);
    IdentityAgrees(f, result, x, given);
    IdentityParsed(f, result, rty, x, given, pty);
  }
}
