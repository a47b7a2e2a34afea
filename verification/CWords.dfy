/** The words and numerals of C source text: which are keywords, and what the others are worth. */
module CWords {
  import opened Outcomes
  import opened Text
  import opened CLexer

  // ---- words ----

  datatype Kind = Exact | Least | Fast

  function Prefix(signed: bool, kind: Kind): string {
    (if signed then "int" else "uint") + (match kind case Exact => "" case Least => "_least" case Fast => "_fast")
  }

  /** `[u]int[_least|_fast]N_t` (C17 section 7.20.1). */
  function IntegerName(signed: bool, kind: Kind, bits: nat): string {
    Prefix(signed, kind) + (DecimalText(bits) + "_t")
  }

  /** The widths that have a token. */
  function WidthToken(signed: bool, bits: nat): Option<Tok> {
    if signed && bits == 64 then Some(TLong)
    else if !signed && bits == 32 then Some(TUnsigned)
    else if !signed && bits == 64 then Some(TULong)
    else None
  }

  function Keywords(): map<string, Tok> {
    map["int" := TInt, "long" := TLong, "unsigned" := TUnsigned, "double" := TDouble, "float" := TFloat,
        "char" := TChar, "void" := TVoid, "return" := TReturn, "while" := TWhile, "if" := TIf, "else" := TElse]
  }

  lemma KeywordTokens(w: string)
    requires w in Keywords()
    ensures WordToken(w) == Keywords()[w] && !Keywords()[w].TIdent?
  {
  }

  lemma SameDigits(a: nat, b: nat)
    requires DecimalText(a) + "_t" == DecimalText(b) + "_t"
    ensures a == b
  {
    hide DecimalText;
    assert (DecimalText(a) + "_t")[..|DecimalText(a)|] == DecimalText(a);
    assert (DecimalText(b) + "_t")[..|DecimalText(b)|] == DecimalText(b);
    DecimalReadBack(a);
    DecimalReadBack(b);
  }

  lemma NameShape(signed: bool, kind: Kind, bits: nat)
    ensures var w := IntegerName(signed, kind, bits);
      && |w| >= 2 && w[|w| - 2] == '_' && w[|w| - 1] == 't'
      && (w[0] == 'i' <==> signed)
      && w[|Prefix(signed, kind)|..] == DecimalText(bits) + "_t"
      && var n := if signed then 3 else 4;
         |w| > n + 1 && (w[n] == '_' <==> kind != Exact) && (kind != Exact ==> (w[n + 1] == 'l' <==> kind == Least))
  {
    hide DecimalText;
    var w := IntegerName(signed, kind, bits);
    var digits := DecimalText(bits) + "_t";
    assert w[|w| - 2] == digits[|digits| - 2] && w[|w| - 1] == digits[|digits| - 1];
  }

  /** A name has one signedness, one kind and one width. */
  lemma NameDetermines(s1: bool, k1: Kind, b1: nat, s2: bool, k2: Kind, b2: nat)
    requires IntegerName(s1, k1, b1) == IntegerName(s2, k2, b2)
    ensures s1 == s2 && k1 == k2 && b1 == b2
  {
    hide IntegerName, Prefix, DecimalText;
    NameShape(s1, k1, b1);
    NameShape(s2, k2, b2);
    SameDigits(b1, b2);
  }

  lemma WidthNames()
    ensures DecimalText(64) == "64" && DecimalText(32) == "32"
  {
    assert DecimalText(6) == "6" && DecimalText(3) == "3";
  }

  lemma AliasTokens(w: string, signed: bool, kind: Kind, bits: nat)
    requires w == IntegerName(signed, kind, bits) && WidthToken(signed, bits).Some?
    ensures WordToken(w) == WidthToken(signed, bits).value
  {
    hide DecimalText;
    WidthNames();
    AliasWords(signed, kind);
  }

  lemma AliasWords(signed: bool, kind: Kind)
    ensures WordToken(Prefix(signed, kind) + ("64" + "_t")) == if signed then TLong else TULong
    ensures WordToken(Prefix(false, kind) + ("32" + "_t")) == TUnsigned
  {
    hide WordToken;
    ExactWords();
    LeastWords();
    FastWords();
  }

  lemma ExactWords()
    ensures Prefix(true, Exact) + ("64" + "_t") == "int64_t" && WordToken("int64_t") == TLong
    ensures Prefix(false, Exact) + ("64" + "_t") == "uint64_t" && WordToken("uint64_t") == TULong
    ensures Prefix(false, Exact) + ("32" + "_t") == "uint32_t" && WordToken("uint32_t") == TUnsigned
  {
    assert "uint64_t"[4] != "uint32_t"[4] && "uint64_t"[1] != "unsigned"[1];
  }

  lemma LeastWords()
    ensures Prefix(true, Least) + ("64" + "_t") == "int_least64_t" && WordToken("int_least64_t") == TLong
    ensures Prefix(false, Least) + ("64" + "_t") == "uint_least64_t" && WordToken("uint_least64_t") == TULong
    ensures Prefix(false, Least) + ("32" + "_t") == "uint_least32_t" && WordToken("uint_least32_t") == TUnsigned
  {
    assert "uint_least64_t"[10] != "uint_least32_t"[10];
  }

  lemma FastWords()
    ensures Prefix(true, Fast) + ("64" + "_t") == "int_fast64_t" && WordToken("int_fast64_t") == TLong
    ensures Prefix(false, Fast) + ("64" + "_t") == "uint_fast64_t" && WordToken("uint_fast64_t") == TULong
    ensures Prefix(false, Fast) + ("32" + "_t") == "uint_fast32_t" && WordToken("uint_fast32_t") == TUnsigned
  {
    assert "uint_fast64_t"[9] != "uint_fast32_t"[9] && "uint_fast32_t"[0] != "int_fast64_t"[0];
  }

  /** Every name of a width without a token is an identifier. */
  lemma OtherWidths(signed: bool, kind: Kind, bits: nat)
    requires WidthToken(signed, bits).None?
    ensures var w := IntegerName(signed, kind, bits); WordToken(w) == TIdent(w)
  {
    hide IntegerName, DecimalText, Prefix;
    var w := IntegerName(signed, kind, bits);
    NameShape(signed, kind, bits);
    if !WordToken(w).TIdent? {
      assert w !in Keywords() by { KeywordsEnd(w); }
      var s2, k2, b2 := TokenIsAlias(w);
      NameDetermines(signed, kind, bits, s2, k2, b2);
    }
  }

  lemma KeywordsEnd(w: string)
    requires |w| >= 2 && w[|w| - 2] == '_'
    ensures w !in Keywords()
  {
  }

  /** A word with a token of its own is a keyword or the name of a width that has one. */
  lemma TokenIsAlias(w: string) returns (signed: bool, kind: Kind, bits: nat)
    requires !WordToken(w).TIdent? && w !in Keywords()
    ensures w == IntegerName(signed, kind, bits) && WidthToken(signed, bits).Some?
  {
    hide DecimalText, Prefix;
    WidthNames();
    ExactWords();
    LeastWords();
    FastWords();
    OwnTokens(w);
    kind := if w in {"int64_t", "uint32_t", "uint64_t"} then Exact
            else if w in {"int_least64_t", "uint_least32_t", "uint_least64_t"} then Least
            else Fast;
    signed := WordToken(w) == TLong;
    bits := if WordToken(w) == TUnsigned then 32 else 64;
  }

  lemma OwnTokens(w: string)
    requires !WordToken(w).TIdent? && w !in Keywords()
    ensures WordToken(w) == TLong ==> w in {"int64_t", "int_least64_t", "int_fast64_t"}
    ensures WordToken(w) == TUnsigned ==> w in {"uint32_t", "uint_least32_t", "uint_fast32_t"}
    ensures WordToken(w) == TULong ==> w in {"uint64_t", "uint_least64_t", "uint_fast64_t"}
    ensures WordToken(w) in {TLong, TUnsigned, TULong}
  {
  }

  /** The words that are no identifiers: the keywords, and the integer names of 64 bits or 32 unsigned bits. */
  lemma WordExactly(w: string)
    ensures w in Keywords() ==> WordToken(w) == Keywords()[w]
    ensures WordToken(w) == TIdent(w) <==>
      w !in Keywords() && forall s, k, b :: w == IntegerName(s, k, b) ==> WidthToken(s, b).None?
    ensures forall s, k, b :: w == IntegerName(s, k, b) && WidthToken(s, b).Some? ==>
      WordToken(w) == WidthToken(s, b).value
  {
    hide WordToken, IntegerName, Keywords;
    if w in Keywords() {
      KeywordTokens(w);
    }
    forall s, k, b | w == IntegerName(s, k, b) && WidthToken(s, b).Some?
      ensures WordToken(w) == WidthToken(s, b).value && !WidthToken(s, b).value.TIdent?
    {
      AliasTokens(w, s, k, b);
    }
    WordTokenShape(w);
    if !WordToken(w).TIdent? && w !in Keywords() {
      var s, k, b := TokenIsAlias(w);
    }
  }

  // ---- numerals ----

  /** The digits of `n` in base eight. */
  function OctalText(n: nat): string {
    var last := [('0' as int + n % 8) as char];
    if n < 8 then last else OctalText(n / 8) + last
  }

  lemma {:induction false} OctalReadBack(n: nat)
    ensures OctalText(n) != "" && AllOctal(OctalText(n)) && Octal(OctalText(n)) == n
  {
    var s := OctalText(n);
    if n < 8 {
      assert s[..0] == "";
    } else {
      OctalReadBack(n / 8);
      assert s[..|s| - 1] == OctalText(n / 8);
    }
  }

  /** The first character that no number goes on with. */
  predicate AfterNumber(rest: string) {
    rest == "" || (!IsDigit(rest[0]) && rest[0] != '.')
  }

  /** A zero in front of octal digits is their value in base eight, up to the largest 64-bit integer. */
  lemma OctalLiteral(n: nat, rest: string)
    requires AfterNumber(rest)
    ensures var s := "0" + OctalText(n);
      StepAt(s + rest) == if n <= 9223372036854775807 then Emit(TNum(n), |s|) else Stop(BadOctal)
  {
    hide OctalText, DigitRun, Octal, Operator, WordToken, Decimal;
    var digits := OctalText(n);
    var s := "0" + digits;
    OctalReadBack(n);
    DigitRunOf(s, rest);
    assert (s + rest)[..|s|] == s && s[1..] == digits;
  }

  /** Digits without a leading zero are their value in base ten, up to the same bound. */
  lemma DecimalLiteral(n: nat, rest: string)
    requires AfterNumber(rest)
    ensures var s := DecimalText(n);
      StepAt(s + rest) == if n <= 9223372036854775807 then Emit(TNum(n), |s|) else Stop(TooLarge)
  {
    hide DecimalText, DigitRun, Octal, Operator, WordToken, Decimal;
    var s := DecimalText(n);
    DecimalReadBack(n);
    DigitRunOf(s, rest);
    assert (s + rest)[..|s|] == s;
  }

  /** A leading zero in front of digits that hold an eight or a nine. */
  lemma NotOctal(digits: string, rest: string)
    requires AllDigits(digits) && ('8' in digits || '9' in digits) && AfterNumber(rest)
    ensures StepAt("0" + digits + rest) == Stop(BadOctal)
  {
    hide DigitRun, Octal, Operator, WordToken, Decimal;
    var s := "0" + digits;
    DigitRunOf(s, rest);
    assert (s + rest)[..|s|] == s && s[1..] == digits;
  }

  /** Digits, a dot, and digits that may be missing are a float literal. */
  lemma FloatLiteral(whole: string, fraction: string, rest: string)
    requires whole != "" && AllDigits(whole) && AllDigits(fraction) && (rest == "" || !IsDigit(rest[0]))
    ensures var s := whole + "." + fraction; StepAt(s + rest) == Emit(TFNum(s), |s|)
  {
    hide Operator, WordToken, IntegerToken, DigitRun, NameRun, LineRun, CommentRun;
    var s := whole + "." + fraction;
    var t := s + rest;
    var n := |whole|;
    DigitRunOf(whole, "." + fraction + rest);
    assert t == whole + ("." + fraction + rest);
    DigitRunOf(fraction, rest);
    assert t[n + 1..] == fraction + rest;
    assert t[..|s|] == s;
    assert t[0] == whole[0] && t[n] == '.';
  }
}
