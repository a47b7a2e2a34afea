/** The spellings of the words of a command line, and what a line written with them says. */
module Spellings {
  import opened Outcomes
  import opened Text
  import opened ShellAst
  import opened Tokenizer
  import opened TokenText
  import opened FlatLines
  import opened Parameters

  datatype Word =
    | Plain(text: string)
    | Named(name: string)
    | Braced(name: string)
    | Special(symbol: char)
    | InSingleQuotes(text: string)
    | InDoubleQuotes(units: seq<Unit>)
    | Sum(text: string)
    | InDollar(program: string, words: seq<Spaced>)
    | InBackticks(program: string, words: seq<Spaced>)

  /** A character between double quotes, or a backslash and the character it protects. */
  datatype Unit = Char(c: char) | Escaped(c: char)

  datatype Spaced = Spaced(gap: string, word: Word)

  // ---- text ----

  function Units(units: seq<Unit>): string {
    if units == [] then ""
    else (match units[0] case Char(c) => [c] case Escaped(c) => ['\\', c]) + Units(units[1..])
  }

  function Spelled(w: Word): string {
    match w
    case Plain(text) => text
    case Named(name) => "$" + name
    case Braced(name) => "${" + name + "}"
    case Special(symbol) => "$" + [symbol]
    case InSingleQuotes(text) => "'" + text + "'"
    case InDoubleQuotes(units) => "\"" + Units(units) + "\""
    case Sum(text) => "$((" + text + "))"
    case InDollar(program, words) => "$(" + (program + SpelledAll(words)) + ")"
    case InBackticks(program, words) => "`" + (program + SpelledAll(words)) + "`"
  }

  function SpelledAll(ws: seq<Spaced>): string {
    if ws == [] then "" else ws[0].gap + Spelled(ws[0].word) + SpelledAll(ws[1..])
  }

  // ---- meaning ----

  function Said(w: Word): Expr {
    match w
    case Plain(text) => LitStr(text)
    case Named(name) => ShellVar(name)
    case Braced(name) => ShellVar(name)
    case Special(symbol) => ShellSpecial([symbol])
    case InSingleQuotes(text) => QuotedString(text, Single)
    case InDoubleQuotes(units) => QuotedString(Units(units), Double)
    case Sum(_) => LitStr(Spelled(w))
    case InDollar(program, words) => CommandSubstitution(Cmd(program, SaidAll(words)))
    case InBackticks(program, words) => CommandSubstitution(Cmd(program, SaidAll(words)))
  }

  function SaidAll(ws: seq<Spaced>): seq<Expr> {
    if ws == [] then [] else [Said(ws[0].word)] + SaidAll(ws[1..])
  }

  // ---- the words a line can hold ----

  const SPACES: set<char> := {' ', '\t', '\n', '\U{0B}', '\U{0C}', '\r'}

  predicate Spaces(s: string) {
    forall i :: 0 <= i < |s| ==> s[i] in SPACES
  }

  predicate Bareword(s: string) {
    && s != "" && s[0] != '#'
    && (forall i :: 0 <= i < |s| ==> s[i] !in SPACES && s[i] !in {'\'', '"', '`'})
    && (forall i :: 0 <= i < |s| - 1 ==> !(s[i] == '$' && s[i + 1] == '('))
  }

  /** Every parenthesis closes one of the `depth` before it or one inside. */
  predicate Balanced(s: string, depth: nat) {
    if s == "" then depth == 0
    else if s[0] == '(' then Balanced(s[1..], depth + 1)
    else if s[0] == ')' then depth > 0 && Balanced(s[1..], depth - 1)
    else Balanced(s[1..], depth)
  }

  predicate WellSpelled(w: Word) {
    match w
    case Plain(text) => Bareword(text) && !IsParameter(text)
    case Named(name) => IsName(name)
    case Braced(name) => IsName(name)
    case Special(symbol) => symbol in SPECIALS
    case InSingleQuotes(text) => '\'' !in text
    case InDoubleQuotes(units) => forall u :: u in units && u.Char? ==> u.c !in {'"', '\\'}
    case Sum(text) => Balanced(text, 0)
    case InDollar(program, words) =>
      Bareword(program) && AllWellSpelled(words)
        && '(' !in program + SpelledAll(words) && ')' !in program + SpelledAll(words)
    case InBackticks(program, words) =>
      Bareword(program) && AllWellSpelled(words) && '`' !in program + SpelledAll(words)
  }

  predicate AllWellSpelled(ws: seq<Spaced>) {
    ws != [] ==>
      ws[0].gap != "" && Spaces(ws[0].gap) && WellSpelled(ws[0].word) && AllWellSpelled(ws[1..])
  }

  // ---- one word, as a token ----

  function RawOf(w: Word): RawToken {
    match w
    case InSingleQuotes(text) => SingleQuoted(text)
    case InDoubleQuotes(units) => DoubleQuoted(Units(units))
    case InDollar(program, words) => CommandSubst(program + SpelledAll(words))
    case InBackticks(program, words) => CommandSubst(program + SpelledAll(words))
    case _ => Bare(Spelled(w))
  }

  function AllRaw(ws: seq<Spaced>): seq<RawToken> {
    if ws == [] then [] else [RawOf(ws[0].word)] + AllRaw(ws[1..])
  }

  lemma SpacesAreBlank(s: string)
    ensures Spaces(s) <==> Blank(s)
  {
    assert forall c :: c in SPACES <==> IsWhitespace(c);
  }

  lemma BarewordIsPlain(s: string)
    requires Bareword(s)
    ensures PlainBare(s) && Solid(s)
  {
    assert forall c :: c in SPACES <==> IsWhitespace(c);
  }

  lemma NameIsPlain(name: string)
    requires IsName(name)
    ensures PlainBare("$" + name) && PlainBare("${" + name + "}")
  {
    var bare, braced := "$" + name, "${" + name + "}";
    assert forall i :: 0 <= i < |bare| ==> bare[i] == '$' || bare[i] == name[i - 1];
    assert forall i :: 0 <= i < |braced| ==> braced[i] in {'$', '{', '}'} || braced[i] == name[i - 2];
  }

  lemma {:induction false} UnitsClosed(units: seq<Unit>)
    requires forall u :: u in units && u.Char? ==> u.c !in {'"', '\\'}
    ensures EscapesClosed(Units(units))
  {
    if units != [] {
      assert units[0] in units;
      UnitsClosed(units[1..]);
      var s := Units(units);
      match units[0] {
        case Char(c) => assert s[0] == c && s[1..] == Units(units[1..]);
        case Escaped(c) => assert s[0] == '\\' && s[2..] == Units(units[1..]);
      }
    }
  }

  lemma {:induction false} BalancedCloses(s: string, depth: nat)
    requires Balanced(s, depth)
    ensures ClosesAtEnd(s + "))", depth + 2)
    decreases |s|
  {
    var t := s + "))";
    if s == "" {
      assert t == "))" && t[1..] == ")";
    } else {
      assert t[1..] == s[1..] + "))";
      BalancedCloses(s[1..], if s[0] == '(' then depth + 1 else if s[0] == ')' then depth - 1 else depth);
    }
  }

  lemma SumIsArithmetic(text: string)
    requires Balanced(text, 0)
    ensures ArithmeticBare("$((" + text + "))")
  {
    var s := "$((" + text + "))";
    BalancedCloses(text, 0);
    assert s[..3] == "$((" && s[|s| - 2..] == "))" && s[3..] == text + "))";
  }

  /** A spelled word at a boundary is one token. */
  lemma WordRead(w: Word, rest: string)
    requires WellSpelled(w) && AtBoundary(rest)
    ensures TokenizeFrom(Spelled(w) + rest, "") == After([RawOf(w)], TokenizeFrom(rest, ""))
  {
    hide TokenizeFrom, PlainBare, ArithmeticBare, EscapesClosed, Bareword, IsName, IsParameter;
    match w {
      case Plain(text) => BarewordIsPlain(text);
      case Named(name) => NameIsPlain(name);
      case Braced(name) => NameIsPlain(name);
      case Special(symbol) => SymbolIsPlain(symbol);
      case InSingleQuotes(text) =>
      case InDoubleQuotes(units) => UnitsClosed(units);
      case Sum(text) => SumIsArithmetic(text);
      case InDollar(program, words) =>
      case InBackticks(program, words) => BackticksRead(program + SpelledAll(words), rest);
    }
    if !w.InBackticks? {
      assert WellFormedToken(RawOf(w)) && PrintToken(RawOf(w)) == Spelled(w);
      TokenReadBack(RawOf(w), rest);
    }
  }

  lemma SymbolIsPlain(symbol: char)
    requires symbol in SPECIALS
    ensures PlainBare("$" + [symbol])
  {
  }

  lemma BackticksRead(text: string, rest: string)
    requires '`' !in text
    ensures TokenizeFrom("`" + text + "`" + rest, "") == After([CommandSubst(text)], TokenizeFrom(rest, ""))
  {
    hide IndexOf;
    var s := "`" + text + "`" + rest;
    assert s[1..] == text + ['`'] + rest;
    IndexOfFirst(text, '`', rest);
    assert s[1..|text| + 1] == text;
    assert Delimited(s) == Ok((CommandSubst(text), |text| + 2));
    assert s[|text| + 2..] == rest;
  }

  // ---- a line of words ----

  /** Blanks, or blanks and a comment. */
  predicate Ending(blanks: string, comment: string) {
    Spaces(blanks) && (comment == "" || (comment[0] == '#' && blanks != ""))
  }

  lemma {:induction false} GapRead(gap: string, rest: string)
    requires Spaces(gap)
    ensures TokenizeFrom(gap + rest, "") == TokenizeFrom(rest, "")
    decreases |gap|
  {
    if gap == "" {
      assert gap + rest == rest;
    } else {
      assert IsWhitespace(gap[0]) by {
        assert forall c :: c in SPACES <==> IsWhitespace(c);
      }
      assert (gap + rest)[1..] == gap[1..] + rest;
      GapRead(gap[1..], rest);
      AfterNothing(TokenizeFrom(gap[1..] + rest, ""));
    }
  }

  lemma EndingRead(blanks: string, comment: string)
    requires Ending(blanks, comment)
    ensures Tokenize(blanks + comment) == Ok([]) && AtBoundary(blanks + comment)
  {
    hide TokenizeFrom;
    GapRead(blanks, comment);
    CommentRead(comment);
    SpacesAreBlank(blanks);
    assert blanks != "" ==> (blanks + comment)[0] == blanks[0];
  }

  lemma CommentRead(comment: string)
    requires comment == "" || comment[0] == '#'
    ensures TokenizeFrom(comment, "") == Ok([])
  {
  }

  lemma {:induction false} WordsRead(ws: seq<Spaced>, rest: string)
    requires AllWellSpelled(ws) && AtBoundary(rest)
    ensures Tokenize(SpelledAll(ws) + rest) == After(AllRaw(ws), Tokenize(rest)) && AtBoundary(SpelledAll(ws) + rest)
  {
    hide TokenizeFrom, Spelled, WellSpelled, RawOf, IsWhitespace;
    if ws == [] {
      assert SpelledAll(ws) + rest == rest;
      AfterNothing(Tokenize(rest));
    } else {
      var more := SpelledAll(ws[1..]) + rest;
      WordsRead(ws[1..], rest);
      WordRead(ws[0].word, more);
      GapRead(ws[0].gap, Spelled(ws[0].word) + more);
      SpacesAreBlank(ws[0].gap);
      assert SpelledAll(ws) + rest == ws[0].gap + (Spelled(ws[0].word) + more);
      AfterAfter([RawOf(ws[0].word)], AllRaw(ws[1..]), Tokenize(rest));
      assert AllRaw(ws) == [RawOf(ws[0].word)] + AllRaw(ws[1..]);
    }
  }

  lemma CommandRead(program: string, ws: seq<Spaced>, blanks: string, comment: string)
    requires Bareword(program) && AllWellSpelled(ws) && Ending(blanks, comment)
    ensures Tokenize(program + SpelledAll(ws) + blanks + comment) == Ok([Bare(program)] + AllRaw(ws))
  {
    hide TokenizeFrom, Bareword, AllWellSpelled, PlainBare, AtBoundary, Ending;
    var rest := SpelledAll(ws) + (blanks + comment);
    EndingRead(blanks, comment);
    WordsRead(ws, blanks + comment);
    BarewordIsPlain(program);
    TokenReadBack(Bare(program), rest);
    assert program + SpelledAll(ws) + blanks + comment == program + rest;
    assert AllRaw(ws) + [] == AllRaw(ws);
  }

  // ---- what the tokens are lowered to ----

  lemma {:induction false} WordSays(w: Word)
    requires WellSpelled(w)
    ensures LowerRawToken(RawOf(w)) == Ok(Said(w))
    decreases w, 0
  {
    hide LowerToken, IsName, IsParameter, Tokenize;
    match w {
      case Plain(text) => LiteralExactly(text);
      case Named(name) => NamedParameter(name);
      case Braced(name) => NamedParameter(name);
      case Special(symbol) => SpecialParameter(symbol);
      case InSingleQuotes(_) =>
      case InDoubleQuotes(_) =>
      case Sum(text) =>
        LiteralExactly(Spelled(w));
        SumIsNoParameter(text);
      case InDollar(program, words) =>
        WordsSay(words);
        SubstitutionSays(program, words);
      case InBackticks(program, words) =>
        WordsSay(words);
        SubstitutionSays(program, words);
    }
  }

  lemma {:induction false} WordsSay(ws: seq<Spaced>)
    requires AllWellSpelled(ws)
    ensures LowerTokens(AllRaw(ws)) == Ok(SaidAll(ws))
    decreases ws
  {
    hide LowerRawToken, WellSpelled, RawOf, Said;
    if ws != [] {
      WordSays(ws[0].word);
      WordsSay(ws[1..]);
      assert AllRaw(ws)[1..] == AllRaw(ws[1..]);
    }
  }

  lemma SumIsNoParameter(text: string)
    ensures !IsParameter("$((" + text + "))")
  {
    var rest := ("$((" + text + "))")[1..];
    assert rest[0] == '(';
  }

  lemma SubstitutionSays(program: string, words: seq<Spaced>)
    requires Bareword(program) && AllWellSpelled(words) && LowerTokens(AllRaw(words)) == Ok(SaidAll(words))
    ensures LowerRawToken(CommandSubst(program + SpelledAll(words)))
         == Ok(CommandSubstitution(Cmd(program, SaidAll(words))))
  {
    hide Bareword, AllWellSpelled, LowerTokens, TokenizeFrom, Trim;
    var text := program + SpelledAll(words);
    CommandTrimmed(program, words);
    TrimOfTrimmed(text);
    CommandRead(program, words, "", "");
    assert program + SpelledAll(words) + "" + "" == text;
    assert ([Bare(program)] + AllRaw(words))[1..] == AllRaw(words);
  }

  lemma WordEnds(w: Word)
    requires WellSpelled(w)
    ensures Trimmed(Spelled(w))
  {
    hide TokenizeFrom, Balanced, AllWellSpelled, IsName;
    match w {
      case Plain(text) => BarewordIsPlain(text);
      case Named(name) => NameIsPlain(name);
      case _ =>
    }
  }

  lemma {:induction false} WordsEnd(ws: seq<Spaced>)
    requires AllWellSpelled(ws) && ws != []
    ensures SpelledAll(ws) != "" && !IsWhitespace(SpelledAll(ws)[|SpelledAll(ws)| - 1])
  {
    hide WellSpelled, Spelled;
    WordEnds(ws[0].word);
    if |ws| > 1 {
      WordsEnd(ws[1..]);
    }
  }

  lemma CommandTrimmed(program: string, ws: seq<Spaced>)
    requires Bareword(program) && AllWellSpelled(ws)
    ensures Trimmed(program + SpelledAll(ws))
  {
    hide Bareword, AllWellSpelled;
    BarewordIsPlain(program);
    if ws != [] {
      WordsEnd(ws);
    }
  }

  /** A command line says its program and its words, whatever blanks and comment it is written with. */
  lemma CommandSays(program: string, ws: seq<Spaced>, blanks: string, comment: string)
    requires Bareword(program) && AllWellSpelled(ws) && Ending(blanks, comment)
    ensures Command(program + SpelledAll(ws) + blanks + comment) == Ok(Some(Cmd(program, SaidAll(ws))))
  {
    hide TokenizeFrom, LowerTokens, Bareword, AllWellSpelled, Ending, Tokenize;
    CommandRead(program, ws, blanks, comment);
    WordsSay(ws);
    assert ([Bare(program)] + AllRaw(ws))[1..] == AllRaw(ws);
  }

  /** Blanks and a comment, or nothing at all, are no command. */
  lemma NothingSaid(blanks: string, comment: string)
    requires Spaces(blanks) && (comment == "" || comment[0] == '#')
    ensures Command(blanks + comment) == Ok(None)
  {
    hide TokenizeFrom;
    GapRead(blanks, comment);
    CommentRead(comment);
  }

  // ---- a flat line ----

  predicate ShiftAt(s: string, i: nat)
    requires i + 1 < |s|
  {
    s[i] == s[i + 1] == '<'
  }

  /** `<<` inside a bareword. */
  predicate Shifts(s: string) {
    exists i: nat :: i + 1 < |s| && ShiftAt(s, i)
  }

  predicate ShiftsAmong(ws: seq<Spaced>) {
    ws != [] && ((ws[0].word.Plain? && Shifts(ws[0].word.text)) || ShiftsAmong(ws[1..]))
  }

  /** No `name=` in front. */
  predicate Unassigned(program: string) {
    forall k :: 0 <= k < |program| && program[k] == '=' ==> !IsName(program[..k])
  }

  /** Every `|` has another beside it. */
  predicate Unpiped(line: string) {
    forall i :: 0 <= i < |line| && line[i] == '|' ==>
      (i > 0 && line[i - 1] == '|') || (i + 1 < |line| && line[i + 1] == '|')
  }

  lemma ShiftsAgree(s: string)
    ensures HasDoubleLess(s) <==> Shifts(s)
  {
    if HasDoubleLess(s) {
      var i: nat :| i < |s| - 1 && s[i] == '<' && s[i + 1] == '<';
      assert ShiftAt(s, i);
    }
  }

  lemma WordHereDoc(w: Word)
    requires WellSpelled(w)
    ensures IsHereDocToken(RawOf(w)) <==> w.Plain? && Shifts(w.text)
  {
    hide Shifts, AllWellSpelled, SpelledAll, Balanced, IsParameter;
    match w {
      case Plain(text) =>
        ShiftsAgree(text);
        BarewordNotArithmetic(text);
      case Named(name) => assert !HasDoubleLess(Spelled(w));
      case Braced(name) => assert !HasDoubleLess(Spelled(w));
      case Special(symbol) =>
      case Sum(text) => assert Spelled(w)[..3] == "$((";
      case _ =>
    }
  }

  lemma BarewordNotArithmetic(s: string)
    requires Bareword(s)
    ensures !StartsWith(s, "$((")
  {
    if |s| > 2 {
      assert s[..3][0] == s[0] && s[..3][1] == s[1];
    }
  }

  lemma {:induction false} WordsHereDoc(ws: seq<Spaced>)
    requires AllWellSpelled(ws)
    ensures (exists t :: t in AllRaw(ws) && IsHereDocToken(t)) <==> ShiftsAmong(ws)
  {
    hide WellSpelled, RawOf, Shifts, IsHereDocToken;
    if ws != [] {
      WordHereDoc(ws[0].word);
      WordsHereDoc(ws[1..]);
      assert forall t :: t in AllRaw(ws) <==> t == RawOf(ws[0].word) || t in AllRaw(ws[1..]);
    }
  }

  lemma NotAssigned(program: string, rest: string)
    requires Bareword(program) && Unassigned(program) && AtBoundary(rest)
    ensures !IsAssignment(program + rest)
  {
    hide IsPosixIdentifier, IsName;
    var line := program + rest;
    var eq := IndexOf(line, '=');
    if eq.Some? {
      NamesAgree(line[..eq.value]);
      if eq.value < |program| {
        assert line[..eq.value] == program[..eq.value] && program[eq.value] == '=';
      } else {
        BlankIsNoName(line[..eq.value], |program|);
      }
    }
  }

  lemma BlankIsNoName(s: string, k: nat)
    ensures k < |s| && IsWhitespace(s[k]) ==> !IsName(s)
  {
  }

  lemma UnpipedAgrees(line: string)
    ensures Unpiped(line) <==> !HasLonePipe(line)
  {
    if !HasLonePipe(line) {
      forall i | 0 <= i < |line| && line[i] == '|'
        ensures (i > 0 && line[i - 1] == '|') || (i + 1 < |line| && line[i + 1] == '|')
      {
        assert !IsLonePipe(line, i);
      }
    }
  }

  /** A flat line that is no assignment and holds no pipe says its command, or is refused for a `<<` in a bareword. */
  lemma LineSays(program: string, ws: seq<Spaced>, blanks: string, comment: string)
    requires Bareword(program) && program != "&" && Unassigned(program)
    requires AllWellSpelled(ws) && Ending(blanks, comment)
    requires Unpiped(program + SpelledAll(ws) + blanks + comment)
    ensures FlatLine(program + SpelledAll(ws) + blanks + comment) ==
      if Shifts(program) || ShiftsAmong(ws) then Err(HereDocument) else Ok(Some(Cmd(program, SaidAll(ws))))
  {
    hide TokenizeFrom, Command, Bareword, AllWellSpelled, Ending, Unassigned, Unpiped, HasLonePipe, IsAssignment,
         FirstWord, IsHereDocToken, Shifts, ShiftsAmong, Tokenize;
    var line := program + SpelledAll(ws) + blanks + comment;
    var rest := SpelledAll(ws) + (blanks + comment);
    assert line == program + rest && line == "" + program + rest;
    CommandRead(program, ws, blanks, comment);
    CommandSays(program, ws, blanks, comment);
    EndingRead(blanks, comment);
    WordsRead(ws, blanks + comment);
    NotAssigned(program, rest);
    UnpipedAgrees(line);
    BarewordIsPlain(program);
    FirstWordOf("", program, rest);
    HereDocAgrees(program, ws, line);
  }

  lemma HereDocAgrees(program: string, ws: seq<Spaced>, line: string)
    requires Bareword(program) && AllWellSpelled(ws) && Tokenize(line) == Ok([Bare(program)] + AllRaw(ws))
    ensures HasHereDoc(line) <==> Shifts(program) || ShiftsAmong(ws)
  {
    hide Tokenize, Bareword, AllWellSpelled, Shifts, ShiftsAmong, HasDoubleLess;
    WordsHereDoc(ws);
    ShiftsAgree(program);
    BarewordNotArithmetic(program);
    assert IsHereDocToken(Bare(program)) <==> Shifts(program);
    assert forall t :: t in [Bare(program)] + AllRaw(ws) <==> t == Bare(program) || t in AllRaw(ws);
  }
}
