/** Lines written with spelled words: assignments, refusals, and sources of one line. */
module SpelledLines {
  import opened Outcomes
  import opened Text
  import opened ShellAst
  import opened Splicer
  import opened Tokenizer
  import opened TokenText
  import opened FlatLines
  import opened Blocks
  import opened Regions
  import opened Cases
  import opened Scripts
  import opened Parameters
  import opened Spellings
  import opened CommandPositions
  import FlatScripts
  import LostLines

  // ---- a delimited word behind a bareword ----

  /** What a bareword may not run into. */
  predicate Glues(opener: string, e: Refusal) {
    || (opener == "'" && e == SingleQuoteAdjacent)
    || (opener == "\"" && e == DoubleQuoteAdjacent)
    || (opener == "`" && e == BacktickAdjacent)
    || (opener == "$(" && e == SubstitutionAdjacent)
  }

  lemma GluedOpens(opener: string, e: Refusal, rest: string)
    requires Glues(opener, e)
    ensures opener != "" && OpensDelimited(opener + rest) && Adjacent(opener[0]) == e
    ensures !IsWhitespace(opener[0]) && opener[0] != '#' && opener[0] != '('
  {
  }

  lemma {:induction false} Pushed(front: string, current: string, rest: string)
    requires PlainChars(front) && (front != "" && current == "" ==> front[0] != '#')
    requires rest != "" && rest[0] != '('
    ensures TokenizeFrom(front + rest, current) == TokenizeFrom(rest, current + front)
    decreases |front|
  {
    if front == "" {
      assert front + rest == rest && current + front == current;
    } else {
      var line := front + rest;
      assert line[1..] == front[1..] + rest;
      assert |front| > 1 ==> line[1] == front[1];
      assert |front| == 1 ==> line[1] == rest[0];
      assert !OpensDelimited(line);
      PlainCharsTail(front);
      Pushed(front[1..], current + [front[0]], rest);
      assert current + [front[0]] + front[1..] == current + front;
    }
  }

  /** A quote or substitution glued to a bareword refuses the line, whatever follows. */
  lemma GluedRefused(front: string, opener: string, e: Refusal, rest: string)
    requires Bareword(front) && Glues(opener, e)
    ensures Tokenize(front + opener + rest) == Err(e)
  {
    hide Bareword, Glues, PlainChars;
    BarewordIsPlain(front);
    GluedOpens(opener, e, rest);
    Pushed(front, "", opener + rest);
    assert front + opener + rest == front + (opener + rest) && "" + front == front;
  }

  // ---- assignments ----

  predicate IsBare(w: Word) {
    w.Plain? || w.Named? || w.Braced? || w.Special?
  }

  lemma NamedBareword(name: string, w: Word)
    requires IsName(name) && IsBare(w) && WellSpelled(w)
    ensures Bareword(name + "=" + Spelled(w)) && Bareword(name + "=")
    ensures Shifts(name + "=" + Spelled(w)) <==> w.Plain? && Shifts(w.text)
  {
    hide IsParameter, SPECIALS, Bareword, Shifts;
    var s := Spelled(w);
    NameBare(name);
    SpelledBare(w);
    GluedBare(name, s);
    GluedShifts(name, s);
    SpelledShifts(w);
  }

  lemma NameBare(name: string)
    requires IsName(name)
    ensures Bareword(name + "=")
    ensures forall i :: 0 <= i < |name| ==> name[i] !in {'$', '<', '='}
  {
  }

  lemma SpelledBare(w: Word)
    requires IsBare(w) && WellSpelled(w)
    ensures Bareword(Spelled(w))
  {
    match w {
      case Plain(_) =>
      case Named(name) =>
      case Braced(name) =>
        var s := Spelled(w);
        assert forall i :: 0 <= i < |s| ==> s[i] in {'$', '{', '}'} || s[i] == name[i - 2];
      case Special(_) =>
    }
  }

  lemma SpelledShifts(w: Word)
    requires IsBare(w) && WellSpelled(w)
    ensures Shifts(Spelled(w)) <==> w.Plain? && Shifts(w.text)
  {
    match w {
      case Plain(_) =>
      case Named(name) => assert '<' !in name;
      case Braced(name) => assert '<' !in name;
      case Special(_) =>
    }
  }

  lemma GluedBare(name: string, s: string)
    requires IsName(name) && Bareword(s)
    ensures Bareword(name + "=" + s)
  {
    var t := name + "=" + s;
    var n := |name|;
    assert forall i :: 0 <= i < |t| ==> t[i] == if i < n then name[i] else if i == n then '=' else s[i - n - 1];
  }

  lemma GluedShifts(name: string, s: string)
    requires IsName(name)
    ensures Shifts(name + "=" + s) <==> Shifts(s)
  {
    var t := name + "=" + s;
    var n := |name| + 1;
    assert forall i :: 0 <= i < |t| ==> t[i] == if i < |name| then name[i] else if i == |name| then '=' else s[i - n];
    if Shifts(t) {
      var i: nat :| i + 1 < |t| && ShiftAt(t, i);
      assert i >= n;
      assert ShiftAt(s, i - n);
    }
    if Shifts(s) {
      var i: nat :| i + 1 < |s| && ShiftAt(s, i);
      assert ShiftAt(t, i + n);
    }
  }

  /** The opener a delimited word starts with. */
  lemma DelimitedOpener(w: Word) returns (opener: string, e: Refusal, rest: string)
    requires !IsBare(w)
    ensures Glues(opener, e) && Spelled(w) == opener + rest
  {
    var s := Spelled(w);
    match w {
      case InSingleQuotes(_) => opener, e, rest := "'", SingleQuoteAdjacent, s[1..];
      case InDoubleQuotes(_) => opener, e, rest := "\"", DoubleQuoteAdjacent, s[1..];
      case InBackticks(_, _) => opener, e, rest := "`", BacktickAdjacent, s[1..];
      case Sum(_) => opener, e, rest := "$(", SubstitutionAdjacent, s[2..];
      case InDollar(_, _) => opener, e, rest := "$(", SubstitutionAdjacent, s[2..];
    }
  }

  lemma AssignmentHereDoc(name: string, w: Word, ws: seq<Spaced>, blanks: string, comment: string)
    requires IsName(name) && WellSpelled(w) && AllWellSpelled(ws) && Ending(blanks, comment)
    ensures HasHereDoc(name + "=" + (Spelled(w) + SpelledAll(ws) + blanks + comment)) <==>
            IsBare(w) && ((w.Plain? && Shifts(w.text)) || ShiftsAmong(ws))
  {
    hide IsName, WellSpelled, AllWellSpelled, Ending, Shifts, ShiftsAmong, Tokenize, IsBare, Spelled, IsHereDocToken,
         Bareword, Glues;
    var line := name + "=" + (Spelled(w) + SpelledAll(ws) + blanks + comment);
    if IsBare(w) {
      var program := name + "=" + Spelled(w);
      NamedBareword(name, w);
      CommandRead(program, ws, blanks, comment);
      assert program + SpelledAll(ws) + blanks + comment == line;
      HereDocAgrees(program, ws, line);
    } else {
      var opener, e, rest := DelimitedOpener(w);
      NameBare(name);
      GluedRefused(name + "=", opener, e, rest + SpelledAll(ws) + blanks + comment);
      assert name + "=" + opener + (rest + SpelledAll(ws) + blanks + comment) == line;
    }
  }

  lemma Assigned(name: string, value: string)
    requires IsName(name)
    ensures var line := name + "=" + value;
      FirstWord(line) != "&" && IsAssignment(line)
        && IndexOf(line, '=') == Some(|name|) && line[..|name|] == name && line[|name| + 1..] == value
  {
    hide FirstWord, IndexOf;
    var line := name + "=" + value;
    NamesAgree(name);
    IndexOfFirst(name, '=', value);
    assert line == name + ['='] + value;
    assert line[..|name|] == name;
    FirstWordStarts(line);
  }

  /** `name=` and one word assigns what the word says; with a second word behind it the line is refused. */
  lemma AssignmentSays(name: string, w: Word, ws: seq<Spaced>, blanks: string, comment: string)
    requires IsName(name) && WellSpelled(w) && AllWellSpelled(ws) && Ending(blanks, comment)
    ensures FlatLine(name + "=" + (Spelled(w) + SpelledAll(ws) + blanks + comment)) ==
      if IsBare(w) && ((w.Plain? && Shifts(w.text)) || ShiftsAmong(ws)) then Err(HereDocument)
      else if ws == [] then Ok(Some(ShellAssign(name, Said(w))))
      else Err(AssignmentBeforeCommand)
  {
    hide IsName, WellSpelled, AllWellSpelled, Ending, Shifts, ShiftsAmong, Tokenize, IsBare, Spelled, HasHereDoc,
         FirstWord, IsAssignment, LowerRawToken, IndexOf;
    var value := Spelled(w) + SpelledAll(ws) + blanks + comment;
    AssignmentHereDoc(name, w, ws, blanks, comment);
    Assigned(name, value);
    WordsTokens(w, ws, blanks, comment);
    WordSays(w);
    assert AllRaw(ws) != [] <==> ws != [];
  }

  lemma WordsTokens(w: Word, ws: seq<Spaced>, blanks: string, comment: string)
    requires WellSpelled(w) && AllWellSpelled(ws) && Ending(blanks, comment)
    ensures Tokenize(Spelled(w) + SpelledAll(ws) + blanks + comment) == Ok([RawOf(w)] + AllRaw(ws))
  {
    hide WellSpelled, AllWellSpelled, Ending, Spelled, TokenizeFrom, AtBoundary;
    EndingRead(blanks, comment);
    WordsRead(ws, blanks + comment);
    WordRead(w, SpelledAll(ws) + (blanks + comment));
    assert AllRaw(ws) + [] == AllRaw(ws);
    assert Spelled(w) + SpelledAll(ws) + blanks + comment == Spelled(w) + (SpelledAll(ws) + (blanks + comment));
  }

  /** `name=` alone assigns the empty text. */
  lemma EmptyAssignment(name: string, blanks: string, comment: string)
    requires IsName(name) && Ending(blanks, comment)
    ensures FlatLine(name + "=" + (blanks + comment)) == Ok(Some(ShellAssign(name, LitStr(""))))
  {
    hide IsName, Ending, TokenizeFrom, FirstWord, IsAssignment, IndexOf, Bareword, IsHereDocToken;
    var line := name + "=" + (blanks + comment);
    NameBare(name);
    EndingRead(blanks, comment);
    CommandRead(name + "=", [], blanks, comment);
    assert name + "=" + SpelledAll([]) + blanks + comment == line;
    HereDocAgrees(name + "=", [], line);
    GluedShifts(name, "");
    assert name + "=" + "" == name + "=";
    Assigned(name, blanks + comment);
  }

  // ---- a delimited word first ----

  /** A line that starts with a quote or a substitution has no program. */
  lemma DelimitedFirst(w: Word, ws: seq<Spaced>, blanks: string, comment: string)
    requires WellSpelled(w) && !IsBare(w) && !w.Sum? && AllWellSpelled(ws) && Ending(blanks, comment)
    ensures Command(Spelled(w) + SpelledAll(ws) + blanks + comment) == Err(QuotedProgram)
  {
    hide WellSpelled, AllWellSpelled, Ending, Spelled, Tokenize, LowerTokens;
    WordsTokens(w, ws, blanks, comment);
  }

  // ---- words that nothing closes ----

  /** An opener, text that does not close it, and the refusal. */
  predicate Unclosed(opener: string, text: string, e: Refusal) {
    || (opener == "'" && '\'' !in text && e == UnterminatedSingleQuote)
    || (opener == "`" && '`' !in text && e == UnterminatedBacktick)
    || (opener == "\"" && '"' !in text && e == UnterminatedDoubleQuote)
    || (opener == "$(" && '(' !in text && ')' !in text && e == UnterminatedSubstitution)
    || (opener == "$((" && ')' !in text && e == UnterminatedArithmetic)
  }

  lemma {:induction false} NoCloser(s: string)
    ensures '"' !in s ==> DoubleQuoteLength(s) == None
    ensures '(' !in s && ')' !in s ==> SubstitutionBody(s) == Open
    decreases |s|
  {
    if s != "" {
      NoCloser(s[1..]);
      if |s| > 1 {
        NoCloser(s[2..]);
      }
      assert s[0] in s;
    }
  }

  lemma {:induction false} NothingCloses(s: string, depth: nat)
    requires depth > 0
    ensures ')' !in s ==> ArithmeticLength(s, depth) == |s|
  {
    if s != "" {
      assert s[0] in s;
      NothingCloses(s[1..], if s[0] == '(' then depth + 1 else depth);
    }
  }

  lemma UnclosedOpens(opener: string, text: string, e: Refusal)
    requires Unclosed(opener, text, e)
    ensures OpensDelimited(opener + text) && Delimited(opener + text) == Err(e)
  {
    if opener == "$((" {
      UnclosedSum(text);
    } else if opener == "$(" {
      UnclosedSubstitution(text);
    } else {
      UnclosedQuote(opener, text, e);
    }
  }

  lemma UnclosedSum(text: string)
    requires ')' !in text
    ensures var s := "$((" + text; OpensDelimited(s) && Delimited(s) == Err(UnterminatedArithmetic)
  {
    hide ArithmeticLength;
    var s := "$((" + text;
    NothingCloses(text, 2);
    assert s[3..] == text && s[..|s|] == s;
    assert s[|s| - 1] == if text == "" then '(' else text[|text| - 1];
    assert s[|s| - 2..][1] == s[|s| - 1];
  }

  lemma UnclosedSubstitution(text: string)
    requires '(' !in text && ')' !in text
    ensures var s := "$(" + text; OpensDelimited(s) && Delimited(s) == Err(UnterminatedSubstitution)
  {
    hide SubstitutionBody;
    var s := "$(" + text;
    NoCloser(text);
    assert s[2..] == text;
    assert text != "" ==> text[0] in text;
  }

  lemma UnclosedQuote(opener: string, text: string, e: Refusal)
    requires Unclosed(opener, text, e) && |opener| == 1
    ensures OpensDelimited(opener + text) && Delimited(opener + text) == Err(e)
  {
    hide DoubleQuoteLength, IndexOf;
    var s := opener + text;
    assert s[1..] == text;
    NoCloser(text);
    Absent(text, opener[0]);
  }

  lemma Absent(s: string, c: char)
    requires c !in s
    ensures IndexOf(s, c) == None
  {
  }

  /** `$(` and, before any closing parenthesis but not at once, another opening one. */
  lemma NestedOpens(front: string, rest: string)
    requires front != "" && '(' !in front && ')' !in front
    ensures var s := "$(" + (front + ("(" + rest)); OpensDelimited(s) && Delimited(s) == Err(NestedSubstitution)
  {
    var text := front + ("(" + rest);
    var s := "$(" + text;
    assert s[2..] == text && text[0] == front[0] && front[0] in front;
    LostLines.NestedBody(front, "(" + rest);
  }

  /** A word that nothing closes refuses the line, whatever words stand in front of it. */
  lemma BadWordRefused(program: string, ws: seq<Spaced>, gap: string, bad: string, e: Refusal)
    requires Bareword(program) && AllWellSpelled(ws) && Spaces(gap) && gap != ""
    requires OpensDelimited(bad) && Delimited(bad) == Err(e)
    ensures Tokenize(program + SpelledAll(ws) + gap + bad) == Err(e)
  {
    hide Bareword, AllWellSpelled, TokenizeFrom, AtBoundary, Delimited, PlainBare;
    GapBounds(gap, bad);
    BadRead(bad, e);
    GapRead(gap, bad);
    WordsRead(ws, gap + bad);
    BarewordIsPlain(program);
    TokenReadBack(Bare(program), SpelledAll(ws) + (gap + bad));
    assert program + SpelledAll(ws) + gap + bad == program + (SpelledAll(ws) + (gap + bad));
  }

  lemma GapBounds(gap: string, rest: string)
    requires Spaces(gap) && gap != ""
    ensures AtBoundary(gap + rest)
  {
    SpacesAreBlank(gap);
    assert (gap + rest)[0] == gap[0];
  }

  lemma BadRead(bad: string, e: Refusal)
    requires OpensDelimited(bad) && Delimited(bad) == Err(e)
    ensures TokenizeFrom(bad, "") == Err(e)
  {
    hide Delimited;
  }

  /** An unclosed quote, substitution or sum refuses the line it ends. */
  lemma UnclosedRefused(program: string, ws: seq<Spaced>, gap: string, opener: string, text: string, e: Refusal)
    requires Bareword(program) && AllWellSpelled(ws) && Spaces(gap) && gap != "" && Unclosed(opener, text, e)
    ensures Tokenize(program + SpelledAll(ws) + gap + (opener + text)) == Err(e)
  {
    UnclosedOpens(opener, text, e);
    BadWordRefused(program, ws, gap, opener + text, e);
  }

  /** A substitution with a parenthesis inside refuses the line, whatever follows. */
  lemma NestedRefused(program: string, ws: seq<Spaced>, gap: string, front: string, rest: string)
    requires Bareword(program) && AllWellSpelled(ws) && Spaces(gap) && gap != ""
    requires front != "" && '(' !in front && ')' !in front
    ensures Tokenize(program + SpelledAll(ws) + gap + ("$(" + (front + ("(" + rest)))) == Err(NestedSubstitution)
  {
    NestedOpens(front, rest);
    BadWordRefused(program, ws, gap, "$(" + (front + ("(" + rest)), NestedSubstitution);
  }

  /** A line that does not tokenize, and is no assignment and no pipeline, is refused for the same reason. */
  lemma RefusedLine(line: string, e: Refusal)
    requires Tokenize(line) == Err(e) && FirstWord(line) != "&" && !IsAssignment(line) && Unpiped(line)
    ensures FlatLine(line) == Err(e)
  {
    hide Tokenize, FirstWord, IsAssignment, Unpiped;
    UnpipedAgrees(line);
  }

  // ---- pipelines ----

  function Present(cs: seq<Option<Stmt>>): seq<Stmt> {
    if cs == [] then [] else (if cs[0].Some? then [cs[0].value] else []) + Present(cs[1..])
  }

  /** What each text between the bars says, a comment saying nothing. */
  predicate StagesAre(texts: seq<string>, cs: seq<Option<Stmt>>) {
    |texts| == |cs| && forall k :: 0 <= k < |texts| ==> Trim(texts[k]) != "" && Command(Trim(texts[k])) == Ok(cs[k])
  }

  lemma {:induction false} StagesSay(texts: seq<string>, cs: seq<Option<Stmt>>, more: seq<string>)
    requires StagesAre(texts, cs)
    ensures Stages(texts + more) == After(Present(cs), Stages(more))
  {
    hide Trim, Command;
    if texts == [] {
      assert texts + more == more;
      AfterNothing(Stages(more));
    } else {
      assert (texts + more)[1..] == texts[1..] + more;
      StagesSay(texts[1..], cs[1..], more);
      AfterAfter(if cs[0].Some? then [cs[0].value] else [], Present(cs[1..]), Stages(more));
    }
  }

  /** A line with a bar that stands alone, of which no earlier rule speaks, is cut at every bar. */
  lemma PipelineSays(texts: seq<string>, cs: seq<Option<Stmt>>, more: seq<string>)
    requires StagesAre(texts, cs) && texts + more != [] && forall t :: t in texts + more ==> '|' !in t
    requires var line := Join("|", texts + more);
      !HasHereDoc(line) && FirstWord(line) != "&" && !IsAssignment(line) && !Unpiped(line)
    ensures var r := FlatLine(Join("|", texts + more));
      && (more == [] ==> r == if |Present(cs)| < 2 then Err(TooFewStages) else Ok(Some(Pipeline(Present(cs)))))
      && (more != [] && Spaces(more[0]) ==> r == Err(EmptyStage))
  {
    hide Trim, Command, HasHereDoc, FirstWord, IsAssignment, Unpiped, Split, Join, StagesAre, HasLonePipe;
    var all := texts + more;
    forall k | 0 <= k < |all| ensures Without(all[k], {'|'}) {
      assert all[k] in all;
    }
    SplitJoined('|', all);
    UnpipedAgrees(Join("|", all));
    StagesSay(texts, cs, more);
    if more != [] {
      SpacesAreBlank(more[0]);
      if Spaces(more[0]) {
        TrimOfBlank(more[0]);
      }
    } else {
      assert Present(cs) + [] == Present(cs);
    }
  }

  // ---- substitutions that say nothing ----

  /** Blanks alone, a comment alone, or a word that is no program. */
  lemma EmptySubstitutions(blanks: string, comment: string)
    requires Spaces(blanks) && comment != "" && comment[0] == '#'
    ensures LowerRawToken(CommandSubst(blanks)) == Err(EmptySubstitution)
    ensures LowerRawToken(CommandSubst(blanks + comment)) == Err(SubstitutionWithoutTokens)
  {
    hide TokenizeFrom, LowerTokens, Spaces, TrimEnd;
    SpacesAreBlank(blanks);
    TrimOfBlank(blanks);
    TrimAfterBlank(blanks, comment);
    assert TrimStart(comment) == comment;
    var t := TrimEnd(comment);
    CommentStays(comment);
    CommentRead(t);
  }

  lemma CommentStays(comment: string)
    requires comment != "" && comment[0] == '#'
    ensures TrimEnd(comment) != "" && TrimEnd(comment)[0] == '#'
  {
    hide TrimEnd;
    TrimEndShape(comment);
    var t := TrimEnd(comment);
    assert t == "" ==> comment[|t|..] == comment;
    assert Blank(comment) ==> IsWhitespace(comment[0]);
  }

  /** The substitution of a line that starts with a quote or a substitution has no program. */
  lemma DelimitedProgram(w: Word, ws: seq<Spaced>)
    requires WellSpelled(w) && !IsBare(w) && !w.Sum? && AllWellSpelled(ws)
    ensures LowerRawToken(CommandSubst(Spelled(w) + SpelledAll(ws))) == Err(QuotedProgram)
  {
    hide WellSpelled, AllWellSpelled, Spelled, Tokenize, LowerTokens, Trim;
    var text := Spelled(w) + SpelledAll(ws);
    WordEnds(w);
    if ws != [] {
      WordsEnd(ws);
    }
    TrimOfTrimmed(text);
    WordsTokens(w, ws, "", "");
    assert Spelled(w) + SpelledAll(ws) + "" + "" == text;
  }

  // ---- a source of one line ----

  lemma OneLineWalk(line: string)
    requires line != "" && line[0] != '#' && !HasReserved(line)
    ensures Walk([line], 0) == (match FlatLine(line) case Err(e) => Err(e) case Ok(stmt) => Ok(AsList(stmt)))
  {
    hide FlatLine, FirstKeyword, ControlFlowKeyword, BlockAt, CaseAt;
    KeywordExactly(line);
    FlatHasNoFirstKeyword(line);
    assert Walk([line], 1) == Ok([]);
    if FlatLine(line).Ok? {
      assert AsList(FlatLine(line).value) + [] == AsList(FlatLine(line).value);
    }
  }

  /** One line without a reserved word, blanks around it, is what the flat line says. */
  lemma OneLineSource(before: string, line: string, behind: string)
    requires Spaces(before) && Spaces(behind) && '\n' !in before + line + behind
    requires Trimmed(line) && line[0] != '#' && !HasReserved(line)
    ensures ScriptOf(before + line + behind) ==
      match FlatLine(line) case Err(e) => Err(e) case Ok(stmt) => Ok(AsList(stmt))
  {
    hide FlatLine, Splice, Trim, Lines, HasReserved;
    var source := before + line + behind;
    SpliceLastLine(source);
    FlatScripts.LoneTextLines(source);
    SpacesAreBlank(before);
    SpacesAreBlank(behind);
    TrimPadded(before, line, behind);
    OneLineWalk(line);
  }

  /** A source of one command line says its program and its words. */
  lemma CommandSource(before: string, program: string, ws: seq<Spaced>, behind: string)
    requires Spaces(before) && Spaces(behind) && '\n' !in before + (program + SpelledAll(ws)) + behind
    requires Bareword(program) && program != "&" && Unassigned(program) && AllWellSpelled(ws)
    requires !HasReserved(program + SpelledAll(ws)) && Unpiped(program + SpelledAll(ws))
    ensures ScriptOf(before + (program + SpelledAll(ws)) + behind) ==
      if Shifts(program) || ShiftsAmong(ws) then Err(HereDocument) else Ok([Cmd(program, SaidAll(ws))])
  {
    hide FlatLine, HasReserved, Unpiped, AllWellSpelled, Bareword, Unassigned, Shifts, ShiftsAmong, ScriptOf;
    var line := program + SpelledAll(ws);
    assert program + SpelledAll(ws) + "" + "" == line;
    LineSays(program, ws, "", "");
    CommandTrimmed(program, ws);
    BarewordIsPlain(program);
    assert line[0] == program[0];
    OneLineSource(before, line, behind);
  }

  /** A source of one assignment says its name and its word. */
  lemma AssignmentSource(before: string, name: string, w: Word, behind: string)
    requires Spaces(before) && Spaces(behind) && '\n' !in before + (name + "=" + Spelled(w)) + behind
    requires IsName(name) && WellSpelled(w) && !HasReserved(name + "=" + Spelled(w))
    ensures ScriptOf(before + (name + "=" + Spelled(w)) + behind) ==
      if w.Plain? && Shifts(w.text) then Err(HereDocument) else Ok([ShellAssign(name, Said(w))])
  {
    hide FlatLine, HasReserved, WellSpelled, Spelled, Shifts, ScriptOf, IsName;
    var line := name + "=" + Spelled(w);
    AssignmentSays(name, w, [], "", "");
    assert name + "=" + (Spelled(w) + SpelledAll([]) + "" + "") == line;
    WordEnds(w);
    NameBare(name);
    assert line[0] == (name + "=")[0];
    SpaceEnds(name);
    OneLineSource(before, line, behind);
  }

  lemma SpaceEnds(name: string)
    requires IsName(name)
    ensures !IsWhitespace(name[0]) && name[0] != '#'
  {
  }
}
