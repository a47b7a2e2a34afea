/** The print of an accepted flat line without the backslash it ends in is never read as the same statement. */
module Truncations {
  import opened Outcomes
  import opened Text
  import opened ShellAst
  import opened Tokenizer
  import opened TokenText
  import opened FlatLines
  import opened Printer
  import opened FlatRoundTrip
  import opened Machines
  import opened Reprints
  import opened Lowerings
  import opened Misreadings
  import opened FlatReturns

  predicate EndsInBackslash(s: string) {
    s != "" && s[|s| - 1] == '\\'
  }

  function Short(s: string): string
    requires s != ""
  {
    s[..|s| - 1]
  }

  // ---- texts ----

  /** Trimming does not reach into a visible front. */
  lemma FrontKept(front: string, rest: string) returns (other: string)
    requires Trimmed(front)
    ensures Trim(front + rest) == front + other && Trim(other) == Trim(rest)
    ensures forall c :: c in other ==> c in rest
  {
    hide TrimStart, TrimEnd;
    TrimEndShape(rest);
    other := TrimEnd(rest);
    var post := rest[|other|..];
    assert front + rest == "" + (front + other) + post;
    if other == "" {
      assert front + other == front;
    }
    TrimPadded("", front + other, post);
    TrimEndTrimmed(rest);
  }

  lemma TrimEndTrimmed(s: string)
    ensures Trim(TrimEnd(s)) == Trim(s)
  {
    TrimEndShape(s);
    var t, post := TrimEnd(s), s[|TrimEnd(s)|..];
    TrimStartShape(t);
    var pre := t[..|t| - |TrimStart(t)|];
    TrimKeeps(t, post);
  }

  lemma TrimKeeps(s: string, post: string)
    requires Blank(post)
    ensures Trim(s + post) == Trim(s)
  {
    TrimStartShape(s);
    var pre, t := s[..|s| - |TrimStart(s)|], TrimStart(s);
    Associative(pre, t, post);
    TrimStartBlank(pre, t + post);
    if t == "" {
      assert t + post == post;
      TrimStartBlank(post, "");
      assert post + "" == post;
    } else {
      assert TrimStart(t + post) == t + post;
      TrimEndBlank(t, post);
    }
  }

  lemma PlainShort(u: string)
    requires PlainBare(u) && u[|u| - 1] == '\\'
    ensures Short(u) == "" || (PlainBare(Short(u)) && Trimmed(Short(u)))
    ensures Trim(Short(u)) == Short(u)
  {
    var v := Short(u);
    forall i | 0 <= i < |v| ensures BareChar(v[i]) && !(v[i] == '$' && i + 1 < |v| && v[i + 1] == '(') {
      assert v[i] == u[i];
      assert i + 1 < |v| ==> v[i + 1] == u[i + 1];
    }
    if v != "" {
      TrimOfTrimmed(v);
    }
  }

  lemma ShortLowered(u: string)
    requires u != ""
    ensures LowerToken(Short(u)) != LitStr(u)
  {
  }

  // ---- the token a printed text ends in ----

  /** Only a plain bareword ends in a backslash, and it is printed as it was read. */
  lemma BackslashToken(ts: seq<RawToken>, i: nat, c: RawToken)
    requires i < |ts| && Produced(ts, i) && PrintedAs(ts[i], c) && EndsInBackslash(PrintToken(c))
    ensures c == ts[i] && c.Bare? && PlainBare(c.text)
  {
    hide OpenBare, PlainBare, CmdText, TokenizeFrom, LowerTokens, Trim;
    var t := ts[i];
    if t.Bare? {
      OnlyNamesChange(t.text);
      ProducedEnd(ts, i);
      NameEndsOtherwise(t.text);
    }
  }

  lemma NameEndsOtherwise(tok: string)
    ensures LowerToken(tok).ShellVar? ==> !EndsInBackslash(ArgText(LowerToken(tok)))
  {
    var e := LowerToken(tok);
    if e.ShellVar? {
      var text := ArgText(e);
      assert text[|text| - 1] == e.name[|e.name| - 1];
    }
  }

  lemma ProducedEnd(ts: seq<RawToken>, i: nat)
    requires i < |ts| && Produced(ts, i) && ts[i].Bare?
    ensures EndsInBackslash(ts[i].text) ==> PlainBare(ts[i].text)
  {
    hide PlainBare, ClosesAtEnd, ArithmeticLength;
    var s := ts[i].text;
    if !PlainBare(s) {
      assert s[|s| - 2..][1] == ')';
    }
  }

  lemma ReadableFront(ts: seq<RawToken>, u: RawToken)
    requires ReadableLine(ts + [u])
    ensures WellFormedTokens(ts)
  {
    if ts != [] {
      assert (ts + [u])[1..] == ts[1..] + [u];
      ReadableFront(ts[1..], u);
    }
  }

  lemma LastPrinted(cs: seq<RawToken>)
    requires cs != []
    ensures var last := cs[|cs| - 1]; var front := cs[..|cs| - 1];
      LineText(cs) == if front == [] then PrintToken(last) else LineText(front) + " " + PrintToken(last)
  {
    hide PrintToken;
    var last := cs[|cs| - 1];
    var front := cs[..|cs| - 1];
    LoneLine([last]);
    assert cs == front + [last];
    if front != [] {
      LineTextAppend(front, [last]);
    }
  }

  // ---- commands ----

  lemma TruncatedCommand(text: string, s: Stmt)
    requires Command(text) == Ok(Some(s)) && EndsInBackslash(CmdText(s.program, s.args))
    ensures Command(Trim(Short(CmdText(s.program, s.args)))) != Ok(Some(s))
  {
    hide TokenizeFrom, LowerTokens, PrintedAs, CmdText, WellFormedToken, OpenBare, LineText, Command, Trim, ParenFree,
         WellFormedCommand;
    CommandShape(text, s);
    if AllParenFree(s.args) {
      TruncatedPlain(text, s);
    } else {
      var front, rest := CommandNotBack(text, s);
      var printed := CmdText(s.program, s.args);
      assert rest != "" by {
        assert front + "" == front;
      }
      assert Short(printed) == front + Short(rest);
      var other := FrontKept(front, Short(rest));
    }
  }

  lemma TruncatedPlain(text: string, s: Stmt)
    requires Command(text) == Ok(Some(s)) && EndsInBackslash(CmdText(s.program, s.args)) && AllParenFree(s.args)
    ensures Command(Trim(Short(CmdText(s.program, s.args)))) != Ok(Some(s))
  {
    hide TokenizeFrom, LowerTokens, PrintedAs, CmdText, WellFormedToken, OpenBare, LineText, Trim, ParenFree,
         WellFormedCommand, ReadableLine, LowerToken, PlainBare, PrintToken;
    CommandShape(text, s);
    CommandExactly(text, s);
    CommandReads(s);
    var raw, cs := Tokenize(text).value, CmdTokens(s.program, s.args);
    var n := |cs| - 1;
    LastPrinted(cs);
    var last := cs[n];
    assert Produced(raw, n) && PrintedAs(raw[n], last);
    LastVisible(cs, raw);
    BackslashToken(raw, n, last);
    var u := last.text;
    BarePrinted(u);
    PlainShort(u);
    assert cs == cs[..n] + [last];
    ReadableFront(cs[..n], last);
    var printed := CmdText(s.program, s.args);
    var front := cs[..n];
    LoweredLength(raw[1..]);
    if front == [] {
      assert Short(printed) == Short(u);
      ShortProgram(u);
    } else {
      assert Short(printed) == LineText(front) + " " + Short(u);
      LastLowered(raw, s.args, u);
      FrontNotShort(s, front, u);
    }
  }

  lemma LastLowered(raw: seq<RawToken>, args: seq<Expr>, u: string)
    requires |raw| > 1 && LowerTokens(raw[1..]) == Ok(args) && raw[|raw| - 1] == Bare(u)
    ensures |args| == |raw| - 1 && args[|args| - 1] == LowerToken(u)
  {
    hide LowerToken, LowerTokens;
    LoweredLength(raw[1..]);
    LoweredAt(raw[1..], |raw| - 2);
    assert raw[1..][|raw| - 2] == Bare(u);
  }

  lemma FrontNotShort(s: Stmt, front: seq<RawToken>, u: string)
    requires s.Cmd? && front != [] && WellFormedTokens(front) && |front| == |s.args|
    requires EndsInBackslash(u) && PlainBare(u) && s.args[|s.args| - 1] == LowerToken(u)
    ensures Command(Trim(LineText(front) + " " + Short(u))) != Ok(Some(s))
  {
    hide TokenizeFrom, LowerTokens, Trim, LineText, LowerToken, PlainBare, WellFormedToken, Command;
    ShortLine(front, u);
    LongerNotShort(s, front, u);
  }

  lemma LastVisible(cs: seq<RawToken>, raw: seq<RawToken>)
    requires cs != [] && AllProduced(raw) && AllPrintedAs(raw, cs) && EndsInBackslash(LineText(cs))
    ensures EndsInBackslash(PrintToken(cs[|cs| - 1]))
  {
    hide PrintedAs, PrintToken, WellFormedToken, OpenBare;
    var n := |cs| - 1;
    LastPrinted(cs);
    assert Produced(raw, n) && PrintedAs(raw[n], cs[n]);
    PrintedTrimmed(raw, n, cs[n]);
  }

  lemma BarePrinted(u: string)
    ensures PrintToken(Bare(u)) == u
  {
  }

  lemma ShortProgram(u: string)
    requires u != "" && PlainBare(u) && u[|u| - 1] == '\\'
    ensures Command(Trim(Short(u))) != Ok(Some(Cmd(u, [])))
  {
    hide TokenizeFrom, Trim, PlainBare;
    PlainShort(u);
    if Short(u) == "" {
      assert Tokenize("") == Ok([]) by { NoTokens(); }
    } else {
      SinglePlainToken(Short(u));
    }
  }

  lemma NoTokens()
    ensures Tokenize("") == Ok([])
  {
  }

  /** Well-formed tokens and what is left of the last bareword. */
  lemma ShortLine(front: seq<RawToken>, u: string)
    requires front != [] && WellFormedTokens(front) && u != "" && PlainBare(u) && u[|u| - 1] == '\\'
    ensures var text := Trim(LineText(front) + " " + Short(u));
      Tokenize(text) == Ok(if Short(u) == "" then front else front + [Bare(Short(u))])
  {
    hide WellFormedToken, TokenizeFrom, Trim, PrintToken, PlainBare, LineText;
    PlainShort(u);
    LineTextTrimmed(front);
    var v := Short(u);
    if v == "" {
      assert LineText(front) + " " + v == "" + LineText(front) + " ";
      TrimPadded("", LineText(front), " ");
      TokensReadBack(front);
    } else {
      var ts := front + [Bare(v)];
      PlainIsToken(v);
      LineTextAppend(front, [Bare(v)]);
      LoneLine([Bare(v)]);
      BarePrinted(v);
      TokensReadBack(ts);
      LineTextTrimmed(ts);
      TrimOfTrimmed(LineText(ts));
    }
  }

  lemma PlainIsToken(v: string)
    requires PlainBare(v)
    ensures WellFormedToken(Bare(v))
  {
  }

  /** The shorter text has fewer arguments, or another last one. */
  lemma LongerNotShort(s: Stmt, front: seq<RawToken>, u: string)
    requires s.Cmd? && front != [] && |front| == |s.args| && u != ""
    requires var text := Trim(LineText(front) + " " + Short(u));
      Tokenize(text) == Ok(if Short(u) == "" then front else front + [Bare(Short(u))])
    requires Short(u) != "" ==> s.args[|s.args| - 1] == LowerToken(u) && (EndsInBackslash(u) && PlainBare(u))
    ensures Command(Trim(LineText(front) + " " + Short(u))) != Ok(Some(s))
  {
    hide TokenizeFrom, LowerTokens, Trim, LineText, LowerToken, PlainBare;
    var text := Trim(LineText(front) + " " + Short(u));
    if Command(text) == Ok(Some(s)) {
      var raw := Tokenize(text).value;
      LoweredLength(raw[1..]);
      if Short(u) != "" {
        var n := |front|;
        LoweredAt(raw[1..], n - 1);
        assert raw[1..][n - 1] == raw[n] == Bare(Short(u));
        assert LowerRawToken(Bare(Short(u))) == Ok(LowerToken(Short(u)));
        BackslashIsLiteral(u);
        ShortLowered(u);
      }
    }
  }

  /** A bareword that ends in a backslash names no parameter. */
  lemma BackslashIsLiteral(u: string)
    requires EndsInBackslash(u)
    ensures LowerToken(u) == LitStr(u)
  {
    var e := LowerToken(u);
    assert |u| >= 2 ==> u[1..][|u| - 2] == u[|u| - 1] && u[1..][0] == u[1];
  }

  // ---- pipelines ----

  lemma {:induction false} PieceCount(a: string, b: string, seps: set<char>)
    requires Without(b, seps)
    ensures |Split(a + b, seps)| == |Split(a, seps)|
    decreases |a|
  {
    if a == "" {
      assert a + b == b;
      SplitUnbroken(b, seps);
    } else {
      assert (a + b)[1..] == a[1..] + b;
      PieceCount(a[1..], b, seps);
    }
  }

  lemma TruncatedPipeline(line: string, s: Stmt)
    requires LineOf(line, s) && s.Pipeline? && EndsInBackslash(StmtText(s))
    ensures FlatLine(Trim(Short(StmtText(s)))) != Ok(Some(s))
  {
    hide Run, CmdText, Command, Split, Trim, Stages, FlatLine, ControlFlowKeyword, Join, StageTexts, StageOf;
    PipelinePrints(line, s);
    TakenBranch(line, s);
    StageTextsOf(s.stages);
    var texts := StageTexts(s.stages);
    var n := |texts| - 1;
    var last := texts[n];
    assert texts == texts[..n] + [last];
    JoinAppend(" | ", texts[..n], [last]);
    LoneJoin(last);
    var front := Join(" | ", texts[..n]) + " |";
    var rest := " " + last;
    assert StmtText(s) == front + rest && Short(StmtText(s)) == front + Short(rest);
    JoinTrimmed(texts[..n]);
    var other := FrontKept(front, Short(rest));
    var short := front + other;
    if FlatLine(short) == Ok(Some(s)) {
      TakenBranch(short, s);
      LastPieceShort(texts[..n], other, s.stages);
      assert StageOf(s.stages[n]);
      ShortStage(s.stages, last, other);
    }
  }

  lemma LoneJoin(text: string)
    ensures Join(" | ", [text]) == text
  {
  }

  /** Cut at its pipe signs, the shorter line ends in the shorter stage. */
  lemma LastPieceShort(texts: seq<string>, other: string, stages: seq<Stmt>)
    requires texts != [] && forall k :: 0 <= k < |texts| ==> Trimmed(texts[k]) && Without(texts[k], PIPE)
    requires '|' !in other && |stages| == |texts| + 1
    requires Stages(Split(Join(" | ", texts) + " |" + other, PIPE)) == Ok(stages)
    ensures Command(Trim(other)) == Ok(Some(stages[|texts|]))
  {
    hide Split, Trim, Command, Stages, Join;
    var joined := Join(" | ", texts);
    PiecesOfJoin("", texts);
    assert "" + joined == joined;
    PieceCount(joined, " ", PIPE);
    assert joined + " |" + other == joined + " " + ['|'] + other;
    SplitAtSeparator(joined + " ", '|', other, PIPE);
    SplitUnbroken(other, PIPE);
    var pieces := Split(joined + " ", PIPE) + [other];
    StagesFull(pieces);
    assert pieces[|texts|] == other;
  }

  lemma ShortStage(stages: seq<Stmt>, last: string, other: string)
    requires stages != [] && StageOf(stages[|stages| - 1])
    requires last == StageTexts(stages)[|stages| - 1] && EndsInBackslash(last)
    requires Trim(other) == Trim(Short(" " + last))
    ensures Command(Trim(other)) != Ok(Some(stages[|stages| - 1]))
  {
    hide Run, CmdText, Command, Trim, StageTexts;
    var s := stages[|stages| - 1];
    StageTextAt(stages, |stages| - 1);
    var text :| Command(text) == Ok(Some(s));
    TruncatedCommand(text, s);
    assert Short(" " + last) == " " + Short(last);
    TrimAfterBlank(" ", Short(last));
  }

  // ---- assignments ----

  lemma TruncatedAssignment(line: string, s: Stmt)
    requires LineOf(line, s) && s.ShellAssign? && EndsInBackslash(StmtText(s))
    ensures FlatLine(Trim(Short(StmtText(s)))) != Ok(Some(s))
  {
    hide TokenizeFrom, LowerRawToken, IsPosixIdentifier, FlatLine, ControlFlowKeyword, ArgText, Trim, ArgToken,
         PrintToken, PlainBare, WellFormedToken, OpenBare, PrintedAs;
    var text, ts := AssignmentParts(line, s);
    ValuePrinted(line, s, text, ts);
    var name := s.target + "=";
    assert StmtText(s) == name + ArgText(s.value);
    assert name + "" == name;
    if ts != [] {
      BackslashToken(ts, 0, ArgToken(s.value));
      var u := ArgToken(s.value).text;
      BarePrinted(u);
      assert ArgText(s.value) == u;
      ValueIsLiteral(s.value, ts[0], u);
      PlainShort(u);
      assert Short(StmtText(s)) == name + Short(u);
      NameTrimmed(s.target);
      var other := FrontKept(name, Short(u));
      SolidShort(name, u);
      ShortValue(s, u);
    }
  }

  lemma NameTrimmed(target: string)
    requires IsPosixIdentifier(target)
    ensures Trimmed(target + "=")
  {
  }

  lemma ValueIsLiteral(e: Expr, t: RawToken, u: string)
    requires LowerRawToken(t) == Ok(e) && t == Bare(u) && EndsInBackslash(u)
    ensures e == LitStr(u)
  {
    BackslashIsLiteral(u);
  }

  lemma SolidShort(name: string, u: string)
    requires Trimmed(name) && u != "" && PlainBare(u) && u[|u| - 1] == '\\'
    ensures Trim(name + Short(u)) == name + Short(u)
  {
    hide PlainBare;
    PlainShort(u);
    if Short(u) == "" {
      assert name + Short(u) == name;
    }
    TrimOfTrimmed(name + Short(u));
  }

  lemma ShortValue(s: Stmt, u: string)
    requires s.ShellAssign? && s.value == LitStr(u) && u != "" && PlainBare(u) && u[|u| - 1] == '\\'
    ensures FlatLine(s.target + "=" + Short(u)) != Ok(Some(s))
  {
    hide TokenizeFrom, IsPosixIdentifier, FlatLine, PlainBare, LowerToken;
    var name := s.target + "=";
    PlainShort(u);
    ShortLowered(u);
    ShortTokens(u);
    var v := Short(u);
    if FlatLine(name + v) == Ok(Some(s)) {
      var text, ts := AssignmentParts(name + v, s);
      SameBehind(name, text, v);
    }
  }

  lemma SameBehind(name: string, a: string, b: string)
    ensures name + a == name + b <==> a == b
  {
    assert (name + a)[|name|..] == a && (name + b)[|name|..] == b;
  }

  lemma ShortTokens(u: string)
    requires u != "" && (Short(u) == "" || PlainBare(Short(u)))
    ensures Tokenize(Short(u)) == Ok(if Short(u) == "" then [] else [Bare(Short(u))])
    ensures LowerRawToken(Bare(Short(u))) == Ok(LowerToken(Short(u)))
  {
    hide PlainBare, LowerToken;
    NoTokens();
    if Short(u) != "" {
      SinglePlainToken(Short(u));
    }
  }

  // ---- every flat statement ----

  lemma TruncatedLine(line: string, s: Stmt)
    requires LineOf(line, s) && EndsInBackslash(StmtText(s))
    ensures FlatLine(Trim(Short(StmtText(s)))) != Ok(Some(s))
  {
    hide FlatLine, ControlFlowKeyword, StmtText, Trim, Command, CmdText;
    TakenBranch(line, s);
    if s.Cmd? {
      PrintOfCommand(s);
      TruncatedCommand(line, s);
      if FlatLine(Trim(Short(StmtText(s)))) == Ok(Some(s)) {
        TakenBranch(Trim(Short(StmtText(s))), s);
      }
    } else if s.Pipeline? {
      TruncatedPipeline(line, s);
    } else {
      TruncatedAssignment(line, s);
    }
  }

  lemma PrintOfCommand(s: Stmt)
    requires s.Cmd?
    ensures StmtText(s) == CmdText(s.program, s.args)
  {
  }
}
