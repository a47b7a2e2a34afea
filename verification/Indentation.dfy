/** The lines of a printed statement with their tabs, at every depth of nesting. */
module Indentation {
  import opened Outcomes
  import opened Text
  import opened ShellAst
  import opened Printer

  function Tabs(depth: nat): string {
    if depth == 0 then "" else "\t" + Tabs(depth - 1)
  }

  // ---- the lines ----

  function Indented(s: Stmt, depth: nat): seq<string>
    decreases s
  {
    match s
    case ShellLoop(kind, body) =>
      [Tabs(depth) + (HeaderText(kind) + "; do")] + IndentedBody(body, depth + 1) + [Tabs(depth) + "done"]
    case ShellIf(cond, thenBody, elseBody) =>
      [Tabs(depth) + ("if " + ArgText(cond) + "; then")] + IndentedBody(thenBody, depth + 1)
      + IndentedElse(elseBody, depth) + [Tabs(depth) + "fi"]
    case ShellCase(word, arms) =>
      [Tabs(depth) + ("case " + ArgText(word) + " in")] + IndentedArms(arms, depth) + [Tabs(depth) + "esac"]
    case _ => [Tabs(depth) + StmtText(s)]
  }

  function IndentedAll(body: seq<Stmt>, depth: nat): seq<string>
    decreases body, 0
  {
    if body == [] then [] else Indented(body[0], depth) + IndentedAll(body[1..], depth)
  }

  function IndentedBody(body: seq<Stmt>, depth: nat): seq<string>
    decreases body, 1
  {
    if body == [] then [Tabs(depth) + ":"] else IndentedAll(body, depth)
  }

  function IndentedElse(elseBody: seq<Stmt>, depth: nat): seq<string>
    decreases elseBody, 1
  {
    if elseBody == [] then []
    else if |elseBody| == 1 && elseBody[0].ShellIf? then
      [Tabs(depth) + ("elif " + ArgText(elseBody[0].condition) + "; then")]
      + IndentedBody(elseBody[0].thenBody, depth + 1) + IndentedElse(elseBody[0].elseBody, depth)
    else [Tabs(depth) + "else"] + IndentedAll(elseBody, depth + 1)
  }

  function IndentedArms(arms: seq<CaseArm>, depth: nat): seq<string>
    decreases arms
  {
    if arms == [] then []
    else
      [Tabs(depth + 1) + (Join("|", arms[0].patterns) + ")")] + IndentedAll(arms[0].body, depth + 2)
      + [Tabs(depth + 2) + ";;"] + IndentedArms(arms[1..], depth)
  }

  // ---- statements whose own texts hold no newline ----

  predicate OneLiner(s: Stmt)
    decreases s
  {
    match s
    case ShellLoop(kind, body) => '\n' !in HeaderText(kind) && OneLiners(body)
    case ShellIf(cond, thenBody, elseBody) => '\n' !in ArgText(cond) && OneLiners(thenBody) && OneLiners(elseBody)
    case ShellCase(word, arms) => '\n' !in ArgText(word) && OneLinerArms(arms)
    case _ => '\n' !in StmtText(s)
  }

  predicate OneLiners(body: seq<Stmt>)
    decreases body
  {
    body == [] || (OneLiner(body[0]) && OneLiners(body[1..]))
  }

  predicate OneLinerArms(arms: seq<CaseArm>)
    decreases arms
  {
    arms == [] || ('\n' !in Join("|", arms[0].patterns) && OneLiners(arms[0].body) && OneLinerArms(arms[1..]))
  }

  // ---- one level deeper ----

  lemma PrefixedAppend(prefix: string, a: seq<string>, b: seq<string>)
    ensures Prefixed(prefix, a + b) == Prefixed(prefix, a) + Prefixed(prefix, b)
  {
  }

  lemma PrefixedOne(line: string, depth: nat)
    ensures Prefixed("\t", [Tabs(depth) + line]) == [Tabs(depth + 1) + line]
  {
    Associative("\t", Tabs(depth), line);
  }

  lemma {:induction false} Deeper(s: Stmt, depth: nat)
    ensures Prefixed("\t", Indented(s, depth)) == Indented(s, depth + 1)
    decreases s
  {
    hide Tabs, IndentedBody, IndentedElse, IndentedArms, StmtText, Prefixed, Join;
    match s {
      case ShellLoop(kind, body) =>
        PrefixedOne(HeaderText(kind) + "; do", depth);
        PrefixedOne("done", depth);
        DeeperBody(body, depth + 1);
        PrefixedAppend("\t", [Tabs(depth) + (HeaderText(kind) + "; do")], IndentedBody(body, depth + 1));
        PrefixedAppend("\t", [Tabs(depth) + (HeaderText(kind) + "; do")] + IndentedBody(body, depth + 1),
                       [Tabs(depth) + "done"]);
      case ShellIf(cond, thenBody, elseBody) =>
        var head := "if " + ArgText(cond) + "; then";
        PrefixedOne(head, depth);
        PrefixedOne("fi", depth);
        DeeperBody(thenBody, depth + 1);
        DeeperElse(elseBody, depth);
        PrefixedAppend("\t", [Tabs(depth) + head], IndentedBody(thenBody, depth + 1));
        PrefixedAppend("\t", [Tabs(depth) + head] + IndentedBody(thenBody, depth + 1), IndentedElse(elseBody, depth));
        PrefixedAppend("\t", [Tabs(depth) + head] + IndentedBody(thenBody, depth + 1) + IndentedElse(elseBody, depth),
                       [Tabs(depth) + "fi"]);
      case ShellCase(word, arms) =>
        var head := "case " + ArgText(word) + " in";
        PrefixedOne(head, depth);
        PrefixedOne("esac", depth);
        DeeperArms(arms, depth);
        PrefixedAppend("\t", [Tabs(depth) + head], IndentedArms(arms, depth));
        PrefixedAppend("\t", [Tabs(depth) + head] + IndentedArms(arms, depth), [Tabs(depth) + "esac"]);
      case _ => PrefixedOne(StmtText(s), depth);
    }
  }

  lemma {:induction false} DeeperAll(body: seq<Stmt>, depth: nat)
    ensures Prefixed("\t", IndentedAll(body, depth)) == IndentedAll(body, depth + 1)
    decreases body, 0
  {
    hide Indented;
    if body != [] {
      Deeper(body[0], depth);
      DeeperAll(body[1..], depth);
      PrefixedAppend("\t", Indented(body[0], depth), IndentedAll(body[1..], depth));
    }
  }

  lemma {:induction false} DeeperBody(body: seq<Stmt>, depth: nat)
    ensures Prefixed("\t", IndentedBody(body, depth)) == IndentedBody(body, depth + 1)
    decreases body, 1
  {
    hide IndentedAll, Prefixed, Tabs;
    PrefixedOne(":", depth);
    DeeperAll(body, depth);
  }

  lemma {:induction false} DeeperElse(elseBody: seq<Stmt>, depth: nat)
    ensures Prefixed("\t", IndentedElse(elseBody, depth)) == IndentedElse(elseBody, depth + 1)
    decreases elseBody, 2
  {
    hide IndentedAll, IndentedBody, Prefixed, Tabs;
    if elseBody == [] {
      NothingPrefixed();
    } else if |elseBody| == 1 && elseBody[0].ShellIf? {
      var s := elseBody[0];
      var head := "elif " + ArgText(s.condition) + "; then";
      PrefixedOne(head, depth);
      DeeperBody(s.thenBody, depth + 1);
      DeeperElse(s.elseBody, depth);
      PrefixedAppend("\t", [Tabs(depth) + head], IndentedBody(s.thenBody, depth + 1));
      PrefixedAppend("\t", [Tabs(depth) + head] + IndentedBody(s.thenBody, depth + 1),
                     IndentedElse(s.elseBody, depth));
    } else {
      PrefixedOne("else", depth);
      DeeperAll(elseBody, depth + 1);
      PrefixedAppend("\t", [Tabs(depth) + "else"], IndentedAll(elseBody, depth + 1));
    }
  }

  lemma NothingPrefixed()
    ensures Prefixed("\t", []) == []
  {
  }

  lemma {:induction false} DeeperArms(arms: seq<CaseArm>, depth: nat)
    ensures Prefixed("\t", IndentedArms(arms, depth)) == IndentedArms(arms, depth + 1)
    decreases arms
  {
    hide IndentedAll, Prefixed, Tabs, Join;
    if arms == [] {
      NothingPrefixed();
    } else {
      var head := Join("|", arms[0].patterns) + ")";
      var a, b := [Tabs(depth + 1) + head], IndentedAll(arms[0].body, depth + 2);
      PrefixedOne(head, depth + 1);
      PrefixedOne(";;", depth + 2);
      DeeperAll(arms[0].body, depth + 2);
      DeeperArms(arms[1..], depth);
      PrefixedAppend("\t", a, b);
      PrefixedAppend("\t", a + b, [Tabs(depth + 2) + ";;"]);
      PrefixedAppend("\t", a + b + [Tabs(depth + 2) + ";;"], IndentedArms(arms[1..], depth));
    }
  }

  // ---- the text ----

  /** The text of these lines. */
  predicate IsText(text: string, lines: seq<string>) {
    Split(text, NEWLINE) == lines
  }

  lemma TextAppend(a: string, la: seq<string>, b: string, lb: seq<string>)
    requires IsText(a, la) && IsText(b, lb)
    ensures IsText(a + "\n" + b, la + lb)
  {
    SplitAtSeparator(a, '\n', b, NEWLINE);
    assert a + ['\n'] + b == a + "\n" + b;
  }

  lemma TextLine(line: string)
    requires '\n' !in line
    ensures IsText(line, [line]) && Tabs(0) + line == line
  {
    SplitUnbroken(line, NEWLINE);
  }

  lemma {:induction false} TextJoined(lines: seq<string>)
    requires lines != [] && forall l :: l in lines ==> '\n' !in l
    ensures IsText(Join("\n", lines), lines)
  {
    forall k | 0 <= k < |lines| ensures Without(lines[k], {'\n'}) {
      assert lines[k] in lines;
    }
    SplitJoined('\n', lines);
    assert NEWLINE == {'\n'};
  }

  lemma PiecesOneLine(text: string)
    ensures forall l :: l in Split(text, NEWLINE) ==> '\n' !in l
  {
    SplitPieces(text, NEWLINE);
  }

  lemma PrefixedOneLine(prefix: string, lines: seq<string>)
    requires '\n' !in prefix && forall l :: l in lines ==> '\n' !in l
    ensures forall l :: l in Prefixed(prefix, lines) ==> '\n' !in l
  {
    forall i | 0 <= i < |lines| ensures '\n' !in prefix + lines[i] {
      assert lines[i] in lines;
    }
  }

  lemma PrefixedTwice(a: string, b: string, lines: seq<string>)
    ensures Prefixed(a, Prefixed(b, lines)) == Prefixed(a + b, lines)
  {
    forall i | 0 <= i < |lines| ensures Prefixed(a, Prefixed(b, lines))[i] == Prefixed(a + b, lines)[i] {
      Associative(a, b, lines[i]);
    }
  }

  /** The body lines, as the printer makes them: one tab, or two for an arm. */
  lemma {:induction false} BodyIndented(body: seq<Stmt>, tabs: nat)
    requires OneLiners(body) && 1 <= tabs <= 2
    ensures BodyLines(Tabs(tabs), body) == IndentedAll(body, tabs)
    ensures forall l :: l in BodyLines(Tabs(tabs), body) ==> '\n' !in l
    decreases body, 0
  {
    hide StmtText, Indented, OneLiner, Prefixed, Tabs;
    if body != [] {
      StmtIndented(body[0]);
      BodyIndented(body[1..], tabs);
      var lines := Split(StmtText(body[0]), NEWLINE);
      PiecesOneLine(StmtText(body[0]));
      TabTexts();
      PrefixedOneLine(Tabs(tabs), lines);
      Deeper(body[0], 0);
      Deeper(body[0], 1);
      PrefixedTwice("\t", "\t", lines);
    }
  }

  lemma TabTexts()
    ensures Tabs(0) == "" && Tabs(1) == "\t" && Tabs(2) == "\t\t" && "\t" + "\t" == "\t\t"
    ensures '\n' !in Tabs(1) && '\n' !in Tabs(2)
  {
    assert Tabs(2) == "\t" + Tabs(1) && Tabs(1) == "\t" + Tabs(0);
  }

  lemma {:induction false} BodyTextIndented(body: seq<Stmt>)
    requires OneLiners(body)
    ensures IsText(BodyText(body), IndentedBody(body, 1))
    decreases body, 1
  {
    hide BodyLines, IndentedAll, Tabs, IsText, Join;
    TabTexts();
    BodyIndented(body, 1);
    NoBodyLines(body);
    assert "\t" + ":" == "\t:";
    var lines := BodyLines("\t", body);
    TextJoined(if lines == [] then ["\t:"] else lines);
  }

  lemma NoBodyLines(body: seq<Stmt>)
    ensures BodyLines("\t", body) == [] <==> body == []
  {
    hide StmtText;
  }

  lemma ClauseIndented(keyword: string, cond: Expr, body: seq<Stmt>)
    requires keyword in {"if", "elif"} && '\n' !in ArgText(cond) && OneLiners(body)
    ensures IsText(ClauseText(keyword, cond, body), [keyword + " " + ArgText(cond) + "; then"] + IndentedBody(body, 1))
    decreases body, 2
  {
    hide BodyText, IndentedBody, IsText;
    var head := keyword + " " + ArgText(cond) + "; then";
    BodyTextIndented(body);
    TextLine(head);
    TextAppend(head, [head], BodyText(body), IndentedBody(body, 1));
    assert keyword + " " + ArgText(cond) + "; then\n" == head + "\n";
  }

  /** What follows a text of these lines: the else chain and the closing word. */
  lemma {:induction false} ElseIndented(elseBody: seq<Stmt>, front: string, lines: seq<string>)
    requires OneLiners(elseBody) && IsText(front, lines)
    ensures IsText(front + ElseText(elseBody), lines + IndentedElse(elseBody, 0))
    decreases elseBody, 3
  {
    hide BodyText, IndentedBody, IsText, ClauseText, Tabs, IndentedAll, ElseText, IndentedElse;
    if elseBody == [] {
      NoElse(front, lines);
    } else if |elseBody| == 1 && elseBody[0].ShellIf? {
      var s := elseBody[0];
      var clause, head := ClauseText("elif", s.condition, s.thenBody), "elif " + ArgText(s.condition) + "; then";
      var more := [head] + IndentedBody(s.thenBody, 1);
      ElifIndented(s.condition, s.thenBody, head, front, lines);
      ElseIndented(s.elseBody, front + "\n" + clause, lines + more);
      ElifUnfolds(elseBody, front, lines, head);
    } else {
      LastElse(elseBody, front, lines);
    }
  }

  lemma NoElse(front: string, lines: seq<string>)
    ensures front + ElseText([]) == front && lines + IndentedElse([], 0) == lines
  {
  }

  lemma ElifUnfolds(elseBody: seq<Stmt>, front: string, lines: seq<string>, head: string)
    requires |elseBody| == 1 && elseBody[0].ShellIf? && head == "elif " + ArgText(elseBody[0].condition) + "; then"
    ensures var s := elseBody[0];
      && front + ElseText(elseBody)
         == front + "\n" + ClauseText("elif", s.condition, s.thenBody) + ElseText(s.elseBody)
      && lines + IndentedElse(elseBody, 0)
         == lines + ([head] + IndentedBody(s.thenBody, 1)) + IndentedElse(s.elseBody, 0)
  {
    hide BodyText, IndentedBody, ClauseText, IndentedAll;
    assert "" + head == head;
  }

  lemma LastElse(elseBody: seq<Stmt>, front: string, lines: seq<string>)
    requires elseBody != [] && !(|elseBody| == 1 && elseBody[0].ShellIf?) && OneLiners(elseBody) && IsText(front, lines)
    ensures IsText(front + ElseText(elseBody), lines + IndentedElse(elseBody, 0))
    decreases elseBody, 2
  {
    hide BodyText, IndentedBody, IsText, ElseText, IndentedElse;
    var word := "else";
    BodyTextIndented(elseBody);
    TextLine(word);
    TextAppend(front, lines, word, [word]);
    TextAppend(front + "\n" + word, lines + [word], BodyText(elseBody), IndentedBody(elseBody, 1));
    LastUnfolds(elseBody, front, lines, word);
  }

  lemma LastUnfolds(elseBody: seq<Stmt>, front: string, lines: seq<string>, word: string)
    requires elseBody != [] && !(|elseBody| == 1 && elseBody[0].ShellIf?) && word == "else"
    ensures front + ElseText(elseBody) == front + "\n" + word + "\n" + BodyText(elseBody)
    ensures lines + IndentedElse(elseBody, 0) == lines + [word] + IndentedBody(elseBody, 1)
  {
    hide BodyText, IndentedAll, ClauseText, Tabs, IndentedElse;
    WordBetween(front, word, BodyText(elseBody));
    LastLines(elseBody, lines, word);
  }

  lemma LastLines(elseBody: seq<Stmt>, lines: seq<string>, word: string)
    requires elseBody != [] && !(|elseBody| == 1 && elseBody[0].ShellIf?) && word == "else"
    ensures lines + IndentedElse(elseBody, 0) == lines + [word] + IndentedBody(elseBody, 1)
  {
    hide IndentedAll, Tabs;
    TabTexts();
    assert "" + word == word;
    FullBody(elseBody);
  }

  lemma WordBetween(front: string, word: string, text: string)
    requires word == "else"
    ensures front + ("\nelse\n" + text) == front + "\n" + word + "\n" + text
  {
    assert "\n" + word + "\n" == "\nelse\n";
  }

  lemma ElifIndented(cond: Expr, body: seq<Stmt>, head: string, front: string, lines: seq<string>)
    requires '\n' !in ArgText(cond) && OneLiners(body) && IsText(front, lines)
    requires head == "elif " + ArgText(cond) + "; then"
    ensures IsText(front + "\n" + ClauseText("elif", cond, body), lines + ([head] + IndentedBody(body, 1)))
    decreases body, 3
  {
    hide BodyText, IsText, ClauseText, IndentedAll;
    ClauseIndented("elif", cond, body);
    assert "elif" + " " + ArgText(cond) + "; then" == head;
    TextAppend(front, lines, ClauseText("elif", cond, body), [head] + IndentedBody(body, 1));
  }

  lemma FullBody(body: seq<Stmt>)
    requires body != []
    ensures IndentedBody(body, 1) == IndentedAll(body, 1)
  {
  }

  /** The lines of a list, each behind a newline. */
  lemma {:induction false} AppendedLines(front: string, before: seq<string>, lines: seq<string>)
    requires IsText(front, before) && forall l :: l in lines ==> '\n' !in l
    ensures IsText(front + Appended(lines), before + lines)
    decreases |lines|
  {
    hide IsText;
    if lines == [] {
      assert front + Appended(lines) == front && before + lines == before;
    } else {
      assert lines[0] in lines;
      TextLine(lines[0]);
      TextAppend(front, before, lines[0], [lines[0]]);
      AppendedLines(front + "\n" + lines[0], before + [lines[0]], lines[1..]);
      assert front + Appended(lines) == front + "\n" + lines[0] + Appended(lines[1..]);
      assert before + lines == before + [lines[0]] + lines[1..];
    }
  }

  lemma {:induction false} ArmsIndented(arms: seq<CaseArm>, front: string, lines: seq<string>)
    requires OneLinerArms(arms) && IsText(front, lines)
    ensures IsText(front + ArmsText(arms), lines + IndentedArms(arms, 0))
    decreases arms, 3
  {
    hide IsText, Tabs, BodyLines, IndentedAll, Join, OneLiners, Appended;
    TabTexts();
    if arms == [] {
      assert front + ArmsText(arms) == front && lines + IndentedArms(arms, 0) == lines;
    } else {
      var arm := arms[0];
      var head := "\t" + (Join("|", arm.patterns) + ")");
      var body := BodyLines("\t\t", arm.body);
      TextLine(head);
      TextLine("\t\t;;");
      assert "\t\t" + ";;" == "\t\t;;";
      BodyIndented(arm.body, 2);
      TextAppend(front, lines, head, [head]);
      var first := front + "\n" + head;
      AppendedLines(first, lines + [head], body);
      var second := first + Appended(body);
      TextAppend(second, lines + [head] + body, "\t\t;;", ["\t\t;;"]);
      var third := second + "\n" + "\t\t;;";
      var done := lines + [head] + body + ["\t\t;;"];
      ArmsIndented(arms[1..], third, done);
      ArmGrouped(front, arm, body, ArmsText(arms[1..]));
      assert lines + IndentedArms(arms, 0) == done + IndentedArms(arms[1..], 0);
    }
  }

  lemma ArmGrouped(front: string, arm: CaseArm, body: seq<string>, rest: string)
    requires body == BodyLines("\t\t", arm.body)
    ensures var head := "\t" + (Join("|", arm.patterns) + ")");
      front + (ArmText(arm) + rest) == front + "\n" + head + Appended(body) + "\n" + "\t\t;;" + rest
  {
    hide BodyLines, Join, Appended;
  }

  // ---- main result ----

  /**
   * A printed statement whose own texts hold no newline has exactly these lines: one tab for every body around a
   * line, two inside an arm.
   */
  lemma {:induction false} StmtIndented(s: Stmt)
    requires OneLiner(s)
    ensures Split(StmtText(s), NEWLINE) == Indented(s, 0)
    decreases s
  {
    hide IsText, Tabs, BodyText, ClauseText, ElseText, ArmsText, IndentedBody, IndentedElse, IndentedArms, HeaderText,
         OneLiners, OneLinerArms, Split;
    TabTexts();
    assert "\n" + "done" == "\ndone" && "\n" + "fi" == "\nfi" && "\n" + "esac" == "\nesac";
    match s {
      case ShellLoop(kind, body) =>
        var head := HeaderText(kind) + "; do";
        LoopIndented(kind, body);
        assert "" + head == head;
        Closing(HeaderText(kind) + "; do\n" + BodyText(body), [head] + IndentedBody(body, 1), "done");
      case ShellIf(cond, thenBody, elseBody) =>
        var head := "if " + ArgText(cond) + "; then";
        var clause, lines := ClauseText("if", cond, thenBody), [head] + IndentedBody(thenBody, 1);
        ClauseIndented("if", cond, thenBody);
        assert "if" + " " + ArgText(cond) + "; then" == head && "" + head == head;
        ElseIndented(elseBody, clause, lines);
        Closing(clause + ElseText(elseBody), lines + IndentedElse(elseBody, 0), "fi");
      case ShellCase(word, arms) =>
        var head := "case " + ArgText(word) + " in";
        assert "" + head == head;
        TextLine(head);
        ArmsIndented(arms, head, [head]);
        Closing(head + ArmsText(arms), [head] + IndentedArms(arms, 0), "esac");
      case _ => TextLine(StmtText(s));
    }
    TextIs(StmtText(s));
  }

  lemma TextIs(text: string)
    ensures forall lines :: IsText(text, lines) ==> Split(text, NEWLINE) == lines
  {
  }

  lemma Closing(text: string, lines: seq<string>, word: string)
    requires IsText(text, lines) && word in {"done", "fi", "esac"}
    ensures IsText(text + ("\n" + word), lines + [word]) && Tabs(0) + word == word
  {
    hide IsText;
    TextLine(word);
    TextAppend(text, lines, word, [word]);
    assert text + "\n" + word == text + ("\n" + word);
  }

  lemma LoopIndented(kind: LoopKind, body: seq<Stmt>)
    requires '\n' !in HeaderText(kind) && OneLiners(body)
    ensures IsText(HeaderText(kind) + "; do\n" + BodyText(body), [HeaderText(kind) + "; do"] + IndentedBody(body, 1))
    decreases body, 2
  {
    hide IsText, Tabs, BodyLines, IndentedAll, HeaderText, OneLiners;
    var head := HeaderText(kind) + "; do";
    TextLine(head);
    BodyTextIndented(body);
    TextAppend(head, [head], BodyText(body), IndentedBody(body, 1));
    assert head + "\n" == HeaderText(kind) + "; do\n";
  }

  // ---- a script without statements, and arguments ----

  /** Behind the header lines an empty script is one remark. */
  lemma EmptyScript(header: seq<string>)
    ensures ScriptText(header, []) ==
            Written(header)
            + ("# (no commands \U{2014} " + ("the module has no " + "renderable shell statements)") + "\n")
  {
    assert Written([NO_COMMANDS]) == NO_COMMANDS + "\n" + Written([]) && Written([]) == "";
    assert NO_COMMANDS + "\n" + "" == NO_COMMANDS + "\n";
  }

  /** Every character behind a backslash. */
  lemma {:induction false} BackslashedAt(s: string, i: nat)
    requires i < |s|
    ensures |Backslashed(s)| == 2 * |s| && Backslashed(s)[2 * i] == '\\' && Backslashed(s)[2 * i + 1] == s[i]
  {
    if |s| > 1 {
      BackslashedAt(s[1..], if i == 0 then 0 else i - 1);
    } else {
      assert Backslashed(s[1..]) == "";
    }
  }
}
