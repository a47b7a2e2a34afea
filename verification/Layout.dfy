/** The physical lines of a printed statement, trimmed as the line walk trims them. */
module Layout {
  import opened Outcomes
  import opened Text
  import opened ShellAst
  import opened Splicer
  import opened Printer
  import opened FlatRoundTrip
  import opened WellFormed
  import opened Derivations

  // ---- the trimmed lines of a statement ----

  function Skeleton(s: Stmt): seq<string>
    decreases s
  {
    match s
    case ShellLoop(kind, body) => [HeaderText(kind) + "; do"] + SkeletonOfBody(body) + ["done"]
    case ShellIf(cond, thenBody, elseBody) =>
      [HeadText("if", cond) + "; then"] + SkeletonOfBody(thenBody) + SkeletonOfElse(elseBody) + ["fi"]
    case ShellCase(word, arms) => ["case " + ArgText(word) + " in"] + SkeletonOfArms(arms) + ["esac"]
    case _ => [StmtText(s)]
  }

  function SkeletonOfAll(body: seq<Stmt>): seq<string>
    decreases body, 0
  {
    if body == [] then [] else Skeleton(body[0]) + SkeletonOfAll(body[1..])
  }

  function SkeletonOfBody(body: seq<Stmt>): seq<string>
    decreases body, 1
  {
    if body == [] then [":"] else SkeletonOfAll(body)
  }

  function SkeletonOfElse(elseBody: seq<Stmt>): seq<string>
    decreases elseBody, 1
  {
    if elseBody == [] then []
    else if |elseBody| == 1 && elseBody[0].ShellIf? then
      var s := elseBody[0];
      [HeadText("elif", s.condition) + "; then"] + SkeletonOfBody(s.thenBody) + SkeletonOfElse(s.elseBody)
    else ["else"] + SkeletonOfAll(elseBody)
  }

  function PatternLine(patterns: seq<string>): string {
    Join("|", patterns) + ")"
  }

  function SkeletonOfArms(arms: seq<CaseArm>): seq<string>
    decreases arms
  {
    if arms == [] then []
    else [PatternLine(arms[0].patterns)] + SkeletonOfAll(arms[0].body) + [";;"] + SkeletonOfArms(arms[1..])
  }

  // ---- texts and their lines ----

  function TextLines(text: string): seq<string> {
    TrimAll(Split(text, NEWLINE))
  }

  /** No line of the text is continued on the next. */
  ghost predicate EvenLines(text: string) {
    forall l :: l in Split(text, NEWLINE) ==> !Continues(l)
  }

  /** A text whose lines, trimmed, are these, none of them continued. */
  ghost predicate LaidOut(text: string, lines: seq<string>) {
    TextLines(text) == lines && EvenLines(text)
  }

  lemma TrimAllAppend(a: seq<string>, b: seq<string>)
    ensures TrimAll(a + b) == TrimAll(a) + TrimAll(b)
  {
    hide Trim;
  }

  lemma LayOutLine(line: string)
    requires '\n' !in line && !Continues(line)
    ensures LaidOut(line, [Trim(line)])
  {
    hide Trim, Continues;
    SplitUnbroken(line, NEWLINE);
  }

  lemma LayOutAppend(a: string, la: seq<string>, b: string, lb: seq<string>)
    requires LaidOut(a, la) && LaidOut(b, lb)
    ensures LaidOut(a + "\n" + b, la + lb)
  {
    hide Trim, Continues, Split;
    SplitAtSeparator(a, '\n', b, NEWLINE);
    TrimAllAppend(Split(a, NEWLINE), Split(b, NEWLINE));
    assert a + "\n" + b == a + ['\n'] + b;
  }

  /** Lines that no newline breaks, joined by newlines, are the lines of the text. */
  lemma LayOutJoined(lines: seq<string>)
    requires lines != [] && forall l :: l in lines ==> '\n' !in l && !Continues(l)
    ensures LaidOut(Join("\n", lines), TrimAll(lines))
  {
    hide Trim, Continues, Split, Join;
    forall k | 0 <= k < |lines| ensures Without(lines[k], NEWLINE) {
      assert lines[k] in lines;
    }
    SplitJoined('\n', lines);
  }

  ghost predicate Tabs(prefix: string) {
    prefix != "" && forall i :: 0 <= i < |prefix| ==> prefix[i] == '\t'
  }

  lemma PrefixedLine(prefix: string, line: string)
    requires Tabs(prefix)
    ensures Trim(prefix + line) == Trim(line)
    ensures Continues(prefix + line) == Continues(line)
  {
    hide Trim;
    TrimAfterBlank(prefix, line);
    TailRunAppend(prefix, line);
    TailRunShape(prefix);
  }

  lemma PrefixedLines(prefix: string, lines: seq<string>)
    requires Tabs(prefix)
    requires forall l :: l in lines ==> '\n' !in l && !Continues(l)
    ensures TrimAll(Prefixed(prefix, lines)) == TrimAll(lines)
    ensures forall l :: l in Prefixed(prefix, lines) ==> '\n' !in l && !Continues(l)
  {
    hide Trim, Continues;
    forall i | 0 <= i < |lines|
      ensures Trim(prefix + lines[i]) == Trim(lines[i]) && '\n' !in prefix + lines[i] && !Continues(prefix + lines[i])
    {
      assert lines[i] in lines;
      PrefixedLine(prefix, lines[i]);
    }
  }

  lemma EndsWithVisible(line: string)
    requires line != "" && line[|line| - 1] != '\\'
    ensures !Continues(line)
  {
  }

  // ---- printed statements ----

  lemma {:induction false} BodyLaidOut(prefix: string, body: seq<Stmt>, place: Place)
    requires Tabs(prefix) && WellFormedBody(body, place)
    ensures TrimAll(BodyLines(prefix, body)) == SkeletonOfAll(body)
    ensures forall l :: l in BodyLines(prefix, body) ==> '\n' !in l && !Continues(l)
    ensures BodyLines(prefix, body) == [] <==> body == []
    decreases body, 0
  {
    hide StmtText, Skeleton, WellFormedStmt, Trim, Continues, Split;
    if body != [] {
      var lines := Split(StmtText(body[0]), NEWLINE);
      StmtLaidOut(body[0], place);
      SplitPieces(StmtText(body[0]), NEWLINE);
      forall l | l in lines ensures '\n' !in l {
        var k :| 0 <= k < |lines| && lines[k] == l;
        assert Without(lines[k], NEWLINE);
      }
      PrefixedLines(prefix, lines);
      BodyLaidOut(prefix, body[1..], place);
      TrimAllAppend(Prefixed(prefix, lines), BodyLines(prefix, body[1..]));
    }
  }

  lemma {:induction false} BodyTextLaidOut(body: seq<Stmt>, place: Place)
    requires WellFormedBody(body, place)
    ensures LaidOut(BodyText(body), SkeletonOfBody(body))
    decreases body, 1
  {
    hide BodyLines, SkeletonOfAll, WellFormedBody, Split;
    BodyLaidOut("\t", body, place);
    if body == [] {
      EndsWithVisible("\t:");
      LayOutLine("\t:");
      TrimPadded("\t", ":", "");
      assert "\t" + ":" + "" == "\t:";
    } else {
      LayOutJoined(BodyLines("\t", body));
    }
  }

  lemma HeaderLine(kind: LoopKind)
    requires WellFormedKind(kind)
    ensures LaidOut(HeaderText(kind) + "; do", [HeaderText(kind) + "; do"])
  {
    hide HeaderText, Trim, Continues;
    var line := HeaderText(kind) + "; do";
    KindOnOneLine(kind);
    LineEnd(HeaderText(kind), "; do");
  }

  lemma KindOnOneLine(kind: LoopKind)
    requires WellFormedKind(kind)
    ensures HeaderText(kind) != "" && !IsWhitespace(HeaderText(kind)[0]) && OneSegment(HeaderText(kind))
  {
    match kind {
      case For(variable, items) =>
      case While(cond) => assert HeaderText(kind) == "while " + cond.text;
      case Until(cond) => assert HeaderText(kind) == "until " + cond.text;
    }
  }

  /** A visible start and a visible end that is no backslash make a line its own trimmed form. */
  lemma LineEnd(a: string, b: string)
    requires a != "" && !IsWhitespace(a[0]) && '\n' !in a && '\n' !in b
    requires b != "" && !IsWhitespace(b[|b| - 1]) && b[|b| - 1] != '\\'
    ensures LaidOut(a + b, [a + b])
  {
    hide Trim, Continues;
    var line := a + b;
    assert line[0] == a[0] && line[|line| - 1] == b[|b| - 1];
    TrimOfTrimmed(line);
    EndsWithVisible(line);
    LayOutLine(line);
  }

  lemma ClauseLaidOut(keyword: string, cond: Expr, body: seq<Stmt>, place: Place)
    requires keyword in {"if", "elif"} && WellFormedCondition(cond) && WellFormedBody(body, place)
    requires LaidOut(BodyText(body), SkeletonOfBody(body))
    ensures LaidOut(ClauseText(keyword, cond, body), [HeadText(keyword, cond) + "; then"] + SkeletonOfBody(body))
  {
    hide LaidOut, BodyText, SkeletonOfBody, WellFormedBody;
    var head := HeadText(keyword, cond);
    assert head == keyword + " " + cond.text;
    assert head[0] in {'i', 'e'};
    LineEnd(head, "; then");
    LayOutAppend(head + "; then", [head + "; then"], BodyText(body), SkeletonOfBody(body));
    assert keyword + " " + cond.text + "; then\n" + BodyText(body) == head + "; then" + "\n" + BodyText(body);
  }

  /** A printed statement has the lines of its skeleton, and none of them is continued. */
  lemma {:induction false} StmtLaidOut(s: Stmt, place: Place)
    requires WellFormedStmt(s, place)
    ensures LaidOut(StmtText(s), Skeleton(s))
    decreases s
  {
    hide LaidOut, BodyText, SkeletonOfBody, SkeletonOfElse, SkeletonOfArms, WellFormedBody, WellFormedKind,
         WellFormedCondition, HeaderText, ClauseText, ElseText, ArmsText, WellFormedFlat, WellFormedArms,
         WellFormedWord, Trim, Continues;
    FixedLines();
    match s {
      case ShellLoop(kind, body) =>
        var head := HeaderText(kind) + "; do";
        HeaderLine(kind);
        BodyTextLaidOut(body, Inside(place));
        LayOutAppend(head, [head], BodyText(body), SkeletonOfBody(body));
        LayOutAppend(head + "\n" + BodyText(body), [head] + SkeletonOfBody(body), "done", ["done"]);
        assert StmtText(s) == head + "\n" + BodyText(body) + "\n" + "done";
      case ShellIf(cond, thenBody, elseBody) =>
        var clause := ClauseText("if", cond, thenBody);
        var lines := [HeadText("if", cond) + "; then"] + SkeletonOfBody(thenBody);
        BodyTextLaidOut(thenBody, Inside(place));
        ClauseLaidOut("if", cond, thenBody, Inside(place));
        ElseLaidOut(clause, lines, elseBody, Inside(place));
        LayOutAppend(clause + ElseText(elseBody), lines + SkeletonOfElse(elseBody), "fi", ["fi"]);
        assert StmtText(s) == clause + ElseText(elseBody) + "\n" + "fi";
      case ShellCase(word, arms) =>
        var head := "case " + ArgText(word) + " in";
        CaseLine(word);
        ArmsLaidOut(head, [head], arms);
        LayOutAppend(head + ArmsText(arms), [head] + SkeletonOfArms(arms), "esac", ["esac"]);
        assert StmtText(s) == head + ArmsText(arms) + "\n" + "esac";
      case _ =>
        FlatIsSafe(s);
        FlatRoundTrips(s);
        LayOutLine(StmtText(s));
        TrimOfTrimmed(StmtText(s));
    }
  }

  lemma FixedLines()
    ensures LaidOut("done", ["done"]) && LaidOut("fi", ["fi"]) && LaidOut("esac", ["esac"])
    ensures LaidOut("else", ["else"]) && LaidOut("\t\t;;", [";;"])
  {
    hide LaidOut;
    LineEnd("don", "e");
    LineEnd("f", "i");
    LineEnd("esa", "c");
    LineEnd("els", "e");
    LineEnd(";", ";");
    assert "don" + "e" == "done" && "f" + "i" == "fi" && "esa" + "c" == "esac" && "els" + "e" == "else";
    EndsWithVisible("\t\t;;");
    LayOutLine("\t\t;;");
    TrimPadded("\t\t", ";;", "");
    assert "\t\t" + ";;" + "" == "\t\t;;";
  }

  /** The else part, behind a text that is already laid out. */
  lemma {:induction false} ElseLaidOut(text: string, lines: seq<string>, elseBody: seq<Stmt>, place: Place)
    requires LaidOut(text, lines) && WellFormedBody(elseBody, place)
    ensures LaidOut(text + ElseText(elseBody), lines + SkeletonOfElse(elseBody))
    decreases elseBody, 2
  {
    hide LaidOut, BodyText, SkeletonOfBody, SkeletonOfAll, ClauseText, Skeleton, StmtText, WellFormedCondition;
    FixedLines();
    if elseBody == [] {
      assert text + "" == text && lines + [] == lines;
    } else if |elseBody| == 1 && elseBody[0].ShellIf? {
      var s := elseBody[0];
      var clause := ClauseText("elif", s.condition, s.thenBody);
      var more := [HeadText("elif", s.condition) + "; then"] + SkeletonOfBody(s.thenBody);
      BodyTextLaidOut(s.thenBody, Inside(place));
      ClauseLaidOut("elif", s.condition, s.thenBody, Inside(place));
      LayOutAppend(text, lines, clause, more);
      ElseLaidOut(text + "\n" + clause, lines + more, s.elseBody, Inside(place));
      Associative(lines, more, SkeletonOfElse(s.elseBody));
      assert text + ("\n" + clause + ElseText(s.elseBody)) == text + "\n" + clause + ElseText(s.elseBody);
    } else {
      BodyTextLaidOut(elseBody, place);
      LayOutAppend(text, lines, "else", ["else"]);
      LayOutAppend(text + "\n" + "else", lines + ["else"], BodyText(elseBody), SkeletonOfBody(elseBody));
      BodyIsAll(elseBody);
      Associative(lines, ["else"], SkeletonOfAll(elseBody));
      assert text + ("\nelse\n" + BodyText(elseBody)) == text + "\n" + "else" + "\n" + BodyText(elseBody);
    }
  }

  lemma BodyIsAll(body: seq<Stmt>)
    requires body != []
    ensures SkeletonOfBody(body) == SkeletonOfAll(body)
  {
  }

  lemma CaseLine(word: Expr)
    requires WellFormedWord(word)
    ensures LaidOut("case " + ArgText(word) + " in", ["case " + ArgText(word) + " in"])
  {
    hide LaidOut;
    var w := ArgText(word);
    LineEnd("case " + w, " in");
  }

  lemma PatternLineLaidOut(patterns: seq<string>)
    requires WellFormedPatterns(patterns)
    ensures LaidOut("\t" + PatternLine(patterns), [PatternLine(patterns)])
    ensures Trimmed(PatternLine(patterns))
  {
    hide LaidOut, Trim;
    var line := PatternLine(patterns);
    PatternsText(patterns);
    EndsWithVisible("\t" + line);
    LayOutLine("\t" + line);
    TrimPadded("\t", line, "");
    assert "\t" + line + "" == "\t" + line;
  }

  lemma {:induction false} PatternsText(patterns: seq<string>)
    requires patterns != [] && forall k :: 0 <= k < |patterns| ==> WellFormedPattern(patterns[k])
    ensures var text := Join("|", patterns); Trimmed(text) && forall c :: c in text ==> c !in {')', ';', '\n'}
  {
    assert WellFormedPattern(patterns[0]);
    if |patterns| > 1 {
      var rest := Join("|", patterns[1..]);
      PatternsText(patterns[1..]);
      var text := Join("|", patterns);
      assert text == patterns[0] + "|" + rest;
      assert text[0] == patterns[0][0] && text[|text| - 1] == rest[|rest| - 1];
    }
  }

  lemma {:induction false} AppendedLaidOut(text: string, lines: seq<string>, more: seq<string>)
    requires LaidOut(text, lines) && forall l :: l in more ==> '\n' !in l && !Continues(l)
    ensures LaidOut(text + Appended(more), lines + TrimAll(more))
    decreases |more|
  {
    hide LaidOut, Trim, Continues;
    if more == [] {
      assert text + "" == text && lines + [] == lines;
    } else {
      LayOutLine(more[0]);
      LayOutAppend(text, lines, more[0], [Trim(more[0])]);
      AppendedLaidOut(text + "\n" + more[0], lines + [Trim(more[0])], more[1..]);
      assert TrimAll(more) == [Trim(more[0])] + TrimAll(more[1..]);
      Associative(lines, [Trim(more[0])], TrimAll(more[1..]));
      assert text + ("\n" + more[0] + Appended(more[1..])) == text + "\n" + more[0] + Appended(more[1..]);
    }
  }

  lemma {:induction false} ArmsLaidOut(text: string, lines: seq<string>, arms: seq<CaseArm>)
    requires LaidOut(text, lines) && WellFormedArms(arms)
    ensures LaidOut(text + ArmsText(arms), lines + SkeletonOfArms(arms))
    decreases arms
  {
    hide LaidOut, BodyLines, SkeletonOfAll, WellFormedPatterns, WellFormedBody, PatternLine, Trim, Continues;
    if arms == [] {
      assert text + "" == text && lines + [] == lines;
    } else {
      var arm := arms[0];
      ArmLaidOut(text, lines, arm);
      var more := [PatternLine(arm.patterns)] + SkeletonOfAll(arm.body) + [";;"];
      ArmsLaidOut(text + ArmText(arm), lines + more, arms[1..]);
      Associative(text, ArmText(arm), ArmsText(arms[1..]));
      Associative(lines, more, SkeletonOfArms(arms[1..]));
    }
  }

  lemma {:induction false} ArmLaidOut(text: string, lines: seq<string>, arm: CaseArm)
    requires LaidOut(text, lines) && WellFormedPatterns(arm.patterns) && WellFormedBody(arm.body, InArm)
    ensures LaidOut(text + ArmText(arm), lines + ([PatternLine(arm.patterns)] + SkeletonOfAll(arm.body) + [";;"]))
    decreases arm
  {
    hide LaidOut, BodyLines, SkeletonOfAll, WellFormedPatterns, WellFormedBody, Appended, Trim, Continues;
    var head := "\t" + PatternLine(arm.patterns);
    var body := BodyLines("\t\t", arm.body);
    FixedLines();
    PatternLineLaidOut(arm.patterns);
    BodyLaidOut("\t\t", arm.body, InArm);
    LayOutAppend(text, lines, head, [PatternLine(arm.patterns)]);
    var text1, lines1 := text + "\n" + head, lines + [PatternLine(arm.patterns)];
    AppendedLaidOut(text1, lines1, body);
    LayOutAppend(text1 + Appended(body), lines1 + SkeletonOfAll(arm.body), "\t\t;;", [";;"]);
    assert text + ArmText(arm) == text1 + Appended(body) + "\n" + "\t\t;;";
    assert lines1 + SkeletonOfAll(arm.body) + [";;"]
      == lines + ([PatternLine(arm.patterns)] + SkeletonOfAll(arm.body) + [";;"]);
  }
}
