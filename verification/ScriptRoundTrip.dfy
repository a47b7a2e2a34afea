/** Printing a script and parsing the file again gives the padded script. */
module ScriptRoundTrip {
  import opened Outcomes
  import opened Text
  import opened ShellAst
  import opened Splicer
  import opened FlatLines
  import opened Blocks
  import opened Grammar
  import opened Regions
  import opened Cases
  import opened Scripts
  import opened Printer
  import opened FlatRoundTrip
  import opened WellFormed
  import opened Derivations
  import opened Layout
  import opened BlockRoundTrip
  import opened ArmBodies
  import opened CaseRoundTrip

  // ---- one statement ----

  /** A block at the top level is well-formed inside a block as well. */
  lemma TopBlockInside(s: Stmt)
    requires WellFormedStmt(s, AtTop) && (s.ShellLoop? || s.ShellIf?)
    ensures WellFormedStmt(s, InBlock)
  {
  }

  /** A printed loop or conditional is collected, parsed and padded, down to its own last line. */
  lemma BlockRoundTrips(s: Stmt, lines: seq<string>, i: nat)
    requires WellFormedStmt(s, AtTop) && (s.ShellLoop? || s.ShellIf?) && At(lines, i, Skeleton(s))
    ensures i < |lines| && BlockAt(lines, i) == Ok((Pad(s), i + |Skeleton(s)|))
  {
    hide CollectFrom, BlockOf, Skeleton, CstOf, Yield, Meaning, Derives, Pad;
    SkeletonNonEmpty(s);
    TopBlockInside(s);
    BlockCollected(s, InBlock, lines, i, 0);
    BlockDerives(s, InBlock);
    var segs := Yield(CstOf(s));
    assert segs + [] == segs;
    DerivationIsParsed(segs, CstOf(s));
  }

  lemma SkeletonNonEmpty(s: Stmt)
    ensures Skeleton(s) != []
  {
  }

  lemma BlockLineKeyword(s: Stmt)
    requires WellFormedStmt(s, AtTop) && (s.ShellLoop? || s.ShellIf?)
    ensures FirstKeyword(Skeleton(s)[0]) in BLOCK_OPENERS && !IsSkipped(Skeleton(s)[0])
  {
    hide FirstKeyword;
    if s.ShellIf? {
      var rest := " " + ArgText(s.condition) + "; then";
      KeywordPart(KIf, rest);
      assert Skeleton(s)[0] == "if" + rest;
    } else {
      var k := HeaderKeyword(s.kind);
      var rest := HeaderText(s.kind)[|Spelling(k)|..] + "; do";
      KeywordPart(k, rest);
      assert Skeleton(s)[0] == Spelling(k) + rest;
    }
  }

  lemma HeaderKeyword(kind: LoopKind) returns (k: Keyword)
    ensures k in LOOP_OPENERS && |Spelling(k)| < |HeaderText(kind)|
    ensures HeaderText(kind) == Spelling(k) + HeaderText(kind)[|Spelling(k)|..]
      && HeaderText(kind)[|Spelling(k)|] == ' '
  {
    k := match kind case For(_, _) => KFor case While(_) => KWhile case Until(_) => KUntil;
  }

  /** The walk reads one printed statement and goes on behind it. */
  lemma StmtWalked(s: Stmt, lines: seq<string>, i: nat)
    requires WellFormedStmt(s, AtTop) && At(lines, i, Skeleton(s))
    ensures Walk(lines, i) == After([Pad(s)], Walk(lines, i + |Skeleton(s)|))
  {
    hide FirstKeyword, ControlFlowKeyword, BlockAt, CaseAt, FlatLine, WellFormedFlat, WellFormedKind,
         WellFormedCondition, WellFormedBody, WellFormedWord, WellFormedArms, StmtText;
    SkeletonNonEmpty(s);
    AtFirst(lines, i, Skeleton(s));
    assert lines[i + 0] == Skeleton(s)[0];
    match s {
      case ShellLoop(_, _) =>
        BlockLineKeyword(s);
        BlockRoundTrips(s, lines, i);
      case ShellIf(_, _, _) =>
        BlockLineKeyword(s);
        BlockRoundTrips(s, lines, i);
      case ShellCase(word, _) =>
        HeadOpens(word);
        CaseRoundTrips(s, lines, i);
      case _ =>
        FlatRoundTrips(s);
        FlatIsSafe(s);
    }
  }

  // ---- the whole script ----

  lemma {:induction false} ScriptWalked(stmts: seq<Stmt>, lines: seq<string>, i: nat)
    requires WellFormedScript(stmts) && At(lines, i, SkeletonOfAll(stmts))
    ensures Walk(lines, i) == After(PadAll(stmts), Walk(lines, i + |SkeletonOfAll(stmts)|))
    decreases |stmts|
  {
    hide Walk, Skeleton, Pad, WellFormedStmt;
    var end := Walk(lines, i + |SkeletonOfAll(stmts)|);
    if stmts == [] {
      AfterNothing(end);
    } else {
      AtParts(lines, i, Skeleton(stmts[0]), SkeletonOfAll(stmts[1..]));
      StmtWalked(stmts[0], lines, i);
      ScriptWalked(stmts[1..], lines, i + |Skeleton(stmts[0])|);
      AfterAfter([Pad(stmts[0])], PadAll(stmts[1..]), end);
    }
  }

  /** Comment lines of the file's header: one line each, not continued. */
  ghost predicate HeaderComments(header: seq<string>) {
    forall l :: l in header ==> StartsWithHash(l) && '\n' !in l && !Continues(l)
  }

  lemma CommentTrimmed(line: string)
    requires StartsWithHash(line)
    ensures IsSkipped(Trim(line))
  {
    var pre, post := TrimShape(line);
    assert line[0] == (pre + Trim(line) + post)[0];
    assert pre == "";
    if Trim(line) != "" {
      assert Trim(line)[0] == line[0];
    }
  }

  lemma {:induction false} CommentsSkipped(lines: seq<string>, i: nat, n: nat)
    requires i + n <= |lines| && forall k :: i <= k < i + n ==> IsSkipped(lines[k])
    ensures Walk(lines, i) == Walk(lines, i + n)
    decreases n
  {
    hide FirstKeyword, ControlFlowKeyword, BlockAt, CaseAt, FlatLine;
    if n > 0 {
      CommentsSkipped(lines, i + 1, n - 1);
    }
  }

  /** Texts written on lines of their own, each laid out, are laid out behind each other. */
  lemma {:induction false} WrittenLaidOut(texts: seq<string>, parts: seq<seq<string>>)
    requires |texts| == |parts| && forall k :: 0 <= k < |texts| ==> LaidOut(texts[k], parts[k])
    ensures LaidOut(Written(texts), Flattened(parts) + [""])
    decreases |texts|
  {
    hide LaidOut;
    if texts == [] {
      EmptyLaidOut();
      assert [] + [""] == [""];
    } else {
      WrittenLaidOut(texts[1..], parts[1..]);
      LayOutAppend(texts[0], parts[0], Written(texts[1..]), Flattened(parts[1..]) + [""]);
      Associative(parts[0], Flattened(parts[1..]), [""]);
    }
  }

  lemma EmptyLaidOut()
    ensures LaidOut("", [""])
  {
    EmptyDoesNotContinue();
    LayOutLine("");
    TrimOfBlank("");
  }

  function Flattened(parts: seq<seq<string>>): seq<string> {
    if parts == [] then [] else parts[0] + Flattened(parts[1..])
  }

  lemma {:induction false} FlattenedAppend(a: seq<seq<string>>, b: seq<seq<string>>)
    ensures Flattened(a + b) == Flattened(a) + Flattened(b)
  {
    if a == [] {
      assert a + b == b;
    } else {
      assert (a + b)[1..] == a[1..] + b;
      FlattenedAppend(a[1..], b);
      Associative(a[0], Flattened(a[1..]), Flattened(b));
    }
  }

  function Skeletons(stmts: seq<Stmt>): seq<seq<string>> {
    seq(|stmts|, i requires 0 <= i < |stmts| => Skeleton(stmts[i]))
  }

  lemma {:induction false} FlattenedSkeletons(stmts: seq<Stmt>)
    ensures Flattened(Skeletons(stmts)) == SkeletonOfAll(stmts)
  {
    hide Skeleton;
    if stmts != [] {
      FlattenedSkeletons(stmts[1..]);
      assert Skeletons(stmts)[1..] == Skeletons(stmts[1..]);
    }
  }

  lemma {:induction false} WellFormedMember(stmts: seq<Stmt>, k: nat)
    requires WellFormedScript(stmts) && k < |stmts|
    ensures WellFormedStmt(stmts[k], AtTop)
  {
    hide WellFormedStmt;
    if k > 0 {
      WellFormedMember(stmts[1..], k - 1);
    }
  }

  lemma {:induction false} WrittenAppend(a: seq<string>, b: seq<string>)
    ensures Written(a + b) == Written(a) + Written(b)
  {
    if a == [] {
      assert a + b == b;
    } else {
      assert (a + b)[1..] == a[1..] + b;
      WrittenAppend(a[1..], b);
      Associative(a[0] + "\n", Written(a[1..]), Written(b));
    }
  }

  lemma StmtTextsLaidOut(stmts: seq<Stmt>)
    requires WellFormedScript(stmts)
    ensures forall k :: 0 <= k < |stmts| ==> LaidOut(StmtTexts(stmts)[k], Skeletons(stmts)[k])
  {
    hide LaidOut, StmtText, Skeleton, WellFormedStmt;
    forall k | 0 <= k < |stmts| ensures LaidOut(StmtTexts(stmts)[k], Skeletons(stmts)[k]) {
      WellFormedMember(stmts, k);
      StmtLaidOut(stmts[k], AtTop);
    }
  }

  /** The lines of the emitted file: its comments, then the statements, then the empty rest. */
  lemma ScriptLaidOut(header: seq<string>, stmts: seq<Stmt>)
    requires HeaderComments(header) && WellFormedScript(stmts)
    ensures var comments := TrimAll(if stmts == [] then header + [NO_COMMANDS] else header);
            && LaidOut(ScriptText(header, stmts), comments + SkeletonOfAll(stmts) + [""])
            && forall k :: 0 <= k < |comments| ==> IsSkipped(comments[k])
  {
    hide LaidOut, StmtText, Skeleton, WellFormedScript, Trim, Continues, NO_COMMANDS;
    var head := if stmts == [] then header + [NO_COMMANDS] else header;
    var comments := TrimAll(head);
    var texts, parts := head + StmtTexts(stmts), Singles(comments) + Skeletons(stmts);
    NoCommandsIsComment();
    forall k | 0 <= k < |comments| ensures IsSkipped(comments[k]) && LaidOut(head[k], [comments[k]]) {
      assert head[k] in head;
      CommentTrimmed(head[k]);
      LayOutLine(head[k]);
    }
    StmtTextsLaidOut(stmts);
    WrittenLaidOut(texts, parts);
    FlattenedAppend(Singles(comments), Skeletons(stmts));
    FlattenedSingles(comments);
    FlattenedSkeletons(stmts);
    ScriptTextWritten(header, stmts);
  }

  lemma ScriptTextWritten(header: seq<string>, stmts: seq<Stmt>)
    ensures ScriptText(header, stmts) ==
            Written((if stmts == [] then header + [NO_COMMANDS] else header) + StmtTexts(stmts))
  {
    hide Written, StmtText, NO_COMMANDS;
    if stmts == [] {
      assert StmtTexts(stmts) == [];
      assert header + [NO_COMMANDS] + [] == header + [NO_COMMANDS];
      WrittenAppend(header, [NO_COMMANDS]);
    } else {
      WrittenAppend(header, StmtTexts(stmts));
    }
  }

  lemma NoCommandsIsComment()
    ensures StartsWithHash(NO_COMMANDS) && '\n' !in NO_COMMANDS && !Continues(NO_COMMANDS)
  {
    var first, second, third := "# (no commands \U{2014} ", "the module has no ", "renderable shell statements)";
    var line := first + (second + third);
    assert '\n' !in first && '\n' !in second && '\n' !in third;
    assert NO_COMMANDS == line && line[0] == first[0] && line[|line| - 1] == third[|third| - 1];
    EndsWithVisible(line);
  }

  function Singles(lines: seq<string>): seq<seq<string>> {
    seq(|lines|, i requires 0 <= i < |lines| => [lines[i]])
  }

  lemma {:induction false} FlattenedSingles(lines: seq<string>)
    ensures Flattened(Singles(lines)) == lines
  {
    if lines != [] {
      FlattenedSingles(lines[1..]);
      assert Singles(lines)[1..] == Singles(lines[1..]);
      assert [lines[0]] + lines[1..] == lines;
    }
  }

  /** The lines of a text that ends in a newline, trimmed, are its pieces without the last. */
  lemma LinesOfLaidOut(text: string, lines: seq<string>)
    requires LaidOut(text, lines + [""]) && Split(text, NEWLINE)[|lines|] == ""
    ensures TrimAll(Lines(text)) == lines
  {
    hide Trim, Split, Continues;
    var pieces := Split(text, NEWLINE);
    assert |pieces| == |lines| + 1;
    forall k | 0 <= k < |lines| ensures Trim(WithoutCarriageReturn(pieces[k])) == lines[k] {
      assert TextLines(text)[k] == Trim(pieces[k]) == lines[k];
      CarriageReturnTrimmed(pieces[k]);
    }
  }

  lemma CarriageReturnTrimmed(line: string)
    ensures Trim(WithoutCarriageReturn(line)) == Trim(line)
  {
    hide TrimStart, TrimEnd;
    var kept := WithoutCarriageReturn(line);
    if kept != line {
      assert line == kept + "\r";
      TrimKeepsFront(kept, "\r");
    }
  }

  lemma TrimKeepsFront(s: string, post: string)
    requires Blank(post)
    ensures Trim(s + post) == Trim(s)
  {
    TrimStartShape(s);
    var pre, t := s[..|s| - |TrimStart(s)|], TrimStart(s);
    Associative(pre, t, post);
    TrimStartBlank(pre, t + post);
    if t == "" {
      assert t + post == post;
      TrimStartBlank(post, "");
      assert post + "" == post;
    } else {
      assert TrimStart(t + post) == t + post;
      TrimEndBlank(t, post);
    }
  }

  lemma {:induction false} WrittenEndsInNewline(texts: seq<string>)
    requires texts != []
    ensures var w := Written(texts); w != "" && w[|w| - 1] == '\n'
  {
    if |texts| > 1 {
      WrittenEndsInNewline(texts[1..]);
    }
  }

  lemma LastPieceEmpty(s: string)
    requires s != "" && s[|s| - 1] == '\n'
    ensures var pieces := Split(s, NEWLINE); pieces[|pieces| - 1] == ""
  {
    var front := s[..|s| - 1];
    assert s == front + ['\n'] + "";
    SplitAtSeparator(front, '\n', "", NEWLINE);
  }

  lemma EvenTextIsSpliced(text: string)
    requires EvenLines(text)
    ensures Splice(text) == text
  {
    hide Splice, Split, Continues;
    SpliceKeepsExactly(text);
    var lines := Split(text, NEWLINE);
    assert forall k :: 0 <= k < |lines| - 1 ==> lines[k] in lines;
  }

  /** The lines the walk sees of an emitted file. */
  lemma EmittedLines(header: seq<string>, stmts: seq<Stmt>)
    requires HeaderComments(header) && WellFormedScript(stmts)
    ensures var comments := TrimAll(if stmts == [] then header + [NO_COMMANDS] else header);
            && TrimAll(Lines(Splice(ScriptText(header, stmts)))) == comments + SkeletonOfAll(stmts)
            && forall k :: 0 <= k < |comments| ==> IsSkipped(comments[k])
  {
    hide Splice, Lines, Split, Trim, Continues, SkeletonOfAll, WellFormedScript, HeaderComments, NO_COMMANDS,
         StmtTexts, Written;
    var text := ScriptText(header, stmts);
    var comments := TrimAll(if stmts == [] then header + [NO_COMMANDS] else header);
    ScriptLaidOut(header, stmts);
    EvenTextIsSpliced(text);
    EmittedEndsInNewline(header, stmts);
    LastPieceEmpty(text);
    assert |Split(text, NEWLINE)| == |TextLines(text)|;
    LinesOfLaidOut(text, comments + SkeletonOfAll(stmts));
  }

  lemma EmittedEndsInNewline(header: seq<string>, stmts: seq<Stmt>)
    ensures var text := ScriptText(header, stmts); text != "" && text[|text| - 1] == '\n'
  {
    hide Written, StmtText, NO_COMMANDS;
    ScriptTextWritten(header, stmts);
    WrittenEndsInNewline((if stmts == [] then header + [NO_COMMANDS] else header) + StmtTexts(stmts));
  }

  /**
   * The round trip through every stage: splicing, line walk, region collection, block and case parsing,
   * tokenizing and lowering of the printed file give back the script, with empty bodies as the no-op.
   */
  lemma ScriptRoundTrips(header: seq<string>, stmts: seq<Stmt>)
    requires HeaderComments(header) && WellFormedScript(stmts)
    ensures ScriptOf(ScriptText(header, stmts)) == Ok(PadAll(stmts))
  {
    hide Splice, Lines, SkeletonOfAll, WellFormedScript, HeaderComments, ScriptText, IsSkipped, Walk, TrimAll, PadAll;
    var comments := TrimAll(if stmts == [] then header + [NO_COMMANDS] else header);
    EmittedLines(header, stmts);
    var lines := comments + SkeletonOfAll(stmts);
    CommentsSkipped(lines, 0, |comments|);
    assert At(lines, |comments|, SkeletonOfAll(stmts));
    ScriptWalked(stmts, lines, |comments|);
    WalkEnds(lines);
    assert PadAll(stmts) + [] == PadAll(stmts);
  }

  lemma WalkEnds(lines: seq<string>)
    ensures Walk(lines, |lines|) == Ok([])
  {
  }

  /** Without empty bodies, exactly the script comes back. */
  lemma ScriptComesBack(header: seq<string>, stmts: seq<Stmt>)
    requires HeaderComments(header) && WellFormedScript(stmts)
    ensures ScriptOf(ScriptText(header, stmts)) == Ok(stmts) <==> NoEmptyBodies(stmts)
  {
    ScriptRoundTrips(header, stmts);
    PadAllKeepsExactly(stmts);
  }

  /** Printing, parsing and printing again gives the same file, empty bodies or not. */
  lemma ReprintIsStable(header: seq<string>, stmts: seq<Stmt>)
    requires HeaderComments(header) && WellFormedScript(stmts)
    ensures var again := ScriptOf(ScriptText(header, stmts));
            again.Ok? && ScriptText(header, again.value) == ScriptText(header, stmts)
  {
    hide ScriptOf, StmtText;
    ScriptRoundTrips(header, stmts);
    StmtTextsPadded(stmts);
  }

  lemma {:induction false} StmtTextsPadded(stmts: seq<Stmt>)
    ensures StmtTexts(PadAll(stmts)) == StmtTexts(stmts)
  {
    hide StmtText, Pad;
    if stmts != [] {
      PadPrintsSame(stmts[0]);
      StmtTextsPadded(stmts[1..]);
      assert StmtTexts(stmts) == [StmtText(stmts[0])] + StmtTexts(stmts[1..]);
      assert StmtTexts(PadAll(stmts)) == [StmtText(Pad(stmts[0]))] + StmtTexts(PadAll(stmts[1..]));
    }
  }
}
