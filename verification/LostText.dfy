/** Accepted scripts that the standard's grammar does not derive: lost commands and empty bodies. */
module LostText {
  import opened Outcomes
  import opened Text
  import opened ShellAst
  import opened Splicer
  import opened FlatLines
  import opened Grammar
  import opened Regions
  import opened Cases
  import opened Scripts
  import opened GluedText
  import opened Posix
  import opened Derivations
  import opened Layout
  import opened BlockRoundTrip
  import opened ScriptRoundTrip

  // ---- whole sources ----

  /** A trimmed line that stays a line of its own. */
  ghost predicate PlainLine(line: string) {
    Trimmed(line) && '\n' !in line && line[|line| - 1] != '\\'
  }

  /** The walk sees exactly the plain lines that a source is made of. */
  lemma LinesWalked(lines: seq<string>)
    requires lines != [] && forall l :: l in lines ==> PlainLine(l)
    ensures ScriptOf(Join("\n", lines)) == Walk(lines, 0)
  {
    hide Splice, Split, Join, Trim, Walk, Continues;
    var text := Join("\n", lines);
    forall l | l in lines ensures '\n' !in l && !Continues(l) && Trim(l) == l && l != "" {
      EndsWithVisible(l);
      TrimOfTrimmed(l);
    }
    LayOutJoined(lines);
    EvenTextIsSpliced(text);
    forall k | 0 <= k < |lines| ensures Without(lines[k], {'\n'}) {
      assert lines[k] in lines;
    }
    SplitJoined('\n', lines);
    assert Split(text, NEWLINE) == lines;
    assert lines[|lines| - 1] in lines;
    var pieces := Lines(text);
    assert |pieces| == |lines|;
    forall k | 0 <= k < |lines| ensures Trim(pieces[k]) == lines[k] {
      assert lines[k] in lines;
      CarriageReturnTrimmed(lines[k]);
    }
    assert TrimAll(pieces) == lines;
  }

  /** A source that is one block. */
  lemma OneBlockSource(lines: seq<string>, segs: seq<string>)
    requires lines != [] && forall l :: l in lines ==> PlainLine(l)
    requires FirstKeyword(lines[0]) in BLOCK_OPENERS && lines[0][0] != '#'
    requires BlockRegion(lines, 0) == Ok((segs, |lines|)) && segs != [] && BlockOf(segs).Ok?
    ensures ScriptOf(Join("\n", lines)) == Ok([BlockOf(segs).value.0])
  {
    hide FirstKeyword, BlockRegion, BlockOf, ControlFlowKeyword, FlatLine, CaseAt, Join, ScriptOf;
    LinesWalked(lines);
    assert lines[0] in lines;
    assert [BlockOf(segs).value.0] + [] == [BlockOf(segs).value.0];
  }

  // ---- a command is lost ----

  lemma Headed(text: string)
    requires Trimmed(text)
    ensures var s := "if " + text; FirstKeyword(s) == KIf && AfterFirstWord(s) == text && Trimmed(s)
    ensures var s := "while " + text; FirstKeyword(s) == KWhile && AfterFirstWord(s) == text && Trimmed(s)
    ensures var s := "else " + text; FirstKeyword(s) == KElse && AfterFirstWord(s) == text && Trimmed(s)
    ensures var s := "then " + text; FirstKeyword(s) == KThen && AfterFirstWord(s) == text && Trimmed(s)
  {
    hide FirstKeyword, AfterFirstWord;
    assert "if" + " " + text == "if " + text && "while" + " " + text == "while " + text;
    assert "else" + " " + text == "else " + text && "then" + " " + text == "then " + text;
    KeywordHead(KIf, text);
    KeywordHead(KWhile, text);
    KeywordHead(KElse, text);
    KeywordHead(KThen, text);
  }

  /** `then else TEXT` reads as an empty then-body and an empty else-body: TEXT is gone, without a refusal. */
  lemma CommandLost(cond: string, text: string)
    requires Trimmed(cond) && Trimmed(text)
    ensures var segs := ["if " + cond, "then", "else " + text, "fi"];
            BlockOf(segs) == Ok((ShellIf(LitStr(cond), [], []), 4)) && !NoneGlued(segs)
  {
    hide FirstKeyword, AfterFirstWord;
    var head, word := "if " + cond, "else " + text;
    Headed(cond);
    Headed(text);
    BodyWords();
    var c := Conditional(Chain(head, "then", [], Else(word, [])));
    var segs := [head, "then", word, "fi"];
    NothingYielded();
    assert YieldTail(Else(word, [])) == [word, "fi"];
    assert Yield(c) == YieldChain(c.chain) == segs;
    assert DerivesTail(Else(word, [])) && DerivesChain(c.chain, KIf);
    assert MeaningTail(Else(word, [])) == [];
    assert MeaningChain(c.chain, KIf) == ShellIf(LitStr(cond), [], []);
    DerivationIsParsed(segs, c);
    assert Glued(segs[2]);
  }

  /** The same in a source of three lines. */
  lemma CommandLostFromSource(cond: string, text: string)
    requires PlainLine(cond) && PlainLine(text) && ';' !in cond && ';' !in text
    ensures ScriptOf(Join("\n", ["if " + cond, "then else " + text, "fi"])) == Ok([ShellIf(LitStr(cond), [], [])])
  {
    hide FirstKeyword, AfterFirstWord, BlockRegion, BlockOf, Join, ScriptOf;
    CommandLost(cond, text);
    GluedRegion(cond, text);
    Headed(cond);
    assert Trimmed("fi") && Trimmed("then else " + text);
    OneBlockSource(["if " + cond, "then else " + text, "fi"], ["if " + cond, "then", "else " + text, "fi"]);
  }

  lemma GluedRegion(cond: string, text: string)
    requires PlainLine(cond) && PlainLine(text) && ';' !in cond && ';' !in text
    ensures var lines := ["if " + cond, "then else " + text, "fi"];
            BlockRegion(lines, 0) == Ok((["if " + cond, "then", "else " + text, "fi"], 3))
  {
    hide FirstKeyword, AfterFirstWord, LineParts, CollectFrom, DepthStep;
    var head, word := "if " + cond, "else " + text;
    var lines := [head, "then " + word, "fi"];
    Headed(cond);
    Headed(text);
    OneSegmentLine(head);
    GluedLine(text);
    StepOf(head);
    StepOf("then");
    StepOf(word);
    BodyWords();
    DepthOfOne(head);
    DepthOfTwo("then", word);
    LineWithoutCloser(lines, 0, 0, [head]);
    assert lines[1] == "then else " + text;
    assert NeverCloses(["then", word]);
    LineWithoutCloser(lines, 1, 1, ["then", word]);
    CloserLine(lines, 2, 0, KFi);
    assert [head] + (["then", word] + (["fi"] + [])) == [head, "then", word, "fi"];
  }

  lemma StepOf(seg: string)
    ensures DepthStep(seg) == match FirstKeyword(seg)
                              case KFor | KWhile | KUntil | KIf => 1
                              case KDone | KFi => -1
                              case _ => 0
  {
    hide FirstKeyword;
  }

  lemma GluedLine(text: string)
    requires Trimmed(text) && ';' !in text
    ensures LineParts("then else " + text) == ["then", "else " + text]
  {
    hide FirstKeyword, AfterFirstWord, Trim;
    var word := "else " + text;
    var line := "then " + word;
    Headed(text);
    Headed(word);
    TrimOfTrimmed(line);
    SplitUnbroken(line, SEMICOLON);
    assert line[4] == ' ' && "then else " + text == line;
    assert PieceSegments(line) == ["then", word];
    AloneOnLine(line);
  }

  lemma NothingYielded()
    ensures YieldAll([]) == [] && DerivesAll([]) && MeaningAll([]) == []
  {
  }

  lemma AloneOnLine(piece: string)
    ensures AllPieceSegments([piece]) == PieceSegments(piece)
  {
    assert [piece][1..] == [];
    assert PieceSegments(piece) + AllPieceSegments([]) == PieceSegments(piece);
  }

  lemma CommandLostExample()
    ensures ScriptOf(Join("\n", ["if a", "then else x", "fi"])) == Ok([ShellIf(LitStr("a"), [], [])])
  {
    hide ScriptOf, Join;
    assert "if " + "a" == "if a" && "then else " + "x" == "then else x";
    CommandLostFromSource("a", "x");
  }

  // ---- a body is empty ----

  /** Loops and conditionals without a single command are accepted; the standard has no such block. */
  lemma EmptyBodiesAccepted(cond: string)
    requires Trimmed(cond)
    ensures var loop, choice := ["while " + cond, "do", "done"], ["if " + cond, "then", "fi"];
            && BlockOf(loop) == Ok((ShellLoop(While(LitStr(cond)), []), 3)) && !PosixBlock(loop)
            && BlockOf(choice) == Ok((ShellIf(LitStr(cond), [], []), 3)) && !PosixBlock(choice)
  {
    hide FirstKeyword, AfterFirstWord, BlockOf, PosixBlock, Tidy;
    EmptyLoop(cond);
    EmptyChoice(cond);
    PosixExactly(["while " + cond, "do", "done"]);
    PosixExactly(["if " + cond, "then", "fi"]);
  }

  lemma EmptyLoop(cond: string)
    requires Trimmed(cond)
    ensures var loop := ["while " + cond, "do", "done"];
            BlockOf(loop) == Ok((ShellLoop(While(LitStr(cond)), []), 3)) && !Tidy(loop)
  {
    hide FirstKeyword, AfterFirstWord, BlockOf;
    var head := "while " + cond;
    var segs := [head, "do", "done"];
    Headed(cond);
    BodyWords();
    var c := Loop(head, "do", []);
    NothingYielded();
    assert Yield(c) == segs;
    DerivationIsParsed(segs, c);
    EmptyBodyUntidy(head, "do", "done");
  }

  lemma EmptyChoice(cond: string)
    requires Trimmed(cond)
    ensures var choice := ["if " + cond, "then", "fi"];
            BlockOf(choice) == Ok((ShellIf(LitStr(cond), [], []), 3)) && !Tidy(choice)
  {
    hide FirstKeyword, AfterFirstWord, BlockOf;
    var head := "if " + cond;
    var segs := [head, "then", "fi"];
    Headed(cond);
    BodyWords();
    var c := Conditional(Chain(head, "then", [], Fi));
    NothingYielded();
    assert YieldTail(Fi) == ["fi"] && DerivesTail(Fi) && DerivesChain(c.chain, KIf);
    assert MeaningTail(Fi) == [] && MeaningChain(c.chain, KIf) == ShellIf(LitStr(cond), [], []);
    assert Yield(c) == YieldChain(c.chain) == segs;
    DerivationIsParsed(segs, c);
    EmptyBodyUntidy(head, "then", "fi");
  }

  lemma EmptyBodyUntidy(head: string, word: string, closer: string)
    requires word in {"do", "then"} && closer in {"done", "fi"}
    ensures !Tidy([head, word, closer])
  {
    hide FirstKeyword, Tidy, GoesOn, Glued, NoCommand;
    BodyWords();
    CloserKeywords();
    CloserIsNoComment(closer);
    assert [head, word, closer] == [head] + ([word] + ([closer] + []));
    TidyStep(head, [word] + ([closer] + []));
    TidyStep(word, [closer] + []);
    GoesOnStep(closer, []);
  }
}
