/** `strip_contract_citations`: emitted text with its contract citations removed. */
module Citations {
  import opened Outcomes
  import opened Text
  import opened Search

  const MARKERS: seq<string> := [
    "// xpile-contract",
    ";; xpile-contract",
    "# xpile-contract",
    "/-- xpile-contract",
    "-- xpile-contract",
    "@[xpile_contract"
  ]

  function Earlier(a: Option<nat>, b: Option<nat>): Option<nat> {
    if a == None then b else if b == None || a.value <= b.value then a else b
  }

  /** The earliest position of any of the markers. */
  function Cut(line: string, markers: seq<string>): (cut: Option<nat>)
    ensures cut.Some? ==> cut.value <= |line|
  {
    if markers == [] then None else Earlier(Find(line, markers[0]), Cut(line, markers[1..]))
  }

  /** A cited line is dropped, or loses its citation when code stands before it. */
  function Kept(line: string): Option<string> {
    var cut := Cut(line, MARKERS);
    if cut == None then Some(line)
    else if Trim(line[..cut.value]) == "" then None
    else Some(TrimEnd(line[..cut.value]))
  }

  function KeptLines(lines: seq<string>): seq<string> {
    if lines == [] then []
    else
      var last := Kept(lines[|lines| - 1]);
      KeptLines(lines[..|lines| - 1]) + if last.Some? then [last.value] else []
  }

  predicate EndsNewline(s: string) {
    s != "" && s[|s| - 1] == '\n'
  }

  function Strip(text: string): string {
    var body := Join("\n", KeptLines(Lines(text)));
    if EndsNewline(text) && body != "" then body + "\n" else body
  }

  method StripContractCitations(text: string) returns (out: string)
    ensures out == Strip(text)
  {
    hide Kept, Lines;
    out := "";
    var first := true;
    var lines := Lines(text);
    for i := 0 to |lines|
      invariant first <==> KeptLines(lines[..i]) == []
      invariant out == Join("\n", KeptLines(lines[..i]))
    {
      assert lines[..i + 1][..i] == lines[..i];
      var kept := Kept(lines[i]);
      ghost var before := KeptLines(lines[..i]);
      assert KeptLines(lines[..i + 1]) == if kept.Some? then before + [kept.value] else before;
      if kept.Some? {
        if !first {
          JoinAppend("\n", before, [kept.value]);
          out := out + "\n";
        }
        out := out + kept.value;
        first := false;
      }
    }
    assert lines[..|lines|] == lines;
    if EndsNewline(text) && out != "" {
      out := out + "\n";
    }
  }

  // ---- markers ----

  predicate Unmarked(line: string) {
    forall i :: 0 <= i < |MARKERS| ==> Find(line, MARKERS[i]) == None
  }

  lemma {:induction false} CutIsEarliest(line: string, markers: seq<string>, i: nat)
    requires i < |markers| && Find(line, markers[i]).Some?
    ensures Cut(line, markers).Some? && Cut(line, markers).value <= Find(line, markers[i]).value
    decreases i
  {
    hide Find;
    if i > 0 {
      assert markers[1..][i - 1] == markers[i];
      CutIsEarliest(line, markers[1..], i - 1);
    }
  }

  lemma {:induction false} CutOfUnmarked(line: string, markers: seq<string>)
    requires forall i :: 0 <= i < |markers| ==> Find(line, markers[i]) == None
    ensures Cut(line, markers) == None
  {
    hide Find;
    if markers != [] {
      CutOfUnmarked(line, markers[1..]);
    }
  }

  lemma MarkerCuts(line: string, i: nat)
    requires i < |MARKERS| && Cut(line, MARKERS) == None
    ensures Find(line, MARKERS[i]) == None
  {
    if Find(line, MARKERS[i]).Some? {
      CutIsEarliest(line, MARKERS, i);
    }
  }

  lemma UnmarkedKept(line: string)
    requires Unmarked(line)
    ensures Kept(line) == Some(line)
  {
    hide Find, Cut;
    CutOfUnmarked(line, MARKERS);
  }

  /** A line is left untouched exactly when it contains no marker, wherever in the line a marker would stand. */
  lemma UntouchedExactly(line: string)
    ensures Kept(line) == Some(line) <==> Unmarked(line)
  {
    hide Find, Cut, Trim, TrimEnd;
    if Unmarked(line) {
      UnmarkedKept(line);
    } else {
      var i :| 0 <= i < |MARKERS| && Find(line, MARKERS[i]) != None;
      assert |MARKERS[i]| > 0;
      CutIsEarliest(line, MARKERS, i);
      TrimEndShape(line[..Cut(line, MARKERS).value]);
    }
  }

  /** A mere mention is cut too: `s = "a // xpile-contract"` loses the end of its literal. */
  lemma MentionIsCut()
    ensures Kept("s = \"a // xpile-contract\"") == Some("s = \"a")
  {
    hide Cut, Find;
    var pre, line := "s = \"a ", "s = \"a // xpile-contract\"";
    var tail := MARKERS[0] + "\"";
    assert line == pre + tail;
    FindPastOthers(pre, MARKERS[0], tail);
    MentionStarts(tail);
    forall k | 0 < k < |MARKERS| ensures Find(line, MARKERS[k]) == None {
      FindNeedsPair(line, MARKERS[k]);
    }
    OnlyFirstCuts(line, MARKERS);
    assert line[..|pre|] == pre && pre[..|pre| - 1] == "s = \"a" && TrimStart(pre) == pre;
  }

  lemma MentionStarts(tail: string)
    requires StartsWith(tail, MARKERS[0])
    ensures Find(tail, MARKERS[0]) == Some(0)
  {
  }

  lemma OnlyFirstCuts(line: string, markers: seq<string>)
    requires markers != [] && Find(line, markers[0]).Some?
    requires forall k :: 0 < k < |markers| ==> Find(line, markers[k]) == None
    ensures Cut(line, markers) == Find(line, markers[0])
  {
    hide Find;
    CutOfUnmarked(line, markers[1..]);
  }

  /** No kept line contains a marker: what precedes the earliest one has none. */
  lemma KeptIsUnmarked(line: string)
    ensures Kept(line).Some? ==> Unmarked(Kept(line).value)
  {
    hide Find, Cut, Trim;
    var cut := Cut(line, MARKERS);
    forall i | Kept(line).Some? && 0 <= i < |MARKERS| ensures Find(Kept(line).value, MARKERS[i]) == None {
      assert |MARKERS[i]| > 0;
      if cut == None {
        MarkerCuts(line, i);
      } else {
        var pre := line[..cut.value];
        TrimEndShape(pre);
        var kept := TrimEnd(pre);
        assert line == kept + line[|kept|..];
        if Find(kept, MARKERS[i]).Some? {
          FindInPrefix(kept, MARKERS[i], line[|kept|..]);
          CutIsEarliest(line, MARKERS, i);
        }
      }
    }
  }

  // ---- lines of the output ----

  predicate Printable(lines: seq<string>) {
    forall i :: 0 <= i < |lines| ==> '\n' !in lines[i] && '\r' !in lines[i]
  }

  lemma {:induction false} KeptOfUnmarked(lines: seq<string>)
    requires forall i :: 0 <= i < |lines| ==> Unmarked(lines[i])
    ensures KeptLines(lines) == lines
  {
    hide Kept, Unmarked;
    if lines != [] {
      var n := |lines| - 1;
      KeptOfUnmarked(lines[..n]);
      UnmarkedKept(lines[n]);
      assert lines[..n] + [lines[n]] == lines;
    }
  }

  lemma {:induction false} KeptLinesClean(lines: seq<string>)
    requires Printable(lines)
    ensures Printable(KeptLines(lines))
    ensures forall i :: 0 <= i < |KeptLines(lines)| ==> Unmarked(KeptLines(lines)[i])
  {
    hide Kept, Unmarked;
    if lines != [] {
      var n := |lines| - 1;
      KeptLinesClean(lines[..n]);
      KeptIsUnmarked(lines[n]);
      KeptStartsLine(lines[n]);
    }
  }

  lemma KeptStartsLine(line: string)
    ensures Kept(line).Some? ==> Kept(line).value <= line
  {
    hide Cut, Trim;
    var cut := Cut(line, MARKERS);
    if cut.Some? {
      TrimEndShape(line[..cut.value]);
    }
  }

  lemma SplitClean(text: string)
    requires '\r' !in text
    ensures Printable(Split(text, NEWLINE))
  {
    hide Split;
    SplitPieces(text, NEWLINE);
    var ps := Split(text, NEWLINE);
    forall i | 0 <= i < |ps| ensures '\r' !in ps[i] && '\n' !in ps[i] {
      assert Without(ps[i], NEWLINE);
    }
  }

  lemma LinesPrintable(text: string)
    requires '\r' !in text
    ensures Printable(Lines(text))
    ensures Lines(text) == var ps := Split(text, NEWLINE); if ps[|ps| - 1] == "" then ps[..|ps| - 1] else ps
  {
    hide Split;
    SplitClean(text);
    var ps := Split(text, NEWLINE);
    forall i | 0 <= i < |ps| ensures WithoutCarriageReturn(ps[i]) == ps[i] {
      assert '\r' !in ps[i];
    }
  }

  lemma LinesOfJoined(ls: seq<string>)
    requires Printable(ls) && ls != []
    ensures Lines(Join("\n", ls)) == if ls[|ls| - 1] == "" then ls[..|ls| - 1] else ls
    ensures Lines(Join("\n", ls) + "\n") == ls
  {
    hide Split, Join;
    var body := Join("\n", ls);
    assert "\n" == ['\n'] && NEWLINE == {'\n'};
    SplitJoined('\n', ls) by {
      forall k | 0 <= k < |ls| ensures Without(ls[k], {'\n'}) {
        forall i | 0 <= i < |ls[k]| ensures ls[k][i] !in {'\n'} {
          assert ls[k][i] in ls[k];
        }
      }
    }
    SplitAtSeparator(body, '\n', "", NEWLINE);
    assert body + "\n" + "" == body + "\n";
    SplitOfNothing();
    JoinedReturns(ls);
    LinesPrintable(body);
    LinesPrintable(body + "\n");
    assert (ls + [""])[..|ls|] == ls;
  }

  lemma SplitOfNothing()
    ensures Split("", NEWLINE) == [""]
  {
  }

  lemma {:induction false} JoinedReturns(ls: seq<string>)
    requires Printable(ls)
    ensures '\r' !in Join("\n", ls)
  {
    if |ls| > 1 {
      JoinedReturns(ls[1..]);
    }
  }

  lemma {:induction false} JoinedEnd(ls: seq<string>)
    requires Printable(ls) && ls != []
    ensures EndsNewline(Join("\n", ls)) <==> |ls| > 1 && ls[|ls| - 1] == ""
    ensures Join("\n", ls) == "" <==> ls == [""]
    ensures |ls| > 1 && ls[|ls| - 1] == "" ==> Join("\n", ls) == Join("\n", ls[..|ls| - 1]) + "\n"
  {
    if |ls| == 1 {
      assert ls[0] != "" ==> ls[0][|ls[0]| - 1] in ls[0];
    } else {
      var rest := ls[1..];
      JoinedEnd(rest);
      var whole, tail := Join("\n", ls), Join("\n", rest);
      assert whole == ls[0] + "\n" + tail;
      assert tail != "" ==> whole[|whole| - 1] == tail[|tail| - 1];
      if ls[|ls| - 1] == "" {
        assert ls[..|ls| - 1][1..] == rest[..|rest| - 1];
        if |ls| > 2 {
          Associative(ls[0] + "\n", Join("\n", rest[..|rest| - 1]), "\n");
        } else {
          assert ls[..1] == [ls[0]] && rest == [""];
        }
      }
    }
  }

  // ---- main results ----

  /**
   * Reading the stripped text line by line gives exactly the kept lines, unless the last one is empty and nothing
   * ends it: then it is lost.
   */
  lemma StrippedLines(text: string)
    requires '\r' !in text
    ensures var kept := KeptLines(Lines(text));
      Lines(Strip(text)) == kept <==>
      (if EndsNewline(text) then kept != [""] else kept == [] || kept[|kept| - 1] != "")
  {
    hide KeptLines, Lines, Join;
    LinesPrintable(text);
    KeptLinesClean(Lines(text));
    var kept := KeptLines(Lines(text));
    LinesOfNothing();
    if kept != [] {
      JoinedEnd(kept);
      LinesOfJoined(kept);
    }
  }

  lemma LinesOfNothing()
    ensures Lines("") == [] && Join("\n", []) == ""
  {
  }

  /** No line of the stripped text contains a citation marker. */
  lemma NoMarkerLeft(text: string, i: nat)
    requires '\r' !in text && i < |Lines(Strip(text))|
    ensures Unmarked(Lines(Strip(text))[i])
  {
    hide KeptLines, Lines, Join, Unmarked;
    LinesPrintable(text);
    KeptLinesClean(Lines(text));
    var kept := KeptLines(Lines(text));
    LinesOfNothing();
    if kept != [] {
      JoinedEnd(kept);
      LinesOfJoined(kept);
    }
  }

  /** Text without citations comes back unchanged, unless it is a single empty line. */
  lemma UncitedUnchanged(text: string)
    requires '\r' !in text && forall i :: 0 <= i < |Lines(text)| ==> Unmarked(Lines(text)[i])
    ensures Strip(text) == text <==> text != "\n"
  {
    hide KeptLines, Lines, Join, Unmarked, Split;
    KeptOfUnmarked(Lines(text));
    LinesPrintable(text);
    LinesOfNothing();
    var ps := Split(text, NEWLINE);
    JoinedSplit(text, '\n');
    assert Join("\n", ps) == text by { assert "\n" == ['\n'] && NEWLINE == {'\n'}; }
    SplitClean(text);
    JoinedEnd(ps);
    JoinOne(ps);
    if |ps| > 1 && ps[|ps| - 1] == "" {
      JoinedEnd(ps[..|ps| - 1]);
    }
  }

  lemma JoinOne(ps: seq<string>)
    ensures |ps| == 1 ==> Join("\n", ps) == ps[0]
  {
  }

  /** Stripping twice is stripping once, exactly unless the first pass leaves a single empty line. */
  lemma StripTwice(text: string)
    requires '\r' !in text
    ensures Strip(Strip(text)) == Strip(text) <==> Strip(text) != "\n"
  {
    hide Lines, Join, Unmarked, KeptLines, Strip;
    StrippedReturns(text);
    forall i | 0 <= i < |Lines(Strip(text))| ensures Unmarked(Lines(Strip(text))[i]) {
      NoMarkerLeft(text, i);
    }
    UncitedUnchanged(Strip(text));
  }

  lemma StrippedReturns(text: string)
    requires '\r' !in text
    ensures '\r' !in Strip(text)
  {
    hide Lines, Join, Unmarked, KeptLines;
    LinesPrintable(text);
    KeptLinesClean(Lines(text));
    JoinedReturns(KeptLines(Lines(text)));
  }

  /** Text whose last line is ended is stripped for good by one pass. */
  lemma EndedTextStripsOnce(text: string)
    requires '\r' !in text && EndsNewline(text)
    ensures Strip(Strip(text)) == Strip(text)
  {
    hide Lines, KeptLines, Join;
    LinesPrintable(text);
    KeptLinesClean(Lines(text));
    var kept := KeptLines(Lines(text));
    LinesOfNothing();
    StripTwice(text);
    var body := Join("\n", kept);
    assert body != "" ==> |body + "\n"| > 1;
    if kept != [] {
      JoinedEnd(kept);
    }
  }
}
