/** The citation stripper on lines as the emitters write them: what each kind of citation does to its line. */
module CitationLines {
  import opened Outcomes
  import opened Text
  import opened Search
  import opened Citations

  // ---- where a text is found ----

  lemma {:induction false} FoundNoLater(s: string, needle: string, i: nat)
    requires i + |needle| <= |s| && s[i..i + |needle|] == needle
    ensures Find(s, needle).Some? && Find(s, needle).value <= i
  {
    hide Find;
    if StartsWith(s, needle) {
      FoundAtOnce(s, needle);
    } else {
      assert i > 0;
      FindStep(s, needle);
      assert s[1..][i - 1..i - 1 + |needle|] == s[i..i + |needle|];
      FoundNoLater(s[1..], needle, i - 1);
    }
  }

  lemma FoundAtOnce(s: string, needle: string)
    requires StartsWith(s, needle)
    ensures Find(s, needle) == Some(0)
  {
  }

  lemma CutNoLater(line: string, m: nat, i: nat)
    requires m < |MARKERS| && i + |MARKERS[m]| <= |line| && line[i..i + |MARKERS[m]|] == MARKERS[m]
    ensures Cut(line, MARKERS).Some? && Cut(line, MARKERS).value <= i
  {
    hide Find, Cut, MARKERS;
    FoundNoLater(line, MARKERS[m], i);
    CutIsEarliest(line, MARKERS, m);
  }

  /** A citation as it is written, with whatever follows it. */
  ghost predicate Cites(s: string) {
    (exists leader, text :: leader in {"//", ";;", "#", "/--", "--"} && s == leader + " xpile-contract" + text)
    || exists text :: s == "@[xpile_contract" + text
  }

  /** Every citation starts with its marker. */
  lemma CitationMarked(s: string) returns (m: nat)
    requires Cites(s)
    ensures m < |MARKERS| && 2 <= |MARKERS[m]| <= |s| && s[..|MARKERS[m]|] == MARKERS[m]
    ensures m == 0 ==> s[..2] == "//"
    ensures m == 1 ==> s[..2] == ";;"
    ensures m == 2 ==> s[..2] == "# "
    ensures m == 3 ==> s[..2] == "/-"
    ensures m == 4 ==> s[..2] == "--"
    ensures m == 5 ==> s[..2] == "@["
    ensures m == 4 <==> s[..2] == "--"
  {
    if leader, text :| leader in {"//", ";;", "#", "/--", "--"} && s == leader + " xpile-contract" + text {
      m := if leader == "//" then 0 else if leader == ";;" then 1 else if leader == "#" then 2
        else if leader == "/--" then 3 else 4;
      LeaderIsMarker(leader, m);
      assert s[..|MARKERS[m]|] == MARKERS[m];
    } else {
      var text :| s == "@[xpile_contract" + text;
      m := 5;
      assert s[..|MARKERS[5]|] == MARKERS[5];
    }
    assert s[..2] == s[..|MARKERS[m]|][..2];
  }

  lemma LeaderIsMarker(leader: string, m: nat)
    requires leader == "//" ==> m == 0
    requires leader == ";;" ==> m == 1
    requires leader == "#" ==> m == 2
    requires leader == "/--" ==> m == 3
    requires leader == "--" ==> m == 4
    requires leader in {"//", ";;", "#", "/--", "--"}
    ensures m < |MARKERS| && MARKERS[m] == leader + " xpile-contract"
  {
    assert "//" + " xpile-contract" == "// xpile-contract";
    assert ";;" + " xpile-contract" == ";; xpile-contract";
    assert "#" + " xpile-contract" == "# xpile-contract";
    assert "/--" + " xpile-contract" == "/-- xpile-contract";
    assert "--" + " xpile-contract" == "-- xpile-contract";
  }

  // ---- a citation alone on its line ----

  /** Behind blanks, a citation takes its whole line with it. */
  lemma CitedLineDropped(blank: string, citation: string)
    requires Blank(blank) && Cites(citation)
    ensures Kept(blank + citation) == None
  {
    hide Cut, Find, Trim, Cites, MARKERS;
    var line := blank + citation;
    var m := CitationMarked(citation);
    assert line[|blank|..|blank| + |MARKERS[m]|] == citation[..|MARKERS[m]|];
    CutNoLater(line, m, |blank|);
    var cut := Cut(line, MARKERS).value;
    assert line[..cut] == blank[..cut];
    TrimOfBlank(blank[..cut]);
  }

  // ---- a citation behind code ----

  /** None of the six texts that start a citation. */
  predicate NothingCited(s: string) {
    && Find(s, "// xpile-contract") == None && Find(s, ";; xpile-contract") == None
    && Find(s, "# xpile-contract") == None && Find(s, "/-- xpile-contract") == None
    && Find(s, "-- xpile-contract") == None && Find(s, "@[xpile_contract") == None
  }

  /** No later part of the marker can be the start of a citation, but for a slash in front of two dashes. */
  predicate NoOverlap(marker: string, start: string)
    requires |start| == 2
  {
    forall t :: 0 < t < |marker| ==> ApartAt(marker, start, t)
  }

  predicate ApartAt(marker: string, start: string, t: nat)
    requires |start| == 2 && t < |marker|
  {
    marker[t] != start[0] || (t + 1 < |marker| && marker[t + 1] != start[1])
  }

  lemma MarkersApart(m: nat, start: string)
    requires m < |MARKERS| && start in {"//", ";;", "# ", "/-", "--", "@["}
    ensures (m == 3 && start == "--") || NoOverlap(MARKERS[m], start)
  {
    match m {
      case 0 => SlashesApart(start);
      case 1 => SemicolonsApart(start);
      case 2 => HashApart(start);
      case 3 => DocstringApart(start);
      case 4 => DashesApart(start);
      case _ => AttributeApart(start);
    }
  }

  lemma SlashesApart(start: string)
    requires start in {"//", ";;", "# ", "/-", "--", "@["}
    ensures NoOverlap("// xpile-contract", start)
  {
  }

  lemma SemicolonsApart(start: string)
    requires start in {"//", ";;", "# ", "/-", "--", "@["}
    ensures NoOverlap(";; xpile-contract", start)
  {
  }

  lemma HashApart(start: string)
    requires start in {"//", ";;", "# ", "/-", "--", "@["}
    ensures NoOverlap("# xpile-contract", start)
  {
  }

  lemma DocstringApart(start: string)
    requires start in {"//", ";;", "# ", "/-", "--", "@["}
    ensures start == "--" || NoOverlap("/-- xpile-contract", start)
  {
  }

  lemma DashesApart(start: string)
    requires start in {"//", ";;", "# ", "/-", "--", "@["}
    ensures NoOverlap("-- xpile-contract", start)
  {
  }

  lemma AttributeApart(start: string)
    requires start in {"//", ";;", "# ", "/-", "--", "@["}
    ensures NoOverlap("@[xpile_contract", start)
  {
  }

  /** Code without a citation starts none that ends in the citation behind it. */
  lemma NoneStraddles(code: string, citation: string, m: nat, i: nat)
    requires NothingCited(code) && Cites(citation) && m < |MARKERS|
    requires citation[..2] == "--" ==> code == "" || code[|code| - 1] != '/'
    requires |citation| >= 2 && i < |code| && i + |MARKERS[m]| <= |code + citation|
    ensures (code + citation)[i..i + |MARKERS[m]|] != MARKERS[m]
  {
    hide Find, NoOverlap;
    var line, marker := code + citation, MARKERS[m];
    var slice := line[i..i + |marker|];
    var k := CitationMarked(citation);
    var start := citation[..2];
    if i + |marker| <= |code| {
      NotFound(code, marker, i);
      assert slice == code[i..i + |marker|];
    } else {
      var t := |code| - i;
      MarkersApart(m, start);
      assert slice[t] == start[0] && slice[0] == code[i];
      assert t + 1 < |marker| ==> slice[t + 1] == start[1];
      if m == 3 && start == "--" {
        DocstringSlash(marker, slice, t);
        assert slice[t - 1] == code[|code| - 1];
      } else {
        OverlapDiffers(marker, start, slice, t);
      }
    }
  }

  lemma OverlapDiffers(marker: string, start: string, slice: string, t: nat)
    requires |start| == 2 && NoOverlap(marker, start) && |slice| == |marker| && 0 < t < |marker|
    requires slice[t] == start[0] && (t + 1 < |marker| ==> slice[t + 1] == start[1])
    ensures slice != marker
  {
    assert ApartAt(marker, start, t);
  }

  /** In the docstring marker, two dashes come only behind its slash. */
  lemma DocstringSlash(marker: string, slice: string, t: nat)
    requires marker == "/-- xpile-contract" && |slice| == |marker| && 0 < t < |slice|
    requires slice[t] == '-' && (t + 1 < |slice| ==> slice[t + 1] == '-')
    ensures slice == marker ==> slice[t - 1] == '/'
  {
    assert marker[0] == '/' && marker[2] == '-' && marker[3] == ' ' && marker[9] == '-' && marker[10] == 'c';
    assert forall k :: 1 < k < |marker| && marker[k] == '-' ==> k == 2 || k == 9;
    if slice == marker {
      assert t == 1;
    }
  }

  /** Behind code that cites nothing, exactly the code without its trailing blanks remains. */
  lemma CodeRemains(code: string, citation: string)
    requires NothingCited(code) && Trim(code) != "" && Cites(citation)
    requires citation[..2] == "--" ==> code[|code| - 1] != '/'
    ensures Kept(code + citation) == Some(TrimEnd(code))
  {
    hide Cut, Find, Trim, TrimEnd, NothingCited, Cites, MARKERS;
    var line := code + citation;
    var m := CitationMarked(citation);
    assert line[|code|..|code| + |MARKERS[m]|] == citation[..|MARKERS[m]|];
    CutNoLater(line, m, |code|);
    var cut := Cut(line, MARKERS).value;
    CutIsMarker(line, MARKERS);
    if cut < |code| {
      var k :| 0 <= k < |MARKERS| && cut + |MARKERS[k]| <= |line| && line[cut..cut + |MARKERS[k]|] == MARKERS[k];
      NoneStraddles(code, citation, k, cut);
    }
    assert line[..|code|] == code;
  }

  lemma {:induction false} CutIsMarker(line: string, markers: seq<string>)
    requires Cut(line, markers).Some?
    ensures var cut := Cut(line, markers).value;
      exists k :: 0 <= k < |markers| && cut + |markers[k]| <= |line| && line[cut..cut + |markers[k]|] == markers[k]
  {
    hide Find;
    var cut := Cut(line, markers).value;
    if Find(line, markers[0]) == Some(cut) {
      FoundThere(line, markers[0]);
      assert line[cut..cut + |markers[0]|] == markers[0];
    } else {
      CutIsMarker(line, markers[1..]);
      var k :| 0 <= k < |markers[1..]| && cut + |markers[1..][k]| <= |line|
        && line[cut..cut + |markers[1..][k]|] == markers[1..][k];
      assert markers[1..][k] == markers[k + 1];
    }
  }

  /** A line that cites nothing is kept as it is. */
  lemma UncitedKept(line: string)
    requires NothingCited(line)
    ensures Kept(line) == Some(line)
  {
    hide Find, Cut;
    UnmarkedKept(line);
  }

  // ---- a text with a cited line ----

  /** A cited line in front of a text is as if it were not there. */
  lemma CitedLineGone(blank: string, citation: string, rest: string)
    requires Blank(blank) && Cites(citation) && '\n' !in blank + citation && '\r' !in blank + citation
    ensures Strip(blank + citation + "\n" + rest) == Strip(rest)
  {
    hide Kept, Split, Join;
    var line := blank + citation;
    CitedLineDropped(blank, citation);
    FirstLineOf(line, rest);
    KeptBehind(line, Lines(rest));
    if rest == "" {
      LinesOfNothing();
      assert KeptLines([]) == [];
    } else {
      var text := line + "\n" + rest;
      assert text[|text| - 1] == rest[|rest| - 1];
    }
  }

  lemma FirstLineOf(line: string, rest: string)
    requires '\n' !in line && '\r' !in line
    ensures Lines(line + "\n" + rest) == [line] + Lines(rest)
  {
    hide Split;
    assert line + "\n" + rest == line + ['\n'] + rest;
    SplitAtSeparator(line, '\n', rest, NEWLINE);
    SplitUnbroken(line, NEWLINE);
    var pieces := Split(rest, NEWLINE);
    var all := [line] + pieces;
    assert all[|all| - 1] == pieces[|pieces| - 1];
    assert WithoutCarriageReturn(line) == line by {
      assert line != "" ==> line[|line| - 1] in line;
    }
  }

  lemma {:induction false} KeptBehind(line: string, lines: seq<string>)
    requires Kept(line) == None
    ensures KeptLines([line] + lines) == KeptLines(lines)
    decreases |lines|
  {
    hide Kept;
    var all := [line] + lines;
    if lines == [] {
      assert all[..0] == [] && all == [line];
    } else {
      var n := |lines| - 1;
      assert all[..|all| - 1] == [line] + lines[..n] && all[|all| - 1] == lines[n];
      KeptBehind(line, lines[..n]);
    }
  }
}
