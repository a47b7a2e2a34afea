/** Printing a top-level `case` and reading it again gives the word and the padded arms. */
module CaseRoundTrip {
  import opened Outcomes
  import opened Text
  import opened ShellAst
  import opened Tokenizer
  import opened TokenText
  import opened FlatLines
  import opened Blocks
  import opened Grammar
  import opened Cases
  import opened Printer
  import opened FlatRoundTrip
  import opened WellFormed
  import opened Derivations
  import opened Layout
  import opened ArmBodies

  // ---- the region ----

  lemma {:induction false} PartsWithoutCase(parts: seq<string>, depth: int)
    requires forall p :: p in parts ==> OpensNoCase(p)
    ensures ScanParts(parts, depth) == (depth, false)
  {
    hide KeywordOf, FirstWord, Trim;
    if parts != [] {
      FirstWordOfTrim(parts[0]);
      assert OpensNoCase(parts[0]);
      PartsWithoutCase(parts[1..], depth);
    }
  }

  /** Lines without `case` and `esac` leave the region open. */
  lemma {:induction false} RegionPasses(lines: seq<string>, i: nat, n: nat, depth: int)
    requires i + n <= |lines| && forall k :: i <= k < i + n ==> CaseFree(lines[k])
    ensures RegionEnd(lines, i, depth) == RegionEnd(lines, i + n, depth)
    decreases n
  {
    hide CaseFree, ScanParts, Split;
    if n > 0 {
      LinePasses(lines[i], depth);
      RegionPasses(lines, i + 1, n - 1, depth);
    }
  }

  lemma LinePasses(line: string, depth: int)
    requires CaseFree(line)
    ensures ScanParts(Split(line, COMMAND_SEPARATORS), depth) == (depth, false)
  {
    hide ScanParts, Split, OpensNoCase;
    PartsWithoutCase(Split(line, COMMAND_SEPARATORS), depth);
  }

  /** The head line opens one level. */
  lemma HeadOpens(word: Expr)
    requires WellFormedWord(word)
    ensures ScanParts(Split("case " + ArgText(word) + " in", COMMAND_SEPARATORS), 0) == (1, false)
    ensures FirstKeyword("case " + ArgText(word) + " in") == KCase
  {
    hide KeywordOf, FirstWord, Trim, Split, ArgText, WellFormedArg;
    var line := "case " + ArgText(word) + " in";
    var rest := " " + ArgText(word) + " in";
    assert line == "case" + rest;
    KeywordPart(KCase, rest);
    FirstPart(line);
    var parts := Split(line, COMMAND_SEPARATORS);
    FirstWordOfTrim(parts[0]);
    forall p | p in parts[1..] ensures OpensNoCase(p) {
      var k :| 0 <= k < |parts[1..]| && parts[1..][k] == p;
      assert parts[k + 1] == p;
    }
    PartsWithoutCase(parts[1..], 1);
  }

  lemma FirstPart(line: string)
    requires FirstKeyword(line) != NoKeyword
    ensures FirstWord(Split(line, COMMAND_SEPARATORS)[0]) == FirstWord(line)
  {
    FirstWordSurvivesSplit(line, COMMAND_SEPARATORS);
  }

  lemma EsacCloses()
    ensures ScanParts(Split("esac", COMMAND_SEPARATORS), 1) == (0, true)
  {
    hide KeywordOf, FirstWord, Trim;
    KeywordAlone(KEsac);
    SpellingUnbroken(KEsac);
    SplitUnbroken("esac", COMMAND_SEPARATORS);
    TrimOfTrimmed("esac");
  }

  lemma ArmEndIsCaseFree()
    ensures CaseFree(";;")
  {
    assert ";;" == "" + [';'] + ";";
    assert ";" == "" + [';'] + "";
    SplitAtSeparator("", ';', ";", COMMAND_SEPARATORS);
    SplitAtSeparator("", ';', "", COMMAND_SEPARATORS);
    assert Split(";;", COMMAND_SEPARATORS) == ["", "", ""];
    assert FirstWord("") == "";
  }

  lemma {:induction false} ArmsAreCaseFree(arms: seq<CaseArm>)
    requires WellFormedArms(arms)
    ensures forall l :: l in SkeletonOfArms(arms) ==> CaseFree(l)
    decreases arms
  {
    hide CaseFree, SkeletonOfAll, WellFormedBody, PatternLine;
    if arms != [] {
      ArmEndIsCaseFree();
      AllAreArmLines(arms[0].body);
      PatternIsCaseFree(arms[0].patterns);
      ArmsAreCaseFree(arms[1..]);
    }
  }

  lemma PatternIsCaseFree(patterns: seq<string>)
    requires WellFormedPatterns(patterns)
    ensures CaseFree(PatternLine(patterns))
  {
    hide FirstKeyword, Split;
  }

  /** The region of a printed `case` ends behind its own `esac`. */
  lemma RegionIsWhole(word: Expr, arms: seq<CaseArm>, lines: seq<string>, i: nat)
    requires WellFormedWord(word) && WellFormedArms(arms)
    requires At(lines, i, ["case " + ArgText(word) + " in"] + SkeletonOfArms(arms) + ["esac"])
    ensures RegionEnd(lines, i, 0) == Some(i + |SkeletonOfArms(arms)| + 2)
  {
    hide ScanParts, SkeletonOfArms, CaseFree, Split, WellFormedWord, WellFormedArms, ArgText;
    var first, inner := ["case " + ArgText(word) + " in"], SkeletonOfArms(arms);
    AtFirst(lines, i, first + inner + ["esac"]);
    HeadOpens(word);
    EsacCloses();
    ArmsAreCaseFree(arms);
    forall k | i + 1 <= k < i + 1 + |inner| ensures CaseFree(lines[k]) {
      assert lines[i + (k - i)] == (first + inner + ["esac"])[k - i] == inner[k - i - 1];
      assert inner[k - i - 1] in inner;
    }
    RegionPasses(lines, i + 1, |inner|, 1);
    assert lines[i + (1 + |inner|)] == (first + inner + ["esac"])[1 + |inner|] == "esac";
  }

  // ---- the text of the arms ----

  lemma {:induction false} JoinedLinesSpaced(lines: seq<string>)
    requires lines != [] && forall l :: l in lines ==> Trimmed(l) && SemicolonsSpaced(l)
    ensures Trimmed(Join("\n", lines)) && SemicolonsSpaced(Join("\n", lines))
    ensures Join("\n", lines)[0] == lines[0][0]
  {
    assert lines[0] in lines;
    if |lines| > 1 {
      var rest := Join("\n", lines[1..]);
      assert forall l :: l in lines[1..] ==> l in lines;
      JoinedLinesSpaced(lines[1..]);
      assert Join("\n", lines) == lines[0] + "\n" + rest;
      SpacedAppend(lines[0], "\n" + rest);
    }
  }

  lemma SpacedAppend(a: string, b: string)
    requires SemicolonsSpaced(a) && (SemicolonsSpaced(b) || (b != "" && b[0] == '\n' && SemicolonsSpaced(b[1..])))
    ensures SemicolonsSpaced(a + b)
  {
    var s := a + b;
    forall i | 0 <= i < |s| && s[i] == ';' ensures i + 1 < |s| && s[i + 1] == ' ' {
      if i < |a| {
        assert a[i] == ';' && a[i + 1] == ' ';
      } else if !SemicolonsSpaced(b) {
        assert b[1..][i - |a| - 1] == ';' && b[1..][i - |a|] == ' ';
      } else {
        assert b[i - |a|] == ';';
      }
    }
  }

  /** A spaced text is one chunk in front of `;;`. */
  lemma {:induction false} SplitArmsAt(a: string, b: string)
    requires SemicolonsSpaced(a)
    ensures SplitArms(a + ";;" + b) == [a] + SplitArms(b)
    decreases |a|
  {
    var s := a + ";;" + b;
    if a == "" {
      assert s[0] == ';' && s[1] == ';' && s[2..] == b;
    } else {
      assert s[1..] == a[1..] + ";;" + b;
      assert SemicolonsSpaced(a[1..]) by {
        forall i | 0 <= i < |a| - 1 && a[1..][i] == ';' ensures i + 1 < |a| - 1 && a[1..][i + 1] == ' ' {
          assert a[i + 1] == ';';
        }
      }
      SplitArmsAt(a[1..], b);
      assert s[0] == ';' ==> s[1] == a[1] == ' ';
      assert [s[0]] + a[1..] == a;
    }
  }

  function ArmChunk(arm: CaseArm): string {
    Join("\n", [PatternLine(arm.patterns)] + SkeletonOfAll(arm.body))
  }

  /** The arms behind each other, each with its `;;`. */
  function ArmsChunks(arms: seq<CaseArm>): string {
    if arms == [] then ""
    else ArmChunk(arms[0]) + "\n;;" + (if |arms| == 1 then "" else "\n" + ArmsChunks(arms[1..]))
  }

  lemma {:induction false} ArmsTextIsChunks(arms: seq<CaseArm>)
    requires arms != []
    ensures SkeletonOfArms(arms) != []
    ensures Join("\n", SkeletonOfArms(arms)) == ArmsChunks(arms)
  {
    hide SkeletonOfAll, Join, PatternLine;
    var first := [PatternLine(arms[0].patterns)] + SkeletonOfAll(arms[0].body);
    JoinAppend("\n", first, [";;"]);
    JoinOne(";;");
    if |arms| == 1 {
      assert SkeletonOfArms(arms[1..]) == [];
      assert SkeletonOfArms(arms) == first + [";;"];
      assert Join("\n", first) + "\n" + ";;" == ArmChunk(arms[0]) + "\n;;" + "";
    } else {
      ArmsTextIsChunks(arms[1..]);
      JoinAppend("\n", first + [";;"], SkeletonOfArms(arms[1..]));
      assert SkeletonOfArms(arms) == first + [";;"] + SkeletonOfArms(arms[1..]);
      assert Join("\n", first) + "\n" + ";;" + "\n" + ArmsChunks(arms[1..])
          == ArmChunk(arms[0]) + "\n;;" + ("\n" + ArmsChunks(arms[1..]));
    }
  }

  lemma JoinOne(s: string)
    ensures Join("\n", [s]) == s
  {
  }

  lemma PatternIsSpaced(patterns: seq<string>)
    requires WellFormedPatterns(patterns)
    ensures Trimmed(PatternLine(patterns)) && SemicolonsSpaced(PatternLine(patterns))
  {
    PatternsText(patterns);
    var text := Join("|", patterns);
    forall i | 0 <= i < |text| ensures text[i] != ';' {
      assert text[i] in text;
    }
  }

  lemma ChunkIsSpaced(arm: CaseArm)
    requires WellFormedPatterns(arm.patterns) && WellFormedBody(arm.body, InArm)
    ensures Trimmed(ArmChunk(arm)) && SemicolonsSpaced(ArmChunk(arm))
  {
    hide SkeletonOfAll, Join, PatternLine, WellFormedPatterns, WellFormedBody, Trimmed, SemicolonsSpaced, CaseFree;
    PatternIsSpaced(arm.patterns);
    AllAreArmLines(arm.body);
    JoinedLinesSpaced([PatternLine(arm.patterns)] + SkeletonOfAll(arm.body));
  }

  // ---- one arm ----

  lemma PatternTrimmed(p: string)
    requires WellFormedPattern(p)
    ensures Trim(p) == p && p != "" && Without(p, PIPE)
  {
    forall i | 0 <= i < |p| ensures p[i] !in PIPE {
      assert p[i] in p;
    }
    TrimOfTrimmed(p);
  }

  lemma {:induction false} PatternsKept(patterns: seq<string>)
    requires forall k :: 0 <= k < |patterns| ==> WellFormedPattern(patterns[k])
    ensures NonEmptyTrimmed(patterns) == patterns
  {
    hide Trim, WellFormedPattern;
    if patterns != [] {
      PatternTrimmed(patterns[0]);
      PatternsKept(patterns[1..]);
      assert [patterns[0]] + patterns[1..] == patterns;
    }
  }

  lemma PatternsReadBack(patterns: seq<string>)
    requires WellFormedPatterns(patterns)
    ensures NonEmptyTrimmed(Split(Trim(Join("|", patterns)), PIPE)) == patterns
    ensures ')' !in Join("|", patterns)
  {
    hide WellFormedPattern, Join, Split;
    PatternsText(patterns);
    TrimOfTrimmed(Join("|", patterns));
    forall k | 0 <= k < |patterns| ensures Without(patterns[k], PIPE) {
      PatternTrimmed(patterns[k]);
    }
    SplitJoined('|', patterns);
    PatternsKept(patterns);
  }

  /** Joined trimmed lines are split into the same lines. */
  lemma JoinedLines(lines: seq<string>)
    requires lines != [] && forall l :: l in lines ==> Trimmed(l) && '\n' !in l
    ensures Lines(Join("\n", lines)) == lines
  {
    hide Join, Split;
    forall k | 0 <= k < |lines| ensures Without(lines[k], NEWLINE) && WithoutCarriageReturn(lines[k]) == lines[k] {
      assert lines[k] in lines;
    }
    SplitJoined('\n', lines);
    assert lines[|lines| - 1] in lines;
  }

  lemma NoLinesAtAll()
    ensures Lines("") == []
  {
  }

  /** The body of a printed arm is parsed as its padded statements. */
  lemma ArmBodyRoundTrip(body: seq<Stmt>)
    requires WellFormedBody(body, InArm)
    ensures var r := SegmentSeq(SegmentsOf(Join("\n", SkeletonOfAll(body))), 0, {}); r.Ok? && r.value.0 == PadAll(body)
    ensures Trim(Join("\n", SkeletonOfAll(body))) == Join("\n", SkeletonOfAll(body))
  {
    hide SkeletonOfAll, Join, WellFormedBody, Lines, CaseFree, Trim, YieldAll, CstsOf, MeaningAll, DerivesAll, PadAll,
         LineSegments;
    var lines := SkeletonOfAll(body);
    AllAreArmLines(body);
    AllSegments(body);
    AllDerive(body, InArm);
    var segs := YieldAll(CstsOf(body));
    ArmBodyLines(body);
    assert At(segs, 0, segs) by {
      assert segs[0..0 + |segs|] == segs;
    }
    CompleteAll(segs, 0, CstsOf(body), {});
    EndOfSegments(segs);
    assert PadAll(body) + [] == PadAll(body);
  }

  lemma EndOfSegments(segs: seq<string>)
    ensures SegmentSeq(segs, |segs|, {}) == Ok(([], |segs|, NoKeyword))
  {
  }

  lemma ArmBodyLines(body: seq<Stmt>)
    requires WellFormedBody(body, InArm) && ArmLines(SkeletonOfAll(body)) && (body != [] ==> SkeletonOfAll(body) != [])
    ensures Lines(Join("\n", SkeletonOfAll(body))) == SkeletonOfAll(body)
    ensures Trim(Join("\n", SkeletonOfAll(body))) == Join("\n", SkeletonOfAll(body))
  {
    hide Lines, CaseFree;
    var lines := SkeletonOfAll(body);
    if body == [] {
      NoLinesAtAll();
    } else {
      JoinedLines(lines);
      JoinedLinesSpaced(lines);
      TrimOfTrimmed(Join("\n", lines));
    }
  }

  lemma ChunkShape(arm: CaseArm) returns (rest: string)
    ensures ArmChunk(arm) == Join("|", arm.patterns) + [')'] + rest
    ensures rest == if SkeletonOfAll(arm.body) == [] then "" else "\n" + Join("\n", SkeletonOfAll(arm.body))
  {
    hide SkeletonOfAll, Join;
    var lines := SkeletonOfAll(arm.body);
    rest := if lines == [] then "" else "\n" + Join("\n", lines);
    JoinOne(PatternLine(arm.patterns));
    if lines == [] {
      assert [PatternLine(arm.patterns)] + [] == [PatternLine(arm.patterns)];
    } else {
      JoinAppend("\n", [PatternLine(arm.patterns)], lines);
    }
  }

  /** A printed arm is read back as its patterns and its padded body. */
  lemma ArmRoundTrip(arm: CaseArm)
    requires WellFormedPatterns(arm.patterns) && WellFormedBody(arm.body, InArm)
    ensures ArmOf(ArmChunk(arm)) == Ok(CaseArm(arm.patterns, PadAll(arm.body)))
  {
    hide SkeletonOfAll, Join, WellFormedBody, SegmentsOf, SegmentSeq, Split, Trim, NonEmptyTrimmed, ArmChunk, PadAll;
    var chunk, pats := ArmChunk(arm), Join("|", arm.patterns);
    var rest := ChunkShape(arm);
    PatternsReadBack(arm.patterns);
    IndexOfFirst(pats, ')', rest);
    assert chunk[..|pats|] == pats && chunk[|pats| + 1..] == rest;
    ArmBodyRoundTrip(arm.body);
    assert Trim(rest) == Join("\n", SkeletonOfAll(arm.body)) by {
      if SkeletonOfAll(arm.body) == [] {
        TrimOfNothing();
      } else {
        TrimAfterBlank("\n", Join("\n", SkeletonOfAll(arm.body)));
      }
    }
    PatternsNonEmpty(arm.patterns);
  }

  lemma PatternsNonEmpty(patterns: seq<string>)
    requires WellFormedPatterns(patterns)
    ensures patterns != []
  {
  }

  lemma TrimOfNothing()
    ensures Trim("") == Join("\n", []) == ""
  {
  }

  // ---- all arms ----

  lemma TrimChunk(arm: CaseArm, pad: string)
    requires WellFormedPatterns(arm.patterns) && WellFormedBody(arm.body, InArm) && pad in {"", "\n"}
    ensures Trim(pad + ArmChunk(arm) + "\n") == ArmChunk(arm) && ArmChunk(arm) != ""
    ensures SemicolonsSpaced(pad + ArmChunk(arm) + "\n")
  {
    hide ArmChunk, Trim;
    ChunkIsSpaced(arm);
    TrimPadded(pad, ArmChunk(arm), "\n");
    SpacedAppend(pad, ArmChunk(arm));
    SpacedAppend(pad + ArmChunk(arm), "\n");
  }

  lemma {:induction false} ArmsRoundTrip(arms: seq<CaseArm>, pad: string)
    requires WellFormedArms(arms) && arms != [] && pad in {"", "\n"}
    ensures ArmsOf(SplitArms(pad + ArmsChunks(arms))) == Ok(PadArms(arms))
    decreases |arms|
  {
    hide SplitArms, ArmChunk, WellFormedPatterns, WellFormedBody, ArmOf, Trim, ArmsOf, SemicolonsSpaced, PadAll;
    var arm := arms[0];
    var chunk := pad + ArmChunk(arm) + "\n";
    var rest := if |arms| == 1 then "" else "\n" + ArmsChunks(arms[1..]);
    TrimChunk(arm, pad);
    ArmRoundTrip(arm);
    assert pad + ArmsChunks(arms) == chunk + ";;" + rest;
    SplitArmsAt(chunk, rest);
    NoArms();
    if |arms| > 1 {
      ArmsRoundTrip(arms[1..], "\n");
    } else {
      assert arms[1..] == [];
    }
    FirstArm(chunk, SplitArms(rest), CaseArm(arm.patterns, PadAll(arm.body)), PadArms(arms[1..]));
  }

  lemma NoArms()
    ensures ArmsOf(SplitArms("")) == Ok([])
  {
    TrimOfNothing();
    assert [""][1..] == [];
  }

  lemma FirstArm(chunk: string, chunks: seq<string>, arm: CaseArm, arms: seq<CaseArm>)
    requires Trim(chunk) != "" && ArmOf(Trim(chunk)) == Ok(arm) && ArmsOf(chunks) == Ok(arms)
    ensures ArmsOf([chunk] + chunks) == Ok([arm] + arms)
  {
    hide Trim, ArmOf;
    assert ([chunk] + chunks)[1..] == chunks;
  }

  // ---- the head ----

  /** No `;` of the arms is followed by `&`. */
  lemma {:induction false} NoFallThrough(arms: seq<CaseArm>)
    requires WellFormedArms(arms) && arms != []
    ensures !HasFallThrough(ArmsChunks(arms))
    ensures Trimmed(ArmsChunks(arms))
    decreases |arms|
  {
    hide ArmChunk, WellFormedPatterns, WellFormedBody, HasFallThrough;
    var arm := arms[0];
    var chunk, rest := ArmChunk(arm), if |arms| == 1 then "" else "\n" + ArmsChunks(arms[1..]);
    ChunkIsSpaced(arm);
    if |arms| > 1 {
      NoFallThrough(arms[1..]);
      NoFallThroughBehindNewline(ArmsChunks(arms[1..]));
    } else {
      NoFallThroughInNothing();
    }
    ChunkWithoutFallThrough(chunk, rest);
    var text := chunk + "\n;;" + rest;
    assert text[0] == chunk[0];
    assert text[|text| - 1] == if rest == "" then ';' else rest[|rest| - 1];
  }

  lemma NoFallThroughInNothing()
    ensures !HasFallThrough("")
  {
  }

  lemma NoFallThroughBehindNewline(s: string)
    requires !HasFallThrough(s)
    ensures !HasFallThrough("\n" + s)
  {
    var t := "\n" + s;
    forall i | 0 <= i < |t| - 1 ensures !(t[i] == ';' && t[i + 1] == '&') {
      if i > 0 {
        assert t[i] == s[i - 1] && t[i + 1] == s[i];
      }
    }
  }

  lemma ChunkWithoutFallThrough(chunk: string, rest: string)
    requires SemicolonsSpaced(chunk) && !HasFallThrough(rest) && (rest == "" || rest[0] == '\n')
    ensures !HasFallThrough(chunk + "\n;;" + rest)
  {
    var t := chunk + "\n;;" + rest;
    var n := |chunk| + 3;
    forall i | 0 <= i < |t| - 1 ensures !(t[i] == ';' && t[i + 1] == '&') {
      if i < |chunk| {
        if t[i] == ';' {
          assert chunk[i] == ';' && t[i + 1] == chunk[i + 1];
        }
      } else if i >= n {
        assert t[i] == rest[i - n] && t[i + 1] == rest[i + 1 - n];
      }
    }
  }

  /** The printed statement is cut into its word and the text of its arms. */
  lemma HeadRoundTrip(w: string, mid: string)
    requires Solid(w) && Trimmed(mid) && !HasFallThrough(mid)
    ensures CaseHead("case " + w + " in\n" + mid + "\nesac") == Ok((w, mid))
  {
    hide DropWord, FirstWord, HasFallThrough, TrimStart, TrimEnd;
    var tail := "\n" + mid + "\nesac";
    var joined := "case " + w + " in\n" + mid + "\nesac";
    DropWordOf("", "case", " " + w + " in" + tail);
    assert joined == "" + "case" + (" " + w + " in" + tail);
    DropWordOf(" ", w, " in" + tail);
    assert " " + w + " in" + tail == " " + w + (" in" + tail);
    DropWordOf(" ", "in", tail);
    assert " in" + tail == " " + "in" + tail;
    TrimTail(mid);
  }

  lemma TrimTail(mid: string)
    requires Trimmed(mid)
    ensures var arms := TrimEnd(TrimStart("\n" + mid + "\nesac"));
            EndsWith(arms, "esac") && TrimEnd(arms[..|arms| - 4]) == mid
  {
    hide TrimStart, TrimEnd;
    var text := mid + "\nesac";
    TrimPadded("\n", text, "");
    assert "\n" + text + "" == "\n" + mid + "\nesac";
    assert text + "" == text;
    TrimmedEnds(text);
    TrimmedEnds(mid);
    assert text[|text| - 4..] == "esac";
    assert text[..|text| - 4] == mid + "\n";
    TrimEndBlank(mid, "\n");
  }

  // ---- the statement ----

  lemma WordRoundTrip(word: Expr)
    requires WellFormedWord(word)
    ensures CaseWord(ArgText(word)) == Ok(word)
  {
    hide WellFormedArg, TokenizeFrom, LowerRawToken;
    ArgRoundTrip(word);
    TokensReadBack([ArgToken(word)]);
    assert PrintTokens([ArgToken(word)]) == [ArgText(word)];
  }

  lemma SkeletonJoined(word: Expr, arms: seq<CaseArm>)
    requires arms != []
    ensures Join("\n", ["case " + ArgText(word) + " in"] + SkeletonOfArms(arms) + ["esac"])
         == "case " + ArgText(word) + " in\n" + ArmsChunks(arms) + "\nesac"
  {
    hide Join, SkeletonOfArms, ArgText, ArmsChunks;
    var head := "case " + ArgText(word) + " in";
    ArmsTextIsChunks(arms);
    JoinOne(head);
    JoinOne("esac");
    JoinAppend("\n", [head], SkeletonOfArms(arms));
    JoinAppend("\n", [head] + SkeletonOfArms(arms), ["esac"]);
    assert head + "\n" + ArmsChunks(arms) + "\n" + "esac"
      == "case " + ArgText(word) + " in\n" + ArmsChunks(arms) + "\nesac";
  }

  /** A printed top-level `case` is read back as its word and its padded arms, up to its own `esac`. */
  lemma CaseRoundTrips(s: Stmt, lines: seq<string>, i: nat)
    requires s.ShellCase? && WellFormedStmt(s, AtTop) && At(lines, i, Skeleton(s))
    ensures i < |lines| && CaseAt(lines, i) == Ok((Pad(s), i + |Skeleton(s)|))
  {
    hide Join, SkeletonOfArms, ArgText, ArmsChunks, WellFormedWord, WellFormedArms, RegionEnd, CaseHead, CaseWord,
         ArmsOf, SplitArms, HasFallThrough, PadArms;
    RegionIsWhole(s.word, s.arms, lines, i);
    SkeletonJoined(s.word, s.arms);
    NoFallThrough(s.arms);
    WordIsSolid(s.word);
    HeadRoundTrip(ArgText(s.word), ArmsChunks(s.arms));
    WordRoundTrip(s.word);
    ArmsRoundTrip(s.arms, "");
    assert "" + ArmsChunks(s.arms) == ArmsChunks(s.arms);
    assert |PadArms(s.arms)| == |s.arms|;
    assert lines[i..i + |Skeleton(s)|] == Skeleton(s);
  }

  lemma WordIsSolid(word: Expr)
    requires WellFormedWord(word)
    ensures Solid(ArgText(word))
  {
  }
}
