/** The head, the word and the arms of a `case`, said by the text that is written; and what they are refused for. */
module CaseTexts {
  import opened Outcomes
  import opened Text
  import opened ShellAst
  import opened Tokenizer
  import opened FlatLines
  import opened Blocks
  import opened Cases
  import opened Spellings
  import opened SpelledLines

  // ---- the head ----

  lemma WordsOf(gap: string, word: string, rest: string)
    requires Spaces(gap) && Solid(word) && (rest == "" || rest[0] in SPACES)
    ensures FirstWord(gap + word + rest) == word && DropWord(gap + word + rest) == rest
  {
    SpacesAreBlank(gap);
    assert rest != "" ==> ([rest[0]] == rest[..1] && Spaces(rest[..1]) && Blank(rest[..1])) by {
      SpacesAreBlank(rest[..if rest == "" then 0 else 1]);
    }
    DropWordOf(gap, word, rest);
  }

  /** Text that starts with a blank, or no text. */
  predicate Apart(rest: string) {
    rest == "" || rest[0] in SPACES
  }

  /** From `in` to `esac`: what stands between, without the blanks around it, unless it falls through. */
  lemma HeadSays(first: string, word: string, second: string, third: string, text: string, last: string)
    requires Spaces(first) && Spaces(second) && Spaces(third) && Spaces(last)
    requires first != "" && second != "" && third != "" && Solid(word) && (text == "" || Trimmed(text))
    ensures CaseHead("case" + (first + word + (second + "in" + (third + (text + last + "esac"))))) ==
      if HasFallThrough(text) then Err(CaseFallThrough) else Ok((word, text))
  {
    hide FirstWord, DropWord, TrimStart, TrimEnd, HasFallThrough;
    var body := text + last + "esac";
    var more := third + body;
    var rest := second + "in" + more;
    var joined := "case" + (first + word + rest);
    assert Solid("case") && Solid("in");
    WordsOf("", "case", first + word + rest);
    assert "" + "case" + (first + word + rest) == joined;
    WordsOf(first, word, rest);
    WordsOf(second, "in", more);
    BodyTrimmed(third, text, last);
  }

  lemma BodyTrimmed(third: string, text: string, last: string)
    requires Spaces(third) && Spaces(last) && (text == "" || Trimmed(text))
    ensures var arms := TrimEnd(TrimStart(third + (text + last + "esac")));
      |arms| >= 4 && EndsWith(arms, "esac") && TrimEnd(arms[..|arms| - 4]) == text
  {
    hide TrimStart, TrimEnd;
    SpacesAreBlank(third);
    SpacesAreBlank(last);
    var body := text + last + "esac";
    var gap, core := if text == "" then third + last else third, if text == "" then "esac" else body;
    assert third + body == gap + core + "";
    TrimPadded(gap, core, "");
    assert core[|core| - 4..] == "esac" && core[..|core| - 4] == if text == "" then "" else text + last;
    TrimEndBlank(text, last);
    if text == "" {
      TrimEndOfNothing();
    } else {
      TrimmedEnds(text);
    }
  }

  lemma TrimEndOfNothing()
    ensures TrimEnd("") == ""
  {
  }

  /** Without a word, without `in` behind it, or without `esac` at the end. */
  lemma HeadRefuses(first: string, word: string, second: string, other: string, rest: string, blanks: string)
    requires Spaces(first) && first != "" && Solid(word) && Spaces(blanks)
    requires Spaces(second) && second != "" && Solid(other) && Apart(rest)
    ensures CaseHead("case" + blanks) == Err(CaseWithoutWord)
    ensures CaseHead("case" + (first + word)) == Err(CaseWithoutIn)
    ensures other != "in" ==> CaseHead("case" + (first + word + (second + other + rest))) == Err(CaseWithoutIn)
    ensures other == "in" && !EndsWith(Trim(rest), "esac") ==>
      CaseHead("case" + (first + word + (second + other + rest))) == Err(MalformedCase)
  {
    hide FirstWord, DropWord, TrimStart, TrimEnd, HasFallThrough, EndsWith;
    var tail := first + word + (second + other + rest);
    assert Solid("case");
    SpacesAreBlank(blanks);
    WordsOf("", "case", blanks);
    assert "" + "case" + blanks == "case" + blanks;
    NoWordIn(blanks);
    WordsOf("", "case", first + word);
    assert "" + "case" + (first + word) == "case" + (first + word);
    WordsOf(first, word, "");
    assert first + word + "" == first + word;
    NoWordIn("");
    WordsOf("", "case", tail);
    assert "" + "case" + tail == "case" + tail;
    WordsOf(first, word, second + other + rest);
    WordsOf(second, other, rest);
  }

  lemma NoWordIn(s: string)
    requires Blank(s)
    ensures FirstWord(s) == ""
  {
    TrimStartBlank(s, "");
    assert s + "" == s;
  }

  // ---- the word ----

  /** A spelled word is what it says; a comment is no word. */
  lemma WordSaysItself(w: Word, comment: string)
    requires WellSpelled(w) && comment != "" && comment[0] == '#'
    ensures CaseWord(Spelled(w)) == Ok(Said(w))
    ensures CaseWord(comment) == Err(CaseWordNotSingle)
  {
    hide WellSpelled, Spelled, TokenizeFrom, LowerRawToken;
    WordsTokens(w, [], "", "");
    assert Spelled(w) + SpelledAll([]) + "" + "" == Spelled(w);
    WordSays(w);
    CommentRead(comment);
  }

  /** Two quoted texts without a blank between them are two tokens. */
  lemma TwoWords(a: string, b: string)
    requires '\'' !in a && '\'' !in b
    ensures CaseWord("'" + a + "'" + ("'" + b + "'")) == Err(CaseWordNotSingle)
  {
    hide IndexOf;
    var second := "'" + b + "'";
    var s := "'" + a + "'" + second;
    QuotedRead(a, second);
    QuotedRead(b, "");
    assert second + "" == second;
    assert TokenizeFrom("", "") == Ok([]);
  }

  lemma QuotedRead(text: string, rest: string)
    requires '\'' !in text
    ensures TokenizeFrom("'" + text + "'" + rest, "") == After([SingleQuoted(text)], TokenizeFrom(rest, ""))
  {
    hide IndexOf;
    var s := "'" + text + "'" + rest;
    assert s[1..] == text + ['\''] + rest;
    IndexOfFirst(text, '\'', rest);
    assert s[1..|text| + 1] == text && s[|text| + 2..] == rest;
    assert Delimited(s) == Ok((SingleQuoted(text), |text| + 2));
  }

  // ---- arms ----

  function NonEmpty(ps: seq<string>): seq<string> {
    if ps == [] then [] else (if ps[0] == "" then [] else [ps[0]]) + NonEmpty(ps[1..])
  }

  /** Patterns between blanks, some of them missing. */
  predicate Padded(written: seq<string>, patterns: seq<string>) {
    |written| == |patterns| && forall i :: 0 <= i < |written| ==> Trim(written[i]) == patterns[i]
  }

  lemma {:induction false} PatternsKept(written: seq<string>, patterns: seq<string>)
    requires Padded(written, patterns)
    ensures NonEmptyTrimmed(written) == NonEmpty(patterns)
  {
    hide Trim;
    if written != [] {
      PatternsKept(written[1..], patterns[1..]);
    }
  }

  /** An arm's patterns stand between its bars, its body behind its parenthesis; missing patterns are dropped. */
  lemma ArmSays(written: seq<string>, patterns: seq<string>, body: string)
    requires written != [] && Padded(written, patterns) && Trimmed(Join("|", written))
    requires forall i :: 0 <= i < |written| ==> '|' !in written[i]
    requires ')' !in Join("|", written)
    ensures ArmOf(Join("|", written) + ")" + body) ==
      if NonEmpty(patterns) == [] then Err(ArmWithoutPattern)
      else match SegmentSeq(SegmentsOf(Trim(body)), 0, {})
           case Ok((stmts, _, _)) => Ok(CaseArm(NonEmpty(patterns), stmts))
           case Err(e) => Err(e)
  {
    hide Trim, Split, Join, SegmentSeq, SegmentsOf, IndexOf, Trimmed;
    var list := Join("|", written);
    var chunk := list + ")" + body;
    IndexOfFirst(list, ')', body);
    assert chunk == list + [')'] + body && chunk[..|list|] == list && chunk[|list| + 1..] == body;
    TrimOfTrimmed(list);
    forall k | 0 <= k < |written| ensures Without(written[k], {'|'}) {
      assert '|' !in written[k];
    }
    SplitJoined('|', written);
    PatternsKept(written, patterns);
  }

  /** Without a parenthesis there is no arm; blank chunks are passed over; no arm at all is refused. */
  lemma ArmsRefuse(chunk: string, blanks: string, more: seq<string>)
    requires ')' !in chunk && Spaces(blanks)
    ensures ArmOf(chunk) == Err(ArmWithoutParenthesis)
    ensures ArmsOf([blanks] + more) == ArmsOf(more)
  {
    hide ArmOf, Trim;
    NoParenthesis(chunk);
    SpacesAreBlank(blanks);
    TrimOfBlank(blanks);
    assert ([blanks] + more)[1..] == more;
  }

  lemma NoParenthesis(chunk: string)
    requires ')' !in chunk
    ensures ArmOf(chunk) == Err(ArmWithoutParenthesis)
  {
    Absent(chunk, ')');
  }

  // ---- between the arms ----

  /** No two semicolons side by side, and none at the end. */
  predicate OneArm(chunk: string) {
    && (forall i :: 0 <= i < |chunk| - 1 ==> !(chunk[i] == ';' && chunk[i + 1] == ';'))
    && (chunk != "" ==> chunk[|chunk| - 1] != ';')
  }

  lemma {:induction false} ArmEnds(chunk: string, rest: string)
    requires OneArm(chunk)
    ensures SplitArms(chunk + ";;" + rest) == [chunk] + SplitArms(rest) && SplitArms(chunk) == [chunk]
    decreases |chunk|
  {
    var s := chunk + ";;" + rest;
    if chunk == "" {
      assert s[2..] == rest;
    } else {
      assert s[1..] == chunk[1..] + ";;" + rest;
      assert |chunk| > 1 ==> s[1] == chunk[1];
      OneArmTail(chunk);
      ArmEnds(chunk[1..], rest);
      assert [chunk[0]] + chunk[1..] == chunk;
    }
  }

  lemma OneArmTail(chunk: string)
    requires chunk != "" && OneArm(chunk)
    ensures OneArm(chunk[1..])
  {
    var t := chunk[1..];
    forall i | 0 <= i < |t| - 1 ensures !(t[i] == ';' && t[i + 1] == ';') {
      assert !(chunk[i + 1] == ';' && chunk[i + 1 + 1] == ';');
    }
  }

  /** Arms are cut at the double semicolons between them, and nowhere else. */
  lemma {:induction false} ArmsCut(chunks: seq<string>)
    requires chunks != [] && forall i :: 0 <= i < |chunks| ==> OneArm(chunks[i])
    ensures SplitArms(Join(";;", chunks)) == chunks
  {
    hide SplitArms, OneArm;
    if |chunks| == 1 {
      ArmEnds(chunks[0], "");
    } else {
      ArmsCut(chunks[1..]);
      ArmEnds(chunks[0], Join(";;", chunks[1..]));
      assert [chunks[0]] + chunks[1..] == chunks;
    }
  }

  /** Nothing but blanks between `in` and `esac`. */
  lemma NoArms(first: string, w: Word, second: string, third: string)
    requires Spaces(first) && Spaces(second) && Spaces(third) && first != "" && second != "" && third != ""
    requires WellSpelled(w) && Solid(Spelled(w))
    ensures CaseOf("case" + (first + Spelled(w) + (second + "in" + (third + ("" + "" + "esac")))))
         == Err(CaseWithoutArms)
  {
    hide CaseHead, CaseWord, WellSpelled, Spelled, Said, HasFallThrough, Trim;
    HeadSays(first, Spelled(w), second, third, "", "");
    FallsThrough("", "");
    WordSaysItself(w, "#");
    TrimOfBlank("");
    assert [""][1..] == [] && ArmsOf([]) == Ok([]);
  }

  /** Two characters, a semicolon and an ampersand, make a fall-through. */
  lemma FallsThrough(front: string, back: string)
    ensures HasFallThrough(front + ";&" + back)
    ensures '&' !in front ==> !HasFallThrough(front)
  {
    var s := front + ";&" + back;
    assert s[|front|] == ';' && s[|front| + 1] == '&';
  }
}
