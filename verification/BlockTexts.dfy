/** The segments of a line, loop headers, and the refusals of a block, said by the words that are written. */
module BlockTexts {
  import opened Outcomes
  import opened Text
  import opened ShellAst
  import opened Tokenizer
  import opened FlatLines
  import opened Blocks
  import opened Regions
  import opened Parameters
  import opened Spellings
  import opened CommandPositions

  // ---- segments ----

  const BODY_WORDS: set<string> := {"do", "then", "else"}

  lemma BodyWordsAgree(w: string)
    ensures KeywordOf(w) in BODY_OPENERS <==> w in BODY_WORDS
    ensures w in BODY_WORDS ==> Spelling(KeywordOf(w)) == w && Solid(w) && w[0] != '#'
  {
  }

  /** A piece is nothing, itself, or a body keyword and the text behind it. */
  lemma PieceSays(before: string, text: string, behind: string)
    requires Spaces(before) && Spaces(behind)
    ensures PieceSegments(before + behind) == []
    ensures Trimmed(text) && text[0] == '#' ==> PieceSegments(before + text + behind) == []
    ensures Trimmed(text) && text[0] != '#' && FirstWord(text) !in BODY_WORDS ==>
      PieceSegments(before + text + behind) == [text]
    ensures text in BODY_WORDS ==> PieceSegments(before + text + behind) == [text]
  {
    hide Trim, FirstWord, KeywordOf, AfterFirstWord, Spelling;
    SpacesAreBlank(before);
    SpacesAreBlank(behind);
    TrimOfBlank(before + behind);
    BodyWordsAgree(text);
    BodyWordsAgree(FirstWord(text));
    if Trimmed(text) {
      TrimPadded(before, text, behind);
      if text in BODY_WORDS {
        FirstWordAlone(text);
      }
    }
  }

  /** A body keyword and, behind blanks, a command are two segments. */
  lemma BodyPieceSays(before: string, word: string, gap: string, text: string, behind: string)
    requires Spaces(before) && Spaces(behind) && word in BODY_WORDS && Spaces(gap) && gap != "" && Trimmed(text)
    ensures PieceSegments(before + (word + gap + text) + behind) == [word, text]
  {
    hide Trim, FirstWord, KeywordOf, AfterFirstWord, Spelling;
    SpacesAreBlank(before);
    SpacesAreBlank(behind);
    SpacesAreBlank(gap);
    BodyWordsAgree(word);
    var s := word + gap + text;
    TrimPadded(before, s, behind);
    AfterFirstWordOf(word, gap, text);
    assert |s| > |word|;
    assert [word] + [text] == [word, text];
  }

  /** The pieces of a line stand between its semicolons; a comment line has none. */
  lemma PiecesSay(parts: seq<string>, comment: string)
    requires parts != [] && forall i :: 0 <= i < |parts| ==> ';' !in parts[i]
    ensures var line := Join(";", parts); line != "" && line[0] != '#' ==> Pieces(line) == parts
    ensures comment != "" && comment[0] == '#' ==> Pieces(comment) == []
    ensures Pieces("") == []
  {
    hide Split, Join;
    forall k | 0 <= k < |parts| ensures Without(parts[k], {';'}) {
      assert ';' !in parts[k];
    }
    SplitJoined(';', parts);
  }

  // ---- loop headers ----

  /** `do` among the items. */
  predicate DoAmong(ws: seq<Spaced>) {
    ws != [] && (ws[0].word == Plain("do") || DoAmong(ws[1..]))
  }

  lemma BareIsPlain(w: Word, text: string)
    requires WellSpelled(w) && Bareword(text) && !IsParameter(text)
    ensures RawOf(w) == Bare(text) <==> w == Plain(text)
  {
    hide Balanced, AllWellSpelled, SpelledAll, IsName;
    match w {
      case Named(name) => NamedIsParameter(name);
      case Braced(name) => NamedIsParameter(name);
      case Special(symbol) => assert ("$" + [symbol])[1..] == [symbol];
      case Sum(inner) =>
        BarewordNotArithmetic(text);
        assert Spelled(w)[..3] == "$((";
      case _ =>
    }
  }

  lemma NamedIsParameter(name: string)
    requires IsName(name)
    ensures IsParameter("$" + name) && IsParameter("${" + name + "}")
  {
    hide IsName;
    assert ("$" + name)[1..] == name;
    var braced := ("${" + name + "}")[1..];
    assert braced == "{" + name + "}" && braced[1..|braced| - 1] == name;
  }

  lemma {:induction false} ItemsSay(ws: seq<Spaced>)
    requires AllWellSpelled(ws)
    ensures ForItems(AllRaw(ws)) == if DoAmong(ws) then Err(DoAmongItems) else Ok(SaidAll(ws))
  {
    hide WellSpelled, RawOf, Said, LowerRawToken, IsParameter, Bareword;
    if ws != [] {
      DoIsWord();
      BareIsPlain(ws[0].word, "do");
      WordSays(ws[0].word);
      ItemsSay(ws[1..]);
      assert AllRaw(ws)[1..] == AllRaw(ws[1..]);
    }
  }

  lemma DoIsWord()
    ensures Bareword("do") && !IsParameter("do") && Bareword("in") && !IsParameter("in") && Bareword("for")
  {
  }

  /** Which text makes a token that is a name. */
  lemma NameToken(w: Word)
    requires WellSpelled(w)
    ensures RawOf(w).Bare? && IsPosixIdentifier(RawOf(w).text) <==> w.Plain? && IsName(w.text)
  {
    hide IsName, IsPosixIdentifier, Balanced, AllWellSpelled, SpelledAll, IsParameter;
    NamesAgree(RawOf(w).text);
    match w {
      case Named(name) => DollarIsNoName("$" + name);
      case Braced(name) => DollarIsNoName("${" + name + "}");
      case Special(symbol) => DollarIsNoName("$" + [symbol]);
      case Sum(text) => DollarIsNoName("$((" + text + "))");
      case _ =>
    }
  }

  lemma DollarIsNoName(s: string)
    requires s != "" && s[0] == '$'
    ensures !IsName(s)
  {
  }

  /** A `for` header by its words: the variable, `in`, and items none of which is `do`. */
  lemma {:induction false} ForSays(ws: seq<Spaced>)
    requires AllWellSpelled(ws)
    ensures ForHeader("for" + SpelledAll(ws)) ==
      if ws == [] || !ws[0].word.Plain? || !IsName(ws[0].word.text) then Err(ForVariableNotIdentifier)
      else if |ws| == 1 then Err(ForWithoutItems)
      else if ws[1].word != Plain("in") then Err(ForWithoutIn)
      else if DoAmong(ws[2..]) then Err(DoAmongItems)
      else Ok(For(ws[0].word.text, SaidAll(ws[2..])))
  {
    hide WellSpelled, RawOf, Tokenize, IsName, IsPosixIdentifier, Bareword, IsParameter, DoAmong, SaidAll, Spelled;
    DoIsWord();
    CommandRead("for", ws, "", "");
    assert "for" + SpelledAll(ws) + "" + "" == "for" + SpelledAll(ws);
    var ts := [Bare("for")] + AllRaw(ws);
    if ws != [] {
      NameToken(ws[0].word);
      NameTokenText(ws[0].word);
      assert ts[1] == RawOf(ws[0].word) && AllRaw(ws)[1..] == AllRaw(ws[1..]);
      if |ws| > 1 {
        TwoWords(ws);
        BareIsPlain(ws[1].word, "in");
        assert ts[2] == AllRaw(ws)[1] && ts[3..] == AllRaw(ws[2..]);
        ItemsSay(ws[2..]);
      }
    }
  }

  lemma NameTokenText(w: Word)
    ensures w.Plain? ==> RawOf(w) == Bare(w.text)
  {
  }

  lemma TwoWords(ws: seq<Spaced>)
    requires AllWellSpelled(ws) && |ws| > 1
    ensures WellSpelled(ws[1].word) && AllWellSpelled(ws[2..])
    ensures |AllRaw(ws)| == |ws| && AllRaw(ws)[1] == RawOf(ws[1].word) && AllRaw(ws)[2..] == AllRaw(ws[2..])
  {
    hide WellSpelled, RawOf;
    assert ws[1..][1..] == ws[2..] && ws[1..][0] == ws[1];
    assert AllRaw(ws)[1..] == AllRaw(ws[1..]) && AllRaw(ws[1..])[1..] == AllRaw(ws[2..]);
    assert AllRaw(ws)[2..] == AllRaw(ws)[1..][1..];
    RawLength(ws);
  }

  lemma {:induction false} RawLength(ws: seq<Spaced>)
    ensures |AllRaw(ws)| == |ws|
  {
    hide RawOf;
    if ws != [] {
      RawLength(ws[1..]);
    }
  }

  /** A condition is the text behind its keyword, and must not be empty. */
  lemma ConditionSays(gap: string, cond: string)
    requires Spaces(gap) && gap != "" && Trimmed(cond)
    ensures LoopHeader("while" + gap + cond) == Ok(While(LitStr(cond)))
    ensures LoopHeader("until" + gap + cond) == Ok(Until(LitStr(cond)))
    ensures LoopHeader("while") == LoopHeader("until") == Err(EmptyLoopCondition)
  {
    hide FirstWord, AfterFirstWord, ForHeader;
    SpacesAreBlank(gap);
    assert Solid("while") && Solid("until");
    AfterFirstWordOf("while", gap, cond);
    AfterFirstWordOf("until", gap, cond);
    NothingBehind("while");
    NothingBehind("until");
  }

  lemma NothingBehind(w: string)
    requires Solid(w)
    ensures FirstWord(w) == w && AfterFirstWord(w) == ""
  {
    FirstWordAlone(w);
    DropWordOf("", w, "");
    assert "" + w + "" == w;
  }

  // ---- refusals ----

  /** What stops a sequence of segments at once, by the first word of the next one. */
  lemma SequenceRefuses(segs: seq<string>, pos: nat, terminators: set<Keyword>)
    requires pos <= |segs| && NoKeyword !in terminators
    ensures pos == |segs| && terminators != {} ==> SegmentSeq(segs, pos, terminators) == Err(UnterminatedBlock)
    ensures pos < |segs| ==>
      var w := FirstWord(segs[pos]);
      && (KeywordOf(w) !in terminators && w in {"do", "done", "then", "elif", "else", "fi"} ==>
          SegmentSeq(segs, pos, terminators) == Err(StrayKeyword))
      && (KeywordOf(w) !in terminators && w in {"case", "esac"} ==>
          SegmentSeq(segs, pos, terminators) == Err(NestedCase))
      && (w !in RESERVED && HasReserved(segs[pos]) ==> SegmentSeq(segs, pos, terminators) == Err(KeywordAfterOperator))
      && (KeywordOf(w) in terminators && w in {"done", "fi"} && segs[pos] != w ==>
          SegmentSeq(segs, pos, terminators) == Err(TextAfterCloser))
  {
    hide FirstWord, ControlFlowKeyword, FlatLine, LoopAt, IfAt, HasReserved;
    if pos < |segs| {
      KeywordExactly(segs[pos]);
      ReservedAgree(FirstWord(segs[pos]));
    }
  }

  /** A loop needs `do` in the segment behind its header, a conditional `then`, and a condition. */
  lemma HeadRefuses(segs: seq<string>, start: nat)
    requires start < |segs|
    ensures LoopHeader(segs[start]).Ok? && (start + 1 == |segs| || FirstWord(segs[start + 1]) != "do") ==>
      LoopAt(segs, start) == Err(LoopWithoutDo)
    ensures AfterFirstWord(segs[start]) == "" ==> IfAt(segs, start) == Err(EmptyIfCondition)
    ensures AfterFirstWord(segs[start]) != "" && (start + 1 == |segs| || FirstWord(segs[start + 1]) != "then") ==>
      IfAt(segs, start) == Err(IfWithoutThen)
  {
    hide FirstWord, LoopHeader, SegmentSeq, AfterFirstWord;
  }
}
