/**
 * Control flow never ends up as barewords: no statement of a successful parse, and no pipeline stage, has a reserved
 * word as its program. Substitutions inside arguments and values are the subject of module `Faults`.
 */
module NoShredding {
  import opened Outcomes
  import opened Text
  import opened ShellAst
  import opened Splicer
  import opened Tokenizer
  import opened FlatLines
  import opened Blocks
  import opened Grammar
  import opened Regions
  import opened Cases
  import opened Scripts

  /** No command statement here, at any depth, runs a reserved word; every pipeline stage is a command. */
  predicate Unshredded(s: Stmt) {
    match s
    case Cmd(program, _) => KeywordOf(program) == NoKeyword
    case Pipeline(stages) =>
      |stages| >= 2 && forall stage :: stage in stages ==> stage.Cmd? && KeywordOf(stage.program) == NoKeyword
    case ShellAssign(_, _) => true
    case ShellLoop(_, body) => forall t :: t in body ==> Unshredded(t)
    case ShellIf(_, thenBody, elseBody) =>
      (forall t :: t in thenBody ==> Unshredded(t)) && (forall t :: t in elseBody ==> Unshredded(t))
    case ShellCase(_, arms) => forall arm, t :: arm in arms && t in arm.body ==> Unshredded(t)
    case Unshelled => false
  }

  predicate UnshreddedAll(stmts: seq<Stmt>) {
    forall t :: t in stmts ==> Unshredded(t)
  }

  // ---- a program is the first word of its text ----

  lemma {:induction false} BufferedBareword(s: string, current: string)
    requires current != "" && TokenizeFrom(s, current).Ok?
    ensures var ts := TokenizeFrom(s, current).value;
            ts != [] && ts[0] == Bare(current + s[..WordLength(s)])
    decreases |s|
  {
    if s == "" || IsWhitespace(s[0]) {
      assert current + s[..0] == current;
    } else if !OpensDelimited(s) {
      BufferedBareword(s[1..], current + [s[0]]);
      var n := WordLength(s[1..]);
      assert current + [s[0]] + s[1..][..n] == current + s[..n + 1];
    }
  }

  /** The first bareword is the first word, or an arithmetic expansion. */
  lemma {:induction false} FirstBareIsFirstWord(s: string)
    requires Tokenize(s).Ok? && Tokenize(s).value != [] && Tokenize(s).value[0].Bare?
    ensures var w := Tokenize(s).value[0].text;
            w == FirstWord(s) || (w != "" && w[0] == '$' && FirstWord(s) != "" && FirstWord(s)[0] == '$')
    decreases |s|
  {
    hide Delimited;
    if IsWhitespace(s[0]) {
      AfterNothing(Tokenize(s[1..]));
      FirstBareIsFirstWord(s[1..]);
    } else if OpensDelimited(s) {
      BareDelimitedIsArithmetic(s);
      FirstWordStarts(s);
    } else {
      assert "" + [s[0]] == [s[0]];
      BufferedBareword(s[1..], [s[0]]);
      assert [s[0]] + s[1..][..WordLength(s[1..])] == s[..WordLength(s)];
    }
  }

  lemma BareDelimitedIsArithmetic(s: string)
    requires OpensDelimited(s) && Delimited(s).Ok? && Delimited(s).value.0.Bare?
    ensures Delimited(s).value.0.text != "" && Delimited(s).value.0.text[0] == '$' == s[0]
  {
  }

  lemma ProgramKeyword(text: string)
    requires Command(text).Ok? && Command(text).value.Some? && FirstKeyword(text) == NoKeyword
    ensures Command(text).value.value.Cmd? && KeywordOf(Command(text).value.value.program) == NoKeyword
  {
    FirstBareIsFirstWord(text);
    var w := Command(text).value.value.program;
    if KeywordOf(w) != NoKeyword {
      KeywordSpelled(w);
      SpellingRoundTrip(KeywordOf(w));
    }
  }

  // ---- splitting at `|` refines into splitting at `;`, `&` and `|` ----

  /** Every coarse piece starts where some fine piece starts. */
  lemma {:induction false} CoarsePieceStartsFinePiece(s: string, coarse: set<char>, fine: set<char>, k: nat)
    requires coarse <= fine && k < |Split(s, coarse)|
    ensures var start := Split(Split(s, coarse)[k], fine)[0];
            if k == 0 then start == Split(s, fine)[0] else start in Split(s, fine)[1..]
  {
    hide Split;
    if s == "" {
      SplitUnbroken(s, coarse);
    } else {
      var t := s[1..];
      assert s == [s[0]] + t;
      SplitCons(s[0], t, coarse);
      SplitCons(s[0], t, fine);
      var before := Split(t, coarse);
      if s[0] in coarse {
        SplitUnbroken("", fine);
        if k > 0 {
          CoarsePieceStartsFinePiece(t, coarse, fine, k - 1);
        }
      } else {
        CoarsePieceStartsFinePiece(t, coarse, fine, k);
        SplitCons(s[0], before[0], fine);
      }
    }
  }

  /** A line without command-position keywords has none at the start of a pipeline stage either. */
  lemma StageHasNoKeyword(line: string, k: nat)
    requires ControlFlowKeyword(line) == NoKeyword && k < |Split(line, PIPE)|
    ensures FirstKeyword(Trim(Split(line, PIPE)[k])) == NoKeyword
  {
    hide Split, KeywordOf, FirstWord, Trim;
    var stage := Split(line, PIPE)[k];
    FirstWordOfTrim(stage);
    if FirstKeyword(stage) != NoKeyword {
      FirstWordSurvivesSplit(stage, COMMAND_SEPARATORS);
      CoarsePieceStartsFinePiece(line, PIPE, COMMAND_SEPARATORS, k);
      var pieces := Split(line, COMMAND_SEPARATORS);
      assert Split(stage, COMMAND_SEPARATORS)[0] in pieces;
      NoKeywordAmong(pieces);
    }
  }

  lemma {:induction false} StagesUnshredded(segments: seq<string>)
    requires Stages(segments).Ok?
    requires forall k :: 0 <= k < |segments| ==> FirstKeyword(Trim(segments[k])) == NoKeyword
    ensures forall stage :: stage in Stages(segments).value ==> stage.Cmd? && KeywordOf(stage.program) == NoKeyword
  {
    hide FirstKeyword, Command, KeywordOf;
    if segments != [] {
      StagesUnshredded(segments[1..]);
      if Command(Trim(segments[0])).value.Some? {
        ProgramKeyword(Trim(segments[0]));
      }
    }
  }

  lemma FlatLineUnshredded(line: string)
    requires ControlFlowKeyword(line) == NoKeyword && FlatLine(line).Ok?
    ensures UnshreddedAll(AsList(FlatLine(line).value))
  {
    hide FirstKeyword, Command, ControlFlowKeyword, Stages, KeywordOf;
    if !IsAssignment(line) {
      if HasLonePipe(line) {
        forall k | 0 <= k < |Split(line, PIPE)| ensures FirstKeyword(Trim(Split(line, PIPE)[k])) == NoKeyword {
          StageHasNoKeyword(line, k);
        }
        StagesUnshredded(Split(line, PIPE));
      } else if Command(line).value.Some? {
        FlatHasNoFirstKeyword(line);
        ProgramKeyword(line);
      }
    }
  }

  // ---- derivations ----

  lemma {:induction false} MeaningUnshredded(c: Cst)
    requires Derives(c)
    ensures UnshreddedAll(Meaning(c))
    decreases c
  {
    hide FirstKeyword, ControlFlowKeyword, FlatLine, LoopHeader, KeywordOf, AfterFirstWord;
    match c {
      case Flat(seg) => FlatLineUnshredded(seg);
      case Loop(_, _, body) => MeaningAllUnshredded(body);
      case Conditional(chain) => ChainUnshredded(chain, KIf);
    }
  }

  lemma {:induction false} MeaningAllUnshredded(cs: seq<Cst>)
    requires DerivesAll(cs)
    ensures UnshreddedAll(MeaningAll(cs))
    decreases cs
  {
    hide Derives, Meaning, Unshredded;
    if cs != [] {
      MeaningUnshredded(cs[0]);
      MeaningAllUnshredded(cs[1..]);
    }
  }

  lemma {:induction false} ChainUnshredded(c: Chain, opener: Keyword)
    requires DerivesChain(c, opener)
    ensures Unshredded(MeaningChain(c, opener))
    decreases c
  {
    hide FirstKeyword, AfterFirstWord, KeywordOf;
    MeaningAllUnshredded(c.thenBody);
    match c.tail {
      case Fi =>
      case Else(_, body) => MeaningAllUnshredded(body);
      case Elif(chain) => ChainUnshredded(chain, KElif);
    }
  }

  lemma SequenceUnshredded(segs: seq<string>)
    requires SegmentSeq(segs, 0, {}).Ok?
    ensures UnshreddedAll(SegmentSeq(segs, 0, {}).value.0)
  {
    var cs := SoundAll(segs, 0, {});
    MeaningAllUnshredded(cs);
  }

  lemma BlockUnshredded(lines: seq<string>, start: nat)
    requires start < |lines| && BlockAt(lines, start).Ok?
    ensures Unshredded(BlockAt(lines, start).value.0)
  {
    hide BlockOf, BlockRegion, Meaning, Unshredded;
    var segs := BlockRegion(lines, start).value.0;
    var c := BlockHasDerivation(segs);
    MeaningUnshredded(c);
    assert BlockAt(lines, start).value.0 in Meaning(c);
  }

  lemma {:induction false} ArmsUnshredded(chunks: seq<string>)
    requires ArmsOf(chunks).Ok?
    ensures forall arm :: arm in ArmsOf(chunks).value ==> UnshreddedAll(arm.body)
  {
    hide SegmentSeq, SegmentsOf, Unshredded;
    if chunks != [] {
      ArmsUnshredded(chunks[1..]);
      if Trim(chunks[0]) != "" {
        var chunk := Trim(chunks[0]);
        var paren := IndexOf(chunk, ')').value;
        SequenceUnshredded(SegmentsOf(Trim(chunk[paren + 1..])));
      }
    }
  }

  lemma CaseUnshredded(lines: seq<string>, start: nat)
    requires start < |lines| && CaseAt(lines, start).Ok?
    ensures Unshredded(CaseAt(lines, start).value.0)
  {
    hide ArmsOf, CaseHead, CaseWord, SplitArms, RegionEnd;
    var next := RegionEnd(lines, start, 0).value;
    var armsText := CaseHead(Join("\n", lines[start..next])).value.1;
    ArmsUnshredded(SplitArms(armsText));
  }

  lemma {:induction false} WalkUnshredded(lines: seq<string>, i: nat)
    requires i <= |lines| && Walk(lines, i).Ok?
    ensures UnshreddedAll(Walk(lines, i).value)
    decreases |lines| - i
  {
    hide FirstKeyword, ControlFlowKeyword, BlockAt, CaseAt, FlatLine, Unshredded;
    if i < |lines| {
      var line := lines[i];
      if IsSkipped(line) {
        WalkUnshredded(lines, i + 1);
      } else if FirstKeyword(line) in BLOCK_OPENERS {
        BlockUnshredded(lines, i);
        WalkUnshredded(lines, BlockAt(lines, i).value.1);
      } else if FirstKeyword(line) == KCase {
        CaseUnshredded(lines, i);
        WalkUnshredded(lines, CaseAt(lines, i).value.1);
      } else {
        FlatLineUnshredded(line);
        WalkUnshredded(lines, i + 1);
      }
    }
  }

  /** For every source text: if it is accepted, no statement in it was shredded. */
  lemma NothingIsShredded(source: string)
    requires ScriptOf(source).Ok?
    ensures UnshreddedAll(ScriptOf(source).value)
  {
    WalkUnshredded(TrimAll(Lines(Splice(source))), 0);
  }
}
