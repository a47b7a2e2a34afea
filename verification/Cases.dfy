/** `parse_case`: a top-level `case WORD in … esac`, read from raw lines. */
module Cases {
  import opened Outcomes
  import opened Text
  import opened ShellAst
  import opened Tokenizer
  import opened FlatLines
  import opened Blocks
  import opened Regions

  type Arms = Result<seq<CaseArm>, Refusal>

  // ---- the region, by `case`/`esac` depth ----

  /** The depth after these parts, and whether an `esac` brought it to zero. */
  function ScanParts(parts: seq<string>, depth: int): (int, bool) {
    if parts == [] then (depth, false)
    else
      match FirstKeyword(Trim(parts[0]))
      case KCase => ScanParts(parts[1..], depth + 1)
      case KEsac => if depth - 1 == 0 then (0, true) else ScanParts(parts[1..], depth - 1)
      case _ => ScanParts(parts[1..], depth)
  }

  /** The line after the one that closes the region. */
  function RegionEnd(lines: seq<string>, li: nat, depth: int): (r: Option<nat>)
    requires li <= |lines|
    ensures r.Some? ==> li < r.value <= |lines|
    decreases |lines| - li
  {
    if li == |lines| then None
    else
      var (after, closed) := ScanParts(Split(lines[li], COMMAND_SEPARATORS), depth);
      if closed then Some(li + 1) else RegionEnd(lines, li + 1, after)
  }

  // ---- the arms ----

  /** `str::split(";;")`. */
  function SplitArms(s: string): (chunks: seq<string>)
    ensures |chunks| >= 1
  {
    if s == "" then [""]
    else if |s| > 1 && s[0] == ';' && s[1] == ';' then [""] + SplitArms(s[2..])
    else
      var rest := SplitArms(s[1..]);
      [[s[0]] + rest[0]] + rest[1..]
  }

  function LineSegments(lines: seq<string>): seq<string> {
    if lines == [] then [] else AllPieceSegments(Pieces(Trim(lines[0]))) + LineSegments(lines[1..])
  }

  /** `segments_of`: the segment stream of an arm body. */
  function SegmentsOf(text: string): seq<string> {
    LineSegments(Lines(text))
  }

  function NonEmptyTrimmed(parts: seq<string>): seq<string> {
    if parts == [] then []
    else (if Trim(parts[0]) == "" then [] else [Trim(parts[0])]) + NonEmptyTrimmed(parts[1..])
  }

  /** One `PAT|PAT) BODY` chunk. */
  function ArmOf(chunk: string): Result<CaseArm, Refusal> {
    match IndexOf(chunk, ')')
    case None => Err(ArmWithoutParenthesis)
    case Some(paren) =>
      var patterns := NonEmptyTrimmed(Split(Trim(chunk[..paren]), PIPE));
      if patterns == [] then Err(ArmWithoutPattern)
      else
        var (body, _, _) :- SegmentSeq(SegmentsOf(Trim(chunk[paren + 1..])), 0, {});
        Ok(CaseArm(patterns, body))
  }

  function ArmsOf(chunks: seq<string>): Arms {
    if chunks == [] then Ok([])
    else if Trim(chunks[0]) == "" then ArmsOf(chunks[1..])
    else
      var arm :- ArmOf(Trim(chunks[0]));
      After([arm], ArmsOf(chunks[1..]))
  }

  predicate HasFallThrough(s: string) {
    exists i :: 0 <= i < |s| - 1 && s[i] == ';' && s[i + 1] == '&'
  }

  // ---- the statement ----

  /** The word, the text between `in` and `esac`, or the refusal the head deserves. */
  function CaseHead(joined: string): Result<(string, string), Refusal> {
    var rest := DropWord(joined);
    var word := FirstWord(rest);
    if word == "" then Err(CaseWithoutWord)
    else if FirstWord(DropWord(rest)) != "in" then Err(CaseWithoutIn)
    else
      var arms := TrimEnd(TrimStart(DropWord(DropWord(rest))));
      if !EndsWith(arms, "esac") then Err(MalformedCase)
      else
        var text := TrimEnd(arms[..|arms| - 4]);
        if HasFallThrough(text) then Err(CaseFallThrough) else Ok((word, text))
  }

  function CaseWord(word: string): Result<Expr, Refusal> {
    var tokens :- Tokenize(word);
    if |tokens| == 1 then LowerRawToken(tokens[0]) else Err(CaseWordNotSingle)
  }

  function CaseOf(joined: string): Result<Stmt, Refusal> {
    var (wordText, armsText) :- CaseHead(joined);
    var word :- CaseWord(wordText);
    var arms :- ArmsOf(SplitArms(armsText));
    if arms == [] then Err(CaseWithoutArms) else Ok(ShellCase(word, arms))
  }

  function CaseAt(lines: seq<string>, start: nat): (r: Block)
    requires start < |lines|
    ensures r.Ok? ==> start < r.value.1 <= |lines|
  {
    match RegionEnd(lines, start, 0)
    case None => Err(UnterminatedCase)
    case Some(next) =>
      var stmt :- CaseOf(Join("\n", lines[start..next]));
      Ok((stmt, next))
  }

  // ---- the loops the source runs ----

  method CaseRegionEnd(lines: seq<string>, start: nat) returns (next: Option<nat>)
    requires start < |lines|
    ensures next == RegionEnd(lines, start, 0)
  {
    hide FirstKeyword, Split, Trim;
    var depth := 0;
    var li := start;
    while li < |lines|
      invariant start <= li <= |lines|
      invariant RegionEnd(lines, start, 0) == RegionEnd(lines, li, depth)
    {
      var closed: bool;
      depth, closed := CountParts(Split(lines[li], COMMAND_SEPARATORS), depth);
      li := li + 1;
      if closed {
        return Some(li);
      }
    }
    return None;
  }

  /** The inner loop: one line's parts, stopping at the `esac` that closes the region. */
  method CountParts(parts: seq<string>, before: int) returns (depth: int, closed: bool)
    ensures (depth, closed) == ScanParts(parts, before)
  {
    hide FirstKeyword, Trim;
    depth := before;
    assert parts[0..] == parts;
    for p := 0 to |parts|
      invariant ScanParts(parts, before) == ScanParts(parts[p..], depth)
    {
      assert parts[p..][1..] == parts[p + 1..];
      match FirstKeyword(Trim(parts[p])) {
        case KCase =>
          depth := depth + 1;
        case KEsac =>
          depth := depth - 1;
          if depth == 0 {
            return 0, true;
          }
        case _ =>
      }
    }
    assert parts[|parts|..] == [];
    return depth, false;
  }

  method CollectSegments(text: string) returns (segs: seq<string>)
    ensures segs == SegmentsOf(text)
  {
    hide PieceSegments, Pieces, Lines;
    segs := [];
    var lines := Lines(text);
    assert lines[0..] == lines;
    for l := 0 to |lines|
      invariant LineSegments(lines) == segs + LineSegments(lines[l..])
    {
      assert lines[l..][1..] == lines[l + 1..];
      var pieces := Pieces(Trim(lines[l]));
      ghost var before := segs;
      assert pieces[0..] == pieces;
      for p := 0 to |pieces|
        invariant before + AllPieceSegments(pieces) == segs + AllPieceSegments(pieces[p..])
      {
        assert pieces[p..][1..] == pieces[p + 1..];
        assert segs + (PieceSegments(pieces[p]) + AllPieceSegments(pieces[p + 1..]))
            == segs + PieceSegments(pieces[p]) + AllPieceSegments(pieces[p + 1..]);
        segs := segs + PieceSegments(pieces[p]);
      }
      assert pieces[|pieces|..] == [];
      assert segs + [] == segs;
      assert before + (AllPieceSegments(pieces) + LineSegments(lines[l + 1..]))
          == before + AllPieceSegments(pieces) + LineSegments(lines[l + 1..]);
    }
    assert lines[|lines|..] == [];
  }

  method ParseArm(chunk: string) returns (r: Result<CaseArm, Refusal>)
    ensures r == ArmOf(chunk)
  {
    hide SegmentsOf, SegmentSeq;
    var paren := IndexOf(chunk, ')');
    if paren.None? {
      return Err(ArmWithoutParenthesis);
    }
    var patterns := NonEmptyTrimmed(Split(Trim(chunk[..paren.value]), PIPE));
    if patterns == [] {
      return Err(ArmWithoutPattern);
    }
    var segs := CollectSegments(Trim(chunk[paren.value + 1..]));
    var body := ParseSegmentSeq(segs, 0, {});
    if body.Err? {
      return Err(body.error);
    }
    return Ok(CaseArm(patterns, body.value.0));
  }

  method ParseArms(chunks: seq<string>) returns (r: Arms)
    ensures r == ArmsOf(chunks)
  {
    hide ArmOf;
    var arms: seq<CaseArm> := [];
    AfterNothing(ArmsOf(chunks));
    assert chunks[0..] == chunks;
    for c := 0 to |chunks|
      invariant ArmsOf(chunks) == After(arms, ArmsOf(chunks[c..]))
    {
      assert chunks[c..][1..] == chunks[c + 1..];
      var chunk := Trim(chunks[c]);
      if chunk == "" {
        continue;
      }
      var arm := ParseArm(chunk);
      if arm.Err? {
        return Err(arm.error);
      }
      AfterAfter(arms, [arm.value], ArmsOf(chunks[c + 1..]));
      arms := arms + [arm.value];
    }
    assert chunks[|chunks|..] == [];
    assert arms + [] == arms;
    return Ok(arms);
  }

  method ParseCase(lines: seq<string>, start: nat) returns (r: Block)
    requires start < |lines|
    ensures r == CaseAt(lines, start)
  {
    hide CaseHead, CaseWord, ArmsOf, SplitArms, RegionEnd;
    var next := CaseRegionEnd(lines, start);
    if next.None? {
      return Err(UnterminatedCase);
    }
    var head := CaseHead(Join("\n", lines[start..next.value]));
    if head.Err? {
      return Err(head.error);
    }
    var word := CaseWord(head.value.0);
    if word.Err? {
      return Err(word.error);
    }
    var arms := ParseArms(SplitArms(head.value.1));
    if arms.Err? {
      return Err(arms.error);
    }
    if arms.value == [] {
      return Err(CaseWithoutArms);
    }
    return Ok((ShellCase(word.value, arms.value), next.value));
  }
}
