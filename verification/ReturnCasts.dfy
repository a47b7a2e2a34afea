/** `insert_return_cast`: the first line that is the bare return value gets its cast. */
module ReturnCasts {
  import opened Outcomes
  import opened Text

  const RETURN: string := "__r"

  predicate IsReturn(line: string) {
    Trim(line) == RETURN
  }

  function FirstReturn(lines: seq<string>): (r: Option<nat>)
    ensures r.Some? ==> r.value < |lines|
  {
    if lines == [] then None
    else if IsReturn(lines[0]) then Some(0)
    else
      match FirstReturn(lines[1..])
      case Some(k) => Some(k + 1)
      case None => None
  }

  function Indent(line: string): string {
    TrimStartShape(line);
    line[..|line| - |TrimStart(line)|]
  }

  function CastLine(line: string, native: string): string {
    Indent(line) + "__r as " + native
  }

  function InsertReturn(src: string, native: string): Option<string> {
    var lines := Lines(src);
    match FirstReturn(lines)
    case None => None
    case Some(pos) =>
      var rebuilt := lines[pos := CastLine(lines[pos], native)];
      Some(Join("\n", rebuilt) + if EndsWith(src, "\n") then "\n" else "")
  }

  method InsertReturnCast(src: string, native: string) returns (r: Option<string>)
    ensures r == InsertReturn(src, native)
  {
    hide Trim, Lines;
    var lines := Lines(src);
    var pos := 0;
    assert lines[0..] == lines;
    while pos < |lines| && !IsReturn(lines[pos])
      invariant 0 <= pos <= |lines|
      invariant FirstReturn(lines)
        == match FirstReturn(lines[pos..]) case Some(k) => Some(pos + k) case None => None
    {
      assert lines[pos..][1..] == lines[pos + 1..];
      pos := pos + 1;
    }
    if pos == |lines| {
      return None;
    }
    var rebuilt := lines[pos := CastLine(lines[pos], native)];
    return Some(Join("\n", rebuilt) + if EndsWith(src, "\n") then "\n" else "");
  }

  // ---- how many bare returns a text has ----

  function CountReturns(lines: seq<string>): nat {
    if lines == [] then 0 else (if IsReturn(lines[0]) then 1 else 0) + CountReturns(lines[1..])
  }

  function BareReturns(s: string): nat {
    CountReturns(Split(s, NEWLINE))
  }

  lemma {:induction false} CountAppend(a: seq<string>, b: seq<string>)
    ensures CountReturns(a + b) == CountReturns(a) + CountReturns(b)
  {
    hide IsReturn;
    if a == [] {
      assert a + b == b;
    } else {
      assert (a + b)[1..] == a[1..] + b;
      CountAppend(a[1..], b);
    }
  }

  lemma ReturnsAtBreak(a: string, b: string)
    ensures BareReturns(a + "\n" + b) == BareReturns(a) + BareReturns(b)
  {
    hide Split, CountReturns;
    assert a + "\n" + b == a + ['\n'] + b;
    SplitAtSeparator(a, '\n', b, NEWLINE);
    CountAppend(Split(a, NEWLINE), Split(b, NEWLINE));
  }

  lemma ReturnsOfLine(line: string)
    requires '\n' !in line
    ensures BareReturns(line) == if IsReturn(line) then 1 else 0
  {
    hide IsReturn;
    SplitUnbroken(line, NEWLINE);
    assert [line][1..] == [] && CountReturns([]) == 0;
    assert CountReturns([line]) == (if IsReturn(line) then 1 else 0) + CountReturns([]);
  }

  function Total(lines: seq<string>): nat {
    if lines == [] then 0 else BareReturns(lines[0]) + Total(lines[1..])
  }

  lemma NoReturnInNothing()
    ensures BareReturns("") == 0
  {
    SplitUnbroken("", NEWLINE);
    assert [""][1..] == [];
  }

  lemma {:induction false} ReturnsOfJoin(lines: seq<string>)
    ensures BareReturns(Join("\n", lines)) == Total(lines)
  {
    hide BareReturns;
    if lines == [] {
      NoReturnInNothing();
    } else if |lines| == 1 {
      assert lines[1..] == [] && Total([]) == 0;
    } else {
      ReturnsAtBreak(lines[0], Join("\n", lines[1..]));
      ReturnsOfJoin(lines[1..]);
    }
  }

  lemma {:induction false} TotalReplaced(lines: seq<string>, pos: nat, line: string)
    requires pos < |lines|
    ensures Total(lines[pos := line]) + BareReturns(lines[pos]) == Total(lines) + BareReturns(line)
  {
    hide BareReturns;
    if pos == 0 {
      assert lines[0 := line][1..] == lines[1..];
    } else {
      assert lines[pos := line][1..] == lines[1..][pos - 1 := line];
      TotalReplaced(lines[1..], pos - 1, line);
    }
  }

  lemma CarriageReturnIgnored(line: string)
    ensures IsReturn(WithoutCarriageReturn(line)) <==> IsReturn(line)
  {
    hide TrimStart, TrimEnd;
    var kept := WithoutCarriageReturn(line);
    if kept != line {
      assert line == kept + "\r";
      TrimBlankEnd(kept, "\r");
    }
  }

  lemma TrimBlankEnd(s: string, post: string)
    requires Blank(post)
    ensures Trim(s + post) == Trim(s)
  {
    TrimStartShape(s);
    var pre, t := s[..|s| - |TrimStart(s)|], TrimStart(s);
    Associative(pre, t, post);
    TrimStartBlank(pre, t + post);
    if t == "" {
      assert t + post == post;
      TrimStartBlank(post, "");
      assert post + "" == post;
    } else {
      assert TrimStart(t + post) == t + post;
      TrimEndBlank(t, post);
    }
  }

  /** The lines have the bare returns of the text. */
  lemma ReturnsOfLines(s: string)
    ensures Total(Lines(s)) == BareReturns(s)
    ensures forall k :: 0 <= k < |Lines(s)| ==> '\n' !in Lines(s)[k]
  {
    hide Split, IsReturn;
    var pieces := Split(s, NEWLINE);
    SplitPieces(s, NEWLINE);
    var n := |Lines(s)|;
    forall k | 0 <= k < n ensures '\n' !in pieces[k] && '\n' !in Lines(s)[k] {
      assert Without(pieces[k], NEWLINE);
    }
    SameTotals(Lines(s), pieces[..n]);
    assert pieces == pieces[..n] + pieces[n..];
    CountAppend(pieces[..n], pieces[n..]);
    EmptyRest(pieces, n);
  }

  lemma EmptyRest(pieces: seq<string>, n: nat)
    requires n <= |pieces| && (n == |pieces| || (n == |pieces| - 1 && pieces[n] == ""))
    ensures CountReturns(pieces[n..]) == 0
  {
    if n < |pieces| {
      assert pieces[n..] == [""] && [""][1..] == [];
      assert Trim("") == "";
    }
  }

  lemma {:induction false} SameTotals(lines: seq<string>, pieces: seq<string>)
    requires |lines| == |pieces|
    requires forall k :: 0 <= k < |lines| ==> lines[k] == WithoutCarriageReturn(pieces[k]) && '\n' !in lines[k]
    ensures Total(lines) == CountReturns(pieces)
  {
    hide IsReturn, BareReturns;
    if lines != [] {
      ReturnsOfLine(lines[0]);
      CarriageReturnIgnored(pieces[0]);
      SameTotals(lines[1..], pieces[1..]);
    }
  }

  lemma {:induction false} FirstReturnIsOne(lines: seq<string>)
    ensures FirstReturn(lines).Some? ==> IsReturn(lines[FirstReturn(lines).value])
    ensures FirstReturn(lines).Some? <==> exists k :: 0 <= k < |lines| && IsReturn(lines[k])
  {
    hide IsReturn;
    if lines != [] && !IsReturn(lines[0]) {
      FirstReturnIsOne(lines[1..]);
      if k :| 0 <= k < |lines| && IsReturn(lines[k]) {
        assert IsReturn(lines[1..][k - 1]);
      }
    }
  }

  lemma {:induction false} SomeReturn(lines: seq<string>)
    requires forall k :: 0 <= k < |lines| ==> '\n' !in lines[k]
    ensures Total(lines) > 0 <==> exists k :: 0 <= k < |lines| && IsReturn(lines[k])
  {
    hide IsReturn, BareReturns;
    if lines != [] {
      ReturnsOfLine(lines[0]);
      SomeReturn(lines[1..]);
      if k :| 0 <= k < |lines| && IsReturn(lines[k]) {
        if k > 0 {
          assert IsReturn(lines[1..][k - 1]);
        }
      }
      if k :| 0 <= k < |lines[1..]| && IsReturn(lines[1..][k]) {
        assert IsReturn(lines[k + 1]);
      }
    }
  }

  // ---- one step ----

  /** Bare returns that a type name brings along behind a line break of its own. */
  function Hidden(native: string): nat {
    CountReturns(Split(native, NEWLINE)[1..])
  }

  /** A visible character that the return value does not have keeps a line from being bare. */
  lemma VisibleStays(s: string, i: nat)
    requires i < |s| && !IsWhitespace(s[i]) && s[i] !in RETURN
    ensures !IsReturn(s)
  {
    hide TrimStart, TrimEnd;
    var pre, post := TrimShape(s);
    BlankLacks(pre, s[i]);
    BlankLacks(post, s[i]);
    assert s[i] in pre + Trim(s) + post;
    assert s[i] in Trim(s);
  }

  lemma BlankLacks(s: string, c: char)
    requires Blank(s) && !IsWhitespace(c)
    ensures c !in s
  {
  }

  lemma {:induction false} SplitBehind(a: string, b: string)
    requires '\n' !in a
    ensures Split(a + b, NEWLINE) == [a + Split(b, NEWLINE)[0]] + Split(b, NEWLINE)[1..]
    decreases |a|
  {
    if a == "" {
      assert a + b == b;
      var pieces := Split(b, NEWLINE);
      assert "" + pieces[0] == pieces[0];
      assert [pieces[0]] + pieces[1..] == pieces;
    } else {
      assert (a + b)[1..] == a[1..] + b;
      SplitBehind(a[1..], b);
      assert [a[0]] + (a[1..] + Split(b, NEWLINE)[0]) == a + Split(b, NEWLINE)[0];
    }
  }

  lemma CastLineReturns(line: string, native: string)
    requires '\n' !in line
    ensures BareReturns(CastLine(line, native)) == Hidden(native)
  {
    hide TrimStart, IsReturn, Split;
    TrimStartShape(line);
    var front := Indent(line) + "__r as ";
    SplitBehind(front, native);
    var first := front + Split(native, NEWLINE)[0];
    var i := |Indent(line)| + 4;
    assert first[i] == 'a';
    VisibleStays(first, i);
    var pieces := Split(CastLine(line, native), NEWLINE);
    assert pieces[0] == first && pieces[1..] == Split(native, NEWLINE)[1..];
  }

  /** A step is taken exactly when some line is the bare return value, and leaves one fewer but for hidden ones. */
  lemma ReturnStep(src: string, native: string)
    ensures InsertReturn(src, native).Some? <==> BareReturns(src) > 0
    ensures InsertReturn(src, native).Some? ==>
      BareReturns(InsertReturn(src, native).value) == BareReturns(src) - 1 + Hidden(native)
  {
    hide IsReturn, BareReturns, Hidden, CastLine, Split, FirstReturn, Lines;
    var lines := Lines(src);
    ReturnsOfLines(src);
    FirstReturnIsOne(lines);
    SomeReturn(lines);
    if FirstReturn(lines).Some? {
      var pos := FirstReturn(lines).value;
      ReturnsOfLine(lines[pos]);
      CastLineReturns(lines[pos], native);
      var rebuilt := lines[pos := CastLine(lines[pos], native)];
      TotalReplaced(lines, pos, CastLine(lines[pos], native));
      ReturnsOfJoin(rebuilt);
      var joined := Join("\n", rebuilt);
      ReturnsAtBreak(joined, "");
      NoReturnInNothing();
      assert joined + "\n" + "" == joined + "\n" && joined + "" == joined;
    }
  }

  /** The source after `n` steps, if there are that many. */
  function RepeatedReturn(src: string, native: string, n: nat): Option<string>
    decreases n
  {
    if n == 0 then Some(src)
    else
      match InsertReturn(src, native)
      case Some(next) => RepeatedReturn(next, native, n - 1)
      case None => None
  }

  /**
   * Repetition takes exactly one step for each bare return, so a second step is taken on every source with two; with
   * a type name that hides a bare return it never ends.
   */
  lemma {:induction false} ReturnStepsTaken(src: string, native: string, n: nat)
    ensures RepeatedReturn(src, native, n).Some? <==>
      if Hidden(native) == 0 then n <= BareReturns(src) else n == 0 || BareReturns(src) > 0
    decreases n
  {
    hide InsertReturn, BareReturns, Hidden;
    if n > 0 {
      ReturnStep(src, native);
      var next := InsertReturn(src, native);
      if next.Some? {
        ReturnStepsTaken(next.value, native, n - 1);
      }
    }
  }
}
