/** `lower_theorem_env`: what a theorem environment is lowered to, with the scanner run again on its statement. */
module LatexObligations {
  import opened Outcomes
  import opened Text
  import opened Search
  import opened LatexScanner

  /** `applies_to` is the environment's title, verbatim. */
  datatype Obligation = Obligation(precondition: bool, property: string, formal: string, appliesTo: string)

  const PRECONDITION_FLAG: string := "\\textbf{Precondition:}"

  /** The body without the flag and the blanks around it. */
  function Stated(body: string): string {
    var trimmed := Trim(body);
    Trim(if StartsWith(trimmed, PRECONDITION_FLAG) then trimmed[|PRECONDITION_FLAG|..] else trimmed)
  }

  // ---- the formal half ----

  function MathOf(ts: seq<Token>): seq<string> {
    if ts == [] then [] else MathOf(ts[..|ts| - 1]) + MathIn(ts[|ts| - 1])
  }

  function MathIn(t: Token): seq<string> {
    if t.Math? then [Trim(t.formula)] else []
  }

  function Formal(formulas: seq<string>): string {
    if formulas == [] then "TBD" else Join(" ; ", formulas)
  }

  // ---- the prose half ----

  /** `math_span_len`: an opener without its closer is no span. */
  function SpanLength(s: string): (n: Option<nat>)
    ensures n.Some? ==> 2 <= n.value <= |s|
  {
    if StartsWith(s, "\\(") then Later(4, Find(s[2..], "\\)"))
    else if StartsWith(s, "\\[") then Later(4, Find(s[2..], "\\]"))
    else if StartsWith(s, "$") then Later(2, Find(s[1..], "$"))
    else None
  }

  /** A blank for every span. */
  function WithoutSpans(s: string): string {
    if s == "" then ""
    else
      match SpanLength(s)
      case Some(n) => " " + WithoutSpans(s[n..])
      case None => [s[0]] + WithoutSpans(s[1..])
  }

  /** `split_whitespace`. */
  function Words(s: string): seq<string>
    decreases |s|
  {
    if FirstWord(s) == "" then []
    else
      WordsShrink(s);
      [FirstWord(s)] + Words(DropWord(s))
  }

  lemma WordsShrink(s: string)
    requires FirstWord(s) != ""
    ensures |DropWord(s)| < |s|
  {
    TrimStartShape(s);
  }

  function Property(statement: string): string {
    Join(" ", Words(WithoutSpans(statement)))
  }

  /** A theorem environment as an obligation, if the scan of its statement stays inside it. */
  function Lowered(title: string, body: string): Result<Obligation, Crash> {
    var statement := Stated(body);
    var ts :- Tokens(statement, false);
    Ok(Obligation(StartsWith(Trim(body), PRECONDITION_FLAG), Property(statement), Formal(MathOf(ts)), title))
  }

  // ---- the loops the source runs ----

  lemma MathAppended(ts: seq<Token>, t: Token)
    ensures MathOf(ts + [t]) == MathOf(ts) + MathIn(t)
  {
    assert (ts + [t])[..|ts + [t]| - 1] == ts;
  }

  method CollectMathSpans(body: string) returns (r: Result<seq<string>, Crash>)
    ensures match Tokens(body, false)
      case Ok(ts) => r == Ok(MathOf(ts))
      case Err(e) => r == Err(e)
  {
    hide Tokens, MathOf;
    var formulas: seq<string> := [];
    var scanner := new Scanner(body);
    ghost var ts: seq<Token> := [];
    AfterNothing(Tokens(body, false));
    assert MathOf([]) == [] by { NoMath(); }
    while true
      invariant scanner.Valid()
      invariant Tokens(body, false) == After(ts, Tokens(scanner.Rest(), scanner.Escaped()))
      invariant formulas == MathOf(ts)
      modifies scanner
      decreases |body| - scanner.pos
    {
      var next := scanner.NextToken();
      if next.Err? {
        return Err(next.error);
      }
      if next.value == None {
        assert ts + [] == ts;
        return Ok(formulas);
      }
      AfterAfter(ts, [next.value.value], Tokens(scanner.Rest(), scanner.Escaped()));
      MathAppended(ts, next.value.value);
      formulas := formulas + MathIn(next.value.value);
      ts := ts + [next.value.value];
    }
  }

  lemma NoMath()
    ensures MathOf([]) == []
  {
  }

  lemma SpanStep(body: string, i: nat)
    requires i < |body|
    ensures var n := SpanLength(body[i..]);
      (n.Some? ==> 2 <= n.value <= |body| - i)
      && WithoutSpans(body[i..])
         == if n.Some? then " " + WithoutSpans(body[i + n.value..]) else [body[i]] + WithoutSpans(body[i + 1..])
  {
    hide SpanLength;
    var n := SpanLength(body[i..]);
    if n.Some? {
      assert body[i..][n.value..] == body[i + n.value..];
    } else {
      assert body[i..][1..] == body[i + 1..];
    }
  }

  method StripMathAndCollapse(body: string) returns (property: string)
    ensures property == Property(body)
  {
    hide SpanLength, Words, WithoutSpans;
    var prose := "";
    var i := 0;
    assert body[0..] == body;
    while i < |body|
      invariant 0 <= i <= |body|
      invariant WithoutSpans(body) == prose + WithoutSpans(body[i..])
    {
      SpanStep(body, i);
      var span := SpanLength(body[i..]);
      if span.Some? {
        Associative(prose, " ", WithoutSpans(body[i + span.value..]));
        prose := prose + " ";
        i := i + span.value;
      } else {
        Associative(prose, [body[i]], WithoutSpans(body[i + 1..]));
        prose := prose + [body[i]];
        i := i + 1;
      }
    }
    assert body[|body|..] == "";
    NothingStripped(prose);
    return Join(" ", Words(prose));
  }

  lemma NothingStripped(prose: string)
    ensures prose + WithoutSpans("") == prose
  {
  }

  method LowerTheoremEnv(title: string, body: string) returns (r: Result<Obligation, Crash>)
    ensures r == Lowered(title, body)
  {
    hide Tokens, Property, Formal, MathOf;
    var trimmed := Trim(body);
    var isPrecondition := StartsWith(trimmed, PRECONDITION_FLAG);
    var statement := Trim(if isPrecondition then trimmed[|PRECONDITION_FLAG|..] else trimmed);
    var math := CollectMathSpans(statement);
    if math.Err? {
      return Err(math.error);
    }
    var property := StripMathAndCollapse(statement);
    return Ok(Obligation(isPrecondition, property, Formal(math.value), title));
  }
}
