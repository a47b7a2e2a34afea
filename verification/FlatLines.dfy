/** Command-position keywords, token lowering and `lower_flat_line`. */
module FlatLines {
  import opened Outcomes
  import opened Text
  import opened ShellAst
  import opened Tokenizer

  type Lowered = Result<Option<Stmt>, Refusal>

  // ---- control_flow_keyword ----

  function FirstKeyword(s: string): Keyword {
    KeywordOf(FirstWord(s))
  }

  function KeywordAmong(segments: seq<string>): Keyword {
    if segments == [] then NoKeyword
    else if FirstKeyword(segments[0]) != NoKeyword then FirstKeyword(segments[0])
    else KeywordAmong(segments[1..])
  }

  /** The first reserved word in a command position: at the start, or after `;`, `&` or `|`. */
  function ControlFlowKeyword(line: string): Keyword {
    KeywordAmong(Split(line, COMMAND_SEPARATORS))
  }

  lemma FlatHasNoFirstKeyword(seg: string)
    requires ControlFlowKeyword(seg) == NoKeyword
    ensures FirstKeyword(seg) == NoKeyword
  {
    var w := FirstWord(seg);
    if KeywordOf(w) != NoKeyword {
      FirstWordSurvivesSplit(seg, COMMAND_SEPARATORS);
    }
  }

  /** A first word without separators is the first word of the first piece. */
  lemma FirstWordSurvivesSplit(line: string, seps: set<char>)
    requires KeywordOf(FirstWord(line)) != NoKeyword && seps <= COMMAND_SEPARATORS
    ensures FirstWord(Split(line, seps)[0]) == FirstWord(line)
  {
    var pre, rest := FirstWordShape(line);
    var w := FirstWord(line);
    KeywordSpelled(w);
    SpellingRoundTrip(KeywordOf(w));
    assert Without(pre + w, seps);
    SplitPrefix(pre + w, rest, seps);
    var p0 := Split(rest, seps)[0];
    assert p0 == "" || IsWhitespace(p0[0]) by {
      if rest != "" && rest[0] !in seps {
        assert p0[0] == rest[0];
      }
    }
    FirstWordOf(pre, w, p0);
  }

  lemma {:induction false} SplitPrefix(a: string, b: string, seps: set<char>)
    requires Without(a, seps)
    ensures Split(a + b, seps) == [a + Split(b, seps)[0]] + Split(b, seps)[1..]
    decreases |a|
  {
    if a == "" {
      assert a + b == b;
      var pieces := Split(b, seps);
      assert "" + pieces[0] == pieces[0];
      assert [pieces[0]] + pieces[1..] == pieces;
    } else {
      assert (a + b)[1..] == a[1..] + b;
      SplitPrefix(a[1..], b, seps);
      assert [a[0]] + (a[1..] + Split(b, seps)[0]) == a + Split(b, seps)[0];
    }
  }

  lemma {:induction false} NoKeywordAmong(segments: seq<string>)
    ensures KeywordAmong(segments) == NoKeyword <==> forall s :: s in segments ==> FirstKeyword(s) == NoKeyword
  {
    hide FirstKeyword;
    if segments != [] {
      NoKeywordAmong(segments[1..]);
      assert forall s :: s in segments <==> s == segments[0] || s in segments[1..];
    }
  }

  // ---- tokens ----

  function LowerToken(tok: string): Expr {
    if tok == "" || tok[0] != '$' then LitStr(tok)
    else
      var rest := tok[1..];
      if IsShellSpecial(rest) then ShellSpecial(rest)
      else if rest != "" && rest[0] == '{' then
        if |rest| > 1 && rest[|rest| - 1] == '}' && IsPosixIdentifier(rest[1..|rest| - 1])
        then ShellVar(rest[1..|rest| - 1])
        else LitStr(tok)
      else if IsPosixIdentifier(rest) then ShellVar(rest)
      else LitStr(tok)
  }

  /** A substitution is lowered from strictly fewer characters than it was read from. */
  function LowerRawToken(t: RawToken): Result<Expr, Refusal>
    decreases Size(t), 0
  {
    match t
    case Bare(s) => Ok(LowerToken(s))
    case SingleQuoted(s) => Ok(QuotedString(s, Single))
    case DoubleQuoted(s) => Ok(QuotedString(s, Double))
    case CommandSubst(inner) =>
      var trimmed := Trim(inner);
      if trimmed == "" then Err(EmptySubstitution)
      else
        var raw :- Tokenize(trimmed);
        if raw == [] then Err(SubstitutionWithoutTokens)
        else if !raw[0].Bare? then Err(QuotedProgram)
        else
          assert TotalSize(raw) < Size(t) by {
            TokensFit(trimmed, "");
            TrimNeverGrows(inner);
          }
          var args :- LowerTokens(raw[1..]);
          Ok(CommandSubstitution(Cmd(raw[0].text, args)))
  }

  function LowerTokens(ts: seq<RawToken>): Result<seq<Expr>, Refusal>
    decreases TotalSize(ts), 1, |ts|
  {
    if ts == [] then Ok([])
    else
      var first :- LowerRawToken(ts[0]);
      var rest :- LowerTokens(ts[1..]);
      Ok([first] + rest)
  }

  // ---- one flat line ----

  /** One command: the program must be a bareword; a line of comment alone is no command. */
  function Command(text: string): Lowered {
    var raw :- Tokenize(text);
    if raw == [] then Ok(None)
    else if !raw[0].Bare? then Err(QuotedProgram)
    else
      var args :- LowerTokens(raw[1..]);
      Ok(Some(Cmd(raw[0].text, args)))
  }

  function Stages(segments: seq<string>): Result<seq<Stmt>, Refusal> {
    if segments == [] then Ok([])
    else if Trim(segments[0]) == "" then Err(EmptyStage)
    else
      var stage :- Command(Trim(segments[0]));
      After(if stage.Some? then [stage.value] else [], Stages(segments[1..]))
  }

  predicate IsLonePipe(line: string, i: nat)
    requires i < |line|
  {
    line[i] == '|' && (i == 0 || line[i - 1] != '|') && (i + 1 == |line| || line[i + 1] != '|')
  }

  /** A `|` that is not half of `||`. */
  predicate HasLonePipe(line: string) {
    exists i :: 0 <= i < |line| && IsLonePipe(line, i)
  }

  /** A bareword that carries the here-document operator; inside `$((` it is a left shift. */
  predicate IsHereDocToken(t: RawToken) {
    t.Bare? && !StartsWith(t.text, "$((") && HasDoubleLess(t.text)
  }

  /** A line that does not tokenize is not taken for a here-document. */
  predicate HasHereDoc(line: string) {
    var tokens := Tokenize(line);
    tokens.Ok? && exists t :: t in tokens.value && IsHereDocToken(t)
  }

  /** `NAME=` at the start of the line. */
  predicate IsAssignment(line: string) {
    var eq := IndexOf(line, '=');
    eq.Some? && IsPosixIdentifier(line[..eq.value])
  }

  function Assignment(name: string, valueText: string): Lowered {
    var tokens :- Tokenize(valueText);
    if |tokens| == 0 then Ok(Some(ShellAssign(name, LitStr(""))))
    else if |tokens| == 1 then
      var value :- LowerRawToken(tokens[0]);
      Ok(Some(ShellAssign(name, value)))
    else Err(AssignmentBeforeCommand)
  }

  function FlatLine(line: string): Lowered {
    if HasHereDoc(line) then Err(HereDocument)
    else if FirstWord(line) == "&" then Err(AmpersandCommand)
    else if IsAssignment(line) then
      var eq := IndexOf(line, '=').value;
      Assignment(line[..eq], line[eq + 1..])
    else if HasLonePipe(line) then
      var stages :- Stages(Split(line, PIPE));
      if |stages| < 2 then Err(TooFewStages) else Ok(Some(Pipeline(stages)))
    else Command(line)
  }

  // ---- the loops the source runs ----

  method LineHasUnambiguousPipe(line: string) returns (found: bool)
    ensures found == HasLonePipe(line)
  {
    for i := 0 to |line|
      invariant forall k :: 0 <= k < i ==> !IsLonePipe(line, k)
    {
      if line[i] != '|' {
        continue;
      }
      var prevIsPipe := i > 0 && line[i - 1] == '|';
      var nextIsPipe := i + 1 < |line| && line[i + 1] == '|';
      if !prevIsPipe && !nextIsPipe {
        assert IsLonePipe(line, i);
        return true;
      }
    }
    return false;
  }

  method FindHereDoc(tokens: seq<RawToken>) returns (found: bool)
    ensures found == exists t :: t in tokens && IsHereDocToken(t)
  {
    for i := 0 to |tokens|
      invariant forall k :: 0 <= k < i ==> !IsHereDocToken(tokens[k])
    {
      if IsHereDocToken(tokens[i]) {
        return true;
      }
    }
    return false;
  }

  method LowerCommand(text: string) returns (r: Lowered)
    ensures r == Command(text)
  {
    var raw :- TokenizeLine(text);
    if raw == [] {
      return Ok(None);
    }
    if !raw[0].Bare? {
      return Err(QuotedProgram);
    }
    var args :- LowerTokens(raw[1..]);
    return Ok(Some(Cmd(raw[0].text, args)));
  }

  method LowerPipeline(line: string) returns (r: Lowered)
    ensures r == match Stages(Split(line, PIPE))
                 case Err(e) => Err(e)
                 case Ok(stages) => if |stages| < 2 then Err(TooFewStages) else Ok(Some(Pipeline(stages)))
  {
    var segments := Split(line, PIPE);
    var stages: seq<Stmt> := [];
    AfterNothing(Stages(segments));
    assert segments[0..] == segments;
    for i := 0 to |segments|
      invariant Stages(segments) == After(stages, Stages(segments[i..]))
    {
      assert segments[i..][1..] == segments[i + 1..];
      var trimmed := Trim(segments[i]);
      if trimmed == "" {
        return Err(EmptyStage);
      }
      var stage := LowerCommand(trimmed);
      if stage.Err? {
        return Err(stage.error);
      }
      var more := if stage.value.Some? then [stage.value.value] else [];
      AfterAfter(stages, more, Stages(segments[i + 1..]));
      stages := stages + more;
    }
    assert stages + [] == stages;
    if |stages| < 2 {
      return Err(TooFewStages);
    }
    return Ok(Some(Pipeline(stages)));
  }

  method LowerFlatLine(line: string) returns (r: Lowered)
    ensures r == FlatLine(line)
  {
    var tokens := TokenizeLine(line);
    if tokens.Ok? {
      var hereDoc := FindHereDoc(tokens.value);
      if hereDoc {
        return Err(HereDocument);
      }
    }
    if FirstWord(line) == "&" {
      return Err(AmpersandCommand);
    }
    var eq := IndexOf(line, '=');
    if eq.Some? && IsPosixIdentifier(line[..eq.value]) {
      var name, valueText := line[..eq.value], line[eq.value + 1..];
      var valueTokens := TokenizeLine(valueText);
      if valueTokens.Err? {
        return Err(valueTokens.error);
      }
      if |valueTokens.value| == 0 {
        return Ok(Some(ShellAssign(name, LitStr(""))));
      }
      if |valueTokens.value| > 1 {
        return Err(AssignmentBeforeCommand);
      }
      var value := LowerRawToken(valueTokens.value[0]);
      if value.Err? {
        return Err(value.error);
      }
      return Ok(Some(ShellAssign(name, value.value)));
    }
    var piped := LineHasUnambiguousPipe(line);
    if piped {
      r := LowerPipeline(line);
    } else {
      r := LowerCommand(line);
    }
  }
}
