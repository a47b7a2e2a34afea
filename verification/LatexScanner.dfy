/** `Scanner` and `parse_to_equations` of the LaTeX contract frontend. */
module LatexScanner {
  import opened Outcomes
  import opened Text
  import opened Search

  datatype MathKind = Inline | Paren | Display | EquationEnv | Align | Gather

  /** THEOREM_CLASS_ENVIRONMENTS. */
  datatype Environment = Theorem | Lemma | Corollary | Proposition | Claim | Definition | Remark

  datatype Token =
    | Math(kind: MathKind, formula: string)
    | TheoremEnv(title: string, body: string)
    | ProofEnv
    | XpileContract(id: string)
    | Cite(key: string)

  /** What stands at the scanner's position. */
  datatype Opening =
    | Comment | MathOpen(kind: MathKind) | ProofOpen | ContractOpen | CiteOpen | Dollars
    | TheoremOpen(env: Environment) | Plain

  /** `Overrun`: a backslash at the very end of an open argument has moved the position past the end of the source. */
  datatype Step = Skip(length: nat) | Emit(token: Token, length: nat) | Finished | Overrun

  const PROOF_BEGIN: string := "\\begin{proof}"
  const PROOF_END: string := "\\end{proof}"
  const CONTRACT: string := "\\xpileContract{"
  const CITE: string := "\\cite{"

  function Opener(kind: MathKind): string {
    match kind
    case Inline => "$"
    case Paren => "\\("
    case Display => "\\["
    case EquationEnv => "\\begin{equation}"
    case Align => "\\begin{align}"
    case Gather => "\\begin{gather}"
  }

  function Closer(kind: MathKind): string {
    match kind
    case Inline => "$"
    case Paren => "\\)"
    case Display => "\\]"
    case EquationEnv => "\\end{equation}"
    case Align => "\\end{align}"
    case Gather => "\\end{gather}"
  }

  function EnvironmentName(env: Environment): string {
    match env
    case Theorem => "theorem"
    case Lemma => "lemma"
    case Corollary => "corollary"
    case Proposition => "proposition"
    case Claim => "claim"
    case Definition => "definition"
    case Remark => "remark"
  }

  function EnvBegin(env: Environment): string {
    "\\begin{" + EnvironmentName(env) + "}"
  }

  function EnvEnd(env: Environment): string {
    "\\end{" + EnvironmentName(env) + "}"
  }

  function OpeningText(o: Opening): string {
    match o
    case Comment => "%"
    case MathOpen(kind) => Opener(kind)
    case ProofOpen => PROOF_BEGIN
    case ContractOpen => CONTRACT
    case CiteOpen => CITE
    case Dollars => "$$"
    case TheoremOpen(env) => EnvBegin(env)
    case Plain => ""
  }

  /** `escaped`: the character before the position is a backslash. */
  function OpeningOf(s: string, escaped: bool): (o: Opening)
    ensures StartsWith(s, OpeningText(o))
  {
    if StartsWith(s, "%") && !escaped then Comment
    else if StartsWith(s, Opener(Display)) then MathOpen(Display)
    else if StartsWith(s, Opener(EquationEnv)) then MathOpen(EquationEnv)
    else if StartsWith(s, Opener(Align)) then MathOpen(Align)
    else if StartsWith(s, Opener(Gather)) then MathOpen(Gather)
    else if StartsWith(s, PROOF_BEGIN) then ProofOpen
    else if StartsWith(s, CONTRACT) then ContractOpen
    else if StartsWith(s, CITE) then CiteOpen
    else if StartsWith(s, Opener(Paren)) then MathOpen(Paren)
    else if StartsWith(s, "$$") then Dollars
    else if StartsWith(s, Opener(Inline)) then MathOpen(Inline)
    else if StartsWith(s, EnvBegin(Theorem)) then TheoremOpen(Theorem)
    else if StartsWith(s, EnvBegin(Lemma)) then TheoremOpen(Lemma)
    else if StartsWith(s, EnvBegin(Corollary)) then TheoremOpen(Corollary)
    else if StartsWith(s, EnvBegin(Proposition)) then TheoremOpen(Proposition)
    else if StartsWith(s, EnvBegin(Claim)) then TheoremOpen(Claim)
    else if StartsWith(s, EnvBegin(Definition)) then TheoremOpen(Definition)
    else if StartsWith(s, EnvBegin(Remark)) then TheoremOpen(Remark)
    else Plain
  }

  // ---- braces ----

  /** Where the brace that closes an argument stands, or how the source ends without one. */
  datatype Braces = Closed(at: nat) | Unclosed | PastEnd

  function Shifted(n: nat, b: Braces): Braces {
    match b
    case Closed(at) => Closed(n + at)
    case _ => b
  }

  /** A backslash takes the next character with it, brace or not. */
  function CloseBrace(s: string, depth: nat): (r: Braces)
    requires depth > 0
    ensures r.Closed? ==> r.at < |s|
    decreases |s|
  {
    if s == "" then Unclosed
    else if s[0] == '\\' then if |s| == 1 then PastEnd else Shifted(2, CloseBrace(s[2..], depth))
    else if s[0] == '{' then Shifted(1, CloseBrace(s[1..], depth + 1))
    else if s[0] != '}' then Shifted(1, CloseBrace(s[1..], depth))
    else if depth == 1 then Closed(0)
    else Shifted(1, CloseBrace(s[1..], depth - 1))
  }

  // ---- one pass of the scanning loop ----

  datatype Span = Span(inner: string, length: nat)

  /** The text from `start` up to `close`, and the length with `close` consumed. */
  function UpTo(s: string, start: nat, close: string): (r: Option<Span>)
    requires start <= |s|
    ensures r.Some? ==> r.value.length <= |s|
  {
    match Find(s[start..], close)
    case Some(end) => Some(Span(s[start..start + end], start + end + |close|))
    case None => None
  }

  lemma TitleEndsLater(r: string)
    requires StartsWith(r, "[") && Find(r, "]").Some?
    ensures Find(r, "]").value > 0
  {
    FoundThere(r, "]");
    assert r[0..1] == "[";
  }

  /** The bracketed title that may follow a theorem opener: what it says and how long it is. */
  function TitleOf(r: string): (t: (string, nat))
    ensures t.1 <= |r|
  {
    if StartsWith(r, "[") && Find(r, "]").Some? then
      var end := Find(r, "]").value;
      assert end > 0 by { TitleEndsLater(r); }
      (r[1..end], end + 1)
    else ("", 0)
  }

  function TheoremStep(s: string, env: Environment): Step
    requires StartsWith(s, EnvBegin(env))
  {
    var n := |EnvBegin(env)|;
    var title := TitleOf(s[n..]);
    match UpTo(s, n + title.1, EnvEnd(env))
    case Some(span) => Emit(TheoremEnv(title.0, span.inner), span.length)
    case None => Skip(1)
  }

  function ContractStep(s: string): Step
    requires StartsWith(s, CONTRACT)
  {
    var n := |CONTRACT|;
    match CloseBrace(s[n..], 1)
    case Closed(at) =>
      var id := s[n..n + at];
      var r := s[n + at + 1..];
      if StartsWith(r, "{") then
        match CloseBrace(r[1..], 1)
        case Closed(k) => Emit(XpileContract(id), n + at + 1 + k + 2)
        case Unclosed => Emit(XpileContract(id), |s|)
        case PastEnd => Overrun
      else Emit(XpileContract(id), n + at + 1)
    case Unclosed => Skip(|s|)
    case PastEnd => Overrun
  }

  function CiteStep(s: string): Step
    requires StartsWith(s, CITE)
  {
    var n := |CITE|;
    match CloseBrace(s[n..], 1)
    case Closed(at) => Emit(Cite(s[n..n + at]), n + at + 1)
    case Unclosed => Skip(|s|)
    case PastEnd => Overrun
  }

  function StepAt(s: string, escaped: bool): Step
    requires s != ""
  {
    match OpeningOf(s, escaped)
    case Comment => Skip(match Find(s, "\n") case Some(i) => i + 1 case None => |s|)
    case MathOpen(kind) =>
      (match UpTo(s, |Opener(kind)|, Closer(kind))
       case Some(span) => Emit(Math(kind, span.inner), span.length)
       case None => Finished)
    case ProofOpen =>
      (match UpTo(s, |PROOF_BEGIN|, PROOF_END)
       case Some(span) => Emit(ProofEnv, span.length)
       case None => Finished)
    case ContractOpen => ContractStep(s)
    case CiteOpen => CiteStep(s)
    case Dollars => Skip(match Find(s[2..], "$$") case Some(i) => i + 4 case None => 2)
    case TheoremOpen(env) =>
      TheoremStep(s, env)
    case Plain => Skip(1)
  }

  lemma StepBounds(s: string, escaped: bool)
    requires s != ""
    ensures var step := StepAt(s, escaped); step.Skip? || step.Emit? ==> 0 < step.length <= |s|
  {
    hide Find, CloseBrace, EnvironmentName, OpeningOf;
  }

  /** The position went past the end of the source, which no slice allows. */
  datatype Crash = OutOfBounds

  type Scanned = Result<seq<Token>, Crash>

  function Tokens(s: string, escaped: bool): Scanned
    decreases |s|
  {
    if s == "" then Ok([])
    else
      StepBounds(s, escaped);
      match StepAt(s, escaped)
      case Skip(n) => Tokens(s[n..], s[n - 1] == '\\')
      case Emit(t, n) => After([t], Tokens(s[n..], s[n - 1] == '\\'))
      case Finished => Ok([])
      case Overrun => Err(OutOfBounds)
  }

  lemma TokensStep(s: string, escaped: bool)
    requires s != ""
    ensures match StepAt(s, escaped)
      case Skip(n) => 0 < n <= |s| && Tokens(s, escaped) == Tokens(s[n..], s[n - 1] == '\\')
      case Emit(t, n) => 0 < n <= |s| && Tokens(s, escaped) == After([t], Tokens(s[n..], s[n - 1] == '\\'))
      case Finished => Tokens(s, escaped) == Ok([])
      case Overrun => Tokens(s, escaped) == Err(OutOfBounds)
  {
    hide StepAt;
    StepBounds(s, escaped);
  }

  /** One character of the brace scan, seen from where the argument starts. */
  lemma BraceStep(done: nat, s: string, depth: nat)
    requires s != "" && depth > 0
    ensures Shifted(done, CloseBrace(s, depth)) ==
      if s[0] == '\\' then if |s| == 1 then PastEnd else Shifted(done + 2, CloseBrace(s[2..], depth))
      else if s[0] == '{' then Shifted(done + 1, CloseBrace(s[1..], depth + 1))
      else if s[0] != '}' then Shifted(done + 1, CloseBrace(s[1..], depth))
      else if depth == 1 then Closed(done)
      else Shifted(done + 1, CloseBrace(s[1..], depth - 1))
  {
  }

  lemma NothingCloses(depth: nat)
    requires depth > 0
    ensures CloseBrace("", depth) == Unclosed
  {
  }

  // ---- the scanner object ----

  class Scanner {
    const src: string
    var pos: nat

    constructor (src: string)
      ensures this.src == src && pos == 0
    {
      this.src, pos := src, 0;
    }

    ghost predicate Valid()
      reads this
    {
      pos <= |src|
    }

    function Rest(): string
      reads this
    {
      if pos <= |src| then src[pos..] else ""
    }

    predicate Escaped()
      reads this
    {
      0 < pos <= |src| && src[pos - 1] == '\\'
    }

    /** After an opening brace, to just past its closing one. */
    method ScanBalancedBraces() returns (inner: Option<string>)
      requires Valid()
      modifies this
      ensures match CloseBrace(old(Rest()), 1)
        case Closed(at) => inner == Some(old(Rest())[..at]) && pos == old(pos) + at + 1
        case Unclosed => inner == None && pos == |src|
        case PastEnd => inner == None && pos == |src| + 1
    {
      hide CloseBrace;
      var depth := 1;
      var start := pos;
      assert Shifted(0, CloseBrace(src[start..], 1)) == CloseBrace(src[start..], 1);
      while pos < |src|
        invariant start <= pos && depth > 0
        invariant pos <= |src| ==> CloseBrace(src[start..], 1) == Shifted(pos - start, CloseBrace(src[pos..], depth))
        invariant pos > |src| ==> pos == |src| + 1 && CloseBrace(src[start..], 1) == PastEnd
      {
        ghost var s := src[pos..];
        BraceStep(pos - start, s, depth);
        assert s[1..] == src[pos + 1..];
        if src[pos] == '{' {
          depth := depth + 1;
        } else if src[pos] == '}' {
          depth := depth - 1;
          if depth == 0 {
            inner := Some(src[start..pos]);
            assert src[start..pos] == src[start..][..pos - start];
            pos := pos + 1;
            return;
          }
        } else if src[pos] == '\\' {
          assert |s| > 1 ==> s[2..] == src[pos + 2..];
          pos := pos + 1;
        }
        pos := pos + 1;
      }
      NothingCloses(depth);
      assert pos == |src| ==> src[pos..] == "";
      return None;
    }

    /** From a contract citation; the second argument is read and dropped. */
    method ReadContract() returns (step: Step)
      requires Valid() && StartsWith(Rest(), CONTRACT)
      modifies this
      ensures step == ContractStep(old(Rest()))
      ensures step.Skip? || step.Emit? ==> pos == old(pos) + step.length
    {
      hide CloseBrace;
      ghost var s := Rest();
      var start := pos;
      pos := pos + |CONTRACT|;
      assert Rest() == s[|CONTRACT|..];
      var id := ScanBalancedBraces();
      if id == None {
        return if pos <= |src| then Skip(pos - start) else Overrun;
      }
      assert id.value == s[|CONTRACT|..pos - start - 1];
      var r := Rest();
      assert r == s[pos - start..];
      if StartsWith(r, "{") {
        pos := pos + 1;
        assert Rest() == r[1..];
        var _ := ScanBalancedBraces();
      }
      return if pos <= |src| then Emit(XpileContract(id.value), pos - start) else Overrun;
    }

    method ReadCite() returns (step: Step)
      requires Valid() && StartsWith(Rest(), CITE)
      modifies this
      ensures step == CiteStep(old(Rest()))
      ensures step.Skip? || step.Emit? ==> pos == old(pos) + step.length
    {
      hide CloseBrace;
      ghost var s := Rest();
      var start := pos;
      pos := pos + |CITE|;
      assert Rest() == s[|CITE|..];
      var key := ScanBalancedBraces();
      if key == None {
        return if pos <= |src| then Skip(pos - start) else Overrun;
      }
      assert key.value == s[|CITE|..pos - start - 1];
      return Emit(Cite(key.value), pos - start);
    }

    /** A theorem-class environment; without its end the position is put back. */
    method TryTheoremEnv(env: Environment) returns (step: Step)
      requires Valid() && StartsWith(Rest(), EnvBegin(env))
      modifies this
      ensures step == TheoremStep(old(Rest()), env)
      ensures if step.Emit? then pos == old(pos) + step.length else step == Skip(1) && pos == old(pos)
    {
      hide Find, EnvironmentName, TitleOf, UpTo;
      var s, start := Rest(), pos;
      pos := pos + |EnvBegin(env)|;
      assert Rest() == s[|EnvBegin(env)|..];
      var title := TitleOf(Rest());
      pos := pos + title.1;
      var span := UpTo(s, pos - start, EnvEnd(env));
      if span == None {
        pos := start;
        return Skip(1);
      }
      pos := start + span.value.length;
      return Emit(TheoremEnv(title.0, span.value.inner), span.value.length);
    }

    /** One pass of the loop: the step taken, and the position after it. */
    method TakeStep() returns (step: Step)
      requires pos < |src|
      modifies this
      ensures step == StepAt(old(Rest()), old(Escaped()))
      ensures step.Skip? || step.Emit? ==> pos == old(pos) + step.length
    {
      hide Find, ContractStep, CiteStep, TheoremStep, EnvironmentName, UpTo;
      match OpeningOf(Rest(), Escaped()) {
        case Comment =>
          var newline := Find(Rest(), "\n");
          step := Skip(if newline.Some? then newline.value + 1 else |Rest()|);
        case MathOpen(kind) =>
          var span := UpTo(Rest(), |Opener(kind)|, Closer(kind));
          step := if span.Some? then Emit(Math(kind, span.value.inner), span.value.length) else Finished;
        case ProofOpen =>
          var span := UpTo(Rest(), |PROOF_BEGIN|, PROOF_END);
          step := if span.Some? then Emit(ProofEnv, span.value.length) else Finished;
        case ContractOpen =>
          step := ReadContract();
          return;
        case CiteOpen =>
          step := ReadCite();
          return;
        case Dollars =>
          var end := Find(Rest()[2..], "$$");
          step := Skip(if end.Some? then end.value + 4 else 2);
        case TheoremOpen(env) =>
          step := TryTheoremEnv(env);
          if step.Skip? {
            pos := pos + 1;
          }
          return;
        case Plain =>
          step := Skip(1);
      }
      if step.Skip? || step.Emit? {
        pos := pos + step.length;
      }
    }

    /** The next token, if there is one before the scan ends. */
    method NextToken() returns (r: Result<Option<Token>, Crash>)
      requires Valid()
      modifies this
      ensures r.Ok? && r.value.Some? ==> Valid() && pos > old(pos)
      ensures Tokens(old(Rest()), old(Escaped())) == match r
        case Ok(Some(t)) => After([t], Tokens(Rest(), Escaped()))
        case Ok(None) => Ok([])
        case Err(e) => Err(e)
    {
      hide StepAt, After, Tokens;
      ghost var s, escaped := Rest(), Escaped();
      while pos < |src|
        invariant Valid() && pos >= old(pos)
        invariant Tokens(s, escaped) == Tokens(Rest(), Escaped())
      {
        ghost var here := Rest();
        TokensStep(here, Escaped());
        var step := TakeStep();
        if step.Skip? || step.Emit? {
          assert Rest() == here[step.length..];
          assert Escaped() == (here[step.length - 1] == '\\');
        }
        match step {
          case Skip(_) =>
          case Emit(t, _) => return Ok(Some(t));
          case Finished => return Ok(None);
          case Overrun => return Err(OutOfBounds);
        }
      }
      assert Rest() == "";
      NothingLeft(Escaped());
      return Ok(None);
    }
  }

  lemma NothingLeft(escaped: bool)
    ensures Tokens("", escaped) == Ok([])
  {
  }
}
