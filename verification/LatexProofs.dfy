/** Proof bodies are discarded behind text that the scanner works through on its own. */
module LatexProofs {
  import opened Outcomes
  import opened Text
  import opened Search
  import opened LatexScanner

  function Proof(body: string): string {
    PROOF_BEGIN + body + PROOF_END
  }

  // ---- openers ----

  /** No opener has a backslash after its first character, so a later backslash does not take part in one. */
  lemma OpenersSingleHead(o: Opening)
    ensures forall i :: 0 < i < |OpeningText(o)| ==> OpeningText(o)[i] != '\\'
  {
    hide EnvironmentName;
    if o.TheoremOpen? {
      EnvironmentNamesPlain(o.env);
    }
  }

  lemma EnvironmentNamesPlain(env: Environment)
    ensures forall i :: 0 <= i < |EnvironmentName(env)| ==> EnvironmentName(env)[i] != '\\'
  {
  }

  lemma OpenerWithin(x: string, u: string, o: Opening)
    requires x != "" && (u == "" || u[0] == '\\')
    ensures StartsWith(x + u, OpeningText(o)) <==> StartsWith(x, OpeningText(o))
  {
    hide OpeningText;
    OpenersSingleHead(o);
    var text := OpeningText(o);
    if |text| <= |x| {
      assert (x + u)[..|text|] == x[..|text|];
    } else if |text| <= |x + u| {
      assert (x + u)[..|text|][|x|] == '\\';
    }
  }

  lemma OpeningWithin(x: string, u: string, escaped: bool)
    requires x != "" && (u == "" || u[0] == '\\')
    ensures OpeningOf(x + u, escaped) == OpeningOf(x, escaped)
  {
    hide OpeningOf, StartsWith;
    OpeningByTexts(x, x + u, escaped) by {
      forall o ensures StartsWith(x, OpeningText(o)) <==> StartsWith(x + u, OpeningText(o)) {
        OpenerWithin(x, u, o);
      }
    }
  }

  /** What is recognised depends only on which opener texts the position starts with. */
  lemma OpeningByTexts(x: string, y: string, escaped: bool)
    requires forall o :: StartsWith(x, OpeningText(o)) <==> StartsWith(y, OpeningText(o))
    ensures OpeningOf(x, escaped) == OpeningOf(y, escaped)
  {
    hide StartsWith, Opener, EnvBegin;
    assert OpeningText(Comment) == "%" && OpeningText(Dollars) == "$$";
    forall k: MathKind ensures StartsWith(x, Opener(k)) <==> StartsWith(y, Opener(k)) {
      assert OpeningText(MathOpen(k)) == Opener(k);
    }
    forall e: Environment ensures StartsWith(x, EnvBegin(e)) <==> StartsWith(y, EnvBegin(e)) {
      assert OpeningText(TheoremOpen(e)) == EnvBegin(e);
    }
    assert OpeningText(ProofOpen) == PROOF_BEGIN && OpeningText(ContractOpen) == CONTRACT
      && OpeningText(CiteOpen) == CITE;
  }

  lemma ProofOpens(rest: string, escaped: bool)
    ensures OpeningOf(PROOF_BEGIN + rest, escaped) == ProofOpen
  {
    hide StartsWith;
    var s := PROOF_BEGIN + rest;
    assert s[0] == '\\' && s[1] == 'b' && s[7] == 'p' && s[8] == 'r' && s[9] == 'o' && s[10] == 'o';
    NotStarted(s, "%", 0);
    NotStarted(s, Opener(Display), 1);
    NotStarted(s, Opener(EquationEnv), 7);
    NotStarted(s, Opener(Align), 7);
    NotStarted(s, Opener(Gather), 7);
    Started(PROOF_BEGIN, rest);
  }

  lemma Started(o: string, rest: string)
    ensures StartsWith(o + rest, o)
  {
    assert (o + rest)[..|o|] == o;
  }

  lemma NotStarted(s: string, o: string, i: nat)
    requires i < |s| && i < |o| && s[i] != o[i]
    ensures !StartsWith(s, o)
  {
    if |o| <= |s| {
      assert s[..|o|][i] == s[i];
    }
  }

  // ---- steps that do not look further ----

  /** The step at the start of `s` finds everything it looks for inside `s`. */
  predicate Complete(s: string, escaped: bool)
    requires s != ""
  {
    match OpeningOf(s, escaped)
    case Comment => Find(s, "\n").Some?
    case MathOpen(kind) => Find(s[|Opener(kind)|..], Closer(kind)).Some?
    case ProofOpen => Find(s[|PROOF_BEGIN|..], PROOF_END).Some?
    case ContractOpen => ContractClosed(s[|CONTRACT|..])
    case CiteOpen => CloseBrace(s[|CITE|..], 1).Closed?
    case Dollars => Find(s[2..], "$$").Some?
    case TheoremOpen(env) => TheoremClosed(s[|EnvBegin(env)|..], env)
    case Plain => true
  }

  predicate ContractClosed(r: string) {
    match CloseBrace(r, 1)
    case Closed(at) => StartsWith(r[at + 1..], "{") ==> CloseBrace(r[at + 2..], 1).Closed?
    case _ => false
  }

  predicate TheoremClosed(r: string, env: Environment) {
    (StartsWith(r, "[") ==> Find(r, "]").Some?) && Find(r[TitleOf(r).1..], EnvEnd(env)).Some?
  }

  /** Text the scanner works through on its own: every step is complete, up to the end. */
  predicate Settled(s: string, escaped: bool)
    decreases |s|
  {
    s == "" ||
    (Complete(s, escaped) &&
     (StepBounds(s, escaped);
      match StepAt(s, escaped)
      case Skip(n) => Settled(s[n..], s[n - 1] == '\\')
      case Emit(_, n) => Settled(s[n..], s[n - 1] == '\\')
      case _ => false))
  }

  lemma {:induction false} CloseBraceInPrefix(a: string, rest: string, depth: nat)
    requires depth > 0 && CloseBrace(a, depth).Closed?
    ensures CloseBrace(a + rest, depth) == CloseBrace(a, depth)
    decreases |a|
  {
    var s := a + rest;
    assert s[0] == a[0];
    assert s[1..] == a[1..] + rest;
    if a[0] == '\\' {
      assert s[2..] == a[2..] + rest;
      CloseBraceInPrefix(a[2..], rest, depth);
    } else if a[0] == '{' {
      CloseBraceInPrefix(a[1..], rest, depth + 1);
    } else if a[0] != '}' {
      CloseBraceInPrefix(a[1..], rest, depth);
    } else if depth > 1 {
      CloseBraceInPrefix(a[1..], rest, depth - 1);
    }
  }

  lemma UpToInPrefix(x: string, u: string, start: nat, close: string)
    requires start <= |x| && Find(x[start..], close).Some?
    ensures UpTo(x + u, start, close) == UpTo(x, start, close)
  {
    hide Find;
    assert (x + u)[start..] == x[start..] + u;
    FindInPrefix(x[start..], close, u);
    var end := Find(x[start..], close).value;
    assert (x + u)[start..start + end] == x[start..start + end];
  }

  lemma TheoremInPrefix(x: string, u: string, env: Environment)
    requires StartsWith(x, EnvBegin(env)) && StartsWith(x + u, EnvBegin(env))
    requires TheoremClosed(x[|EnvBegin(env)|..], env)
    ensures TheoremStep(x + u, env) == TheoremStep(x, env)
  {
    hide Find, EnvironmentName, UpTo;
    var n := |EnvBegin(env)|;
    var r := x[n..];
    assert (x + u)[n..] == r + u;
    TitleInPrefix(r, u) by { assert r != ""; }
    assert x[n + TitleOf(r).1..] == r[TitleOf(r).1..];
    UpToInPrefix(x, u, n + TitleOf(r).1, EnvEnd(env));
  }

  lemma TitleInPrefix(r: string, u: string)
    requires r != "" && (StartsWith(r, "[") ==> Find(r, "]").Some?)
    ensures TitleOf(r + u) == TitleOf(r)
  {
    hide Find;
    assert StartsWith(r + u, "[") <==> StartsWith(r, "[") by { assert (r + u)[..1] == r[..1]; }
    if StartsWith(r, "[") {
      FindInPrefix(r, "]", u);
      var end := Find(r, "]").value;
      assert end > 0 by { TitleEndsLater(r); }
      assert (r + u)[1..end] == r[1..end];
    }
  }

  lemma ContractInPrefix(x: string, u: string)
    requires u == "" || u[0] == '\\'
    requires StartsWith(x, CONTRACT) && StartsWith(x + u, CONTRACT) && ContractClosed(x[|CONTRACT|..])
    ensures ContractStep(x + u) == ContractStep(x)
  {
    hide CloseBrace;
    var n := |CONTRACT|;
    assert (x + u)[n..] == x[n..] + u;
    CloseBraceInPrefix(x[n..], u, 1);
    var at := CloseBrace(x[n..], 1).at;
    assert (x + u)[n..n + at] == x[n..n + at];
    var r := x[n + at + 1..];
    assert (x + u)[n + at + 1..] == r + u;
    assert x[n..][at + 1..] == r;
    assert StartsWith(r + u, "{") <==> StartsWith(r, "{") by {
      if r != "" { assert (r + u)[..1] == r[..1]; } else { assert r + u == u; }
    }
    if StartsWith(r, "{") {
      assert x[n..][at + 2..] == r[1..];
      assert (r + u)[1..] == r[1..] + u;
      CloseBraceInPrefix(r[1..], u, 1);
    }
  }

  lemma CiteInPrefix(x: string, u: string)
    requires StartsWith(x, CITE) && StartsWith(x + u, CITE) && CloseBrace(x[|CITE|..], 1).Closed?
    ensures CiteStep(x + u) == CiteStep(x)
  {
    hide CloseBrace;
    var n := |CITE|;
    assert (x + u)[n..] == x[n..] + u;
    CloseBraceInPrefix(x[n..], u, 1);
    var at := CloseBrace(x[n..], 1).at;
    assert (x + u)[n..n + at] == x[n..n + at];
  }

  /** A complete step is the same whatever backslash-led text comes after. */
  lemma StepInPrefix(x: string, u: string, escaped: bool)
    requires x != "" && (u == "" || u[0] == '\\') && Complete(x, escaped)
    ensures StepAt(x + u, escaped) == StepAt(x, escaped)
  {
    hide OpeningOf, StepAt, Find, OpeningText;
    OpeningWithin(x, u, escaped);
    match OpeningOf(x, escaped) {
      case Comment => SearchInPrefix(x, u, escaped);
      case Dollars => SearchInPrefix(x, u, escaped);
      case MathOpen(_) => SpanInPrefix(x, u, escaped);
      case ProofOpen => SpanInPrefix(x, u, escaped);
      case _ => CommandInPrefix(x, u, escaped);
    }
  }

  lemma SearchInPrefix(x: string, u: string, escaped: bool)
    requires x != "" && Complete(x, escaped)
    requires OpeningOf(x + u, escaped) == OpeningOf(x, escaped) && OpeningOf(x, escaped) in {Comment, Dollars}
    ensures StepAt(x + u, escaped) == StepAt(x, escaped)
  {
    hide OpeningOf, Find, TheoremStep, ContractStep, CiteStep, UpTo, EnvBegin, Opener, StartsWith;
    if OpeningOf(x, escaped) == Comment {
      FindInPrefix(x, "\n", u);
    } else {
      StartsLength(x, "$$");
      assert (x + u)[2..] == x[2..] + u;
      FindInPrefix(x[2..], "$$", u);
    }
  }

  lemma SpanInPrefix(x: string, u: string, escaped: bool)
    requires x != "" && Complete(x, escaped)
    requires OpeningOf(x + u, escaped) == OpeningOf(x, escaped)
    requires OpeningOf(x, escaped).MathOpen? || OpeningOf(x, escaped) == ProofOpen
    ensures StepAt(x + u, escaped) == StepAt(x, escaped)
  {
    hide OpeningOf, Find, TheoremStep, ContractStep, CiteStep, UpTo, EnvBegin, Opener, Closer, StartsWith;
    var o := OpeningOf(x, escaped);
    StartsLength(x, OpeningText(o));
    UpToInPrefix(x, u, |OpeningText(o)|, if o == ProofOpen then PROOF_END else Closer(o.kind));
  }

  lemma CommandInPrefix(x: string, u: string, escaped: bool)
    requires x != "" && Complete(x, escaped) && (u == "" || u[0] == '\\')
    requires OpeningOf(x + u, escaped) == OpeningOf(x, escaped)
    requires var o := OpeningOf(x, escaped); o in {ContractOpen, CiteOpen, Plain} || o.TheoremOpen?
    ensures StepAt(x + u, escaped) == StepAt(x, escaped)
  {
    hide OpeningOf, Find, TheoremStep, ContractStep, CiteStep, UpTo, EnvBegin, Opener, Closer, StartsWith;
    match OpeningOf(x, escaped) {
      case ContractOpen => ContractInPrefix(x, u);
      case CiteOpen => CiteInPrefix(x, u);
      case TheoremOpen(env) => TheoremInPrefix(x, u, env);
      case Plain =>
    }
  }

  lemma StartsLength(s: string, o: string)
    requires StartsWith(s, o)
    ensures |o| <= |s|
  {
  }

  // ---- main results ----

  /** A backslash is read the same after any character. */
  lemma BackslashUnescaped(u: string, e1: bool, e2: bool)
    requires u == "" || u[0] == '\\'
    ensures Tokens(u, e1) == Tokens(u, e2)
  {
    hide StartsWith, StepAt;
    if u != "" {
      assert StepAt(u, e1) == StepAt(u, e2) by { SameStep(u, e1, e2); }
    }
  }

  lemma SameStep(u: string, e1: bool, e2: bool)
    requires u != "" && u[0] == '\\'
    ensures StepAt(u, e1) == StepAt(u, e2)
  {
    hide StartsWith, TheoremStep, ContractStep, CiteStep, UpTo, Find;
    NotStarted(u, "%", 0);
    assert OpeningOf(u, e1) == OpeningOf(u, e2);
  }

  /** Settled text contributes its own tokens, and the text after it is scanned as if it stood alone. */
  lemma {:induction false} SettledPrefix(pre: string, u: string, escaped: bool)
    requires Settled(pre, escaped) && (u == "" || u[0] == '\\')
    ensures Tokens(pre, escaped).Ok?
    ensures Tokens(pre + u, escaped) == After(Tokens(pre, escaped).value, Tokens(u, false))
    decreases |pre|
  {
    hide StepAt, Complete;
    if pre == "" {
      assert pre + u == u;
      BackslashUnescaped(u, escaped, false);
      AfterNothing(Tokens(u, false));
    } else {
      StepBounds(pre, escaped);
      StepInPrefix(pre, u, escaped);
      var n := StepAt(pre, escaped).length;
      assert (pre + u)[n..] == pre[n..] + u;
      assert (pre + u)[n - 1] == pre[n - 1];
      SettledPrefix(pre[n..], u, pre[n - 1] == '\\');
      if StepAt(pre, escaped).Emit? {
        AfterAfter([StepAt(pre, escaped).token], Tokens(pre[n..], pre[n - 1] == '\\').value, Tokens(u, false));
      }
    }
  }

  /** From any position at a proof, its body up to the first closer gives one token without content. */
  lemma ProofDiscarded(body: string, post: string, escaped: bool)
    requires Find(body, PROOF_END) == None
    ensures Tokens(Proof(body) + post, escaped) == After([ProofEnv], Tokens(post, false))
  {
    hide StepAt;
    var s := Proof(body) + post;
    ProofStep(body, post, escaped);
    var n := |Proof(body)|;
    assert s[n..] == post;
    assert s[n - 1] == PROOF_END[10];
  }

  lemma ProofStep(body: string, post: string, escaped: bool)
    requires Find(body, PROOF_END) == None
    ensures StepAt(Proof(body) + post, escaped) == Emit(ProofEnv, |Proof(body)|)
  {
    hide OpeningOf, Find, TheoremStep, ContractStep, CiteStep, StartsWith, EnvBegin, Opener, Closer, UpTo;
    var s := Proof(body) + post;
    var r := body + PROOF_END + post;
    assert s == PROOF_BEGIN + r;
    ProofOpens(r, escaped);
    assert s[|PROOF_BEGIN|..] == r;
    ProofEndSingleHead();
    UpToAtSeam(s, |PROOF_BEGIN|, body, PROOF_END, post);
  }

  lemma UpToAtSeam(s: string, start: nat, inner: string, close: string, post: string)
    requires start <= |s| && s[start..] == inner + close + post
    requires SingleHead(close) && Find(inner, close) == None
    ensures UpTo(s, start, close) == Some(Span(inner, start + |inner| + |close|))
  {
    hide Find, SingleHead, UpTo;
    FindAtSeam(inner, close, post);
    UpToFound(s, start, close, |inner|);
    SliceAt(s, start, inner, close + post) by { Associative(inner, close, post); }
  }

  lemma UpToFound(s: string, start: nat, close: string, end: nat)
    requires start <= |s| && Find(s[start..], close) == Some(end)
    ensures start + end <= |s|
    ensures UpTo(s, start, close) == Some(Span(s[start..start + end], start + end + |close|))
  {
    hide Find;
  }

  lemma SliceAt(s: string, start: nat, a: string, b: string)
    requires start <= |s| && s[start..] == a + b
    ensures start + |a| <= |s| && s[start..start + |a|] == a
  {
    assert |s[start..]| == |a| + |b|;
    assert (a + b)[..|a|] == a;
  }

  lemma ProofEndSingleHead()
    ensures SingleHead(PROOF_END)
  {
    assert |PROOF_END| == 11;
  }

  /** Proof bodies do not leak: behind settled text, two sources that differ in a proof body give the same block. */
  lemma ProofBodiesDoNotLeak(pre: string, body1: string, body2: string, post: string)
    requires Settled(pre, false) && Find(body1, PROOF_END) == None && Find(body2, PROOF_END) == None
    ensures Tokens(pre + (Proof(body1) + post), false) == Tokens(pre + (Proof(body2) + post), false)
  {
    hide Tokens, Settled, Find;
    ProofDiscarded(body1, post, false);
    ProofDiscarded(body2, post, false);
    SettledPrefix(pre, Proof(body1) + post, false);
    SettledPrefix(pre, Proof(body2) + post, false);
  }

  /**
   * A leak: an unclosed `$$` is passed over only while no `$$` comes later, so a proof body that
   * holds one is scanned, from there on, as if it stood in the open.
   */
  lemma UnclosedDollarsLeak(t: string, post: string)
    ensures Tokens("$$" + Proof("$$" + t) + post, false) == Tokens(t + PROOF_END + post, false)
    ensures !Settled("$$", false)
  {
    hide StepAt, OpeningOf;
    var tail := t + PROOF_END + post;
    var s := "$$" + Proof("$$" + t) + post;
    assert s == "$$" + (PROOF_BEGIN + ("$$" + tail));
    UnclosedDollarsStep(tail);
    assert s[17..] == tail && s[16] == '$';
    DollarsOpen("");
    assert "$$" + "" == "$$";
  }

  lemma UnclosedDollarsStep(tail: string)
    ensures StepAt("$$" + (PROOF_BEGIN + ("$$" + tail)), false) == Skip(17)
  {
    hide OpeningOf, StartsWith;
    var r := PROOF_BEGIN + ("$$" + tail);
    DollarsOpen(r);
    assert ("$$" + r)[2..] == r;
    FindPastOthers(PROOF_BEGIN, "$$", "$$" + tail);
    Started("$$", tail);
    assert Find("$$" + tail, "$$") == Some(0);
    assert |PROOF_BEGIN| == 13;
  }

  lemma DollarsOpen(rest: string)
    ensures OpeningOf("$$" + rest, false) == Dollars
  {
    hide StartsWith, EnvBegin;
    var s := "$$" + rest;
    assert s[0] == '$';
    NotStarted(s, "%", 0);
    NotStarted(s, Opener(Display), 0);
    NotStarted(s, Opener(EquationEnv), 0);
    NotStarted(s, Opener(Align), 0);
    NotStarted(s, Opener(Gather), 0);
    NotStarted(s, Opener(Paren), 0);
    NotStarted(s, PROOF_BEGIN, 0);
    NotStarted(s, CONTRACT, 0);
    NotStarted(s, CITE, 0);
    Started("$$", rest);
  }

  // ---- overruns ----

  lemma {:induction false} BraceOverrun(s: string, depth: nat)
    requires depth > 0 && CloseBrace(s, depth) == PastEnd
    ensures s != "" && s[|s| - 1] == '\\'
    decreases |s|
  {
    if s[0] == '\\' {
      if |s| > 1 { BraceOverrun(s[2..], depth); }
    } else {
      BraceOverrun(s[1..], if s[0] == '{' then depth + 1 else if s[0] == '}' then depth - 1 else depth);
    }
  }

  /** The position leaves the source only when the source ends in a backslash. */
  lemma {:induction false} OverrunNeedsBackslash(s: string, escaped: bool)
    requires Tokens(s, escaped).Err?
    ensures s != "" && s[|s| - 1] == '\\'
    decreases |s|
  {
    hide StepAt;
    StepBounds(s, escaped);
    match StepAt(s, escaped) {
      case Skip(n) => OverrunNeedsBackslash(s[n..], s[n - 1] == '\\');
      case Emit(_, n) => OverrunNeedsBackslash(s[n..], s[n - 1] == '\\');
      case Overrun => StepOverrun(s, escaped);
    }
  }

  lemma StepOverrun(s: string, escaped: bool)
    requires s != "" && StepAt(s, escaped) == Overrun
    ensures s[|s| - 1] == '\\'
  {
    hide CloseBrace, OpeningOf, TheoremStep, UpTo, Find;
    if OpeningOf(s, escaped) == ContractOpen {
      var r := s[|CONTRACT|..];
      if CloseBrace(r, 1) == PastEnd {
        BraceOverrun(r, 1);
      } else {
        BraceOverrun(s[|CONTRACT| + CloseBrace(r, 1).at + 1..][1..], 1);
      }
    } else if OpeningOf(s, escaped) == CiteOpen {
      BraceOverrun(s[|CITE|..], 1);
    } else {
      TheoremNeverOverruns(s, escaped);
    }
  }

  lemma TheoremNeverOverruns(s: string, escaped: bool)
    requires s != "" && OpeningOf(s, escaped) !in {ContractOpen, CiteOpen}
    ensures StepAt(s, escaped) != Overrun
  {
    hide OpeningOf, UpTo, Find, TitleOf;
  }
}
