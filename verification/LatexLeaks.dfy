/** Exactly which text in front of a proof lets its body leak. */
module LatexLeaks {
  import opened Outcomes
  import opened Text
  import opened Search
  import opened LatexScanner
  import opened LatexObligations
  import opened LatexBlocks
  import opened LatexProofs
  import opened LatexStatements

  predicate NoCloser(body: string) {
    Find(body, PROOF_END) == None
  }

  // ---- where the text in front stops being self-contained ----

  lemma CompleteMoves(s: string, escaped: bool)
    requires s != "" && Complete(s, escaped)
    ensures var step := StepAt(s, escaped); (step.Skip? || step.Emit?) && 0 < step.length <= |s|
  {
    hide OpeningOf, Find, CloseBrace, TitleOf, EnvironmentName;
    StepBounds(s, escaped);
    if OpeningOf(s, escaped).TheoremOpen? {
      TheoremMoves(s, OpeningOf(s, escaped).env);
    }
  }

  lemma TheoremMoves(s: string, env: Environment)
    requires StartsWith(s, EnvBegin(env))
    ensures TheoremStep(s, env).Skip? || TheoremStep(s, env).Emit?
  {
    hide UpTo, Find, TitleOf, EnvironmentName;
  }

  /** The text from the first step that looks for something behind the source's end, and its escape flag. */
  function Stuck(s: string, escaped: bool): (string, bool)
    decreases |s|
  {
    if s == "" || !Complete(s, escaped) then (s, escaped)
    else
      CompleteMoves(s, escaped);
      var n := StepAt(s, escaped).length;
      Stuck(s[n..], s[n - 1] == '\\')
  }

  /** The tokens before it. */
  function Front(s: string, escaped: bool): seq<Token>
    decreases |s|
  {
    if s == "" || !Complete(s, escaped) then []
    else
      CompleteMoves(s, escaped);
      var step := StepAt(s, escaped);
      (if step.Emit? then [step.token] else []) + Front(s[step.length..], s[step.length - 1] == '\\')
  }

  /** The complete steps give the same tokens whatever backslash-led text comes behind. */
  lemma {:induction false} StuckPrefix(s: string, u: string, escaped: bool)
    requires u == "" || u[0] == '\\'
    ensures var (y, e) := Stuck(s, escaped); Tokens(s + u, escaped) == After(Front(s, escaped), Tokens(y + u, e))
    decreases |s|
  {
    hide StepAt, Complete, Tokens;
    var (y, e) := Stuck(s, escaped);
    var last := Tokens(y + u, e);
    if s == "" || !Complete(s, escaped) {
      AfterNothing(last);
    } else {
      CompleteMoves(s, escaped);
      StepInPrefix(s, u, escaped);
      var n := StepAt(s, escaped).length;
      var f := s[n - 1] == '\\';
      assert (s + u)[n..] == s[n..] + u && (s + u)[n - 1] == s[n - 1];
      StuckPrefix(s[n..], u, f);
      TokensStep(s + u, escaped);
      var token := if StepAt(s, escaped).Emit? then [StepAt(s, escaped).token] else [];
      AfterAfter(token, Front(s[n..], f), last);
      AfterNothing(After(Front(s[n..], f), last));
    }
  }

  lemma {:induction false} SettledIsUnstuck(s: string, escaped: bool)
    ensures Settled(s, escaped) <==> Stuck(s, escaped).0 == ""
    decreases |s|
  {
    hide StepAt, Complete;
    if s != "" && Complete(s, escaped) {
      CompleteMoves(s, escaped);
      var n := StepAt(s, escaped).length;
      SettledIsUnstuck(s[n..], s[n - 1] == '\\');
    }
  }

  lemma {:induction false} StuckIsIncomplete(s: string, escaped: bool)
    ensures var (y, e) := Stuck(s, escaped); y == "" || !Complete(y, e)
    decreases |s|
  {
    hide StepAt, Complete;
    if s != "" && Complete(s, escaped) {
      CompleteMoves(s, escaped);
      var n := StepAt(s, escaped).length;
      StuckIsIncomplete(s[n..], s[n - 1] == '\\');
    }
  }

  lemma AfterSame<T, E>(xs: seq<T>, a: Result<seq<T>, E>, b: Result<seq<T>, E>)
    ensures After(xs, a) == After(xs, b) <==> a == b
  {
    if After(xs, a) == After(xs, b) && a.Ok? {
      assert a.value == (xs + a.value)[|xs|..] && b.value == (xs + b.value)[|xs|..];
    }
  }

  // ---- searching behind a seam ----

  /** A needle with one backslash at most, its first character, does not straddle a seam before a backslash. */
  lemma {:induction false} FindPastSeam(w: string, needle: string, r: string)
    requires needle != "" && Find(w, needle) == None && r != "" && r[0] == '\\'
    requires forall i :: 0 < i < |needle| ==> needle[i] != '\\'
    ensures Find(w + r, needle) == Later(|w|, Find(r, needle))
  {
    hide Find;
    if w == "" {
      assert w + r == r;
    } else {
      var s := w + r;
      assert s[1..] == w[1..] + r;
      assert !StartsWith(w, needle) by {
        if StartsWith(w, needle) {
          NotFound(w, needle, 0);
        }
      }
      if |needle| <= |w| {
        assert s[..|needle|] == w[..|needle|];
      } else if |needle| <= |s| {
        assert s[..|needle|][|w|] == '\\';
      }
      FindStep(s, needle);
      FindStep(w, needle);
      FindPastSeam(w[1..], needle, r);
    }
  }

  lemma FindExists(a: string, needle: string, rest: string)
    ensures Find(a + (needle + rest), needle).Some?
  {
    hide Find;
    var s := a + (needle + rest);
    assert s[|a|..|a| + |needle|] == needle;
    if Find(s, needle) == None {
      NotFound(s, needle, |a|);
    }
  }

  lemma FindAbsent(s: string, needle: string)
    requires needle != "" && needle[0] !in s
    ensures Find(s, needle) == None
  {
    hide Find;
    FindPastOthers(s, needle, "");
    FindNothing(needle);
    assert s + "" == s;
  }

  lemma FindHere(needle: string, rest: string)
    ensures Find(needle + rest, needle) == Some(0)
  {
    Started(needle, rest);
  }

  /** A text with a backslash only in front holds a backslash-led needle only in front. */
  lemma FindOnlyInFront(t: string, needle: string)
    requires needle != "" && needle[0] == '\\' && t != "" && '\\' !in t[1..] && !StartsWith(t, needle)
    ensures Find(t, needle) == None
  {
    hide Find, StartsWith;
    FindStep(t, needle);
    FindAbsent(t[1..], needle);
  }

  // ---- the texts the leaking bodies are made of ----

  /** Every opener starts with one of three characters, and a backslash is followed by one of five. */
  lemma OpeningHeads(o: Opening)
    requires o != Plain
    ensures var t := OpeningText(o);
      t != "" && t[0] in {'%', '$', '\\'} &&
      (t[0] == '\\' ==> |t| > 1 && t[1] in {'b', 'x', 'c', '(', '['}) &&
      (t[0] == '$' ==> o in {MathOpen(Inline), Dollars})
  {
    hide EnvironmentName;
  }

  /** What the start of a text says about what is recognised there. */
  lemma RecognisedHead(s: string, escaped: bool)
    requires s != ""
    ensures var o := OpeningOf(s, escaped); o != Plain ==>
      s[0] in {'%', '$', '\\'} && (s[0] == '\\' ==> |s| > 1 && s[1] in {'b', 'x', 'c', '(', '['})
      && (s[0] == '$' ==> o in {MathOpen(Inline), Dollars})
  {
    hide OpeningOf, OpeningText;
    var o := OpeningOf(s, escaped);
    if o != Plain {
      OpeningHeads(o);
      var t := OpeningText(o);
      assert forall i :: 0 <= i < |t| ==> s[i] == s[..|t|][i] == t[i];
    }
  }

  lemma PlainStep(s: string, escaped: bool)
    requires s != "" && OpeningOf(s, escaped) == Plain
    ensures Tokens(s, escaped) == Tokens(s[1..], s[0] == '\\')
  {
    hide OpeningOf;
  }

  /** Text that no opener starts in is passed over. */
  lemma {:induction false} PlainTokens(s: string, escaped: bool)
    requires forall i :: 0 <= i < |s| ==> s[i] !in {'%', '$', '\\'}
    ensures Tokens(s, escaped) == Ok([])
  {
    hide OpeningOf, StepAt;
    if s != "" {
      RecognisedHead(s, escaped);
      PlainStep(s, escaped);
      PlainTokens(s[1..], s[0] == '\\');
    }
  }

  lemma EndTokens(escaped: bool)
    ensures Tokens(PROOF_END, escaped) == Ok([])
  {
    hide OpeningOf, Tokens;
    RecognisedHead(PROOF_END, escaped);
    PlainStep(PROOF_END, escaped);
    assert PROOF_END[1..] == "end{proof}";
    PlainTokens("end{proof}", true);
  }

  const FORMULA: string := "$x$"

  lemma FormulaOpens(s: string, escaped: bool)
    requires s == FORMULA + PROOF_END
    ensures OpeningOf(s, escaped) == MathOpen(Inline)
  {
    hide StartsWith, EnvBegin;
    assert s == "$" + ("x$" + PROOF_END);
    Started("$", "x$" + PROOF_END);
    NotStarted(s, "$$", 1);
    RecognisedHead(s, escaped);
  }

  lemma FormulaTokens(escaped: bool)
    ensures Tokens(FORMULA + PROOF_END, escaped) == Ok([Math(Inline, "x")])
  {
    hide OpeningOf, TheoremStep, ContractStep, CiteStep, Find, StartsWith, EnvBegin;
    var s := FORMULA + PROOF_END;
    FormulaOpens(s, escaped);
    assert s[1..] == "x" + ("$" + PROOF_END);
    FindPastOthers("x", "$", "$" + PROOF_END);
    FindHere("$", PROOF_END);
    assert s[1..2] == "x" && s[3..] == PROOF_END;
    TokensStep(s, escaped);
    EndTokens(false);
    assert [Math(Inline, "x")] + [] == [Math(Inline, "x")];
  }

  // ---- a leaking body for every other unfinished step ----

  /** Tokens that make a block, and tokens that make another one or none. */
  predicate Revealing(a: Scanned, b: Scanned) {
    a.Ok? && Obligations(a.value).Ok? &&
    (b.Err? || |Formulas(a.value)| != |Formulas(b.value)| || Obligations(a.value) != Obligations(b.value)
      || Citations(a.value) != Citations(b.value) || References(a.value) != References(b.value))
  }

  /** Two bodies that give different tokens behind `y`, and a different block. */
  ghost predicate Leaking(y: string, escaped: bool, b1: string, b2: string) {
    NoCloser(b1) && NoCloser(b2) && Revealing(Tokens(y + Proof(b1), escaped), Tokens(y + Proof(b2), escaped))
  }

  /** A token that adds an equation, a citation or a reference. */
  predicate Adding(t: Token) {
    t.Math? || t.XpileContract? || t.Cite?
  }

  /** Behind the same tokens, something more is another block. */
  lemma MoreReveals(before: seq<Token>, t: Token, rest: Scanned)
    requires Adding(t) && Obligations(before).Ok?
    ensures Revealing(Ok(before), After(before, After([t], rest)))
  {
    hide Obligations;
    if rest.Ok? {
      var more := [t] + rest.value;
      FormulasAppend(before, more);
      OthersAppend(before, more);
      FormulasAppend([t], rest.value);
      OthersAppend([t], rest.value);
      OneProjected(t);
    }
  }

  lemma OneProjected(t: Token)
    requires Adding(t)
    ensures |Formulas([t])| + |Citations([t])| + |References([t])| == 1
  {
    assert [t][..0] == [];
  }

  lemma {:induction false} FormulasAppend(a: seq<Token>, b: seq<Token>)
    ensures Formulas(a + b) == Formulas(a) + Formulas(b)
    decreases |b|
  {
    if b == [] {
      assert a + b == a;
    } else {
      var n := |b| - 1;
      assert (a + b)[..|a + b| - 1] == a + b[..n] && (a + b)[|a + b| - 1] == b[n];
      FormulasAppend(a, b[..n]);
    }
  }

  lemma {:induction false} OthersAppend(a: seq<Token>, b: seq<Token>)
    ensures Citations(a + b) == Citations(a) + Citations(b) && References(a + b) == References(a) + References(b)
    decreases |b|
  {
    if b == [] {
      assert a + b == a;
    } else {
      var n := |b| - 1;
      assert (a + b)[..|a + b| - 1] == a + b[..n] && (a + b)[|a + b| - 1] == b[n];
      OthersAppend(a, b[..n]);
    }
  }

  lemma NothingReveals(t: Token, rest: Scanned)
    requires Adding(t)
    ensures Revealing(Ok([]), After([t], rest)) && Revealing(Ok([]), Ok([t]))
  {
    hide Revealing;
    assert Obligations([]) == Ok([]);
    MoreReveals([], t, rest);
    AfterNothing(After([t], rest));
    var nothing: Scanned := Ok([]);
    MoreReveals([], t, nothing);
    AfterNothing(After([t], nothing));
    OneToken(t);
  }

  /** The opener at `y`, the text behind it, and a proof behind that. */
  lemma Behind(y: string, b: string, escaped: bool)
    requires y != ""
    ensures var n := |OpeningText(OpeningOf(y, escaped))|;
      && n <= |y| && OpeningOf(y + Proof(b), escaped) == OpeningOf(y, escaped)
      && (y + Proof(b))[n..] == y[n..] + Proof(b)
  {
    hide OpeningOf, OpeningText, StartsWith;
    OpeningWithin(y, Proof(b), escaped);
    StartsLength(y, OpeningText(OpeningOf(y, escaped)));
  }

  lemma ProofText(b: string)
    ensures Proof(b) == PROOF_BEGIN + (b + PROOF_END) && Proof(b)[0] == '\\'
  {
  }

  lemma StepReveals(s: string, escaped: bool)
    requires s != ""
    requires StepAt(s, escaped) == Overrun || (StepAt(s, escaped).Emit? && Adding(StepAt(s, escaped).token))
    ensures Revealing(Ok([]), Tokens(s, escaped))
  {
    hide StepAt, Tokens, Revealing;
    TokensStep(s, escaped);
    match StepAt(s, escaped) {
      case Emit(t, n) => NothingReveals(t, Tokens(s[n..], s[n - 1] == '\\'));
      case Overrun => FailureReveals();
    }
  }

  lemma FailureReveals()
    ensures Revealing(Ok([]), Err(OutOfBounds))
  {
  }

  // a comment

  lemma CommentLeaks(y: string, escaped: bool)
    requires y != "" && !Complete(y, escaped) && OpeningOf(y, escaped) == Comment
    ensures Leaking(y, escaped, "", "\n" + FORMULA)
  {
    hide OpeningOf, Find, Tokens, StepAt, Revealing;
    NothingReveals(Math(Inline, "x"), Ok([]));
    CommentSwallows(y, escaped);
    CommentEnds(y, escaped);
    FindAbsent("", PROOF_END);
    FindAbsent("\n" + FORMULA, PROOF_END);
  }

  lemma CommentSwallows(y: string, escaped: bool)
    requires y != "" && OpeningOf(y, escaped) == Comment && Find(y, "\n") == None
    ensures Tokens(y + Proof(""), escaped) == Ok([])
  {
    hide OpeningOf, Find;
    var s := y + Proof("");
    Behind(y, "", escaped);
    FindPastSeam(y, "\n", Proof(""));
    FindAbsent(Proof(""), "\n");
    TokensStep(s, escaped);
    NothingLeft(s[|s| - 1] == '\\');
    assert s[|s|..] == "";
  }

  lemma CommentStep(s: string, escaped: bool)
    requires s != "" && OpeningOf(s, escaped) == Comment && Find(s, "\n").Some?
    ensures StepAt(s, escaped) == Skip(Find(s, "\n").value + 1)
  {
    hide OpeningOf, Find;
  }

  lemma CommentEnds(y: string, escaped: bool)
    requires y != "" && OpeningOf(y, escaped) == Comment && Find(y, "\n") == None
    ensures Tokens(y + Proof("\n" + FORMULA), escaped) == Ok([Math(Inline, "x")])
  {
    hide OpeningOf, Find, StepAt, Tokens, FORMULA;
    var rest := FORMULA + PROOF_END;
    var p := Proof("\n" + FORMULA);
    var s := y + p;
    assert p == PROOF_BEGIN + ("\n" + rest);
    Behind(y, "\n" + FORMULA, escaped);
    FindPastSeam(y, "\n", p);
    FindPastOthers(PROOF_BEGIN, "\n", "\n" + rest);
    FindHere("\n", rest);
    CommentStep(s, escaped);
    TokensStep(s, escaped);
    var n := |y| + |PROOF_BEGIN| + 1;
    assert s[n..] == rest && s[n - 1] == '\n';
    FormulaTokens(false);
  }

  // a formula

  lemma ClosersPlain(kind: MathKind)
    ensures Closer(kind) != "" && forall i :: 0 < i < |Closer(kind)| ==> Closer(kind)[i] != '\\'
    ensures NoCloser(Closer(kind)) && Find(Proof(""), Closer(kind)) == None
  {
    hide Find, StartsWith;
    var c := Closer(kind);
    if kind == Inline {
      FindAbsent(Proof(""), c);
      FindAbsent(c, PROOF_END);
    } else {
      ClosersDiffer(kind);
      FindOnlyInFront(c, PROOF_END);
      FindInEmptyProof(c);
    }
  }

  lemma ClosersDiffer(kind: MathKind)
    requires kind != Inline
    ensures var c := Closer(kind);
      c[0] == '\\' && |c| > 1 && c[1] != 'b' && '\\' !in c[1..] && !StartsWith(PROOF_END, c)
        && !StartsWith(c, PROOF_END)
  {
    match kind {
      case Paren => NotStarted(PROOF_END, "\\)", 1);
      case Display => NotStarted(PROOF_END, "\\]", 1);
      case EquationEnv => NotStarted(PROOF_END, "\\end{equation}", 5); NotStarted("\\end{equation}", PROOF_END, 5);
      case Align => NotStarted(PROOF_END, "\\end{align}", 5); NotStarted("\\end{align}", PROOF_END, 5);
      case Gather => NotStarted(PROOF_END, "\\end{gather}", 5); NotStarted("\\end{gather}", PROOF_END, 5);
    }
  }

  lemma FindInEmptyProof(c: string)
    requires |c| > 1 && c[0] == '\\' && c[1] != 'b' && !StartsWith(PROOF_END, c)
    ensures Find(Proof(""), c) == None
  {
    hide Find, StartsWith;
    var p := Proof("");
    NotStarted(p, c, 1);
    FindStep(p, c);
    assert p[1..] == "begin{proof}" + PROOF_END;
    FindPastOthers("begin{proof}", c, PROOF_END);
    FindOnlyInFront(PROOF_END, c);
  }

  lemma FormulaLeaks(y: string, escaped: bool)
    requires y != "" && !Complete(y, escaped) && OpeningOf(y, escaped).MathOpen?
    ensures Leaking(y, escaped, "", Closer(OpeningOf(y, escaped).kind))
  {
    hide OpeningOf, Find, Closer, Opener, StartsWith, Revealing;
    var kind := OpeningOf(y, escaped).kind;
    Behind(y, "", escaped);
    var w, c := y[|Opener(kind)|..], Closer(kind);
    ClosersPlain(kind);
    FindAbsent("", PROOF_END);
    Behind(y, c, escaped);
    FindPastSeam(w, c, Proof(""));
    FindPastSeam(w, c, Proof(c));
    ProofText(c);
    FindExists(PROOF_BEGIN, c, PROOF_END);
    TokensStep(y + Proof(""), escaped);
    StepReveals(y + Proof(c), escaped);
  }

  // an argument

  /** How deep the braces stand open where the text ends. */
  function OpenDepth(w: string, depth: nat): (d: nat)
    requires depth > 0 && !CloseBrace(w, depth).Closed?
    ensures d > 0
    decreases |w|
  {
    if w == "" then depth
    else if w[0] == '\\' then if |w| == 1 then depth else OpenDepth(w[2..], depth)
    else OpenDepth(w[1..], if w[0] == '{' then depth + 1 else if w[0] == '}' then depth - 1 else depth)
  }

  lemma {:induction false} BracesPastPlain(a: string, v: string, depth: nat)
    requires depth > 0 && forall i :: 0 <= i < |a| ==> a[i] !in {'\\', '{', '}'}
    ensures CloseBrace(a + v, depth) == Shifted(|a|, CloseBrace(v, depth))
    decreases |a|
  {
    if a == "" {
      assert a + v == v;
    } else {
      assert (a + v)[1..] == a[1..] + v;
      BracesPastPlain(a[1..], v, depth);
    }
  }

  /** `WORD{proof}` leaves the depth as it was. */
  lemma BracesPastProof(word: string, v: string, depth: nat)
    requires depth > 0 && forall i :: 0 <= i < |word| ==> word[i] !in {'\\', '{', '}'}
    ensures CloseBrace(word + "{proof}" + v, depth) == Shifted(|word| + 7, CloseBrace(v, depth))
  {
    var t := "proof" + ("}" + v);
    assert word + "{proof}" + v == word + ("{" + t);
    BracesPastPlain(word, "{" + t, depth);
    assert ("{" + t)[1..] == t;
    BracesPastPlain("proof", "}" + v, depth + 1);
    assert ("}" + v)[1..] == v;
  }

  /** A proof opener, whole or with its backslash taken by the text in front. */
  lemma BracesPastOpener(v: string, depth: nat)
    requires depth > 0
    ensures CloseBrace(PROOF_BEGIN + v, depth) == Shifted(13, CloseBrace(v, depth))
    ensures CloseBrace((PROOF_BEGIN + v)[1..], depth) == Shifted(12, CloseBrace(v, depth))
  {
    var s := PROOF_BEGIN + v;
    assert s[1..] == "begin" + "{proof}" + v && s[2..] == "egin" + "{proof}" + v;
    BracesPastProof("begin", v, depth);
    BracesPastProof("egin", v, depth);
  }

  lemma BracesPastEnd(depth: nat)
    requires depth > 0
    ensures CloseBrace(PROOF_END, depth) == Unclosed
  {
    assert PROOF_END[2..] == "nd" + "{proof}" + "";
    BracesPastProof("nd", "", depth);
  }

  lemma {:induction false} BracesBehind(w: string, depth: nat, v: string)
    requires depth > 0 && !CloseBrace(w, depth).Closed?
    ensures CloseBrace(w + (PROOF_BEGIN + v), depth) == Shifted(|w| + 13, CloseBrace(v, OpenDepth(w, depth)))
    decreases |w|
  {
    hide PROOF_BEGIN;
    var u := PROOF_BEGIN + v;
    var s := w + u;
    if w == "" {
      assert s == u;
      BracesPastOpener(v, depth);
    } else {
      assert s[0] == w[0] && s[1..] == w[1..] + u;
      if w[0] != '\\' {
        BracesBehind(w[1..], if w[0] == '{' then depth + 1 else if w[0] == '}' then depth - 1 else depth, v);
      } else if |w| == 1 {
        BracesPastOpener(v, depth);
        OpenerLength();
        assert s[2..] == u[1..];
      } else {
        assert s[2..] == w[2..] + u;
        BracesBehind(w[2..], depth, v);
      }
    }
  }

  lemma OpenerLength()
    ensures |PROOF_BEGIN| == 13
  {
  }

  function Braced(depth: nat): (b: string)
    ensures |b| == depth
    ensures forall i :: 0 <= i < depth ==> b[i] == '}'
  {
    if depth == 0 then "" else "}" + Braced(depth - 1)
  }

  lemma {:induction false} BracedCloses(depth: nat, v: string)
    requires depth > 0
    ensures CloseBrace(Braced(depth) + v, depth) == Closed(depth - 1)
  {
    assert (Braced(depth) + v)[1..] == Braced(depth - 1) + v;
    if depth > 1 {
      BracedCloses(depth - 1, v);
    }
  }

  lemma EmptyBehind(w: string)
    requires !CloseBrace(w, 1).Closed?
    ensures CloseBrace(w + Proof(""), 1) == Unclosed
  {
    hide CloseBrace, OpenDepth, Proof, PROOF_BEGIN, PROOF_END;
    ProofParts("");
    assert "" + PROOF_END == PROOF_END;
    BracesBehind(w, 1, PROOF_END);
    BracesPastEnd(OpenDepth(w, 1));
  }

  lemma BracedBehind(w: string, more: string)
    requires !CloseBrace(w, 1).Closed?
    ensures var d := OpenDepth(w, 1); CloseBrace(w + Proof(Braced(d) + more), 1) == Closed(|w| + 12 + d)
  {
    hide CloseBrace, OpenDepth, Braced, Proof, PROOF_BEGIN, PROOF_END;
    var d := OpenDepth(w, 1);
    var rest := more + PROOF_END;
    ProofParts(Braced(d) + more);
    Associative(Braced(d), more, PROOF_END);
    BracesBehind(w, 1, Braced(d) + rest);
    BracedCloses(d, rest);
  }

  /** An empty body leaves the argument open; as many braces as stand open close it. */
  lemma ArgumentBehind(w: string, more: string)
    requires !CloseBrace(w, 1).Closed?
    ensures var d := OpenDepth(w, 1);
      && CloseBrace(w + Proof(""), 1) == Unclosed
      && CloseBrace(w + Proof(Braced(d) + more), 1) == Closed(|w| + 12 + d)
  {
    EmptyBehind(w);
    BracedBehind(w, more);
  }

  lemma ProofParts(b: string)
    ensures Proof(b) == PROOF_BEGIN + (b + PROOF_END)
  {
    hide PROOF_BEGIN, PROOF_END;
  }

  lemma BracedHasNoCloser(d: nat)
    ensures NoCloser(Braced(d)) && NoCloser(Braced(d) + FORMULA) && NoCloser("")
  {
    hide Braced;
    FindAbsent(Braced(d), PROOF_END);
    FindAbsent(Braced(d) + FORMULA, PROOF_END);
    FindAbsent("", PROOF_END);
  }

  lemma CiteLeaks(y: string, escaped: bool) returns (body: string)
    requires y != "" && !Complete(y, escaped) && OpeningOf(y, escaped) == CiteOpen
    ensures Leaking(y, escaped, "", body)
  {
    hide OpeningOf, CloseBrace, Tokens, StartsWith, OpenDepth, Braced, Revealing;
    Behind(y, "", escaped);
    var w := y[|CITE|..];
    var d := OpenDepth(w, 1);
    body := Braced(d);
    assert Braced(d) + "" == Braced(d);
    Behind(y, body, escaped);
    ArgumentBehind(w, "");
    BracedHasNoCloser(d);
    TokensStep(y + Proof(""), escaped);
    StepReveals(y + Proof(body), escaped);
    NothingLeftOf(y + Proof(""));
  }

  lemma NothingLeftOf(s: string)
    ensures s[|s|..] == "" && forall e :: Tokens(s[|s|..], e) == Ok([])
  {
  }

  lemma ContractLeaks(y: string, escaped: bool) returns (body: string)
    requires y != "" && !Complete(y, escaped) && OpeningOf(y, escaped) == ContractOpen
    ensures Leaking(y, escaped, "", body)
  {
    hide OpeningOf, CloseBrace, Tokens, StartsWith, OpenDepth, Braced, Revealing;
    Behind(y, "", escaped);
    var w := y[|CONTRACT|..];
    if !CloseBrace(w, 1).Closed? {
      var d := OpenDepth(w, 1);
      body := Braced(d);
      assert Braced(d) + "" == Braced(d);
      Behind(y, body, escaped);
      ArgumentBehind(w, "");
      BracedHasNoCloser(d);
      OpenContract(y, "", escaped);
      OpenContract(y, body, escaped);
      TokensStep(y + Proof(""), escaped);
      StepReveals(y + Proof(body), escaped);
      NothingLeftOf(y + Proof(""));
    } else {
      body := SecondArgumentLeaks(y, escaped);
    }
  }

  lemma OpenContract(y: string, body: string, escaped: bool)
    requires y != "" && OpeningOf(y, escaped) == ContractOpen
    ensures var s := y + Proof(body); OpeningOf(s, escaped) == ContractOpen && StepAt(s, escaped) == ContractStep(s)
    ensures |CONTRACT| <= |y| && (y + Proof(body))[|CONTRACT|..] == y[|CONTRACT|..] + Proof(body)
    ensures var s := y + Proof(body); match CloseBrace(s[|CONTRACT|..], 1)
      case Closed(_) =>
        (ContractStep(s).Emit? && ContractStep(s).token.XpileContract?) || ContractStep(s) == Overrun
      case Unclosed => ContractStep(s) == Skip(|s|)
      case PastEnd => ContractStep(s) == Overrun
  {
    hide OpeningOf, CloseBrace;
    Behind(y, body, escaped);
  }

  /** With its first argument closed, the citation ends where the second argument ends. */
  lemma SecondArgumentStep(y: string, body: string, escaped: bool)
    requires y != "" && !Complete(y, escaped) && OpeningOf(y, escaped) == ContractOpen
    requires |CONTRACT| <= |y| && CloseBrace(y[|CONTRACT|..], 1).Closed?
    ensures var at := CloseBrace(y[|CONTRACT|..], 1).at;
      var s, before := y + Proof(body), |CONTRACT| + at + 2;
      && before <= |y| && !CloseBrace(y[before..], 1).Closed?
      && StepAt(s, escaped) == match CloseBrace(y[before..] + Proof(body), 1)
         case Closed(k) => Emit(XpileContract(y[|CONTRACT|..|CONTRACT| + at]), before + k + 1)
         case Unclosed => Emit(XpileContract(y[|CONTRACT|..|CONTRACT| + at]), |s|)
         case PastEnd => Overrun
  {
    hide OpeningOf, CloseBrace, CONTRACT, PROOF_BEGIN, PROOF_END, Proof;
    OpenContract(y, body, escaped);
    var n := |CONTRACT|;
    var w, p := y[n..], Proof(body);
    var s := y + p;
    var at := CloseBrace(w, 1).at;
    CloseBraceInPrefix(w, p, 1);
    assert s[n..] == w + p;
    var r := w[at + 1..];
    StartsLength(r, "{");
    assert s[n + at + 1..] == r + p;
    assert (r + p)[..1] == r[..1];
    assert (r + p)[1..] == r[1..] + p;
    assert r[1..] == y[n + at + 2..] == w[at + 2..];
    assert s[n..n + at] == y[n..n + at];
  }

  lemma SecondArgumentLeaks(y: string, escaped: bool) returns (body: string)
    requires y != "" && !Complete(y, escaped) && OpeningOf(y, escaped) == ContractOpen
    requires |CONTRACT| <= |y| && CloseBrace(y[|CONTRACT|..], 1).Closed?
    ensures Leaking(y, escaped, "", body)
  {
    hide OpeningOf, CloseBrace, Tokens, StartsWith, OpenDepth, Braced, Complete, StepAt, CONTRACT, FORMULA, Revealing;
    var before := |CONTRACT| + CloseBrace(y[|CONTRACT|..], 1).at + 2;
    var id := XpileContract(y[|CONTRACT|..before - 2]);
    SecondArgumentStep(y, "", escaped);
    var w := y[before..];
    var d := OpenDepth(w, 1);
    body := Braced(d) + FORMULA;
    SecondArgumentStep(y, body, escaped);
    ArgumentBehind(w, FORMULA);
    BracedHasNoCloser(d);
    var s := y + Proof(body);
    TokensStep(y + Proof(""), escaped);
    NothingLeftOf(y + Proof(""));
    TokensStep(s, escaped);
    var n := before + |w| + 13 + d;
    BodyTail(y, Braced(d), FORMULA);
    FormulaTokens(s[n - 1] == '\\');
    OneToken(id);
    OneToken(Math(Inline, "x"));
    assert Obligations([id]).Ok? by { ContractStatesNothing(id); }
    MoreReveals([id], Math(Inline, "x"), Ok([]));
  }

  lemma ContractStatesNothing(t: Token)
    requires !t.TheoremEnv?
    ensures Obligations([t]).Ok?
  {
    assert [t][..0] == [] && Obligations([]) == Ok([]);
  }

  lemma BodyTail(y: string, b: string, more: string)
    ensures var s := y + Proof(b + more); |y| + 13 + |b| <= |s| && s[|y| + 13 + |b|..] == more + PROOF_END
  {
    OpenerLength();
    assert y + Proof(b + more) == (y + PROOF_BEGIN + b) + (more + PROOF_END);
  }

  // a pair of dollars

  lemma DollarsLeak(y: string, escaped: bool)
    requires y != "" && !Complete(y, escaped) && OpeningOf(y, escaped) == Dollars
    ensures Leaking(y, escaped, "$$", "$$" + FORMULA)
  {
    hide OpeningOf, Find, Tokens, StartsWith, StepAt, Complete, FORMULA, Revealing;
    NothingReveals(Math(Inline, "x"), Ok([]));
    assert "$$" + "" == "$$" && "" + PROOF_END == PROOF_END;
    DollarsEnd(y, "", escaped);
    DollarsEnd(y, FORMULA, escaped);
    EndTokens(false);
    FormulaTokens(false);
    DollarsHaveNoCloser();
  }

  lemma DollarsHaveNoCloser()
    ensures NoCloser("$$") && NoCloser("$$" + FORMULA)
  {
    hide Find;
    FindAbsent("$$", PROOF_END);
    FindAbsent("$$" + FORMULA, PROOF_END);
  }

  lemma DollarsEnd(y: string, more: string, escaped: bool)
    requires y != "" && !Complete(y, escaped) && OpeningOf(y, escaped) == Dollars
    ensures Tokens(y + Proof("$$" + more), escaped) == Tokens(more + PROOF_END, false)
  {
    hide OpeningOf, Find, Tokens, StartsWith, StepAt;
    var body := "$$" + more;
    var p := Proof(body);
    var s := y + p;
    Behind(y, body, escaped);
    var w := y[2..];
    assert p == PROOF_BEGIN + ("$$" + (more + PROOF_END));
    FindPastSeam(w, "$$", p);
    FindPastOthers(PROOF_BEGIN, "$$", "$$" + (more + PROOF_END));
    FindHere("$$", more + PROOF_END);
    OpenerLength();
    DollarsStep(s, escaped);
    TokensStep(s, escaped);
    BodyTail(y, "$$", more);
    var n := |y| + 15;
    assert s[n - 1] == '$';
  }

  lemma DollarsStep(s: string, escaped: bool)
    requires |s| >= 2 && OpeningOf(s, escaped) == Dollars && Find(s[2..], "$$").Some?
    ensures StepAt(s, escaped) == Skip(Find(s[2..], "$$").value + 4)
  {
    hide OpeningOf, Find;
  }

  // a theorem

  lemma EnvEndShape(env: Environment)
    ensures var c := EnvEnd(env); |c| > 1 && c[0] == '\\' && c[1] == 'e' && '\\' !in c[1..] && NoCloser(c)
    ensures SingleHead(EnvEnd(env))
  {
    hide Find;
    var c := EnvEnd(env);
    EnvironmentNamesPlain(env);
    assert forall i :: 5 <= i < |c| - 1 ==> c[i] == EnvironmentName(env)[i - 5];
    assert !StartsWith(c, PROOF_END) by {
      if env == Proposition {
        NotStarted(c, PROOF_END, 8);
      } else {
        NotStarted(c, PROOF_END, 5);
      }
    }
    FindOnlyInFront(c, PROOF_END);
  }

  /** Plain text in front of an environment end. */
  predicate IsFiller(x: string) {
    x in {"", "x", "]", "]x"}
  }

  lemma FilledHasNoCloser(x: string, env: Environment)
    requires IsFiller(x)
    ensures NoCloser(x + EnvEnd(env)) && Find(PROOF_BEGIN + x, EnvEnd(env)) == None
    ensures Find(x + (EnvEnd(env) + PROOF_END), EnvEnd(env)) == Some(|x|)
  {
    hide Find, EnvEnd;
    var c := EnvEnd(env);
    EnvEndShape(env);
    FindPastOthers(x, PROOF_END, c);
    NotStarted(PROOF_BEGIN + x, c, 1);
    FindOnlyInFront(PROOF_BEGIN + x, c);
    FindPastOthers(x, c, c + PROOF_END);
    FindHere(c, PROOF_END);
  }

  lemma TheoremCloses(s: string, env: Environment, escaped: bool, k: nat)
    requires s != "" && OpeningOf(s, escaped) == TheoremOpen(env)
    requires var start := |EnvBegin(env)| + TitleOf(s[|EnvBegin(env)|..]).1; Find(s[start..], EnvEnd(env)) == Some(k)
    ensures var title := TitleOf(s[|EnvBegin(env)|..]); var start := |EnvBegin(env)| + title.1;
      start + k <= |s|
      && StepAt(s, escaped) == Emit(TheoremEnv(title.0, s[start..start + k]), start + k + |EnvEnd(env)|)
  {
    hide OpeningOf, Find, EnvEnd, EnvBegin, TitleOf;
  }

  lemma TheoremEnds(s: string, env: Environment, escaped: bool, k: nat)
    requires s != "" && OpeningOf(s, escaped) == TheoremOpen(env) && |EnvBegin(env)| <= |s|
    requires var start := |EnvBegin(env)| + TitleOf(s[|EnvBegin(env)|..]).1;
      Find(s[start..], EnvEnd(env)) == Some(k) && s[start + k + |EnvEnd(env)|..] == PROOF_END
    ensures var title := TitleOf(s[|EnvBegin(env)|..]); var start := |EnvBegin(env)| + title.1;
      Tokens(s, escaped) == Ok([TheoremEnv(title.0, s[start..start + k])])
  {
    hide OpeningOf, Find, EnvEnd, EnvBegin, TitleOf, Tokens, StepAt, PROOF_END;
    TheoremCloses(s, env, escaped, k);
    TokensStep(s, escaped);
    var start := |EnvBegin(env)| + TitleOf(s[|EnvBegin(env)|..]).1;
    EndTokens(s[start + k + |EnvEnd(env)| - 1] == '\\');
    OneToken(TheoremEnv(TitleOf(s[|EnvBegin(env)|..]).0, s[start..start + k]));
  }

  lemma OneToken(t: Token)
    ensures After<Token, Crash>([t], Ok([])) == Ok([t])
  {
    assert [t] + [] == [t];
  }

  lemma ProofOfTwo(x: string, c: string)
    ensures Proof(x + c) == PROOF_BEGIN + x + c + PROOF_END && |PROOF_BEGIN + x| == 13 + |x|
  {
    OpenerLength();
    assert PROOF_BEGIN + (x + c) == PROOF_BEGIN + x + c;
  }

  lemma FilledProofEnds(x: string, env: Environment)
    requires IsFiller(x)
    ensures Find(Proof(x + EnvEnd(env)), EnvEnd(env)) == Some(13 + |x|)
  {
    hide Find, EnvEnd, PROOF_BEGIN, PROOF_END, IsFiller, Proof, SingleHead;
    var c := EnvEnd(env);
    EnvEndShape(env);
    FilledHasNoCloser(x, env);
    OpenerLength();
    ProofOfTwo(x, c);
    FindAtSeam(PROOF_BEGIN + x, c, PROOF_END);
  }

  /** Without an open title the statement runs from the text in front into the proof body. */
  lemma FilledBehind(r: string, start: nat, x: string, env: Environment)
    requires IsFiller(x) && start <= |r| && Find(r[start..], EnvEnd(env)) == None
    ensures Find((r + Proof(x + EnvEnd(env)))[start..], EnvEnd(env)) == Some(|r| - start + 13 + |x|)
  {
    hide Find, EnvEnd, PROOF_BEGIN, PROOF_END, Proof, IsFiller;
    var c := EnvEnd(env);
    var p := Proof(x + c);
    ProofText(x + c);
    assert (r + p)[start..] == r[start..] + p;
    EnvEndShape(env);
    FilledProofEnds(x, env);
    FindPastSeam(r[start..], c, p);
  }

  lemma TitleBehind(r: string, b: string)
    requires StartsWith(r, "[") ==> Find(r, "]").Some?
    ensures TitleOf(r + Proof(b)) == TitleOf(r)
  {
    hide Find, TitleOf;
    if r == "" {
      ProofText(b);
      assert r + Proof(b) == Proof(b);
      NoTitle("");
      NoTitle(Proof(b));
    } else {
      TitleInPrefix(r, Proof(b));
    }
  }

  lemma NoTitle(s: string)
    requires s == "" || s[0] != '['
    ensures TitleOf(s) == ("", 0)
  {
    hide Find;
  }

  lemma BracketInProof(rest: string, b: string)
    requires b + PROOF_END == "]" + rest
    ensures Find(Proof(b), "]") == Some(13)
  {
    hide Find;
    ProofParts(b);
    OpenerLength();
    NoBracketInOpener();
    FindPastOthers(PROOF_BEGIN, "]", "]" + rest);
    FindHere("]", rest);
  }

  /** An open title swallows the proof opener up to the first bracket of the body. */
  lemma OpenTitleFills(r: string, more: string, env: Environment)
    requires IsFiller("]" + more) && '\\' !in more && StartsWith(r, "[") && Find(r, "]") == None
    ensures var s := r + Proof("]" + more + EnvEnd(env));
      TitleOf(s).1 == |r| + 14 && Find(s[TitleOf(s).1..], EnvEnd(env)) == Some(|more|)
  {
    hide Find, EnvEnd, TitleOf, PROOF_BEGIN, PROOF_END, Proof, IsFiller;
    var c := EnvEnd(env);
    var b := "]" + more + c;
    var rest := more + (c + PROOF_END);
    assert b + PROOF_END == "]" + rest;
    var s := r + Proof(b);
    ProofText(b);
    FindPastSeam(r, "]", Proof(b));
    BracketInProof(rest, b);
    assert s[..1] == r[..1];
    TitleLength(s);
    BehindBracket(r, b, rest);
    EnvEndShape(env);
    FindPastOthers(more, c, c + PROOF_END);
    FindHere(c, PROOF_END);
  }

  lemma BehindBracket(r: string, b: string, rest: string)
    requires b + PROOF_END == "]" + rest
    ensures (r + Proof(b))[|r| + 14..] == rest
  {
    OpenerLength();
    ProofParts(b);
    assert r + Proof(b) == (r + PROOF_BEGIN + "]") + rest;
  }

  lemma NoBracketInOpener()
    ensures forall i :: 0 <= i < |PROOF_BEGIN| ==> PROOF_BEGIN[i] != ']'
  {
  }

  lemma TitleLength(s: string)
    requires StartsWith(s, "[") && Find(s, "]").Some?
    ensures TitleOf(s).1 == Find(s, "]").value + 1
  {
    hide Find;
  }

  lemma FilledTheorem(y: string, x: string, escaped: bool)
    requires y != "" && OpeningOf(y, escaped).TheoremOpen? && IsFiller(x)
    requires |EnvBegin(OpeningOf(y, escaped).env)| <= |y|
    requires var env := OpeningOf(y, escaped).env; var r := y[|EnvBegin(env)|..];
      (StartsWith(r, "[") ==> Find(r, "]").Some?) && Find(r[TitleOf(r).1..], EnvEnd(env)) == None
    ensures var env := OpeningOf(y, escaped).env; var r := y[|EnvBegin(env)|..];
      var tokens := Tokens(y + Proof(x + EnvEnd(env)), escaped);
      tokens.Ok? && |tokens.value| == 1 && tokens.value[0].TheoremEnv?
      && tokens.value[0].body == r[TitleOf(r).1..] + PROOF_BEGIN + x
  {
    hide OpeningOf, Find, EnvEnd, EnvBegin, TitleOf, Tokens, PROOF_END, PROOF_BEGIN, Proof, StartsWith, IsFiller;
    var env := OpeningOf(y, escaped).env;
    var b := x + EnvEnd(env);
    var r := y[|EnvBegin(env)|..];
    Behind(y, b, escaped);
    TitleBehind(r, b);
    FilledBehind(r, TitleOf(r).1, x, env);
    EndOfFilled(y + Proof(b), |EnvBegin(env)| + TitleOf(r).1, y, x, env, |r| - TitleOf(r).1 + 13 + |x|);
    TheoremEnds(y + Proof(b), env, escaped, |r| - TitleOf(r).1 + 13 + |x|);
    BodyOfFilled(y, |EnvBegin(env)| + TitleOf(r).1, x, EnvEnd(env));
    assert y[|EnvBegin(env)| + TitleOf(r).1..] == r[TitleOf(r).1..];
  }

  lemma BodyOfFilled(y: string, start: nat, x: string, c: string)
    requires start <= |y|
    ensures var k := |y| - start + 13 + |x|; var s := y + Proof(x + c);
      start + k <= |s| && s[start..start + k] == y[start..] + PROOF_BEGIN + x
  {
    OpenerLength();
    var s := y + Proof(x + c);
    var front := y + PROOF_BEGIN + x;
    assert s == front + (c + PROOF_END);
    assert s[..|front|] == front;
    assert front[start..] == y[start..] + PROOF_BEGIN + x;
  }

  lemma BodyOfTitled(y: string, more: string, c: string)
    ensures var s := y + Proof("]" + more + c); var start := |y| + 14;
      start + |more| <= |s| && s[start..start + |more|] == more
  {
    OpenerLength();
    var s := y + Proof("]" + more + c);
    var front := y + PROOF_BEGIN + "]";
    assert s == front + (more + (c + PROOF_END));
    assert s[|front|..] == more + (c + PROOF_END);
  }

  lemma EndOfFilled(s: string, start: nat, y: string, x: string, env: Environment, k: int)
    requires s == y + Proof(x + EnvEnd(env)) && k >= 0 && start + k == |y| + 13 + |x|
    ensures start + k + |EnvEnd(env)| <= |s| && s[start + k + |EnvEnd(env)|..] == PROOF_END
  {
    hide EnvEnd;
    OpenerLength();
    assert s == (y + PROOF_BEGIN + x + EnvEnd(env)) + PROOF_END;
  }

  lemma OpenTitleTheorem(y: string, more: string, escaped: bool)
    requires y != "" && OpeningOf(y, escaped).TheoremOpen? && IsFiller("]" + more) && '\\' !in more
    requires |EnvBegin(OpeningOf(y, escaped).env)| <= |y|
    requires var r := y[|EnvBegin(OpeningOf(y, escaped).env)|..]; StartsWith(r, "[") && Find(r, "]") == None
    ensures var env := OpeningOf(y, escaped).env;
      var tokens := Tokens(y + Proof("]" + more + EnvEnd(env)), escaped);
      tokens.Ok? && |tokens.value| == 1 && tokens.value[0].TheoremEnv? && tokens.value[0].body == more
  {
    hide OpeningOf, Find, EnvEnd, EnvBegin, TitleOf, Tokens, PROOF_END, PROOF_BEGIN, Proof, StartsWith, IsFiller;
    var env := OpeningOf(y, escaped).env;
    var b := "]" + more + EnvEnd(env);
    var r := y[|EnvBegin(env)|..];
    Behind(y, b, escaped);
    OpenTitleFills(r, more, env);
    EndOfFilled(y + Proof(b), |EnvBegin(env)| + |r| + 14, y, "]" + more, env, |more|);
    TheoremEnds(y + Proof(b), env, escaped, |more|);
    BodyOfTitled(y, more, EnvEnd(env));
  }

  lemma OpenerEnd(q: string, front: string)
    requires q == front + PROOF_BEGIN
    ensures q != "" && q[|q| - 1] == '}'
  {
  }

  /** Two theorem environments whose bodies differ in a last visible letter are two obligations. */
  lemma StatementsReveal(a: seq<Token>, b: seq<Token>, body: string)
    requires |a| == 1 && |b| == 1 && a[0].TheoremEnv? && b[0].TheoremEnv?
    requires a[0].body == body && b[0].body == body + "x"
    requires body == "" || body[|body| - 1] == '}'
    ensures Revealing(Ok(a), Ok(b))
  {
    hide Lowered;
    LetterTells(a[0].title, b[0].title, body);
    assert a[..0] == [] && b[..0] == [] && Obligations([]) == Ok([]);
    if Lowered(b[0].title, b[0].body).Ok? {
      assert Obligations(a) == Ok([] + [Lowered(a[0].title, body).value]);
      assert Obligations(b) == Ok([] + [Lowered(b[0].title, b[0].body).value]);
      assert ([] + [Lowered(a[0].title, body).value])[0] != ([] + [Lowered(b[0].title, b[0].body).value])[0];
    }
  }

  lemma TheoremLeaks(y: string, escaped: bool) returns (b1: string, b2: string)
    requires y != "" && !Complete(y, escaped) && OpeningOf(y, escaped).TheoremOpen?
    ensures Leaking(y, escaped, b1, b2)
  {
    hide OpeningOf, Find, EnvEnd, EnvBegin, TitleOf, Tokens, StartsWith, Proof, Revealing;
    Behind(y, "", escaped);
    var env := OpeningOf(y, escaped).env;
    var r := y[|EnvBegin(env)|..];
    if StartsWith(r, "[") && Find(r, "]") == None {
      b1, b2 := "]" + "" + EnvEnd(env), "]" + "x" + EnvEnd(env);
      assert "]" + "" == "]" && "]" + "x" == "]x";
      OpenTitleTheorem(y, "", escaped);
      OpenTitleTheorem(y, "x", escaped);
      FilledHasNoCloser("]", env);
      FilledHasNoCloser("]x", env);
      StatementsReveal(Tokens(y + Proof(b1), escaped).value, Tokens(y + Proof(b2), escaped).value, "");
    } else {
      b1, b2 := "" + EnvEnd(env), "x" + EnvEnd(env);
      FilledTheorem(y, "", escaped);
      FilledTheorem(y, "x", escaped);
      FilledHasNoCloser("", env);
      FilledHasNoCloser("x", env);
      var q := r[TitleOf(r).1..] + PROOF_BEGIN;
      assert q + "" == q;
      OpenerEnd(q, r[TitleOf(r).1..]);
      StatementsReveal(Tokens(y + Proof(b1), escaped).value, Tokens(y + Proof(b2), escaped).value, q);
    }
  }

  // ---- an unfinished proof environment ----

  /** An earlier proof environment that is still open takes the later one's closer, whatever the body. */
  lemma OpenProofKeeps(y: string, escaped: bool, body: string, post: string)
    requires y != "" && !Complete(y, escaped) && OpeningOf(y, escaped) == ProofOpen && NoCloser(body)
    ensures Tokens(y + (Proof(body) + post), escaped) == After([ProofEnv], Tokens(post, false))
  {
    hide OpeningOf, Find, Tokens, StartsWith;
    StartsLength(y, PROOF_BEGIN);
    OpenerLength();
    var w := y[|PROOF_BEGIN|..];
    var inner := w + (PROOF_BEGIN + body);
    InnerHasNoCloser(w, body);
    ProofDiscarded(inner, post, escaped);
    assert y[..|PROOF_BEGIN|] == PROOF_BEGIN by { Spelled(y, PROOF_BEGIN); }
    assert y == PROOF_BEGIN + w;
    assert y + (Proof(body) + post) == Proof(inner) + post;
  }

  lemma Spelled(s: string, o: string)
    requires StartsWith(s, o)
    ensures |o| <= |s| && s[..|o|] == o
  {
  }

  lemma InnerHasNoCloser(w: string, body: string)
    requires NoCloser(w) && NoCloser(body)
    ensures NoCloser(w + (PROOF_BEGIN + body))
  {
    hide Find, StartsWith;
    var s := PROOF_BEGIN + body;
    NotStarted(s, PROOF_END, 1);
    FindStep(s, PROOF_END);
    assert s[1..] == "begin{proof}" + body;
    FindPastOthers("begin{proof}", PROOF_END, body);
    FindPastSeam(w, PROOF_END, s);
  }

  // ---- main result ----

  /** No two closer-free proof bodies, and no text behind them, make a difference behind `pre`. */
  ghost predicate KeepsProofs(pre: string) {
    forall b1: string, b2: string, post: string | NoCloser(b1) && NoCloser(b2) ::
      Tokens(pre + (Proof(b1) + post), false) == Tokens(pre + (Proof(b2) + post), false)
  }

  /** The scan of `pre` ends in a proof environment that is not closed. */
  predicate InsideProof(pre: string) {
    var (y, e) := Stuck(pre, false);
    y != "" && OpeningOf(y, e) == ProofOpen
  }

  /** Proof bodies behind `pre` do not leak exactly when it is settled or ends inside a proof. */
  lemma ProofsKeptExactly(pre: string)
    ensures KeepsProofs(pre) <==> Settled(pre, false) || InsideProof(pre)
  {
    hide Tokens, Settled, Complete, OpeningOf, Stuck, NoCloser, Proof;
    SettledIsUnstuck(pre, false);
    StuckIsIncomplete(pre, false);
    if Settled(pre, false) {
      forall b1: string, b2: string, post: string | NoCloser(b1) && NoCloser(b2)
        ensures Tokens(pre + (Proof(b1) + post), false) == Tokens(pre + (Proof(b2) + post), false)
      {
        SameBehindSettled(pre, b1, b2, post);
      }
    } else if InsideProof(pre) {
      forall b1: string, b2: string, post: string | NoCloser(b1) && NoCloser(b2)
        ensures Tokens(pre + (Proof(b1) + post), false) == Tokens(pre + (Proof(b2) + post), false)
      {
        SameInsideProof(pre, b1, post);
        SameInsideProof(pre, b2, post);
      }
    } else {
      var (y, e) := Stuck(pre, false);
      var b1, b2 := SomethingLeaks(y, e);
      LeaksBehind(pre, b1, b2);
      assert NoCloser(b1) && NoCloser(b2);
    }
  }

  lemma SameBehindSettled(pre: string, b1: string, b2: string, post: string)
    requires Settled(pre, false) && NoCloser(b1) && NoCloser(b2)
    ensures Tokens(pre + (Proof(b1) + post), false) == Tokens(pre + (Proof(b2) + post), false)
  {
    hide Tokens, Settled, Find, Proof;
    ProofBodiesDoNotLeak(pre, b1, b2, post);
  }

  lemma SameInsideProof(pre: string, body: string, post: string)
    requires InsideProof(pre) && NoCloser(body)
    ensures Tokens(pre + (Proof(body) + post), false)
         == After(Front(pre, false), After([ProofEnv], Tokens(post, false)))
  {
    hide Tokens, Complete, OpeningOf, Stuck, NoCloser, Front;
    StuckIsIncomplete(pre, false);
    StuckPrefix(pre, Proof(body) + post, false);
    var (y, e) := Stuck(pre, false);
    OpenProofKeeps(y, e, body, post);
  }

  lemma SomethingLeaks(y: string, escaped: bool) returns (b1: string, b2: string)
    requires y != "" && !Complete(y, escaped) && OpeningOf(y, escaped) != ProofOpen
    ensures Leaking(y, escaped, b1, b2)
  {
    hide OpeningOf, Leaking, Find, CloseBrace, ContractClosed, TheoremClosed, FORMULA, StartsWith;
    match OpeningOf(y, escaped) {
      case Comment =>
        CommentLeaks(y, escaped);
        b1, b2 := "", "\n" + FORMULA;
      case MathOpen(kind) =>
        FormulaLeaks(y, escaped);
        b1, b2 := "", Closer(kind);
      case Dollars =>
        DollarsLeak(y, escaped);
        b1, b2 := "$$", "$$" + FORMULA;
      case CiteOpen =>
        b2 := CiteLeaks(y, escaped);
        b1 := "";
      case ContractOpen =>
        b2 := ContractLeaks(y, escaped);
        b1 := "";
      case TheoremOpen(_) =>
        b1, b2 := TheoremLeaks(y, escaped);
    }
  }

  lemma LeaksBehind(pre: string, b1: string, b2: string)
    requires var (y, e) := Stuck(pre, false); Leaking(y, e, b1, b2)
    ensures NoCloser(b1) && NoCloser(b2)
    ensures Tokens(pre + (Proof(b1) + ""), false) != Tokens(pre + (Proof(b2) + ""), false)
  {
    hide Tokens, Stuck, NoCloser, Front, Obligations, Formulas, Citations, References;
    var (y, e) := Stuck(pre, false);
    assert Proof(b1) + "" == Proof(b1) && Proof(b2) + "" == Proof(b2);
    StuckPrefix(pre, Proof(b1), false);
    StuckPrefix(pre, Proof(b2), false);
    AfterSame(Front(pre, false), Tokens(y + Proof(b1), e), Tokens(y + Proof(b2), e));
  }
}
