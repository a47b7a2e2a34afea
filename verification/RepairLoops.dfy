/** `RepairLoop::run` and `run_and_commit`: bounded first-match repair that hands back only what passed the probe. */
module RepairLoops {
  import opened Outcomes
  import opened Search
  import opened ArgCasts
  import opened ArgCastRuns

  datatype Symptom =
    | BuildError(stderr: string)
    | Divergence(index: nat, expected: string, actual: string)

  type Rule = (Symptom, string) -> Option<string>

  /** The answer to the n-th evaluation, counted from zero; the same text may get another answer later. */
  type Probe = (nat, string) -> Option<Symptom>

  /** Whether the wall clock has run out when iteration n begins. */
  type Clock = nat -> bool

  datatype Outcome =
    | AlreadyMatching(source: string)
    | Repaired(iterations: nat, source: string)
    | Exhausted(iterations: nat, last: Symptom)

  function SourceOf(outcome: Outcome): Option<string> {
    match outcome
    case AlreadyMatching(source) => Some(source)
    case Repaired(_, source) => Some(source)
    case Exhausted(_, _) => None
  }

  /** No rule applies. */
  predicate NoneApplies(rules: seq<Rule>, symptom: Symptom, candidate: string) {
    forall k :: 0 <= k < |rules| ==> rules[k](symptom, candidate) == None
  }

  /** Rule `i` gives the next candidate and no rule in front of it applies. */
  predicate FirstToApply(rules: seq<Rule>, i: nat, symptom: Symptom, candidate: string, next: string) {
    i < |rules| && rules[i](symptom, candidate) == Some(next) && NoneApplies(rules[..i], symptom, candidate)
  }

  ghost predicate Applies(rules: seq<Rule>, symptom: Symptom, candidate: string, next: string) {
    exists i: nat :: FirstToApply(rules, i, symptom, candidate, next)
  }

  /** What the first rule gives is what no other rule can give instead. */
  lemma AppliesOnce(rules: seq<Rule>, symptom: Symptom, candidate: string, a: string, b: string)
    requires Applies(rules, symptom, candidate, a) && Applies(rules, symptom, candidate, b)
    ensures a == b
  {
    var i: nat :| FirstToApply(rules, i, symptom, candidate, a);
    var j: nat :| FirstToApply(rules, j, symptom, candidate, b);
  }

  lemma AppliesOrNot(rules: seq<Rule>, symptom: Symptom, candidate: string, next: string)
    requires Applies(rules, symptom, candidate, next)
    ensures !NoneApplies(rules, symptom, candidate)
  {
  }

  // ---- what a run must have done ----

  /** Candidates joined by rule applications, each answering the symptom its own probe reported. */
  ghost predicate Trail(rules: seq<Rule>, probe: Probe, cs: seq<string>) {
    cs != [] &&
    forall j :: 0 <= j < |cs| - 1 ==>
      probe(j, cs[j]).Some? && Applies(rules, probe(j, cs[j]).value, cs[j], cs[j + 1])
  }

  /** `cs` are the candidates a run from `initial` probes, and `outcome` is what it must hand back. */
  ghost predicate RunOf(rules: seq<Rule>, probe: Probe, clock: Clock, limit: nat, initial: string,
      cs: seq<string>, outcome: Outcome)
  {
    Trail(rules, probe, cs) && cs[0] == initial && |cs| <= limit + 1 &&
    (forall j :: 0 < j < |cs| ==> !clock(j)) &&
    var n := |cs| - 1;
    match probe(n, cs[n])
    case None => outcome == if n == 0 then AlreadyMatching(initial) else Repaired(n, cs[n])
    case Some(last) =>
      outcome == Exhausted(n, last) && (n == limit || clock(n + 1) || NoneApplies(rules, last, cs[n]))
  }

  // ---- the loop ----

  class File {
    var contents: Option<string>
  }

  /** How a write ends; a failed one leaves what it leaves. */
  datatype Write = Written | Failed(left: Option<string>)

  class RepairLoop {
    const maxIterations: nat
    const rules: seq<Rule>

    constructor (maxIterations: nat, rules: seq<Rule>)
      ensures this.maxIterations == maxIterations && this.rules == rules
    {
      this.maxIterations, this.rules := maxIterations, rules;
    }

    /** The first rule that applies wins. */
    method FindRule(symptom: Symptom, candidate: string) returns (next: Option<string>)
      ensures next == None <==> forall k :: 0 <= k < |rules| ==> rules[k](symptom, candidate) == None
      ensures next.Some? ==>
        exists i :: 0 <= i < |rules|
          && rules[i](symptom, candidate) == next && NoneApplies(rules[..i], symptom, candidate)
    {
      var i := 0;
      while i < |rules|
        invariant 0 <= i <= |rules|
        invariant forall k :: 0 <= k < i ==> rules[k](symptom, candidate) == None
      {
        next := rules[i](symptom, candidate);
        if next.Some? {
          return;
        }
        i := i + 1;
      }
      return None;
    }

    /** One evaluation for each candidate of the trail, at most one more than the iteration limit. */
    method Run(probe: Probe, clock: Clock, initial: string) returns (outcome: Outcome, probes: nat,
        ghost cs: seq<string>)
      ensures RunOf(rules, probe, clock, maxIterations, initial, cs, outcome)
      ensures probes == |cs|
      ensures 1 <= probes <= maxIterations + 1
      ensures match outcome
        case AlreadyMatching(source) => probes == 1 && source == initial && probe(0, initial) == None
        case Repaired(n, source) => 1 <= n == probes - 1 && probe(n, source) == None
        case Exhausted(n, _) => n == probes - 1
    {
      var candidate := initial;
      cs := [initial];
      probes := 1;
      var answer := probe(0, candidate);
      if answer == None {
        return AlreadyMatching(candidate), probes, cs;
      }
      var last := answer.value;
      for iter := 1 to maxIterations + 1
        invariant Trail(rules, probe, cs) && cs[0] == initial && |cs| == iter == probes
        invariant cs[iter - 1] == candidate && probe(iter - 1, candidate) == Some(last)
        invariant forall j :: 0 < j < iter ==> !clock(j)
      {
        if clock(iter) {
          return Exhausted(iter - 1, last), probes, cs;
        }
        var next := FindRule(last, candidate);
        if next == None {
          return Exhausted(iter - 1, last), probes, cs;
        }
        var i :| 0 <= i < |rules| && rules[i](last, candidate) == next && NoneApplies(rules[..i], last, candidate);
        assert FirstToApply(rules, i, last, candidate, next.value);
        candidate := next.value;
        cs := cs + [candidate];
        answer := probe(iter, candidate);
        probes := probes + 1;
        if answer == None {
          return Repaired(iter, candidate), probes, cs;
        }
        last := answer.value;
      }
      return Exhausted(maxIterations, last), probes, cs;
    }

    /** The file changes only when the run reached a match, and then to the matching candidate. */
    method RunAndCommit(probe: Probe, clock: Clock, initial: string, out: File, write: Write)
      returns (r: Result<Outcome, ()>, ghost outcome: Outcome, ghost cs: seq<string>)
      modifies out
      ensures RunOf(rules, probe, clock, maxIterations, initial, cs, outcome)
      ensures outcome.Exhausted? ==> out.contents == old(out.contents) && r == Ok(outcome)
      ensures !outcome.Exhausted? ==> probe(|cs| - 1, cs[|cs| - 1]) == None
      ensures !outcome.Exhausted? && write.Written? ==> out.contents == Some(cs[|cs| - 1]) && r == Ok(outcome)
      ensures !outcome.Exhausted? && write.Failed? ==> out.contents == write.left && r == Err(())
    {
      var ended, probes;
      ended, probes, cs := Run(probe, clock, initial);
      outcome := ended;
      var source := SourceOf(ended);
      if source.Some? {
        if write.Failed? {
          out.contents := write.left;
          return Err(()), outcome, cs;
        }
        out.contents := source;
      }
      return Ok(ended), outcome, cs;
    }
  }

  // ---- what follows for every run ----

  lemma {:induction false} TrailsAgree(rules: seq<Rule>, probe: Probe, a: seq<string>, b: seq<string>, n: nat)
    requires Trail(rules, probe, a) && Trail(rules, probe, b) && a[0] == b[0]
    requires n < |a| && n < |b|
    ensures a[n] == b[n]
  {
    if n > 0 {
      TrailsAgree(rules, probe, a, b, n - 1);
      AppliesOnce(rules, probe(n - 1, a[n - 1]).value, a[n - 1], a[n], b[n]);
    }
  }

  /** Probe, rules, clock and limit leave no choice: there is one trail and one outcome. */
  lemma OneOutcome(rules: seq<Rule>, probe: Probe, clock: Clock, limit: nat, initial: string,
      a: seq<string>, first: Outcome, b: seq<string>, second: Outcome)
    requires RunOf(rules, probe, clock, limit, initial, a, first)
    requires RunOf(rules, probe, clock, limit, initial, b, second)
    ensures a == b && first == second
  {
    NotLonger(rules, probe, clock, limit, initial, a, first, b, second);
    NotLonger(rules, probe, clock, limit, initial, b, second, a, first);
    forall n | 0 <= n < |a| ensures a[n] == b[n] {
      TrailsAgree(rules, probe, a, b, n);
    }
    assert a == b;
  }

  lemma NotLonger(rules: seq<Rule>, probe: Probe, clock: Clock, limit: nat, initial: string,
      a: seq<string>, first: Outcome, b: seq<string>, second: Outcome)
    requires RunOf(rules, probe, clock, limit, initial, a, first)
    requires RunOf(rules, probe, clock, limit, initial, b, second)
    ensures |a| >= |b|
  {
    var n := |a| - 1;
    if n + 1 < |b| {
      TrailsAgree(rules, probe, a, b, n);
      AppliesOrNot(rules, probe(n, b[n]).value, b[n], b[n + 1]);
    }
  }

  // ---- the argument-cast rule ----

  predicate IsTypeMismatch(symptom: Symptom) {
    symptom.BuildError? && (Find(symptom.stderr, "E0308").Some? || Find(symptom.stderr, "mismatched types").Some?)
  }

  function ArgCastRule(symbol: string, abi: string): Rule {
    (symptom, candidate) => if IsTypeMismatch(symptom) then Insert("", candidate, symbol, abi) else None
  }

  /** A loop over the argument-cast rule makes no more iterations than there are uncast sites, whatever its budget. */
  lemma {:induction false} CastIterations(symbol: string, abi: string, probe: Probe, cs: seq<string>)
    requires Plain(abi) && Recognisable(abi) && Trail([ArgCastRule(symbol, abi)], probe, cs)
    ensures |cs| - 1 <= Uncast("", cs[0], symbol, abi)
    ensures Uncast("", cs[|cs| - 1], symbol, abi) == Uncast("", cs[0], symbol, abi) - (|cs| - 1)
    decreases |cs|
  {
    hide Insert, Uncast, Plain, Recognisable, IsTypeMismatch;
    if |cs| > 1 {
      var n := |cs| - 1;
      var shorter := cs[..n];
      assert forall j :: 0 <= j < n ==> shorter[j] == cs[j];
      CastIterations(symbol, abi, probe, shorter);
      assert Applies([ArgCastRule(symbol, abi)], probe(n - 1, cs[n - 1]).value, cs[n - 1], cs[n]);
      StepCastsOneSite("", cs[n - 1], symbol, abi);
    }
  }
}
