/** A repair loop with both cast rules: how often each applies, and that the loop ends without its limit. */
module CastLoops {
  import opened Outcomes
  import opened Text
  import opened ArgCasts
  import opened ArgCastRuns
  import opened ReturnCasts
  import opened RepairLoops

  // ---- an argument cast makes and breaks no bare return ----

  lemma {:induction false} SplitConcat(a: string, b: string)
    ensures var x, y := Split(a, NEWLINE), Split(b, NEWLINE);
      Split(a + b, NEWLINE) == x[..|x| - 1] + [x[|x| - 1] + y[0]] + y[1..]
    decreases |a|
  {
    hide Split;
    var x, y := Split(a, NEWLINE), Split(b, NEWLINE);
    if a == "" {
      assert a + b == b;
      SplitUnbroken("", NEWLINE);
      assert "" + y[0] == y[0] && [y[0]] + y[1..] == y;
    } else {
      assert a + b == [a[0]] + (a[1..] + b) && a == [a[0]] + a[1..];
      SplitCons(a[0], a[1..] + b, NEWLINE);
      SplitCons(a[0], a[1..], NEWLINE);
      SplitConcat(a[1..], b);
      SplitFront(a[0], Split(a[1..], NEWLINE), y);
    }
  }

  lemma SplitFront(c: char, z: seq<string>, y: seq<string>)
    requires z != [] && y != []
    ensures var whole := z[..|z| - 1] + [z[|z| - 1] + y[0]] + y[1..];
      && (var x := [""] + z; [""] + whole == x[..|x| - 1] + [x[|x| - 1] + y[0]] + y[1..])
      && (var x := [[c] + z[0]] + z[1..];
          [[c] + whole[0]] + whole[1..] == x[..|x| - 1] + [x[|x| - 1] + y[0]] + y[1..])
  {
    if |z| == 1 {
      assert [c] + (z[0] + y[0]) == [c] + z[0] + y[0];
    }
  }

  lemma Inserted(pre: string, w: string, tail: string)
    requires tail != "" && tail[0] in {',', ')'} && '\n' !in w
    ensures BareReturns(pre + (w + tail)) == BareReturns(pre + tail)
  {
    hide Split, CountReturns, IsReturn;
    SplitConcat(pre, w + tail);
    SplitConcat(pre, tail);
    SplitBehind(w, tail);
    var x, y := Split(pre, NEWLINE), Split(tail, NEWLINE);
    FirstPieceStarts(tail);
    var front, last := x[..|x| - 1], x[|x| - 1];
    var a, b := last + (w + y[0]), last + y[0];
    assert a[|last| + |w|] == tail[0] && b[|last|] == tail[0];
    VisibleStays(a, |last| + |w|);
    VisibleStays(b, |last|);
    SameCount(front, a, b, y[1..]);
    assert (Split(w + tail, NEWLINE))[1..] == y[1..];
  }

  lemma FirstPieceStarts(s: string)
    requires s != "" && s[0] != '\n'
    ensures Split(s, NEWLINE)[0] != "" && Split(s, NEWLINE)[0][0] == s[0]
  {
  }

  lemma SameCount(front: seq<string>, a: string, b: string, back: seq<string>)
    requires !IsReturn(a) && !IsReturn(b)
    ensures CountReturns(front + [a] + back) == CountReturns(front + [b] + back)
  {
    hide IsReturn;
    CountAppend(front + [a], back);
    CountAppend(front + [b], back);
    CountAppend(front, [a]);
    CountAppend(front, [b]);
    assert [a][1..] == [] && [b][1..] == [];
  }

  lemma {:induction false} WovenReturns(pre: string, s: string, depth: int, ws: seq<string>, rest: string)
    requires |ws| == |SplitTopLevel(s, depth)| && forall k :: 0 <= k < |ws| ==> '\n' !in ws[k]
    requires rest != "" && rest[0] == ')'
    ensures BareReturns(pre + (Woven(s, depth, ws) + rest)) == BareReturns(pre + (s + rest))
    decreases |s|
  {
    hide BareReturns, SplitTopLevel;
    if s == "" {
      SplitNothing(depth);
      Inserted(pre, ws[0], rest);
      assert "" + rest == rest;
    } else {
      SplitStep(s, depth);
      if s[0] == ',' && depth == 0 {
        var woven := Woven(s[1..], 0, ws[1..]);
        WovenReturns(pre + ",", s[1..], 0, ws[1..], rest);
        var tail := "," + (woven + rest);
        Inserted(pre, ws[0], tail);
        assert Woven(s, depth, ws) + rest == ws[0] + tail;
        assert pre + tail == pre + "," + (woven + rest);
        assert pre + (s + rest) == pre + "," + (s[1..] + rest);
      } else {
        var d := DepthAfter(s[0], depth);
        WovenReturns(pre + [s[0]], s[1..], d, ws, rest);
        assert pre + (Woven(s, depth, ws) + rest) == pre + [s[0]] + (Woven(s[1..], d, ws) + rest);
        assert pre + (s + rest) == pre + [s[0]] + (s[1..] + rest);
      }
    }
  }

  /** An argument cast keeps the bare returns of the text. */
  lemma ArgCastKeepsReturns(src: string, symbol: string, abi: string)
    requires '\n' !in abi && Insert("", src, symbol, abi).Some?
    ensures BareReturns(Insert("", src, symbol, abi).value) == BareReturns(src)
  {
    hide Insert, BareReturns, SplitTopLevel, CastAll, AllCast, Join, IsCast, Woven;
    var before, args, after := StepShape("", src, symbol, abi);
    var list := Join(",", args);
    var ws := Casts(args, abi);
    CastsAppend(args, abi);
    WovenIsJoined(list, 0, ws);
    forall k | 0 <= k < |ws| ensures '\n' !in ws[k] {
      CastTextPlain(abi);
    }
    WovenReturns(before, list, 0, ws, after);
  }

  lemma CastTextPlain(abi: string)
    requires '\n' !in abi
    ensures '\n' !in " " + Suffix(abi)
  {
  }

  // ---- both rules ----

  function ReturnCastRule(native: string): Rule {
    (symptom, candidate) => if IsTypeMismatch(symptom) then InsertReturn(candidate, native) else None
  }

  /** A type name on one line that a written cast is recognised by, and one that hides no bare return. */
  predicate Proper(abi: string, native: string) {
    Plain(abi) && Recognisable(abi) && '\n' !in abi && Hidden(native) == 0
  }

  predicate CastStep(a: string, b: string, symbol: string, abi: string, native: string) {
    Insert("", a, symbol, abi) == Some(b) || InsertReturn(a, native) == Some(b)
  }

  /** Bare returns go first; with as many of them, uncast sites go. */
  lemma StepDecreases(a: string, b: string, symbol: string, abi: string, native: string)
    requires Proper(abi, native) && CastStep(a, b, symbol, abi, native)
    ensures BareReturns(b) == BareReturns(a) - 1
      || (BareReturns(b) == BareReturns(a) && Uncast("", b, symbol, abi) == Uncast("", a, symbol, abi) - 1)
  {
    hide Insert, InsertReturn, BareReturns, Uncast, Plain, Recognisable, Hidden;
    if Insert("", a, symbol, abi) == Some(b) {
      StepCastsOneSite("", a, symbol, abi);
      ArgCastKeepsReturns(a, symbol, abi);
    } else {
      ReturnStep(a, native);
    }
  }

  ghost predicate CastRules(rules: seq<Rule>, symbol: string, abi: string, native: string) {
    forall r :: r in rules ==> r == ArgCastRule(symbol, abi) || r == ReturnCastRule(native)
  }

  lemma RuleIsStep(rules: seq<Rule>, symptom: Symptom, a: string, b: string, symbol: string, abi: string,
                   native: string)
    requires CastRules(rules, symbol, abi, native) && Applies(rules, symptom, a, b)
    ensures CastStep(a, b, symbol, abi, native)
  {
    hide Insert, InsertReturn, IsTypeMismatch;
    var i: nat :| FirstToApply(rules, i, symptom, a, b);
    assert rules[i] in rules;
  }

  /** Candidates each a cast step from the one before. */
  predicate CastRun(cs: seq<string>, symbol: string, abi: string, native: string) {
    cs != [] && forall j :: 0 <= j < |cs| - 1 ==> CastStep(cs[j], cs[j + 1], symbol, abi, native)
  }

  /** The trail of any loop over these two rules, in any order. */
  lemma TrailIsCastRun(rules: seq<Rule>, probe: Probe, cs: seq<string>, symbol: string, abi: string, native: string)
    requires CastRules(rules, symbol, abi, native) && Trail(rules, probe, cs)
    ensures CastRun(cs, symbol, abi, native)
  {
    hide Applies, CastStep, CastRules;
    forall j | 0 <= j < |cs| - 1 ensures CastStep(cs[j], cs[j + 1], symbol, abi, native) {
      RuleIsStep(rules, probe(j, cs[j]).value, cs[j], cs[j + 1], symbol, abi, native);
    }
  }

  /** Steps that take a bare return away. */
  function ReturnSteps(cs: seq<string>): nat {
    if |cs| <= 1 then 0
    else (if BareReturns(cs[1]) < BareReturns(cs[0]) then 1 else 0) + ReturnSteps(cs[1..])
  }

  /** A run casts as many returns as it has fewer at its end, so never more than its source has. */
  lemma {:induction false} ReturnsCast(cs: seq<string>, symbol: string, abi: string, native: string)
    requires Proper(abi, native) && CastRun(cs, symbol, abi, native)
    ensures ReturnSteps(cs) + BareReturns(cs[|cs| - 1]) == BareReturns(cs[0])
    decreases |cs|
  {
    hide CastStep, BareReturns, Proper, Uncast;
    if |cs| > 1 {
      assert CastStep(cs[0], cs[1], symbol, abi, native);
      StepDecreases(cs[0], cs[1], symbol, abi, native);
      ReturnsCast(cs[1..], symbol, abi, native);
    }
  }

  /** There is no endless run: whatever the candidates, some next one is no cast step, from any position on. */
  lemma {:induction false} RunsEnd(run: nat -> string, j: nat, symbol: string, abi: string, native: string)
    returns (k: nat)
    requires Proper(abi, native)
    ensures k >= j && !CastStep(run(k), run(k + 1), symbol, abi, native)
    decreases BareReturns(run(j)), Uncast("", run(j), symbol, abi)
  {
    hide CastStep, Proper;
    if CastStep(run(j), run(j + 1), symbol, abi, native) {
      StepDecreases(run(j), run(j + 1), symbol, abi, native);
      k := RunsEnd(run, j + 1, symbol, abi, native);
    } else {
      k := j;
    }
  }
}
