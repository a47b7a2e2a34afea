/** `str::find`: the first occurrence of a needle. */
module Search {
  import opened Outcomes
  import opened Text

  /** A position found `n` characters further on. */
  function Later(n: nat, r: Option<nat>): Option<nat> {
    match r
    case Some(i) => Some(n + i)
    case None => None
  }

  function Find(s: string, needle: string): (r: Option<nat>)
    ensures r.Some? ==> r.value + |needle| <= |s|
  {
    if StartsWith(s, needle) then Some(0)
    else if s == "" then None
    else
      Later(1, Find(s[1..], needle))
  }

  /** The first character of the needle does not come back inside it. */
  predicate SingleHead(needle: string) {
    needle != "" && forall i :: 0 < i < |needle| ==> needle[i] != needle[0]
  }

  /** Text without the needle, then the needle: found at the seam. */
  lemma {:induction false} FindAtSeam(a: string, needle: string, rest: string)
    requires SingleHead(needle) && Find(a, needle) == None
    ensures Find(a + needle + rest, needle) == Some(|a|)
  {
    var s := a + needle + rest;
    if a == "" {
      assert s[..|needle|] == needle;
    } else {
      assert s[1..] == a[1..] + needle + rest;
      if |needle| <= |a| {
        assert s[..|needle|] == a[..|needle|];
      } else {
        assert s[..|needle|][|a|] == needle[0];
      }
      FindAtSeam(a[1..], needle, rest);
    }
  }

  /** A first occurrence stays first when text is put after it. */
  lemma {:induction false} FindInPrefix(a: string, needle: string, rest: string)
    requires Find(a, needle).Some?
    ensures Find(a + rest, needle) == Find(a, needle)
  {
    if StartsWith(a, needle) {
      assert (a + rest)[..|needle|] == a[..|needle|];
    } else {
      assert (a + rest)[1..] == a[1..] + rest;
      assert (a + rest)[..|needle|] == a[..|needle|];
      FindInPrefix(a[1..], needle, rest);
    }
  }

  lemma {:induction false} FoundThere(s: string, needle: string)
    requires Find(s, needle).Some?
    ensures var i := Find(s, needle).value; s[i..i + |needle|] == needle
  {
    if !StartsWith(s, needle) {
      FoundThere(s[1..], needle);
      var i := Find(s[1..], needle).value;
      assert s[1..][i..i + |needle|] == s[i + 1..i + 1 + |needle|];
    }
  }

  /** No occurrence means none at any position. */
  lemma {:induction false} NotFound(s: string, needle: string, i: nat)
    requires Find(s, needle) == None && i + |needle| <= |s|
    ensures s[i..i + |needle|] != needle
  {
    if i > 0 {
      NotFound(s[1..], needle, i - 1);
      assert s[1..][i - 1..i - 1 + |needle|] == s[i..i + |needle|];
    }
  }

  lemma FindStep(s: string, needle: string)
    requires s != "" && !StartsWith(s, needle)
    ensures Find(s, needle) == Later(1, Find(s[1..], needle))
  {
  }

  /** Characters other than the needle's first are passed over. */
  lemma {:induction false} FindPastOthers(a: string, needle: string, rest: string)
    requires needle != "" && forall i :: 0 <= i < |a| ==> a[i] != needle[0]
    ensures Find(a + rest, needle) == Later(|a|, Find(rest, needle))
  {
    hide Find;
    if a == "" {
      assert a + rest == rest;
    } else {
      var s := a + rest;
      assert s[1..] == a[1..] + rest;
      assert |needle| <= |s| ==> s[..|needle|][0] == a[0];
      FindStep(s, needle);
      FindPastOthers(a[1..], needle, rest);
    }
  }

  /** Without its first two characters side by side a needle is nowhere. */
  lemma {:induction false} FindNeedsPair(s: string, needle: string)
    requires |needle| >= 2 && forall i :: 0 <= i < |s| - 1 ==> s[i] != needle[0] || s[i + 1] != needle[1]
    ensures Find(s, needle) == None
  {
    hide Find;
    if s == "" {
      FindNothing(needle);
    } else {
      assert |needle| <= |s| ==> s[..|needle|][0] == s[0] && s[..|needle|][1] == s[1];
      FindStep(s, needle);
      FindNeedsPair(s[1..], needle);
    }
  }

  lemma FindNothing(needle: string)
    requires needle != ""
    ensures Find("", needle) == None
  {
  }
}
