/** Repeated `insert_arg_cast`: one site a step, every argument of it, and an end. */
module ArgCastRuns {
  import opened Outcomes
  import opened Text
  import opened Search
  import opened ArgCasts

  /** No bracket and no comma, so the text changes no depth and splits nothing. */
  predicate Plain(w: string) {
    forall i :: 0 <= i < |w| ==> w[i] !in {'(', ')', '[', ']', '<', '>', ','}
  }

  /** A written cast is recognised later: the name is there and nothing after it would be trimmed away. */
  predicate Recognisable(abi: string) {
    abi != "" && !IsWhitespace(abi[|abi| - 1])
  }

  // ---- one argument ----

  lemma {:induction false} TrimStartKeeps(x: string, y: string)
    requires y != "" && !IsWhitespace(y[0])
    ensures EndsWith(TrimStart(x + y), y)
  {
    if x == "" {
      assert x + y == y;
    } else if IsWhitespace(x[0]) {
      assert (x + y)[1..] == x[1..] + y;
      TrimStartKeeps(x[1..], y);
    } else {
      assert (x + y)[|x|..] == y;
    }
  }

  lemma EndsWithLast(x: string, y: string)
    requires y != ""
    ensures EndsWith(x, y) ==> x != "" && x[|x| - 1] == y[|y| - 1]
  {
    if |y| <= |x| {
      assert x[|x| - |y|..][|y| - 1] == x[|x| - 1];
    }
  }

  /** Casting an argument makes it one that is passed over, exactly when the cast can be recognised. */
  lemma CastIsCast(arg: string, abi: string)
    ensures IsCast(arg + " " + Suffix(abi), abi) <==> Recognisable(abi)
  {
    hide TrimStart;
    var y := Suffix(abi);
    var s := arg + " " + y;
    assert s == (arg + " ") + y;
    TrimStartKeeps(arg + " ", y);
    var t := TrimStart(s);
    assert t[|t| - 1] == y[|y| - 1];
    if Recognisable(abi) {
      assert y[|y| - 1] == abi[|abi| - 1];
      assert TrimEnd(t) == t;
    } else {
      assert IsWhitespace(y[|y| - 1]) by { assert abi == "" ==> y == "as "; }
      TrimEndShape(t);
      EndsWithLast(TrimEnd(t), y);
    }
  }

  // ---- weaving casts into an argument list ----

  /** `s` with the next text of `ws` written at the end of each of its top-level pieces. */
  function Woven(s: string, depth: int, ws: seq<string>): string
    requires |ws| == |SplitTopLevel(s, depth)|
  {
    if s == "" then ws[0]
    else if s[0] == ',' && depth == 0 then ws[0] + "," + Woven(s[1..], 0, ws[1..])
    else [s[0]] + Woven(s[1..], DepthAfter(s[0], depth), ws)
  }

  function Appended(pieces: seq<string>, ws: seq<string>): (r: seq<string>)
    requires |pieces| == |ws|
    ensures |r| == |pieces|
  {
    seq(|pieces|, i requires 0 <= i < |pieces| => pieces[i] + ws[i])
  }

  predicate AllPlain(ws: seq<string>) {
    forall i :: 0 <= i < |ws| ==> Plain(ws[i])
  }

  lemma AppendedFirst(pieces: seq<string>, ws: seq<string>)
    requires |pieces| == |ws| && |pieces| >= 1 && pieces[0] == ""
    ensures Appended(pieces, ws) == [ws[0]] + Appended(pieces[1..], ws[1..])
  {
    assert "" + ws[0] == ws[0];
  }

  lemma AppendedFronted(x: string, pieces: seq<string>, ws: seq<string>)
    requires |pieces| == |ws| && |pieces| >= 1
    ensures Appended(Fronted(x, pieces), ws) == Fronted(x, Appended(pieces, ws))
  {
    Associative(x, pieces[0], ws[0]);
  }

  lemma {:induction false} WovenIsJoined(s: string, depth: int, ws: seq<string>)
    requires |ws| == |SplitTopLevel(s, depth)|
    ensures Join(",", Appended(SplitTopLevel(s, depth), ws)) == Woven(s, depth, ws)
  {
    hide SplitTopLevel, Appended;
    var pieces := SplitTopLevel(s, depth);
    if s == "" {
      SplitNothing(depth);
      AppendedFirst(pieces, ws);
    } else {
      SplitStep(s, depth);
      if s[0] == ',' && depth == 0 {
        WovenIsJoined(s[1..], 0, ws[1..]);
        AppendedFirst(pieces, ws);
      } else {
        var d := DepthAfter(s[0], depth);
        WovenIsJoined(s[1..], d, ws);
        var rest := SplitTopLevel(s[1..], d);
        AppendedFronted([s[0]], rest, ws);
        JoinFronted([s[0]], Appended(rest, ws));
      }
    }
  }

  lemma JoinFronted(x: string, pieces: seq<string>)
    requires |pieces| >= 1
    ensures Join(",", Fronted(x, pieces)) == x + Join(",", pieces)
  {
    if |pieces| > 1 {
      assert Fronted(x, pieces)[1..] == pieces[1..];
      Associative(x, pieces[0], ",");
      Associative(x, pieces[0] + ",", Join(",", pieces[1..]));
    }
  }

  /** Plain text stays inside the piece it begins. */
  lemma {:induction false} PlainInPiece(w: string, s: string, depth: int)
    requires Plain(w)
    ensures SplitTopLevel(w + s, depth) == Fronted(w, SplitTopLevel(s, depth))
  {
    hide SplitTopLevel;
    if w == "" {
      assert w + s == s;
      FrontedNothing(SplitTopLevel(s, depth));
    } else {
      SplitStep(w + s, depth);
      assert (w + s)[1..] == w[1..] + s;
      PlainInPiece(w[1..], s, depth);
      FrontedTwice([w[0]], w[1..], SplitTopLevel(s, depth));
      assert [w[0]] + w[1..] == w;
    }
  }

  /** Splitting the woven list gives the old pieces with their new ends: the casts move no comma. */
  lemma {:induction false} WovenSplits(s: string, depth: int, ws: seq<string>)
    requires |ws| == |SplitTopLevel(s, depth)| && AllPlain(ws)
    ensures SplitTopLevel(Woven(s, depth, ws), depth) == Appended(SplitTopLevel(s, depth), ws)
  {
    hide SplitTopLevel, Plain, Appended, DepthAfter;
    var pieces := SplitTopLevel(s, depth);
    if s == "" {
      SplitNothing(depth);
      AppendedFirst(pieces, ws);
      PlainInPiece(ws[0], "", depth);
      assert ws[0] + "" == ws[0];
    } else {
      SplitStep(s, depth);
      if s[0] == ',' && depth == 0 {
        var w := Woven(s[1..], 0, ws[1..]);
        WovenSplits(s[1..], 0, ws[1..]);
        AppendedFirst(pieces, ws);
        CommaSplits(ws[0], w);
      } else {
        var d := DepthAfter(s[0], depth);
        var w := Woven(s[1..], d, ws);
        WovenSplits(s[1..], d, ws);
        SplitStep([s[0]] + w, depth);
        assert ([s[0]] + w)[1..] == w;
        AppendedFronted([s[0]], SplitTopLevel(s[1..], d), ws);
      }
    }
  }

  lemma CommaSplits(w: string, s: string)
    requires Plain(w)
    ensures SplitTopLevel(w + "," + s, 0) == [w] + SplitTopLevel(s, 0)
  {
    hide SplitTopLevel, Plain;
    PlainInPiece(w, "," + s, 0);
    assert w + "," + s == w + ("," + s);
    SplitStep("," + s, 0);
    assert ("," + s)[1..] == s;
    assert w + "" == w;
  }

  lemma {:induction false} PlainPassed(w: string, rest: string, depth: nat)
    requires Plain(w) && depth > 0
    ensures CloseParen(w + rest, depth) == Later(|w|, CloseParen(rest, depth))
  {
    if w == "" {
      assert w + rest == rest;
    } else {
      assert (w + rest)[1..] == w[1..] + rest;
      PlainPassed(w[1..], rest, depth);
    }
  }

  lemma CommaPassed(w: string, s: string, rest: string, depth: nat)
    requires Plain(w) && depth > 0
    ensures CloseParen(w + "," + s + rest, depth) == Later(|w| + 1, CloseParen(s + rest, depth))
  {
    hide Plain, CloseParen;
    assert w + "," + s + rest == w + ([','] + (s + rest));
    PlainPassed(w, [','] + (s + rest), depth);
    CloseParenStep(',', s + rest, depth);
  }

  /** The parenthesis that closed the list closes the woven one. */
  lemma {:induction false} WovenCloses(s: string, d: int, ws: seq<string>, rest: string, depth: nat)
    requires |ws| == |SplitTopLevel(s, d)| && AllPlain(ws) && depth > 0
    requires CloseParen(s + rest, depth) == Some(|s|)
    ensures CloseParen(Woven(s, d, ws) + rest, depth) == Some(|Woven(s, d, ws)|)
  {
    hide SplitTopLevel, Plain, CloseParen, DepthAfter;
    if s == "" {
      SplitNothing(d);
      assert s + rest == rest;
      PlainPassed(ws[0], rest, depth);
    } else {
      SplitStep(s, d);
      assert s + rest == [s[0]] + (s[1..] + rest);
      CloseParenStep(s[0], s[1..] + rest, depth);
      if s[0] == ',' && d == 0 {
        var w := Woven(s[1..], 0, ws[1..]);
        WovenCloses(s[1..], 0, ws[1..], rest, depth);
        CommaPassed(ws[0], w, rest, depth);
      } else {
        var w := Woven(s[1..], DepthAfter(s[0], d), ws);
        Associative([s[0]], w, rest);
        CloseParenStep(s[0], w + rest, depth);
        var deeper := if s[0] == '(' then depth + 1 else if s[0] == ')' then depth - 1 else depth;
        if deeper > 0 {
          WovenCloses(s[1..], DepthAfter(s[0], d), ws, rest, deeper);
        }
      }
    }
  }

  // ---- casting a list is weaving ----

  function Casts(pieces: seq<string>, abi: string): (ws: seq<string>)
    ensures |ws| == |pieces|
  {
    seq(|pieces|, i requires 0 <= i < |pieces| => if IsCast(pieces[i], abi) then "" else " " + Suffix(abi))
  }

  lemma CastsAppend(pieces: seq<string>, abi: string)
    ensures Appended(pieces, Casts(pieces, abi)) == CastAll(pieces, abi)
  {
    hide IsCast, Suffix;
    forall i | 0 <= i < |pieces| ensures Appended(pieces, Casts(pieces, abi))[i] == CastAll(pieces, abi)[i] {
      assert pieces[i] + "" == pieces[i];
      Associative(pieces[i], " ", Suffix(abi));
    }
  }

  lemma CastsArePlain(pieces: seq<string>, abi: string)
    requires Plain(abi)
    ensures AllPlain(Casts(pieces, abi))
  {
    hide IsCast;
    var w := " " + Suffix(abi);
    assert Plain(w) by {
      forall i | 0 <= i < |w| ensures w[i] !in {'(', ')', '[', ']', '<', '>', ','} {
        assert w[i] == if i < 4 then " as "[i] else abi[i - 4];
      }
    }
    assert Plain("");
  }

  /**
   * The rewritten list has the same pieces with their casts, is closed where the old one was, and is done if the cast
   * is recognisable.
   */
  lemma RewrittenList(args: string, abi: string, rest: string)
    requires Plain(abi) && CloseParen(args + rest, 1) == Some(|args|)
    ensures var pieces := SplitTopLevel(args, 0);
      var list := Join(",", CastAll(pieces, abi));
      Join(",", pieces) == args
      && SplitTopLevel(list, 0) == CastAll(pieces, abi)
      && (AllCast(CastAll(pieces, abi), abi) <==> Recognisable(abi) || AllCast(pieces, abi))
      && CloseParen(list + rest, 1) == Some(|list|)
  {
    hide SplitTopLevel, IsCast, Plain, CloseParen, Recognisable;
    var pieces := SplitTopLevel(args, 0);
    var ws := Casts(pieces, abi);
    CastsAppend(pieces, abi);
    CastsArePlain(pieces, abi);
    WovenIsJoined(args, 0, ws);
    WovenSplits(args, 0, ws);
    WovenCloses(args, 0, ws, rest, 1);
    JoinedBack(args, 0);
    forall i | 0 <= i < |pieces| ensures IsCast(CastAll(pieces, abi)[i], abi)
      <==> Recognisable(abi) || IsCast(pieces[i], abi) {
      CastIsCast(pieces[i], abi);
    }
  }

  lemma {:induction false} JoinedBack(s: string, depth: int)
    ensures Join(",", SplitTopLevel(s, depth)) == s
  {
    hide SplitTopLevel;
    if s == "" {
      SplitNothing(depth);
    } else {
      SplitStep(s, depth);
      if s[0] == ',' && depth == 0 {
        JoinedBack(s[1..], 0);
        assert "" + "," + s[1..] == s;
      } else {
        JoinedBack(s[1..], DepthAfter(s[0], depth));
        JoinFronted([s[0]], SplitTopLevel(s[1..], DepthAfter(s[0], depth)));
        assert [s[0]] + s[1..] == s;
      }
    }
  }

  // ---- one step ----

  /** How many call sites the scan comes to that are not fully cast. */
  function Uncast(pre: string, s: string, symbol: string, abi: string): nat
    decreases |s|
  {
    var site := SiteAt(pre, s, symbol);
    match site
    case NoSite => 0
    case Unexpected => 0
    case Declaration(after) => Uncast(pre + s[..after], s[after..], symbol, abi)
    case CallSite(_, end) =>
      (if AllCast(Args(s, site), abi) then 0 else 1) + Uncast(pre + s[..end + 1], s[end + 1..], symbol, abi)
  }

  lemma {:induction false} TrimEndFrom(p: string, i: nat)
    requires i < |p| && !IsWhitespace(p[i])
    ensures |TrimEnd(p)| > i && TrimEnd(p)[i..] == TrimEnd(p[i..])
    decreases |p|
  {
    if IsWhitespace(p[|p| - 1]) {
      var short := p[..|p| - 1];
      assert short[i] == p[i];
      TrimEndFrom(short, i);
      assert p[i..][..|p[i..]| - 1] == short[i..];
    }
  }

  lemma EndsInFn(x: string)
    ensures EndsWith(x, "fn") <==> |x| >= 2 && x[|x| - 2] == 'f' && x[|x| - 1] == 'n'
  {
    if |x| >= 2 {
      assert x[|x| - 2..] == [x[|x| - 2], x[|x| - 1]];
      assert "fn" == ['f', 'n'];
    }
  }

  /** What trimming leaves behind a visible character is what it leaves of the text from there. */
  lemma TrimEndBehind(q: string, t: string)
    ensures var long, short := TrimEnd(q + ")" + t), TrimEnd(")" + t);
      |long| == |q| + |short| && short != "" && short[0] == ')'
      && forall k :: 0 <= k < |short| ==> long[|q| + k] == short[k]
  {
    hide TrimEnd;
    var p := q + ")" + t;
    assert p[|q|..] == ")" + t;
    TrimEndFrom(p, |q|);
    TrimEndFrom(")" + t, 0);
    TrimEndShape(")" + t);
    var long, short := TrimEnd(p), TrimEnd(")" + t);
    assert short[0] == (")" + t)[0];
    assert long[|q|..] == short;
    forall k | 0 <= k < |short| ensures long[|q| + k] == short[k] {
      assert long[|q|..][k] == long[|q| + k];
    }
  }

  /** Whether a declaration's `fn` stands before a site does not depend on the text before a parenthesis. */
  lemma FnBehind(q: string, t: string)
    ensures EndsWith(TrimEnd(q + ")" + t), "fn") <==> EndsWith(TrimEnd(")" + t), "fn")
  {
    hide TrimEnd, EndsWith;
    TrimEndBehind(q, t);
    EndsInFn(TrimEnd(q + ")" + t));
    EndsInFn(TrimEnd(")" + t));
  }

  lemma SiteSame(q1: string, q2: string, t: string, s: string, symbol: string)
    ensures SiteAt(q1 + ")" + t, s, symbol) == SiteAt(q2 + ")" + t, s, symbol)
  {
    hide TrimEnd, EndsWith, CloseParen, Find;
    var found := Find(s, symbol + "(");
    if found.Some? {
      var u := s[..found.value];
      FnBehind(q1, t + u);
      FnBehind(q2, t + u);
      Associative(q1 + ")", t, u);
      Associative(q2 + ")", t, u);
    }
  }

  lemma {:induction false} UncastSame(q1: string, q2: string, t: string, s: string, symbol: string, abi: string)
    ensures Uncast(q1 + ")" + t, s, symbol, abi) == Uncast(q2 + ")" + t, s, symbol, abi)
    decreases |s|
  {
    hide SiteAt, AllCast, Args;
    SiteSame(q1, q2, t, s, symbol);
    var site := SiteAt(q1 + ")" + t, s, symbol);
    if site.Declaration? || site.CallSite? {
      var n := if site.Declaration? then site.after else site.end + 1;
      Associative(q1 + ")", t, s[..n]);
      Associative(q2 + ")", t, s[..n]);
      UncastSame(q1, q2, t + s[..n], s[n..], symbol, abi);
    }
  }

  lemma {:induction false} FindWithin(a: string, u: string, v: string, needle: string)
    requires Find(a + u, needle).Some? && Find(a + u, needle).value + |needle| <= |a|
    ensures Find(a + v, needle) == Find(a + u, needle)
  {
    assert |needle| <= |a| ==> (a + u)[..|needle|] == a[..|needle|] == (a + v)[..|needle|];
    if a != "" && !StartsWith(a + u, needle) {
      assert (a + u)[1..] == a[1..] + u && (a + v)[1..] == a[1..] + v;
      FindWithin(a[1..], u, v, needle);
    }
  }

  lemma {:induction false} CloseParenWithin(a: string, u: string, v: string, depth: nat)
    requires depth > 0 && CloseParen(a + u, depth).Some? && CloseParen(a + u, depth).value < |a|
    ensures CloseParen(a + v, depth) == CloseParen(a + u, depth)
  {
    assert (a + u)[1..] == a[1..] + u && (a + v)[1..] == a[1..] + v;
    var deeper := if a[0] == '(' then depth + 1 else if a[0] == ')' then depth - 1 else depth;
    if deeper > 0 {
      CloseParenWithin(a[1..], u, v, deeper);
    }
  }

  /** A site is found again when text beyond it changes. */
  lemma SiteWithin(pre: string, x: string, u: string, v: string, symbol: string)
    requires var site := SiteAt(pre, x + u, symbol);
      (site.Declaration? && site.after == |x|) || (site.CallSite? && site.end + 1 == |x|)
    ensures SiteAt(pre, x + v, symbol) == SiteAt(pre, x + u, symbol)
  {
    hide Find, CloseParen, TrimEnd, Trim, EndsWith;
    var needle := symbol + "(";
    FindWithin(x, u, v, needle);
    var rel := Find(x + u, needle).value;
    assert (x + u)[..rel] == x[..rel] == (x + v)[..rel];
    var site := SiteAt(pre, x + u, symbol);
    if site.CallSite? {
      var start := site.start;
      assert (x + u)[start..] == x[start..] + u && (x + v)[start..] == x[start..] + v;
      CloseParenWithin(x[start..], u, v, 1);
      assert (x + u)[start..site.end] == x[start..site.end] == (x + v)[start..site.end];
    }
  }

  /** The site of a rewritten list, seen again. */
  lemma SiteRewritten(pre: string, s: string, symbol: string, abi: string)
    requires Plain(abi) && SiteAt(pre, s, symbol).CallSite?
    ensures var site := SiteAt(pre, s, symbol);
      var list := Join(",", CastAll(Args(s, site), abi));
      var out := Rewritten(s, site, abi);
      SiteAt(pre, out, symbol) == CallSite(site.start, site.start + |list|)
      && Args(out, CallSite(site.start, site.start + |list|)) == CastAll(Args(s, site), abi)
      && (AllCast(CastAll(Args(s, site), abi), abi) <==> Recognisable(abi) || AllCast(Args(s, site), abi))
      && out == s[..site.start] + (list + s[site.end..])
  {
    hide Find, CloseParen, TrimEnd, Trim, EndsWith, CastAll, AllCast, SplitTopLevel, Plain, Recognisable, Join;
    var site := SiteAt(pre, s, symbol);
    var x, args, rest := s[..site.start], s[site.start..site.end], s[site.end..];
    assert s[site.start..] == args + rest;
    RewrittenList(args, abi, rest);
    var list := Join(",", CastAll(SplitTopLevel(args, 0), abi));
    var out := Rewritten(s, site, abi);
    Associative(x, list, rest);
    assert s == x + (args + rest);
    FindWithin(x, args + rest, list + rest, symbol + "(");
    var rel := Find(s, symbol + "(").value;
    assert s[..rel] == x[..rel] == out[..rel];
    assert out[site.start..] == list + rest;
    assert out[site.start..site.start + |list|] == list;
    CastListVisible(SplitTopLevel(args, 0), abi);
  }

  lemma VisibleTrim(c: string, i: nat)
    requires i < |c| && !IsWhitespace(c[i])
    ensures Trim(c) != ""
  {
    hide Trim;
    var pre, post := TrimShape(c);
    assert Trim(c) == "" ==> c == pre + post;
  }

  lemma CastVisible(arg: string, abi: string)
    ensures exists i :: 0 <= i < |Cast(arg, abi)| && !IsWhitespace(Cast(arg, abi)[i])
  {
    hide Trim;
    var c := Cast(arg, abi);
    if IsCast(arg, abi) {
      var pre, post := TrimShape(c);
      assert c[|pre|] == Trim(c)[0];
    } else {
      assert c[|arg| + 1] == 'a';
    }
  }

  lemma CastListVisible(pieces: seq<string>, abi: string)
    requires |pieces| >= 1
    ensures Trim(Join(",", CastAll(pieces, abi))) != ""
  {
    hide Trim, Cast;
    var cast := CastAll(pieces, abi);
    CastVisible(pieces[0], abi);
    var i :| 0 <= i < |cast[0]| && !IsWhitespace(cast[0][i]);
    assert Join(",", cast)[i] == cast[0][i];
    VisibleTrim(Join(",", cast), i);
  }

  /**
   * A step is taken exactly when some site is not fully cast; it leaves one fewer if the cast is recognisable, else
   * as many.
   */
  lemma {:induction false} StepCastsOneSite(pre: string, s: string, symbol: string, abi: string)
    requires Plain(abi)
    ensures Insert(pre, s, symbol, abi) == None <==> Uncast(pre, s, symbol, abi) == 0
    ensures var r := Insert(pre, s, symbol, abi);
      r.Some? ==>
        Uncast(pre, r.value, symbol, abi) == Uncast(pre, s, symbol, abi) - if Recognisable(abi) then 1 else 0
    decreases |s|
  {
    hide SiteAt, AllCast, Args, Plain, Recognisable, CastAll, Rewritten;
    var site := SiteAt(pre, s, symbol);
    if site.Declaration? || (site.CallSite? && AllCast(Args(s, site), abi)) {
      var n := if site.Declaration? then site.after else site.end + 1;
      StepCastsOneSite(pre + s[..n], s[n..], symbol, abi);
      var deeper := Insert(pre + s[..n], s[n..], symbol, abi);
      if deeper.Some? {
        SameBeyond(pre, s, n, deeper.value, symbol, abi);
      }
    } else if site.CallSite? {
      RewrittenStep(pre, s, symbol, abi);
    }
  }

  /** What is done behind a site that is passed over leaves that site alone. */
  lemma SameBeyond(pre: string, s: string, n: nat, v: string, symbol: string, abi: string)
    requires var site := SiteAt(pre, s, symbol);
      (site.Declaration? && n == site.after) || (site.CallSite? && n == site.end + 1)
    ensures var site := SiteAt(pre, s, symbol);
      Uncast(pre, s[..n] + v, symbol, abi)
      == (if site.CallSite? && !AllCast(Args(s, site), abi) then 1 else 0) + Uncast(pre + s[..n], v, symbol, abi)
  {
    hide SiteAt, AllCast, SplitTopLevel;
    var site := SiteAt(pre, s, symbol);
    var x, out := s[..n], s[..n] + v;
    assert x + s[n..] == s;
    SiteWithin(pre, x, s[n..], v, symbol);
    assert out[..n] == x && out[n..] == v;
    if site.CallSite? {
      assert out[site.start..site.end] == s[site.start..site.end];
    }
  }

  lemma RewrittenStep(pre: string, s: string, symbol: string, abi: string)
    requires Plain(abi) && SiteAt(pre, s, symbol).CallSite?
    requires !AllCast(Args(s, SiteAt(pre, s, symbol)), abi)
    ensures Uncast(pre, Rewritten(s, SiteAt(pre, s, symbol), abi), symbol, abi)
      == Uncast(pre, s, symbol, abi) - if Recognisable(abi) then 1 else 0
  {
    hide AllCast, Args, Plain, Recognisable, CastAll, Rewritten, SiteAt, Uncast;
    var site := SiteAt(pre, s, symbol);
    SiteCloses(pre, s, symbol);
    SiteRewritten(pre, s, symbol, abi);
    var list := Join(",", CastAll(Args(s, site), abi));
    var x, tail, out := s[..site.start], s[site.end + 1..], Rewritten(s, site, abi);
    assert s[site.end..] == ")" + tail;
    TailBehind(x, list, tail);
    UncastHere(pre, s, symbol, abi);
    UncastHere(pre, out, symbol, abi);
    UncastBehind(pre, s, site.end, pre + (x + list), tail, symbol, abi);
    Associative(pre, x + list, ")");
  }

  lemma UncastHere(pre: string, s: string, symbol: string, abi: string)
    requires SiteAt(pre, s, symbol).CallSite?
    ensures var site := SiteAt(pre, s, symbol);
      Uncast(pre, s, symbol, abi)
      == (if AllCast(Args(s, site), abi) then 0 else 1) + Uncast(pre + s[..site.end + 1], s[site.end
        + 1..], symbol, abi)
  {
    hide SiteAt, AllCast, Args;
  }

  lemma UncastBehind(pre: string, s: string, end: nat, other: string, tail: string, symbol: string, abi: string)
    requires end < |s| && s[end] == ')'
    ensures Uncast(pre + s[..end + 1], tail, symbol, abi) == Uncast(other + ")", tail, symbol, abi)
  {
    hide Uncast;
    BehindParenthesis(pre, s, end);
    UncastSame(pre + s[..end], other, "", tail, symbol, abi);
    assert pre + s[..end] + ")" + "" == pre + s[..end] + ")";
    assert other + ")" + "" == other + ")";
  }

  lemma TailBehind(x: string, list: string, tail: string)
    ensures var out := x + (list + (")" + tail));
      out[|x| + |list| + 1..] == tail && out[..|x| + |list| + 1] == x + list + ")"
  {
  }

  lemma BehindParenthesis(pre: string, s: string, end: nat)
    requires end < |s| && s[end] == ')'
    ensures pre + s[..end + 1] == pre + s[..end] + ")"
  {
    assert s[..end + 1] == s[..end] + ")";
  }

  lemma SiteCloses(pre: string, s: string, symbol: string)
    requires SiteAt(pre, s, symbol).CallSite?
    ensures s[SiteAt(pre, s, symbol).end] == ')'
  {
    hide Find, CloseParen, TrimEnd, Trim, EndsWith;
    var site := SiteAt(pre, s, symbol);
    ClosesAtParenthesis(s[site.start..], 1);
  }

  lemma {:induction false} ClosesAtParenthesis(s: string, depth: nat)
    requires depth > 0 && CloseParen(s, depth).Some?
    ensures s[CloseParen(s, depth).value] == ')'
  {
    var deeper := if s[0] == '(' then depth + 1 else if s[0] == ')' then depth - 1 else depth;
    if deeper > 0 {
      ClosesAtParenthesis(s[1..], deeper);
    }
  }

  // ---- main results ----

  /**
   * A step rewrites one argument list, cut at its top-level commas: each argument is kept or gets its cast, all else
   * stays.
   */
  lemma {:induction false} StepShape(pre: string, s: string, symbol: string, abi: string)
    returns (before: string, args: seq<string>, after: string)
    requires Insert(pre, s, symbol, abi).Some?
    ensures s == before + (Join(",", args) + after)
    ensures Insert(pre, s, symbol, abi).value == before + (Join(",", CastAll(args, abi)) + after)
    ensures EndsWith(before, symbol + "(") && after != "" && after[0] == ')'
    ensures args == SplitTopLevel(Join(",", args), 0) && !AllCast(args, abi)
    decreases |s|
  {
    hide SiteAt, AllCast, CastAll, SplitTopLevel, Join;
    var site := SiteAt(pre, s, symbol);
    if site.Declaration? || (site.CallSite? && AllCast(Args(s, site), abi)) {
      var n := if site.Declaration? then site.after else site.end + 1;
      var x := s[..n];
      before, args, after := StepShape(pre + x, s[n..], symbol, abi);
      assert s == x + s[n..];
      Associative(x, before, Join(",", args) + after);
      Associative(x, before, Join(",", CastAll(args, abi)) + after);
      assert (x + before)[|x + before| - |symbol + "("|..] == before[|before| - |symbol + "("|..];
      before := x + before;
    } else {
      before, args, after := s[..site.start], Args(s, site), s[site.end..];
      JoinedBack(s[site.start..site.end], 0);
      assert s == before + (s[site.start..site.end] + after);
      Associative(before, Join(",", CastAll(args, abi)), after);
      SiteCloses(pre, s, symbol);
      SiteBegins(pre, s, symbol);
    }
  }

  lemma SiteBegins(pre: string, s: string, symbol: string)
    requires SiteAt(pre, s, symbol).CallSite?
    ensures EndsWith(s[..SiteAt(pre, s, symbol).start], symbol + "(")
  {
    hide Find, CloseParen, TrimEnd, Trim;
    var needle := symbol + "(";
    FoundThere(s, needle);
    var start := SiteAt(pre, s, symbol).start;
    assert s[..start][start - |needle|..] == s[start - |needle|..start];
  }

  /** The source after `n` steps, if there are that many. */
  function Repeated(src: string, symbol: string, abi: string, n: nat): Option<string>
    decreases n
  {
    if n == 0 then Some(src)
    else
      match Insert("", src, symbol, abi)
      case Some(next) => Repeated(next, symbol, abi, n - 1)
      case None => None
  }

  /**
   * Repetition takes exactly one step for each site that is not fully cast, and ends; with an unrecognisable cast it
   * never ends.
   */
  lemma {:induction false} StepsTaken(src: string, symbol: string, abi: string, n: nat)
    requires Plain(abi)
    ensures var sites := Uncast("", src, symbol, abi);
      Repeated(src, symbol, abi, n).Some? <==> (if Recognisable(abi) then n <= sites else n == 0 || sites > 0)
    decreases n
  {
    hide Insert, Uncast, Plain, Recognisable;
    if n > 0 {
      StepCastsOneSite("", src, symbol, abi);
      var next := Insert("", src, symbol, abi);
      if next.Some? {
        StepsTaken(next.value, symbol, abi, n - 1);
      }
    }
  }
}
