/** `insert_arg_cast` and `split_top_level_args` of the repair rules. */
module ArgCasts {
  import opened Outcomes
  import opened Text
  import opened Search

  // ---- arguments ----

  function DepthAfter(c: char, depth: int): int {
    if c in {'(', '[', '<'} then depth + 1 else if c in {')', ']', '>'} then depth - 1 else depth
  }

  /** The pieces between commas outside every bracket; a stray closer takes the depth below zero. */
  function SplitTopLevel(s: string, depth: int): (pieces: seq<string>)
    ensures |pieces| >= 1
  {
    if s == "" then [""]
    else if s[0] == ',' && depth == 0 then [""] + SplitTopLevel(s[1..], 0)
    else
      var rest := SplitTopLevel(s[1..], DepthAfter(s[0], depth));
      [[s[0]] + rest[0]] + rest[1..]
  }

  /** The pieces the loop has pushed, and the ones still to come from `start`, scanned up to `i`. */
  ghost function Pending(args: string, out: seq<string>, start: nat, i: nat, depth: int): seq<string>
    requires start <= i <= |args|
  {
    out + Fronted(args[start..i], SplitTopLevel(args[i..], depth))
  }

  lemma PendingStep(args: string, out: seq<string>, start: nat, i: nat, depth: int)
    requires start <= i < |args|
    ensures Pending(args, out, start, i, depth) ==
      if args[i] == ',' && depth == 0 then Pending(args, out + [args[start..i]], i + 1, i + 1, 0)
      else Pending(args, out, start, i + 1, DepthAfter(args[i], depth))
  {
    hide SplitTopLevel;
    SplitStep(args[i..], depth);
    assert args[i..][1..] == args[i + 1..];
    var x := args[start..i];
    if args[i] == ',' && depth == 0 {
      var rest := SplitTopLevel(args[i + 1..], 0);
      assert Fronted(x, [""] + rest) == [x] + rest by { assert x + "" == x; }
      FrontedNothing(rest);
      assert args[i + 1..i + 1] == "";
      Associative(out, [x], rest);
    } else {
      FrontedTwice(x, [args[i]], SplitTopLevel(args[i + 1..], DepthAfter(args[i], depth)));
      assert x + [args[i]] == args[start..i + 1];
    }
  }

  lemma PendingStarts(args: string)
    ensures Pending(args, [], 0, 0, 0) == SplitTopLevel(args, 0)
  {
    hide SplitTopLevel;
    assert args[0..] == args && args[0..0] == "";
    FrontedNothing(SplitTopLevel(args, 0));
  }

  lemma PendingEnds(args: string, out: seq<string>, start: nat, depth: int)
    requires start <= |args|
    ensures Pending(args, out, start, |args|, depth) == out + [args[start..]]
  {
    hide SplitTopLevel;
    assert args[|args|..] == "";
    SplitNothing(depth);
    assert args[start..|args|] == args[start..];
    assert Fronted(args[start..], [""]) == [args[start..]] by { assert args[start..] + "" == args[start..]; }
  }

  method SplitTopLevelArgs(args: string) returns (out: seq<string>)
    ensures out == SplitTopLevel(args, 0)
  {
    hide SplitTopLevel, Pending;
    var depth, start := 0, 0;
    out := [];
    PendingStarts(args);
    for i := 0 to |args|
      invariant start <= i
      invariant Pending(args, out, start, i, depth) == SplitTopLevel(args, 0)
    {
      PendingStep(args, out, start, i, depth);
      if args[i] == ',' && depth == 0 {
        out := out + [args[start..i]];
        start := i + 1;
      } else {
        depth := DepthAfter(args[i], depth);
      }
    }
    PendingEnds(args, out, start, depth);
    out := out + [args[start..]];
  }

  /** `x` put in front of the first piece. */
  function Fronted(x: string, pieces: seq<string>): seq<string>
    requires |pieces| >= 1
  {
    [x + pieces[0]] + pieces[1..]
  }

  lemma FrontedTwice(x: string, y: string, pieces: seq<string>)
    requires |pieces| >= 1
    ensures Fronted(x, Fronted(y, pieces)) == Fronted(x + y, pieces)
  {
    Associative(x, y, pieces[0]);
    assert Fronted(y, pieces)[1..] == pieces[1..];
  }

  lemma FrontedNothing(pieces: seq<string>)
    requires |pieces| >= 1
    ensures Fronted("", pieces) == pieces
  {
    assert "" + pieces[0] == pieces[0];
  }

  lemma SplitStep(s: string, depth: int)
    requires s != ""
    ensures SplitTopLevel(s, depth) ==
      if s[0] == ',' && depth == 0 then [""] + SplitTopLevel(s[1..], 0)
      else Fronted([s[0]], SplitTopLevel(s[1..], DepthAfter(s[0], depth)))
  {
  }

  lemma SplitNothing(depth: int)
    ensures SplitTopLevel("", depth) == [""]
  {
  }

  /** Where the parenthesis that brings the depth to zero stands. */
  function CloseParen(s: string, depth: nat): (r: Option<nat>)
    requires depth > 0
    ensures r.Some? ==> r.value < |s|
  {
    if s == "" then None
    else if s[0] == '(' then Later(1, CloseParen(s[1..], depth + 1))
    else if s[0] != ')' then Later(1, CloseParen(s[1..], depth))
    else if depth == 1 then Some(0)
    else Later(1, CloseParen(s[1..], depth - 1))
  }

  lemma CloseParenStep(c: char, s: string, depth: nat)
    requires depth > 0
    ensures CloseParen([c] + s, depth) ==
      if c == '(' then Later(1, CloseParen(s, depth + 1))
      else if c != ')' then Later(1, CloseParen(s, depth))
      else if depth == 1 then Some(0)
      else Later(1, CloseParen(s, depth - 1))
  {
    assert ([c] + s)[1..] == s;
  }

  method FindCloseParen(src: string, start: nat) returns (idx: nat, closed: bool)
    requires start <= |src|
    ensures closed <==> CloseParen(src[start..], 1).Some?
    ensures closed ==> idx == start + CloseParen(src[start..], 1).value
  {
    var depth := 1;
    idx := start;
    assert Later(0, CloseParen(src[start..], 1)) == CloseParen(src[start..], 1);
    while idx < |src|
      invariant start <= idx <= |src| && depth > 0
      invariant CloseParen(src[start..], 1) == Later(idx - start, CloseParen(src[idx..], depth))
    {
      assert src[idx..][1..] == src[idx + 1..];
      if src[idx] == '(' {
        depth := depth + 1;
      } else if src[idx] == ')' {
        depth := depth - 1;
        if depth == 0 {
          return idx, true;
        }
      }
      idx := idx + 1;
    }
    return idx, false;
  }

  // ---- casts ----

  function Suffix(abi: string): string {
    "as " + abi
  }

  predicate IsCast(arg: string, abi: string) {
    EndsWith(Trim(arg), Suffix(abi))
  }

  function Cast(arg: string, abi: string): string {
    if IsCast(arg, abi) then arg else arg + " " + Suffix(abi)
  }

  function CastAll(args: seq<string>, abi: string): (r: seq<string>)
    ensures |r| == |args|
  {
    seq(|args|, i requires 0 <= i < |args| => Cast(args[i], abi))
  }

  predicate AllCast(args: seq<string>, abi: string) {
    forall i :: 0 <= i < |args| ==> IsCast(args[i], abi)
  }

  // ---- the scan for a call site ----

  /** What stands at the next occurrence of `symbol(` in `s`, with `pre` before it. */
  datatype Site =
    | NoSite
    | Declaration(after: nat)                        // `fn symbol(`
    | Unexpected                                     // no closing parenthesis, or no argument
    | CallSite(start: nat, end: nat)                 // the argument list is s[start..end]

  function SiteAt(pre: string, s: string, symbol: string): (site: Site)
    ensures site.Declaration? ==> 0 < site.after <= |s|
    ensures site.CallSite? ==> 0 < site.start <= site.end < |s|
  {
    var needle := symbol + "(";
    match Find(s, needle)
    case None => NoSite
    case Some(rel) =>
      var start := rel + |needle|;
      if EndsWith(TrimEnd(pre + s[..rel]), "fn") then Declaration(start)
      else
        match CloseParen(s[start..], 1)
        case None => Unexpected
        case Some(k) => if Trim(s[start..start + k]) == "" then Unexpected else CallSite(start, start + k)
  }

  function Args(s: string, site: Site): seq<string>
    requires site.CallSite? && site.start <= site.end <= |s|
  {
    SplitTopLevel(s[site.start..site.end], 0)
  }

  function Rewritten(s: string, site: Site, abi: string): string
    requires site.CallSite? && site.start <= site.end <= |s|
  {
    s[..site.start] + Join(",", CastAll(Args(s, site), abi)) + s[site.end..]
  }

  /** `s` with its first call site that is not fully cast rewritten; declarations and cast sites are passed over. */
  function Insert(pre: string, s: string, symbol: string, abi: string): Option<string>
    decreases |s|
  {
    var site := SiteAt(pre, s, symbol);
    match site
    case NoSite => None
    case Unexpected => None
    case Declaration(after) => Behind(s[..after], Insert(pre + s[..after], s[after..], symbol, abi))
    case CallSite(_, end) =>
      if AllCast(Args(s, site), abi) then Behind(s[..end + 1], Insert(pre + s[..end + 1], s[end + 1..], symbol, abi))
      else Some(Rewritten(s, site, abi))
  }

  function Behind(x: string, r: Option<string>): Option<string> {
    match r
    case Some(y) => Some(x + y)
    case None => None
  }

  lemma BehindNothing(r: Option<string>)
    ensures Behind("", r) == r
  {
    if r.Some? {
      assert "" + r.value == r.value;
    }
  }

  lemma BehindTwice(x: string, y: string, r: Option<string>)
    ensures Behind(x, Behind(y, r)) == Behind(x + y, r)
  {
    if r.Some? {
      Associative(x, y, r.value);
    }
  }

  method CastArguments(args: string, abi: string) returns (rebuilt: seq<string>, changed: bool)
    ensures rebuilt == CastAll(SplitTopLevel(args, 0), abi)
    ensures changed <==> !AllCast(SplitTopLevel(args, 0), abi)
  {
    hide SplitTopLevel, IsCast;
    var pieces := SplitTopLevelArgs(args);
    rebuilt, changed := [], false;
    for i := 0 to |pieces|
      invariant rebuilt == CastAll(pieces[..i], abi)
      invariant changed <==> !AllCast(pieces[..i], abi)
    {
      assert pieces[..i + 1] == pieces[..i] + [pieces[i]];
      if IsCast(pieces[i], abi) {
        rebuilt := rebuilt + [pieces[i]];
      } else {
        changed := true;
        rebuilt := rebuilt + [pieces[i] + " " + Suffix(abi)];
      }
    }
    assert pieces[..|pieces|] == pieces;
  }

  /** The call site the scan comes to from `search`, if any. */
  method NextSite(src: string, search: nat, symbol: string) returns (site: Site)
    requires search <= |src|
    ensures site == SiteAt(src[..search], src[search..], symbol)
  {
    hide CloseParen, Find, TrimEnd, EndsWith, Trim;
    var needle := symbol + "(";
    ghost var s := src[search..];
    var rel := Find(src[search..], needle);
    if rel == None {
      return NoSite;
    }
    var at := search + rel.value;
    var start := at + |needle|;
    assert src[..at] == src[..search] + s[..rel.value];
    if EndsWith(TrimEnd(src[..at]), "fn") {
      return Declaration(start - search);
    }
    assert src[start..] == s[start - search..];
    var end, closed := FindCloseParen(src, start);
    if !closed {
      return Unexpected;
    }
    assert src[start..end] == s[start - search..end - search];
    return if Trim(src[start..end]) == "" then Unexpected else CallSite(start - search, end - search);
  }

  method InsertArgCast(src: string, symbol: string, abi: string) returns (r: Option<string>)
    ensures r == Insert("", src, symbol, abi)
  {
    hide SplitTopLevel, CastAll, AllCast, SiteAt, Insert, Join;
    var search := 0;
    assert src[0..] == src && src[..0] == "";
    BehindNothing(Insert("", src, symbol, abi));
    while true
      invariant search <= |src|
      invariant Insert("", src, symbol, abi) == Behind(src[..search], Insert(src[..search], src[search..], symbol, abi))
      decreases |src| - search
    {
      InsertStep(src, search, symbol, abi);
      var site := NextSite(src, search, symbol);
      match site {
        case NoSite => return None;
        case Unexpected => return None;
        case Declaration(after) =>
          search := search + after;
        case CallSite(start, end) =>
          var args := src[search + start..search + end];
          assert args == src[search..][start..end];
          var rebuilt, changed := CastArguments(args, abi);
          if changed {
            return Some(src[..search + start] + Join(",", rebuilt) + src[search + end..]);
          }
          search := search + end + 1;
      }
    }
  }

  /** One turn of the loop, with the scanned text kept in front. */
  lemma InsertStep(src: string, search: nat, symbol: string, abi: string)
    requires search <= |src|
    ensures var s := src[search..];
      var site := SiteAt(src[..search], s, symbol);
      Behind(src[..search], Insert(src[..search], s, symbol, abi)) ==
      match site
      case NoSite => None
      case Unexpected => None
      case Declaration(after) =>
        Behind(src[..search + after], Insert(src[..search + after], src[search + after..], symbol, abi))
      case CallSite(start, end) =>
        if AllCast(Args(s, site), abi)
        then Behind(src[..search + end + 1], Insert(src[..search + end + 1], src[search + end + 1..], symbol, abi))
        else Some(src[..search + start] + Join(",", CastAll(Args(s, site), abi)) + src[search + end..])
  {
    hide SiteAt, AllCast, CastAll, Join, Args;
    var s, done := src[search..], src[..search];
    var site := SiteAt(done, s, symbol);
    if site.Declaration? || (site.CallSite? && AllCast(Args(s, site), abi)) {
      var n := if site.Declaration? then site.after else site.end + 1;
      assert s[n..] == src[search + n..];
      assert done + s[..n] == src[..search + n];
      BehindTwice(done, s[..n], Insert(src[..search + n], src[search + n..], symbol, abi));
    } else if site.CallSite? {
      var middle := Join(",", CastAll(Args(s, site), abi));
      assert s[site.end..] == src[search + site.end..];
      assert done + s[..site.start] == src[..search + site.start];
      assert done + (s[..site.start] + middle + s[site.end..]) == done + s[..site.start] + middle + s[site.end..];
    }
  }
}
