/** The repair rules over source text: which symptoms they answer, and the text they hand back. */
module CastTexts {
  import opened Outcomes
  import opened Text
  import opened Search
  import opened ArgCasts
  import opened ReturnCasts
  import opened RepairLoops
  import opened CastLoops

  // ---- symptoms ----

  ghost predicate Occurs(s: string, needle: string) {
    exists front: string, back: string :: s == front + needle + back
  }

  lemma {:induction false} OccursExactly(s: string, needle: string)
    ensures Find(s, needle).Some? <==> Occurs(s, needle)
  {
    hide Find;
    if Find(s, needle).Some? {
      var i := Find(s, needle).value;
      FoundThere(s, needle);
      assert s == s[..i] + needle + s[i + |needle|..];
    }
    if Occurs(s, needle) {
      var front: string, back: string :| s == front + needle + back;
      if Find(s, needle) == None {
        NotFound(s, needle, |front|);
        assert false;
      }
    }
  }

  /** Both cast rules answer a build error that speaks of mismatched types, and nothing else. */
  lemma RulesAnswer(symptom: Symptom, candidate: string, symbol: string, abi: string, native: string)
    ensures var mismatch := symptom.BuildError?
        && (Occurs(symptom.stderr, "E0308") || Occurs(symptom.stderr, "mismatched types"));
      && ArgCastRule(symbol, abi)(symptom, candidate) == (if mismatch then Insert("", candidate, symbol, abi) else None)
      && ReturnCastRule(native)(symptom, candidate) == (if mismatch then InsertReturn(candidate, native) else None)
  {
    hide Insert, InsertReturn, Find, Occurs;
    if symptom.BuildError? {
      OccursExactly(symptom.stderr, "E0308");
      OccursExactly(symptom.stderr, "mismatched types");
    }
  }

  // ---- argument lists ----

  /** Every bracket closes one inside the argument, and a comma stands only inside brackets. */
  predicate Closed(s: string, depth: nat) {
    if s == "" then depth == 0
    else if s[0] in {'(', '[', '<'} then Closed(s[1..], depth + 1)
    else if s[0] in {')', ']', '>'} then depth > 0 && Closed(s[1..], depth - 1)
    else (s[0] == ',' ==> depth > 0) && Closed(s[1..], depth)
  }

  /** Every closing parenthesis closes one in the text. */
  predicate Paired(s: string, depth: nat) {
    if s == "" then depth == 0
    else if s[0] == '(' then Paired(s[1..], depth + 1)
    else if s[0] == ')' then depth > 0 && Paired(s[1..], depth - 1)
    else Paired(s[1..], depth)
  }

  lemma {:induction false} ClosedPassed(s: string, depth: nat, rest: string)
    requires Closed(s, depth)
    ensures SplitTopLevel(s + rest, depth) == Fronted(s, SplitTopLevel(rest, 0))
    decreases |s|
  {
    hide SplitTopLevel;
    if s == "" {
      assert s + rest == rest;
      FrontedNothing(SplitTopLevel(rest, 0));
    } else {
      var t := s + rest;
      assert t[1..] == s[1..] + rest;
      SplitStep(t, depth);
      ClosedPassed(s[1..], if s[0] in {'(', '[', '<'} then depth + 1
                           else if s[0] in {')', ']', '>'} then depth - 1 else depth, rest);
      FrontedTwice([s[0]], s[1..], SplitTopLevel(rest, 0));
      assert [s[0]] + s[1..] == s;
    }
  }

  predicate AllClosed(args: seq<string>) {
    forall i :: 0 <= i < |args| ==> Closed(args[i], 0)
  }

  /** A list of arguments splits at exactly the commas between them. */
  lemma {:induction false} ArgumentsSplit(args: seq<string>)
    requires args != [] && AllClosed(args)
    ensures SplitTopLevel(Join(",", args), 0) == args
  {
    hide SplitTopLevel, Closed;
    if |args| == 1 {
      ClosedPassed(args[0], 0, "");
      SplitNothing(0);
      assert args[0] + "" == args[0];
    } else {
      var more := Join(",", args[1..]);
      ArgumentsSplit(args[1..]);
      var rest := "," + more;
      ClosedPassed(args[0], 0, rest);
      SplitStep(rest, 0);
      assert rest[1..] == more;
      assert args[0] + "," + more == args[0] + rest;
      assert Fronted(args[0], [""] + args[1..]) == args by { assert args[0] + "" == args[0]; }
    }
  }

  lemma {:induction false} PairedPassed(s: string, depth: nat, rest: string)
    requires Paired(s, depth)
    ensures CloseParen(s + ")" + rest, depth + 1) == Some(|s|)
    decreases |s|
  {
    var t := s + ")" + rest;
    if s == "" {
      assert t[0] == ')';
    } else {
      assert t[1..] == s[1..] + ")" + rest;
      PairedPassed(s[1..], if s[0] == '(' then depth + 1 else if s[0] == ')' then depth - 1 else depth, rest);
    }
  }

  // ---- a call ----

  /** The arguments, each followed by its cast unless it ends in one. */
  function WithCasts(args: seq<string>, abi: string): seq<string> {
    seq(|args|, i requires 0 <= i < |args| =>
      if EndsWith(Trim(args[i]), "as " + abi) then args[i] else args[i] + " as " + abi)
  }

  lemma CastsAgree(args: seq<string>, abi: string)
    ensures CastAll(args, abi) == WithCasts(args, abi)
  {
    hide Trim, EndsWith;
    forall i | 0 <= i < |args| ensures CastAll(args, abi)[i] == WithCasts(args, abi)[i] {
      assert args[i] + " " + ("as " + abi) == args[i] + " as " + abi;
    }
  }

  /** The first call of `symbol` in a text, unless `fn` stands in front of it, with its argument list. */
  ghost predicate FirstCall(src: string, before: string, symbol: string, args: seq<string>, behind: string) {
    && src == before + (symbol + "(") + (Join(",", args) + ")" + behind)
    && Find(src, symbol + "(") == Some(|before|)
    && !EndsWith(TrimEnd(before), "fn")
    && args != [] && AllClosed(args) && Paired(Join(",", args), 0) && Trim(Join(",", args)) != ""
  }

  lemma CallFound(src: string, before: string, symbol: string, args: seq<string>, behind: string)
    requires FirstCall(src, before, symbol, args, behind)
    ensures var list := Join(",", args); var start := |before| + |symbol| + 1;
      && SiteAt("", src, symbol) == CallSite(start, start + |list|)
      && start + |list| < |src| && src[start..start + |list|] == list
      && src[..start] == before + (symbol + "(") && src[start + |list|..] == ")" + behind
  {
    hide Find, TrimEnd, Trim, Join, CloseParen, Paired, EndsWith, AllClosed;
    var list := Join(",", args);
    var needle := symbol + "(";
    var start := |before| + |needle|;
    var rest := list + ")" + behind;
    CutAt(before, needle + rest);
    CutAt(before + needle, rest);
    CutAt(list, ")" + behind);
    assert src == before + (needle + rest) && rest == list + (")" + behind) && "" + before == before;
    PairedPassed(list, 0, behind);
    assert src[start..start + |list|] == rest[..|list|];
    assert src[start + |list|..] == rest[|list|..];
  }

  lemma CutAt(front: string, back: string)
    ensures (front + back)[..|front|] == front && (front + back)[|front|..] == back
  {
  }

  /** In the first call every argument that is not cast gets its cast, and nothing else changes. */
  lemma CallCast(src: string, before: string, symbol: string, args: seq<string>, behind: string, abi: string)
    requires FirstCall(src, before, symbol, args, behind)
    requires exists i :: 0 <= i < |args| && !EndsWith(Trim(args[i]), "as " + abi)
    ensures Insert("", src, symbol, abi) ==
      Some(before + (symbol + "(") + Join(",", WithCasts(args, abi)) + (")" + behind))
  {
    hide Find, SiteAt, Trim, Join, SplitTopLevel, FirstCall, WithCasts, EndsWith, CastAll;
    CallFound(src, before, symbol, args, behind);
    CallSplits(src, before, symbol, args, behind);
    CastsAgree(args, abi);
    var i :| 0 <= i < |args| && !EndsWith(Trim(args[i]), "as " + abi);
    assert !IsCast(args[i], abi);
  }

  /** A first call whose arguments all end in the cast is passed over: only what stands behind it is searched. */
  lemma CastCallPassed(src: string, before: string, symbol: string, args: seq<string>, behind: string, abi: string)
    requires FirstCall(src, before, symbol, args, behind)
    requires forall i :: 0 <= i < |args| ==> EndsWith(Trim(args[i]), "as " + abi)
    ensures var front := before + (symbol + "(") + (Join(",", args) + ")");
      src == front + behind && Insert("", src, symbol, abi) == Behind(front, Insert(front, behind, symbol, abi))
  {
    hide Find, SiteAt, Trim, Join, SplitTopLevel, FirstCall, EndsWith;
    CallFound(src, before, symbol, args, behind);
    CallSplits(src, before, symbol, args, behind);
    var list := Join(",", args);
    var front := before + (symbol + "(") + (list + ")");
    var end := |before| + |symbol| + 1 + |list|;
    CutAt(src[..end], src[end..]);
    assert src == src[..end] + src[end..] && src[..end] == before + (symbol + "(") + list;
    assert src == front + behind;
    CutAt(front, behind);
    assert |front| == end + 1 && "" + front == front;
    assert AllCast(args, abi);
  }

  lemma CallSplits(src: string, before: string, symbol: string, args: seq<string>, behind: string)
    requires FirstCall(src, before, symbol, args, behind)
    ensures SplitTopLevel(Join(",", args), 0) == args
  {
    ArgumentsSplit(args);
  }

  lemma SliceOfRest(s: string, start: nat, k: nat)
    requires start + k <= |s|
    ensures s[start..start + k] == s[start..][..k]
  {
  }

  lemma SiteUnfolds(src: string, symbol: string, at: nat, start: nat)
    requires Find(src, symbol + "(") == Some(at) && start == at + |symbol + "("|
    ensures at <= start <= |src|
    ensures SiteAt("", src, symbol) ==
      if EndsWith(TrimEnd("" + src[..at]), "fn") then Declaration(start)
      else match CloseParen(src[start..], 1)
           case None => Unexpected
           case Some(k) => if Trim(src[start..start + k]) == "" then Unexpected else CallSite(start, start + k)
  {
    hide Trim, CloseParen, EndsWith, TrimEnd, Find;
  }

  /** The first call has nothing between its parentheses: there is nothing to cast. */
  lemma NothingToCast(before: string, symbol: string, blanks: string, behind: string, abi: string)
    requires Blank(blanks) && !EndsWith(TrimEnd(before), "fn")
    requires Find(before + (symbol + "(") + (blanks + ")" + behind), symbol + "(") == Some(|before|)
    ensures Insert("", before + (symbol + "(") + (blanks + ")" + behind), symbol, abi) == None
  {
    hide Find, Trim, CloseParen, EndsWith, TrimEnd, SiteAt;
    var front, rest := before + (symbol + "("), blanks + ")" + behind;
    FrontOf(before, symbol + "(", rest);
    CutAt(front, rest);
    SiteUnfolds(front + rest, symbol, |before|, |front|);
    BlankPaired(blanks);
    PairedPassed(blanks, 0, behind);
    SliceOfRest(front + rest, |front|, |blanks|);
    CutAt(blanks, ")" + behind);
    assert rest == blanks + (")" + behind);
    TrimOfBlank(blanks);
  }

  lemma FrontOf(before: string, needle: string, rest: string)
    ensures "" + (before + needle + rest)[..|before|] == before
  {
  }

  /** Nothing closes the first call. */
  lemma NothingCloses(before: string, symbol: string, behind: string, abi: string)
    requires !EndsWith(TrimEnd(before), "fn") && ')' !in behind
    requires Find(before + (symbol + "(") + behind, symbol + "(") == Some(|before|)
    ensures Insert("", before + (symbol + "(") + behind, symbol, abi) == None
  {
    hide Find, Trim, CloseParen, EndsWith, TrimEnd, SiteAt;
    var front := before + (symbol + "(");
    FrontOf(before, symbol + "(", behind);
    CutAt(front, behind);
    SiteUnfolds(front + behind, symbol, |before|, |front|);
    NeverClosed(behind, 1);
  }

  lemma {:induction false} BlankPaired(blanks: string)
    requires Blank(blanks)
    ensures Paired(blanks, 0)
  {
    if blanks != "" {
      BlankPaired(blanks[1..]);
    }
  }

  lemma {:induction false} NeverClosed(s: string, depth: nat)
    requires depth > 0
    ensures ')' !in s ==> CloseParen(s, depth) == None
  {
    if s != "" {
      assert s[0] in s;
      NeverClosed(s[1..], if s[0] == '(' then depth + 1 else depth);
    }
  }

  /** A declaration is passed over: what stands behind its parenthesis is searched alone. */
  lemma DeclarationPassed(before: string, blanks: string, symbol: string, behind: string, abi: string)
    requires Blank(blanks)
    requires Find(before + "fn" + blanks + (symbol + "(") + behind, symbol + "(") == Some(|before| + 2 + |blanks|)
    ensures var front := before + "fn" + blanks + (symbol + "(");
      Insert("", front + behind, symbol, abi) == Behind(front, Insert(front, behind, symbol, abi))
  {
    hide Find, CloseParen, Insert;
    var head := before + "fn" + blanks;
    var front := head + (symbol + "(");
    var src := front + behind;
    assert "" + src[..|head|] == head;
    TrimEndBlank(before + "fn", blanks);
    EndsInFn(before);
    assert SiteAt("", src, symbol) == Declaration(|front|);
    assert src[..|front|] == front && src[|front|..] == behind;
    assert "" + front == front;
    InsertAtDeclaration(src, symbol, abi, |front|);
  }

  lemma EndsInFn(before: string)
    ensures TrimEnd(before + "fn") == before + "fn" && EndsWith(before + "fn", "fn")
  {
    var s := before + "fn";
    assert s[|s| - 1] == 'n' && s[|s| - 2..] == "fn";
  }

  lemma InsertAtDeclaration(src: string, symbol: string, abi: string, after: nat)
    requires SiteAt("", src, symbol) == Declaration(after)
    ensures after <= |src|
    ensures Insert("", src, symbol, abi) == Behind(src[..after], Insert("" + src[..after], src[after..], symbol, abi))
  {
    hide SiteAt;
  }

  // ---- the return line ----

  /** No newline inside, no carriage return at the end. */
  predicate OneLine(line: string) {
    '\n' !in line && (line != "" ==> line[|line| - 1] != '\r')
  }

  lemma {:induction false} FirstAt(lines: seq<string>, pos: nat)
    requires pos < |lines| && IsReturn(lines[pos]) && forall i :: 0 <= i < pos ==> !IsReturn(lines[i])
    ensures FirstReturn(lines) == Some(pos)
  {
    hide IsReturn;
    if pos > 0 {
      FirstAt(lines[1..], pos - 1);
    }
  }

  /** The lines of joined lines, with a newline at the end or with a last line that is not empty. */
  lemma JoinedLines(lines: seq<string>, ended: bool)
    requires lines != [] && (ended || lines[|lines| - 1] != "") && forall i :: 0 <= i < |lines| ==> OneLine(lines[i])
    ensures Lines(Join("\n", lines) + if ended then "\n" else "") == lines
  {
    hide Split, Join, Lines, WithoutCarriageReturn, OneLine;
    var text := Join("\n", lines);
    forall k | 0 <= k < |lines| ensures Without(lines[k], {'\n'}) && WithoutCarriageReturn(lines[k]) == lines[k] {
      OneLineKept(lines[k]);
    }
    SplitJoined('\n', lines);
    if ended {
      SplitAtSeparator(text, '\n', "", NEWLINE);
      SplitUnbroken("", NEWLINE);
      assert text + ['\n'] + "" == text + "\n";
      LinesOfPieces(text + "\n", lines, true);
    } else {
      assert text + "" == text && lines + [] == lines;
      LinesOfPieces(text, lines, false);
    }
  }

  lemma OneLineKept(line: string)
    requires OneLine(line)
    ensures Without(line, {'\n'}) && WithoutCarriageReturn(line) == line
  {
  }

  lemma LinesOfPieces(text: string, lines: seq<string>, ended: bool)
    requires Split(text, NEWLINE) == lines + if ended then [""] else []
    requires lines != [] && (ended || lines[|lines| - 1] != "")
    requires forall i :: 0 <= i < |lines| ==> WithoutCarriageReturn(lines[i]) == lines[i]
    ensures Lines(text) == lines
  {
    hide Split, WithoutCarriageReturn;
  }

  lemma {:induction false} JoinedEnds(lines: seq<string>)
    requires lines != [] && lines[|lines| - 1] != "" && '\n' !in lines[|lines| - 1]
    ensures !EndsWith(Join("\n", lines), "\n")
  {
    if |lines| == 1 {
      assert lines[0][|lines[0]| - 1] in lines[0];
    } else {
      JoinedEnds(lines[1..]);
      var more := Join("\n", lines[1..]);
      JoinedVisible(lines[1..]);
      var s := lines[0] + "\n" + more;
      assert s[|s| - 1..] == more[|more| - 1..];
    }
  }

  lemma {:induction false} JoinedVisible(lines: seq<string>)
    requires lines != [] && lines[|lines| - 1] != ""
    ensures Join("\n", lines) != ""
  {
    if |lines| > 1 {
      JoinedVisible(lines[1..]);
    }
  }

  /** The first line that says `__r` and nothing else gets the cast behind it, at the same indentation. */
  lemma ReturnCast(lines: seq<string>, pos: nat, indent: string, blanks: string, ended: bool, native: string)
    requires pos < |lines| && lines[pos] == indent + "__r" + blanks && Blank(indent) && Blank(blanks)
    requires forall i :: 0 <= i < pos ==> Trim(lines[i]) != "__r"
    requires (ended || lines[|lines| - 1] != "") && forall i :: 0 <= i < |lines| ==> OneLine(lines[i])
    ensures var tail := if ended then "\n" else "";
      InsertReturn(Join("\n", lines) + tail, native) ==
      Some(Join("\n", lines[pos := indent + "__r as " + native]) + tail)
  {
    hide Lines, Join, Trim, FirstReturn, Indent, EndsWith, OneLine, InsertReturn;
    BareReturn(indent, blanks);
    JoinedLines(lines, ended);
    FirstAt(lines, pos);
    EndsKept(lines, ended);
    CastAt(Join("\n", lines) + (if ended then "\n" else ""), lines, pos, indent, native);
  }

  lemma CastAt(src: string, lines: seq<string>, pos: nat, indent: string, native: string)
    requires Lines(src) == lines && FirstReturn(lines) == Some(pos) && pos < |lines| && Indent(lines[pos]) == indent
    ensures InsertReturn(src, native) ==
      Some(Join("\n", lines[pos := indent + "__r as " + native]) + if EndsWith(src, "\n") then "\n" else "")
  {
    hide Lines, Join, FirstReturn, Indent, EndsWith;
    assert indent + ("__r as " + native) == indent + "__r as " + native;
  }

  lemma BareReturn(indent: string, blanks: string)
    requires Blank(indent) && Blank(blanks)
    ensures var line := indent + "__r" + blanks; IsReturn(line) && line != "" && Indent(line) == indent
  {
    var line := indent + "__r" + blanks;
    TrimPadded(indent, "__r", blanks);
    assert TrimStart(line) == "__r" + blanks;
    assert line[..|line| - |"__r" + blanks|] == indent;
  }

  lemma EndsKept(lines: seq<string>, ended: bool)
    requires lines != [] && (ended || lines[|lines| - 1] != "") && forall i :: 0 <= i < |lines| ==> OneLine(lines[i])
    ensures EndsWith(Join("\n", lines) + (if ended then "\n" else ""), "\n") <==> ended
  {
    hide Join;
    var text := Join("\n", lines);
    if ended {
      var s := text + "\n";
      assert s[|s| - 1..] == "\n";
    } else {
      assert OneLine(lines[|lines| - 1]);
      JoinedEnds(lines);
      assert text + "" == text;
    }
  }
}
