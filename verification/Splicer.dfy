/** `splice_line_continuations`: the run-counting loop and the two-state reading of POSIX section 2.2.1. */
module Splicer {
  import opened Text

  /**
   * A backslash pairs with the next character; the pair of a backslash and a newline vanishes,
   * every other character is kept.
   */
  function Splice(s: string): string {
    if s == "" then ""
    else if s[0] != '\\' then [s[0]] + Splice(s[1..])
    else if |s| == 1 then s
    else if s[1] == '\n' then Splice(s[2..])
    else s[..2] + Splice(s[2..])
  }

  /** Backslashes at the end of a line. */
  function TailRun(line: string): (n: nat)
    ensures n <= |line|
  {
    if line != "" && line[|line| - 1] == '\\' then 1 + TailRun(line[..|line| - 1]) else 0
  }

  predicate Continues(line: string) {
    TailRun(line) % 2 == 1
  }

  /** No line but the last, which no newline ends, has an odd run of backslashes before its newline. */
  ghost predicate NoContinuation(s: string) {
    var lines := Split(s, NEWLINE);
    forall k :: 0 <= k < |lines| - 1 ==> !Continues(lines[k])
  }

  function Backslashes(n: nat): (r: string)
    ensures |r| == n
    ensures forall i :: 0 <= i < n ==> r[i] == '\\'
  {
    if n == 0 then "" else ['\\'] + Backslashes(n - 1)
  }

  /** Backslashes in front of more backslashes stay, two at a time. */
  lemma {:induction false} SplicePairs(s: string, pairs: nat)
    requires 2 * pairs <= |s|
    requires forall i :: 0 <= i < 2 * pairs ==> s[i] == '\\'
    ensures Splice(s) == Backslashes(2 * pairs) + Splice(s[2 * pairs..])
    decreases pairs
  {
    if pairs > 0 {
      var n := 2 * pairs;
      SplicePairs(s[2..], pairs - 1);
      assert s[2..][n - 2..] == s[n..];
      assert s[..2] == "\\\\";
      assert Backslashes(n) == "\\\\" + Backslashes(n - 2);
    }
  }

  /** The last backslash of an odd run. */
  lemma SpliceLone(s: string)
    requires s != "" && s[0] == '\\' && (|s| > 1 ==> s[1] != '\\')
    ensures Splice(s) == if |s| > 1 && s[1] == '\n' then Splice(s[2..]) else "\\" + Splice(s[1..])
  {
    if |s| > 1 {
      assert s[1..][1..] == s[2..];
      assert s[..2] == "\\" + [s[1]];
    }
  }

  lemma SpliceOther(s: string)
    requires s != "" && s[0] != '\\'
    ensures Splice(s) == [s[0]] + Splice(s[1..])
  {
  }

  predicate IsContinuation(s: string, run: nat) {
    run < |s| && s[run] == '\n' && run % 2 == 1
  }

  /** What the automaton does with a whole run of backslashes. */
  lemma SpliceRun(s: string, run: nat)
    requires 0 < run <= |s|
    requires forall i :: 0 <= i < run ==> s[i] == '\\'
    requires run < |s| ==> s[run] != '\\'
    ensures Splice(s) == if IsContinuation(s, run) then Backslashes(run - 1) + Splice(s[run + 1..])
                         else Backslashes(run) + Splice(s[run..])
  {
    var pairs := run / 2;
    assert run == 2 * pairs || run == 2 * pairs + 1;
    SplicePairs(s, pairs);
    if run == 2 * pairs + 1 {
      SpliceOddRun(s, run);
    }
  }

  lemma SpliceOddRun(s: string, run: nat)
    requires 0 < run <= |s| && s[run - 1] == '\\'
    requires run < |s| ==> s[run] != '\\'
    requires Splice(s) == Backslashes(run - 1) + Splice(s[run - 1..])
    ensures Splice(s) == if run < |s| && s[run] == '\n' then Backslashes(run - 1) + Splice(s[run + 1..])
                         else Backslashes(run) + Splice(s[run..])
  {
    hide Splice;
    var t := s[run - 1..];
    SpliceLone(t);
    assert t[1..] == s[run..];
    assert Backslashes(run) == Backslashes(run - 1) + "\\";
    if |t| > 1 {
      assert t[2..] == s[run + 1..];
    }
  }

  method SpliceLineContinuations(source: string) returns (out: string)
    ensures out == Splice(source)
  {
    hide Splice;
    out := "";
    var i := 0;
    assert source[0..] == source;
    while i < |source|
      invariant 0 <= i <= |source|
      invariant Splice(source) == out + Splice(source[i..])
    {
      ghost var s := source[i..];
      var more: string;
      var n: nat;
      if source[i] == '\\' {
        var run := CountBackslashes(source, i);
        SpliceRun(s, run);
        if i + run < |source| && source[i + run] == '\n' && run % 2 == 1 {
          more, n := Backslashes(run - 1), run + 1;
        } else {
          more, n := Backslashes(run), run;
        }
      } else {
        SpliceOther(s);
        more, n := [source[i]], 1;
      }
      assert s[n..] == source[i + n..];
      assert out + (more + Splice(source[i + n..])) == out + more + Splice(source[i + n..]);
      out := out + more;
      i := i + n;
    }
    SpliceEmpty();
    assert source[i..] == "";
  }

  lemma SpliceEmpty()
    ensures Splice("") == ""
  {
  }

  method CountBackslashes(source: string, i: nat) returns (run: nat)
    requires i < |source| && source[i] == '\\'
    ensures 0 < run <= |source| - i
    ensures forall k :: 0 <= k < run ==> source[i..][k] == '\\'
    ensures i + run < |source| ==> source[i + run] != '\\'
  {
    run := 0;
    while i + run < |source| && source[i + run] == '\\'
      invariant i + run <= |source|
      invariant forall k :: i <= k < i + run ==> source[k] == '\\'
    {
      run := run + 1;
    }
  }

  // ---- properties ----

  lemma {:induction false} TailRunShape(line: string)
    ensures forall i :: |line| - TailRun(line) <= i < |line| ==> line[i] == '\\'
    ensures TailRun(line) < |line| ==> line[|line| - TailRun(line) - 1] != '\\'
  {
    if line != "" && line[|line| - 1] == '\\' {
      TailRunShape(line[..|line| - 1]);
    }
  }

  lemma {:induction false} TailRunAppend(a: string, b: string)
    ensures TailRun(a + b) == if TailRun(b) == |b| then |b| + TailRun(a) else TailRun(b)
    decreases |b|
  {
    if b == "" {
      assert a + b == a;
    } else if b[|b| - 1] == '\\' {
      assert (a + b)[..|a + b| - 1] == a + b[..|b| - 1];
      TailRunAppend(a, b[..|b| - 1]);
    }
  }

  /** What the automaton keeps whole: a character that is no backslash, or a backslash and its partner. */
  ghost predicate Unit(u: string) {
    || (|u| == 1 && u[0] != '\\')
    || (|u| == 2 && u[0] == '\\' && u[1] != '\n')
  }

  lemma UnitIsKept(u: string, t: string)
    requires Unit(u)
    ensures Splice(u + t) == u + Splice(t)
  {
    var s := u + t;
    assert s[|u|..] == t;
    if |u| == 1 {
      assert s[0] != '\\';
    } else {
      assert s[..2] == u;
      assert s[0] == '\\' && s[1] != '\n';
    }
  }

  lemma UnitKeepsTail(u: string, t: string)
    requires Unit(u)
    ensures Continues(u + t) <==> Continues(t)
  {
    TailRunAppend(u, t);
    assert TailRun(u) == if |u| == 2 && u[1] == '\\' then 2 else 0 by {
      TailRunShape(u);
    }
  }

  lemma FirstUnit(line: string) returns (u: string, t: string)
    requires Without(line, NEWLINE) && line != "" && line != "\\"
    ensures Unit(u) && line == u + t && Without(t, NEWLINE)
  {
    var n := if line[0] == '\\' then 2 else 1;
    u, t := line[..n], line[n..];
    if n == 2 {
      assert u[1] == line[1];
    }
  }

  /** One physical line and its newline: kept, or joined to what follows. */
  lemma {:induction false} SpliceLine(line: string, rest: string)
    requires Without(line, NEWLINE)
    ensures Splice(line + "\n" + rest) ==
            if Continues(line) then line[..|line| - 1] + Splice(rest) else line + "\n" + Splice(rest)
    decreases |line|
  {
    hide Unit, Splice, TailRun;
    var s := line + "\n" + rest;
    if line == "" {
      SpliceOther(s);
      EmptyDoesNotContinue();
      assert s[1..] == rest;
    } else if line == "\\" {
      SpliceLone(s);
      LoneBackslashContinues();
      assert s[2..] == rest && line[..0] == "";
    } else {
      var u, t := FirstUnit(line);
      SpliceLine(t, rest);
      UnitIsKept(u, t + "\n" + rest);
      UnitKeepsTail(u, t);
      assert s == u + (t + "\n" + rest);
      if Continues(line) {
        EmptyDoesNotContinue();
        assert line[..|line| - 1] == u + t[..|t| - 1];
      }
    }
  }

  lemma LoneBackslashContinues()
    ensures Continues("\\")
  {
    assert "\\"[..0] == "";
  }

  lemma EmptyDoesNotContinue()
    ensures !Continues("")
  {
  }

  lemma {:induction false} SpliceLastLine(line: string)
    requires Without(line, NEWLINE)
    ensures Splice(line) == line
    decreases |line|
  {
    if line != "" {
      if line[0] != '\\' {
        SpliceLastLine(line[1..]);
      } else if |line| > 1 {
        SpliceLastLine(line[2..]);
      }
    }
  }

  /** Cuts a text at its first newline. */
  lemma FirstLine(s: string) returns (line: string, rest: string)
    requires |Split(s, NEWLINE)| > 1
    ensures s == line + "\n" + rest && Without(line, NEWLINE)
    ensures Split(s, NEWLINE) == [line] + Split(rest, NEWLINE)
    ensures |rest| < |s|
  {
    match IndexOf(s, '\n') {
      case None =>
        SplitUnbroken(s, NEWLINE);
        assert false;
      case Some(k) =>
        line, rest := s[..k], s[k + 1..];
        assert s == line + ['\n'] + rest;
        SplitAtSeparator(line, '\n', rest, NEWLINE);
        SplitUnbroken(line, NEWLINE);
    }
  }

  /** The splicer leaves a text alone exactly when no line of it is continued. */
  lemma {:induction false} SpliceKeepsExactly(s: string)
    ensures Splice(s) == s <==> NoContinuation(s)
    ensures |Splice(s)| <= |s|
    decreases |s|
  {
    hide Splice, TailRun;
    var lines := Split(s, NEWLINE);
    if |lines| == 1 {
      JoinedSplit(s, '\n');
      SplitPieces(s, NEWLINE);
      SpliceLastLine(s);
    } else {
      var line, rest := FirstLine(s);
      SpliceKeepsExactly(rest);
      SpliceLine(line, rest);
      var others := Split(rest, NEWLINE);
      assert lines == [line] + others;
      if Continues(line) {
        assert Continues(lines[0]);
      } else {
        assert s[|line| + 1..] == rest;
        assert Splice(s)[|line| + 1..] == Splice(rest);
        if NoContinuation(rest) {
          forall k | 0 <= k < |lines| - 1 ensures !Continues(lines[k]) {
            if k > 0 {
              assert lines[k] == others[k - 1];
            }
          }
        } else {
          var k :| 0 <= k < |others| - 1 && Continues(others[k]);
          assert lines[k + 1] == others[k];
        }
      }
    }
  }

  lemma EvenPrefix(a: string, line: string)
    requires !Continues(a) && !Continues(line)
    ensures !Continues(a + line)
  {
    TailRunAppend(a, line);
  }

  /** A line prefix with an even tail does not change which lines continue. */
  lemma {:induction false} PrefixKeepsNoContinuation(a: string, s: string)
    requires Without(a, NEWLINE) && !Continues(a) && NoContinuation(s)
    ensures NoContinuation(a + s)
  {
    var lines := Split(s, NEWLINE);
    if |lines| == 1 {
      JoinedSplit(s, '\n');
      SplitPieces(s, NEWLINE);
      SplitUnbroken(a + s, NEWLINE);
    } else {
      var line, rest := FirstLine(s);
      assert !Continues(lines[0]);
      EvenPrefix(a, line);
      SplitAtSeparator(a + line, '\n', rest, NEWLINE);
      SplitUnbroken(a + line, NEWLINE);
      assert a + s == (a + line) + ['\n'] + rest;
      var longer := Split(a + s, NEWLINE);
      assert longer == [a + line] + Split(rest, NEWLINE);
      forall k | 0 <= k < |longer| - 1 ensures !Continues(longer[k]) {
        if k > 0 {
          assert longer[k] == lines[k];
        }
      }
    }
  }

  /** No odd run of backslashes stands before a newline of the output. */
  lemma {:induction false} SplicedHasNoContinuation(s: string)
    ensures NoContinuation(Splice(s))
    decreases |s|
  {
    hide Splice;
    if |Split(s, NEWLINE)| == 1 {
      SplitPieces(s, NEWLINE);
      JoinedSplit(s, '\n');
      SpliceLastLine(s);
      SplitUnbroken(s, NEWLINE);
    } else {
      var line, rest := FirstLine(s);
      SplicedHasNoContinuation(rest);
      SpliceLine(line, rest);
      if Continues(line) {
        var kept := line[..|line| - 1];
        assert TailRun(line) == 1 + TailRun(kept);
        PrefixKeepsNoContinuation(kept, Splice(rest));
      } else {
        var more := Splice(rest);
        SplitAtSeparator(line, '\n', more, NEWLINE);
        SplitUnbroken(line, NEWLINE);
        assert line + "\n" + more == line + ['\n'] + more;
        var lines := Split(line + "\n" + more, NEWLINE);
        forall k | 0 <= k < |lines| - 1 ensures !Continues(lines[k]) {
          if k > 0 {
            assert lines[k] == Split(more, NEWLINE)[k - 1];
          }
        }
      }
    }
  }

  lemma {:induction false} SpliceIdempotent(s: string)
    ensures Splice(Splice(s)) == Splice(s)
  {
    SplicedHasNoContinuation(s);
    SpliceKeepsExactly(Splice(s));
  }
}
