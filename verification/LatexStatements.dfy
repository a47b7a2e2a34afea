/** What a last visible letter of a theorem's body does to its obligation. */
module LatexStatements {
  import opened Outcomes
  import opened Text
  import opened Search
  import opened LatexScanner
  import opened LatexObligations
  import opened LatexProofs

  /** Visible characters. */
  function Visible(s: string): nat {
    if s == "" then 0 else (if IsWhitespace(s[0]) then 0 else 1) + Visible(s[1..])
  }

  lemma {:induction false} VisibleAppend(a: string, b: string)
    ensures Visible(a + b) == Visible(a) + Visible(b)
  {
    if a == "" {
      assert a + b == b;
    } else {
      assert (a + b)[1..] == a[1..] + b;
      VisibleAppend(a[1..], b);
    }
  }

  lemma {:induction false} BlankInvisible(s: string)
    requires Blank(s)
    ensures Visible(s) == 0
  {
    if s != "" {
      BlankInvisible(s[1..]);
    }
  }

  /** Collapsing keeps the visible characters. */
  lemma {:induction false} WordsVisible(s: string)
    ensures Visible(Join(" ", Words(s))) == Visible(s)
    decreases |s|
  {
    hide FirstWord, DropWord;
    WordThenRest(s);
    var w, rest := FirstWord(s), DropWord(s);
    if w != "" {
      WordsShrink(s);
      WordsVisible(rest);
      if Words(rest) == [] {
        assert Join(" ", Words(rest)) == "" && Visible("") == 0;
      } else {
        var more := Join(" ", Words(rest));
        assert ([w] + Words(rest))[1..] == Words(rest);
        assert Join(" ", [w] + Words(rest)) == w + " " + more;
        VisibleAppend(w + " ", more);
        VisibleAppend(w, " ");
        BlankInvisible(" ");
      }
    }
  }

  lemma WordThenRest(s: string)
    ensures Visible(s) == Visible(FirstWord(s)) + Visible(DropWord(s))
    ensures FirstWord(s) == "" ==> Visible(s) == 0
  {
    TrimStartShape(s);
    var t := TrimStart(s);
    var pre := s[..|s| - |t|];
    VisibleAppend(pre, t);
    BlankInvisible(pre);
    assert t == FirstWord(s) + DropWord(s);
    VisibleAppend(FirstWord(s), DropWord(s));
    if FirstWord(s) == "" {
      assert t == "";
    }
  }

  lemma {:induction false} FindBeforeLetter(s: string, needle: string)
    requires needle != "" && needle[|needle| - 1] != 'x'
    ensures Find(s + "x", needle) == Find(s, needle)
  {
    var t := s + "x";
    if |needle| <= |s| {
      assert t[..|needle|] == s[..|needle|];
    } else if |needle| == |t| {
      assert t[..|needle|][|s|] == 'x';
    }
    if s != "" {
      assert t[1..] == s[1..] + "x";
      FindBeforeLetter(s[1..], needle);
    } else {
      assert t[1..] == "" && !StartsWith("", needle);
    }
  }

  lemma SpanBeforeLetter(s: string)
    ensures SpanLength(s + "x") == SpanLength(s)
  {
    hide Find;
    var t := s + "x";
    assert |s| >= 2 ==> t[..2] == s[..2] && t[2..] == s[2..] + "x";
    assert |s| == 1 ==> t[..2][1] == 'x';
    assert |s| >= 1 ==> t[..1] == s[..1] && t[1..] == s[1..] + "x";
    assert |s| == 0 ==> t[..1] == "x" && |t| == 1;
    if |s| >= 2 {
      FindBeforeLetter(s[2..], "\\)");
      FindBeforeLetter(s[2..], "\\]");
    }
    if |s| >= 1 {
      FindBeforeLetter(s[1..], "$");
    }
  }

  lemma {:induction false} ProseBeforeLetter(s: string)
    ensures WithoutSpans(s + "x") == WithoutSpans(s) + "x"
    decreases |s|
  {
    hide SpanLength;
    var t := s + "x";
    SpanBeforeLetter(s);
    if s == "" {
      assert t[1..] == "" && WithoutSpans("") == "" && SpanLength("") == None by { NoSpanInNothing(); }
    } else {
      var n := SpanLength(s);
      if n.Some? {
        assert t[n.value..] == s[n.value..] + "x";
        ProseBeforeLetter(s[n.value..]);
      } else {
        assert t[1..] == s[1..] + "x";
        ProseBeforeLetter(s[1..]);
      }
    }
  }

  lemma NoSpanInNothing()
    ensures SpanLength("") == None
  {
  }

  /** The letter is visible prose of the statement. */
  lemma PropertyBeforeLetter(s: string)
    ensures Property(s + "x") != Property(s)
  {
    hide WithoutSpans, Words;
    ProseBeforeLetter(s);
    WordsVisible(WithoutSpans(s));
    WordsVisible(WithoutSpans(s) + "x");
    VisibleAppend(WithoutSpans(s), "x");
    assert Visible("x") == 1 + Visible("");
  }

  lemma BlankLast(front: string, post: string)
    requires Blank(post)
    ensures var s := front + post; post != "" ==> IsWhitespace(s[|s| - 1])
  {
  }

  lemma TrimBeforeLetter(s: string)
    requires s == "" || !IsWhitespace(s[|s| - 1])
    ensures Trim(s + "x") == Trim(s) + "x"
    ensures Trim(s) == "" <==> s == ""
    ensures s != "" ==> Trim(s)[|Trim(s)| - 1] == s[|s| - 1]
  {
    if s == "" {
      TrimOfTrimmed("x");
    } else {
      var pre, post := TrimShape(s);
      BlankLast(pre + Trim(s), post);
      assert s == pre + Trim(s);
      BlankLast("", pre);
      assert s + "x" == pre + (Trim(s) + "x") + "";
      TrimPadded(pre, Trim(s) + "x", "");
    }
  }

  lemma StatedBeforeLetter(body: string)
    requires body == "" || body[|body| - 1] == '}'
    ensures Stated(body + "x") == Stated(body) + "x"
    ensures Stated(body) == "" || Stated(body)[|Stated(body)| - 1] == '}'
  {
    hide Trim;
    var t := Trim(body);
    TrimBeforeLetter(body);
    FlagBeforeLetter(t);
    var rest := if StartsWith(t, PRECONDITION_FLAG) then t[|PRECONDITION_FLAG|..] else t;
    if StartsWith(t, PRECONDITION_FLAG) {
      assert (t + "x")[|PRECONDITION_FLAG|..] == rest + "x";
    }
    TrimBeforeLetter(rest);
  }

  lemma FlagBeforeLetter(t: string)
    requires t == "" || t[|t| - 1] == '}'
    ensures StartsWith(t + "x", PRECONDITION_FLAG) <==> StartsWith(t, PRECONDITION_FLAG)
  {
    var n := |PRECONDITION_FLAG|;
    assert PRECONDITION_FLAG[n - 1] == '}';
    if n <= |t| {
      assert (t + "x")[..n] == t[..n];
    } else if n == |t| + 1 {
      assert (t + "x")[..n][n - 1] == 'x';
    }
  }

  lemma LetterTells(t1: string, t2: string, body: string)
    requires body == "" || body[|body| - 1] == '}'
    ensures Lowered(t1, body).Ok? && Lowered(t2, body + "x") != Lowered(t1, body)
  {
    hide Tokens, Property, Stated, Formal, MathOf, StartsWith;
    StatedBeforeLetter(body);
    PropertyBeforeLetter(Stated(body));
    if Tokens(Stated(body), false).Err? {
      OverrunNeedsBackslash(Stated(body), false);
    }
  }
}
