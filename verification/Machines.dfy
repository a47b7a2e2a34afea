/**
 * Two questions about a line, each asked by a finite machine that reads it once: does a reserved word stand in a
 * command position, and is some pipe sign alone.
 */
module Machines {
  import opened Text
  import opened ShellAst
  import opened FlatLines

  datatype Machine = Keywords | Pipes

  /**
   * `Fresh`: in front of a command; `InWord`: in its first word, so far in small letters; `Past`: nothing pending;
   * `One`, `Many`: in a run of pipe signs; `Found`: the answer is yes.
   */
  datatype State = Fresh | InWord(word: string) | Past | One | Many | Found

  predicate IsSmall(c: char) {
    'a' <= c <= 'z'
  }

  function Step(m: Machine, st: State, c: char): State {
    if st == Found then Found
    else
      match m
      case Keywords =>
        if c in COMMAND_SEPARATORS then
          if st.InWord? && KeywordOf(st.word) != NoKeyword then Found else Fresh
        else if IsWhitespace(c) then
          if st.InWord? then if KeywordOf(st.word) != NoKeyword then Found else Past
          else if st == Fresh then Fresh
          else Past
        else if IsSmall(c) && st == Fresh then InWord([c])
        else if IsSmall(c) && st.InWord? then InWord(st.word + [c])
        else Past
      case Pipes =>
        if c == '|' then if st == One || st == Many then Many else One
        else if st == One then Found
        else Past
  }

  function Run(m: Machine, st: State, s: string): State
    decreases |s|
  {
    if s == "" then st else Run(m, Step(m, st, s[0]), s[1..])
  }

  function Start(m: Machine): State {
    if m == Keywords then Fresh else Past
  }

  // ---- running ----

  lemma {:induction false} RunAppend(m: Machine, st: State, a: string, b: string)
    ensures Run(m, st, a + b) == Run(m, Run(m, st, a), b)
    decreases |a|
  {
    hide Step;
    if a == "" {
      assert a + b == b;
    } else {
      assert (a + b)[1..] == a[1..] + b;
      RunAppend(m, Step(m, st, a[0]), a[1..], b);
    }
  }

  lemma RunOne(m: Machine, st: State, c: char)
    ensures Run(m, st, [c]) == Step(m, st, c)
  {
    hide Step;
    assert [c][1..] == "";
    assert Run(m, Step(m, st, c), "") == Step(m, st, c);
  }

  lemma {:induction false} FoundStays(m: Machine, s: string)
    ensures Run(m, Found, s) == Found
  {
    if s != "" {
      FoundStays(m, s[1..]);
    }
  }

  lemma RunNothing(m: Machine, st: State)
    ensures Run(m, st, "") == st
  {
  }

  /** Not found in the whole: not found in the front. */
  lemma FrontNotFound(m: Machine, st: State, a: string, b: string)
    requires Run(m, st, a + b) != Found
    ensures Run(m, st, a) != Found
  {
    hide Run;
    RunAppend(m, st, a, b);
    FoundStays(m, b);
  }

  // ---- what blanks, quotes and parentheses do ----

  /** Blanks leave it where it is. */
  predicate Boundary(m: Machine, st: State) {
    st != Found && Step(m, st, ' ') == st
  }

  /** The characters that open and close a token, and those around a parameter's name. */
  predicate Delimits(c: char) {
    c in {'\'', '"', '`', '$', '(', ')', '{', '}'}
  }

  lemma BlankSteps(m: Machine, st: State, c: char)
    requires IsWhitespace(c)
    ensures Step(m, st, c) == Step(m, st, ' ')
    ensures Step(m, Step(m, st, ' '), ' ') == Step(m, st, ' ')
  {
  }

  lemma {:induction false} BlanksStay(m: Machine, st: State, s: string)
    requires Boundary(m, st) && Blank(s)
    ensures Run(m, st, s) == st
  {
    hide Step;
    if s != "" {
      BlankSteps(m, st, s[0]);
      BlanksStay(m, st, s[1..]);
    }
  }

  lemma {:induction false} BlanksAreOne(m: Machine, st: State, s: string)
    requires Blank(s) && s != ""
    ensures Run(m, st, s) == Step(m, st, ' ')
  {
    hide Step;
    var next := Step(m, st, s[0]);
    BlankSteps(m, st, s[0]);
    if next == Found {
      FoundStays(m, s[1..]);
    } else {
      BlanksStay(m, next, s[1..]);
    }
  }

  lemma DelimiterStep(m: Machine, st: State, c: char, d: char)
    requires Delimits(c) && Delimits(d)
    ensures Step(m, st, c) == Step(m, st, d) && Step(m, st, c) in {Past, Found}
    ensures Step(m, st, ' ') != Found ==> Step(m, st, c) != Found
  {
  }

  lemma PastStays(m: Machine)
    ensures Boundary(m, Past) && Boundary(m, Start(m))
    ensures forall c :: Delimits(c) ==> Step(m, Past, c) == Past
  {
  }

  /** A word that cannot be a separator, a pipe sign or a first word, once it is under way. */
  lemma {:induction false} NameStays(m: Machine, s: string)
    requires forall i :: 0 <= i < |s| ==> !IsWhitespace(s[i]) && s[i] !in COMMAND_SEPARATORS
    ensures Run(m, Past, s) == Past
  {
    if s != "" {
      assert Step(m, Past, s[0]) == Past;
      NameStays(m, s[1..]);
    }
  }

  // ---- reserved words ----

  /** What a text adds to a first word that is under way. */
  predicate WordFound(st: State, piece: string) {
    match st
    case Fresh => FirstKeyword(piece) != NoKeyword
    case InWord(w) => KeywordOf(w + piece[..WordLength(piece)]) != NoKeyword
    case Found => true
    case _ => false
  }

  predicate KeywordState(st: State) {
    st in {Fresh, Past, Found} || (st.InWord? && st.word != ""
      && forall i :: 0 <= i < |st.word| ==> IsSmall(st.word[i]))
  }

  lemma KeywordsAreSmall(w: string)
    ensures KeywordOf(w) != NoKeyword ==> w != "" && forall i :: 0 <= i < |w| ==> IsSmall(w[i])
  {
    if KeywordOf(w) != NoKeyword {
      KeywordSpelled(w);
    }
  }

  lemma KeywordStep(st: State, c: char)
    requires KeywordState(st)
    ensures KeywordState(Step(Keywords, st, c))
  {
  }

  lemma WordStep(st: State, c: char, piece: string)
    requires KeywordState(st) && c !in COMMAND_SEPARATORS
    ensures WordFound(st, [c] + piece) <==> WordFound(Step(Keywords, st, c), piece)
  {
    hide KeywordOf;
    var s := [c] + piece;
    assert s[0] == c && s[1..] == piece;
    match st {
      case Fresh =>
        if IsWhitespace(c) {
        } else {
          var n := WordLength(piece);
          assert FirstWord(s) == s[..n + 1] == [c] + piece[..n];
          assert ([c] + piece[..n])[0] == c;
          KeywordsAreSmall([c] + piece[..n]);
        }
      case InWord(w) =>
        if IsWhitespace(c) {
          assert w + s[..0] == w;
        } else {
          var n := WordLength(piece);
          assert w + s[..n + 1] == w + [c] + piece[..n];
          assert (w + s[..n + 1])[|w|] == c;
          KeywordsAreSmall(w + s[..n + 1]);
        }
      case _ =>
    }
  }

  lemma WordEnds(st: State, c: char)
    requires KeywordState(st) && (c in COMMAND_SEPARATORS || IsWhitespace(c))
    ensures Step(Keywords, st, c) == Found <==> WordFound(st, "")
    ensures c in COMMAND_SEPARATORS ==> Step(Keywords, st, c) in {Found, Fresh}
  {
    hide KeywordOf;
    assert FirstWord("") == "" && KeywordOf("") == NoKeyword by { NothingIsNoKeyword(); }
    if st.InWord? {
      assert st.word + ""[..0] == st.word;
    }
  }

  lemma NothingIsNoKeyword()
    ensures FirstWord("") == "" && KeywordOf("") == NoKeyword
  {
  }

  lemma {:induction false} KeywordsFound(st: State, s: string)
    requires KeywordState(st)
    ensures var pieces := Split(s, COMMAND_SEPARATORS);
      Run(Keywords, st, s + " ") == Found <==>
      WordFound(st, pieces[0]) || KeywordAmong(pieces[1..]) != NoKeyword
    decreases |s|
  {
    hide Step, FirstKeyword, WordFound, KeywordAmong;
    var t := s + " ";
    var pieces := Split(s, COMMAND_SEPARATORS);
    if s == "" {
      assert t == " ";
      RunOne(Keywords, st, ' ');
      WordEnds(st, ' ');
      assert pieces[1..] == [];
      NothingAmong();
    } else {
      assert t[1..] == s[1..] + " ";
      var next := Step(Keywords, st, s[0]);
      KeywordStep(st, s[0]);
      KeywordsFound(next, s[1..]);
      var rest := Split(s[1..], COMMAND_SEPARATORS);
      if s[0] in COMMAND_SEPARATORS {
        WordEnds(st, s[0]);
        assert pieces[1..] == rest;
        AmongStep(rest);
        FoundStays(Keywords, s[1..] + " ");
      } else {
        WordStep(st, s[0], rest[0]);
        assert pieces[1..] == rest[1..];
      }
    }
  }

  lemma NothingAmong()
    ensures KeywordAmong([]) == NoKeyword
  {
  }

  lemma AmongStep(segments: seq<string>)
    requires segments != []
    ensures KeywordAmong(segments) != NoKeyword <==>
            WordFound(Fresh, segments[0]) || KeywordAmong(segments[1..]) != NoKeyword
    ensures WordFound(Found, segments[0])
  {
    hide FirstKeyword;
  }

  /** The machine finds a reserved word exactly where the refusal does. */
  lemma KeywordRefused(line: string)
    ensures ControlFlowKeyword(line) != NoKeyword <==> Run(Keywords, Fresh, line + " ") == Found
  {
    hide KeywordAmong, WordFound;
    KeywordsFound(Fresh, line);
    AmongStep(Split(line, COMMAND_SEPARATORS));
  }

  // ---- lone pipe signs ----

  predicate PipeState(st: State) {
    st in {Past, One, Many, Found}
  }

  /** A lone pipe sign at `i`, seen behind a text that ends in the state. */
  predicate LoneBehind(st: State, s: string, i: nat)
    requires i < |s|
  {
    s[i] == '|' && (if i == 0 then st == Past else s[i - 1] != '|') && (i + 1 == |s| || s[i + 1] != '|')
  }

  lemma {:induction false} PipesFound(st: State, s: string)
    requires PipeState(st)
    ensures Run(Pipes, st, s + " ") == Found <==>
      st == Found || (st == One && (s == "" || s[0] != '|')) || exists i :: 0 <= i < |s| && LoneBehind(st, s, i)
    decreases |s|
  {
    var t := s + " ";
    if s == "" {
      assert t == " ";
      RunOne(Pipes, st, ' ');
    } else {
      var next := Step(Pipes, st, s[0]);
      assert t[1..] == s[1..] + " ";
      PipesFound(next, s[1..]);
      FoundStays(Pipes, s[1..] + " ");
      if st != Found {
        PipesShift(st, s);
      }
    }
  }

  lemma PipesShift(st: State, s: string)
    requires PipeState(st) && st != Found && s != ""
    ensures var next, t := Step(Pipes, st, s[0]), s[1..];
      (st == One && s[0] != '|') || (exists i :: 0 <= i < |s| && LoneBehind(st, s, i)) <==>
      next == Found || (next == One && (t == "" || t[0] != '|')) || (exists i :: 0 <= i < |t| && LoneBehind(next, t, i))
  {
    var next, t := Step(Pipes, st, s[0]), s[1..];
    forall i | 1 <= i < |s| && next != Found ensures LoneBehind(st, s, i) <==> LoneBehind(next, t, i - 1) {
    }
    assert LoneBehind(st, s, 0) <==> next == One && (t == "" || t[0] != '|');
    if exists i :: 0 <= i < |s| && LoneBehind(st, s, i) {
      var i :| 0 <= i < |s| && LoneBehind(st, s, i);
      if i > 0 && next != Found {
        assert LoneBehind(next, t, i - 1);
      }
    }
    if exists i :: 0 <= i < |t| && LoneBehind(next, t, i) {
      var i :| 0 <= i < |t| && LoneBehind(next, t, i);
      if next != Found {
        assert LoneBehind(st, s, i + 1);
      }
    }
  }

  /** The machine finds a lone pipe sign exactly where the code does. */
  lemma PipeFound(line: string)
    ensures HasLonePipe(line) <==> Run(Pipes, Past, line + " ") == Found
  {
    PipesFound(Past, line);
    assert forall i :: 0 <= i < |line| ==> (IsLonePipe(line, i) <==> LoneBehind(Past, line, i));
  }
}
