/** The string operations of the Rust standard library that the shell lane uses, over characters. */
module Text {
  import opened Outcomes

  const NEWLINE: set<char> := {'\n'}
  const SEMICOLON: set<char> := {';'}
  const PIPE: set<char> := {'|'}
  const COMMAND_SEPARATORS: set<char> := {';', '&', '|'}

  /** `char::is_whitespace` on ASCII: space and the five controls from tab to carriage return. */
  predicate IsWhitespace(c: char) {
    c == ' ' || '\t' <= c <= '\r'
  }

  ghost predicate Blank(s: string) {
    forall i :: 0 <= i < |s| ==> IsWhitespace(s[i])
  }

  ghost predicate Solid(s: string) {
    s != "" && forall i :: 0 <= i < |s| ==> !IsWhitespace(s[i])
  }

  ghost predicate Without(s: string, seps: set<char>) {
    forall i :: 0 <= i < |s| ==> s[i] !in seps
  }

  /** Starts and ends with a visible character. */
  ghost predicate Trimmed(s: string) {
    s != "" && !IsWhitespace(s[0]) && !IsWhitespace(s[|s| - 1])
  }

  // ---- trimming ----

  function TrimStart(s: string): string {
    if s != "" && IsWhitespace(s[0]) then TrimStart(s[1..]) else s
  }

  function TrimEnd(s: string): string {
    if s != "" && IsWhitespace(s[|s| - 1]) then TrimEnd(s[..|s| - 1]) else s
  }

  function Trim(s: string): string {
    TrimEnd(TrimStart(s))
  }

  lemma {:induction false} TrimStartBlank(pre: string, s: string)
    requires Blank(pre)
    ensures TrimStart(pre + s) == TrimStart(s)
    decreases |pre|
  {
    if pre == "" {
      assert pre + s == s;
    } else {
      assert (pre + s)[1..] == pre[1..] + s;
      TrimStartBlank(pre[1..], s);
    }
  }

  lemma {:induction false} TrimEndBlank(s: string, post: string)
    requires Blank(post)
    ensures TrimEnd(s + post) == TrimEnd(s)
    decreases |post|
  {
    if post == "" {
      assert s + post == s;
    } else {
      assert (s + post)[..|s + post| - 1] == s + post[..|post| - 1];
      TrimEndBlank(s, post[..|post| - 1]);
    }
  }

  lemma TrimPadded(pre: string, s: string, post: string)
    requires Blank(pre) && Blank(post) && Trimmed(s)
    ensures Trim(pre + s + post) == s
    ensures TrimStart(pre + s + post) == s + post
  {
    assert pre + s + post == pre + (s + post);
    TrimStartBlank(pre, s + post);
    TrimEndBlank(s, post);
  }

  lemma TrimOfTrimmed(s: string)
    requires Trimmed(s)
    ensures Trim(s) == s
  {
  }

  lemma TrimmedEnds(s: string)
    requires Trimmed(s)
    ensures TrimEnd(s) == s && TrimStart(s) == s
  {
  }

  lemma TrimNeverGrows(s: string)
    ensures |Trim(s)| <= |s|
  {
    var pre, post := TrimShape(s);
  }

  lemma TrimTwice(s: string)
    ensures Trim(Trim(s)) == Trim(s)
  {
    var pre, post := TrimShape(s);
    if Trim(s) != "" {
      TrimOfTrimmed(Trim(s));
    }
  }

  lemma TrimOfBlank(s: string)
    requires Blank(s)
    ensures Trim(s) == ""
  {
    TrimStartBlank(s, "");
    assert s + "" == s;
  }

  lemma TrimAfterBlank(pre: string, s: string)
    requires Blank(pre)
    ensures Trim(pre + s) == Trim(s)
  {
    TrimStartBlank(pre, s);
  }

  lemma {:induction false} TrimStartShape(s: string)
    ensures |TrimStart(s)| <= |s|
    ensures s == s[..|s| - |TrimStart(s)|] + TrimStart(s)
    ensures Blank(s[..|s| - |TrimStart(s)|])
    ensures TrimStart(s) != "" ==> !IsWhitespace(TrimStart(s)[0])
  {
    if s != "" && IsWhitespace(s[0]) {
      TrimStartShape(s[1..]);
      var k := |s| - |TrimStart(s)|;
      assert s[..k] == [s[0]] + s[1..][..k - 1];
    }
  }

  lemma {:induction false} TrimEndShape(s: string)
    ensures |TrimEnd(s)| <= |s|
    ensures s == TrimEnd(s) + s[|TrimEnd(s)|..]
    ensures Blank(s[|TrimEnd(s)|..])
    ensures TrimEnd(s) != "" ==> !IsWhitespace(TrimEnd(s)[|TrimEnd(s)| - 1])
  {
    if s != "" && IsWhitespace(s[|s| - 1]) {
      var t := s[..|s| - 1];
      TrimEndShape(t);
      assert s[|TrimEnd(s)|..] == t[|TrimEnd(s)|..] + [s[|s| - 1]];
    }
  }

  /** A trimmed string is empty or starts and ends with a visible character, inside blanks. */
  lemma TrimShape(s: string) returns (pre: string, post: string)
    ensures s == pre + Trim(s) + post && Blank(pre) && Blank(post)
    ensures Trim(s) == "" || Trimmed(Trim(s))
  {
    hide TrimStart, TrimEnd;
    TrimStartShape(s);
    var t := TrimStart(s);
    pre := s[..|s| - |t|];
    TrimEndShape(t);
    post := t[|TrimEnd(t)|..];
    Associative(pre, Trim(s), post);
  }

  // ---- words ----

  function WordLength(s: string): (n: nat)
    ensures n <= |s|
  {
    if s == "" || IsWhitespace(s[0]) then 0 else 1 + WordLength(s[1..])
  }

  /** `split_whitespace().next().unwrap_or("")`. */
  function FirstWord(s: string): string {
    var t := TrimStart(s);
    t[..WordLength(t)]
  }

  /** The text behind the first word. */
  function DropWord(s: string): string {
    var t := TrimStart(s);
    t[WordLength(t)..]
  }

  /** What follows the first word, without the surrounding blanks. */
  function AfterFirstWord(s: string): string {
    Trim(DropWord(s))
  }

  lemma {:induction false} WordLengthOf(w: string, rest: string)
    requires forall i :: 0 <= i < |w| ==> !IsWhitespace(w[i])
    requires rest == "" || IsWhitespace(rest[0])
    ensures WordLength(w + rest) == |w|
    decreases |w|
  {
    if w == "" {
      assert w + rest == rest;
    } else {
      assert (w + rest)[1..] == w[1..] + rest;
      WordLengthOf(w[1..], rest);
    }
  }

  lemma FirstWordOf(pre: string, w: string, rest: string)
    requires Blank(pre) && Solid(w)
    requires rest == "" || IsWhitespace(rest[0])
    ensures FirstWord(pre + w + rest) == w
  {
    assert pre + w + rest == pre + (w + rest);
    TrimStartBlank(pre, w + rest);
    WordLengthOf(w, rest);
    assert (w + rest)[..|w|] == w;
  }

  lemma DropWordOf(pre: string, w: string, rest: string)
    requires Blank(pre) && Solid(w)
    requires rest == "" || IsWhitespace(rest[0])
    ensures FirstWord(pre + w + rest) == w
    ensures DropWord(pre + w + rest) == rest
  {
    assert pre + w + rest == pre + (w + rest);
    TrimStartBlank(pre, w + rest);
    WordLengthOf(w, rest);
    assert (w + rest)[..|w|] == w && (w + rest)[|w|..] == rest;
  }

  lemma AfterFirstWordOf(w: string, gap: string, rest: string)
    requires Solid(w) && Blank(gap) && gap != "" && Trimmed(rest)
    ensures FirstWord(w + gap + rest) == w
    ensures AfterFirstWord(w + gap + rest) == rest
  {
    var s := w + gap + rest;
    assert s == w + (gap + rest);
    assert TrimStart(s) == s;
    WordLengthOf(w, gap + rest);
    assert s[|w|..] == gap + rest;
    assert s[..|w|] == w;
    TrimAfterBlank(gap, rest);
    TrimOfTrimmed(rest);
  }

  lemma FirstWordAlone(w: string)
    requires Solid(w)
    ensures FirstWord(w) == w
  {
    FirstWordOf("", w, "");
    assert "" + w + "" == w;
  }

  lemma {:induction false} WordLengthShape(s: string)
    ensures forall i :: 0 <= i < WordLength(s) ==> !IsWhitespace(s[i])
    ensures WordLength(s) < |s| ==> IsWhitespace(s[WordLength(s)])
  {
    if s != "" && !IsWhitespace(s[0]) {
      WordLengthShape(s[1..]);
      var n := WordLength(s);
      forall i | 0 <= i < n ensures !IsWhitespace(s[i]) {
        if i > 0 {
          assert s[i] == s[1..][i - 1];
        }
      }
    }
  }

  /** Where the first word sits in its string. */
  lemma FirstWordShape(s: string) returns (pre: string, rest: string)
    ensures s == pre + FirstWord(s) + rest && Blank(pre)
    ensures rest == "" || IsWhitespace(rest[0])
    ensures FirstWord(s) != "" ==> Solid(FirstWord(s))
    ensures FirstWord(s) == "" ==> rest == ""
  {
    hide TrimStart, WordLength;
    TrimStartShape(s);
    var t := TrimStart(s);
    pre := s[..|s| - |t|];
    rest := t[WordLength(t)..];
    WordLengthShape(t);
    assert t == FirstWord(s) + rest;
    Associative(pre, FirstWord(s), rest);
  }

  lemma FirstWordStarts(s: string)
    requires s != "" && !IsWhitespace(s[0])
    ensures FirstWord(s) != "" && FirstWord(s)[0] == s[0]
  {
  }

  lemma FirstWordOfPadded(pre: string, s: string)
    requires Blank(pre)
    ensures FirstWord(pre + s) == FirstWord(s)
  {
    TrimStartBlank(pre, s);
  }

  lemma FirstWordBeforeBlank(s: string, q: string)
    requires Blank(q)
    ensures FirstWord(s + q) == FirstWord(s)
  {
    var pre, rest := FirstWordShape(s);
    var w := FirstWord(s);
    if w == "" {
      assert s == pre;
      TrimStartBlank(s, q);
      TrimStartBlank(q, "");
      assert q + "" == q;
    } else {
      FirstWordOf(pre, w, rest + q);
      assert pre + w + (rest + q) == s + q;
    }
  }

  lemma FirstWordOfTrim(s: string)
    ensures FirstWord(Trim(s)) == FirstWord(s)
  {
    var p, q := TrimShape(s);
    FirstWordBeforeBlank(Trim(s), q);
    FirstWordOfPadded(p, Trim(s) + q);
    assert s == p + (Trim(s) + q);
  }

  // ---- splitting and joining ----

  /** `str::split` on a set of characters: one more piece than separators. */
  function Split(s: string, seps: set<char>): (pieces: seq<string>)
    ensures |pieces| >= 1
  {
    if s == "" then
      [""]
    else
      var rest := Split(s[1..], seps);
      if s[0] in seps then [""] + rest else [[s[0]] + rest[0]] + rest[1..]
  }

  /** `str::lines`: no last empty line, and no carriage return at the end of a line. */
  function Lines(s: string): seq<string> {
    var pieces := Split(s, NEWLINE);
    var n := if pieces[|pieces| - 1] == "" then |pieces| - 1 else |pieces|;
    seq(n, i requires 0 <= i < n => WithoutCarriageReturn(pieces[i]))
  }

  function WithoutCarriageReturn(line: string): string {
    if line != "" && line[|line| - 1] == '\r' then line[..|line| - 1] else line
  }

  /** A line ends at a newline or at a carriage return and a newline; what nothing ends is a line unless it is empty. */
  lemma LinesSay(line: string, rest: string)
    requires '\n' !in line
    ensures line == "" || line[|line| - 1] != '\r' ==> Lines(line + "\n" + rest) == [line] + Lines(rest)
    ensures Lines(line + "\r\n" + rest) == [line] + Lines(rest)
    ensures line != "" && line[|line| - 1] != '\r' ==> Lines(line) == [line]
    ensures Lines("") == []
  {
    hide Split;
    var long := line + "\r";
    SplitUnbroken(line, NEWLINE);
    SplitUnbroken(long, NEWLINE);
    SplitUnbroken("", NEWLINE);
    SplitAtSeparator(line, '\n', rest, NEWLINE);
    SplitAtSeparator(long, '\n', rest, NEWLINE);
    assert line + ['\n'] + rest == line + "\n" + rest && long + ['\n'] + rest == line + "\r\n" + rest;
    assert long[..|long| - 1] == line;
    FirstOfLines(line + "\n" + rest, line, Split(rest, NEWLINE), rest);
    FirstOfLines(line + "\r\n" + rest, long, Split(rest, NEWLINE), rest);
  }

  lemma FirstOfLines(s: string, first: string, pieces: seq<string>, rest: string)
    requires Split(s, NEWLINE) == [first] + pieces && Split(rest, NEWLINE) == pieces
    ensures Lines(s) == [WithoutCarriageReturn(first)] + Lines(rest)
  {
    hide Split, WithoutCarriageReturn;
    assert forall i :: 0 < i <= |pieces| ==> ([first] + pieces)[i] == pieces[i - 1];
  }

  function TrimAll(lines: seq<string>): seq<string> {
    seq(|lines|, i requires 0 <= i < |lines| => Trim(lines[i]))
  }

  function Join(sep: string, parts: seq<string>): string {
    if |parts| == 0 then ""
    else if |parts| == 1 then parts[0]
    else parts[0] + sep + Join(sep, parts[1..])
  }

  lemma SplitCons(c: char, t: string, seps: set<char>)
    ensures var rest := Split(t, seps);
            Split([c] + t, seps) == if c in seps then [""] + rest else [[c] + rest[0]] + rest[1..]
  {
    assert ([c] + t)[1..] == t;
  }

  lemma {:induction false} SplitUnbroken(s: string, seps: set<char>)
    requires Without(s, seps)
    ensures Split(s, seps) == [s]
  {
    if s != "" {
      SplitUnbroken(s[1..], seps);
      assert [s[0]] + s[1..] == s;
    }
  }

  lemma {:induction false} SplitAtSeparator(a: string, c: char, b: string, seps: set<char>)
    requires c in seps
    ensures Split(a + [c] + b, seps) == Split(a, seps) + Split(b, seps)
    decreases |a|
  {
    var s := a + [c] + b;
    if a == "" {
      assert s[1..] == b;
    } else {
      assert s[1..] == a[1..] + [c] + b;
      SplitAtSeparator(a[1..], c, b, seps);
    }
  }

  lemma {:induction false} SplitPieces(s: string, seps: set<char>)
    ensures forall k :: 0 <= k < |Split(s, seps)| ==> Without(Split(s, seps)[k], seps)
    ensures forall k, i :: 0 <= k < |Split(s, seps)| && 0 <= i < |Split(s, seps)[k]| ==> Split(s, seps)[k][i] in s
  {
    if s != "" {
      SplitPieces(s[1..], seps);
    }
  }

  lemma {:induction false} SplitJoined(c: char, parts: seq<string>)
    requires |parts| > 0
    requires forall k :: 0 <= k < |parts| ==> Without(parts[k], {c})
    ensures Split(Join([c], parts), {c}) == parts
  {
    if |parts| == 1 {
      SplitUnbroken(parts[0], {c});
    } else {
      SplitJoined(c, parts[1..]);
      SplitAtSeparator(parts[0], c, Join([c], parts[1..]), {c});
      SplitUnbroken(parts[0], {c});
    }
  }

  lemma {:induction false} JoinedSplit(s: string, c: char)
    ensures Join([c], Split(s, {c})) == s
  {
    if s != "" {
      JoinedSplit(s[1..], c);
      var rest := Split(s[1..], {c});
      assert s == [s[0]] + s[1..];
      if s[0] == c {
        assert Split(s, {c})[1..] == rest;
      } else {
        var pieces := Split(s, {c});
        assert pieces[1..] == rest[1..];
        if |rest| > 1 {
          assert pieces[0] + [c] + Join([c], pieces[1..]) == [s[0]] + (rest[0] + [c] + Join([c], rest[1..]));
        }
      }
    }
  }

  lemma {:induction false} JoinAppend(sep: string, xs: seq<string>, ys: seq<string>)
    requires |xs| > 0 && |ys| > 0
    ensures Join(sep, xs + ys) == Join(sep, xs) + sep + Join(sep, ys)
  {
    if |xs| == 1 {
      assert (xs + ys)[1..] == ys;
    } else {
      assert (xs + ys)[1..] == xs[1..] + ys;
      JoinAppend(sep, xs[1..], ys);
      assert xs[0] + sep + (Join(sep, xs[1..]) + sep + Join(sep, ys)) == Join(sep, xs) + sep + Join(sep, ys);
    }
  }

  // ---- searching ----

  function IndexOf(s: string, c: char): (r: Option<nat>)
    ensures r.Some? ==> r.value < |s| && s[r.value] == c && Without(s[..r.value], {c})
    ensures r.None? ==> Without(s, {c})
  {
    if s == "" then None
    else if s[0] == c then Some(0)
    else
      match IndexOf(s[1..], c)
      case None => None
      case Some(k) => Some(k + 1)
  }

  lemma {:induction false} IndexOfFirst(a: string, c: char, b: string)
    requires Without(a, {c})
    ensures IndexOf(a + [c] + b, c) == Some(|a|)
    decreases |a|
  {
    if a == "" {
      assert ("" + [c] + b)[0] == c;
    } else {
      assert (a + [c] + b)[1..] == a[1..] + [c] + b;
      IndexOfFirst(a[1..], c, b);
    }
  }

  predicate StartsWith(s: string, p: string) {
    |p| <= |s| && s[..|p|] == p
  }

  predicate EndsWith(s: string, p: string) {
    |p| <= |s| && s[|s| - |p|..] == p
  }

  /** `str::contains("<<")`. */
  predicate HasDoubleLess(s: string) {
    exists i :: 0 <= i < |s| - 1 && s[i] == '<' && s[i + 1] == '<'
  }

  predicate StartsWithHash(s: string) {
    s != "" && s[0] == '#'
  }

  // ---- decimal numerals ----

  predicate IsDigit(c: char) {
    '0' <= c <= '9'
  }

  function DigitValue(c: char): int
    requires IsDigit(c)
  {
    c as int - '0' as int
  }

  predicate AllDigits(s: string) {
    forall i :: 0 <= i < |s| ==> IsDigit(s[i])
  }

  function Decimal(s: string): (v: int)
    requires AllDigits(s)
    ensures v >= 0
  {
    if s == "" then 0 else 10 * Decimal(s[..|s| - 1]) + DigitValue(s[|s| - 1])
  }

  function DecimalText(n: nat): (s: string)
    ensures s != "" && AllDigits(s)
    ensures |s| > 1 ==> s[0] != '0'
  {
    var last := [('0' as int + n % 10) as char];
    if n < 10 then last else DecimalText(n / 10) + last
  }

  lemma {:induction false} DecimalReadBack(n: nat)
    ensures Decimal(DecimalText(n)) == n
    decreases n
  {
    var s := DecimalText(n);
    if n < 10 {
      assert s[..0] == "";
    } else {
      DecimalReadBack(n / 10);
      assert s[..|s| - 1] == DecimalText(n / 10);
    }
  }
}
