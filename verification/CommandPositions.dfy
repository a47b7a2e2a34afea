/** Where a reserved word is found in a line: first in it, or first behind `;`, `&` or `|`. */
module CommandPositions {
  import opened Text
  import opened ShellAst
  import opened FlatLines
  import opened Spellings

  /** The reserved words the frontend looks for (POSIX.1-2017, Shell and Utilities, section 2.4). */
  const RESERVED: set<string> :=
    {"for", "while", "until", "do", "done", "if", "then", "elif", "else", "fi", "case", "esac"}

  predicate Separates(c: char) {
    c in {';', '&', '|'}
  }

  /** Only blanks between here and the start of the line or a separator. */
  predicate Opens(line: string, i: nat)
    requires i <= |line|
  {
    exists k: nat :: k <= i && OpensFrom(line, k, i)
  }

  predicate OpensFrom(line: string, k: nat, i: nat)
    requires k <= i <= |line|
  {
    Spaces(line[k..i]) && (k == 0 || Separates(line[k - 1]))
  }

  predicate Ends(line: string, j: nat)
    requires j <= |line|
  {
    j == |line| || line[j] in SPACES || Separates(line[j])
  }

  predicate ReservedAt(line: string, i: nat, j: nat) {
    i <= j <= |line| && line[i..j] in RESERVED && Opens(line, i) && Ends(line, j)
  }

  ghost predicate HasReserved(line: string) {
    exists i: nat, j: nat :: ReservedAt(line, i, j)
  }

  lemma ReservedAgree(w: string)
    ensures KeywordOf(w) != NoKeyword <==> w in RESERVED
  {
  }

  lemma ReservedShape(w: string)
    requires w in RESERVED
    ensures Solid(w) && Without(w, COMMAND_SEPARATORS)
  {
  }

  lemma SeparatorsAgree(c: char)
    ensures c in COMMAND_SEPARATORS <==> Separates(c)
    ensures c in SPACES <==> IsWhitespace(c)
  {
  }

  /** Where a piece stands in its line. */
  lemma {:induction false} PieceStands(line: string, seps: set<char>, m: nat) returns (p: nat, q: nat)
    requires m < |Split(line, seps)|
    ensures p <= q <= |line| && line[p..q] == Split(line, seps)[m]
    ensures m == 0 <==> p == 0
    ensures p > 0 ==> line[p - 1] in seps
    ensures q < |line| ==> line[q] in seps
  {
    if line == "" {
      p, q := 0, 0;
    } else {
      var rest := Split(line[1..], seps);
      if line[0] in seps {
        if m == 0 {
          p, q := 0, 0;
        } else {
          var a, b := PieceStands(line[1..], seps, m - 1);
          p, q := a + 1, b + 1;
        }
      } else {
        var a, b := PieceStands(line[1..], seps, m);
        p, q := if m == 0 then 0 else a + 1, b + 1;
        if m == 0 {
          assert line[0..q] == [line[0]] + line[1..][..b];
        }
      }
    }
  }

  lemma FoundIsReserved(line: string)
    requires ControlFlowKeyword(line) != NoKeyword
    ensures HasReserved(line)
  {
    hide Split, FirstWord, KeywordOf, RESERVED, Separates, SPACES, COMMAND_SEPARATORS;
    var pieces := Split(line, COMMAND_SEPARATORS);
    NoKeywordAmong(pieces);
    var s :| s in pieces && FirstKeyword(s) != NoKeyword;
    var m: nat :| m < |pieces| && pieces[m] == s;
    var p, q := PieceStands(line, COMMAND_SEPARATORS, m);
    var pre, rest := FirstWordShape(s);
    var w := FirstWord(s);
    ReservedAgree(w);
    var i, j := p + |pre|, p + |pre| + |w|;
    WordStands(line, p, q, pre, w, rest);
    assert ReservedAt(line, i, j);
  }

  lemma WordStands(line: string, p: nat, q: nat, pre: string, w: string, rest: string)
    requires p <= q <= |line| && line[p..q] == pre + w + rest && Blank(pre)
    requires rest == "" || IsWhitespace(rest[0])
    requires p > 0 ==> line[p - 1] in COMMAND_SEPARATORS
    requires q < |line| ==> line[q] in COMMAND_SEPARATORS
    ensures var i := p + |pre|; var j := i + |w|;
      j <= |line| && line[i..j] == w && Opens(line, i) && Ends(line, j)
  {
    hide Separates, SPACES, COMMAND_SEPARATORS, IsWhitespace;
    var i := p + |pre|;
    var j := i + |w|;
    assert |pre + w + rest| == q - p;
    assert line[p..i] == line[p..q][..|pre|] == pre;
    assert (pre + w + rest)[|pre|..|pre| + |w|] == w;
    assert line[i..j] == line[p..q][|pre|..|pre| + |w|];
    SpacesAreBlank(pre);
    if p > 0 {
      SeparatorsAgree(line[p - 1]);
    }
    assert OpensFrom(line, p, i);
    if q < |line| {
      SeparatorsAgree(line[q]);
    }
    if rest != "" {
      assert line[j] == line[p..q][|pre| + |w|] == rest[0];
      SeparatorsAgree(rest[0]);
    }
  }

  lemma ReservedIsFound(line: string, i: nat, j: nat)
    requires ReservedAt(line, i, j)
    ensures ControlFlowKeyword(line) != NoKeyword
  {
    hide Split, FirstWord, KeywordOf, Separates, SPACES, COMMAND_SEPARATORS, RESERVED;
    var k: nat :| k <= i && OpensFrom(line, k, i);
    var pre, w, tail := line[k..i], line[i..j], line[j..];
    assert line[k..] == pre + w + tail;
    SpacesAreBlank(pre);
    ReservedShape(w);
    if tail != "" {
      SeparatorsAgree(tail[0]);
    }
    FirstPiece(pre, w, tail);
    ReservedAgree(w);
    NoKeywordAmong(Split(line, COMMAND_SEPARATORS));
    var s := Split(line[k..], COMMAND_SEPARATORS)[0];
    if k > 0 {
      SeparatorsAgree(line[k - 1]);
      assert line == line[..k - 1] + [line[k - 1]] + line[k..];
      SplitAtSeparator(line[..k - 1], line[k - 1], line[k..], COMMAND_SEPARATORS);
    } else {
      assert line[0..] == line;
    }
    assert s in Split(line, COMMAND_SEPARATORS);
  }

  /** The word in front of a blank or a separator is the first of its piece. */
  lemma FirstPiece(pre: string, w: string, tail: string)
    requires Blank(pre) && Solid(w) && Without(w, COMMAND_SEPARATORS)
    requires tail == "" || IsWhitespace(tail[0]) || tail[0] in COMMAND_SEPARATORS
    ensures FirstWord(Split(pre + w + tail, COMMAND_SEPARATORS)[0]) == w
  {
    hide FirstWord;
    assert Without(pre + w, COMMAND_SEPARATORS);
    SplitPrefix(pre + w, tail, COMMAND_SEPARATORS);
    var first := Split(tail, COMMAND_SEPARATORS)[0];
    assert first == "" || first[0] == tail[0];
    FirstWordOf(pre, w, first);
  }

  /** A line is refused for a keyword exactly when one of the twelve words stands in a command position. */
  lemma KeywordExactly(line: string)
    ensures ControlFlowKeyword(line) != NoKeyword <==> HasReserved(line)
  {
    hide ControlFlowKeyword, ReservedAt;
    if ControlFlowKeyword(line) != NoKeyword {
      FoundIsReserved(line);
    }
    if HasReserved(line) {
      var i: nat, j: nat :| ReservedAt(line, i, j);
      ReservedIsFound(line, i, j);
    }
  }
}
