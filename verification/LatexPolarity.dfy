/** A theorem's polarity, title, prose and formulas, read off the text of its environment. */
module LatexPolarity {
  import opened Outcomes
  import opened Text
  import opened Search
  import opened LatexScanner
  import opened LatexObligations
  import opened LatexBlocks
  import opened LatexProofs
  import opened LatexDocuments
  import opened LatexTexts

  const STATEMENTS: set<string> :=
    {"theorem", "lemma", "corollary", "proposition", "claim", "definition", "remark"}

  lemma StatementNamed(name: string) returns (env: Environment)
    requires name in STATEMENTS
    ensures EnvBegin(env) == "\\begin{" + name + "}" && EnvEnd(env) == "\\end{" + name + "}"
    ensures forall i :: 0 <= i < |name| ==> 'a' <= name[i] <= 'z'
  {
    if name == "theorem" { return Theorem; }
    if name == "lemma" { return Lemma; }
    if name == "corollary" { return Corollary; }
    if name == "proposition" { return Proposition; }
    if name == "claim" { return Claim; }
    if name == "definition" { return Definition; }
    return Remark;
  }

  // ---- the body of an environment ----

  /** Blanks behind a text complete no needle without blanks. */
  lemma {:induction false} FindBeforeBlanks(s: string, blanks: string, needle: string)
    requires Find(s, needle) == None && Blank(blanks) && Solid(needle)
    ensures Find(s + blanks, needle) == None
  {
    hide Find;
    var t := s + blanks;
    if s == "" {
      FindAmongBlanks(blanks, needle);
      assert t == blanks;
    } else {
      FoundNot(s, needle);
      BlankInside(s, blanks, needle);
      assert t[1..] == s[1..] + blanks;
      FindBeforeBlanks(s[1..], blanks, needle);
      FindStep(t, needle);
    }
  }

  lemma {:induction false} FindAmongBlanks(blanks: string, needle: string)
    requires Blank(blanks) && Solid(needle)
    ensures Find(blanks, needle) == None
  {
    assert forall i :: 0 <= i < |blanks| ==> blanks[i] != needle[0];
    FindPastOthers(blanks, needle, "");
    assert blanks + "" == blanks;
  }

  lemma FoundNot(s: string, needle: string)
    requires s != "" && Find(s, needle) == None
    ensures !StartsWith(s, needle) && Find(s[1..], needle) == None
  {
  }

  lemma BlankInside(s: string, blanks: string, needle: string)
    requires !StartsWith(s, needle) && Blank(blanks) && Solid(needle)
    ensures !StartsWith(s + blanks, needle)
  {
    var t := s + blanks;
    if |needle| <= |s| {
      assert t[..|needle|] == s[..|needle|];
    } else if |needle| <= |t| {
      assert t[..|needle|][|s|] == blanks[0];
    }
  }

  lemma EndIsSolid(name: string, e: string)
    requires e == "\\end{" + name + "}" && forall i :: 0 <= i < |name| ==> 'a' <= name[i] <= 'z'
    ensures Solid(e) && e[0] == '\\' && e[1] == 'e'
  {
  }

  /** The closer is not in the body: blanks, perhaps the flag, blanks, the statement, blanks. */
  lemma BodyUnclosed(before: string, flag: string, gap: string, statement: string, behind: string, end: string)
    requires Blank(before) && Blank(gap) && Blank(behind) && Solid(end) && |end| > 1 && end[0] == '\\' && end[1] == 'e'
    requires flag == "" || (|flag| > 1 && flag[0] == '\\' && flag[1] != 'e' && '\\' !in flag[1..])
    requires Find(statement, end) == None
    ensures Find(before + flag + gap + statement + behind, end) == None
  {
    hide Find, StartsWith;
    var tail := gap + statement + behind;
    FindBeforeBlanks(statement, behind, end);
    PastBlanks(gap, statement + behind, end);
    assert gap + (statement + behind) == tail;
    if flag != "" {
      var s := flag + tail;
      assert s[1] == flag[1];
      NotStarted(s, end, 1);
      FindStep(s, end);
      var more := flag[1..];
      assert s[1..] == more + tail;
      forall i | 0 <= i < |more| ensures more[i] != end[0] {
        assert more[i] in more;
      }
      FindPastOthers(more, end, tail);
    } else {
      assert flag + tail == tail;
    }
    PastBlanks(before, flag + tail, end);
    assert before + (flag + tail) == before + flag + gap + statement + behind;
  }

  lemma PastBlanks(blanks: string, rest: string, needle: string)
    requires Blank(blanks) && Solid(needle) && Find(rest, needle) == None
    ensures Find(blanks + rest, needle) == None
  {
    assert forall i :: 0 <= i < |blanks| ==> blanks[i] != needle[0];
    FindPastOthers(blanks, needle, rest);
  }

  // ---- the statement of a body ----

  /** Empty, or visible at both ends. */
  predicate Bounded(s: string) {
    s == "" || (!IsWhitespace(s[0]) && !IsWhitespace(s[|s| - 1]))
  }

  lemma FlagShape(f: string)
    requires f == "\\textbf{Precondition:}"
    ensures |f| > 1 && f[0] == '\\' && f[1] == 't' && '\\' !in f[1..] && Trimmed(f)
  {
  }

  lemma TrimBounded(before: string, s: string, behind: string)
    requires Blank(before) && Blank(behind) && Bounded(s)
    ensures Trim(before + s + behind) == s
  {
    hide Trim;
    if s == "" {
      TrimOfBlank(before + behind);
      assert before + s + behind == before + behind;
    } else {
      TrimPadded(before, s, behind);
    }
  }

  /** Behind the flag the body states the statement, and its first visible text is the flag. */
  lemma FlaggedStates(before: string, flag: string, gap: string, statement: string, behind: string)
    requires Blank(before) && Blank(gap) && Blank(behind) && Bounded(statement) && flag == "\\textbf{Precondition:}"
    ensures var body := before + flag + gap + statement + behind;
      StartsWith(Trim(body), flag) && Stated(body) == statement
  {
    hide Trim;
    var body := before + flag + gap + statement + behind;
    FlagShape(flag);
    if statement == "" {
      assert body == before + flag + (gap + behind);
      TrimPadded(before, flag, gap + behind);
      assert flag[..|flag|] == flag && flag[|flag|..] == "";
      TrimOfBlank("");
    } else {
      var inner := flag + gap + statement;
      assert body == before + inner + behind;
      TrimPadded(before, inner, behind);
      Started(flag, gap + statement);
      assert inner == flag + (gap + statement) && inner[|flag|..] == gap + statement + "";
      TrimBounded(gap, statement, "");
    }
  }

  lemma UnflaggedStates(before: string, flag: string, statement: string, behind: string)
    requires Blank(before) && Blank(behind) && Bounded(statement)
    requires flag == "\\textbf{Precondition:}" && !StartsWith(statement, flag)
    ensures var body := before + statement + behind; !StartsWith(Trim(body), flag) && Stated(body) == statement
  {
    hide Trim;
    TrimBounded(before, statement, behind);
    TrimBounded("", statement, "");
    assert "" + statement + "" == statement;
  }

  // ---- main result ----

  function Bracketed(title: Option<string>): string {
    if title.Some? then "[" + title.value + "]" else ""
  }

  /** A document that is one theorem: nothing but an obligation of this polarity, or a failure. */
  predicate SaysOne(src: string, precondition: bool, statement: string, title: Option<string>) {
    match Tokens(statement, false)
    case Ok(ts) =>
      Parsed(src) == Ok(Block(map[],
        [Obligation(precondition, Property(statement), Formal(MathOf(ts)), TitleText(title))], [], []))
    case Err(_) => Parsed(src).Err?
  }

  lemma OneTheorem(name: string, title: Option<string>, begin: string, body: string, end: string, statement: string,
                   flag: string)
    requires name in STATEMENTS && Find(body, end) == None && end == "\\end{" + name + "}"
    requires begin == "\\begin{" + name + "}" + Bracketed(title)
    requires if title.Some? then Find(title.value, "]") == None else !StartsWith(body, "[")
    requires Stated(body) == statement && flag == "\\textbf{Precondition:}"
    ensures SaysOne(begin + body + end, StartsWith(Trim(body), flag), statement, title)
  {
    hide Tokens, Parsed, Find, Property, Formal, MathOf, Stated, Trim, EnvBegin, EnvEnd;
    var env := StatementNamed(name);
    var p := Statement(env, title, body);
    OnePiece(p);
    assert PieceText(p) == begin + body + end;
  }

  /**
   * A theorem whose text starts with the flag is a precondition, and without it a postcondition; everything else it
   * says, its title, prose and formulas, is the same. Both parse or both fail.
   */
  lemma PolarityExactly(name: string, title: Option<string>, begin: string, before: string, flag: string, gap: string,
                        statement: string, behind: string, end: string)
    requires name in STATEMENTS && Blank(before) && Blank(gap) && Blank(behind) && Bounded(statement)
    requires begin == "\\begin{" + name + "}" + Bracketed(title) && end == "\\end{" + name + "}"
    requires Find(statement, end) == None && flag == "\\textbf{Precondition:}"
    requires if title.Some? then Find(title.value, "]") == None else !StartsWith(before + statement, "[")
    ensures SaysOne(begin + (before + flag + gap + statement + behind) + end, true, statement, title)
    ensures !StartsWith(statement, flag) ==>
      SaysOne(begin + (before + statement + behind) + end, false, statement, title)
  {
    hide Find, StartsWith, Stated, Trim, SaysOne, STATEMENTS;
    var env := StatementNamed(name);
    EndIsSolid(name, end);
    FlagShape(flag);
    BodyUnclosed(before, flag, gap, statement, behind, end);
    FlaggedStates(before, flag, gap, statement, behind);
    NoBracket(before + flag + gap + statement + behind, before, flag[0]);
    OneTheorem(name, title, begin, before + flag + gap + statement + behind, end, statement, flag);
    if !StartsWith(statement, flag) {
      BodyUnclosed(before, "", "", statement, behind, end);
      assert before + "" + "" + statement + behind == before + statement + behind;
      UnflaggedStates(before, flag, statement, behind);
      BracketBehind(before, statement, behind);
      OneTheorem(name, title, begin, before + statement + behind, end, statement, flag);
    }
  }

  /** A body that starts with blanks or this character does not start with a bracket. */
  lemma NoBracket(body: string, before: string, c: char)
    requires Blank(before) && |before| < |body| && body[..|before|] == before && body[|before|] == c && c != '['
    ensures !StartsWith(body, "[")
  {
    assert body[0] == if before == "" then c else body[..|before|][0];
  }

  lemma BracketBehind(before: string, statement: string, behind: string)
    requires Blank(behind)
    ensures StartsWith(before + statement + behind, "[") ==> StartsWith(before + statement, "[")
  {
    var s := before + statement;
    var t := s + behind;
    if s != "" {
      assert t[..1] == s[..1];
    } else if behind != "" {
      assert t[..1][0] == behind[0];
    }
  }
}
