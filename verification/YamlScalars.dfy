/** `yaml_scalar` of the forjar lane, and a reader of YAML double-quoted scalars. */
module YamlScalars {
  import opened Outcomes

  /** `str::replace` of one character. */
  function Replace(s: string, c: char, with: string): string {
    if s == "" then "" else (if s[0] == c then with else [s[0]]) + Replace(s[1..], c, with)
  }

  function Scalar(s: string): string {
    "\"" + Replace(Replace(s, '\\', "\\\\"), '"', "\\\"") + "\""
  }

  /** One pass, one character at a time. */
  function Escape(s: string): string {
    if s == "" then "" else (if s[0] in {'\\', '"'} then ['\\', s[0]] else [s[0]]) + Escape(s[1..])
  }

  // ---- reading back ----

  /** A printable character (YAML 1.2.2, section 5.1) that is no line break. */
  predicate InlinePrintable(c: char) {
    c in {'\t', '\U{85}'} || (' ' <= c && !('\U{7F}' <= c <= '\U{9F}') && c !in {'\U{FFFE}', '\U{FFFF}'})
  }

  /** The single-character escapes of YAML 1.2.2, section 5.7, that stand for printable text. */
  function Unescaped(c: char): Option<char> {
    if c in {'\\', '"', '/', ' ', '\t'} then Some(c) else if c == 't' then Some('\t') else None
  }

  /** From just past the opening quote: what the scalar says and what stands after its closing quote. */
  function ReadQuoted(s: string): Option<(string, string)> {
    if s == "" || !InlinePrintable(s[0]) then None
    else if s[0] == '"' then Some(("", s[1..]))
    else if s[0] == '\\' then
      if |s| == 1 || Unescaped(s[1]) == None then None else Says(Unescaped(s[1]).value, ReadQuoted(s[2..]))
    else Says(s[0], ReadQuoted(s[1..]))
  }

  function Says(c: char, r: Option<(string, string)>): Option<(string, string)> {
    match r
    case Some(p) => Some(([c] + p.0, p.1))
    case None => None
  }

  predicate OneLine(s: string) {
    forall i :: 0 <= i < |s| ==> InlinePrintable(s[i])
  }

  lemma ReplaceStep(c: char, s: string, x: char, with: string)
    ensures Replace([c] + s, x, with) == (if c == x then with else [c]) + Replace(s, x, with)
  {
    assert ([c] + s)[1..] == s;
  }

  /** Backslashes first, quotes second: together one pass. */
  lemma {:induction false} ReplacementsEscape(s: string)
    ensures Replace(Replace(s, '\\', "\\\\"), '"', "\\\"") == Escape(s)
  {
    hide Replace;
    if s != "" {
      var t := s[1..];
      var inner := Replace(t, '\\', "\\\\");
      assert s == [s[0]] + t;
      ReplacementsEscape(t);
      ReplaceStep(s[0], t, '\\', "\\\\");
      if s[0] == '\\' {
        assert "\\\\" + inner == ['\\'] + (['\\'] + inner);
        ReplaceStep('\\', ['\\'] + inner, '"', "\\\"");
        ReplaceStep('\\', inner, '"', "\\\"");
        assert ['\\'] + (['\\'] + Escape(t)) == ['\\', '\\'] + Escape(t);
      } else {
        ReplaceStep(s[0], inner, '"', "\\\"");
      }
    } else {
      ReplaceNothing('\\', "\\\\");
      ReplaceNothing('"', "\\\"");
    }
  }

  lemma ReplaceNothing(x: char, with: string)
    ensures Replace("", x, with) == ""
  {
  }

  lemma {:induction false} EscapedReadBack(s: string, rest: string)
    ensures ReadQuoted(Escape(s) + "\"" + rest) == (if OneLine(s) then Some((s, rest)) else None)
  {
    var text := Escape(s) + "\"" + rest;
    if s == "" {
      assert text == "\"" + rest;
      assert text[1..] == rest;
    } else {
      var tail := Escape(s[1..]) + "\"" + rest;
      EscapedReadBack(s[1..], rest);
      assert s == [s[0]] + s[1..];
      assert OneLine(s) <==> InlinePrintable(s[0]) && OneLine(s[1..]) by {
        assert forall i :: 0 < i < |s| ==> s[i] == s[1..][i - 1];
        assert forall i :: 0 <= i < |s[1..]| ==> s[1..][i] == s[i + 1];
      }
      if s[0] in {'\\', '"'} {
        assert text == ['\\', s[0]] + tail;
        assert text[2..] == tail;
      } else {
        assert text == [s[0]] + tail;
        assert text[1..] == tail;
      }
    }
  }

  /**
   * A scalar is read back as the string, up to exactly its closing quote, when and only when the string is one
   * printable line.
   */
  lemma ScalarReadBack(s: string, rest: string)
    ensures Scalar(s)[0] == '"'
    ensures ReadQuoted((Scalar(s) + rest)[1..]) == Some((s, rest)) <==> OneLine(s)
  {
    hide Escape, Replace, ReadQuoted;
    ReplacementsEscape(s);
    EscapedReadBack(s, rest);
    assert (Scalar(s) + rest)[1..] == Escape(s) + "\"" + rest;
  }
}
