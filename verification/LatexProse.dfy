/** The two halves of an obligation, read off the text of its statement. */
module LatexProse {
  import opened Outcomes
  import opened Text
  import opened Search
  import opened LatexScanner
  import opened LatexObligations
  import opened LatexProofs
  import opened LatexDocuments
  import opened LatexTexts

  // ---- formulas ----

  /** The formulas, trimmed, with ` ; ` between them. */
  function Listed(fs: seq<(MathKind, string)>): string
    requires fs != []
  {
    if |fs| == 1 then Trim(fs[0].1) else Trim(fs[0].1) + " ; " + Listed(fs[1..])
  }

  function TrimmedFormulas(fs: seq<(MathKind, string)>): seq<string> {
    seq(|fs|, i requires 0 <= i < |fs| => Trim(fs[i].1))
  }

  lemma {:induction false} MathAppends(xs: seq<Token>, ys: seq<Token>)
    ensures MathOf(xs + ys) == MathOf(xs) + MathOf(ys)
    decreases |ys|
  {
    if ys == [] {
      assert xs + ys == xs;
    } else {
      var init, last := ys[..|ys| - 1], ys[|ys| - 1];
      assert (xs + ys)[..|xs + ys| - 1] == xs + init && (xs + ys)[|xs + ys| - 1] == last;
      MathAppends(xs, init);
    }
  }

  lemma OneMath(t: Token)
    ensures MathOf([t]) == if t.Math? then [Trim(t.formula)] else []
  {
    assert [t][..0] == [] && MathOf([]) == [];
  }

  lemma {:induction false} MathOfPieces(ps: seq<Piece>)
    ensures MathOf(DocumentTokens(ps)) == TrimmedFormulas(FormulasOf(ps))
  {
    hide MathOf, Trim;
    if ps == [] {
      assert MathOf([]) == [] by { NoMath(); }
    } else {
      var first, more := PieceTokens(ps[0]), DocumentTokens(ps[1..]);
      MathOfPieces(ps[1..]);
      MathAppends(first, more);
      if first != [] {
        OneMath(first[0]);
        assert first == [first[0]];
      } else {
        NoMath();
      }
    }
  }

  lemma {:induction false} JoinedIsListed(fs: seq<(MathKind, string)>)
    requires fs != []
    ensures Join(" ; ", TrimmedFormulas(fs)) == Listed(fs)
  {
    hide Trim;
    if |fs| > 1 {
      JoinedIsListed(fs[1..]);
      assert TrimmedFormulas(fs)[1..] == TrimmedFormulas(fs[1..]);
    }
  }

  /** The formal half of a well-written statement: its formulas in order, or `TBD` where it has none. */
  lemma FormalSays(ps: seq<Piece>)
    requires AllApart(ps) && forall i :: 0 <= i < |ps| ==> WellWritten(ps[i])
    ensures Tokens(DocumentText(ps), false).Ok?
    ensures Formal(MathOf(Tokens(DocumentText(ps), false).value)) ==
            if FormulasOf(ps) == [] then "TBD" else Listed(FormulasOf(ps))
  {
    hide Tokens, WellWritten, MathOf, DocumentText;
    DocumentScanned(ps);
    MathOfPieces(ps);
    if FormulasOf(ps) != [] {
      JoinedIsListed(FormulasOf(ps));
    }
  }

  // ---- prose ----

  /** Delimiters of the formulas that the prose loses. */
  predicate Elided(open: string, close: string) {
    (open == "$" && close == "$") || (open == "\\(" && close == "\\)") || (open == "\\[" && close == "\\]")
  }

  lemma SpanThere(open: string, text: string, close: string, rest: string)
    requires Elided(open, close) && Find(text, close) == None
    ensures var s := open + text + close + rest;
      s != "" && SpanLength(s) == Some(|open| + |text| + |close|) && s[|open| + |text| + |close|..] == rest
  {
    hide Find, StartsWith, SpanLength;
    var s := open + text + close + rest;
    assert SingleHead(close);
    FindAtSeam(text, close, rest);
    GroupedBehind(open, text, close, rest);
    OpenerDecides(open, text + close + rest);
  }

  lemma GroupedBehind(a: string, b: string, c: string, d: string)
    ensures var s := a + b + c + d; s == a + (b + c + d) && s[|a| + |b| + |c|..] == d
  {
  }

  /** Which closer the span at an opener looks for. */
  lemma OpenerDecides(open: string, rest: string)
    requires open in {"$", "\\(", "\\["}
    ensures SpanLength(open + rest) ==
      if open == "$" then Later(2, Find(rest, "$"))
      else if open == "\\(" then Later(4, Find(rest, "\\)"))
      else Later(4, Find(rest, "\\]"))
  {
    hide Find, StartsWith;
    var s := open + rest;
    Started(open, rest);
    assert s[|open|..] == rest;
    if open == "$" {
      NotStarted(s, "\\(", 0);
      NotStarted(s, "\\[", 0);
    } else if open == "\\[" {
      NotStarted(s, "\\(", 1);
    }
  }

  /** Neither dollars nor backslashes. */
  predicate PlainProse(s: string) {
    forall i :: 0 <= i < |s| ==> s[i] !in {'$', '\\'}
  }

  lemma {:induction false} ProseKept(prose: string, rest: string)
    requires PlainProse(prose)
    ensures WithoutSpans(prose + rest) == prose + WithoutSpans(rest)
  {
    hide SpanLength;
    if prose == "" {
      assert prose + rest == rest;
    } else {
      var s, kept := prose + rest, WithoutSpans(rest);
      NoSpanHere(s);
      assert s[1..] == prose[1..] + rest;
      ProseKept(prose[1..], rest);
      Associative([prose[0]], prose[1..], kept);
      assert [prose[0]] + prose[1..] == prose;
    }
  }

  lemma NoSpanHere(s: string)
    requires s != "" && s[0] !in {'$', '\\'}
    ensures SpanLength(s) == None
  {
    hide StartsWith;
    NotStarted(s, "\\(", 0);
    NotStarted(s, "\\[", 0);
    NotStarted(s, "$", 0);
  }

  /** A formula in the prose is one blank of it; an opener that nothing closes stays. */
  lemma FormulaElided(prose: string, open: string, text: string, close: string, rest: string)
    requires PlainProse(prose) && Elided(open, close) && Find(text, close) == None
    ensures WithoutSpans(prose + (open + text + close + rest)) == prose + (" " + WithoutSpans(rest))
    ensures WithoutSpans(prose + "$") == prose + "$"
    ensures PlainProse(text) ==> WithoutSpans(prose + (open + text)) == prose + (open + text)
  {
    hide SpanLength, Find;
    SpanThere(open, text, close, rest);
    ProseKept(prose, open + text + close + rest);
    ProseKept(prose, "$");
    Unclosed("$", "", "$");
    assert "$" + "" == "$";
    if PlainProse(text) {
      ProseKept(prose, open + text);
      Unclosed(open, text, close);
    }
  }

  lemma Unclosed(open: string, text: string, close: string)
    requires Elided(open, close) && PlainProse(text)
    ensures WithoutSpans(open + text) == open + text
  {
    hide SpanLength;
    var s := open + text;
    assert forall i :: 0 <= i < |text| ==> text[i] != close[0];
    FindPastOthers(text, close, "");
    assert text + "" == text;
    OpenerDecides(open, text);
    ProseKept(text, "");
    assert WithoutSpans("") == "";
    if |open| == 2 {
      assert s[1..] == [open[1]] + text;
      NoSpanHere(s[1..]);
      assert s[1..][1..] == text;
    } else {
      assert s[1..] == text;
    }
  }

  // ---- words ----

  /** Words, each behind blanks. */
  function Spread(gaps: seq<string>, words: seq<string>): string
    requires |gaps| == |words|
  {
    if words == [] then "" else gaps[0] + words[0] + Spread(gaps[1..], words[1..])
  }

  /** Blanks between words collapse to one, and those around them go. */
  lemma {:induction false} WordsCollapse(gaps: seq<string>, words: seq<string>, behind: string)
    requires |gaps| == |words| && Blank(behind)
    requires forall i :: 0 <= i < |words| ==> Blank(gaps[i]) && (i > 0 ==> gaps[i] != "") && Solid(words[i])
    ensures Words(Spread(gaps, words) + behind) == words
    decreases |words|
  {
    hide FirstWord, DropWord;
    if words == [] {
      assert Spread(gaps, words) + behind == behind;
      NoWord(behind);
    } else {
      var rest := Spread(gaps[1..], words[1..]) + behind;
      forall i | 0 <= i < |words[1..]|
        ensures Blank(gaps[1..][i]) && gaps[1..][i] != "" && Solid(words[1..][i])
      {
        assert gaps[1..][i] == gaps[i + 1] && words[1..][i] == words[i + 1];
      }
      WordsCollapse(gaps[1..], words[1..], behind);
      SpreadStarts(gaps[1..], words[1..], behind);
      DropWordOf(gaps[0], words[0], rest);
      assert Spread(gaps, words) + behind == gaps[0] + words[0] + rest;
    }
  }

  lemma NoWord(s: string)
    requires Blank(s)
    ensures FirstWord(s) == ""
  {
    TrimStartBlank(s, "");
    assert s + "" == s;
  }

  lemma SpreadStarts(gaps: seq<string>, words: seq<string>, behind: string)
    requires |gaps| == |words| && Blank(behind)
    requires forall i :: 0 <= i < |words| ==> Blank(gaps[i]) && gaps[i] != ""
    ensures var s := Spread(gaps, words) + behind; s == "" || IsWhitespace(s[0])
  {
    var s := Spread(gaps, words) + behind;
    if words != [] {
      assert s[0] == gaps[0][0];
    }
  }

  /** The prose of a statement without formulas: its words with single blanks. */
  lemma PropertySays(gaps: seq<string>, words: seq<string>, behind: string)
    requires |gaps| == |words| && Blank(behind)
    requires forall i :: 0 <= i < |words| ==> Blank(gaps[i]) && (i > 0 ==> gaps[i] != "") && Solid(words[i])
    requires PlainProse(Spread(gaps, words) + behind)
    ensures Property(Spread(gaps, words) + behind) == Join(" ", words)
  {
    hide Words;
    var s := Spread(gaps, words) + behind;
    ProseKept(s, "");
    assert s + "" == s && WithoutSpans("") == "";
    WordsCollapse(gaps, words, behind);
  }

  // ---- environments of other names ----

  predicate ForeignName(name: string) {
    && '}' !in name
    && name !in {"equation", "align", "gather", "proof",
                 "theorem", "lemma", "corollary", "proposition", "claim", "definition", "remark"}
  }

  lemma {:induction false} FirstDifference(a: string, b: string) returns (i: nat)
    requires '}' !in a && '}' !in b && a != b
    ensures i <= |a| && i <= |b| && (a + "}")[i] != (b + "}")[i]
  {
    if a != "" && b != "" && a[0] == b[0] {
      assert a == [a[0]] + a[1..] && b == [b[0]] + b[1..];
      i := FirstDifference(a[1..], b[1..]);
      i := i + 1;
    } else {
      i := 0;
      assert a != "" ==> a[0] in a;
      assert b != "" ==> b[0] in b;
    }
  }

  lemma OtherName(name: string, known: string, rest: string)
    requires '}' !in name && name != known && '}' !in known
    ensures !StartsWith("\\begin{" + name + "}" + rest, "\\begin{" + known + "}")
  {
    hide StartsWith;
    var i := FirstDifference(name, known);
    var s, o := "\\begin{" + name + "}" + rest, "\\begin{" + known + "}";
    assert s == "\\begin{" + (name + "}") + rest && o == "\\begin{" + (known + "}");
    NotStarted(s, o, i + 7);
  }

  /** `\begin` with any other name opens nothing: its backslash is passed over. */
  lemma ForeignEnvironment(name: string, rest: string)
    requires ForeignName(name)
    ensures StepAt("\\begin{" + name + "}" + rest, false) == Skip(1)
  {
    hide StartsWith, TheoremStep, ContractStep, CiteStep, UpTo, Find, OpeningText, Opener, EnvBegin;
    var s := "\\begin{" + name + "}" + rest;
    var o := OpeningOf(s, false);
    if o != Plain {
      ForeignOpening(name, rest, o);
    }
  }

  lemma ForeignOpening(name: string, rest: string, o: Opening)
    requires ForeignName(name) && o != Plain
    ensures !StartsWith("\\begin{" + name + "}" + rest, OpeningText(o))
  {
    hide StartsWith;
    var s := "\\begin{" + name + "}" + rest;
    match o {
      case Comment => NotStarted(s, "%", 0);
      case Dollars => NotStarted(s, "$$", 0);
      case CiteOpen => NotStarted(s, "\\cite{", 1);
      case ContractOpen => NotStarted(s, "\\xpileContract{", 1);
      case ProofOpen =>
        OtherName(name, "proof", rest);
        assert "\\begin{" + "proof" + "}" == "\\begin{proof}";
      case MathOpen(kind) =>
        match kind {
          case Inline => NotStarted(s, "$", 0);
          case Paren => NotStarted(s, "\\(", 1);
          case Display => NotStarted(s, "\\[", 1);
          case EquationEnv =>
            OtherName(name, "equation", rest);
            assert "\\begin{" + "equation" + "}" == "\\begin{equation}";
          case Align =>
            OtherName(name, "align", rest);
            assert "\\begin{" + "align" + "}" == "\\begin{align}";
          case Gather =>
            OtherName(name, "gather", rest);
            assert "\\begin{" + "gather" + "}" == "\\begin{gather}";
        }
      case TheoremOpen(env) => OtherName(name, EnvironmentName(env), rest);
    }
  }
}
