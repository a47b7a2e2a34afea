/** What a document of well-written pieces says, read off its text: keys, equations, obligations, citations. */
module LatexTexts {
  import opened Outcomes
  import opened Text
  import opened Search
  import opened LatexScanner
  import opened LatexObligations
  import opened LatexBlocks
  import opened LatexDocuments

  // ---- keys ----

  /** The delimiters of a formula and the word that its keys hold. */
  predicate Delimits(kind: MathKind, open: string, close: string, word: string) {
    match kind
    case Inline => open == "$" && close == "$" && word == "inline"
    case Paren => open == "\\(" && close == "\\)" && word == "paren"
    case Display => open == "\\[" && close == "\\]" && word == "display"
    case EquationEnv => open == "\\begin{equation}" && close == "\\end{equation}" && word == "equation"
    case Align => open == "\\begin{align}" && close == "\\end{align}" && word == "align"
    case Gather => open == "\\begin{gather}" && close == "\\end{gather}" && word == "gather"
  }

  lemma DelimitersKeyed(kind: MathKind, open: string, close: string, word: string, index: nat)
    requires Delimits(kind, open, close, word)
    ensures Opener(kind) == open && Closer(kind) == close && Key(kind, index) == "eq_" + word + "_" + DecimalText(index)
  {
    hide DecimalText;
  }

  lemma KeyHead(kind: MathKind, index: nat)
    ensures KindName(kind) != "" && |Key(kind, index)| == |KindName(kind)| + |DecimalText(index)| + 4
    ensures Key(kind, index)[3] == KindName(kind)[0]
  {
    hide DecimalText;
  }

  lemma WordsDiffer(k1: MathKind, k2: MathKind)
    ensures k1 != k2 ==> |KindName(k1)| != |KindName(k2)| || (KindName(k1) != "" && KindName(k1)[0] != KindName(k2)[0])
  {
  }

  /** A key tells both the kind and the position of its formula. */
  lemma KeyDetermines(k1: MathKind, i1: nat, k2: MathKind, i2: nat)
    requires Key(k1, i1) == Key(k2, i2)
    ensures k1 == k2 && i1 == i2
  {
    hide DecimalText, KindName, Key;
    KeyDeterminesIndex(k1, i1, k2, i2);
    KeyHead(k1, i1);
    KeyHead(k2, i2);
    WordsDiffer(k1, k2);
  }

  // ---- what the pieces of a document say ----

  function FormulasOf(ps: seq<Piece>): seq<(MathKind, string)> {
    if ps == [] then []
    else (if ps[0].Formula? then [(ps[0].kind, ps[0].text)] else []) + FormulasOf(ps[1..])
  }

  function CitationsOf(ps: seq<Piece>): seq<string> {
    if ps == [] then [] else (if ps[0].Contract? then [ps[0].id] else []) + CitationsOf(ps[1..])
  }

  function ReferencesOf(ps: seq<Piece>): seq<string> {
    if ps == [] then [] else (if ps[0].Citation? then [ps[0].key] else []) + ReferencesOf(ps[1..])
  }

  function TitleText(title: Option<string>): string {
    if title.Some? then title.value else ""
  }

  function ObligationsOf(ps: seq<Piece>): Result<seq<Obligation>, Crash> {
    if ps == [] then Ok([])
    else if ps[0].Statement? then
      var o :- Lowered(TitleText(ps[0].title), ps[0].body);
      After([o], ObligationsOf(ps[1..]))
    else ObligationsOf(ps[1..])
  }

  lemma {:induction false} PiecesSay(ps: seq<Piece>)
    ensures var ts := DocumentTokens(ps);
      && Formulas(ts) == FormulasOf(ps) && Citations(ts) == CitationsOf(ps) && References(ts) == ReferencesOf(ps)
      && (Obligations(ts).Ok? <==> ObligationsOf(ps).Ok?)
      && (Obligations(ts).Ok? ==> Obligations(ts) == ObligationsOf(ps))
  {
    hide Lowered, Formulas, Citations, References, Obligations;
    NoTokens();
    if ps != [] {
      var first, more := PieceTokens(ps[0]), DocumentTokens(ps[1..]);
      PiecesSay(ps[1..]);
      ListsAppended(first, more);
      ObligationsAppended(first, more);
      if first != [] {
        OneToken(first[0]);
        assert first == [first[0]];
      }
      AfterNothing(Obligations(more));
    }
  }

  /**
   * A document of well-written pieces says its formulas, theorems, contracts and citations, each in the order of the
   * text, or fails because the statement of one of its theorems does.
   */
  lemma DocumentSays(ps: seq<Piece>)
    requires AllApart(ps) && forall i :: 0 <= i < |ps| ==> WellWritten(ps[i])
    ensures Parsed(DocumentText(ps)).Ok? <==> ObligationsOf(ps).Ok?
    ensures ObligationsOf(ps).Ok? ==>
      Parsed(DocumentText(ps)) ==
        Ok(Block(Equations(FormulasOf(ps)), ObligationsOf(ps).value, CitationsOf(ps), ReferencesOf(ps)))
  {
    hide Tokens, WellWritten, Lowered, Formulas, Citations, References, Obligations, Equations, DocumentText;
    DocumentScanned(ps);
    PiecesSay(ps);
  }

  // ---- single pieces ----

  lemma OnePiece(p: Piece)
    requires WellWritten(p)
    ensures var r := Parsed(PieceText(p));
      && (p.Formula? ==> r == Ok(Block(map[Key(p.kind, 0) := Trim(p.text)], [], [], [])))
      && (p.Contract? ==> r == Ok(Block(map[], [], [p.id], [])))
      && (p.Citation? ==> r == Ok(Block(map[], [], [], [p.key])))
      && (p.Statement? ==>
          match Lowered(TitleText(p.title), p.body)
          case Ok(o) => r == Ok(Block(map[], [o], [], []))
          case Err(e) => r.Err?)
  {
    hide WellWritten, Lowered, PieceText, Parsed, Key;
    assert [p][1..] == [] && DocumentText([]) == "";
    assert PieceText(p) + "" == PieceText(p);
    assert DocumentText([p]) == PieceText(p);
    assert !StartsWith("", "{");
    DocumentSays([p]);
    OneEquation(p);
    OneList(p);
  }

  lemma OneList(p: Piece)
    ensures CitationsOf([p]) == if p.Contract? then [p.id] else []
    ensures ReferencesOf([p]) == if p.Citation? then [p.key] else []
    ensures ObligationsOf([p]) ==
      if !p.Statement? then Ok([])
      else match Lowered(TitleText(p.title), p.body)
           case Ok(o) => Ok([o])
           case Err(e) => Err(e)
  {
    hide Lowered;
    assert [p][1..] == [] && CitationsOf([]) == [] && ReferencesOf([]) == [] && ObligationsOf([]) == Ok([]);
    if p.Statement? && Lowered(TitleText(p.title), p.body).Ok? {
      var o := Lowered(TitleText(p.title), p.body).value;
      assert [o] + [] == [o];
    }
  }

  lemma OneEquation(p: Piece)
    ensures Equations(FormulasOf([p])) == if p.Formula? then map[Key(p.kind, 0) := Trim(p.text)] else map[]
  {
    hide Key;
    assert [p][1..] == [] && FormulasOf([]) == [];
    assert Equations([]) == map[];
    if p.Formula? {
      var fs := [(p.kind, p.text)];
      assert FormulasOf([p]) == fs && fs[..0] == [];
    }
  }

  /** A formula alone is one equation, under the key of its delimiters. */
  lemma FormulaSays(kind: MathKind, open: string, close: string, word: string, formula: string)
    requires Delimits(kind, open, close, word) && formula != "" && Find(formula, close) == None
    ensures Parsed(open + formula + close) == Ok(Block(map["eq_" + word + "_0" := Trim(formula)], [], [], []))
  {
    hide Parsed, Find, Trim;
    DelimitersKeyed(kind, open, close, word, 0);
    assert DecimalText(0) == "0" && "eq_" + word + "_" + "0" == "eq_" + word + "_0";
    OnePiece(Formula(kind, formula));
  }

  /** Every brace closes one inside the text; a backslash takes the character behind it out of the count. */
  predicate Braced(s: string, depth: nat) {
    if s == "" then depth == 0
    else if s[0] == '\\' then |s| > 1 && Braced(s[2..], depth)
    else if s[0] == '{' then Braced(s[1..], depth + 1)
    else if s[0] == '}' then depth > 0 && Braced(s[1..], depth - 1)
    else Braced(s[1..], depth)
  }

  lemma {:induction false} BracedCloses(s: string, depth: nat)
    requires Braced(s, depth)
    ensures CloseBrace(s + "}", depth + 1) == Closed(|s|)
    decreases |s|
  {
    var t := s + "}";
    if s == "" {
      assert t == "}";
    } else if s[0] == '\\' {
      assert t[2..] == s[2..] + "}";
      BracedCloses(s[2..], depth);
    } else {
      assert t[1..] == s[1..] + "}";
      BracedCloses(s[1..], if s[0] == '{' then depth + 1 else if s[0] == '}' then depth - 1 else depth);
    }
  }

  /** A contract is a citation, with or without its note; a citation is a reference; both up to their own brace. */
  lemma CitationsSay(argument: string, note: string)
    requires Braced(argument, 0) && Braced(note, 0)
    ensures Parsed("\\xpileContract{" + argument + "}") == Ok(Block(map[], [], [argument], []))
    ensures Parsed("\\xpileContract{" + argument + "}{" + note + "}") == Ok(Block(map[], [], [argument], []))
    ensures Parsed("\\cite{" + argument + "}") == Ok(Block(map[], [], [], [argument]))
  {
    hide Parsed, CloseBrace;
    BracedCloses(argument, 0);
    BracedCloses(note, 0);
    OnePiece(Contract(argument, None));
    OnePiece(Contract(argument, Some(note)));
    OnePiece(Citation(argument));
    assert "\\xpileContract{" + argument + "}" + "" == "\\xpileContract{" + argument + "}";
    assert "\\xpileContract{" + argument + "}" + ("{" + note + "}")
        == "\\xpileContract{" + argument + "}{" + note + "}";
  }
}
