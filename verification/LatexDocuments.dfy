/** Documents written from pieces: the scanner finds exactly the pieces, in order. */
module LatexDocuments {
  import opened Outcomes
  import opened Text
  import opened Search
  import opened LatexScanner
  import opened LatexProofs

  datatype Piece =
    | Prose(text: string)
    | LineComment(text: string)
    | Formula(kind: MathKind, text: string)
    | Statement(env: Environment, title: Option<string>, body: string)
    | ProofOf(body: string)
    | Contract(id: string, note: Option<string>)
    | Citation(key: string)
    | DollarBlock(text: string)

  function PieceText(p: Piece): string {
    match p
    case Prose(text) => text
    case LineComment(text) => "%" + text + "\n"
    case Formula(kind, text) => Opener(kind) + text + Closer(kind)
    case Statement(env, title, body) =>
      EnvBegin(env) + (if title.Some? then "[" + title.value + "]" else "") + body + EnvEnd(env)
    case ProofOf(body) => Proof(body)
    case Contract(id, note) => CONTRACT + id + "}" + (if note.Some? then "{" + note.value + "}" else "")
    case Citation(key) => CITE + key + "}"
    case DollarBlock(text) => "$$" + text + "$$"
  }

  function PieceTokens(p: Piece): seq<Token> {
    match p
    case Prose(_) => []
    case LineComment(_) => []
    case Formula(kind, text) => [Math(kind, text)]
    case Statement(env, title, body) => [TheoremEnv(if title.Some? then title.value else "", body)]
    case ProofOf(_) => [ProofEnv]
    case Contract(id, _) => [XpileContract(id)]
    case Citation(key) => [Cite(key)]
    case DollarBlock(_) => []
  }

  /** The argument's own braces are balanced, so the brace after it closes it. */
  predicate BalancedArgument(s: string) {
    CloseBrace(s + "}", 1) == Closed(|s|)
  }

  predicate WellWritten(p: Piece) {
    match p
    case Prose(text) => forall i :: 0 <= i < |text| ==> text[i] !in {'\\', '$', '%'}
    case LineComment(text) => Find(text, "\n") == None
    case Formula(kind, text) => text != "" && Find(text, Closer(kind)) == None
    case Statement(env, title, body) =>
      Find(body, EnvEnd(env)) == None
      && if title.Some? then Find(title.value, "]") == None else !StartsWith(body, "[")
    case ProofOf(body) => Find(body, PROOF_END) == None
    case Contract(id, note) => BalancedArgument(id) && (note.Some? ==> BalancedArgument(note.value))
    case Citation(key) => BalancedArgument(key)
    case DollarBlock(text) => Find(text, "$$") == None && (text != "" ==> text[|text| - 1] != '$')
  }

  /** A contract citation without its second argument is not followed by a brace, which would open one. */
  predicate Apart(p: Piece, rest: string) {
    p.Contract? && p.note == None ==> !StartsWith(rest, "{")
  }

  predicate AllApart(ps: seq<Piece>) {
    ps == [] || (Apart(ps[0], DocumentText(ps[1..])) && AllApart(ps[1..]))
  }

  function DocumentText(ps: seq<Piece>): string {
    if ps == [] then "" else PieceText(ps[0]) + DocumentText(ps[1..])
  }

  function DocumentTokens(ps: seq<Piece>): seq<Token> {
    if ps == [] then [] else PieceTokens(ps[0]) + DocumentTokens(ps[1..])
  }

  // ---- one piece ----

  lemma {:induction false} ProseScanned(text: string, rest: string)
    requires WellWritten(Prose(text))
    ensures Tokens(text + rest, false) == Tokens(rest, false)
  {
    hide StepAt;
    if text == "" {
      assert text + rest == rest;
    } else {
      var s := text + rest;
      PlainStep(s);
      assert s[1..] == text[1..] + rest;
      ProseScanned(text[1..], rest);
    }
  }

  lemma PlainStep(s: string)
    requires s != "" && s[0] !in {'\\', '$', '%'}
    ensures StepAt(s, false) == Skip(1)
  {
    hide StartsWith, TheoremStep, ContractStep, CiteStep, UpTo, Find, OpeningText;
    var o := OpeningOf(s, false);
    if o != Plain {
      OpenerHeads(o);
      NotStarted(s, OpeningText(o), 0);
    }
  }

  /** Every opener begins with a backslash, a dollar sign or a percent sign. */
  lemma OpenerHeads(o: Opening)
    requires o != Plain
    ensures OpeningText(o) != "" && OpeningText(o)[0] in {'\\', '$', '%'}
  {
    hide EnvironmentName;
  }

  lemma FormulaScanned(kind: MathKind, text: string, rest: string)
    requires WellWritten(Formula(kind, text))
    ensures StepAt(PieceText(Formula(kind, text)) + rest, false)
      == Emit(Math(kind, text), |PieceText(Formula(kind, text))|)
  {
    hide OpeningOf, Find, TheoremStep, ContractStep, CiteStep, StartsWith, EnvBegin, Opener, Closer;
    var r := text + Closer(kind) + rest;
    var s := PieceText(Formula(kind, text)) + rest;
    assert s == Opener(kind) + r;
    FormulaOpens(kind, text, rest);
    ClosersSingleHead(kind);
    assert s[|Opener(kind)|..] == r;
    UpToAtSeam(s, |Opener(kind)|, text, Closer(kind), rest);
  }

  lemma ClosersSingleHead(kind: MathKind)
    ensures SingleHead(Closer(kind))
  {
  }

  lemma FormulaOpens(kind: MathKind, text: string, rest: string)
    requires WellWritten(Formula(kind, text))
    ensures OpeningOf(Opener(kind) + (text + Closer(kind) + rest), false) == MathOpen(kind)
  {
    hide StartsWith, EnvBegin, Find;
    var r := text + Closer(kind) + rest;
    var s := Opener(kind) + r;
    Started(Opener(kind), r);
    NotStarted(s, "%", 0);
    if kind == Inline {
      DollarStays(text);
      assert s[1] == text[0];
      NotStarted(s, "$$", 1);
      NotBackslash(s);
    } else if kind == Paren {
      assert s[1] == '(';
      forall o | o != Paren && o != Inline ensures !StartsWith(s, Opener(o)) {
        NotStarted(s, Opener(o), 1);
      }
      NotStarted(s, PROOF_BEGIN, 1);
      NotStarted(s, CONTRACT, 1);
      NotStarted(s, CITE, 1);
      NotStarted(s, "$$", 0);
    } else if kind != Display {
      assert s[1] == 'b' && s[7] == Opener(kind)[7];
      NotStarted(s, Opener(Display), 1);
      forall o | o in {EquationEnv, Align, Gather} && o != kind ensures !StartsWith(s, Opener(o)) {
        NotStarted(s, Opener(o), 7);
      }
    }
  }

  lemma DollarStays(text: string)
    requires text != "" && Find(text, "$") == None
    ensures text[0] != '$'
  {
    assert text[..1] == [text[0]];
  }

  lemma NotBackslash(s: string)
    requires s != "" && s[0] != '\\'
    ensures forall k :: k != Inline ==> !StartsWith(s, Opener(k))
    ensures !StartsWith(s, PROOF_BEGIN) && !StartsWith(s, CONTRACT) && !StartsWith(s, CITE)
  {
    forall k | k != Inline ensures !StartsWith(s, Opener(k)) {
      NotStarted(s, Opener(k), 0);
    }
    NotStarted(s, PROOF_BEGIN, 0);
    NotStarted(s, CONTRACT, 0);
    NotStarted(s, CITE, 0);
  }

  // ---- commands ----

  /** Any other opener differs from a theorem-class one at this character. */
  function DiffersAt(env: Environment, o: Opening): nat {
    match o
    case MathOpen(kind) => if kind in {EquationEnv, Align, Gather} then 7 else if kind == Inline then 0 else 1
    case ProofOpen => if env == Proposition then 10 else 7
    case TheoremOpen(e) => if (e == Corollary && env == Claim) || (e == Claim && env == Corollary) then 8 else 7
    case ContractOpen => 1
    case CiteOpen => 1
    case _ => 0
  }

  lemma EnvironmentsDiffer(env: Environment, o: Opening)
    requires o != Plain && o != TheoremOpen(env)
    ensures var i := DiffersAt(env, o);
      i < |EnvBegin(env)| && i < |OpeningText(o)| && EnvBegin(env)[i] != OpeningText(o)[i]
  {
    if o.TheoremOpen? {
      EnvironmentHeads(env);
      EnvironmentHeads(o.env);
    } else {
      EnvironmentHeads(env);
      assert EnvBegin(env)[1] == 'b';
    }
  }

  lemma EnvironmentHeads(env: Environment)
    ensures |EnvironmentName(env)| > 4 && |EnvBegin(env)| > 12
    ensures EnvBegin(env)[0] == '\\' && EnvBegin(env)[1] == 'b'
    ensures forall i :: 0 <= i < 4 ==> EnvBegin(env)[7 + i] == EnvironmentName(env)[i]
  {
    hide EnvironmentName;
    NamesAreLong(env);
    var name := EnvironmentName(env);
    assert |"\\begin{"| == 7;
    assert EnvBegin(env) == "\\begin{" + name + "}";
    assert forall i :: 0 <= i < 4 ==> EnvBegin(env)[7 + i] == name[i];
  }

  lemma NamesAreLong(env: Environment)
    ensures |EnvironmentName(env)| > 4
  {
  }

  lemma PlainStartsNone(s: string, escaped: bool, o: Opening)
    requires OpeningOf(s, escaped) == Plain
    requires o.TheoremOpen? || o == ContractOpen || o == CiteOpen || (o == Comment && !escaped)
    ensures !StartsWith(s, OpeningText(o))
  {
    hide StartsWith, Opener, EnvironmentName, EnvBegin;
    if o.TheoremOpen? {
      match o.env {
        case Theorem =>
        case Lemma =>
        case Corollary =>
        case Proposition =>
        case Claim =>
        case Definition =>
        case Remark =>
      }
    }
  }

  lemma TheoremOpens(env: Environment, r: string)
    ensures OpeningOf(EnvBegin(env) + r, false) == TheoremOpen(env)
  {
    hide OpeningOf, EnvBegin, StartsWith, DiffersAt;
    var s := EnvBegin(env) + r;
    var o := OpeningOf(s, false);
    Started(EnvBegin(env), r);
    if o == Plain {
      PlainStartsNone(s, false, TheoremOpen(env));
    } else if o != TheoremOpen(env) {
      EnvironmentsDiffer(env, o);
      NotStarted(s, OpeningText(o), DiffersAt(env, o));
    }
  }

  /** `\xpileContract{` and `\cite{` are each recognised by their second character. */
  lemma CommandOpens(o: Opening, r: string)
    requires o == ContractOpen || o == CiteOpen
    ensures OpeningOf(OpeningText(o) + r, false) == o
  {
    hide OpeningOf, StartsWith;
    var s := OpeningText(o) + r;
    var p := OpeningOf(s, false);
    Started(OpeningText(o), r);
    SecondCharacters(o);
    SecondCharacters(p);
    assert s[0] == '\\' && s[1] == OpeningText(o)[1];
    if p == Plain {
      PlainStartsNone(s, false, o);
    } else if p != o {
      NotStarted(s, OpeningText(p), if OpeningText(p)[0] == '\\' then 1 else 0);
    }
  }

  lemma SecondCharacters(o: Opening)
    ensures o != Plain ==> OpeningText(o) != ""
    ensures o != Plain && OpeningText(o)[0] == '\\' ==> |OpeningText(o)| > 1
    ensures o == ContractOpen ==> OpeningText(o)[0] == '\\' && OpeningText(o)[1] == 'x'
    ensures o == CiteOpen ==> OpeningText(o)[0] == '\\' && OpeningText(o)[1] == 'c'
    ensures o !in {Plain, ContractOpen, CiteOpen} && OpeningText(o)[0] == '\\' ==> OpeningText(o)[1] !in {'x', 'c'}
  {
    hide EnvironmentName;
  }

  lemma StatementScanned(env: Environment, title: Option<string>, body: string, rest: string)
    requires WellWritten(Statement(env, title, body))
    ensures var p := Statement(env, title, body);
      StepAt(PieceText(p) + rest, false) == Emit(PieceTokens(p)[0], |PieceText(p)|)
  {
    hide OpeningOf, Find, EnvBegin, EnvEnd, TitleOf, ContractStep, CiteStep, UpTo, StartsWith, Opener, Closer;
    var s := PieceText(Statement(env, title, body)) + rest;
    var middle := body + EnvEnd(env) + rest;
    var bracket := if title.Some? then "[" + title.value + "]" else "";
    assert s == EnvBegin(env) + (bracket + middle);
    TheoremOpens(env, bracket + middle);
    var n := |EnvBegin(env)|;
    assert s[n..] == bracket + middle;
    TitleRead(title, body, env, rest);
    assert TitleOf(s[n..]).1 == |bracket|;
    assert s[n + |bracket|..] == middle;
    EnvEndSingleHead(env);
    UpToAtSeam(s, n + |bracket|, body, EnvEnd(env), rest);
  }

  lemma EnvEndSingleHead(env: Environment)
    ensures SingleHead(EnvEnd(env)) && EnvEnd(env)[0] == '\\'
  {
    hide EnvironmentName;
    EnvironmentNamesPlain(env);
  }

  lemma TitleRead(title: Option<string>, body: string, env: Environment, rest: string)
    requires WellWritten(Statement(env, title, body))
    ensures var middle := body + EnvEnd(env) + rest;
      TitleOf((if title.Some? then "[" + title.value + "]" else "") + middle)
      == if title.Some? then (title.value, |title.value| + 2) else ("", 0)
  {
    hide Find, EnvEnd;
    var middle := body + EnvEnd(env) + rest;
    if title.Some? {
      var r := "[" + title.value + "]" + middle;
      assert r == "[" + (title.value + "]" + middle);
      Started("[", title.value + "]" + middle);
      FindAtSeam(title.value, "]", middle);
      FindPastOthers("[", "]", title.value + "]" + middle);
      assert r[1..|title.value| + 1] == title.value;
    } else {
      EnvEndSingleHead(env);
      assert middle[0] == if body == "" then '\\' else body[0];
      assert body != "" ==> body[..1] == [body[0]];
      NotStarted(middle, "[", 0);
      assert "" + middle == middle;
    }
  }

  lemma BalancedRead(arg: string, rest: string)
    requires BalancedArgument(arg)
    ensures CloseBrace(arg + "}" + rest, 1) == Closed(|arg|)
  {
    hide CloseBrace;
    CloseBraceInPrefix(arg + "}", rest, 1);
  }

  lemma CitationScanned(key: string, rest: string)
    requires BalancedArgument(key)
    ensures StepAt(PieceText(Citation(key)) + rest, false) == Emit(Cite(key), |PieceText(Citation(key))|)
  {
    hide OpeningOf, CloseBrace, StartsWith, TheoremStep, UpTo, BalancedArgument, CiteStep, ContractStep, Opener,
         EnvBegin;
    CiteScanned(key, rest);
    assert PieceText(Citation(key)) + rest == CITE + (key + "}" + rest);
    CommandOpens(CiteOpen, key + "}" + rest);
  }

  lemma ContractWritten(id: string, note: string, rest: string)
    ensures PieceText(Contract(id, Some(note))) + rest == CONTRACT + (id + "}" + ("{" + (note + "}" + rest)))
    ensures |PieceText(Contract(id, Some(note)))| == |CONTRACT| + |id| + |note| + 3
  {
    Regrouped(CONTRACT, id, "}", "{", note, rest);
  }

  lemma Regrouped(open: string, id: string, close: string, again: string, note: string, rest: string)
    ensures open + id + close + (again + note + close) + rest == open + (id + close + (again + (note + close + rest)))
  {
    Associative(again, note, close);
    Associative(again, note + close, rest);
    Associative(open, id, close);
    Associative(open, id + close, again + note + close);
  }

  lemma ContractCitationScanned(id: string, note: string, rest: string)
    requires BalancedArgument(id) && BalancedArgument(note)
    ensures var p := Contract(id, Some(note));
      StepAt(PieceText(p) + rest, false) == Emit(XpileContract(id), |PieceText(p)|)
  {
    hide PieceText, OpeningOf, CloseBrace, StartsWith, TheoremStep, UpTo, BalancedArgument, CiteStep, ContractStep,
         Opener, EnvBegin;
    ContractScanned(id, note, rest);
    var second := "{" + (note + "}" + rest);
    ContractWritten(id, note, rest);
    CommandOpens(ContractOpen, id + "}" + second);
  }

  lemma LoneContractScanned(id: string, rest: string)
    requires BalancedArgument(id) && !StartsWith(rest, "{")
    ensures var p := Contract(id, None);
      StepAt(PieceText(p) + rest, false) == Emit(XpileContract(id), |PieceText(p)|)
  {
    hide OpeningOf, CloseBrace, StartsWith, TheoremStep, UpTo, BalancedArgument, CiteStep, Opener, EnvBegin;
    var s := CONTRACT + (id + "}" + rest);
    var n := |CONTRACT| + |id| + 1;
    assert PieceText(Contract(id, None)) + rest == s;
    CommandOpens(ContractOpen, id + "}" + rest);
    assert s[|CONTRACT|..] == id + "}" + rest;
    BalancedRead(id, rest);
    assert s[|CONTRACT|..n - 1] == id && s[n..] == rest;
  }

  /** Text without a pair of dollars, nor a dollar at its end, up to the pair behind it. */
  lemma {:induction false} DollarSeam(text: string, rest: string)
    requires Find(text, "$$") == None && (text != "" ==> text[|text| - 1] != '$')
    ensures Find(text + "$$" + rest, "$$") == Some(|text|)
  {
    hide Find;
    var s := text + "$$" + rest;
    if text == "" {
      Started("$$", rest);
      assert s == "$$" + rest;
      FoundAtOnce(s, "$$");
    } else {
      assert s[1..] == text[1..] + "$$" + rest;
      if |text| > 1 {
        assert s[..2] == text[..2];
        NotFound(text, "$$", 0);
      } else {
        NotStarted(s, "$$", 0);
      }
      FindStep(s, "$$");
      NotFoundLater(text);
      DollarSeam(text[1..], rest);
    }
  }

  lemma FoundAtOnce(s: string, needle: string)
    requires StartsWith(s, needle)
    ensures Find(s, needle) == Some(0)
  {
  }

  lemma NotFoundLater(text: string)
    requires text != "" && Find(text, "$$") == None
    ensures Find(text[1..], "$$") == None
  {
  }

  lemma DollarBlockScanned(text: string, rest: string)
    requires WellWritten(DollarBlock(text))
    ensures var p := DollarBlock(text); StepAt(PieceText(p) + rest, false) == Skip(|PieceText(p)|)
  {
    hide Find, OpeningOf, TheoremStep, ContractStep, CiteStep, UpTo, StartsWith;
    var s := PieceText(DollarBlock(text)) + rest;
    assert s == "$$" + (text + "$$" + rest);
    DollarsOpen(text + "$$" + rest);
    assert s[2..] == text + "$$" + rest;
    DollarSeam(text, rest);
  }

  lemma CiteScanned(key: string, rest: string)
    requires BalancedArgument(key)
    ensures CiteStep(CITE + (key + "}" + rest)) == Emit(Cite(key), |CITE| + |key| + 1)
  {
    hide CloseBrace;
    var s := CITE + (key + "}" + rest);
    assert s[|CITE|..] == key + "}" + rest;
    BalancedRead(key, rest);
    assert s[|CITE|..|CITE| + |key|] == key;
  }

  lemma ContractScanned(id: string, note: string, rest: string)
    requires BalancedArgument(id) && BalancedArgument(note)
    ensures ContractStep(CONTRACT + (id + "}" + ("{" + (note + "}" + rest))))
      == Emit(XpileContract(id), |CONTRACT| + |id| + |note| + 3)
  {
    hide CloseBrace, BalancedArgument;
    var second := "{" + (note + "}" + rest);
    var s := CONTRACT + (id + "}" + second);
    var n := |CONTRACT| + |id| + 1;
    assert s[|CONTRACT|..] == id + "}" + second;
    BalancedRead(id, second);
    assert s[|CONTRACT|..n - 1] == id;
    assert s[n..] == second;
    Started("{", note + "}" + rest);
    assert second[1..] == note + "}" + rest;
    BalancedRead(note, rest);
  }

  lemma CommentScanned(text: string, rest: string)
    requires WellWritten(LineComment(text))
    ensures StepAt("%" + text + "\n" + rest, false) == Skip(|text| + 2)
  {
    hide Find, TheoremStep, ContractStep, CiteStep, UpTo, StartsWith;
    var r := text + "\n" + rest;
    var s := "%" + text + "\n" + rest;
    assert s == "%" + r;
    Started("%", r);
    FindAtSeam(text, "\n", rest);
    FindPastOthers("%", "\n", r);
  }

  // ---- main result ----

  /** Each well-written piece is scanned as itself, whatever follows it apart. */
  lemma PieceScanned(p: Piece, rest: string)
    requires WellWritten(p) && Apart(p, rest)
    ensures Tokens(PieceText(p) + rest, false) == After(PieceTokens(p), Tokens(rest, false))
  {
    hide StepAt, Find, WellWritten, Opener, Closer, EnvBegin, EnvEnd, BalancedArgument;
    AfterNothing(Tokens(rest, false));
    if p.Prose? {
      ProseScanned(p.text, rest);
      return;
    }
    var s, n := PieceText(p) + rest, |PieceText(p)|;
    match p {
      case LineComment(text) => CommentScanned(text, rest);
      case Formula(kind, text) => FormulaScanned(kind, text, rest);
      case Statement(env, title, body) => StatementScanned(env, title, body, rest);
      case ProofOf(body) => ProofDiscarded(body, rest, false) by { ProofWritten(body); }
      case Contract(id, note) =>
        ArgumentsBalanced(p);
        if note.Some? {
          ContractCitationScanned(id, note.value, rest);
        } else {
          LoneContractScanned(id, rest);
        }
      case DollarBlock(text) => DollarBlockScanned(text, rest);
      case Citation(key) => CitationScanned(key, rest) by { ArgumentsBalanced(p); }
    }
    PieceEnds(p);
    assert s[n - 1] == PieceText(p)[n - 1];
    assert s[n..] == rest;
  }

  lemma ProofWritten(body: string)
    requires WellWritten(ProofOf(body))
    ensures Find(body, PROOF_END) == None
  {
  }

  lemma ArgumentsBalanced(p: Piece)
    requires WellWritten(p)
    ensures p.Contract? ==> BalancedArgument(p.id) && (p.note.Some? ==> BalancedArgument(p.note.value))
    ensures p.Citation? ==> BalancedArgument(p.key)
  {
    hide BalancedArgument;
  }

  lemma PieceEnds(p: Piece)
    requires !p.Prose?
    ensures PieceText(p) != "" && PieceText(p)[|PieceText(p)| - 1] != '\\'
  {
    hide EnvironmentName;
  }

  /** Scanning a document of well-written pieces gives the tokens of its pieces, in order. */
  lemma {:induction false} DocumentScanned(ps: seq<Piece>)
    requires AllApart(ps) && forall i :: 0 <= i < |ps| ==> WellWritten(ps[i])
    ensures Tokens(DocumentText(ps), false) == Ok(DocumentTokens(ps))
  {
    hide Tokens, PieceText, PieceTokens, WellWritten, Apart;
    if ps == [] {
      NothingScanned();
    } else {
      DocumentScanned(ps[1..]);
      PieceScanned(ps[0], DocumentText(ps[1..]));
    }
  }

  lemma NothingScanned()
    ensures Tokens("", false) == Ok([])
  {
  }
}
