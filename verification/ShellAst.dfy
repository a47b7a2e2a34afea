/** The shell part of the meta-HIR, the tokens of a shell line, its reserved words and the refusals. */
module ShellAst {
  import opened Text

  datatype Quoting = Single | Double | Backslash

  /** `Foreign` stands for every expression the shell lane cannot render. */
  datatype Expr =
    | LitStr(text: string)
    | QuotedString(content: string, quoting: Quoting)
    | ShellVar(name: string)
    | ShellSpecial(param: string)
    | CommandSubstitution(inner: Stmt)
    | Foreign

  datatype LoopKind =
    | For(variable: string, items: seq<Expr>)
    | While(cond: Expr)
    | Until(cond: Expr)

  datatype CaseArm = CaseArm(patterns: seq<string>, body: seq<Stmt>)

  /** `Unshelled` stands for every statement the shell lane cannot render. */
  datatype Stmt =
    | Cmd(program: string, args: seq<Expr>)
    | Pipeline(stages: seq<Stmt>)
    | ShellAssign(target: string, value: Expr)
    | ShellLoop(kind: LoopKind, body: seq<Stmt>)
    | ShellIf(condition: Expr, thenBody: seq<Stmt>, elseBody: seq<Stmt>)
    | ShellCase(word: Expr, arms: seq<CaseArm>)
    | Unshelled

  datatype RawToken =
    | Bare(text: string)
    | SingleQuoted(text: string)
    | DoubleQuoted(text: string)
    | CommandSubst(text: string)

  datatype Refusal =
    // tokenizer
    | BacktickAdjacent | UnterminatedBacktick
    | SubstitutionAdjacent | NestedSubstitution | UnterminatedSubstitution | UnterminatedArithmetic
    | SingleQuoteAdjacent | UnterminatedSingleQuote
    | DoubleQuoteAdjacent | UnterminatedDoubleQuote
    // flat lines
    | EmptySubstitution | SubstitutionWithoutTokens | QuotedProgram
    | HereDocument | AmpersandCommand | AssignmentBeforeCommand
    | EmptyStage | TooFewStages
    // blocks
    | MalformedForHeader | ForVariableNotIdentifier | ForWithoutItems | ForWithoutIn | DoAmongItems
    | EmptyLoopCondition | UnknownLoopHeader | LoopWithoutDo
    | EmptyIfCondition | IfWithoutThen | IfWithoutFi
    | UnterminatedBlock | TextAfterCloser | StrayKeyword | NestedCase | KeywordAfterOperator
    // case
    | UnterminatedCase | CaseWithoutWord | CaseWithoutIn | MalformedCase | CaseFallThrough
    | CaseWordNotSingle | ArmWithoutParenthesis | ArmWithoutPattern | CaseWithoutArms
    // script
    | UnsupportedControlFlow
    // printer
    | UnrenderableArgument | UnrenderableStatement | StageNotCommand

  /** The members of CONTROL_FLOW_KEYWORDS, plus a case for every other word. */
  datatype Keyword =
    | KFor | KWhile | KUntil | KDo | KDone | KIf | KThen | KElif | KElse | KFi | KCase | KEsac
    | NoKeyword

  function KeywordOf(w: string): Keyword {
    if w == "for" then KFor
    else if w == "while" then KWhile
    else if w == "until" then KUntil
    else if w == "do" then KDo
    else if w == "done" then KDone
    else if w == "if" then KIf
    else if w == "then" then KThen
    else if w == "elif" then KElif
    else if w == "else" then KElse
    else if w == "fi" then KFi
    else if w == "case" then KCase
    else if w == "esac" then KEsac
    else NoKeyword
  }

  function Spelling(k: Keyword): string
    requires k != NoKeyword
  {
    match k
    case KFor => "for"
    case KWhile => "while"
    case KUntil => "until"
    case KDo => "do"
    case KDone => "done"
    case KIf => "if"
    case KThen => "then"
    case KElif => "elif"
    case KElse => "else"
    case KFi => "fi"
    case KCase => "case"
    case KEsac => "esac"
  }

  /** The table is a bijection between reserved words and their spellings. */
  lemma SpellingRoundTrip(k: Keyword)
    requires k != NoKeyword
    ensures KeywordOf(Spelling(k)) == k
    ensures Solid(Spelling(k)) && Without(Spelling(k), COMMAND_SEPARATORS) && IsAlpha(Spelling(k)[0])
  {
    assert "until"[0] != "while"[0];
    assert "then"[0] != "done"[0];
    assert "elif"[0] != "done"[0] && "elif"[0] != "then"[0];
    assert "else"[0] != "done"[0] && "else"[0] != "then"[0] && "else"[2] != "elif"[2];
    assert "if"[0] != "do"[0];
    assert "fi"[0] != "do"[0] && "fi"[0] != "if"[0];
    assert "case"[0] != "done"[0] && "case"[0] != "then"[0] && "case"[0] != "elif"[0] && "case"[0] != "else"[0];
    assert "esac"[0] != "done"[0] && "esac"[0] != "then"[0] && "esac"[1] != "elif"[1] && "esac"[1] != "else"[1];
    assert "esac"[0] != "case"[0];
  }

  lemma KeywordSpelled(w: string)
    requires KeywordOf(w) != NoKeyword
    ensures w == Spelling(KeywordOf(w))
  {
  }

  // ---- names ----

  predicate IsAlpha(c: char) {
    'a' <= c <= 'z' || 'A' <= c <= 'Z' || c == '_'
  }

  predicate IsPosixIdentifier(s: string) {
    s != "" && IsAlpha(s[0]) && forall i :: 0 <= i < |s| ==> IsAlpha(s[i]) || IsDigit(s[i])
  }

  /** The one-character parameters `$0`..`$9`, `$@`, `$*`, `$#`, `$?`, `$$`, `$!` and `$-`. */
  predicate IsShellSpecial(s: string) {
    |s| == 1 && (IsDigit(s[0]) || s[0] in {'@', '*', '#', '?', '$', '!', '-'})
  }
}
