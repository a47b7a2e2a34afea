/** `bashrs-backend`: the statements of a script as POSIX shell text. */
module Printer {
  import opened Outcomes
  import opened Text
  import opened ShellAst

  type Rendered = Result<string, Refusal>

  // ---- arguments and flat statements ----

  function Backslashed(s: string): string {
    if s == "" then "" else ['\\', s[0]] + Backslashed(s[1..])
  }

  function ArgText(e: Expr): string
    decreases e
  {
    match e
    case LitStr(s) => s
    case QuotedString(s, Single) => "'" + s + "'"
    case QuotedString(s, Double) => "\"" + s + "\""
    case QuotedString(s, Backslash) => Backslashed(s)
    case ShellVar(name) => "$" + name
    case ShellSpecial(param) => "$" + param
    case CommandSubstitution(inner) => if inner.Cmd? then "$(" + CmdText(inner.program, inner.args) + ")" else ""
    case Foreign => ""
  }

  function ArgTexts(args: seq<Expr>): (r: seq<string>)
    ensures |r| == |args|
    decreases args, 0
  {
    if args == [] then [] else [ArgText(args[0])] + ArgTexts(args[1..])
  }

  function CmdText(program: string, args: seq<Expr>): string
    decreases args, 1
  {
    if args == [] then program else program + " " + Join(" ", ArgTexts(args))
  }

  predicate RenderableArg(e: Expr)
    decreases e
  {
    match e
    case CommandSubstitution(inner) => inner.Cmd? && RenderableArgs(inner.args)
    case Foreign => false
    case _ => true
  }

  predicate RenderableArgs(args: seq<Expr>)
    decreases args
  {
    args == [] || (RenderableArg(args[0]) && RenderableArgs(args[1..]))
  }

  function RenderArg(e: Expr): (r: Rendered)
    ensures r.Ok? <==> RenderableArg(e)
    ensures r.Ok? ==> r.value == ArgText(e)
    decreases e
  {
    match e
    case LitStr(s) => Ok(s)
    case QuotedString(s, Single) => Ok("'" + s + "'")
    case QuotedString(s, Double) => Ok("\"" + s + "\"")
    case QuotedString(s, Backslash) => Ok(Backslashed(s))
    case ShellVar(name) => Ok("$" + name)
    case ShellSpecial(param) => Ok("$" + param)
    case CommandSubstitution(inner) =>
      if !inner.Cmd? then Err(StageNotCommand)
      else
        var command :- RenderCmd(inner.program, inner.args);
        Ok("$(" + command + ")")
    case Foreign => Err(UnrenderableArgument)
  }

  function RenderArgs(args: seq<Expr>): (r: Result<seq<string>, Refusal>)
    ensures r.Ok? <==> RenderableArgs(args)
    ensures r.Ok? ==> r.value == ArgTexts(args)
    decreases args, 0
  {
    if args == [] then Ok([])
    else
      var first :- RenderArg(args[0]);
      var rest :- RenderArgs(args[1..]);
      Ok([first] + rest)
  }

  function RenderCmd(program: string, args: seq<Expr>): (r: Rendered)
    ensures r.Ok? <==> RenderableArgs(args)
    ensures r.Ok? ==> r.value == CmdText(program, args)
    decreases args, 1
  {
    if args == [] then Ok(program)
    else
      var texts :- RenderArgs(args);
      Ok(program + " " + Join(" ", texts))
  }

  function StageTexts(stages: seq<Stmt>): (r: seq<string>)
    ensures |r| == |stages|
  {
    if stages == [] then []
    else [if stages[0].Cmd? then CmdText(stages[0].program, stages[0].args) else ""] + StageTexts(stages[1..])
  }

  predicate RenderableStage(s: Stmt) {
    s.Cmd? && RenderableArgs(s.args)
  }

  function HeaderText(kind: LoopKind): string {
    match kind
    case For(variable, items) => "for " + variable + " in " + Join(" ", ArgTexts(items))
    case While(cond) => "while " + ArgText(cond)
    case Until(cond) => "until " + ArgText(cond)
  }

  predicate RenderableKind(kind: LoopKind) {
    match kind
    case For(_, items) => RenderableArgs(items)
    case While(cond) => RenderableArg(cond)
    case Until(cond) => RenderableArg(cond)
  }

  // ---- blocks ----

  /** Every line of a text behind a prefix. */
  function Prefixed(prefix: string, lines: seq<string>): (r: seq<string>) {
    seq(|lines|, i requires 0 <= i < |lines| => prefix + lines[i])
  }

  function BodyLines(prefix: string, body: seq<Stmt>): seq<string>
    decreases body, 0
  {
    if body == [] then []
    else Prefixed(prefix, Split(StmtText(body[0]), NEWLINE)) + BodyLines(prefix, body[1..])
  }

  /** An empty body is the no-op `:`. */
  function BodyText(body: seq<Stmt>): string
    decreases body, 1
  {
    var lines := BodyLines("\t", body);
    Join("\n", if lines == [] then ["\t:"] else lines)
  }

  function ClauseText(keyword: string, cond: Expr, body: seq<Stmt>): string
    decreases body, 2
  {
    keyword + " " + ArgText(cond) + "; then\n" + BodyText(body)
  }

  /** A lone conditional in the else body is printed as `elif`. */
  function ElseText(elseBody: seq<Stmt>): string
    decreases elseBody, 3
  {
    if elseBody == [] then ""
    else if |elseBody| == 1 && elseBody[0].ShellIf? then
      "\n" + ClauseText("elif", elseBody[0].condition, elseBody[0].thenBody) + ElseText(elseBody[0].elseBody)
    else
      "\nelse\n" + BodyText(elseBody)
  }

  /** Each of these lines on a line of its own, behind the text so far. */
  function Appended(lines: seq<string>): string {
    if lines == [] then "" else "\n" + lines[0] + Appended(lines[1..])
  }

  function ArmText(arm: CaseArm): string
    decreases arm
  {
    "\n\t" + Join("|", arm.patterns) + ")" + Appended(BodyLines("\t\t", arm.body)) + "\n\t\t;;"
  }

  function ArmsText(arms: seq<CaseArm>): string
    decreases arms
  {
    if arms == [] then "" else ArmText(arms[0]) + ArmsText(arms[1..])
  }

  function StmtText(s: Stmt): string
    decreases s
  {
    match s
    case Cmd(program, args) => CmdText(program, args)
    case Pipeline(stages) => Join(" | ", StageTexts(stages))
    case ShellAssign(target, value) => target + "=" + ArgText(value)
    case ShellLoop(kind, body) => HeaderText(kind) + "; do\n" + BodyText(body) + "\ndone"
    case ShellIf(cond, thenBody, elseBody) => ClauseText("if", cond, thenBody) + ElseText(elseBody) + "\nfi"
    case ShellCase(word, arms) => "case " + ArgText(word) + " in" + ArmsText(arms) + "\nesac"
    case Unshelled => ""
  }

  predicate Renderable(s: Stmt)
    decreases s
  {
    match s
    case Cmd(_, args) => RenderableArgs(args)
    case Pipeline(stages) => forall stage :: stage in stages ==> RenderableStage(stage)
    case ShellAssign(_, value) => RenderableArg(value)
    case ShellLoop(kind, body) => RenderableKind(kind) && forall t :: t in body ==> Renderable(t)
    case ShellIf(cond, thenBody, elseBody) =>
      && RenderableArg(cond)
      && (forall t :: t in thenBody ==> Renderable(t)) && (forall t :: t in elseBody ==> Renderable(t))
    case ShellCase(word, arms) => RenderableArg(word) && forall arm, t :: arm in arms && t in arm.body ==> Renderable(t)
    case Unshelled => false
  }

  predicate RenderableAll(body: seq<Stmt>) {
    forall t :: t in body ==> Renderable(t)
  }

  // ---- scripts ----

  /** Every line with its newline. */
  function Written(lines: seq<string>): string {
    if lines == [] then "" else lines[0] + "\n" + Written(lines[1..])
  }

  function StmtTexts(stmts: seq<Stmt>): seq<string> {
    seq(|stmts|, i requires 0 <= i < |stmts| => StmtText(stmts[i]))
  }

  /** The remark of an empty script. */
  const NO_COMMANDS := "# (no commands \U{2014} " + ("the module has no " + "renderable shell statements)")

  /** The emitted file: comment lines, then the statements or the remark that there are none. */
  function ScriptText(header: seq<string>, stmts: seq<Stmt>): string {
    Written(header) + Written(if stmts == [] then [NO_COMMANDS] else StmtTexts(stmts))
  }

  // ---- the loops the source runs ----

  method RenderPipeline(stages: seq<Stmt>) returns (r: Rendered)
    ensures r.Ok? <==> forall stage :: stage in stages ==> RenderableStage(stage)
    ensures r.Ok? ==> r.value == Join(" | ", StageTexts(stages))
  {
    hide RenderableArgs;
    var rendered: seq<string> := [];
    for i := 0 to |stages|
      invariant StageTexts(stages) == rendered + StageTexts(stages[i..])
      invariant forall k :: 0 <= k < i ==> RenderableStage(stages[k])
    {
      assert stages[i..][1..] == stages[i + 1..];
      if !stages[i].Cmd? {
        assert !RenderableStage(stages[i]);
        return Err(StageNotCommand);
      }
      var stage := RenderCmd(stages[i].program, stages[i].args);
      if stage.Err? {
        assert !RenderableStage(stages[i]);
        return Err(stage.error);
      }
      rendered := rendered + [stage.value];
    }
    assert rendered == StageTexts(stages);
    return Ok(Join(" | ", rendered));
  }

  method IndentBody(prefix: string, body: seq<Stmt>) returns (r: Result<seq<string>, Refusal>)
    ensures r.Ok? <==> RenderableAll(body)
    ensures r.Ok? ==> r.value == BodyLines(prefix, body)
    decreases body, 0
  {
    hide StmtText, Renderable;
    var out: seq<string> := [];
    for i := 0 to |body|
      invariant BodyLines(prefix, body) == out + BodyLines(prefix, body[i..])
      invariant forall k :: 0 <= k < i ==> Renderable(body[k])
    {
      assert body[i..][1..] == body[i + 1..];
      var text := RenderStmt(body[i]);
      if text.Err? {
        return Err(text.error);
      }
      var subs := Split(text.value, NEWLINE);
      var more := Prefixed(prefix, subs);
      Associative(out, more, BodyLines(prefix, body[i + 1..]));
      out := out + more;
    }
    return Ok(out);
  }

  method RenderShellLoop(kind: LoopKind, body: seq<Stmt>) returns (r: Rendered)
    ensures r.Ok? <==> RenderableKind(kind) && RenderableAll(body)
    ensures r.Ok? ==> r.value == HeaderText(kind) + "; do\n" + BodyText(body) + "\ndone"
    decreases body, 1
  {
    hide BodyLines, RenderableAll;
    var header: string;
    match kind {
      case For(variable, items) =>
        var texts := RenderArgs(items);
        if texts.Err? {
          return Err(texts.error);
        }
        header := "for " + variable + " in " + Join(" ", texts.value);
      case While(cond) =>
        var text := RenderArg(cond);
        if text.Err? {
          return Err(text.error);
        }
        header := "while " + text.value;
      case Until(cond) =>
        var text := RenderArg(cond);
        if text.Err? {
          return Err(text.error);
        }
        header := "until " + text.value;
    }
    var bodyLines := IndentBody("\t", body);
    if bodyLines.Err? {
      return Err(bodyLines.error);
    }
    var lines := if bodyLines.value == [] then ["\t:"] else bodyLines.value;
    return Ok(header + "; do\n" + Join("\n", lines) + "\ndone");
  }

  method RenderClause(keyword: string, cond: Expr, body: seq<Stmt>) returns (r: Rendered)
    ensures r.Ok? <==> RenderableArg(cond) && RenderableAll(body)
    ensures r.Ok? ==> r.value == ClauseText(keyword, cond, body)
    decreases body, 1
  {
    hide BodyLines, RenderableAll;
    var bodyLines := IndentBody("\t", body);
    if bodyLines.Err? {
      return Err(bodyLines.error);
    }
    var lines := if bodyLines.value == [] then ["\t:"] else bodyLines.value;
    var text := RenderArg(cond);
    if text.Err? {
      return Err(text.error);
    }
    return Ok(keyword + " " + text.value + "; then\n" + Join("\n", lines));
  }

  lemma EmptyBodyRenders()
    ensures RenderableAll([])
  {
  }

  lemma LoneConditionalRenders(body: seq<Stmt>)
    requires |body| == 1 && body[0].ShellIf?
    ensures RenderableAll(body) <==>
            RenderableArg(body[0].condition) && RenderableAll(body[0].thenBody) && RenderableAll(body[0].elseBody)
  {
    hide RenderableArg;
    assert body[0] in body;
  }

  /** The loop peels one `elif` off the else body per round. */
  method RenderElse(elseBody: seq<Stmt>) returns (r: Rendered)
    ensures r.Ok? <==> RenderableAll(elseBody)
    ensures r.Ok? ==> r.value == ElseText(elseBody)
    decreases elseBody, 2
  {
    hide BodyLines, ClauseText, RenderableAll;
    var out := "";
    var rest := elseBody;
    EmptyBodyRenders();
    while |rest| == 1 && rest[0].ShellIf?
      invariant elseBody nonincreases to rest
      invariant ElseText(elseBody) == out + ElseText(rest)
      invariant RenderableAll(elseBody) <==> RenderableAll(rest)
      decreases rest
    {
      var peeled := rest[0];
      LoneConditionalRenders(rest);
      var clause := RenderClause("elif", peeled.condition, peeled.thenBody);
      if clause.Err? {
        return Err(clause.error);
      }
      Associative(out, "\n" + clause.value, ElseText(peeled.elseBody));
      out := out + ("\n" + clause.value);
      rest := peeled.elseBody;
    }
    if rest != [] {
      var bodyLines := IndentBody("\t", rest);
      if bodyLines.Err? {
        return Err(bodyLines.error);
      }
      var lines := if bodyLines.value == [] then ["\t:"] else bodyLines.value;
      out := out + ("\nelse\n" + Join("\n", lines));
    }
    return Ok(out);
  }

  method RenderShellIf(s: Stmt) returns (r: Rendered)
    requires s.ShellIf?
    ensures r.Ok? <==> RenderableArg(s.condition) && RenderableAll(s.thenBody) && RenderableAll(s.elseBody)
    ensures r.Ok? ==> r.value == ClauseText("if", s.condition, s.thenBody) + ElseText(s.elseBody) + "\nfi"
    decreases s, 3
  {
    hide ClauseText, ElseText, RenderableAll;
    var first := RenderClause("if", s.condition, s.thenBody);
    if first.Err? {
      return Err(first.error);
    }
    var rest := RenderElse(s.elseBody);
    if rest.Err? {
      return Err(rest.error);
    }
    return Ok(first.value + rest.value + "\nfi");
  }

  method RenderStmt(s: Stmt) returns (r: Rendered)
    ensures r.Ok? <==> Renderable(s)
    ensures r.Ok? ==> r.value == StmtText(s)
    decreases s, 4
  {
    match s {
      case Cmd(program, args) =>
        return RenderCmd(program, args);
      case Pipeline(stages) =>
        r := RenderPipeline(stages);
      case ShellAssign(target, value) =>
        var text := RenderArg(value);
        if text.Err? {
          return Err(text.error);
        }
        return Ok(target + "=" + text.value);
      case ShellLoop(kind, body) =>
        r := RenderShellLoop(kind, body);
      case ShellIf(_, _, _) =>
        r := RenderShellIf(s);
      case ShellCase(word, arms) =>
        r := RenderShellCase(word, arms);
      case Unshelled =>
        return Err(UnrenderableStatement);
    }
  }

  method RenderShellCase(word: Expr, arms: seq<CaseArm>) returns (r: Rendered)
    ensures r.Ok? <==> RenderableArg(word) && forall arm :: arm in arms ==> RenderableAll(arm.body)
    ensures r.Ok? ==> r.value == "case " + ArgText(word) + " in" + ArmsText(arms) + "\nesac"
    decreases arms, 3
  {
    hide ArgText, BodyLines, RenderableAll, ArmText;
    var head := RenderArg(word);
    if head.Err? {
      return Err(head.error);
    }
    var out := "case " + head.value + " in";
    ghost var start := out;
    assert start + ArmsText(arms) == out + ArmsText(arms);
    for a := 0 to |arms|
      invariant start + ArmsText(arms) == out + ArmsText(arms[a..])
      invariant forall k :: 0 <= k < a ==> RenderableAll(arms[k].body)
    {
      assert arms[a..][1..] == arms[a + 1..];
      var lines := IndentBody("\t\t", arms[a].body);
      if lines.Err? {
        return Err(lines.error);
      }
      var text := JoinArm(arms[a], lines.value);
      Associative(out, text, ArmsText(arms[a + 1..]));
      out := out + text;
    }
    return Ok(out + "\nesac");
  }

  method JoinArm(arm: CaseArm, lines: seq<string>) returns (text: string)
    requires lines == BodyLines("\t\t", arm.body)
    ensures text == ArmText(arm)
  {
    text := "\n\t" + Join("|", arm.patterns) + ")";
    ghost var start := text;
    assert start + Appended(lines) == text + Appended(lines[0..]);
    for i := 0 to |lines|
      invariant start + Appended(lines) == text + Appended(lines[i..])
    {
      assert lines[i..][1..] == lines[i + 1..];
      Associative(text, "\n" + lines[i], Appended(lines[i + 1..]));
      text := text + ("\n" + lines[i]);
    }
    text := text + "\n\t\t;;";
  }

  method EmitScript(header: seq<string>, stmts: seq<Stmt>) returns (r: Rendered)
    ensures r.Ok? <==> RenderableAll(stmts)
    ensures r.Ok? ==> r.value == ScriptText(header, stmts)
  {
    hide Renderable, StmtText;
    var out := WriteLines(header);
    ghost var start := out;
    if stmts == [] {
      assert Written([NO_COMMANDS]) == NO_COMMANDS + "\n" + Written([]);
      assert NO_COMMANDS + "\n" + "" == NO_COMMANDS + "\n";
      return Ok(out + (NO_COMMANDS + "\n"));
    }
    var texts := StmtTexts(stmts);
    for i := 0 to |stmts|
      invariant start + Written(texts) == out + Written(texts[i..])
      invariant forall k :: 0 <= k < i ==> Renderable(stmts[k])
    {
      assert texts[i..][1..] == texts[i + 1..];
      var text := RenderStmt(stmts[i]);
      if text.Err? {
        return Err(text.error);
      }
      Associative(out, text.value + "\n", Written(texts[i + 1..]));
      out := out + (text.value + "\n");
    }
    return Ok(out);
  }

  method WriteLines(lines: seq<string>) returns (out: string)
    ensures out == Written(lines)
  {
    out := "";
    assert lines[0..] == lines;
    for i := 0 to |lines|
      invariant Written(lines) == out + Written(lines[i..])
    {
      assert lines[i..][1..] == lines[i + 1..];
      Associative(out, lines[i] + "\n", Written(lines[i + 1..]));
      out := out + (lines[i] + "\n");
    }
  }
}
