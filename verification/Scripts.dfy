/** The line walk of `parse_and_lower`, from source text to a statement list. */
module Scripts {
  import opened Outcomes
  import opened Text
  import opened ShellAst
  import opened Splicer
  import opened FlatLines
  import opened Blocks
  import opened Regions
  import opened Cases

  type Script = Result<seq<Stmt>, Refusal>

  /** Blank lines, shebangs and comments. */
  predicate IsSkipped(line: string) {
    line == "" || StartsWithHash(line)
  }

  function Walk(lines: seq<string>, i: nat): Script
    requires i <= |lines|
    decreases |lines| - i
  {
    if i == |lines| then Ok([])
    else
      var line := lines[i];
      if IsSkipped(line) then Walk(lines, i + 1)
      else if FirstKeyword(line) in BLOCK_OPENERS then
        var (stmt, next) :- BlockAt(lines, i);
        After([stmt], Walk(lines, next))
      else if FirstKeyword(line) == KCase then
        var (stmt, next) :- CaseAt(lines, i);
        After([stmt], Walk(lines, next))
      else if ControlFlowKeyword(line) != NoKeyword then Err(UnsupportedControlFlow)
      else
        var stmt :- FlatLine(line);
        After(AsList(stmt), Walk(lines, i + 1))
  }

  /** The statements of a shell source. */
  function ScriptOf(source: string): Script {
    Walk(TrimAll(Lines(Splice(source))), 0)
  }

  method ParseScript(source: string) returns (r: Script)
    ensures r == ScriptOf(source)
  {
    hide FirstKeyword, ControlFlowKeyword, BlockAt, CaseAt, FlatLine, Splice, Lines;
    var spliced := SpliceLineContinuations(source);
    var lines := TrimAll(Lines(spliced));
    var stmts: seq<Stmt> := [];
    var i := 0;
    AfterNothing(Walk(lines, 0));
    while i < |lines|
      invariant 0 <= i <= |lines|
      invariant ScriptOf(source) == After(stmts, Walk(lines, i))
    {
      var line := lines[i];
      if IsSkipped(line) {
        i := i + 1;
      } else if FirstKeyword(line) in BLOCK_OPENERS {
        TrimTwice(Lines(spliced)[i]);
        var block := ParseBlock(lines, i);
        if block.Err? {
          return Err(block.error);
        }
        AfterAfter(stmts, [block.value.0], Walk(lines, block.value.1));
        stmts, i := stmts + [block.value.0], block.value.1;
      } else if FirstKeyword(line) == KCase {
        var block := ParseCase(lines, i);
        if block.Err? {
          return Err(block.error);
        }
        AfterAfter(stmts, [block.value.0], Walk(lines, block.value.1));
        stmts, i := stmts + [block.value.0], block.value.1;
      } else {
        if ControlFlowKeyword(line) != NoKeyword {
          return Err(UnsupportedControlFlow);
        }
        var stmt := LowerFlatLine(line);
        if stmt.Err? {
          return Err(stmt.error);
        }
        AfterAfter(stmts, AsList(stmt.value), Walk(lines, i + 1));
        stmts, i := stmts + AsList(stmt.value), i + 1;
      }
    }
    assert stmts + [] == stmts;
    return Ok(stmts);
  }
}
