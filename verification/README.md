# Verified model of the xpile transpiler's hard cores

A Dafny model of the parts of xpile where one piece of code has to undo, or agree with, another, and proofs that it
does. Every core is modelled with the branches, edge cases and refusals of the source, over ASCII text as `seq<char>`.

## The shell lane

`bashrs-frontend` turns a POSIX shell script into statements and `bashrs-backend` prints statements as a script.
The modules follow the stages: `Splicer` joins continued lines, `Tokenizer` cuts a line into quoted and bare tokens,
`FlatLines` lowers one command line, `Blocks` reads loops and conditionals by mutual recursion over segments,
`Regions` collects those segments with a depth counter, `Cases` reads `case`, `Scripts` walks the lines; `Printer` is
the way back, and `Indentation` gives its exact lines. Each loop of the source is a method proved against a recursive
function, and the theorems are about the functions:

- `ScriptRoundTrips`: for every well-formed script, of any nesting, the emitted file is read back as the script;
  exactly the same script if and only if no body is empty, and the same file in any case. `WellFormed` states, as
  predicates over the text, what the code needs for that: no `;` inside a block line, no reserved word in a command
  position, literals that stay one token, patterns free of `|`, `)` and `;`, and so on.
- `FlatSourceExactly`: which accepted sources of flat lines come back from their emitted file, if and only if. The
  conditions are the guards that fail: a continued line, a parenthesis in a rendered substitution, and a pipeline whose
  printed line is a here-document or starts with `&` or an assignment. `FlatExactly` shows that no other guard can fail.
- `TameComesBack`: the same direction for accepted sources with blocks and cases, whose flat lines satisfy those
  conditions.
- `LineSays`, `CommandSource`, `ForSays`, `HeadSays`: what is read, said by the text that is written. `Spellings` has a
  constructor for every way to write a word, and says for each what it means; `CommandPositions`, `BlockTexts` and
  `CaseTexts` do the same for reserved words, segments and `case`, with the text of each refused form.
- `ParserConsumesWholeRegion`: the depth counter and the recursive parser agree wherever a line opens a block.
- `BlockParsesExactly`: the parser is sound and complete for a grammar given as concrete syntax trees. That grammar is
  wider than the one of POSIX.1-2017, Shell Command Language, section 2.9.4: it has empty bodies and text on body
  keywords. `PosixExactly` says which accepted streams the standard's own grammar derives, if and only if.
- `GluedTextDropped`, `CommandLostFromSource`: text on a body keyword is lost without a refusal, and exactly which
  segment streams lose any.
- `NothingIsShredded`: no reserved word becomes the program of a command statement or a pipeline stage, in any
  successful parse. Inside substitutions it can (`KeywordSubstituted`); `ScriptSoundExactly` says which accepted
  scripts are free of it, and of here-documents that the refusal does not see.

## The C lane

`decy-frontend` lexes and parses a subset of C17. `CLexer` and `CParser` are the source's loops and its cursor
object; `CExpressions` and `CStatements` are the same grammar as functions of the remaining tokens. `CPrinting` and
`CModules` print expressions and whole modules. Reading back is proved for every tree at every precedence level,
the printed parentheses are proved to be the fewest possible (`PrintedIsShortest`), and `ModulesExactly` says which
modules have a source at all. `CWords`, `CSpacing`, `CPrecedence` and `CTypes` say over source text what each keyword,
numeral, operator and type spelling means; `CForms` what each form of a statement and a function is
read as, `CRefusals` which token lists are refused, and `CFlags` which declarations become mutable.

## The smaller cores

- `LatexScanner`, `LatexBlocks`, `LatexProofs`, `LatexDocuments`: the LaTeX contract scanner, equation keys, and
  that proof bodies do not reach the block. `LatexLeaks` says exactly which text in front of a proof can make its body
  leak, `LatexBlockLeaks` the same for the parsed block. `LatexObligations` lowers theorem environments, `LatexSpans`
  compares their prose with their formulas, and `LatexOverruns` and `LatexFailures` say exactly which sources fail.
  `LatexTexts`, `LatexPolarity`, `LatexProse` and `LatexOpenings` say over the text of a document what its block holds.
- `ArgCasts`, `ArgCastRuns`, `ReturnCasts`, `RepairLoops`, `CastLoops`: the two cast rules, how often each can apply,
  and the repair loop with the probe and the wall clock as arbitrary oracles; `CastTexts` the rewritten text.
- `Citations`, `CitationLines`: the citation stripper, over the six literal markers, with the exact inputs on which it
  loses a line, changes one that only mentions a marker, or is not idempotent.
- `IntegerOperators`, `FoldOperators`, `FloorDivision`: the laws that the repository checks at eight and sixteen bits or
  small bounds, for all widths and all operands.
- `YamlScalars`: the escape of double-quoted YAML scalars and a reader for them.

`Outcomes`, `Text` and `Search` hold results, string operations of the Rust standard library, and `str::find`.

## Where the code and its comments differ

The model follows the code.

- The module comment of the C frontend defers octal literals (crates/decy-frontend/src/lib.rs:32-34); the lexer
  reads a leading zero as octal (crates/decy-frontend/src/lib.rs:345-356), and so does `CLexer`.
- The comment of the region collector counts loops only (crates/bashrs-frontend/src/lib.rs:1011-1012); the code
  counts `if` and `fi` too.
- The citation stripper is said to leave a line alone when the marker is not at a comment boundary
  (crates/xpile-backend/src/lib.rs:201-202); the code cuts at the earliest marker wherever it stands.
- The return cast is said to be written at most once (crates/xpile-agent/src/repair.rs:453-455); the code writes it
  once for each bare return.
- The prose of an obligation is said to be the body without its math spans
  (crates/latex-contract-frontend/src/lib.rs:193-194); the code recognises other spans there than the scanner does.

Where a promised property is false of the code, there is an input on which it fails and the exact condition under
which it holds:

| promised | input | holds exactly when |
|---|---|---|
| POSIX compound commands only | `EmptyBodiesAccepted`, `CommandLost` | `PosixExactly` |
| every segment reaches the tree | `CommandLostFromSource` | `GluedTextDropped`, `PieceGlued` |
| no keyword becomes a program | `KeywordSubstituted` | `ScriptSoundExactly` |
| here-documents are refused | `HereDocumentSubstituted`, `HereDocumentInCondition`, `HereDocumentBehindComment` | `ScriptSoundExactly` |
| a well-formed script comes back from its emitted file | an empty body | `ScriptComesBack` |
| an accepted script of flat lines comes back from its emitted file | `EmittedScriptDiffers`, `CommentUncovers`, `AmpersandUncovers`, `BackticksUncover` | `FlatSourceExactly` |
| proof bodies do not leak | `UnclosedDollarsLeak`, `SomethingLeaks` | `ProofsKeptExactly`, `BlocksKeptExactly` |
| the parse does not fail | `CiteOverruns`, `StatementRunsOut` | `ParseFailsExactly` |
| the prose of an obligation is the statement without its formulas | `EnvironmentStays` | `SpansAgreeExactly` |
| a mention of a marker is left alone | `MentionIsCut` | `UntouchedExactly` |
| stripping keeps the other lines and is idempotent | an empty last line | `StrippedLines`, `UncitedUnchanged`, `StripTwice` |
| a cast is not cast again | an empty or blank-ended type name | `CastIsCast`, `StepsTaken` |
| the return cast is written at most once | two bare returns | `ReturnStepsTaken` |
| floor division fits in 64 bits | the least integer by minus one | `NothingOverflows` |

## Model

| member | source | states |
|---|---|---|
| Splicer.SpliceLineContinuations | crates/bashrs-frontend/src/lib.rs:421-476 | The run-counting loop computes the two-state automaton in which a backslash pairs with the next character and a backslash-newline pair vanishes. |
| Splicer.SpliceRun | crates/bashrs-frontend/src/lib.rs:421-476 | A run of backslashes before a newline: half of it are kept pairs, and the newline stays exactly when the run is even. |
| Splicer.SpliceKeepsExactly | crates/bashrs-frontend/src/lib.rs:421-476 | Splicing changes nothing if and only if no line but the last ends in an odd run of backslashes. |
| Splicer.SplicedHasNoContinuation | crates/bashrs-frontend/src/lib.rs:421-476 | No line of the spliced text, except one that ends the file, ends in an odd run of backslashes, for every source. |
| Splicer.SpliceIdempotent | crates/bashrs-frontend/src/lib.rs:421-476 | Splicing twice is splicing once, for every source. |
| Text.LinesSay | crates/bashrs-frontend/src/lib.rs:1644-1656 | A line ends at a newline or at a carriage return and a newline; what nothing ends is a line unless it is empty. |
| Tokenizer.TokenizeLine | crates/bashrs-frontend/src/lib.rs:83-310 | The tokenizing loop, with its buffer, comment cut and every refusal, computes the tokens of the line. |
| Tokenizer.ReadDelimited | crates/bashrs-frontend/src/lib.rs:83-310 | What one opening quote, backtick or `$(` reads, and where the scan goes on. |
| Tokenizer.ReadDoubleQuoted | crates/bashrs-frontend/src/lib.rs:83-310 | A double-quoted token ends at the first quote that no backslash is paired with; the pairs stay in it. |
| Tokenizer.ReadArithmetic | crates/bashrs-frontend/src/lib.rs:83-310 | `$((…))` is read to the parenthesis that closes its depth, or to the end of the line. |
| Tokenizer.ReadSubstitution | crates/bashrs-frontend/src/lib.rs:83-310 | `$(…)` is read to its closing parenthesis; an inner `(` refuses. |
| Tokenizer.TokensFit | crates/bashrs-frontend/src/lib.rs:83-358 | The tokens of a line are together no longer than the line, so the text inside a substitution is strictly shorter and its lowering ends. |
| TokenText.TokensReadBack | crates/bashrs-frontend/src/lib.rs:83-310 | Well-formed tokens of all five kinds, printed with single spaces between them, are tokenized to exactly those tokens. |
| TokenText.TokensWellFormedExactly | crates/bashrs-frontend/src/lib.rs:83-310 | Of the tokens the tokenizer produces, the well-formed ones are exactly those that are no substitution with a parenthesis inside and no unclosed arithmetic: the round trip covers everything else. |
| TokenText.RetokenizingIsStable | crates/bashrs-frontend/src/lib.rs:83-310 | Printing the tokens of any line without those two shapes and tokenizing again gives the same tokens. |
| FlatLines.LineHasUnambiguousPipe | crates/bashrs-frontend/src/lib.rs:372-392 | True exactly when some pipe sign has no other beside it. |
| FlatLines.FindHereDoc | crates/bashrs-frontend/src/lib.rs:632-868 | Whether any token is a here-document operator. |
| FlatLines.LowerPipeline | crates/bashrs-frontend/src/lib.rs:632-868 | A pipeline has at least two stages and every stage is a command. |
| Parameters.NamedParameter | crates/bashrs-frontend/src/lib.rs:491-521 | For every POSIX name, `$NAME` and `${NAME}` are that variable. |
| Parameters.SpecialParameter | crates/bashrs-frontend/src/lib.rs:491-537 | A dollar sign and any of `0`..`9`, `@`, `*`, `#`, `?`, `$`, `!`, `-` is that special parameter. |
| Parameters.LiteralExactly | crates/bashrs-frontend/src/lib.rs:491-521 | A token is itself if and only if it is none of these three; and then verbatim. |
| Spellings.WordRead | crates/bashrs-frontend/src/lib.rs:83-310 | Every spelled word (bareword, parameter, quotes, sum, substitution in `$(` or backticks) is one token, whatever follows it at a boundary. |
| Spellings.WordSays | crates/bashrs-frontend/src/lib.rs:312-358 | Every spelled word is lowered to what it says, substitutions at every depth. |
| Spellings.CommandSays | crates/bashrs-frontend/src/lib.rs:632-868 | A command line says its program and its words, whatever blanks stand between them and whatever comment ends it. |
| Spellings.NothingSaid | crates/bashrs-frontend/src/lib.rs:632-868 | Blanks and a comment, or nothing, are no command. |
| Spellings.LineSays | crates/bashrs-frontend/src/lib.rs:632-868 | A flat line that is no assignment and has no lone pipe sign says its command, and is refused as a here-document if and only if a bareword of it holds `<<`. |
| CommandPositions.KeywordExactly | crates/bashrs-frontend/src/lib.rs:568-604 | A line is refused for a keyword if and only if one of the twelve reserved words stands in it, ended by a blank, a separator or the line, with only blanks between it and the start or a `;`, `&` or pipe sign. |
| SpelledLines.AssignmentSays | crates/bashrs-frontend/src/lib.rs:632-868 | `NAME=` and a spelled word assigns what the word says; a second word refuses; `<<` in a bareword of it is a here-document. |
| SpelledLines.EmptyAssignment | crates/bashrs-frontend/src/lib.rs:632-868 | `NAME=` alone, or with a comment behind blanks, assigns the empty text. |
| SpelledLines.GluedRefused | crates/bashrs-frontend/src/lib.rs:83-310 | A quote, backtick or `$(` glued to any bareword refuses the line with its own refusal, whatever follows. |
| SpelledLines.UnclosedRefused | crates/bashrs-frontend/src/lib.rs:83-310 | Behind any command line, a quote, backtick, substitution or sum that nothing closes refuses it with its own refusal. |
| SpelledLines.NestedRefused | crates/bashrs-frontend/src/lib.rs:83-310 | Behind any command line, a substitution with a parenthesis inside refuses it. |
| SpelledLines.DelimitedFirst | crates/bashrs-frontend/src/lib.rs:632-868 | A line whose first word is quoted or a substitution has no program and is refused. |
| SpelledLines.PipelineSays | crates/bashrs-frontend/src/lib.rs:632-868 | A line with a lone pipe sign is cut at every pipe sign: the pipeline of the stages, refused with fewer than two or at the first blank one; a comment is no stage. |
| SpelledLines.CommandSource | crates/bashrs-frontend/src/lib.rs:1583-1748 | A source of one command line, between blanks, is read as that one command with the words said. |
| SpelledLines.AssignmentSource | crates/bashrs-frontend/src/lib.rs:1583-1748 | A source of one assignment is read as that assignment. |
| Blocks.ParseForHeader | crates/bashrs-frontend/src/lib.rs:875-935 | `for NAME in ITEMS`: the name is an identifier, `in` is there and no item is `do`; there may be no items at all. |
| Blocks.ParseSegmentSeq | crates/bashrs-frontend/src/lib.rs:1117-1203 | The loop over segments, stopping at its terminators, agrees with the recursive reading of the sequence. |
| BlockTexts.PieceSays | crates/bashrs-frontend/src/lib.rs:1030-1060 | A piece between semicolons is no segment if it is blank or a comment, and else itself, unless it starts with `do`, `then` or `else`. |
| BlockTexts.BodyPieceSays | crates/bashrs-frontend/src/lib.rs:1030-1060 | A piece `do COMMAND`, `then COMMAND` or `else COMMAND` is two segments. |
| BlockTexts.PiecesSay | crates/bashrs-frontend/src/lib.rs:1019-1060 | The pieces of a line are those between its semicolons; a comment line has none. |
| BlockTexts.ForSays | crates/bashrs-frontend/src/lib.rs:875-935 | A `for` header by its spelled words: the loop, or which of the four refusals. |
| BlockTexts.ConditionSays | crates/bashrs-frontend/src/lib.rs:944-1000 | A `while` or `until` condition is the text behind the keyword; none refuses. |
| BlockTexts.SequenceRefuses | crates/bashrs-frontend/src/lib.rs:1117-1203 | By the first word of the next segment: a stray keyword, a nested `case`, text on a closer, a keyword behind an operator, and the missing end are each refused as such. |
| BlockTexts.HeadRefuses | crates/bashrs-frontend/src/lib.rs:1207-1292 | A loop without `do`, a conditional without `then` or without a condition. |
| Grammar.BlockParsesExactly | crates/bashrs-frontend/src/lib.rs:1098-1292 | A segment stream parses to one block and nothing more if and only if the parser's grammar derives it, a grammar with empty bodies and with text on body keywords. |
| Grammar.BlockHasDerivation | crates/bashrs-frontend/src/lib.rs:1117-1292 | Soundness: whatever the parser accepts has a derivation that spells exactly the segments read and means the statement returned. |
| Grammar.DerivationIsParsed | crates/bashrs-frontend/src/lib.rs:1117-1292 | Completeness: a stream that a derivation spells is parsed to the statement the derivation means, to its last segment. |
| Grammar.Unambiguous | crates/bashrs-frontend/src/lib.rs:1117-1292 | Two derivations of one stream mean the same statement. |
| Posix.PosixExactly | crates/bashrs-frontend/src/lib.rs:1098-1292 | The blocks of the POSIX grammar (POSIX.1-2017, Shell Command Language, section 2.9.4: bare body keywords, a command in every body) are exactly the streams that parse to one block to the end, whose body keywords are bare and whose bodies each hold a command. |
| Posix.PosixRegions | crates/bashrs-frontend/src/lib.rs:1098-1106 | A region of source lines that is accepted is a block of the POSIX grammar if and only if no body keyword in it carries text and no body is without a command. |
| LostText.EmptyBodiesAccepted | crates/bashrs-frontend/src/lib.rs:1207-1292 | For every condition, `while … do done` and `if … then fi` with nothing in them are accepted, and neither is a block of the POSIX grammar. |
| GluedText.UngluedSame | crates/bashrs-frontend/src/lib.rs:1117-1292 | Spelling the body keywords of a derivation bare changes its segments if and only if one of them carries text. |
| GluedText.GluedTextDropped | crates/bashrs-frontend/src/lib.rs:1117-1292 | Every stream that parses to a block parses to the same block without the text on its `do`, `then` and `else` segments; text is lost if and only if such a segment carries any. |
| GluedText.PieceGlued | crates/bashrs-frontend/src/lib.rs:1036-1060 | The collector leaves text on a body keyword exactly where two body keywords stand in a row with text behind them. |
| LostText.CommandLost | crates/bashrs-frontend/src/lib.rs:1227-1292 | For every condition and text: `if CONDITION`, `then`, `else TEXT`, `fi` is accepted as a conditional with both bodies empty. |
| LostText.CommandLostFromSource | crates/bashrs-frontend/src/lib.rs:1583-1748 | The source lines `if CONDITION`, `then else TEXT`, `fi` are accepted as that one conditional: the command is gone without a refusal. |
| Regions.CollectBlockRegion | crates/bashrs-frontend/src/lib.rs:1019-1092 | The depth-counting collector computes the region: its segments and the line after it. |
| Regions.DerivationBalanced | crates/bashrs-frontend/src/lib.rs:1019-1092 | Every derived block has depth zero. |
| Regions.RegionDepth | crates/bashrs-frontend/src/lib.rs:1019-1092 | The segments the collector returns reach depth zero only at their end, from any depth it starts with. |
| Regions.OpenedRegion | crates/bashrs-frontend/src/lib.rs:1019-1106 | A region collected from an opening line starts with that opener, has depth zero, and no proper prefix of it has. |
| Regions.ParserConsumesWholeRegion | crates/bashrs-frontend/src/lib.rs:1019-1106 | Whenever the recursive parser succeeds on a collected region, the end index that `parse_block` throws away is the number of segments. |
| Regions.ParseBlock | crates/bashrs-frontend/src/lib.rs:1098-1106 | Collecting, dispatching and parsing one block. |
| Cases.CaseRegionEnd | crates/bashrs-frontend/src/lib.rs:1343-1492 | The line past the `esac` that brings the `case` depth to zero. |
| Cases.CollectSegments | crates/bashrs-frontend/src/lib.rs:1301-1330 | The segments of an arm body, with body keywords cut off, in order. |
| Cases.ParseArms | crates/bashrs-frontend/src/lib.rs:1343-1492 | The arms of the `;;` chunks in order, empty chunks skipped. |
| CaseTexts.HeadSays | crates/bashrs-frontend/src/lib.rs:1343-1492 | From `case` to `esac`: the word and the text of the arms, whatever blanks stand between, unless the text holds `;&`. |
| CaseTexts.HeadRefuses | crates/bashrs-frontend/src/lib.rs:1343-1492 | Without a word, without `in` behind it, without `esac` at the end. |
| CaseTexts.ArmSays | crates/bashrs-frontend/src/lib.rs:1343-1492 | An arm's patterns stand between its bars, missing ones dropped, and its body behind the parenthesis. |
| CaseTexts.ArmsCut | crates/bashrs-frontend/src/lib.rs:1343-1492 | Arms are cut at the `;;` between them and nowhere else. |
| CaseTexts.NoArms | crates/bashrs-frontend/src/lib.rs:1343-1492 | Nothing but blanks between `in` and `esac` refuses. |
| Scripts.ParseScript | crates/bashrs-frontend/src/lib.rs:1583-1748 | The line walk over the spliced source: comments skipped, blocks and cases taken whole, reserved words refused, everything else a flat line. |
| NoShredding.FirstBareIsFirstWord | crates/bashrs-frontend/src/lib.rs:83-310 | If the first token of a line is a bareword it is the first word of the line, unless it is an arithmetic expansion. |
| NoShredding.CoarsePieceStartsFinePiece | crates/bashrs-frontend/src/lib.rs:568-604 | Where a line is cut at fewer separators, every piece begins with a piece of the finer cut, and only the first one with the first. |
| NoShredding.StageHasNoKeyword | crates/bashrs-frontend/src/lib.rs:568-868 | If no command position of a line holds a reserved word, no pipeline stage of it starts with one. |
| NoShredding.FlatLineUnshredded | crates/bashrs-frontend/src/lib.rs:568-868 | No program of a lowered flat line, pipeline stages included, is a control-flow keyword. |
| NoShredding.BlockUnshredded | crates/bashrs-frontend/src/lib.rs:1098-1292 | The same for every command statement of a parsed block, at any depth. |
| NoShredding.CaseUnshredded | crates/bashrs-frontend/src/lib.rs:1343-1492 | The same for every command statement of every case arm. |
| NoShredding.NothingIsShredded | crates/bashrs-frontend/src/lib.rs:568-604 | In every successful parse of every source, no command statement at any depth and no pipeline stage has a control-flow keyword as its program. |
| SurfaceGuards.KeywordSubstituted | crates/bashrs-frontend/src/lib.rs:312-358 | Inside a substitution it is otherwise: `echo $(WORD)` is accepted for every control-flow keyword, which becomes the program. |
| SurfaceGuards.SubstitutionUnguarded | crates/bashrs-frontend/src/lib.rs:632-868 | A line `echo $(…)` is accepted with whatever well-formed command stands in the substitution. |
| Faults.SubstitutedProgram | crates/bashrs-frontend/src/lib.rs:312-358 | A lowered substitution runs a control-flow keyword if and only if its text starts with one, and then that one. |
| Faults.LoweredSound | crates/bashrs-frontend/src/lib.rs:312-358 | A lowered argument is free of shredded keywords, or of here-document operators, at every depth if and only if its token is. |
| Faults.FlatLineSound | crates/bashrs-frontend/src/lib.rs:632-868 | The same for a whole accepted line, over the tokens of its arguments, its value or its stages. |
| Faults.TreeSound | crates/bashrs-frontend/src/lib.rs:1117-1292 | The same for everything a derivation means, over the items, conditions and lines of its segments. |
| Faults.ScriptSoundExactly | crates/bashrs-frontend/src/lib.rs:568-706 | For every accepted source: no program at any depth, substitutions included, is a control-flow keyword if and only if no substitution read from it starts with one; and no here-document operator is left if and only if none is among those tokens or in a condition. |
| SurfaceGuards.HereDocumentSubstituted | crates/bashrs-frontend/src/lib.rs:632-706 | The here-document refusal does not see `echo $(cat <<EOF)`. |
| SurfaceGuards.HereDocumentInCondition | crates/bashrs-frontend/src/lib.rs:632-706 | Nor `if cat <<EOF`, because conditions are opaque. |
| SurfaceGuards.HereDocumentBehindComment | crates/bashrs-frontend/src/lib.rs:632-868 | Nor the operator behind a comment sign and a pipe sign: the line is cut at the pipe sign all the same and read as a pipeline. |
| Printer.RenderPipeline | crates/bashrs-backend/src/lib.rs:243-287 | Stages joined by blank-padded pipe signs, refused exactly when one is not a renderable command. |
| Printer.IndentBody | crates/bashrs-backend/src/lib.rs:149-177 | A body's lines behind the indent, or the no-op for an empty body. |
| Printer.RenderShellLoop | crates/bashrs-backend/src/lib.rs:105-142 | The loop's text; it renders exactly when its header and body do. |
| Printer.RenderClause | crates/bashrs-backend/src/lib.rs:149-177 | One `if` or `elif` clause. |
| Printer.RenderElse | crates/bashrs-backend/src/lib.rs:149-205 | The peel loop writes a chain of lone nested conditionals as `elif` clauses and the rest as `else`. |
| Printer.RenderShellIf | crates/bashrs-backend/src/lib.rs:149-205 | The whole conditional. |
| Printer.RenderShellCase | crates/bashrs-backend/src/lib.rs:213-228 | Every arm with its patterns, its body lines and `;;`. |
| Printer.JoinArm | crates/bashrs-backend/src/lib.rs:213-228 | The lines of one arm body behind its patterns. |
| Printer.RenderStmt | crates/bashrs-backend/src/lib.rs:243-287 | The text of any statement; it renders exactly when every part does. |
| Printer.EmitScript | crates/bashrs-backend/src/lib.rs:452-600 | The emitted file: the header lines, then the statements or the placeholder comment. |
| FlatRoundTrip.ArgRoundTrip | crates/bashrs-frontend/src/lib.rs:312-358 | A well-formed argument is lowered from its own spelling, substitutions included. |
| FlatRoundTrip.CommandRoundTrip | crates/bashrs-frontend/src/lib.rs:632-868 | A well-formed command line is lowered to its command. |
| FlatRoundTrip.PipelineRoundTrip | crates/bashrs-frontend/src/lib.rs:632-868 | A well-formed pipeline line is lowered to its pipeline. |
| FlatRoundTrip.AssignmentRoundTrip | crates/bashrs-frontend/src/lib.rs:632-868 | A well-formed assignment line is lowered to its assignment. |
| FlatRoundTrip.FlatRoundTrips | crates/bashrs-frontend/src/lib.rs:632-868 | Every well-formed flat statement comes back from its own line, which does not start with a reserved word. |
| WellFormed.PadKeepsExactly | crates/bashrs-backend/src/lib.rs:105-205 | Padding empty bodies with the no-op changes a tree if and only if it has one. |
| WellFormed.PadPrintsSame | crates/bashrs-backend/src/lib.rs:105-205 | A tree and its padded form have the same text. |
| Derivations.HeaderRoundTrip | crates/bashrs-frontend/src/lib.rs:944-1000 | A printed loop header is parsed to its loop kind. |
| Derivations.BlockDerives | crates/bashrs-frontend/src/lib.rs:1117-1292 | The segments of a printed block are derived by the grammar, with `elif` for a lone nested conditional, and mean the padded block. |
| Layout.StmtLaidOut | crates/bashrs-backend/src/lib.rs:105-287 | The lines of a statement's text, trimmed, are the lines of its skeleton, at every nesting depth. |
| Indentation.StmtIndented | crates/bashrs-backend/src/lib.rs:105-287 | The exact lines of a statement's text: one tab for every body around a line, two inside an arm, at every nesting depth. |
| Indentation.BackslashedAt | crates/bashrs-backend/src/lib.rs:42-90 | A backslash-quoted argument is each of its characters behind a backslash. |
| Indentation.EmptyScript | crates/bashrs-backend/src/lib.rs:603-620 | A script without statements is its header and one remark. |
| BlockRoundTrip.BlockCollected | crates/bashrs-frontend/src/lib.rs:1019-1092 | Collecting the lines of a printed block, at any depth, gives exactly the segments its derivation spells and goes on at the line after it. |
| ArmBodies.SkeletonIsArmLines | crates/bashrs-frontend/src/lib.rs:1343-1492 | No line of a printed arm body opens or closes a `case`, and no `;` of it can be taken for the end of the arm. |
| ArmBodies.SkeletonSegments | crates/bashrs-frontend/src/lib.rs:1301-1330 | The segments of a printed arm body are the segments of its statements. |
| CaseRoundTrip.CaseRoundTrips | crates/bashrs-frontend/src/lib.rs:1343-1492 | A printed `case` is read as its word and its padded arms, and the walk goes on just past its `esac`. |
| ScriptRoundTrip.BlockRoundTrips | crates/bashrs-frontend/src/lib.rs:1098-1106 | A printed loop or conditional is read as its padded form, wherever it stands. |
| ScriptRoundTrip.ScriptRoundTrips | crates/bashrs-frontend/src/lib.rs:1583-1748 | Through splicing, line walk, region collection, block and case parsing, tokenizing and lowering, the emitted file of any well-formed script gives back the script, empty bodies as the no-op. |
| ScriptRoundTrip.ScriptComesBack | crates/bashrs-backend/src/lib.rs:105-287 | Exactly the same script comes back if and only if no loop or then body is empty. |
| LostLines.EmittedScriptDiffers | crates/bashrs-backend/src/lib.rs:452-600 | For any two words: a source with a backslash and a blank at the end of its first command is accepted as two commands, and its emitted file is accepted as one. |
| FlatReturns.FlatExactly | crates/bashrs-frontend/src/lib.rs:632-868 | For every accepted flat line: the statement's printed line is accepted as the same statement if and only if no rendered substitution holds a parenthesis and, for a pipeline, the printed line is no here-document and starts with no `&` and no assignment. |
| Machines.KeywordRefused | crates/bashrs-frontend/src/lib.rs:568-604 | The keyword refusal as a finite machine that reads the line once: it ends in its finding state if and only if a reserved word stands in a command position. |
| Machines.PipeFound | crates/bashrs-frontend/src/lib.rs:372-392 | The lone-pipe test as a finite machine, if and only if. |
| Reprints.NothingNewFound | crates/bashrs-backend/src/lib.rs:42-90 | For every tokenized line: printing its tokens, substitutions at every depth included, brings in no reserved word in a command position and no lone pipe sign. |
| Lowerings.ArgumentsExactly | crates/bashrs-frontend/src/lib.rs:312-358 | Of the arguments lowered from any text, those read back from their own spelling are exactly those whose rendered substitution holds no parenthesis; an unclosed arithmetic expansion at the end is read back too. |
| Misreadings.SubstitutionMisread | crates/bashrs-frontend/src/lib.rs:83-358 | A substitution whose rendered text holds a parenthesis is refused or read as something else, whatever follows it. |
| Misreadings.CommandMisread | crates/bashrs-frontend/src/lib.rs:312-358 | A command with such an argument is not read back, whatever follows that argument. |
| Truncations.TruncatedLine | crates/bashrs-frontend/src/lib.rs:421-868 | The printed line of an accepted flat line without its last backslash is never accepted as the same statement. |
| FlatScripts.FlatScriptExactly | crates/bashrs-backend/src/lib.rs:452-600 | A script of statements read from flat lines comes back from its emitted file if and only if every printed line is read back and none is continued. |
| FlatScripts.FlatSourceExactly | crates/bashrs-frontend/src/lib.rs:1583-1748 | The same for every accepted source without blocks, behind any header comments. |
| FlatScripts.FewerLines | crates/bashrs-frontend/src/lib.rs:421-476 | A continued line of the emitted file, if it is not the last, costs the file a line. |
| TameScripts.AcceptedIsWellFormed | crates/bashrs-frontend/src/lib.rs:1098-1748 | For every accepted source, blocks and cases included: if its statements are tame, they are well-formed. |
| TameScripts.TameComesBack | crates/bashrs-backend/src/lib.rs:452-600 | The emitted file of a tame accepted source is read as the same script if and only if no body is empty. |
| LostLines.CommentUncovers | crates/bashrs-frontend/src/lib.rs:632-868 | A pipeline with a comment in front of its second stage is accepted, and its printed line is refused as a here-document. |
| LostLines.AmpersandUncovers | crates/bashrs-frontend/src/lib.rs:632-868 | `&` glued to a pipe sign is accepted as a program, and the printed line is refused. |
| LostLines.BackticksUncover | crates/bashrs-frontend/src/lib.rs:83-358 | For every nestable command: a substitution of it inside backticks is accepted, and its printed line is refused. |
| ScriptRoundTrip.ReprintIsStable | crates/bashrs-backend/src/lib.rs:452-600 | Emitting, parsing and emitting again gives the same file, empty bodies or not. |
| CLexer.ScanDigits | crates/decy-frontend/src/lib.rs:321-343 | The index past a run of digits. |
| CLexer.SkipComment | crates/decy-frontend/src/lib.rs:154-160 | The index past a block comment; an unclosed one takes the rest of the source. |
| CLexer.ReadNumber | crates/decy-frontend/src/lib.rs:320-364 | An integer literal, octal behind a leading zero, or a float literal; each refusal. |
| CLexer.LexOne | crates/decy-frontend/src/lib.rs:142-379 | One pass of the lexing loop: nothing, one token, or a refusal, and the index after it. |
| CLexer.Lex | crates/decy-frontend/src/lib.rs:142-379 | The tokens of a source. |
| CLexer.TokensReadBack | crates/decy-frontend/src/lib.rs:142-379 | Printable tokens, printed with single spaces, are lexed back exactly. |
| CLexer.LexedIsPrintable | crates/decy-frontend/src/lib.rs:142-379 | Every token the lexer produces is printable. |
| CLexer.RelexingIsStable | crates/decy-frontend/src/lib.rs:142-379 | Lexing the printed tokens of any source that lexes gives the same tokens. |
| CWords.WordExactly | crates/decy-frontend/src/lib.rs:365-376 | A word is an identifier if and only if it is none of eleven keywords and no `[u]int[_least or _fast]N_t` name of 64 bits, or of 32 bits unsigned; each such name has the token of its signedness and width. |
| CWords.OctalLiteral | crates/decy-frontend/src/lib.rs:320-364 | A zero in front of the base-eight digits of any number is that number up to the largest 64-bit integer, and refused above. |
| CWords.DecimalLiteral | crates/decy-frontend/src/lib.rs:320-364 | The base-ten digits of any number are that number up to the same bound, and refused above. |
| CWords.NotOctal | crates/decy-frontend/src/lib.rs:320-364 | A leading zero in front of digits with an eight or a nine refuses. |
| CWords.FloatLiteral | crates/decy-frontend/src/lib.rs:320-364 | Digits, a dot and digits that may be missing are one float literal. |
| CSpacing.SpacedRead | crates/decy-frontend/src/lib.rs:142-379 | Words, numerals and operators are lexed to their tokens whatever blanks and comments stand between them and behind them. |
| CSpacing.OpenComment | crates/decy-frontend/src/lib.rs:142-160 | A comment that nothing ends takes the rest of the source with it. |
| CSpacing.UnknownRefused | crates/decy-frontend/src/lib.rs:142-379 | Every character that no token starts with refuses the source and is named. |
| CPrecedence.TighterFirst | crates/decy-frontend/src/lib.rs:750-947 | For any two of the eighteen binary operators and any names: over source text the one that C17 ranks tighter binds first, and on one rank the left one. |
| CPrecedence.UnaryFirst | crates/decy-frontend/src/lib.rs:916-947 | Each unary operator binds before each binary one. |
| CPrecedence.ConditionalLast | crates/decy-frontend/src/lib.rs:750-768 | The conditional operator binds last and to the right. |
| CParser.Parser.EatToken | crates/decy-frontend/src/lib.rs:407-415 | The wanted token is consumed or named in the refusal, and then the cursor does not move. |
| CParser.Parser.ParseExpr | crates/decy-frontend/src/lib.rs:750-768 | The conditional operator, right-associative, over the cursor. |
| CParser.Parser.ParseLevel | crates/decy-frontend/src/lib.rs:770-914 | The ten left-associative binary levels, as one loop over the level's operators. |
| CParser.Parser.ParseUnary | crates/decy-frontend/src/lib.rs:916-947 | Chains of unary operators. |
| CParser.Parser.ParsePrimary | crates/decy-frontend/src/lib.rs:949-983 | Literals, names, calls and parentheses. |
| CParser.Parser.ParseCType | crates/decy-frontend/src/lib.rs:645-746 | A scalar type or a pointer to one; `char` only behind a pointer, no second pointer. |
| CTypes.TypeRead | crates/decy-frontend/src/lib.rs:645-746 | Every spelling of a type, in words or by an integer name, is its type; one star makes a pointer, two refuse, and `char` without one refuses. |
| CTypes.SpelledTypes | crates/decy-frontend/src/lib.rs:68-746 | The source text of a function that takes one spelled type and returns another is read as that function with these types, for all names, blanks and comments. |
| CRefusals.NoOperand | crates/decy-frontend/src/lib.rs:949-983 | Where no operand starts, at whatever level, the refusal names what stands there. |
| CRefusals.ParenthesisMissing | crates/decy-frontend/src/lib.rs:949-983 | Any expression in parentheses that something else follows refuses for the parenthesis. |
| CRefusals.LoopReturns | crates/decy-frontend/src/lib.rs:580-617 | A `while` body with a return behind any statements refuses for the return. |
| CRefusals.ReturnMissing | crates/decy-frontend/src/lib.rs:476-502 | A function whose body, whatever its statements, has no return refuses; so does a module without functions. |
| CRefusals.NoParameters | crates/decy-frontend/src/lib.rs:448-474 | `()` and `(void)` say the same. |
| CParser.Parser.ParseParams | crates/decy-frontend/src/lib.rs:448-474 | No parameters for `()` and `(void)`, else a comma-separated list. |
| CParser.Parser.ParseStmt | crates/decy-frontend/src/lib.rs:508-546 | Declarations, assignments, `if` and `while`; anything else refuses. |
| CParser.Parser.ParseIf | crates/decy-frontend/src/lib.rs:552-575 | `else if` nests as the only statement of the else body. |
| CForms.AssignmentForms | crates/decy-frontend/src/lib.rs:508-546 | Token by token: `T NAME = E;` is the declaration and `NAME = E;` the assignment, for every expression. |
| CForms.WhileForm | crates/decy-frontend/src/lib.rs:600-617 | Token by token: a `while` loop with its condition and statements. |
| CForms.IfForms | crates/decy-frontend/src/lib.rs:552-598 | Token by token: a conditional without `else`, with an `else` body, and with another `if` behind the `else`. |
| CParser.Parser.ParseBlock | crates/decy-frontend/src/lib.rs:580-617 | A braced list; an early return is kept in an `if` body and refused in a `while` body. |
| CParser.Parser.ParseBody | crates/decy-frontend/src/lib.rs:476-502 | Statements up to the trailing return, with mutability marked. |
| CParser.Parser.ParseFunction | crates/decy-frontend/src/lib.rs:428-446 | One function. |
| CForms.FunctionForm | crates/decy-frontend/src/lib.rs:428-502 | Token by token: a function with its parameters, its statements, whose reassigned locals are marked, and its return. |
| CForms.ParameterForms | crates/decy-frontend/src/lib.rs:448-474 | Token by token: one parameter, and one with a comma and more behind it. |
| CParser.Parser.ParseModule | crates/decy-frontend/src/lib.rs:417-426 | Functions to the end of the tokens, at least one. |
| CParser.CollectReassigned | crates/decy-frontend/src/lib.rs:1004-1022 | The names assigned at any depth. |
| CParser.SetLetMut | crates/decy-frontend/src/lib.rs:1025-1044 | Every declaration of one of the names becomes mutable, at any depth, and nothing else changes. |
| CParser.MarkMutable | crates/decy-frontend/src/lib.rs:998-1002 | Marks the declarations of exactly the names the statements assign to. |
| CFlags.ReassignedExactly | crates/decy-frontend/src/lib.rs:1004-1022 | The reassigned names are exactly those that a statement at some path into the loop, then and else bodies assigns. |
| CFlags.MarkedExactly | crates/decy-frontend/src/lib.rs:1025-1044 | At every path, marking leaves the statement there and sets the flag of a declaration exactly when it is named. |
| CReadBack.ShownIsOperand | crates/decy-frontend/src/lib.rs:750-983 | At every precedence level the printed expression is read as the next operand of that level, up to exactly its last token. |
| CReadBack.ExpressionRoundTrip | crates/decy-frontend/src/lib.rs:750-983 | Parsing the tokens of any printed expression gives the expression back and leaves the cursor just past it. |
| CShortest.PrintedIsShortest | crates/decy-frontend/src/lib.rs:750-983 | No token list that parses to a tree is shorter than the printed one, so none of its parentheses can be left out. |
| CSources.WritableExactly | crates/decy-frontend/src/lib.rs:142-983 | A tree is what some source text says if and only if its literals and names can be written, and its own text is such a source. |
| CSources.ReprintedReadsTheSame | crates/decy-frontend/src/lib.rs:142-983 | Printing what any text says gives text that says the same. |
| CModules.MarkedFresh | crates/decy-frontend/src/lib.rs:998-1044 | Marking unmarked statements makes each declaration mutable if and only if its name is in the set, and keeps everything else. |
| CModules.StmtRead | crates/decy-frontend/src/lib.rs:508-617 | A printed statement is read back, up to exactly its last token. |
| CModules.FunctionRead | crates/decy-frontend/src/lib.rs:428-502 | A printed function is read back, flags included. |
| CModules.ModuleRead | crates/decy-frontend/src/lib.rs:417-426 | The tokens of a printed module are parsed to the module. |
| CModuleSources.ModulesExactly | crates/decy-frontend/src/lib.rs:68-1044 | The modules that some source is read as are exactly those whose names, literals and types can be written and whose locals are mutable when and only when they are reassigned; each is read back from its own text. |
| CModuleSources.ParseAndLower | crates/decy-frontend/src/lib.rs:68-84 | Lexing and parsing a source computes the module the source is read as, if any. |
| LatexScanner.Scanner.ScanBalancedBraces | crates/latex-contract-frontend/src/lib.rs:545-570 | The argument up to its balancing brace, backslash pairs skipped; where the position ends without one, past the end included. |
| LatexScanner.Scanner.TryTheoremEnv | crates/latex-contract-frontend/src/lib.rs:498-532 | A closed theorem environment with its title, or the position put back. |
| LatexScanner.Scanner.TakeStep | crates/latex-contract-frontend/src/lib.rs:322-485 | One pass of the scanning loop at any position. |
| LatexScanner.Scanner.NextToken | crates/latex-contract-frontend/src/lib.rs:322-485 | The next token of the source, or the end, or the overrun. |
| LatexBlocks.KeyDeterminesIndex | crates/latex-contract-frontend/src/lib.rs:165-182 | Two equation keys are equal only at the same index, whatever their kinds. |
| LatexTexts.KeyDetermines | crates/latex-contract-frontend/src/lib.rs:165-182 | A key tells both the kind and the index of its equation. |
| LatexTexts.FormulaSays | crates/latex-contract-frontend/src/lib.rs:104-182 | A formula alone, in any of the six pairs of delimiters, is one equation, trimmed, under the key of those delimiters. |
| LatexTexts.CitationsSay | crates/latex-contract-frontend/src/lib.rs:104-162 | A contract with or without its note is a citation, a cited key a reference, for all arguments whose braces, outside backslash pairs, are balanced. |
| LatexTexts.DocumentSays | crates/latex-contract-frontend/src/lib.rs:104-162 | A document of well-written pieces is parsed to its formulas, theorems, contracts and citations in the order of the text, or fails because a theorem's statement does. |
| LatexBlocks.InsertMathEquation | crates/latex-contract-frontend/src/lib.rs:165-182 | Inserting adds one equation under a new key and overwrites none. |
| LatexBlocks.ParseToEquations | crates/latex-contract-frontend/src/lib.rs:104-162 | For every source: the failure, or as many equations as top-level formulas, each trimmed under its key, and obligations, citations and references in source order; the failure exactly where `Parsed` fails. |
| LatexObligations.LowerTheoremEnv | crates/latex-contract-frontend/src/lib.rs:200-222 | A theorem environment's polarity, title, formulas in order and prose, or the failure of the scan of its statement. |
| LatexPolarity.PolarityExactly | crates/latex-contract-frontend/src/lib.rs:193-222 | For every theorem environment, title, blanks and statement: the document with `\textbf{Precondition:}` in front of the statement has one obligation, a precondition; without it the same obligation is a postcondition. Title, prose and formulas are the same, and both fail where the statement does. |
| LatexProse.FormalSays | crates/latex-contract-frontend/src/lib.rs:200-246 | The formal half of a well-written statement is its formulas, trimmed, in order, with ` ; ` between them, or `TBD`. |
| LatexProse.FormulaElided | crates/latex-contract-frontend/src/lib.rs:247-279 | A formula in `$`, `\(` or `\[` delimiters is one blank of the prose; an opener that nothing closes stays. |
| LatexProse.PropertySays | crates/latex-contract-frontend/src/lib.rs:247-279 | Blanks between the words of the prose collapse to one, and those around them go. |
| LatexProse.ForeignEnvironment | crates/latex-contract-frontend/src/lib.rs:322-485 | `\begin` with any name but the eleven known ones opens nothing. |
| LatexObligations.CollectMathSpans | crates/latex-contract-frontend/src/lib.rs:228-246 | The formulas of a text, by the scanner again. |
| LatexObligations.StripMathAndCollapse | crates/latex-contract-frontend/src/lib.rs:247-279 | The prose: a blank for every span, then the words with single blanks. |
| LatexFailures.ParseFailsExactly | crates/latex-contract-frontend/src/lib.rs:104-251 | The parse fails if and only if a step of the source's scan, or of the scan of the statement of one of its theorem environments, stands at a citation that runs out. |
| LatexFailures.StatementRunsOut | crates/latex-contract-frontend/src/lib.rs:200-251 | For every theorem environment and key: with an open citation in front of its end the source's own scan is fine and the parse fails. |
| LatexSpans.SpansAgreeExactly | crates/latex-contract-frontend/src/lib.rs:193-279 | For every statement: the prose loses exactly the formulas of the formal half if and only if every formula is a span of its own length and no span starts in what the scanner passes over. |
| LatexSpans.EnvironmentStays | crates/latex-contract-frontend/src/lib.rs:193-279 | An equation environment is in the formal half and stays in the prose. |
| LatexBlocks.OneBlock | crates/latex-contract-frontend/src/lib.rs:104-162 | The tokens leave no choice of block. |
| LatexBlocks.ProofSaysNothing | crates/latex-contract-frontend/src/lib.rs:104-162 | A proof environment anywhere among the tokens adds nothing to the block. |
| LatexProofs.SettledPrefix | crates/latex-contract-frontend/src/lib.rs:322-485 | Text in which every construct is closed contributes its own tokens, and what follows is scanned as if it stood alone. |
| LatexProofs.ProofDiscarded | crates/latex-contract-frontend/src/lib.rs:322-485 | From any position at a proof, its body gives one token without content and the scan goes on behind it. |
| LatexProofs.ProofBodiesDoNotLeak | crates/latex-contract-frontend/src/lib.rs:322-485 | Behind settled text, two sources that differ only in a proof body without the closer have the same tokens. |
| LatexProofs.UnclosedDollarsLeak | crates/latex-contract-frontend/src/lib.rs:322-485 | Behind an unclosed `$$` a proof body that holds `$$` is scanned in the open from there on. |
| LatexLeaks.ProofsKeptExactly | crates/latex-contract-frontend/src/lib.rs:322-485 | For every text in front: no two proof bodies without the closer, and no text behind, make a difference to the tokens if and only if the scan of that text completes all its constructs or ends inside an earlier, unclosed proof. |
| LatexBlockLeaks.BlocksKeptExactly | crates/latex-contract-frontend/src/lib.rs:104-251 | For every text in front: no two proof bodies without the closer, and no text behind, make a difference to the parsed block if and only if the text is settled, ends inside a proof, or holds a theorem that fails the parse in any case. |
| LatexLeaks.StuckPrefix | crates/latex-contract-frontend/src/lib.rs:322-485 | The constructs completed before the first unfinished one give the same tokens whatever backslash-led text follows. |
| LatexLeaks.SomethingLeaks | crates/latex-contract-frontend/src/lib.rs:322-570 | At every other unfinished construct — comment, formula, `$$`, citation, contract, theorem or its title — two proof bodies give different tokens, and a different block. |
| LatexLeaks.OpenProofKeeps | crates/latex-contract-frontend/src/lib.rs:322-485 | An unclosed proof takes the closer of the next one: one token, whatever the body. |
| LatexOverruns.OverrunExactly | crates/latex-contract-frontend/src/lib.rs:322-570 | The scan of a text fails if and only if one of its steps stands at a citation whose argument, the second one of a contract included, is unclosed and ends in a backslash without a partner. |
| LatexOverruns.PastEndExactly | crates/latex-contract-frontend/src/lib.rs:545-570 | The brace scan passes the end of its text if and only if the argument is unclosed and an odd run of backslashes ends it. |
| LatexOverruns.CiteOverruns | crates/latex-contract-frontend/src/lib.rs:545-570 | A citation that holds one backslash and nothing else fails. |
| LatexProofs.OverrunNeedsBackslash | crates/latex-contract-frontend/src/lib.rs:545-570 | The position leaves the source only if the source ends in a backslash. |
| LatexDocuments.DocumentScanned | crates/latex-contract-frontend/src/lib.rs:322-570 | A document of well-written pieces is scanned to exactly the tokens of its pieces, in order, for every formula kind, theorem class, proof, citation, contract with one argument or two, skipped `$$` block and comment. |
| LatexOpenings.UnclosedEnds | crates/latex-contract-frontend/src/lib.rs:322-485 | A formula or proof opener without its closer ends the scan. |
| LatexOpenings.PercentEscaped | crates/latex-contract-frontend/src/lib.rs:322-345 | A percent sign behind one backslash, or behind two, is text; elsewhere it takes its line. |
| LatexOpenings.DollarsAlone | crates/latex-contract-frontend/src/lib.rs:322-485 | A `$$` that no other follows is passed over alone. |
| ArgCasts.SplitTopLevelArgs | crates/xpile-agent/src/repair.rs:433-448 | The pieces between commas outside all brackets, each verbatim. |
| ArgCasts.FindCloseParen | crates/xpile-agent/src/repair.rs:374-391 | The parenthesis that closes the argument list, if there is one. |
| ArgCasts.CastArguments | crates/xpile-agent/src/repair.rs:399-414 | Each argument kept if it ends in the cast, else with the cast; whether any changed. |
| ArgCasts.InsertArgCast | crates/xpile-agent/src/repair.rs:363-425 | The scan over declarations and cast sites to the first site that is not fully cast, rewritten. |
| ArgCastRuns.CastIsCast | crates/xpile-agent/src/repair.rs:399-414 | A cast just written is recognised later if and only if the type name is not empty and does not end in a blank. |
| ArgCastRuns.StepShape | crates/xpile-agent/src/repair.rs:363-425 | A step rewrites one argument list cut at its top-level commas, keeping or casting each argument; everything around it stays, so deleting the inserted casts restores the source. |
| ArgCastRuns.StepCastsOneSite | crates/xpile-agent/src/repair.rs:363-425 | A step is taken if and only if some reachable site is not fully cast, and leaves exactly one fewer. |
| ArgCastRuns.StepsTaken | crates/xpile-agent/src/repair.rs:363-425 | Repetition takes exactly one step for each site that is not fully cast and then ends; with a type name that cannot be recognised it never ends. |
| ReturnCasts.InsertReturnCast | crates/xpile-agent/src/repair.rs:453-468 | The first line that is the bare return value, rewritten; nothing if there is none. |
| ReturnCasts.ReturnStep | crates/xpile-agent/src/repair.rs:453-468 | A step is taken if and only if some line is the bare return value, and leaves exactly one fewer, plus those a type name of several lines brings along. |
| ReturnCasts.ReturnStepsTaken | crates/xpile-agent/src/repair.rs:453-468 | Repetition takes exactly one step for each bare return; with a type name that brings one along it never ends. |
| CastLoops.ArgCastKeepsReturns | crates/xpile-agent/src/repair.rs:363-425 | An argument cast makes and breaks no bare return. |
| CastLoops.TrailIsCastRun | crates/xpile-agent/src/repair.rs:200-300 | Every trail of a loop over the two cast rules, in any order, is a run of cast steps. |
| CastLoops.ReturnsCast | crates/xpile-agent/src/repair.rs:200-300 | A run casts exactly as many returns as it has fewer at its end. |
| CastLoops.RunsEnd | crates/xpile-agent/src/repair.rs:200-300 | There is no endless run over the two rules. |
| CastTexts.RulesAnswer | crates/xpile-agent/src/repair.rs:81-84 | Both cast rules answer exactly the build errors whose text holds `E0308` or `mismatched types`. |
| CastTexts.ArgumentsSplit | crates/xpile-agent/src/repair.rs:433-448 | Arguments whose `(`, `[` and `<` close inside them, joined by commas, are split into exactly those arguments. |
| CastTexts.CallCast | crates/xpile-agent/src/repair.rs:363-425 | In the first call of a text every argument that does not end in `as ABI` gets it behind a blank, and nothing else changes. |
| CastTexts.NothingToCast | crates/xpile-agent/src/repair.rs:363-425 | Blank parentheses at the first call end the search with nothing. |
| CastTexts.NothingCloses | crates/xpile-agent/src/repair.rs:363-425 | So does a first call that nothing closes. |
| CastTexts.CastCallPassed | crates/xpile-agent/src/repair.rs:399-418 | A first call whose arguments are all cast is passed over: only what stands behind it is searched. |
| CastTexts.DeclarationPassed | crates/xpile-agent/src/repair.rs:363-373 | `fn`, blanks and the symbol are passed over: only what stands behind the parenthesis is searched. |
| CastTexts.ReturnCast | crates/xpile-agent/src/repair.rs:453-468 | The first line that says `__r` and nothing else becomes `__r as NATIVE` at the same indentation; every other line and the last newline stay. |
| RepairLoops.RepairLoop.FindRule | crates/xpile-agent/src/repair.rs:200-242 | Nothing exactly when every rule gives nothing; else what some rule gives, and every rule in front of it gives nothing. |
| RepairLoops.RepairLoop.Run | crates/xpile-agent/src/repair.rs:200-242 | For every probe, clock, rule list and limit: at most one evaluation more than the limit; a returned source passed its probe and is reached by exactly the reported number of rule applications, each by the first rule in the list that gives anything; exhaustion says why. |
| RepairLoops.RepairLoop.RunAndCommit | crates/xpile-agent/src/repair.rs:247-259 | The file changes only on a match, and then to the source that passed the probe. |
| RepairLoops.OneOutcome | crates/xpile-agent/src/repair.rs:200-242 | Probe, clock, rules and limit leave no choice of trail or outcome. |
| RepairLoops.CastIterations | crates/xpile-agent/src/repair.rs:200-284 | With the argument-cast rule alone the loop makes no more iterations than there are uncast sites, whatever its budget. |
| Citations.StripContractCitations | crates/xpile-backend/src/lib.rs:203-231 | The loop drops cited lines, cuts inline citations and keeps every other line, in order. |
| Citations.KeptIsUnmarked | crates/xpile-backend/src/lib.rs:171-231 | What is kept of any line contains no citation marker. |
| CitationLines.CitedLineDropped | crates/xpile-backend/src/lib.rs:171-231 | Each of the six literal citations, behind blanks and in front of any text, drops its line. |
| CitationLines.CodeRemains | crates/xpile-backend/src/lib.rs:171-231 | Behind code without a citation, exactly the code without its trailing blanks remains. |
| CitationLines.UncitedKept | crates/xpile-backend/src/lib.rs:171-231 | A line in which none of the six strings occurs is kept as it is. |
| CitationLines.CitedLineGone | crates/xpile-backend/src/lib.rs:171-231 | A cited line in front of a text is as if it were not there. |
| Citations.StrippedLines | crates/xpile-backend/src/lib.rs:203-231 | The lines of the result are exactly the kept lines, if and only if the last kept line is not an empty one that nothing ends. |
| Citations.NoMarkerLeft | crates/xpile-backend/src/lib.rs:171-231 | No line of the result contains a citation marker. |
| Citations.UncitedUnchanged | crates/xpile-backend/src/lib.rs:203-231 | Text without citations comes back unchanged if and only if it is not a single empty line. |
| Citations.StripTwice | crates/xpile-backend/src/lib.rs:203-231 | Stripping twice is stripping once if and only if the first pass does not leave a single empty line. |
| Citations.UntouchedExactly | crates/xpile-backend/src/lib.rs:171-231 | A line is kept as it is if and only if no citation marker is anywhere in it. |
| Citations.MentionIsCut | crates/xpile-backend/src/lib.rs:201-231 | A string literal that only mentions a marker is cut in the middle. |
| Citations.EndedTextStripsOnce | crates/xpile-backend/src/lib.rs:203-231 | On text that ends in a newline, stripping is idempotent. |
| IntegerOperators.ModularExactly | contracts/kani/real_c_binop_is_modular.rs:60-100 | At every width of a bit or more the admitted operators are exactly those for which computing on reduced operands agrees, after reduction, with computing on the operands themselves, wherever both sides are defined. |
| IntegerOperators.WitnessDisagrees | contracts/kani/real_c_binop_is_modular.rs:9-30 | Each other operator, comparisons, logic, shifts and powers included, has operands at which both sides are defined and differ, at every such width. |
| IntegerOperators.ModularCommutes | contracts/kani/real_c_binop_is_modular.rs:60-100 | For the admitted operators both sides are defined and agree, on all integers at every width. |
| IntegerOperators.BitwiseReduces | contracts/kani/real_c_binop_is_modular.rs:60-100 | The low bits of a bitwise result on unbounded two's-complement integers come from the low bits of the operands. |
| IntegerOperators.MachineIsReducedInteger | contracts/kani/real_c_binop_is_modular.rs:9-19 | Evaluating any tree of admitted operators with every leaf and intermediate result reduced equals evaluating over the integers and reducing once. |
| IntegerOperators.Exchange | contracts/kani/real_commutative_monoid_op.rs:52-80 | Two steps of an admitted fold may be exchanged, at any width. |
| IntegerOperators.ReorderedFold | contracts/kani/real_commutative_monoid_op.rs:52-88 | Every permutation of a sequence folds to the same result from the same start, for every admitted operator and width. |
| FoldOperators.ReorderableExactly | contracts/kani/real_commutative_monoid_op.rs:68-88 | The operators whose folds may be reordered are exactly those that are commutative and associative on all integers. |
| FoldOperators.BitTables | contracts/kani/real_commutative_monoid_op.rs:52-67 | Every bit of `&`, pipe and `^` on unbounded two's-complement integers, from the bits of the operands. |
| FoldOperators.StepIsOperator | contracts/kani/real_commutative_monoid_op.rs:52-67 | A fold step at a width is the integer operator, reduced for sums and products. |
| FloorDivision.CorrectedIsFloor | contracts/kani/py_int_arith.rs:163-240 | The corrected truncating quotient and remainder are the floor pair, for every dividend and nonzero divisor. |
| FloorDivision.FloorPairUnique | contracts/kani/py_int_arith.rs:163-190 | There is only one floor pair. |
| FoldOperators.DivisionFloors | contracts/kani/py_int_arith.rs:163-240 | The floor division and modulo of the operator table are the corrected truncating ones, and without a value at zero. |
| FloorDivision.NothingOverflows | contracts/kani/py_int_arith.rs:163-240 | No step leaves 64 bits if and only if it is not the least integer divided by minus one. |
| FloorDivision.EuclideanDiffers | contracts/kani/py_int_arith.rs:195-240 | Euclidean division differs from floor division if and only if the divisor is negative and something is left over. |
| YamlScalars.ReplacementsEscape | crates/xpile-forjar-codegen/src/lib.rs:376-379 | The two successive replacements are one pass that escapes each backslash and quote. |
| YamlScalars.ScalarReadBack | crates/xpile-forjar-codegen/src/lib.rs:376-379 | A reader of double-quoted scalars (YAML 1.2.2, section 7.3.1) recovers the string and stops at the final quote if and only if the string is one printable line. |

## Left out

- Regions.CollectBlockRegion: the depth is unbounded; the source counts in `i32`.
- Regions.ParseBlock: text behind `done` or `fi` on the same physical line is dropped, as the source documents; no lemma claims it is kept.
- Printer.EmitScript: header comments are a parameter; citations, return notes and error wording are not modelled.
- Scripts.ParseScript: the refusal of build-driver dialects by file name and the wrapping of the statements in a module and a function.
- FlatLines.LineHasUnambiguousPipe: quoting is not looked at, as in the source, so a quoted or commented `|` counts.
- TokenText.RetokenizingIsStable: it is about tokens; the text of a line is not recovered from them (`'a'b` gives two tokens).
- CParser.SetLetMut: returns the marked list; the source changes the statements in place.
- CParser.Parser.ParseLevel: the ten binary methods of the source as one method over a table of operators.
- CLexer.ReadNumber: the value of a float literal stays its digits.
- LatexBlocks.ParseToEquations: the constant fields of an equation are not modelled; running past the end is a failure and not a crash.
- ArgCastRuns.StepsTaken: for a type name without brackets and commas; a nested call inside a cast argument is never reached, as in the source, and does not count as a site.
- RepairLoops.RepairLoop.Run: rules are functions of symptom and text; the two cast rules are modelled, the float-print rule is not.
- Citations.StrippedLines: for text without carriage returns, as are the other citation lemmas but those about a single line.
- IntegerOperators.ReorderedFold: subtraction, which is not admitted, can also be reordered behind a fixed start; the admitted set is that of commutativity and associativity.
- TameScripts.TameComesBack: one direction for blocks and cases: a tame source comes back. That a source with blocks which comes back is tame is not claimed; an unclosed arithmetic expansion as the last `for` item, for one, comes back too.
- Posix.PosixExactly: conditions, `for` items and flat lines are taken as the code takes them; a condition that is only a comment is a condition.
- Faults.ScriptSoundExactly: quoted strings, case patterns and arithmetic stay text; a substitution written inside double quotes is not looked into, as in the source.
- Unicode: whitespace, case and multi-byte characters; all text is ASCII characters.
- Recursion depth and allocation: Dafny integers, sequences and stacks are unbounded.
- `collect_emittable`, error labels and method collection of the shell printer: single-branch case analysis.
- The forjar manifest, `sanitize_name` and its command rendering, beyond the scalar escape.
- The real probe (compilers, processes, files), the command line, contracts and sessions, and every other front end and back end.
- What a script, a C function or a formula means when executed: conditions, patterns and formulas are opaque text.
