# Verification of mirage-core

mirage-core is a honeypot: an SSH and telnet server with a fake shell behind
it, a retry queue towards its fleet service, and Python scripts that evaluate
and publish what it recorded. This project models the parts of it that carry
state or an algorithm, and proves what they promise.

- **The shell language** (`ShellSyntax`, `ShellMachine`, `ShellOutcomes`,
  `ShellRefinement`, `ShellLists`, `ShellLaws`, `ShellInputs`, `ShellLeaks`,
  `ShellExitStatus`, `ReadBuiltin`, `ReadLaws`, `ShellInterpreter`). The evaluator signals `break`,
  `continue`, `return`, `exit` and `set -e` through fields that every construct tests, sets, saves and
  restores. It is the function `ShellMachine.RunItems` over a state, which the
  class `Interpreter` computes in place, and it is proved to mean a structured
  big-step semantics. What a simple command other than a control builtin does,
  what its words expand to, and what a pipeline does are parameters (`Lang`),
  so every result holds whatever they are.
- **Its parser** (`ParserText`, `Grammar`, `InPlaceParser`, `ParserPrinter`,
  `ParserWords`, `ParserRoundTrip`, `ParserProducers`, `ParserSubshells`,
  `ParserErrors`). A recursive descent that overwrites the
  statement it is at.
- **Its scanners and its word expansion** (`ShellText`, `Scanners`,
  `Tokenizer`, `WordSplitting`, `Expansions`, `QuotingRoundTrip`,
  `QuotedStages`, `QuotedWords`, `FieldSplitting`, `Pieces`, `Scans`,
  `StatementLaws`, `StageLaws`, `WordLaws`, `ExpansionLaws`). Text is cut where
  its pieces end, quoting is faithful, and the two IFS splitters follow one
  declarative reading.
- **Its arithmetic** (`Arithmetic`, `ArithmeticRoundTrip`, `ArithmeticMeaning`,
  `Decimals`).
- **Its filesystem** (`OverlayTree`, `OverlayRename`, `OverlaySteps`,
  `OverlayEffects`, `OverlayFiles`): an overlay with tombstones over a shared base.
- **The retry queue** (`QueueRecords`, `QueueFates`, `QueueProtocol`,
  `QueueRefinement`): the bytes of its file, its steps with crashes between them, and the proof
  that the first is an encoding of the second.
- **Telnet option negotiation** (`Telnet`, `TelnetQuiet`, `TelnetAnswers`).
- **Upload recording** over SFTP and scp (`Uploads`, `UploadLaws`), **awk's record
  cache** (`AwkRecord`), **Cohen's kappa** (`Kappa`, `KappaPairs`) and **the
  weekly export** (`Export`).

A loop or an object of the source is a method or a class here, proved against
a function of its inputs; the lemmas are about that function. The modules whose
names end in Laws, Effects, Answers, Meaning, Lists, Fates or Pairs say what
such a function means in terms of their own.

## What turned out not to hold

Each of these has a lemma with the input, or the exact condition.

- A `break` in the condition of an `until` ends the loop and stays pending: at
  the top of a session it stops every later line
  (`UntilBreakStopsTheShell`, `LoopLeavesBreak`).
- The status given to `exit` can be replaced: under `set -e` by another failure
  (`ExitStatusReplaced`, `PipedExitReplaced`), and by `exec` of a function
  (`ExecExitReplaced`); `ExitStatusKept` says when it is not.
- `Rename` loses what only a conditional entry leads to, and can leave a name
  in two lists (`RenameMovesSubtree`, `UnlistedStays`, `ListedTwice`).
- `rm -r /` removes the root and nothing below it; after that the walk of
  `mkdir` up from a path with nothing on the way does not end
  (`RemoveKeepsSound`, `WalkEnds`, `WalkAfterRmRoot`).
- `mv` of a file onto itself, or into the directory it is in, loses it
  (`MoveOntoItselfLoses`, `MoveKeepsContent`).
- A quoted first word such as `'A=1'` is taken for an assignment when others
  follow (`ExecutedWords`).
- `if p | while ...` is taken apart at the pipe, with `if p` as the producer
  (`KeywordJoinsProducer`, and `ComesBackIfReadable` for every command).
- `&&` and `||` in arithmetic evaluate both sides (`NoShortCircuit`).
- Assigning OFS changes a `$0` that was not joined yet (`AwkRecord.Cache.SetOFS`).
- `read` from a pipe loses a single blank line at the end
  (`BlankLastLineIsLost`).
- An empty payload in the queue is skipped without being counted
  (`NothingIsLost`, `EndsAreEarned`).

## Model

| member | source | states |
|---|---|---|
| `ShellRefinement.ItemsAgree` | internal/shell/syntax.go:731-849 | For every list, context and state: what the flags say after the flag-driven evaluator has run is exactly one structured outcome (normal, a jump, a return, an exit), with the same store and status; loops take only the innermost break or continue, calls take returns, subshells take returns and exits. Nothing is required of the program, so a `break` in a function reaches the loop that calls it |
| `ShellLists.ListsMean` | internal/shell/syntax.go:731-740 | A list is a tree: `&&` and `||` nest to the left, the left side is exempt from `set -e`, the right side of `&&` runs when the left gives 0, that of `||` when it does not, and `;` runs one tree after another |
| `ShellLists.FlagsRunLists` | internal/shell/syntax.go:731-849 | The evaluator with its flags, from any ready state, agrees with the trees |
| `ShellLists.TwoItems` | internal/shell/syntax.go:737 | `a && b`, `a || b` and `a; b`, whatever a and b are |
| `ShellLists.SetE` | internal/shell/syntax.go:882-890 | `set -e`: a statement that fails ends the shell with its status if and only if the option is on, no condition is being tested and the next item is not joined to it by `&&` or `||`; else the list goes on with `$?` set |
| `ShellRefinement.NodeAgrees` | internal/shell/syntax.go:773-847 | The same for every compound command: if, for, while, until, case, groups, fed loops and groups, function definitions |
| `ShellRefinement.LoopAgrees` | internal/shell/syntax.go:514-563 | The same for the turns of a `while` or `until`, whatever its condition does |
| `ShellRefinement.CallAgrees` | internal/shell/functions.go:54-92 | A call turns a return into its status and passes a break, a continue and an exit on to its caller |
| `ShellRefinement.SubshellAgrees` | internal/shell/shell.go:2208-2219 | A subshell turns a return and an exit into its status, and passes only a jump on |
| `ShellRefinement.ProgramEnds` | internal/shell/shell.go:374-399 | A program ends with the store and the status of its outcome, which is never a return; the shell is as ready for the next line as before if and only if no break or continue is left waiting |
| `ShellMachine.RunItems` | internal/shell/syntax.go:731-849 | Every run terminates (call depth, then syntax, then the turns left of a loop), and leaves `loopDepth`, `errexitOff` and every frame below the innermost as it found them |
| `ShellInputs.ItemsRestore` | internal/shell/syntax.go:731-849 | If the commands that are not modelled only consume lines, so does every run: the counters and the callers are as before, and the loop's input and the standard input keep their presence and are what they were less the lines that were read |
| `ShellInputs.CallRestores` | internal/shell/functions.go:54-92 | After a call the whole stack of frames is the caller's again, its innermost frame included; with a redirect so is the standard input |
| `ShellInputs.FromRestores` | internal/shell/syntax.go:514-563 | A `while` that reads its own lines leaves the input of the enclosing loop untouched |
| `ShellInputs.FedGroupRestores` | internal/shell/syntax.go:504-512 | The producer of a fed group is the standard input inside only |
| `ShellLeaks.LoopLeavesBreak` | internal/shell/syntax.go:545-560 | A loop leaves a break or continue raised behind it if and only if one of the turns it reaches takes one in the condition of an `until` that thereby ends it, or together with an exit or return |
| `ShellLeaks.UntilBreakStopsTheShell` | internal/shell/syntax.go:545-560 | `until break; do ...; done` at the top of a session: no later line of the session runs anything |
| `ShellLeaks.TidyProgramsLeaveNone` | internal/shell/syntax.go:731-849 | With `J` the functions that may jump (any other function must be free of jumps itself): if no condition of an `until` can run `break`, `continue` or a function in `J`, and no `exec` ends in one, a program leaves the shell ready for the next line |
| `ShellLeaks.CommandUntilIsTidy` | internal/shell/syntax.go:545-560 | `until command` meets that condition whatever functions are defined, if the command is no jump |
| `ShellExitStatus.ExitStatusKept` | internal/shell/syntax.go:882-890 | With `E` the functions that may exit by themselves: a program that exits ends with the status that was asked for, if no `exec` runs a function in `E`, and either no command turns `set -e` on, or in functions no loop condition can run `exit`, `exec` or a function in `E`, and no compound command has a `| cmd` tail |
| `ShellExitStatus.CommandLoopIsSteady` | internal/shell/syntax.go:545-560 | A loop over a command that neither exits nor turns `set -e` on meets that condition in any function |
| `ShellExitStatus.ExitStatusReplaced` | internal/shell/syntax.go:882-890 | A program that asks for status 5 under `set -e` in a loop condition and exits with 1 |
| `ShellExitStatus.PipedExitReplaced` | internal/shell/syntax.go:853-877 | A second one: `{ exit 5; } | false` in a function |
| `ShellExitStatus.ExecExitReplaced` | internal/shell/shell.go:1130-1142 | A third program, without `set -e`: `exec f`, where `f` asks for status 5 in the condition of an `if`, ends with 0 |
| `ShellInterpreter.Interpreter.RunExec` | internal/shell/shell.go:374-400 | The object, with its fields saved, set and restored, runs a `bash -c` program as the state function says; after a program that is tidy for any `J` it is ready for the next |
| `ShellInterpreter.Interpreter.RunLine` | internal/shell/shell.go:345-364 | One line of a login shell: a failure under `set -e` ends the line, not the shell; after a tidy line it is ready for the next |
| `ShellInterpreter.Interpreter.RunItems` | internal/shell/syntax.go:731-849 | The loop over a list computes the state function of ItemsAgree |
| `ShellInterpreter.Interpreter.RunItem` | internal/shell/syntax.go:740-847 | One item, with the head of a compound command run before its `| cmd` tail |
| `ShellInterpreter.Interpreter.CallFunction` | internal/shell/functions.go:54-92 | A call pushes and pops its frame, bounded at depth 100 |
| `ShellInterpreter.Interpreter.PopFrame` | internal/shell/functions.go:65-77 | The locals of the frame get their old values back |
| `ShellInterpreter.Interpreter.RunSubshell` | internal/shell/syntax.go:406-444 | A subshell restores directory, variables and flags |
| `ShellInterpreter.Interpreter.RunIf` | internal/shell/syntax.go:785-800 | The branches of an `if`, conditions exempt from `set -e` |
| `ShellInterpreter.Interpreter.RunFor` | internal/shell/syntax.go:801-823 | A `for`, capped at 1000 turns |
| `ShellInterpreter.Interpreter.RunFrom` | internal/shell/syntax.go:514-563 | A `while` or `until`, with the line input saved and restored |
| `ShellInterpreter.Interpreter.RunFedGroup` | internal/shell/syntax.go:504-512 | `producer | { list; }` |
| `ShellInterpreter.Interpreter.RunCase` | internal/shell/syntax.go:834-847 | The first arm whose pattern matches |
| `ShellInterpreter.Interpreter.ExitBuiltin` | internal/shell/shell.go:1114-1129 | `exit`: its status is taken modulo 256, or is 2 for a word that is no number |
| `ShellInterpreter.Interpreter.ExecCommand` | internal/shell/shell.go:1130-1142 | `exec`: the command runs, then the shell halts with its status |
| `ShellInterpreter.Interpreter.ReturnBuiltin` | internal/shell/functions.go:151-166 | `return` outside a function is an error |
| `ShellInterpreter.Interpreter.ShiftBuiltin` | internal/shell/functions.go:168-182 | `shift` in the running frame |
| `ShellInterpreter.Interpreter.LocalBuiltin` | internal/shell/functions.go:125-149 | `local` saves each variable once |
| `ShellLaws.ExitAndReturn` | internal/shell/shell.go:1114-1129 | `exit n` and `return n` for every number: the low eight bits, or 2 when 64 bits do not hold it; `exit` ends a `bash -c` shell and only asks a login shell; `return` needs a function |
| `ShellLaws.ShiftDropsFirst` | internal/shell/functions.go:168-184 | The first n parameters go and the others stay in their order; any other number changes nothing and fails |
| `ShellLaws.UnsetRemoves` | internal/shell/shell.go:1143-1160 | A variable is gone if and only if a word names it while the last of `-f` and `-v` before it is not `-f`, and a function if and only if it is |
| `ShellLaws.LocalsComeBack` | internal/shell/functions.go:125-149 | The last declaration gives a local its value; whatever the function did, on return its locals hold what they held before it declared them, and other variables what it left |
| `ShellLaws.SetReadsOptions` | internal/shell/shell.go:2224-2250 | Each word of flags decides errexit if `e` is among them, `-o errexit` too; what is no option ends them, and an unknown flag fails |
| `ShellLaws.CaseRunsFirst` | internal/shell/syntax.go:834-847 | `case` runs the list of the first arm with a pattern that matches, and no other |
| `ShellLaws.ForValuesInOrder` | internal/shell/syntax.go:801-806 | The values of a `for` are those of its words, one word after the other |
| `ReadBuiltin.WhileReadVisitsEachLine` | internal/shell/syntax.go:514-563 | `while read names; do body; done < file`: the body runs once for every whole line, in order and at most 1000 times, each time after the fields of that line went into the variables, until it breaks, returns or exits; otherwise a last read fails. The enclosing loop's lines are back. The body may do anything but read the loop's lines or redefine `read` |
| `ReadBuiltin.EachLineTakes` | internal/shell/syntax.go:514-563 | After n runs that do not end the loop exactly the first n lines are gone |
| `ReadBuiltin.LastingLeavesLines` | internal/shell/syntax.go:514-563 | A body leaves the lines alone if it does so from every state with a property that lasts from one turn to the next |
| `ReadBuiltin.CommandLeavesLines` | internal/shell/syntax.go:514-563 | A body of one command that leaves them alone itself, such as `echo`, is of that kind wherever the command is not a function |
| `ReadBuiltin.ReadConsumes` | internal/shell/syntax.go:618-636 | `read` takes lines from the front of one input only: the hypothesis of ItemsRestore holds of it |
| `ReadBuiltin.BlankLastLineIsLost` | internal/shell/syntax.go:618-636 | What a pipe holds after a read is what follows the line, if and only if that is not a single blank line, which is lost |
| `ReadBuiltin.NamesGetFields` | internal/shell/syntax.go:600-608 | Each of several different names gets its own field |
| `ReadBuiltin.Read` | internal/shell/syntax.go:568-616 | The loops over arguments, characters and names: the variables, the lines left and the status |
| `ReadLaws.ReadTakesLine` | internal/shell/syntax.go:568-616 | What every variable holds after a line was read: REPLY the line, a name its field (the last of equal names wins), every other variable what it held; status 1 only for a last line without a newline |
| `ReadLaws.ReadFails` | internal/shell/syntax.go:568-616 | Without a line the names, or REPLY, become empty, all else stays, and the status is 1 |
| `ReadLaws.BackslashesGo` | internal/shell/syntax.go:568-616 | Without `-r` a backslash goes and the character after it stays, whatever it is |
| `ParserRoundTrip.ProgramComesBack` | internal/shell/syntax.go:110-166 | The statement list of any nested if, elif, else, while, until, for, case, `{ }`, function, fed loop or fed group, over plain statements and `| cmd` tails, parses to that tree, and every statement is consumed. Producers may stand wherever they can be read (see `ComesBackIfReadable`) |
| `ParserProducers.ComesBackIfReadable` | internal/shell/syntax.go:213-258 | A command that is good in all its parts comes back if and only if nothing but its own producer stands in front of a pipe that feeds a loop or a group: no keyword read by the command itself in front of a loop's producer, and no header of a function and no other producer in front of any. Lists behind `then`, `elif`, `else`, `do` and the patterns of an arm may start with any producer |
| `ParserSubshells.SubshellIsRead` | internal/shell/syntax.go:359-374 | `( list ) tail`, with quotes and nested parentheses in the list: the item has the operator in front of the statement, the list that the text inside parses to by itself, and the tail; an error inside, or an empty list, is an error |
| `ParserErrors.StrayWord` | internal/shell/syntax.go:143-197 | A closing word that nothing waits for is the unexpected token, whatever program is in front of it |
| `ParserErrors.StrayDoubleSemi` | internal/shell/syntax.go:143-166 | So is `;;` outside a `case` |
| `ParserErrors.UnclosedGroup` | internal/shell/syntax.go:168-197 | A group without its `}` ends too early |
| `ParserErrors.UnclosedLoop` | internal/shell/syntax.go:446-479 | So does a `while` or `until` without its `do` or its `done` |
| `ParserErrors.UnclosedIf` | internal/shell/syntax.go:260-294 | So does an `if` without its `then` or its `fi` |
| `ParserWords.FedIsSplit` | internal/shell/syntax.go:683-721 | `producer \| loop` is taken apart at that pipe |
| `ParserWords.KeywordJoinsProducer` | internal/shell/syntax.go:683-721 | A keyword in front of `producer \| command`: the text is taken apart if and only if the command is a `while` or an `until`, and then the keyword is part of the producer |
| `Grammar.StatementsAreShorter` | internal/shell/syntax.go:359-373 | The statements of a text are smaller than the text: the measure by which parsing any statement list ends, subshells included |
| `InPlaceParser.Parser.ReadList` | internal/shell/syntax.go:143-166 | On any statement list at all, the parser that overwrites `stmts` and advances `pos` ends, and gives the tree, or the error, and the remaining statements that the grammar gives |
| `InPlaceParser.Parser.ReadInner` | internal/shell/syntax.go:213-258 | The same for one item: a fed loop first, then a function, then a keyword |
| `InPlaceParser.Parser.ReadIf` | internal/shell/syntax.go:260-294 | The same for `if` |
| `InPlaceParser.Parser.ReadCase` | internal/shell/syntax.go:296-330 | The same for `case` |
| `InPlaceParser.Parser.ReadFor` | internal/shell/syntax.go:332-354 | The same for `for` |
| `InPlaceParser.Parser.ReadLoop` | internal/shell/syntax.go:446-479 | The same for `while` and `until` |
| `InPlaceParser.Parser.ReadFunc` | internal/shell/functions.go:32-49 | The same for a function definition |
| `InPlaceParser.Parser.ReadSubshell` | internal/shell/syntax.go:359-373 | The same for a subshell, whose text is split and parsed by a parser of its own |
| `InPlaceParser.FindFeed` | internal/shell/syntax.go:683-721 | The loop finds the last top-level pipe that a loop follows |
| `InPlaceParser.ClosingParen` | internal/shell/syntax.go:376-400 | The loop finds the parenthesis that closes the first one |
| `InPlaceParser.FirstRawWord` | internal/shell/syntax.go:80-108 | The loop finds the first word outside quotes and parentheses |
| `QuotedWords.QuotedLineComesBack` | internal/shell/tokenizer.go:21-183 | A line of single-quoted words, whatever they hold but a single quote and the marker characters, and whatever the variables hold, is one statement of one stage with exactly those words and no redirect |
| `QuotedWords.WordsComeBack` | internal/shell/splitting.go:142-175 | Tokenizing, expansion and redirect removal give back the words, empty ones included |
| `QuotedWords.LinkedPipelinesComeBack` | internal/shell/tokenizer.go:21-183 | A line of several pipelines of such commands joined by `;`, `&&` and `\|\|`: every pipeline is its own statement, after its own operator, with its own stages |
| `QuotedWords.FieldsOfMarked` | internal/shell/shell.go:781-894 | A marked word expands to itself with its angle brackets hidden, for every IFS |
| `QuotedWords.ExecutedWords` | internal/shell/fileops.go:21-36 | Quoting does not keep a first word from being taken for an assignment: the words that run are the words printed if and only if there is only one or the first does not look like `NAME=value` |
| `QuotingRoundTrip.StatementsOfLine` | internal/shell/tokenizer.go:21-135 | The first scanner on such a line, line numbers included |
| `QuotedStages.StagesOfStatement` | internal/shell/tokenizer.go:140-183 | The second scanner on such a statement |
| `StatementLaws.LineIsCut` | internal/shell/tokenizer.go:21-135 | Any line of plain characters, quoted spans, escaped characters and nested parentheses is cut at each `;`, `;;`, `&&`, `||`, `&` and newline between them and nowhere else; each statement has its operator, and blank ones are dropped |
| `StatementLaws.CommentIsDropped` | internal/shell/tokenizer.go:21-135 | `#` where a word may start drops the rest of its line |
| `StatementLaws.ContinuationVanishes` | internal/shell/tokenizer.go:522-533 | A backslash in front of a newline goes with it, in double quotes too |
| `StageLaws.StagesAreCut` | internal/shell/tokenizer.go:140-183 | A statement of such pieces is cut at each pipe between them and nowhere else |
| `WordLaws.WordsAreRead` | internal/shell/tokenizer.go:304-423 | The words of a stage are what blanks separate; a word is its pieces without quotes and backslashes, a quoted `$` shielded, and with the ends of quoted spans marked when asked |
| `Tokenizer.SplitStatements` | internal/shell/tokenizer.go:21-135 | The loop over the line computes the scanner of StatementsOfLine |
| `Tokenizer.SplitPipeline` | internal/shell/tokenizer.go:140-183 | The loop computes the scanner of StagesOfStatement |
| `Tokenizer.Tokenize` | internal/shell/tokenizer.go:304-423 | The loop computes the scanner of WordsComeBack, marked or not |
| `Tokenizer.ExtractRedirects` | internal/shell/tokenizer.go:211-263 | The loop over the words takes the redirects out |
| `Expansions.ExpandCommandWords` | internal/shell/splitting.go:157-175 | The words of a command, expanded one by one through the object |
| `Expansions.Expansion.ExpandWord` | internal/shell/shell.go:781-894 | The walk over a marked word feeds the object |
| `Expansions.Expansion.AddValue` | internal/shell/splitting.go:52-82 | The result of an expansion, split on IFS in the fields of the object |
| `Expansions.Expansion.AddParams` | internal/shell/splitting.go:88-118 | `$@` and `$*` |
| `Expansions.Expansion.Finish` | internal/shell/splitting.go:122-133 | The fields, with a last empty one only where it was quoted |
| `ExpansionLaws.QuotedAtGivesParameters` | internal/shell/splitting.go:88-120 | `"$@"` gives each parameter as a word of its own, as it is, and no word without parameters |
| `ExpansionLaws.QuotedStarJoins` | internal/shell/splitting.go:88-120 | `"$*"` gives one word, the parameters joined |
| `ExpansionLaws.PlainParametersSplit` | internal/shell/splitting.go:88-120 | Unquoted, each parameter is split by itself, and no two share a word |
| `ExpansionLaws.AssignedParametersJoin` | internal/shell/splitting.go:88-120 | On the right side of an assignment both give one string |
| `ExpansionLaws.CommandKeepsAssignments` | internal/shell/splitting.go:157-175 | The words of a command are split one after another, except that an assignment is kept whole in front of the command name, and as an argument of `export`, `local`, `readonly`, `declare` and `typeset` |
| `ExpansionLaws.OperatorTakesNext` | internal/shell/tokenizer.go:211-263 | Each redirect operator takes the next word as its target and sets its own file and mode |
| `ExpansionLaws.OperatorTakesRest` | internal/shell/tokenizer.go:211-263 | So does an operator with its target behind it, the longest operator being meant |
| `ExpansionLaws.AssignmentsAreStripped` | internal/shell/fileops.go:21-26 | The assignments in front of a command are dropped, but one word always stays |
| `FieldSplitting.ReadingExists` | internal/shell/splitting.go:52-82 | Every text has a reading in the sense of section 2.6.5 of POSIX.1-2017 Shell Command Language: leading white space, then fields each with the separator behind it |
| `FieldSplitting.ExpansionFollowsReading` | internal/shell/splitting.go:52-82 | The fields that expansion makes of a text are those of its reading, which is therefore the only one |
| `FieldSplitting.ReadFollowsReading` | internal/shell/syntax.go:895-929 | `read` with any number of names shares out the fields of the same reading |
| `FieldSplitting.SplittersAgree` | internal/shell/syntax.go:895-929 | For every text, IFS and more names than fields, the two splitters agree, up to empty strings at the end |
| `FieldSplitting.FirstFieldsAgree` | internal/shell/syntax.go:895-929 | With fewer names than fields, all names but the last get what expansion gives |
| `FieldSplitting.SplitReadFields` | internal/shell/syntax.go:895-929 | The index loop, filling an array, computes the `read` of these lemmas |
| `ArithmeticRoundTrip.ArithmeticComesBack` | internal/shell/arith.go:11-197 | The text of any expression tree, with only the parentheses that precedence and left associativity need and with any blanks, evaluates to the wrapping 64-bit value of the tree, whatever the variables hold |
| `ArithmeticRoundTrip.TightTextComesBack` | internal/shell/arith.go:11-197 | The same for the text with no blanks at all |
| `ArithmeticMeaning.TextMeans` | internal/shell/arith.go:11-197 | A text has a value if and only if the tree that it spells means it: sums, differences and products up to multiples of 2^64 in the 64-bit range, quotients and remainders by truncated division, comparisons and logic 1 or 0 |
| `ArithmeticMeaning.BetweenNumbers` | internal/shell/arith.go:50-134 | Two numbers with an operator between them, by the text of the operator |
| `ArithmeticMeaning.AmongNumbers` | internal/shell/arith.go:40-134 | Of two operators the tighter goes first (`||`, `&&`, comparisons, sums, products), and of equally tight ones the left |
| `ArithmeticMeaning.QuotientFits` | internal/shell/arith.go:104-134 | Only -2^63 divided by -1 does not fit 64 bits |
| `ArithmeticRoundTrip.ArithmeticFailsWhenFaulty` | internal/shell/arith.go:104-134 | The evaluation fails if and only if somewhere in the tree something is divided by zero, or a variable does not evaluate |
| `ArithmeticRoundTrip.VariableHoldsExpression` | internal/shell/arith.go:136-197 | A variable that holds the text of an expression has its value, down to 16 levels |
| `ArithmeticRoundTrip.NoShortCircuit` | internal/shell/arith.go:50-58 | `0 && 1/0` fails: `&&` evaluates both sides |
| `Arithmetic.Evaluate` | internal/shell/arith.go:11-16 | The descent that advances a position in place computes the parser of these lemmas, and ends through any chain of variables |
| `Arithmetic.Reader.ReadLevel` | internal/shell/arith.go:40-134 | One accumulator loop for every level of operators |
| `Arithmetic.Reader.ReadUnary` | internal/shell/arith.go:136-197 | Signs, negation, parentheses, numbers and variables |
| `QueueProtocol.NothingIsLost` | internal/fleet/queue.go:90-297 | In every run of enqueue, evict, claim, send, restore, crash and restart steps, a stored payload that is neither empty nor oversized was delivered, rejected for good or evicted, or is in the live or the claimed file |
| `QueueProtocol.EndsAreEarned` | internal/fleet/queue.go:117-249 | One step gives a payload its end only by the server's answer to its own record, by eviction of the oldest, by its size, or because it is empty |
| `QueueProtocol.ExactlyOneEndInOrder` | internal/fleet/queue.go:170-297 | Without crashes, for every interleaving of a drain and any number of enqueuers: each payload has come to an end or waits, never both, and what was dealt with followed by what waits is in the order of enqueuing |
| `QueueProtocol.OtherOnPending` | internal/fleet/queue.go:253-297 | Claiming and every step of restoring leave the queue exactly as it is; eviction takes the oldest live records and no others |
| `QueueProtocol.SendOnPending` | internal/fleet/queue.go:210-249 | A record dealt with leaves from the front; a transient failure changes nothing |
| `QueueProtocol.EnqueueOnPending` | internal/fleet/queue.go:90-113 | A stored payload goes to the end of the queue |
| `QueueRefinement.EnqueueRefines` | internal/fleet/queue.go:90-161 | The bytes of the file after `Enqueue` are the records after the append and the two eviction steps of the protocol |
| `QueueRefinement.DrainRefines` | internal/fleet/queue.go:170-297 | The bytes of the file after `Drain` are the records after the claim, the sends and the restore steps of the protocol, also when an earlier drain left its claimed file behind |
| `QueueRefinement.CrashRests` | internal/fleet/queue.go:190-206 | Whatever was under way, after a crash the files are such that calls can go on |
| `QueueRefinement.Followed.Enqueue` | internal/fleet/queue.go:90-113 | Calling `Enqueue` on the byte-level object extends the protocol run that it stands for |
| `QueueRefinement.Followed.Drain` | internal/fleet/queue.go:170-186 | So does calling `Drain` |
| `QueueRefinement.QueueLosesNothing` | internal/fleet/queue.go:90-297 | So on the byte-level object, started on the files that any run with crashes left, after any calls: every stored payload has come to an end or is a record of the live or the claimed file |
| `QueueRecords.Reader.ReadRecord` | internal/fleet/queue.go:304-333 | With any buffer size: the first line, its exact byte length, and oversized exactly when the payload is above the limit |
| `QueueRecords.Reader.DiscardRecord` | internal/fleet/queue.go:337-351 | Drops up to and including the next newline |
| `QueueRecords.EvictionKeepsNewest` | internal/fleet/queue.go:117-161 | Eviction keeps a suffix of whole records that fits the target |
| `QueueRecords.ExcessIsLeast` | internal/fleet/queue.go:117-161 | And the longest such suffix: the rest fits if and only if at least that many records are dropped |
| `QueueRecords.EvictOldest` | internal/fleet/queue.go:117-161 | The copying loop keeps that suffix and counts the records dropped |
| `QueueRecords.EnqueuedRecords` | internal/fleet/queue.go:90-115 | An enqueued payload becomes the last record and the oldest go if the file is too long; the new one stays if and only if nothing had to go or it fits the target by itself |
| `QueueRecords.DrainedRecords` | internal/fleet/queue.go:253-297 | A drain leaves the undelivered tail and then the newer records |
| `QueueFates.FatesAreAnswers` | internal/fleet/queue.go:210-251 | Record by record: too large, blank, or what the server answers to it after as many requests as there are sendable records before it; the first transient failure stops the drain |
| `QueueFates.OfferedAreRequests` | internal/fleet/queue.go:210-251 | The server is offered the sendable records among those dealt with, in order, and the one that stopped the drain |
| `QueueFates.CountIs` | internal/fleet/queue.go:210-251 | The drop counters count their records |
| `QueueRecords.Queue.Enqueue` | internal/fleet/queue.go:90-113 | The object: the file, its bound and the three counters |
| `QueueRecords.Queue.Drain` | internal/fleet/queue.go:170-186 | The object: what is offered to the server, in order, the file left behind and the counters |
| `QueueRecords.Queue.SendClaimed` | internal/fleet/queue.go:210-249 | The loop offers records up to the first transient failure and returns its offset |
| `QueueRecords.Queue.Restore` | internal/fleet/queue.go:253-297 | The undelivered tail goes in front of what was enqueued since |
| `OverlayRename.RenameMovesSubtree` | internal/shell/vfs.go:202-250 | `Rename` never writes the base, leaves nothing under the old path and changes no other path; and every path under the new one resolves to what it did under the old one if and only if no live path below the old one is listed only conditionally. The order in which the map gives the copies does not matter |
| `OverlayRename.UnlistedStays` | internal/shell/vfs.go:239-250 | A path that only a conditional entry leads to is live neither at its old place nor at its new one |
| `OverlayRename.ListedTwice` | internal/shell/vfs.go:229-235 | The order does matter for one thing: a child copied before its directory ends up in two lists of names, and only then |
| `OverlayRename.LiveIsFound` | internal/shell/vfs.go:239-250 | `collect` finds everything live whose way down is listed |
| `OverlaySteps.RunKeepsSound` | internal/shell/fileops.go:90-131 | In every state that writes, creates, resizes, mkdir, rmdir, rm, cp, mv and Rename reach, each live path but `/` has a live directory above it that names it, and the base is what it was |
| `OverlaySteps.NextKeepsSound` | internal/shell/fileops.go:241-314 | One operation keeps that if and only if it is not `rm -r /` on a writable root |
| `OverlaySteps.RmKeepsSound` | internal/shell/fileops.go:241-271 | The same for `rm` alone |
| `OverlayTree.RemoveKeepsSound` | internal/shell/fileops.go:110-123 | The same for `remove`: for `/` its prefix is `//`, so only the root goes |
| `OverlaySteps.ListingReaches` | internal/shell/vfs.go:60-88 | Walking the listings from `/` reaches exactly the live paths no step to which is only conditional |
| `OverlaySteps.WalkEnds` | internal/shell/fileops.go:288-297 | The walk of `mkdir` up from a path reaches something if and only if something is there on the way to the path |
| `OverlaySteps.WalkAfterRmRoot` | internal/shell/fileops.go:288-297 | After `rm -r /` it does if and only if something below the root was there on that way; otherwise it never ends |
| `OverlaySteps.UnlinkRemovesOnlyUnseen` | internal/shell/vfs.go:180-198 | `rmdir` of what lists as empty takes only hidden bait and what no listing led to with it |
| `OverlaySteps.MoveFile` | internal/shell/fileops.go:341-375 | `mv` of a file: what every path holds afterwards |
| `OverlaySteps.MoveKeepsContent` | internal/shell/fileops.go:341-375 | The content is at the target if and only if the target is another path and no device swallowed it |
| `OverlaySteps.MoveOntoItselfLoses` | internal/shell/fileops.go:341-375 | `mv p p`, and `mv p d` with `d` the directory of `p`, lose the file |
| `OverlayEffects.WriteEffect` | internal/shell/fs.go:403-440 | `>` and `>>`: when it fails, and what every path resolves to afterwards: `>>` leaves what the file held and then the new text, `>` the new text alone, a device takes and keeps nothing |
| `OverlayEffects.CreateEffect` | internal/shell/vfs.go:125-151 | A file that is there keeps its content if and only if it is not truncated; a new one is empty; every other path resolves as before; and why a creation is refused |
| `OverlayEffects.ResizeEffect` | internal/shell/vfs.go:154-163 | The size is kept and the content is not |
| `OverlayEffects.MakeDirEffect` | internal/shell/vfs.go:165-177 | One new directory, or the reason why not |
| `OverlayEffects.MkdirEffect` | internal/shell/fileops.go:273-314 | With the deepest path that is there given: which directories `mkdir` and `mkdir -p` make, and when they fail |
| `OverlayEffects.UnlinkEffect` | internal/shell/vfs.go:180-200 | A file or a directory whose listing shows nothing goes, with everything below; or the reason why not |
| `OverlayEffects.RmEffect` | internal/shell/fileops.go:241-271 | What is at and below the path goes, and nothing else |
| `OverlayEffects.CopyEffect` | internal/shell/fileops.go:341-375 | `cp` leaves content and mode at the target and everything else alone |
| `OverlayEffects.MoveEffect` | internal/shell/fileops.go:341-375 | `mv` of a file is the copy without the source |
| `OverlayEffects.RenameRefusals` | internal/shell/vfs.go:202-225 | When a rename is refused, and why |
| `OverlayEffects.ListingInOrder` | internal/shell/vfs.go:66-90 | A listing shows the entries that can be seen, in the order of their names |
| `OverlayEffects.NewNameIsLast` | internal/shell/fileops.go:90-108 | A new name comes last in its directory, once, and no other directory changes |
| `OverlayFiles.FileSystem.Rename` | internal/shell/vfs.go:202-237 | The object that updates its two maps in place does a Rename in some order of the copies |
| `OverlayFiles.FileSystem.Collect` | internal/shell/vfs.go:239-250 | The recursion over entries finds the live paths found below a directory |
| `OverlayFiles.FileSystem.LayTombstones` | internal/shell/fileops.go:110-123 | The loops over two maps hide everything under the path, in whatever order |
| `OverlayFiles.FileSystem.WriteFile` | internal/shell/fs.go:403-439 | The object writes, appends and creates as the step does |
| `OverlayFiles.FileSystem.CreateFile` | internal/shell/vfs.go:125-151 | The same for CreateFile |
| `OverlayFiles.FileSystem.Mkdir` | internal/shell/fileops.go:273-314 | The same for `mkdir`, with and without `-p`, wherever the walk up ends |
| `OverlayFiles.FileSystem.Unlink` | internal/shell/vfs.go:180-198 | The same for Remove |
| `OverlayFiles.FileSystem.Rm` | internal/shell/fileops.go:241-271 | The same for `rm` |
| `OverlayFiles.FileSystem.CopyFile` | internal/shell/fileops.go:341-375 | The same for `cp` and `mv` |
| `OverlayFiles.FileSystem.ReadDir` | internal/shell/vfs.go:66-88 | The loop lists the visible entries, in the order of the names of the node and then the added ones |
| `TelnetQuiet.OpeningsGoQuiet` | internal/telnet/negotiator.go:86-101 | Two servers that open on each other exchange at most 344 deliveries, however the bytes are cut |
| `TelnetQuiet.RunsEnd` | internal/telnet/negotiator.go:109-223 | From any options on either side and any bytes in flight that end in whole commands, a bound on the number of deliveries is fixed before the first one: no option loop exists |
| `TelnetQuiet.FeedIsLighter` | internal/telnet/negotiator.go:183-223 | Feeding a chunk lowers the weight of what is in flight by at least one, replies included |
| `Telnet.FedTwice` | internal/telnet/negotiator.go:109-173 | `Feed` does not depend on how the bytes are cut into chunks |
| `Telnet.EscapedDataComesBack` | internal/telnet/negotiator.go:109-173 | Any data, with the command byte doubled, arrives as it was, draws no reply and changes no option |
| `TelnetAnswers.DoIsAnswered` | internal/telnet/negotiator.go:183-193 | DO of echo or of suppress-go-ahead draws WILL if and only if the option is not on yet, and turns it on; DO of any other draws WONT |
| `TelnetAnswers.DontIsAnswered` | internal/telnet/negotiator.go:195-200 | DONT of an option that is on draws WONT and turns it off, of any other nothing |
| `TelnetAnswers.WillIsAnswered` | internal/telnet/negotiator.go:202-216 | WILL of the terminal type or the window size draws DO if and only if the server has not asked yet, the first WILL of the terminal type also the request for its name; WILL of any other draws DONT |
| `TelnetAnswers.WontIsAnswered` | internal/telnet/negotiator.go:218-220 | WONT draws nothing and is remembered |
| `TelnetAnswers.OffersAreRecorded` | internal/telnet/negotiator.go:225-234 | Each option offered is recorded once, in order, up to thirty-two |
| `TelnetAnswers.RequestedStays` | internal/telnet/negotiator.go:183-223 | Whatever is fed, the name of the terminal is not asked for again |
| `TelnetAnswers.SubnegotiationIsRead` | internal/telnet/negotiator.go:109-181 | Any payload with its 255s doubled: the first forty printable characters of the name, or the two numbers of the size; more than 64 bytes are too much |
| `TelnetAnswers.ConnectionAgrees` | internal/telnet/negotiator.go:86-223 | After the opening and any stream of bytes, what the server has said and what it believes agree: it uses exactly the options of which it last said so, and expects those it last asked for and the client has not refused |
| `TelnetAnswers.SilentServerSaysNothing` | internal/telnet/negotiator.go:135-144 | A silent server sends nothing but its opening |
| `Telnet.Negotiator.Feed` | internal/telnet/negotiator.go:109-173 | The byte loop over the fields of the object computes the automaton |
| `Telnet.Negotiator.Initial` | internal/telnet/negotiator.go:86-101 | The opening commands; only a negotiator that is not silent remembers what it offered |
| `Telnet.FeedKeepsBounds` | internal/telnet/negotiator.go:175-234 | Whatever is fed: at most 32 options are recorded, none twice, at most 64 bytes of a subnegotiation are kept, and the terminal type is at most 40 printable characters |
| `Uploads.SftpServer.CloseHandle` | internal/server/sftp.go:415-427 | An upload is recorded if and only if the handle was open for writing, the file was emptied by the open or written to, and fewer than 64 are recorded. It is complete if and only if nothing was refused, it was closed cleanly, the file began empty and the writes were sequential; then its hash is of exactly the bytes that its accepted writes, replayed at their offsets, leave in an empty file |
| `Uploads.SftpServer.WriteFile` | internal/server/sftp.go:448-477 | A write to a writable handle is accepted if and only if it fits the limits of file and session and none was refused before; it is charged to the session exactly then, and otherwise refused and remembered |
| `Uploads.SftpServer.Open` | internal/server/sftp.go:363-403 | When an open fails and with which status, what it is charged, and that an opened file has an empty history which says whether the file began empty |
| `Uploads.SftpServer.NewHandle` | internal/server/sftp.go:351-361 | The lowest free handle below 64, or a failure that changes nothing |
| `Uploads.SequentialReplay` | internal/server/sftp.go:448-477 | Sequential writes replayed at their offsets are their data in order |
| `UploadLaws.ReplayKeepsLast` | internal/server/sftp.go:448-477 | Each byte of a replay is that of the last write that has one for its place, and 0 where none has |
| `UploadLaws.CompleteMeans` | internal/server/sftp.go:415-427 | Complete means: closed by the client, begun empty, nothing refused, every write starting where those before it end; and the hash is then that of their data one after another |
| `UploadLaws.OpenRefusals` | internal/server/sftp.go:363-403 | Which opens are refused and how, which change the file and which empty it |
| `UploadLaws.WriteLimits` | internal/server/sftp.go:448-477 | Which writes fit: 64 MiB of a file, 256 MiB of a session, and none after a refusal |
| `Uploads.Receive` | internal/server/scp.go:140-173 | One scp file body: complete exactly when the declared number of bytes and the final zero arrived, with the hash of exactly those bytes; a body above the limit is charged nothing |
| `Uploads.SessionGuard.ReserveUpload` | internal/server/scp.go:31-39 | A reservation is granted if and only if it fits the budget |
| `Uploads.SessionGuard.AppendTransfer` | internal/server/scp.go:42-50 | At most 64 transfers are recorded |
| `AwkRecord.Cache.DoAll` | internal/shell/awk_run.go:201-276 | While OFS stays the same, every sequence of reads and writes of `$0`, fields and NF sees through the lazy cache what it would see of an eager record |
| `AwkRecord.Cache.SetOFS` | internal/shell/awk_run.go:221-227 | Assigning OFS changes `$0` if and only if a field was written since `$0` was last joined, there are two fields or more, and the separator is another |
| `AwkRecord.AssignmentIsLocal` | internal/shell/awk_run.go:243-262 | A field write changes that field only, and pads with empty ones |
| `AwkRecord.ResizeKeepsFields` | internal/shell/awk_run.go:264-276 | Setting NF keeps the fields that are left and pads with empty ones; a negative NF is none |
| `AwkRecord.AssignmentsShow` | internal/shell/awk_run.go:201-276 | What each read and write shows and leaves: a new record is split with the separator in force, any other assignment joins the fields again, and a new separator does not touch the record |
| `AwkRecord.JoinInOrder` | internal/shell/awk_run.go:201-220 | Fields are joined in their order, with the separator between two of them |
| `AwkRecord.RunStaysCoherent` | internal/shell/awk_run.go:201-276 | `$0` is always the text that was split or the join of the fields |
| `Kappa.KappaIsBounded` | scripts/compute_label_agreement.py:81-91 | Kappa is undefined if and only if there are no pairs or all are one class twice; otherwise it lies between -1 and 1, and it is 1 if and only if every cell off the diagonal is zero |
| `KappaPairs.KappaOfPairs` | scripts/compute_label_agreement.py:71-91 | For n pairs of which a agree, and s the sum over the classes of the products of how often each labeller used it, kappa is (n a - s) / (n n - s), and undefined if and only if that is 0 / 0 or there are no pairs |
| `Kappa.ChanceBound` | scripts/compute_label_agreement.py:81-91 | Twice the chance agreement is at most one plus the observed agreement: the inequality behind the lower bound |
| `Kappa.ChanceIsCertain` | scripts/compute_label_agreement.py:81-91 | Chance agreement is 1 if and only if one class holds everything |
| `Kappa.ConfusionMatrix` | scripts/compute_label_agreement.py:71-78 | Each cell counts its pairs; a label outside the classes is an error |
| `Export.Run` | scripts/export_parquet.py:403-447 | Wherever a run stops, the manifest lists only files that are there with the content it says, and both tables of a week or neither; what was listed stays listed; no file is put that was listed at the time; every entry it adds is of a week that is due and holds exactly the rows of its table and protocol that start in that week, in order; and a run that is not cut off lists every week that was due |
| `Export.PublishWeek` | scripts/export_parquet.py:195-224 | Data files first, then the manifest: sound at every put; on success each table is in the store with its own content, and exactly these two entries are new |
| `Export.IndexIsSound` | scripts/export_parquet.py:195-224 | With both files in the store the manifest may list them |
| `Export.CompleteWeeks` | scripts/export_parquet.py:87-94 | The weeks follow one another from the first session on, and every time whose week ended the lag ago is in one of them |
| `Export.WeeksTile` | scripts/export_parquet.py:79-84 | A time is in exactly one week, and the end of a week is the start of the next |
| `Export.WeeksStartOnMondays` | scripts/export_parquet.py:79-84 | Weeks start at whole weeks from Monday 5 January 1970 |
| `Export.WriteTable` | scripts/export_parquet.py:373-400 | The chunk windows and row groups write every row of the week exactly once and no other, in the order of the database |
| `Export.SelectHolds` | scripts/export_parquet.py:386-400 | A window has each row that starts in it as often as the database, and no other |
| `Export.WindowsJoin` | scripts/export_parquet.py:373-400 | Two windows side by side hold what the joint window holds |

## Left out

Weaker than the source, or than one might wish:

- ProgramComesBack: starts from a statement list, and leaves out subshells, whose text is split again inside (`SubshellIsRead` is about one of them). Plain statements are not taken apart, and producers and words hold no quoted or parenthesised text that the parser would look into.
- LineIsCut: for text without the word `case`, as are StagesAreCut, WordsAreRead and SubshellIsRead: in a `case` a parenthesis may be part of a pattern. The number of the line that a statement starts on is not in it.
- WordsAreRead: for words without `$` outside single quotes and backslashes, which opens an expansion that the tokenizer keeps as it is.
- UnclosedIf: for the first branch, and for a plain `if`, as the others are for commands without a producer; a `case` or `for` that is cut off is not in them.
- ExitStatusKept: one direction; a program outside the condition may still keep its status.
- TidyProgramsLeaveNone: one direction; `LoopLeavesBreak` and `ProgramEnds` are the exact conditions on a run.
- Drain: the queue object has no `Enqueue` between the claim and the restore of one `Drain`; those interleavings are on the protocol, where the lock is modelled (`ExactlyOneEndInOrder`).
- EnqueueRefines: for payloads without a newline, which JSON encoding guarantees.
- ExactlyOneEndInOrder: without crashes; after a crash a delivered record may be sent again, and `NothingIsLost` is what remains.
- ConfusionMatrix: a label outside the classes, an exception in the source, is `None`.

Not modelled in the shell's evaluator:

- `${v:?msg}`, which halts a `bash -c` shell with status 127 while words are expanded (internal/shell/paramexp.go:151-159).
- `NAME=value` in front of a command or of a function call, and what it restores afterwards (internal/shell/shell.go:2254-2280).
- Output redirects of function calls and builtins; an input redirect of a call is modelled.
- A `break`, `continue` or `return` in a stage of a pipeline or in `$( )`, which leaves its flag up in the source: a pipeline and an expansion are parameters that change the store and give a status.
- `command`, `sudo`, `sh -c`, `eval` and the other commands that run a command in turn: they are external commands here.
- What is printed, and where, and the number of the line that an item is on.

Not modelled elsewhere in the shell:

- The marker runes of the tokenizer are single characters of the alphabet; the source keeps them in private-use code points of UTF-8 text.
- What stands behind a `$` is a parameter of the expansion, and so are the value of a variable and `strconv.ParseInt` in arithmetic; that the latter reads decimal numbers is a hypothesis of the arithmetic lemmas.
- Owners, times, sizes other than those of uploads, `chmod`, `chown`, `touch` of existing files, and symbolic links; paths are sequences of components, after `path.Clean`.
- awk's parser, expressions, output and streams; field separators are one arbitrary function of text and FS, RS does not change, and field numbers are not bounded.

Not modelled in the other parts:

- Torn appends and disk errors of the queue, and its files as names in a directory.
- Telnet's line discipline, and the terminal type and window size beyond the bytes that are kept.
- SFTP's directory handles, attributes, paths and wire format; scp's directory records and headers; an upload's hash is the bytes that went into it.
- The JSON of the export's manifest, the SQL that rows come from, Parquet, enrichment of rows; a row is its identity and its time.
- Kappa is over the reals; the source computes in floating point.
- SSH, HTTP, the dashboard, storage, the emulated output of commands, and the machine learning scripts.
