# minishell, modelled in Dafny

The model covers the shell from its input line to the commands it starts: the tokenizer, the
hand-driven LALR(1) parser over Bison's packed tables, the here-document machinery between the two,
the index-linked node arena that the reductions build, the execution of AND-OR lists, the
expansion of words, and the wiring of pipelines.

## How it is built

- **Grammar, tables, automaton** (`Grammar`, `ParseTables`, `Automaton`): the 45 productions, the
  tables entry by entry, and the item sets of the 61 states. Each fact about the tables is proved
  over all states and symbols.
- **The machine on values** (`Derivations`, `LrMachine`, `LrParser`, `LrSoundness`,
  `LrCompleteness`): a stack of states and derivation trees. It terminates, accepts exactly the
  derivable token sequences, and returns their only derivation.
- **The arenas** (`Context`, `NodeArena`, `NodeOps`, `Handlers`, `Reductions`, `Syntax`,
  `ParserInvariant`, `ShiftReduce`): the symbol stack and the node arena are sequences that the
  methods update in place. A `Cell` mirrors a chain of records. `Build` says which chain each
  handler leaves, `Combine` which abstract syntax a production has; the invariant ties them
  together for every entry of the stack. `SimpleCommands` reads a simple command off its tokens
  instead, and arrives at the same arguments and redirections.
- **The tokenizer** (`Lexer`, `LexerRules`, `LexerFacts`, `Classification`): one step as a
  function of the line and the lexer's record, and the rules as methods on the record.
- **What the text says** (`ShellText`, `WordUnits`, `Tokenization`, `TextMeaning`, `Unquoting`,
  `Substitution`, `HereBodies`, `WordMeaning`): how operators are spelled, where words, quotes and
  parameters end, what redirections, lists and bodies mean by their text, and which fields a word
  has. All this is told by the characters themselves, without the tests and functions that the
  shell's own steps use, and proved of what those compute.
- **Here-documents and the driver** (`HereDocument`, `HereDescriptors`, `TokenHistory`,
  `RunInvariant`, `TokenFlow`, `Agreement`, `CompleteCommands`, `Execution`, `ParseInput`): the run
  on a line. Ghost fields record its history: the tokens in the order they were lexed, the
  delimiters, what every stretch of the input was read as, and the lists that were run. `HereOrder`
  finds the here-documents of a program among its tokens, and `HereOutcomes` decides from a program's
  line and the lines behind it what becomes of them.
- **Expanding** (`FieldSplitting`, `WordScan`, `InPlaceScan`, `Expansion`): the fields a word is to
  have, what the scan in place makes of the arena, and when the two agree.
- **Running** (`AndOr`, `ExecuteList`, `Pipelines`, `PipelineWiring`, `ListWiring`): what lists and
  pipelines are to do, with opens, forks and redirections that may fail, and the methods that do it
  with descriptors. `WellFormed`, `WordOrigins` and `Readiness` show that whatever the driver runs is
  ready to be wired and expanded, and run it so.
- **Samples** (`Samples`, `SampleRecords`, `Stranding`, `Subshells`): inputs on which the shell does
  otherwise than intended, each with its derivation and the records it has when it is run.

What is foreign to the shell is a parameter. The input is the current line and the lines after it,
at whose end the input ends or is interrupted. The outcome of a pipeline is a function of the list
and the pipeline's record, and so is the environment behind each list; within a pipeline it is a
function of each command's record whether it can be forked and with what status it ends, and of each
redirection's whether its file can be opened. Temporary files are the texts written into them. The
environment is a map. Arenas are sequences with a zeroed element at index 0; a string in the string
arena is one element, and the fields arena, in which splitting works on characters, is a sequence of
characters, behind which lie others that may be any. Every line ends in a newline, as the shell's
reader gives it; the first, which may be a file's last, may have none. A line may hold further
newlines before that.

## What the code does otherwise than intended

- A list in parentheses is not always run in order: the skip loops pass over a pipeline behind a
  newline (`Samples.SkippedCommand`). `AndOr.ListRunsInOrderIff` says exactly when it is.
- A value can be split wrongly behind an open field, as the length of that field is not kept up after
  a split: `$A$B` loses text (`FieldSplitting.SecondSplitLosesText`) or keeps a separator
  (`FieldSplitting.SecondSplitKeepsBlank`, `InPlaceScan.TwoValuesGoWrong`). A quoted empty field in
  front of a value that starts with a separator is lost too. `FieldSplitting.OpenIsRecordedIff` says
  exactly when an open field is ended rightly, `InPlaceScan.WordIsRightIff` exactly when a word is.
- When the input ends within a here-document and another one is waiting on the same line, its body
  is read through a null line. The model stops there with a fault, exactly if it comes to that
  (`ParseInput.ParseInput`, whose result says so of what was read, and `HereOutcomes.FaultIff`, which
  says so of a program's line and the lines behind it; `HereOutcomes.FaultAtEnd` and
  `HereOutcomes.BodyAtEnd` are inputs).
- On a line that does not end in a newline a here-document gets no body: behind further tokens it is
  read from the start of that line itself (srcs/parser/parse_token_flow.c:60-78), whose end the loop
  then passes, and behind none it is not read at all (srcs/parser/parse_input.c:83-102). The model
  stops at that point; `HereOutcomes.AdriftIff` says exactly when, `HereOutcomes.OpenAtEnd` is an input.
- `exit` with an argument that is no number leaves the shell to exit
  (srcs/builtin/builtin_exit.c:39-45), but the parse of the input goes on, and each list completed
  later still starts its first pipeline (`Samples.RunBehindExit`); of that pipeline only the first
  command is tried, and it is started only if it is redirected from or to no file
  (`Pipelines.LaunchesAreWired`). `Execution.ExitStopsListsIff` says exactly when nothing is run. The
  status of that command, if it is a child, is lost: the pipeline's is 0, though it is waited for
  (`Pipelines.StatusIsLastIff`).
- A pipeline can leave a stream of the shell redirected for the commands behind it:
  `Stranding.StrandedOutput` is an input where a redirection of a builtin fails,
  `Stranding.StrandedPipe` one where the shell is to exit and every command could be started.
  `Pipelines.StreamsAreClosedIff` says of every state of the shell exactly when.
- The child of parentheses in a pipeline still takes itself to be in one
  (srcs/execute/execute_simple_command.c:29-31 does not reset what srcs/builtin/execute_builtin.c:77
  tests), so a builtin in its first pipeline runs in a further child: `Subshells.CdIsLost` is an
  input, `Pipelines.SameInPipelineIff` says exactly when it matters.

## Model

| member | source | states |
|---|---|---|
| `ParseTables.RulesMatchGrammar` | srcs/parser/rule_dispatch.c:4-78 | the right-hand side length and left-hand side that `get_rule` gives for each number are those of the grammar production with that number |
| `Automaton.TablesShift` | srcs/parser/yy_table.c:3-29 | in all 61 states and for all 12 terminals the packed tables shift exactly if the state has an item with the dot in front of the terminal, and enter the state the item set prescribes |
| `Automaton.TablesReduce` | srcs/parser/yy_pact.c:3-49 | every reduction the tables choose is by a production whose right-hand side is complete in the state |
| `Automaton.TablesDefault` | srcs/parser/shift_reduce.c:89-105 | without a shift, whatever the lookahead, the state's default reduction or error is chosen |
| `Automaton.TablesGoto` | srcs/parser/stack_ops.c:36-47 | the goto taken after a reduction is the automaton's transition over the left-hand side |
| `Automaton.AccessingSymbol` | notes/shni_grammar_reduced.tab.c:689-698 | every transition enters a state that is only entered over that symbol |
| `Automaton.MoveForward` | notes/shni_grammar_reduced.y:14-119 | moving over the symbol behind the dot leads to a state with the dot moved on |
| `Automaton.MoveBackward` | notes/shni_grammar_reduced.y:14-119 | an item with the dot behind a symbol only comes from the same item with the dot in front of it |
| `LrMachine.ItemOnStack` | srcs/parser/stack_ops.c:24-47 | a state with an item sits on top of exactly the symbols in front of the dot, so pops never pass the sentinel |
| `LrMachine.ReduceFindsRhs` | srcs/parser/shift_reduce.c:15-53 | whenever a reduction is chosen the top of the stack is exactly the production's right-hand side |
| `LrMachine.ReduceKeepsPath` | srcs/parser/shift_reduce.c:15-53 | a reduction keeps the stack a path of the automaton and keeps the tokens the stack derives |
| `LrMachine.ShiftKeepsPath` | srcs/parser/shift_reduce.c:63-87 | a shift keeps the path and appends its token to what the stack derives; no token leads to acceptance |
| `LrMachine.ShiftOfEof` | srcs/parser/shift_reduce.c:63-87 | EOF is accepted only on a stack that holds one finished program |
| `LrParser.ReductionsTerminate` | srcs/parser/parse_input.c:83-102 | with the lookahead fixed every reduction makes a measure of the stack smaller, the empty `linebreak` included |
| `LrSoundness.Soundness` | srcs/parser/shift_reduce.c:89-105 | if a run accepts, the tree it accepts derives exactly the tokens it was given |
| `LrCompleteness.ParseTree` | srcs/parser/shift_reduce.c:89-105 | from any state that can be in front of a derivation, the run over the derivation's tokens puts that derivation on the stack |
| `LrCompleteness.Completeness` | notes/shni_grammar_reduced.y:14-119 | the tokens of every derivation of a program, followed by EOF, are accepted with that derivation |
| `LrCompleteness.AcceptsExactlyDerivable` | srcs/parser/shift_reduce.c:89-105 | a run accepts with a tree if and only if the tree derives the input |
| `LrCompleteness.Unambiguous` | notes/shni_grammar_reduced.y:14-119 | no token sequence has two derivations |
| `Agreement.AgreesReduces` | srcs/parser/shift_reduce.c:15-53 | a reduction on the next token keeps the stack in agreement with a run from the start on every continuation of the input |
| `Agreement.AgreesShifts` | srcs/parser/shift_reduce.c:63-87 | so does shifting the next token |
| `Agreement.AgreesRejects` | srcs/parser/shift_reduce.c:55-61 | at an error no program starts with the tokens read so far |
| `ShiftReduce.PushSymbol` | srcs/parser/stack_ops.c:12-22 | the symbol is pushed with the current state as its own |
| `ShiftReduce.PopSymbols` | srcs/parser/stack_ops.c:24-34 | exactly the top symbols are popped, never the sentinel, and the state is the new top's |
| `ShiftReduce.ReduceApplyGoto` | srcs/parser/stack_ops.c:36-47 | the state after the left-hand side is the automaton's goto |
| `ShiftReduce.ReduceComputeResult` | srcs/parser/reduce_helpers.c:3-27 | every rule's handler, or the first symbol passed on, leaves the chain that stands for the production; the token index is the last symbol's |
| `ShiftReduce.Reduce` | srcs/parser/shift_reduce.c:15-53 | does on the arenas what the machine's reduction does on derivations, keeps the whole invariant of stack and node arena, and never accepts |
| `ShiftReduce.Shift` | srcs/parser/shift_reduce.c:63-87 | shifts the token with its arena index, or accepts EOF |
| `ShiftReduce.ReduceOrStop` | srcs/parser/shift_reduce.c:55-61 | zero is an error that changes nothing, any other number a reduction by that rule |
| `ShiftReduce.Step` | srcs/parser/shift_reduce.c:89-105 | one call does what the automaton decides, on the arenas and on the machine |
| `NodeOps.AllocNode` | srcs/parser/node_utils.c:15-30 | a zeroed record is added behind the others |
| `NodeOps.GetNodeTailIdx` | srcs/parser/node_utils.c:40-53 | the walk ends, at the last record of the chain |
| `NodeOps.AppendNodeToTail` | srcs/parser/node_utils.c:55-66 | overwriting one link makes the two chains their concatenation; no other record changes |
| `NodeArena.LinkTail` | srcs/parser/node_utils.c:55-66 | the arena with the overwritten link holds the concatenated chain |
| `NodeArena.HoldsFrame` | srcs/parser/node_utils.c:32-66 | a chain only depends on the records it uses |
| `Handlers.ReduceFromTerm` | srcs/parser/reduce_from_term.c:3-29 | the word gets one record, an argument or a file name, with its string and its flags |
| `Handlers.SuffixAttachLast` | srcs/parser/reduce_command.c:49-68 | the last redirection or word goes to the end of the command's redirections or arguments |
| `Handlers.ReduceCmdSuffix` | srcs/parser/reduce_command.c:70-85 | a suffix starts or extends a command in place |
| `Handlers.ReduceSimpleCommand` | srcs/parser/reduce_command.c:25-47 | prefix and word become the redirections and the arguments of a new command |
| `Handlers.ReduceSimpleCommandFromSuffix` | srcs/parser/reduce_command.c:3-23 | word and prefix are put in front of what the suffix's command has |
| `Handlers.ReduceSubshellRedirects` | srcs/parser/reduce_command.c:87-99 | the redirections are hung under the subshell's command |
| `Handlers.ReduceSubshell` | srcs/parser/reduce_compound.c:12-24 | the list is hung under a new command flagged as a subshell |
| `Handlers.ReduceCompoundList` | srcs/parser/reduce_compound.c:3-10 | the list is the term's |
| `Handlers.ReduceProgram` | srcs/parser/reduce_pipeline.c:3-9 | a program has no records left |
| `Handlers.ReduceListAppend` | srcs/parser/reduce_pipeline.c:11-20 | the list is appended in place |
| `Handlers.ReduceAndOrConditional` | srcs/parser/reduce_pipeline.c:22-37 | the pipeline gets the operator's flag and is appended to the list |
| `Handlers.ReducePipelineCreate` | srcs/parser/reduce_pipeline.c:39-51 | a pipeline of one command |
| `Handlers.ReducePipelineAppend` | srcs/parser/reduce_pipeline.c:53-66 | the command is appended to the pipeline in place |
| `Handlers.ReduceRedirAppend` | srcs/parser/reduce_redir.c:3-12 | the redirection is appended in place |
| `Handlers.ReduceIoFile` | srcs/parser/reduce_redir.c:14-32 | the file's record gets the flag of its operator |
| `Handlers.SetHereDelim` | srcs/parser/reduce_redir.c:34-45 | the delimiter's string loses its quotes; a quoted one is flagged |
| `Handlers.ReduceIoHere` | srcs/parser/reduce_redir.c:47-68 | the here-document gets a record for the delimiter's string, and tokens are saved from then on |
| `Reductions.BuildDenotes` | srcs/parser/rule_dispatch.c:4-78 | for every production, the chain its handler leaves denotes what the production makes of the meanings of its symbols |
| `Reductions.BuildOwns` | srcs/parser/node_utils.c:15-66 | for every production, the chain uses the records of its symbols and the new ones, each exactly once: chains under different heads are disjoint |
| `Reductions.BuildAscends` | srcs/parser/node_utils.c:40-66 | for every production, links still only lead to larger indices, and a subshell lies below its command |
| `ParserInvariant.ReduceKeepsStack` | srcs/parser/shift_reduce.c:15-53 | after every reduction each stack symbol's chain denotes the abstract syntax of its derivation, owns its own interval of the arena and ascends; each consumed WORD has one owner, in source order; each symbol's token index is its last token's |
| `ParserInvariant.WordsOfResult` | srcs/parser/reduce_from_term.c:3-29 | the owned words of a right-hand side and the one its handler takes are the words of the result's tokens, none lost or doubled |
| `ParserInvariant.ResultTokenOk` | srcs/parser/reduce_helpers.c:14-24 | the result carries the arena index of the last token it derives |
| `ParserInvariant.PendingStack` | srcs/parser/parse_input.c:15-36 | when a list is about to be run the stack is exactly a linebreak and the complete commands |
| `ParserInvariant.RunClearsStack` | srcs/parser/parse_input.c:32-35 | after the arena is cleared no symbol on the stack has a record, and the invariant holds again |
| `SimpleCommands.SimpleCommandIsListed` | srcs/parser/reduce_command.c:3-85 | the arguments of a simple command are its words in source order, the name first; its redirections are those of its operators in source order, prefix before suffix |
| `TextMeaning.LineMeansAsWritten` | srcs/parser/reduce_redir.c:14-32 | wherever it stands in a program that is a line's, by the text of its operators: a simple command reads its words and redirections in order, `<` from a file, `>` into it, `>>` behind it and `<<` from a here-document; `&&` gives the pipeline behind it the flag of AND and two bars that of OR; a single bar joins commands, and parentheses group |
| `TextMeaning.RunMeansAsWritten` | srcs/parser/classify_token.c:3-29 | the same of a program that a run reads from more lines |
| `QuoteRemoval.QuoteRemoveInplace` | srcs/parser/quote_remove.c:3-28 | the buffer afterwards holds the string with each pair of matching quotes dropped; what lies behind it is unchanged, as the write index never passes the read index |
| `Unquoting.RemovedIsUnquoted` | srcs/parser/quote_remove.c:3-28 | what quote removal leaves is the text without its quotes, told as a relation: each quote that is closed goes with the next one like it, and everything else stays |
| `Unquoting.UnquotesOnce` | srcs/parser/quote_remove.c:3-28 | there is one text without the quotes |
| `QuoteRemoval.QuoteRemoveShrinks` | srcs/parser/quote_remove.c:3-28 | quote removal never makes a string longer |
| `AndOr.AndOrMeaning` | srcs/parser/reduce_pipeline.c:22-37 | the list of an AND or OR of `a` and a pipeline is the list of `a` with one more pipeline that carries exactly that operator's flag |
| `AndOr.WalkIsMeaning` | srcs/execute/execute_list.c:46-78 | for every AND-OR derivation and every outcome of its pipelines, the flat walk runs the same pipelines in the same order with the same last status as the left-associative meaning |
| `AndOr.OperatorDecides` | srcs/execute/execute_list.c:55-59 | of `a`, AND and a pipeline, whatever the outcomes: the pipeline is run if and only if `a` leaves status 0 and the shell not to exit; of `a`, OR and a pipeline, if and only if it leaves any other status and the shell not to exit; otherwise what `a` leaves is what is left |
| `AndOr.NextIsDecided` | srcs/execute/execute_list.c:46-64 | for every status: the walk goes on to the next pipeline if it is unconditional, if it is behind an AND and the status is 0, or behind an OR and it is not; else to the first one behind it with the other operator |
| `AndOr.WalkAfterExit` | srcs/execute/execute_list.c:66-78 | a list that is started when the shell is to exit runs its first pipeline and no other, and the flag stays set |
| `AndOr.WalkIsMeaningIff` | srcs/execute/execute_list.c:66-78 | an AND-OR list runs as its meaning under every outcome if and only if it is not started when the shell is to exit |
| `AndOr.ListRunsInOrderIff` | srcs/execute/execute_list.c:15-44 | the list of a derivation of parentheses is run in order under every outcome if and only if it is not started when the shell is to exit and no unconditional pipeline comes after a conditional one |
| `Samples.SkippedCommand` | srcs/execute/execute_list.c:15-44 | `(false && a`, newline, `b)` is a program; the walk over its list ends after `false`, where `b` is to be run |
| `ExecuteList.GetNextWith` | srcs/execute/execute_list.c:15-44 | the skip loop ends, at the next record with the flag or behind the last |
| `ExecuteList.GetNext` | srcs/execute/execute_list.c:46-64 | the record to run next is the walk's; it is the very next one behind an AND if and only if the status is 0, behind an OR if and only if it is not, and always if it is unconditional |
| `ExecuteList.ExecuteList` | srcs/execute/execute_list.c:66-78 | the pipelines that are run, in order, and the status that is left are those of the walk over the list's flags; a flag to exit that is set stays set |
| `Execution.ExitStopsListsIff` | srcs/execute/execute_list.c:66-78 | of the lists of an input nothing is run behind `exit` if and only if no list but the last leaves the shell to exit |
| `Samples.RunBehindExit` | srcs/builtin/builtin_exit.c:39-45 | `exit x`, newline, `a && b` is a program; when `exit` leaves the shell to exit, `a` is still started |
| `LexerRules.LexerState.StartLexToken` | srcs/lexer/lex_tokens.c:15-21 | a token of one character starts where the lexer is, with clear flags |
| `LexerRules.DelimitLexToken` | srcs/lexer/lex_tokens.c:23-47 | the slice becomes a string of its own, with a record of its kind and flags |
| `LexerRules.FindMatchedPair` | srcs/lexer/pair_utils.c:25-53 | the next quote like it closes a quote, and everything up to it is taken; without one the slice is as before; an expansion in double quotes is noted either way |
| `LexerRules.GetExpansionLen` | srcs/lexer/expand_utils.c:21-31 | the length is 2 for `$?`; for a name, every character up to there is a letter, a digit or an underscore, the first one no digit, and the character behind it is none of these |
| `Lexer.ExpansionIsParameter` | srcs/lexer/expand_utils.c:21-31 | the length that lexer, word expansion and here-documents share ends `$?` behind the `?`, and a name where its characters end, told by their ranges |
| `ShellText.SpellingsDiffer` | srcs/parser/classify_token.c:3-29 | no two operators are written alike |
| `LexerRules.ApplyRule1` | srcs/lexer/lookahead_rules1.c:3-15 | at the end of the line what is being built is delimited |
| `LexerRules.ApplyRule2` | srcs/lexer/lookahead_rules1.c:17-30 | an operator takes its second character |
| `LexerRules.ApplyRule4` | srcs/lexer/lookahead_rules1.c:41-53 | in a token that starts or goes on, a quote that is closed is taken up to behind the next one like it, which flags the token; a quote without another one like it is one character |
| `LexerRules.ApplyRule5` | srcs/lexer/lookahead_rules1.c:55-72 | an expansion is taken whole and flags the token |
| `LexerRules.ApplyRule7` | srcs/lexer/lookahead_rules2.c:18-30 | a blank ends a word |
| `LexerRules.ApplyRule9` | srcs/lexer/lookahead_rules2.c:44-52 | a comment is passed over up to its newline |
| `LexerRules.LexToken` | srcs/lexer/lookahead.c:15-46 | one call does on the record and the arenas the step that the first applicable rule prescribes; a word that starts or goes on takes one unit, a closed quote, a parameter or one other character, and is only delimited where a blank, an operator or the end follows |
| `LexerFacts.StepCases` | srcs/lexer/lookahead.c:15-46 | every step keeps the slice of the token ending where the lexer is, and delimits it, extends it, starts one, passes a blank or comment, or finds the end |
| `LexerFacts.StepMakesProgress` | srcs/parser/parse_token_flow.c:9-35 | every call consumes a character, delimits a token or sets the end of the input |
| `LexerFacts.PiecesRebuildLine` | srcs/lexer/lookahead.c:15-46 | for every line, the tokens and the gaps between them in order are the line, and every gap is a blank or a comment |
| `Tokenization.LineIsTokenized` | srcs/lexer/lookahead.c:15-46 | what the tokenizer finds in any line are the tokens of the line, told without its rules: from the first character that is no blank and in no comment, the longest operator written there, or else a word of units, each a closed quote, a parameter or one other character that is no blank and starts no operator, up to a blank, an operator or the end |
| `Tokenization.TokenizesOnce` | srcs/lexer/lookahead.c:15-46 | a line has its tokens, with their flags, in one way only |
| `Tokenization.QuotesAreWhole` | srcs/lexer/pair_utils.c:25-53 | a word does not end within a quote: one that is closed on the line is in the word up to its closing quote |
| `Tokenization.SeparatorIsEnclosed` | srcs/lexer/lookahead_rules1.c:41-53 | a blank or an operator that is within a word lies between a quote of the word and the quote that closes it |
| `Tokenization.QuotesAreFlagged` | srcs/lexer/pair_utils.c:44-51 | a word has the flag of quotes if and only if two quotes in its text are alike |
| `Classification.ClassifiedAsSpelled` | srcs/parser/classify_token.c:3-29 | for each of the ten operators: its spelling is classified as it, and what is classified as it is its spelling, or starts with the newline |
| `Classification.ClassifiedAsLexed` | srcs/parser/classify_token.c:3-29 | a token is classified as a WORD exactly if it was lexed as one, and an operator as the one that it spells; operators take both characters whenever there are two; a lone `&` is none |
| `Classification.ClearFlagsArePlain` | srcs/lexer/pair_utils.c:25-53 | a word's token has the flag of quotes if and only if two quotes in its text are alike; with neither flag the word has no closed quote and no expansion |
| `Classification.LastNewlineIsToken` | srcs/lexer/lookahead.c:34-37 | the newline that ends a line is only ever read as the start of an operator |
| `HereDocument.ReadHereLine` | srcs/lexer/here_read_line.c:11-25 | the next line replaces the current one and the lexer starts over; without one the input is at its end or interrupted |
| `HereDocument.HereLineFollows` | srcs/lexer/here_read_line.c:27-43 | the delimiter's line is consumed, any other left to be written; nothing else is consumed |
| `HereDocument.ExpandHereVar` | srcs/lexer/here_write_line.c:21-43 | the value of the parameter is written, an unset one writes nothing |
| `HereDocument.ExpandHereLine` | srcs/lexer/here_write_line.c:45-64 | what is written is the line with every parameter replaced by its value |
| `HereDocument.WriteHereLine` | srcs/lexer/here_write_line.c:66-78 | one line is consumed; what is written is the line as it is behind a quoted delimiter, and else what it writes with its parameters replaced |
| `HereDocument.ReadBody` | srcs/lexer/here_body_read.c:50-63 | everything consumed is a line of the body or the delimiter's line; the body is what the lines before it write; the loop ends |
| `Substitution.LineIsWritten` | srcs/lexer/here_write_line.c:45-64 | what a line becomes is what it writes, told as a relation: the text with each parameter, taken up to where its name ends, replaced by its value |
| `Substitution.WritesOnce` | srcs/lexer/here_write_line.c:45-64 | a text writes one text only |
| `Substitution.WrittenThrough` | srcs/lexer/here_write_line.c:21-64 | up to its first parameter a line is written as it is, then comes the value, the status or nothing for an unset name, and then what the rest writes |
| `Substitution.WrittenAsIs` | srcs/lexer/here_write_line.c:45-64 | a line in which no parameter starts is written as it is |
| `HereBodies.RunWritesBodies` | srcs/lexer/here_write_line.c:66-78 | of every body that a run has read: behind a delimiter two of whose quotes are alike it is its lines as they are, and behind any other what each of its lines writes, with the values and the status of the moment it was read; its delimiter is the text without those quotes |
| `TokenFlow.GetHereDoc` | srcs/lexer/here_body_read.c:32-68 | the waiting record gets the descriptor of its own body, and stack and arena keep their invariant; there is a fault exactly if there is no line to read from, which is exactly if the input ended in a body and another delimiter was read from the same line |
| `TokenFlow.ReadWaitingBody` | srcs/lexer/here_body_read.c:44-68 | with a line to read from, reading the waiting body keeps the invariant of the run, in which every body is its lines as expanded then, and leaves less of the input |
| `HereOrder.HereDocsAreDelims` | srcs/parser/reduce_redir.c:47-68 | the here-documents of every derivation are delimited, in source order, by exactly the tokens behind its operators |
| `HereOrder.StackDelimitersFirst` | srcs/parser/parse_input.c:55-81 | at every point of a run, the delimiters met so far are the first ones of the program the tokens are, if they are one |
| `HereOutcomes.FaultIff` | srcs/lexer/here_body_read.c:50-53 | when the first line derives a program and single lines come behind it, an uninterrupted run reads from a null line if and only if two or more of its delimiters, taken one behind the other, do not find their line among those; otherwise it is done, and the last body is ended by the input if and only if one delimiter does not |
| `HereOutcomes.AdriftIff` | srcs/parser/parse_token_flow.c:60-78 | when a line without a newline derives a program, a here-document is left without its body if and only if the line has one, and otherwise the run is done |
| `HereOutcomes.FaultAtEnd` | srcs/lexer/here_body_read.c:50-53 | `cat<<A<<B`, newline, and any single lines: the run reads from a null line if and only if none of them is `A` |
| `HereOutcomes.BodyAtEnd` | srcs/lexer/here_read_line.c:11-25 | `cat<<A`, newline, end of input: the body is ended by the input, and the program done |
| `HereOutcomes.OpenAtEnd` | srcs/parser/parse_input.c:83-102 | `cat<<A` without a newline: no body is read for the here-document, whatever lines come behind it |
| `TokenFlow.HandleHereBody` | srcs/lexer/lex_heredoc.c:15-28 | the token index goes back to the last token that was shifted |
| `TokenFlow.HandleSavedTokens` | srcs/lexer/lex_heredoc.c:30-46 | the next saved token is taken; the newline is the last |
| `TokenFlow.StartHereBody` | srcs/parser/parse_token_flow.c:3-7 | saving ends, and the saved tokens and the body are pending |
| `TokenFlow.GetNextToken` | srcs/parser/parse_token_flow.c:9-35 | the next token is the next in lexing order; none is skipped or repeated; the loop ends |
| `TokenFlow.GetLookahead` | srcs/parser/parse_token_flow.c:60-78 | the lookahead is the terminal its token was lexed as, in a replay too; the input ends while tokens are being saved only on a line without a newline, and then a here-document is left without its body |
| `TokenFlow.HandleHereDoc` | srcs/parser/parse_token_flow.c:80-90 | tokens are saved up to the newline, behind which the body is to be read |
| `RunInvariant.HereOpens` | srcs/parser/reduce_redir.c:47-68 | a reduced here-document waits on top of the stack; its delimiter is the last token shifted and behind all earlier ones |
| `RunInvariant.HereServes` | srcs/lexer/here_body_read.c:62-67 | with its body read it is served, and none waits |
| `HereDescriptors.BuildServed` | srcs/parser/rule_dispatch.c:4-78 | every production but the here-document's keeps each here-document record with its own body |
| `HereDescriptors.ReduceHereDocs` | srcs/parser/reduce_redir.c:47-68 | the delimiters so far are those of the derivations on the stack, in source order |
| `TokenHistory.StepKeepsPieces` | srcs/lexer/lookahead.c:15-46 | tokens, gaps and bodies so far and what is left are always the whole input |
| `TokenHistory.QuotedAsWritten` | srcs/parser/reduce_redir.c:34-45 | the flag of quotes that a WORD has in a run, and that a here-document's record has if the word is its delimiter, is set if and only if two quotes in the text it was lexed with are alike |
| `TokenHistory.UnflaggedIsPlain` | srcs/expansions/expansion.c:45-49 | the arena's string of an unflagged WORD is a plain word |
| `ParseInput.StepOnToken` | srcs/parser/parse_input.c:75-75 | a step on the next token keeps the whole invariant of the run; it is only taken while no token is being saved and no body is pending |
| `ParseInput.ParseAdvance` | srcs/parser/parse_input.c:38-53 | a run goes on after a shift or a reduction |
| `Execution.CheckAndRunPendingExec` | srcs/parser/parse_input.c:15-36 | the completed list is run once, by its meaning, the descriptors its records still hold are closed once each, and then the arena is clear |
| `Execution.RunPending` | srcs/execute/execute_list.c:66-78 | the list is run with the outcomes of its turn; what was run, the status and the moments of environment and status are those of all lists so far, one after the other |
| `WellFormed.MeaningSound` | srcs/parser/rule_dispatch.c:4-78 | in the abstract syntax of every derivation pipelines have commands, commands have words or, in parentheses, pipelines, and every redirection has a direction, at every depth |
| `WordOrigins.WordsAreShifted` | srcs/parser/reduce_from_term.c:3-29 | every word in the abstract syntax of a derivation is one of its WORD tokens, with its flags, and none is the delimiter of a here-document |
| `Readiness.FdsApart` | srcs/lexer/here_body_read.c:62-67 | no two here-document records of a list hold the same descriptor |
| `Readiness.ListIsReady` | srcs/parser/parse_input.c:15-36 | whenever the driver is about to run a list, every pipeline at any depth meets the preconditions of `PipelineWiring.ExecutePipeline`, with the descriptors of its bodies, and every command those of `Expansion.ExpandArgs` |
| `Readiness.RunReadyList` | srcs/parser/parse_input.c:15-36 | whenever the driver is about to run a list, the list can be run with its pipelines wired, one behind the other, and whatever they do is a walk over the list for some outcome of each, as the driver provides for |
| `Execution.CloseHeredocFds` | srcs/error_handling/close_fds.c:35-51 | every here-document descriptor still held by a record is closed once and forgotten |
| `CompleteCommands.ReduceCompletes` | srcs/parser/reduce_helpers.c:29-35 | a reduction completes one more top-level list exactly if it is to complete commands, and then the last symbol's |
| `ParseInput.StepAndRun` | srcs/parser/parse_input.c:75-80 | a step and the list it completes; an error means that no program starts with what was read |
| `ParseInput.RunParseIteration` | srcs/parser/parse_input.c:55-81 | an iteration keeps the invariant of the run and makes its bound smaller |
| `ParseInput.RunLoop` | srcs/parser/parse_input.c:110-111 | the iterations end on every input |
| `ParseInput.FinalPass` | srcs/parser/parse_input.c:83-102 | the final pass ends; it accepts exactly the programs, with all lists run, unless the delimiter of a here-document is the last token of a line without a newline |
| `ParseInput.ParseInput` | srcs/parser/parse_input.c:104-123 | the result of a whole run: done with a derivation of exactly the lexed tokens, all its top-level lists run once in source order, each here-document read once in source order into the body its record had when it ran, expanded as of the moment it was read, and tokens, gaps and bodies making up the input; otherwise an error and no program starts or ends like that; or interrupted; or a fault, exactly if the input ended in a body and another delimiter was read from the same line; or left with a here-document without a body, exactly if one was met on a line that does not end in a newline |
| `FieldSplitting.SplitKeepsText` | srcs/expansions/expand_helpers.c:41-64 | splitting drops the separators of a value and nothing else |
| `FieldSplitting.SplitFieldsAreRuns` | srcs/expansions/expand_helpers.c:41-64 | the fields are the maximal runs without separators, the first one glued to what was open |
| `FieldSplitting.OpenAtEnd` | srcs/expansions/expand_helpers.c:41-64 | the last run stays open exactly if the value does not end in a separator |
| `FieldSplitting.SegmentIsRight` | srcs/expansions/expand_helpers.c:22-64 | in place, a value is split into exactly these fields and no recorded field changes: behind no open field, behind one whose recorded length is right and that does not end up empty, and always for a value without separators |
| `FieldSplitting.OpenIsRecordedIff` | srcs/expansions/expand_helpers.c:22-64 | a value with a separator ends the open field rightly if and only if the recorded length, which may be any, is the field's and the field does not end empty |
| `FieldSplitting.WrongByte` | srcs/expansions/expand_helpers.c:22-39 | when the recorded length is not the field's, shorter or longer, one byte of the ended field is not what it is to be, whatever lies behind the arena |
| `FieldSplitting.SecondSplitLosesText` | srcs/expansions/expand_helpers.c:41-64 | `$A$B` with the values `x y` and `z w` leaves `x` and `y` instead of `x`, `yz` and `w` |
| `FieldSplitting.SecondSplitKeepsBlank` | srcs/expansions/expand_helpers.c:22-39 | `$A$B` with the values ` x` and `z w` leaves `xz ` and an open empty field instead of `xz` and `w` |
| `InPlaceScan.WordKeepsFields` | srcs/expansions/expand_helpers.c:66-83 | whatever a word and the environment, scanning it in place changes no field that was recorded before |
| `InPlaceScan.WordIsRightIff` | srcs/expansions/expand_helpers.c:66-83 | the arena holds exactly the fields of the word behind the earlier ones if and only if none of its values is split behind an open field with a wrong recorded length or ends that field empty |
| `InPlaceScan.TwoValuesGoWrong` | srcs/expansions/expand_helpers.c:66-83 | the word `$A$B` with the values ` x` and `z w` is to have the fields `xz` and `w`, and the arena does not |
| `Expansion.AppendField` | srcs/expansions/expand_field.c:15-32 | text starts a string of its own or extends the last one |
| `Expansion.RecordReference` | srcs/expansions/expand_field.c:34-48 | one more slot |
| `Expansion.DelimitField` | srcs/expansions/expand_field.c:50-56 | the open field is recorded and closed |
| `Expansion.GetIfsEndIdx` | srcs/expansions/expand_helpers.c:15-20 | the first index that holds no separator |
| `Expansion.DelimitSegment` | srcs/expansions/expand_helpers.c:22-39 | the separator is overwritten, the field before it recorded unless it is empty |
| `Expansion.AppendSegment` | srcs/expansions/expand_helpers.c:41-64 | the loop leaves the arena the splitting function says, in bounds or not, whatever lies behind it |
| `Expansion.HasClosingQuote` | srcs/expansions/expand_quote.c:26-37 | the quote occurs again later in the word |
| `Expansion.OpenQuote` | srcs/expansions/expand_quote.c:15-24 | a quote makes a field even if nothing is in it |
| `Expansion.HandleSquote` | srcs/expansions/expand_quote.c:39-53 | single-quoted text is taken as it is |
| `Expansion.HandleDquote` | srcs/expansions/expand_quote.c:55-72 | double-quoted text is taken as it is but for parameters, whose values are not split |
| `Expansion.HandleUnquoted` | srcs/expansions/expand_quote.c:74-89 | unquoted text up to a closed quote or a parameter |
| `Expansion.ArenaItoaCat` | srcs/expansions/expand_var.c:35-47 | the decimal status is written behind the open field |
| `Expansion.ExpandVar` | srcs/expansions/expand_var.c:49-69 | the status, nothing for an unset name, or the value, split outside of double quotes |
| `Expansion.ScanWord` | srcs/expansions/expand_helpers.c:66-83 | leaves what the scan in place makes of the arena, for every word, ends with both quote flags clear, and records a slot for each new field |
| `WordScan.FastPathIsRight` | srcs/expansions/expansion.c:45-51 | the scan of a plain word yields exactly one field, the word: leaving it out is sound |
| `WordScan.QuoteRemovalIsScan` | srcs/parser/quote_remove.c:3-28 | on every non-empty word without an expansion outside of single quotes, quote removal is the single field of the scan |
| `WordMeaning.FieldsAreMarksCut` | srcs/expansions/expand_quote.c:39-89 | for every word, environment and status: the fields the scan is to find are the marks of the word, cut. The marks are its characters with each closed quote, single ones as they are and double ones with parameters replaced, and each parameter up to the end of its name; only characters of an unquoted value that are a blank, a tab or a newline cut, and a quote makes a field even if empty |
| `WordMeaning.WordIsMarked` | srcs/expansions/expand_helpers.c:66-83 | every word has its marks |
| `WordMeaning.MarksOnce` | srcs/expansions/expand_helpers.c:66-83 | in one way only |
| `CStrings.ItoaIsDecimal` | srcs/expansions/expand_var.c:35-47 | the status is written as decimal digits whose value it is, behind a sign if it is negative, without a leading zero |
| `Expansion.ExpandArg` | srcs/expansions/expansion.c:44-53 | one argument: its string as it is if it is not flagged, and else the fields of its scan |
| `Expansion.ArgsAreRightIff` | srcs/expansions/expansion.c:39-55 | the arena holds exactly the fields of all flagged words in order if and only if each of those words is split rightly, and then the slots refer to the fields of all words in order, as if each had been scanned |
| `Expansion.ExpandArgs` | srcs/expansions/expansion.c:39-55 | the loop over the argument records does this for every list of words |
| `Expansion.FinishArgs` | srcs/expansions/expansion.c:15-37 | every slot becomes its string |
| `Expansion.ExpandRedir` | srcs/expansions/expansion.c:57-100 | a redirection's word is accepted exactly if its scan leaves one field; the slots it took are given back; a here-document or unflagged word is left alone |
| `Pipelines.RedirectIsLast` | srcs/execute/process_redirection.c:53-87 | redirections succeed exactly if every file can be opened, and then the last one on each stream wins over the earlier ones and the pipe |
| `Pipelines.FailedIsClosedIff` | srcs/execute/process_redirection.c:12-51 | redirections that fail leave a stream open if and only if the other stream than the failing one's was open by then |
| `Pipelines.LaunchesAreWired` | srcs/execute/execute_pipeline.c:12-60 | whatever fails: exactly the commands that can be are started, in order, each on the read end of the pipe before it and the write end of the one behind it unless its own redirections say otherwise; when the shell is to exit only the first can be |
| `Pipelines.StatusIsLastIff` | srcs/execute/execute_pipeline.c:30-60 | whatever the state of the shell and however the commands go, the status of a pipeline is that of the last command that is tried, but that of a child is lost when the shell is to exit; so it is the command's own if and only if that is 0 or it is not lost |
| `Pipelines.StreamsAreClosedIff` | srcs/execute/execute_simple_command.c:57-99 | in every state of the shell that has its own streams: a pipeline of more commands leaves them if and only if the shell is not to exit and the last command is not refused by a fork or an ambiguous redirection; one command does if and only if it is not a builtin, outside of a pipeline, with a redirection that fails behind one of the other stream |
| `Pipelines.SameInPipelineIff` | srcs/builtin/execute_builtin.c:72-87 | a pipeline that is run while the shell is in another one, as the first one in the parentheses of a pipeline is, starts what it would start outside of it if and only if it is not one command that the shell would run itself |
| `Stranding.StrandedOutput` | srcs/builtin/execute_builtin.c:72-87 | `echo >out <missing`, newline, `ls`, as derived and as it lies in the arena: `echo` is not started, and `ls` is started with `out` on its output |
| `Stranding.StrandedPipe` | srcs/execute/execute_pipeline.c:30-60 | `exit x`, newline, `a` into `b`, newline, `c`, as derived: `a` is started and `b` is not, and `c` is started with the pipe on its input |
| `Subshells.CdIsLost` | srcs/execute/execute_simple_command.c:3-34 | `(cd`, newline, `pwd)` into `cat`, as derived: the child runs `cd` in a child of its own and `pwd` itself; outside of a pipeline it would run both itself |
| `PipelineWiring.FtCloseFd` | srcs/error_handling/close_fds.c:15-20 | an open descriptor is closed, never one that is not open |
| `PipelineWiring.CloseIo` | srcs/error_handling/close_fds.c:22-26 | both streams are closed and nothing else |
| `PipelineWiring.CloseAllFds` | srcs/error_handling/close_fds.c:28-33 | the streams and the pipe slots are closed and empty, and nothing else is closed |
| `PipelineWiring.OpenInFile` | srcs/execute/process_redirection.c:12-25 | the file replaces the input stream, or the stream is left closed: if the file cannot be opened or the shell is to exit |
| `PipelineWiring.OpenHereFile` | srcs/execute/process_redirection.c:27-36 | the input stream takes the descriptor over from the record; it fails exactly if the record holds none |
| `PipelineWiring.OpenOutFile` | srcs/execute/process_redirection.c:38-51 | the same for the output stream |
| `PipelineWiring.OpenBasedOnFlag` | srcs/execute/process_redirection.c:53-76 | the first flag that is set decides which, and whether it succeeds |
| `PipelineWiring.ProcessRedirection` | srcs/execute/process_redirection.c:78-87 | the streams are those of the redirections up to one that fails, every replaced descriptor is closed, and the here-documents left are those still held by their records |
| `PipelineWiring.ForkCommand` | srcs/execute/execute_simple_command.c:36-48 | the child finds what its redirections leave it, if they succeed, and the shell closes both streams; without a fork they stay |
| `PipelineWiring.RunInShell` | srcs/execute/execute_simple_command.c:74-98 | a builtin alone, or no command: the shell redirects itself, and closes both streams but for a builtin that cannot be redirected |
| `PipelineWiring.ExecuteSimpleCommand` | srcs/execute/execute_simple_command.c:57-99 | started or refused, in a child or in the shell: streams, status and the process to wait for are those of the command, and of its here-documents only those still in their records are left |
| `PipelineWiring.PipeAndExecuteSimpleCommand` | srcs/execute/execute_pipeline.c:12-28 | the command writes into a new pipe whose other end is the next input |
| `PipelineWiring.ExecutePipeline` | srcs/execute/execute_pipeline.c:30-60 | however its commands go, the pipeline starts, leaves on the streams and returns what `Pipelines.RunPipeline` says; every descriptor open at the end was open before, or is on a stream, or is held by the record of its here-document; an output left open from before is never closed again if a pipe takes its place |
| `ListWiring.RunList` | srcs/execute/execute_list.c:66-78 | the pipelines of a list, each on the streams and with the descriptors and records that the ones before it left: the shell ends as `ListWiring.RunPipelines` says, and a descriptor that is open was open before, or is on a stream, in a record of the list, or an output that was lost |
| `ListWiring.RunIsAWalk` | srcs/execute/execute_list.c:66-78 | whatever the pipelines of a list do to the shell and to each other, what is run and the status that is left are those of the walk over the list's flags for some outcome of each pipeline |

## Left out

- SetHereDelim: replaces the string of the delimiter as a whole; that the source's loop does this within the buffer is `QuoteRemoval.QuoteRemoveInplace`.
- GetLookahead: stops where it would start a body at the end of a line without a newline, as reading it passes the end of that line; so it has no loop around its one call.
- ReportParseError: sets the flag; the message is not modelled.
- FinalPass: stops where it reduces a here-document, for which the source goes on with descriptor 0; the check for a completed list behind an accepting or failing step is not repeated, as such a step completes none.
- ExecuteSimpleCommand: the kind of the command, whether its redirections are ambiguous, and its status are parameters; how they are expanded is in `Expansion`, the search for programs is not modelled.
- Failures that end the process: `pipe`, `dup`, `dup2`, memory; so does `exit` with a number or without an argument.
- ExecutePipeline: in `ExecuteList` its status is a parameter, which is all the driver depends on; `ListWiring` computes it. Descriptors still in records are closed by the driver after the list.
- RunReadyList: starts on the shell's own streams; streams that an earlier list left redirected are followed in `Pipelines` and `Stranding` only.
- Allocation, alignment and growth of arenas, the 32-bit offsets of references, and allocation failures.
- Prompts, history, signals other than the end of the input by one, processes and temporary files.
- Builtins, the environment list and the search for commands: separate from the core and easier.
- Debug output.
