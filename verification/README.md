# Praxis DSL engine and A2A task manager: a verified model

This project models two parts of Praxis and proves properties of them in Dafny 4.11.

**The DSL engine** (`src/praxis_sdk/dsl`) is a small compiler and interpreter. Text is cut into quoted
fields and tokens; token validation checks block balance and CALL arguments; a recursive-descent builder
makes an AST; the AST is executed, with a memoising LRU and TTL cache in front of the tools, or lowered to
a workflow graph that a depth-first search checks for cycles.

**The A2A task manager** (`src/praxis_sdk/a2a/task_manager.py`) is a table of task state machines with
statistics, timeouts, cleanup and a `cancel_task` that gives up its lock midway. The states follow section
6.3 (TaskState) of the A2A Protocol Specification v0.3.0.

Code that changes state step by step is written as classes and methods with loops; each method is proved
against a specification function, and the theorems are lemmas about those functions, over all inputs, runs,
schedules or interleavings.

| files | what they hold |
|---|---|
| `DslTypes`, `Wrappers`, `Sequences` | values, tokens, AST nodes, string helpers; stock facts |
| `Lexing`, `Quoting`, `DslTokenizer` | the lexer, a printer that inverts it, what quotes, escapes, comments and lines do, the tokenizer class |
| `Arguments`, `Validation`, `IssueLaws`, `DslValidator` | argument walks, the stack machine and the grammar of balanced blocks, each issue that is reported, the validator class |
| `Parsing`, `LinearScan`, `ProfileUniqueness`, `Nesting`, `BuiltShapes`, `Acceptance`, `AstBuilder` | recursive descent, the linear scan it is equal to, nesting, shapes and acceptance, the builder classes |
| `TokenNodes`, `CallNodes`, `Composition` | the node each token becomes, argument by argument, and how the ASTs of token lists compose |
| `Cache`, `ToolExecutionCache`, `CacheRuns` | the cache as a function of its state, the cache class, properties of every run |
| `CacheKeys`, `Json`, `JsonKeys`, `JsonOrder`, `Texts` | cache keys over any dump, the sorted-key JSON printer, the keys it makes, its independence of insertion order, and texts character by character |
| `Execution`, `Stopping`, `Meanings`, `CacheTransparency`, `Schedules`, `ProgramSchedules`, `ExecutionLoops`, `DslParser` | execution, where it stops, its meaning, the cache and the schedulers that do not change it, the interpreter class |
| `CycleCheck`, `Lowering`, `Planner`, `LoweredPrograms` | the depth-first search, AST to graph, plan validation, programs whose plans it refuses |
| `Pipeline` | what the stages guarantee one another |
| `Tasks`, `TaskRuns`, `TaskLaws`, `HistoryRuns`, `TaskManager` | lock-held regions, every interleaving of them, transitions, counts and deadlines of single tasks, histories over runs, the manager class |

`dafny verify dfyconfig.toml` checks everything.

## What the proofs found

Some natural claims are false of the code. The model keeps the code as it is and says exactly when each claim holds.

- *Cache transparency* needs different calls to have different keys. With the texts of `json.dumps` they have, for
  all tools and arguments (`JsonKeysSeparate`), so it holds for every program (`ProgramsAreTransparent`). With any other
  injective dump, which may fail, two calls of tools without a colon share a key if and only if they are of one tool and have the same arguments, or neither's
  arguments serialise (`KeysCollide`). For any dump and two calls, it holds if and only if they are the same call or do not share a key (`SeparateKeysExact`).
- *Keys of different users never meet*, over all tools and any dump, if and only if no user id continues another one
  behind a colon (`UsersMeet`). With the texts of `json.dumps` two keys, of any users or none, are equal if and only if
  prefix and tool spell the same text and the arguments are equal (`JsonUserKeysMeet`); so for tools without a colon they
  never meet, whatever the user ids (`JsonUserKeysSeparate`).
- *max_size bounds the cache* if and only if `max_size >= 1` (`SizeBoundExact`): smaller values still let one entry in.
- *A lowered plan is acyclic* if and only if no SEQUENCE goes on after a child that becomes no node while
  something later becomes one (`CircularExactly`): SEQUENCE, TASK x, CALL t is reported as circular
  (`SequenceProgramIsCircular`). *No edge dangles* if and only if the last node that emits anything does not end in
  a child that becomes none (`DanglingExactly`): PARALLEL, CALL t, TASK x leaves one (`ParallelProgramDangles`).
- *The eviction takes the least recently used entry* if and only if no entry has an earlier access time and no other
  entry with the same access time was stored before it: for every clock and run (`EvictsLeastRecentExactly`). While the
  clock never goes back, the second half decides alone (`EvictsLeastRecent`), and while it moves between readings it always
  holds (`RefinesLru`). Readings that repeat break it (`RepeatedReadingsBreakLru`).
- *extract_tool_from_key inverts build_key* on plain keys, made with the texts of `json.dumps`, if and only if the tool
  has no colon and, if it is called "user", there are no arguments or the second piece between the colons of the least
  key is "user" again (`ExtractFromJsonKey`, `ExtractLosesUserTool`); with any other dump, see `ExtractFromPlainKey`.
- *cancel_task returns or raises its own errors*, except that it raises a bare KeyError, if and only if a cleanup between its check and its
  last region removes the entry as stale (`KeyErrorExactly`); that happens (`CancelCanLoseItsTask`, `LosesItsTask`).
- *The history limit* holds right after `add_message_to_history` if and only if it is at least 1 (`HistoryLimit`): Python's
  `history[-0:]` is the whole list. Over runs it holds for no limit, because `update_task_status` appends without trimming
  (`OneUpdateBreaksTheLimit`, `HistoryGrows`). It holds in all runs that send no status message if and only if it is at
  least 1 (`QuietRunsStayWithinExactly`), and otherwise up to the status messages since the last trim (`HistoryBound`).
- `add_issue` with level INFO raises a KeyError after appending the issue, because the summary key is `info` and the code
  looks for `infos` (`AddIssue`).
- `execute_ast` reports success whenever nothing raised, even if a node failed; the model returns the list of
  node results, and `TopLevelMeaning` says which nodes ran.
- *The builder nests the nodes as the validator's stack nests the blocks*, of balanced tokens, if and only if no WORKFLOW
  stands inside a block, every block inside another one is of the same kind and not an IF, and a terminator that leaves a
  block open is followed by another terminator (`NestsAlikeExactly`): PARALLEL and SEQUENCE stop at their terminator
  without consuming it. PARALLEL, PARALLEL, CALL a, END_PARALLEL, CALL b, END_PARALLEL breaks it (`TwoLevelsNestOtherwise`).
  What is built of any tokens is in `ParseIsScan` and `ScanDecidesTheAst`.

## Model

| member | source | states |
|---|---|---|
| Lexing.FieldsRoundTrip | src/praxis_sdk/dsl/tokenizer.py:79-166 | fields printed in double quotes with escapes and joined by spaces parse to exactly those fields, if and only if none is empty |
| Lexing.ParsedFieldsRoundTrip | src/praxis_sdk/dsl/tokenizer.py:79-166 | every successful parse yields non-empty fields only, and printing and parsing them again changes nothing |
| Lexing.PlainWordsParse | src/praxis_sdk/dsl/tokenizer.py:137-151 | words without quotes, backslashes and spaces parse to themselves |
| Lexing.QuotesSeparate | src/praxis_sdk/dsl/tokenizer.py:113-135 | an empty quoted string makes no field, and a quote ends the unquoted field before it |
| Quoting.EitherQuoteKeeps | src/praxis_sdk/dsl/tokenizer.py:113-135 | a non-empty field in double or in single quotes, free of backslashes and of that quote, is one field with its spaces and the other quote inside; so it is right behind a word |
| Quoting.EscapeJoins | src/praxis_sdk/dsl/tokenizer.py:101-111 | outside quotes a backslash makes the next character part of the word, whatever it is, a space or a quote included |
| Quoting.EscapeInQuotes | src/praxis_sdk/dsl/tokenizer.py:101-119 | inside either quotes it does the same |
| Quoting.Unterminated | src/praxis_sdk/dsl/tokenizer.py:152-161 | a quote that is not closed and a backslash at the end are the two errors, at the last character |
| Quoting.CommentsAreSkipped | src/praxis_sdk/dsl/tokenizer.py:48-53 | blank lines and lines whose first visible character is # hold no command, and count as lines |
| Quoting.LineByLine | src/praxis_sdk/dsl/tokenizer.py:43-77 | a text is tokenized line by line, and an error carries the number of its line |
| Quoting.LineOfWords | src/praxis_sdk/dsl/tokenizer.py:168-201 | a line of visible words is one token, the first word in upper case; the four operator words are operators, all others commands |
| Quoting.LowerCaseCall | src/praxis_sdk/dsl/tokenizer.py:185 | call x is the token CALL with argument x |
| Lexing.ProgramRoundTrip | src/praxis_sdk/dsl/tokenizer.py:26-77 | printing a program of upper-case commands, non-empty one-line fields, and tokenizing it gives the tokens back |
| Lexing.RetokenizingIsIdentity | src/praxis_sdk/dsl/tokenizer.py:26-77 | for every text the tokenizer accepts, printing its tokens and tokenizing again gives the same tokens |
| DslTokenizers.DslTokenizer.ParseQuotedFields | src/praxis_sdk/dsl/tokenizer.py:79-166 | the character loop computes the fields, or the error and its position, of the lexer the round trips are about |
| DslTokenizers.DslTokenizer.Tokenize | src/praxis_sdk/dsl/tokenizer.py:26-77 | the line loop computes the tokens, or the first error with its line number, of that same lexer, and leaves line_number there |
| Arguments.BuilderFollowsWalk | src/praxis_sdk/dsl/ast_builder.py:137-192 | for every tool and argument list the builder's dictionary is that of the walk the validators share, up to the argument that takes in the rest of the line, if there is one |
| Arguments.RestStarts | src/praxis_sdk/dsl/ast_builder.py:173-182 | there is such an argument exactly for write_file with a second positional argument |
| Arguments.WriteFileTakesRest | src/praxis_sdk/dsl/ast_builder.py:175-182 | the second positional of write_file takes the rest of the line, unparsed and stripped of quotes |
| Arguments.PrintedArgumentsComeBack | src/praxis_sdk/dsl/ast_builder.py:149-192 | a dictionary printed as --k v parses back to that dictionary, values passed through the value parser, and nothing else |
| Arguments.NamesHaveNoColon | src/praxis_sdk/dsl/validator.py:287 | a tool name that matches the name pattern has no colon, as cache keys need |
| Arguments.KeysAreLocal | src/praxis_sdk/dsl/validator.py:299-326 | the stepping walk finds no bad key exactly when every argument that looks like an option has a proper name, wherever it stands |
| Texts.NameAlphabet | src/praxis_sdk/dsl/validator.py:287 | letters, digits and the underscore make names; a newline is let through at the end, and only one |
| Texts.NamesJoin | src/praxis_sdk/dsl/validator.py:287 | a name followed by letters, digits and underscores is a name |
| Texts.NoOtherNames | src/praxis_sdk/dsl/validator.py:287 | nothing else is: no digit first and no other character anywhere |
| Texts.StripsBlanks | src/praxis_sdk/dsl/tokenizer.py:49 | strip removes all blanks on both sides and nothing else |
| Texts.StripsQuotes | src/praxis_sdk/dsl/ast_builder.py:177-182 | stripping quotes removes all quotes of either kind on both sides and nothing else |
| Texts.DigitsValue | src/praxis_sdk/dsl/ast_builder.py:187 | str of a number is its decimal numeral without leading zeros |
| Validation.WalksAgree | src/praxis_sdk/dsl/validator.py:271-326 | validator and tokenizer accept the same CALLs: a proper tool name, and a proper name in every argument that looks like an option; no colon in such a tool |
| Validation.NoIssuesMeansBalanced | src/praxis_sdk/dsl/validator.py:328-386 | the block stack adds no error exactly when the tokens derive from the grammar of balanced blocks, with ELSE directly inside IF only |
| IssueLaws.BadKeysAreLocal | src/praxis_sdk/dsl/validator.py:299-326 | the stepping walk reports the malformed keys of all arguments that look like options, each once, in order |
| IssueLaws.StructureExactly | src/praxis_sdk/dsl/validator.py:239-326 | which issues the pass over single tokens reports: no value, a reserved word as a value, a CALL without a tool, with a malformed tool name or malformed keys, with their levels, at that token, and no others |
| IssueLaws.NeighboursExactly | src/praxis_sdk/dsl/validator.py:388-412 | which warnings the pass over neighbours gives: ELSE with IF behind it, PARALLEL behind PARALLEL, SEQUENCE behind SEQUENCE, and no others |
| IssueLaws.AllIssues | src/praxis_sdk/dsl/validator.py:147-177 | one warning without tokens, and otherwise the issues of the three passes in order |
| IssueLaws.AllIsSilent | src/praxis_sdk/dsl/validator.py:328-366 | balanced tokens add no block error and leave the open blocks as they were, wherever they stand |
| IssueLaws.StrayTerminator | src/praxis_sdk/dsl/validator.py:340-348 | the first error is a terminator behind balanced tokens, at its position |
| IssueLaws.StrayElse | src/praxis_sdk/dsl/validator.py:360-366 | and so is an ELSE outside of any IF |
| IssueLaws.WrongTerminator | src/praxis_sdk/dsl/validator.py:350-377 | the terminator of another kind of block is an error there and leaves the block open, which is the next error |
| IssueLaws.UnclosedBlocks | src/praxis_sdk/dsl/validator.py:368-377 | blocks open at the end are reported where they open, the outermost first |
| Validation.TokensValid | src/praxis_sdk/dsl/validator.py:147-177 | token validation finds no error exactly when every token has a value, every CALL is well formed and the blocks balance |
| Validation.NoErrorsCounted | src/praxis_sdk/dsl/validator.py:35-61 | the validity flag, the error count and the list of issues agree |
| DslValidators.ValidationResult.AddIssue | src/praxis_sdk/dsl/validator.py:40-61 | the issue is appended and flag and summary stay in step; level INFO raises, and only that |
| DslValidators.DslValidator.ValidateTokens | src/praxis_sdk/dsl/validator.py:147-177 | the result lists exactly the issues of structure, balance and sequence checks, in that order |
| DslValidators.DslValidator.ValidateTokenStructure | src/praxis_sdk/dsl/validator.py:239-269 | appends the structure issues of every token in order and nothing else |
| DslValidators.DslValidator.ValidateCallToken | src/praxis_sdk/dsl/validator.py:271-297 | appends what is wrong with a CALL: no tool, a malformed tool name, malformed keys |
| DslValidators.DslValidator.ValidateArgumentStructure | src/praxis_sdk/dsl/validator.py:299-326 | the stepping loop reports exactly the malformed keys of the shared walk |
| DslValidators.DslValidator.ValidateBalancedBlocks | src/praxis_sdk/dsl/validator.py:328-377 | the push-and-pop loop appends exactly the block errors that the grammar theorem is about |
| DslValidators.DslValidator.ValidateCommandSequences | src/praxis_sdk/dsl/validator.py:388-412 | appends the warnings about neighbouring commands in order |
| DslValidators.ValidateCallArgs | src/praxis_sdk/dsl/tokenizer.py:220-262 | the early-exit loop is true exactly when tool name and all keys of the shared walk are well formed |
| LinearScan.ParseIsScan | src/praxis_sdk/dsl/ast_builder.py:50-104 | the AST visited in pre-order meets every token once, in source order and at the depth of a one-pass scan, apart from ELSE, ENDIF and END_IF an open IF absorbs |
| LinearScan.BlockIsScanned | src/praxis_sdk/dsl/ast_builder.py:256-328 | a PARALLEL or SEQUENCE ends before its stop token or at the end, and one stop token closes every open block of its kind |
| LinearScan.BranchesAreScanned | src/praxis_sdk/dsl/ast_builder.py:330-383 | an IF fills its then part, after an ELSE only its else part, and takes in its terminator |
| ProfileUniqueness.ScanDecidesTheAst | src/praxis_sdk/dsl/ast_builder.py:50-104 | the built AST is the only one with the profile the scan lists |
| TokenNodes.TokenBecomesItsNode | src/praxis_sdk/dsl/ast_builder.py:71-104 | ELSE, ENDIF and END_IF aside, every token of an accepted program becomes a node, which is, its children aside, the one it becomes as a program of its own; in the order of the tokens |
| TokenNodes.RankGrows | src/praxis_sdk/dsl/ast_builder.py:50-69 | of two tokens the first becomes the earlier node |
| TokenNodes.LeafIsTheSame | src/praxis_sdk/dsl/ast_builder.py:71-104 | a command that opens no block is wherever it stands the very node it is as a program of its own |
| CallNodes.CallKeepsEntries | src/praxis_sdk/dsl/ast_builder.py:106-172 | a CALL of a tool with distinct --k v arguments becomes a call of that tool holding exactly these keys with their parsed values |
| CallNodes.CallKeepsEntriesAnywhere | src/praxis_sdk/dsl/ast_builder.py:106-172 | and so it does anywhere in an accepted program, inside any blocks |
| CallNodes.CallKeepsFlag | src/praxis_sdk/dsl/ast_builder.py:160-169 | a lone flag holds true |
| CallNodes.CallNeedsTool | src/praxis_sdk/dsl/ast_builder.py:106-135 | without arguments it is a syntax error, with an empty tool it fails validation |
| CallNodes.FileCalls | src/praxis_sdk/dsl/types.py:229-254 | the positional arguments of read_file, delete_file, move_file and copy_file get these names, with their parsed values |
| CallNodes.DirectoryCalls | src/praxis_sdk/dsl/types.py:229-254 | and those of create_directory, list_files, list_directory and search_files these |
| CallNodes.NumberedCalls | src/praxis_sdk/dsl/ast_builder.py:183-190 | positional arguments of other tools, and one too many, are numbered |
| CallNodes.OptionsDoNotCount | src/praxis_sdk/dsl/ast_builder.py:155-190 | options before or behind a positional argument do not change its name |
| CallNodes.WriteFileCall | src/praxis_sdk/dsl/ast_builder.py:173-182 | write_file holds the file name, parsed, and the rest of the line, joined by spaces and not parsed |
| CallNodes.AgentAlone | src/praxis_sdk/dsl/ast_builder.py:453-478 | AGENT keeps its first argument, and the empty text for none |
| CallNodes.NamedAlone | src/praxis_sdk/dsl/ast_builder.py:385-451 | TASK and WORKFLOW keep their name and the parsed values under their keys, and nothing else; a last key without a value is dropped |
| CallNodes.CommandAlone | src/praxis_sdk/dsl/ast_builder.py:480-508 | any other word, a terminator or ELSE on its own included, is a plain command holding exactly its arguments, numbered from 0 |
| CallNodes.IfAlone | src/praxis_sdk/dsl/ast_builder.py:330-345 | IF joins its arguments to its condition, and none means true |
| Composition.BlockComposes | src/praxis_sdk/dsl/ast_builder.py:256-328 | PARALLEL, or SEQUENCE, and leaves behind it are one block of the nodes these are on their own; what follows, from a stop word on, parses as it does on its own |
| Composition.NestedComposes | src/praxis_sdk/dsl/ast_builder.py:256-328 | a block of the same kind inside goes one level down, and the stop word that ends it ends the outer block too |
| Composition.IfComposes | src/praxis_sdk/dsl/ast_builder.py:330-383 | IF and leaves are a conditional of these; ENDIF or END_IF belongs to it, and IF, PARALLEL, SEQUENCE or WORKFLOW end it and parse on their own |
| Composition.IfElseComposes | src/praxis_sdk/dsl/ast_builder.py:330-383 | with ELSE both branches parse as they do on their own, each into its place; what is in the else branch is not validated |
| Composition.CommandComposes | src/praxis_sdk/dsl/ast_builder.py:50-104 | any token that opens no block, leftover terminators and WORKFLOW among them, is a node in front of the program behind it |
| Composition.LeavesCompose | src/praxis_sdk/dsl/ast_builder.py:50-69 | leaves in front of a program stand in front of its AST |
| Nesting.NestsAlikeExactly | src/praxis_sdk/dsl/ast_builder.py:256-383 | of balanced tokens the AST, leftover terminators aside, has every node as deep as the validator has blocks open there, exactly when no token breaks three local rules on what may stand inside an open block |
| Nesting.TwoLevelsNestOtherwise | src/praxis_sdk/dsl/ast_builder.py:269-283 | PARALLEL, PARALLEL, CALL a, END_PARALLEL, CALL b, END_PARALLEL is balanced and built, with CALL b as a node of its own behind the PARALLEL |
| BuiltShapes.ParsedShape | src/praxis_sdk/dsl/ast_builder.py:256-383 | below a PARALLEL only PARALLELs and leaves, below a SEQUENCE only SEQUENCEs and leaves, at any depth; both branches of an IF hold only leaves |
| BuiltShapes.BuiltShape | src/praxis_sdk/dsl/ast_builder.py:510-567 | no built AST has an empty PARALLEL or SEQUENCE anywhere, although else branches are never validated |
| Acceptance.ScanDecidesTheOutcome | src/praxis_sdk/dsl/ast_builder.py:33-69 | build_ast raises a syntax error exactly for a CALL without arguments, and otherwise succeeds exactly when one scan accepts |
| Acceptance.AcceptanceIsLocal | src/praxis_sdk/dsl/ast_builder.py:33-69 | on tokens with non-empty fields build_ast succeeds exactly when no CALL lacks arguments and no PARALLEL or SEQUENCE is last or directly followed by one of its stop tokens |
| AstBuilders.TokenStream.Advance | src/praxis_sdk/dsl/tokenizer.py:295-300 | returns the current token and moves past it, or returns nothing and stays at the end |
| AstBuilders.AstBuilder.BuildAst | src/praxis_sdk/dsl/ast_builder.py:33-69 | the loop over the stream gives the AST or the error the theorems are about, and ends |
| AstBuilders.AstBuilder.ParseNode | src/praxis_sdk/dsl/ast_builder.py:71-104 | the node and stream position of recursive descent; nothing only at the end of the stream |
| AstBuilders.AstBuilder.ParseCallNode | src/praxis_sdk/dsl/ast_builder.py:106-135 | a CALL node, or a syntax error without arguments |
| AstBuilders.AstBuilder.ParseToolArguments | src/praxis_sdk/dsl/ast_builder.py:137-192 | the index loop computes the dictionary the argument theorems are about |
| AstBuilders.AstBuilder.ParseBlockNode | src/praxis_sdk/dsl/ast_builder.py:256-328 | children up to the stop token, which stays in the stream |
| AstBuilders.AstBuilder.ParseConditionalNode | src/praxis_sdk/dsl/ast_builder.py:330-383 | condition and both branches, with the stream behind the terminator or at the block that ends the IF |
| AstBuilders.AstBuilder.ParseWorkflowNode | src/praxis_sdk/dsl/ast_builder.py:385-417 | name and key-value pairs two at a time, a last key without value dropped |
| AstBuilders.AstBuilder.ParseTaskNode | src/praxis_sdk/dsl/ast_builder.py:419-451 | the same for TASK |
| AstBuilders.AstBuilder.ParseAgentNode | src/praxis_sdk/dsl/ast_builder.py:453-478 | the agent id, one token consumed |
| AstBuilders.AstBuilder.ParseSimpleCommand | src/praxis_sdk/dsl/ast_builder.py:480-508 | a COMMAND node with numbered arguments, one token consumed |
| CacheKeys.KeysCollide | src/praxis_sdk/dsl/types.py:199-208 | for any injective dump, even one that fails, two calls of colon-free tools share a key exactly when they are of one tool with equal arguments, or neither's arguments serialise |
| CacheKeys.UserKeysCollide | src/praxis_sdk/dsl/cache.py:293-318 | keys of user ids neither of which continues the other behind a colon meet only for one user, and then exactly when the plain keys do |
| CacheKeys.UsersMeet | src/praxis_sdk/dsl/cache.py:293-318 | keys of two different users can meet exactly when one user id continues the other behind a colon |
| Json.ValuesUnique | src/praxis_sdk/dsl/types.py:204 | a text is the sorted-key JSON of at most one value, also when a comma or a closing bracket and anything behind it follow |
| Json.JsonDumpLosesNothing | src/praxis_sdk/dsl/types.py:199-208 | every dictionary has a JSON text and no two share one |
| JsonOrder.PrintsTheValue | src/praxis_sdk/dsl/types.py:204 | printing dictionaries with their items sorted gives the text of what they hold, at every level, whatever the insertion order |
| JsonOrder.SameTextExactly | src/praxis_sdk/dsl/types.py:204 | two insertion-ordered values have one text exactly when they hold the same |
| JsonOrder.AnyInsertionOrder | src/praxis_sdk/dsl/types.py:204 | permuting the items of a dictionary does not change its text |
| JsonOrder.KeyOfItems | src/praxis_sdk/dsl/types.py:199-205 | the cache key of a call is the tool, a colon and the text of its arguments in any order |
| Texts.JsonAtoms | src/praxis_sdk/dsl/types.py:204 | null, true, false and whole numbers, as JSON spells them |
| Texts.JsonText | src/praxis_sdk/dsl/types.py:204 | printable text is itself in double quotes |
| Texts.JsonEscapes | src/praxis_sdk/dsl/types.py:204 | quotes, backslashes and control characters with a short escape |
| Texts.JsonUnicode | src/praxis_sdk/dsl/types.py:204 | other characters as four hexadecimal digits, or two groups of them |
| Texts.JsonList | src/praxis_sdk/dsl/types.py:204 | lists in brackets, in order |
| Texts.JsonPairs | src/praxis_sdk/dsl/types.py:204 | dictionaries in braces, the smaller key first |
| Texts.KeyOrder | src/praxis_sdk/dsl/types.py:204 | keys are ordered by their first different characters, and a key goes before its continuations |
| Texts.KeyText | src/praxis_sdk/dsl/cache.py:293-318 | the key is tool, colon and text, or the tool alone when the arguments do not serialise, behind user, colon, user id and colon if a user id is asked for and not empty |
| JsonKeys.NoDumpEndsAnother | src/praxis_sdk/dsl/types.py:204-205 | the JSON of a dictionary is never the end, behind a colon, of the JSON of any value |
| JsonKeys.JsonKeysSeparate | src/praxis_sdk/dsl/types.py:199-208 | with these texts two calls share a key exactly when tool and arguments are equal, for all tools, with or without colons |
| JsonKeys.JsonUserKeysMeet | src/praxis_sdk/dsl/cache.py:293-318 | with these texts two keys of build_key, with and without user prefix, are equal exactly when user and tool spell the same text and the arguments are equal, for all tools and user ids |
| JsonKeys.JsonUserKeysSeparate | src/praxis_sdk/dsl/cache.py:293-318 | for tools without a colon the key determines user, tool and arguments, whatever the user ids, and no key with a user prefix is one without |
| CacheKeys.ExtractFromUserKey | src/praxis_sdk/dsl/cache.py:337-358 | extraction undoes build_key on keys with a non-empty user id without a colon |
| CacheKeys.ExtractFromPlainKey | src/praxis_sdk/dsl/cache.py:337-358 | exactly when extraction undoes build_key on plain keys, for every tool, and what it answers for keys that read as user keys |
| JsonKeys.ExtractFromJsonKey | src/praxis_sdk/dsl/cache.py:337-358 | with these texts, exactly when extraction undoes build_key on plain keys, decided by the tool's name, whether there are arguments, and the least key |
| JsonKeys.ExtractFromUserToolKey | src/praxis_sdk/dsl/cache.py:347-358 | of a tool called user, with argument names free of colons, exactly when there are no arguments |
| JsonKeys.ExtractLosesUserTool | src/praxis_sdk/dsl/cache.py:347-358 | the JSON key of user(n=1) gives back a piece of the arguments |
| ToolCache.ToolExecutionCache.constructor | src/praxis_sdk/dsl/cache.py:23-39 | a new cache is the empty state every run starts from |
| ToolCache.ToolExecutionCache.GetByKey | src/praxis_sdk/dsl/cache.py:55-86 | a lookup returns and changes what the model's Get does: a miss, a removal of an expired entry, or a hit that renews access time and count |
| ToolCache.ToolExecutionCache.SetByKey | src/praxis_sdk/dsl/cache.py:107-137 | a set makes room when the cache is full, even for a present key, then stores the entry |
| ToolCache.ToolExecutionCache.InvalidateByKey | src/praxis_sdk/dsl/cache.py:153-168 | removes exactly that key from the entries and is true exactly when it was there |
| ToolCache.ToolExecutionCache.Clear | src/praxis_sdk/dsl/cache.py:170-179 | empties entries and statistics |
| ToolCache.ToolExecutionCache.CleanupExpired | src/praxis_sdk/dsl/cache.py:210-230 | one clock reading per entry, then the deletions, and by how many entries the cache is smaller |
| ToolCache.ToolExecutionCache.EvictLru | src/praxis_sdk/dsl/cache.py:245-265 | the updating argmin loop removes the first entry of least access time |
| CacheRuns.AlwaysWithinBounds | src/praxis_sdk/dsl/cache.py:55-179 | in every reachable state there are at most max(1, max_size) entries, and entries plus evictions do not exceed sets since the last clear |
| CacheRuns.SizeBoundExact | src/praxis_sdk/dsl/cache.py:119-122 | max_size bounds every run exactly when it is at least 1 |
| CacheRuns.EveryLookupCounts | src/praxis_sdk/dsl/cache.py:55-86 | hits plus misses is the number of lookups since the last clear |
| CacheRuns.CountersExactly | src/praxis_sdk/dsl/cache.py:55-265 | what each operation adds to hits, misses, evictions and sets, and that clear resets them |
| CacheRuns.EntryAfter | src/praxis_sdk/dsl/cache.py:55-137 | an entry after an operation was put by it, with one use, or was there before with the same content, and was used once more, at the second reading, exactly if it was looked up |
| CacheRuns.DropExactly | src/praxis_sdk/dsl/cache.py:153-168 | invalidation tells whether the key was there and takes out that key only |
| CacheRuns.CleanupCounts | src/praxis_sdk/dsl/cache.py:210-230 | cleanup returns by how many entries it made the cache smaller |
| CacheRuns.CleanupExact | src/praxis_sdk/dsl/cache.py:210-243 | cleanup removes exactly the entries that are expired when their turn comes, and leaves the others as they were |
| CacheRuns.EntriesAreLastStored | src/praxis_sdk/dsl/cache.py:107-179 | over any run an entry holds what was last set under its key since that key was last invalidated |
| CacheRuns.HitIsFresh | src/praxis_sdk/dsl/cache.py:55-86 | a lookup is a hit exactly when the key is present and its TTL has not passed, and then returns the last value set |
| CacheRuns.VictimExactly | src/praxis_sdk/dsl/cache.py:245-265 | for any access times the argmin loop takes a key exactly when no entry has an earlier time and none with the same time was stored before it |
| CacheRuns.EvictsTheHead | src/praxis_sdk/dsl/cache.py:245-265 | with keys listed in order of access time the argmin loop takes the head exactly when no other entry with its time was stored before it, and always when times differ |
| CacheRuns.ApplyKeeps | src/praxis_sdk/dsl/cache.py:55-265 | with a clock that never goes back, repeated readings or not, each operation keeps the keys, listed by last use, in order of access time |
| CacheRuns.EvictsLeastRecentExactly | src/praxis_sdk/dsl/cache.py:245-265 | over every run and for every clock the next eviction takes the key used longest ago exactly when no entry has an earlier access time and no other one with the same time was stored before it |
| CacheRuns.EvictsLeastRecent | src/praxis_sdk/dsl/cache.py:245-265 | with a clock that never goes back, exactly when no other entry with the same access time was stored before it |
| CacheRuns.RefinesLru | src/praxis_sdk/dsl/cache.py:55-265 | so over every run with a strictly increasing clock the cache holds the keys of an LRU list, in order of access time, and the next eviction takes its head |
| CacheRuns.RepeatedReadingsBreakLru | src/praxis_sdk/dsl/cache.py:256-259 | a run over a clock that stands still, so never goes back, after which the eviction takes the most recently used key |
| DslParser.AdvancedDslParser.ExecuteAst | src/praxis_sdk/dsl/parser.py:210-261 | results and cache of the top-level loop, which stops after the first failed CALL or given-up SEQUENCE, and after nothing else |
| DslParser.AdvancedDslParser.ExecuteNode | src/praxis_sdk/dsl/parser.py:263-311 | result and cache of a node of any type |
| DslParser.AdvancedDslParser.ExecuteCallNode | src/praxis_sdk/dsl/parser.py:313-364 | a usable cached value is returned; otherwise the tool runs and an executed result is stored; a cached None runs the tool again |
| DslParser.AdvancedDslParser.ExecuteToolWithAgent | src/praxis_sdk/dsl/parser.py:366-422 | the agent's own tool is asked exactly when it has one, else the peer it finds; the result is a success exactly when somebody was asked and returned, and carries their value and name; whatever raised is the error of a failed result |
| DslParser.AdvancedDslParser.ExecuteParallelNode | src/praxis_sdk/dsl/parser.py:424-475 | on the schedule that starts each child when the previous one is done: all children, their results in order, and how many of them have not failed |
| DslParser.AdvancedDslParser.ExecuteConcurrently | src/praxis_sdk/dsl/parser.py:424-475 | gathered coroutines over the shared cache, advanced in whatever order a scheduler picks: it ends, with the result of running the children left to right, up to executed_by and cache_hit, and leaves the cache true |
| DslParser.AdvancedDslParser.Advance | src/praxis_sdk/dsl/parser.py:438-445 | one atomic step of a tree of coroutines on the real cache is one step of the schedules |
| DslParser.AdvancedDslParser.ExecuteSequenceNode | src/praxis_sdk/dsl/parser.py:477-526 | children up to the first result that is a failed CALL, an all-failed PARALLEL or a SEQUENCE that gave up, and that step |
| DslParser.AdvancedDslParser.ExecuteUntilFailure | src/praxis_sdk/dsl/parser.py:487-519 | the loop of a SEQUENCE: results up to the first such failure, and its index if there is one |
| DslParser.AdvancedDslParser.ExecuteConditionalNode | src/praxis_sdk/dsl/parser.py:528-565 | the children of the branch the condition selects |
| Stopping.ExecReports | src/praxis_sdk/dsl/parser.py:240-245 | whatever the cache holds, a node reports success exactly when its result is none of these: a CALL whose tool failed, a PARALLEL all of whose children failed, a SEQUENCE that gave up |
| Stopping.ProgramEnds | src/praxis_sdk/dsl/parser.py:231-255 | a program ends at its first such result other than a PARALLEL, or with its last node |
| Stopping.SequenceEnds | src/praxis_sdk/dsl/parser.py:477-526 | a SEQUENCE ends at its first such result and says at which, or runs to its end and says so |
| Stopping.LeavesNeverStop | src/praxis_sdk/dsl/parser.py:588-627 | TASK, WORKFLOW, AGENT and plain commands, leftover terminators among them, end neither a SEQUENCE nor a program: all of them run and each reports what it is |
| Meanings.FailureExactly | src/praxis_sdk/dsl/parser.py:424-526 | which nodes fail: a CALL whose tool fails, a PARALLEL if all its children do, a SEQUENCE if one does, and no others |
| Meanings.NoAgentSimulates | src/praxis_sdk/dsl/parser.py:344 | without an agent a CALL is simulated, and does not fail |
| Meanings.SequenceMeaning | src/praxis_sdk/dsl/parser.py:477-526 | a SEQUENCE runs exactly the shortest prefix of its children that ends in a failure, or all, and reports that index |
| Meanings.ParallelMeaning | src/praxis_sdk/dsl/parser.py:424-475 | a PARALLEL runs all its children, counts exactly those that have not failed, and fails when there is none |
| Meanings.ConditionalMeaning | src/praxis_sdk/dsl/parser.py:528-586 | a CONDITIONAL runs every child of exactly one branch, the else branch only for the words false, 0 and no, and succeeds |
| Meanings.TopLevelMeaning | src/praxis_sdk/dsl/parser.py:231-255 | the top level runs the shortest prefix ending in a failing node other than a PARALLEL |
| CacheTransparency.CallTransparent | src/praxis_sdk/dsl/parser.py:313-364 | a call over a true cache gives what the tool gives, up to executed_by and cache_hit, and leaves the cache true |
| CacheTransparency.CallCounts | src/praxis_sdk/dsl/parser.py:327-362 | a hit adds one to cache_hits, a result that was executed and stored one to cache_misses, and nothing else counts |
| CacheTransparency.CallIsMemoised | src/praxis_sdk/dsl/parser.py:327-362 | an executed call repeated at once is answered from the cache exactly when its value is not None and has not expired; it is stored for the default TTL |
| CacheTransparency.Transparent | src/praxis_sdk/dsl/parser.py:263-364 | for every AST, tool oracle, clock, TTL and eviction history and every starting cache true of its calls, execution gives the meaning of the AST and leaves the cache true |
| CacheTransparency.TransparentTop | src/praxis_sdk/dsl/parser.py:231-255 | the same for whole programs |
| CacheTransparency.CachedEqualsUncached | src/praxis_sdk/dsl/parser.py:210-261 | a program gives the same results with and without the cache, over whatever caches |
| CacheTransparency.KeyedSeparate | src/praxis_sdk/dsl/types.py:199-208 | calls whose tool has no colon and whose arguments serialise never share a key |
| CacheTransparency.SeparateKeysExact | src/praxis_sdk/dsl/parser.py:327-362 | two calls over one cache give their own meanings for every tool and clock exactly when they are the same call or do not share a key |
| Schedules.StepKeepsPromise | src/praxis_sdk/dsl/parser.py:424-467 | no step of any coroutine changes the result the program is bound to give, and every step leaves the shared cache true |
| Schedules.RunKeepsPromise | src/praxis_sdk/dsl/parser.py:424-467 | the same for every run, with others changing the cache between steps |
| Schedules.ScheduleIndependence | src/praxis_sdk/dsl/parser.py:424-467 | every interleaving of the children at their tool calls that finishes gives the results of running them left to right |
| Schedules.StepsAreBounded | src/praxis_sdk/dsl/parser.py:438-445 | a step changes nothing or uses up one of a bounded number of steps |
| Schedules.SomeChoiceMoves | src/praxis_sdk/dsl/parser.py:438-445 | an unfinished program always has a choice that moves it, whatever the cache and the clock |
| Schedules.CanFinish | src/praxis_sdk/dsl/parser.py:438-445 | every unfinished run can be driven to its end within the bound |
| ProgramSchedules.ProgramIndependence | src/praxis_sdk/dsl/parser.py:231-255 | whole programs: any interleaving inside each top-level node that ends gives the results of the left-to-right execution and stops at the same node |
| ProgramSchedules.ProgramCanFinish | src/praxis_sdk/dsl/parser.py:231-255 | every unfinished program can be driven to its end within a bound |
| CycleCheck.HasCircularDependencies | src/praxis_sdk/dsl/planner.py:514-551 | true exactly when the edges whose source is a plan node contain a directed cycle, for any nodes and edges |
| CycleCheck.CycleFinder.HasCycle | src/praxis_sdk/dsl/planner.py:530-544 | a reported cycle exists; otherwise the vertex is finished, and the recursion ends as unvisited vertices decrease |
| CycleCheck.FinishedMeansAcyclic | src/praxis_sdk/dsl/planner.py:530-551 | when every plan node is finished in order there is no cycle |
| CycleCheck.BackArrowClosesCycle | src/praxis_sdk/dsl/planner.py:531-532 | an edge back to the recursion stack closes a cycle |
| Lowering.PlanNumbers | src/praxis_sdk/dsl/planner.py:334-473 | the workflow nodes describe the emitting AST nodes in pre-order, numbered 0, 1, 2, ... |
| Lowering.BlockLinks | src/praxis_sdk/dsl/planner.py:383-455 | in any AST an edge links to each child of a PARALLEL from the block, and to each child of a SEQUENCE from the child before it, or from the block to the first |
| Lowering.Forest | src/praxis_sdk/dsl/planner.py:334-473 | when all descendants of blocks emit, edges ascend between existing nodes, each non-top-level node has exactly one incoming edge, top-level ones none, and edges are nodes minus roots |
| Lowering.PlanWithin | src/praxis_sdk/dsl/planner.py:334-473 | for any AST no edge goes down and none points further than just past the last node |
| Lowering.PlanReaches | src/praxis_sdk/dsl/planner.py:383-455 | an edge points just past the last node exactly when the last emitting node ends in a child that emits nothing |
| Lowering.PlanSelfLoops | src/praxis_sdk/dsl/planner.py:422-455 | a self-loop on an existing node appears exactly where a SEQUENCE goes on after a child that emits nothing and something later emits |
| Planner.AstToWorkflowPlan | src/praxis_sdk/dsl/planner.py:334-350 | the counting loop builds the plan these theorems are about |
| Planner.ConvertAstNode | src/praxis_sdk/dsl/planner.py:352-473 | nodes and edges of one AST node from given numbers on |
| Planner.ValidatePlan | src/praxis_sdk/dsl/planner.py:475-512 | reports a tool exactly when it is required and not available, an edge end exactly when no node has its id, circularity exactly when there is a cycle; in this order |
| Planner.OnlySelfLoops | src/praxis_sdk/dsl/planner.py:514-551 | when no edge goes down the only cycles are self-loops of plan nodes |
| Planner.CircularExactly | src/praxis_sdk/dsl/planner.py:408-455 | which ASTs validate_plan reports as circular |
| Planner.DanglingExactly | src/praxis_sdk/dsl/planner.py:500-506 | which ASTs validate_plan reports as having dangling edges |
| Planner.CleanPlansPass | src/praxis_sdk/dsl/planner.py:475-512 | plans of ASTs whose blocks have only emitting descendants pass both checks |
| Planner.TaskThenCallIsCircular | src/praxis_sdk/dsl/planner.py:408-455 | a SEQUENCE of a TASK and a CALL is lowered to a circular plan, whatever their arguments |
| Planner.CallThenTaskDangles | src/praxis_sdk/dsl/planner.py:371-406 | a PARALLEL of a CALL and a TASK is lowered to a plan with a dangling edge |
| LoweredPrograms.TaskThenCallProgram | src/praxis_sdk/dsl/planner.py:408-455 | every token list SEQUENCE, TASK, CALL with a tool is accepted by build_ast and lowered to a circular plan |
| LoweredPrograms.CallThenTaskProgram | src/praxis_sdk/dsl/planner.py:371-406 | every token list PARALLEL, CALL with a tool, TASK is accepted by build_ast and lowered to a plan with a dangling edge |
| LoweredPrograms.SequenceProgramIsCircular | src/praxis_sdk/dsl/planner.py:408-455 | SEQUENCE, TASK x, CALL t is such a program |
| LoweredPrograms.ParallelProgramDangles | src/praxis_sdk/dsl/planner.py:371-406 | PARALLEL, CALL t, TASK x is such a program |
| Pipeline.TextAcceptanceIsLocal | src/praxis_sdk/dsl/parser.py:175-188 | for every text the tokenizer accepts, the AST is built exactly when each token is fine with its right neighbour |
| Pipeline.ProgramsAreTransparent | src/praxis_sdk/dsl/parser.py:210-364 | with JSON keys every program, validated or not, gives the same results with and without the cache, for every oracle, clock and eviction history over any true cache, and leaves it true |
| Pipeline.ProgramsAreScheduleIndependent | src/praxis_sdk/dsl/parser.py:210-475 | and under every interleaving of its PARALLEL children, with others changing the cache truthfully, every program that ends gives the results its AST means |
| Pipeline.ValidatedProgramsAreTransparent | src/praxis_sdk/dsl/parser.py:158-261 | with any injective dump that serialises the dictionaries the builder makes, programs that pass token validation give the same results with and without the cache, and leave it true of every well-keyed call |
| Pipeline.JsonSerialises | src/praxis_sdk/dsl/types.py:199-208 | the JSON printer is such a dump |
| Tasks.CreateConserves | src/praxis_sdk/a2a/task_manager.py:139-168 | creating a task keeps the statistics in balance with the table |
| Tasks.UpdateConserves | src/praxis_sdk/a2a/task_manager.py:229-301 | so does every update, accepted or refused |
| Tasks.CleanupConserves | src/praxis_sdk/a2a/task_manager.py:440-463 | so does cleanup, which removes ended tasks only |
| Tasks.SweepConserves | src/praxis_sdk/a2a/task_manager.py:465-505 | so does the timeout sweep, and timeouts counted are failures counted |
| Tasks.SweepOne | src/praxis_sdk/a2a/task_manager.py:485-499 | failing one overdue task and forgetting its timeout leaves exactly the rest of the sweep to do, so its order does not matter |
| Tasks.HistoryLimit | src/praxis_sdk/a2a/task_manager.py:391-418 | right after add_message_to_history the history is within its limit exactly when the limit is at least 1, and then holds the most recent messages in order |
| HistoryRuns.HistoryBound | src/praxis_sdk/a2a/task_manager.py:210-301 | over every run with a limit of at least 1 a history exceeds it by no more than the status messages sent since it was last trimmed |
| HistoryRuns.QuietRunsStayWithinExactly | src/praxis_sdk/a2a/task_manager.py:391-418 | all runs whose updates, cancels and sweeps send no status message keep every history within the limit exactly when the limit is at least 1 |
| HistoryRuns.HistoryGrows | src/praxis_sdk/a2a/task_manager.py:250-255 | with status messages no limit holds: for every n a run that leaves n + 1 messages, whatever the limit |
| HistoryRuns.OneUpdateBreaksTheLimit | src/praxis_sdk/a2a/task_manager.py:250-255 | with a limit of 1, creating a task and updating it with a message leaves two messages |
| TaskRuns.TerminalAbsorbs | src/praxis_sdk/a2a/task_manager.py:516-556 | in every interleaving a terminal task never changes state while it is in the table, and once it is removed it never comes back |
| TaskLaws.UpdateExactly | src/praxis_sdk/a2a/task_manager.py:210-301 | an update is accepted exactly when the task is there and the transition is in the table of states; then state, time, status and history change as stated and no other task does |
| TaskLaws.StepMoves | src/praxis_sdk/a2a/task_manager.py:516-556 | in every interleaving a step leaves the state of a task alone or moves it along one of these transitions |
| TaskLaws.StatisticsCount | src/praxis_sdk/a2a/task_manager.py:139-505 | over every run each statistic is the number of the moves it is named after: to COMPLETED, FAILED and CANCELED, and to FAILED in a timeout sweep; and created the number of tasks created |
| TaskLaws.NewTask | src/praxis_sdk/a2a/task_manager.py:139-168 | a new task is submitted, holds its message addressed to it, has its deadline and is counted |
| TaskLaws.SweepAtDeadline | src/praxis_sdk/a2a/task_manager.py:465-499 | whatever happened before a task was created with a deadline and since, a sweep fails and forgets it if it is submitted or working and the time is past that deadline, and otherwise leaves it as it is |
| TaskLaws.SweepByExample | src/praxis_sdk/a2a/task_manager.py:477 | with deadline 300 a sweep at 10 leaves the task submitted and one at 400 fails it, counted once as failed and once as timed out |
| TaskLaws.CleanupExactly | src/praxis_sdk/a2a/task_manager.py:430-463 | cleanup forgets just the completed and failed tasks stamped before the cutoff, with their deadlines, returns how many, and counts as a run exactly if there were any |
| TaskLaws.MessageAdded | src/praxis_sdk/a2a/task_manager.py:391-418 | an added message is the newest one of its task, addressed to it, and nothing else changes |
| TaskRuns.AlwaysConserved | src/praxis_sdk/a2a/task_manager.py:139-499 | over every run created - completed - failed - cancelled is the number of tasks that have not ended, timeouts belong to existing tasks, and no task is UNKNOWN |
| TaskRuns.CancelReturnsTerminal | src/praxis_sdk/a2a/task_manager.py:303-339 | in every interleaving, whenever cancel_task returns a task, that task is terminal |
| TaskRuns.KeyErrorExactly | src/praxis_sdk/a2a/task_manager.py:303-339 | from its check on, in every interleaving, a cancel that has ended raised a KeyError exactly when a cleanup in between removed the checked entry as stale, and otherwise returned it |
| TaskRuns.CancelEndsExactly | src/praxis_sdk/a2a/task_manager.py:303-339 | the same for whole runs of a new manager: any run before the check, any run after it |
| TaskRuns.OnlyCleanupRemoves | src/praxis_sdk/a2a/task_manager.py:440-463 | a step removes an entry exactly when it is a cleanup that finds it completed or failed with a time stamp before the cutoff |
| TaskRuns.CheckedIsPresent | src/praxis_sdk/a2a/task_manager.py:303-322 | a cancel passes its check exactly when the entry is there and not terminal, and is over otherwise |
| TaskRuns.KeyErrorIsFinal | src/praxis_sdk/a2a/task_manager.py:337-339 | the identifier in a KeyError was once in the table and is in it neither now nor after any later run |
| TaskRuns.LosesItsTask | src/praxis_sdk/a2a/task_manager.py:303-339 | cleanup between the check and the end of a cancel makes it raise that error |
| TaskRuns.CancelCanLoseItsTask | src/praxis_sdk/a2a/task_manager.py:303-339 | a run that leads to that state |
| TaskManagers.TaskManager.CreateTask | src/praxis_sdk/a2a/task_manager.py:120-168 | the one new entry is a submitted task with its addressed message, its deadline now plus the timeout, 0 meaning the default, and one more is counted as created |
| TaskManagers.TaskManager.UpdateTaskStatus | src/praxis_sdk/a2a/task_manager.py:210-301 | refused without any change unless the task exists and the transition is in the table of states; otherwise state, message, history and one statistic change |
| TaskManagers.TaskManager.CancelTask | src/praxis_sdk/a2a/task_manager.py:303-339 | uninterrupted, it raises exactly for missing and terminal tasks and changes nothing, or returns the task canceled and untracked and leaves all others alone |
| TaskManagers.TaskManager.AddMessageToHistory | src/praxis_sdk/a2a/task_manager.py:391-418 | the addressed message is appended and the history trimmed |
| TaskManagers.TaskManager.AddArtifactTo | src/praxis_sdk/a2a/task_manager.py:341-389 | the artifact is appended and counted, or nothing happens |
| TaskManagers.TaskManager.CleanupCompletedTasks | src/praxis_sdk/a2a/task_manager.py:430-463 | collecting and then removing takes away exactly the completed and failed tasks older than the cutoff, with their timeouts |
| TaskManagers.TaskManager.CheckTimeouts | src/praxis_sdk/a2a/task_manager.py:465-505 | fails exactly the submitted and working tasks whose deadline is before now, one after the other in any order, and leaves the others as they are |

## Left out

- DslParser.AdvancedDslParser.ExecuteParallelNode: runs its children one after the other, because the sequential methods are proved equal to one deterministic run; `ExecuteConcurrently` runs them as gathered coroutines in any order, and `Schedules` has every interleaving, with two atomic steps per CALL (lookup, record) and the tool in flight between them.
- TaskManagers.TaskManager.CheckTimeouts: models the effect the sweep is written for. As written, `check_timeouts` awaits `update_task_status` while it holds the same non-reentrant lock, so no claim is made that it finishes. One reading of the clock stands for all of a sweep's timestamps.
- TaskManagers.TaskManager.CancelTask: is the uninterrupted call; `TaskRuns` has cancel under every interleaving.
- CacheRuns.RefinesLru: is the special case of a clock that moves between readings; `EvictsLeastRecentExactly` is for every clock.
- Cache entries, tasks and messages are values in the dictionaries, not objects: a returned Task that later changes under the caller, and one message object shared by status and history, are not captured.
- Tools are a pure oracle of tool name and arguments that returns a value or raises. Exceptions raised outside tool execution, and cancellation of coroutines, are not modelled.
- Type detection of argument values (`_parse_argument_value`) is an uninterpreted function. A float is represented by the text JSON has for it. Values that JSON has no text for are those on which a general dump fails.
- Clock readings are integers; comparing ISO strings in cleanup stands for comparing times. Random identifiers are assumed new.
- Upper- and lower-casing are those of ASCII. Whitespace is Python's.
- Node ids `node_k` and edge ids `edge_k` are represented by k; edge types and the x position, which are constant per block, are dropped. `get_best_agent_for_tool` (float scores) is an opaque function of the tool.
- Error and log messages are represented by what they report; suggestions, AST and node metadata, execution times and `total_execution_time` statistics are dropped.
- Event publishing, the lock objects, background loops, `list_tasks`, `get_stats` and task metadata.
- `validate_ast`, `validate_workflow_logic` and `peek`/`reset` of the token stream: they only restrict or inspect what is modelled.
- Recursion limits of Python, on deep ASTs and long plans.
- `CacheService`, `WorkflowState`, `plan_optimizer`, the LLM planner and orchestrator, servers, P2P and tool engines: I/O or easy members.
