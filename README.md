# miniquery, modelled in Dafny

miniquery is a command-line front end for SQL databases. A query is written
as a short list of shell words: options, select particles, updates, a table
name and where-clauses. The program classifies the words, builds and runs
the query, and prints the result set as aligned columns or tab-separated
rows. Its interactive side shows a styled prompt and completes commands.

This project models the logic at the core of that program:

- **classification.dfy** (`Classification`): the argument classifier.
  - Dash-led tokens are options. Three option pairs are mutually exclusive.
  - `+`-led tokens are select particles.
  - A token holding a compound assignment is an update.
  - Of the remaining tokens, the first is the table name and the rest are where-clauses.
  - `ArgumentClassifier.Classify` is the loop that updates the classifier's fields. It is proved equal to the specification function `Run`.
- **errors.dfy** (`Errors`):
  - the return codes;
  - the message templates and `str.format` on them;
  - the error manager, whose `setError` records a message and whose `doExit` reports it.
- **mini_utils.dfy** (`MiniUtils`): the mapping from a SQL column type to the internal token type.
- **mini_help.dfy** and **script_help.dfy** (`MiniHelp`, `ScriptHelp`):
  - the help-flag test and the decision between help and execution;
  - the usage message built from the object name.
- **queries.dfy** (`Queries`): the query processor.
  - Column widths are widened to fit NULL.
  - Headers and rows are formatted with left-justified columns.
  - The tab-separated output is modelled.
  - What is printed for each query type and set of options is modelled.
- **connections.dfy** (`Connections`):
  - the connection URL built from the three kinds of connection definition;
  - the one-time password prompt;
  - the cached connection.
- **prompts.dfy** (`Prompts`):
  - the prompt-definition language: `${a:cF...}` markers naming an attribute, a colour and features, between literal text;
  - its translation into styled prompt segments.
- **command_completion.dfy** (`CommandCompletion`):
  - the command completer, with candidate words that depend on the command typed;
  - the anchored lazy "fuzzy" match;
  - the ordered list of completions.
- **mini_completion.dfy** (`MiniCompletion`):
  - the subsequence regex built from an abbreviation;
  - the stable ordering of the abbreviations found in a line.
- **text.dfy** and **wrappers.dfy** hold shared helpers: string prefixes and searches, `lstrip`, `partition`, `join`, `ljust`, and `Option`/`Result`.

Python exceptions are modelled as explicit outcomes, such as `None`, `Err`, `completed == false` or `raised`. They are not modelled as preconditions. Printed output is modelled as the sequence of strings passed to `print`.

## Model

| member | source | states |
|---|---|---|
| Classification.ExclusivePair | src/argumentClassifier.py:39-45 | only o/a, 2v/3v and e/i form exclusive pairs, and a key is a member of the pair it maps to |
| Classification.PairMembers | src/argumentClassifier.py:39-45 | both members of a pair map back to the same pair |
| Classification.Route | src/argumentClassifier.py:25-71 | a toggle names the key's own pair; a plain option is never one of the paired keys; a table or where token is never empty |
| Classification.RunCompletesIff | src/argumentClassifier.py:24-71 | classification completes iff every token routes; empty, `+` and `++` tokens raise IndexError |
| Classification.RunAfterFailure | src/argumentClassifier.py:24 | after a raising token, no later token changes anything |
| Classification.RunStopsAtFirstBadToken | src/argumentClassifier.py:24-71 | a failed run stops at the first token that does not route, with the state the earlier tokens left |
| Classification.ToggleSelectsOne | src/argumentClassifier.py:13-20 | toggling sets the chosen key to None and removes its partner |
| Classification.ToggleOtherKey | src/argumentClassifier.py:13-20 | toggling leaves every key outside the pair untouched |
| Classification.ToggledExclusive | src/argumentClassifier.py:13-20 | toggling preserves "at most one key of each pair is set" |
| Classification.StepKeepsPairsExclusive | src/argumentClassifier.py:25-71 | one token preserves the pair exclusivity |
| Classification.RunKeepsPairsExclusive | src/argumentClassifier.py:24-71 | a whole run preserves the pair exclusivity |
| Classification.LastToggleWins | src/argumentClassifier.py:39-45 | the last toggle of a pair is set, and its partner is absent |
| Classification.LastToggleKey | src/argumentClassifier.py:39-45 | the last toggle of a pair names a member of that pair |
| Classification.LastSettingWins | src/argumentClassifier.py:47-49 | the last value given to an unpaired option wins; without one the option is as before |
| Classification.LastToggleAppend | src/argumentClassifier.py:24 | the last toggle of a concatenation comes from its second part when that part has one |
| Classification.LastSettingAppend | src/argumentClassifier.py:24 | the same for unpaired option values |
| Classification.ExplicitToggleWins | src/argumentClassifier.py:23-24 | a command-line toggle overrides the preconfigured options |
| Classification.ExplicitSettingWins | src/argumentClassifier.py:23-24 | a command-line option value overrides the preconfigured one |
| Classification.RunFillsBuckets | src/argumentClassifier.py:51-67 | the select and update lists end as their old contents followed by the tokens routed to them, in order |
| Classification.RunSetsTableThenWheres | src/argumentClassifier.py:68-71 | the first plain token becomes the table name when none is set, and every later one is a where-clause, in order |
| Classification.RunPlacesEachToken | src/argumentClassifier.py:24-71 | each non-option token lands in exactly one place |
| Classification.StepTouchesOneKind | src/argumentClassifier.py:25-71 | option tokens change only the options; other tokens change only the lists or the table name |
| Classification.PlusForms | src/argumentClassifier.py:51-62 | `++1x`, `+1x`, `++x` and `+x` go to pre-select `+x`, pre-select `x`, post-select `+x` and post-select `x` |
| Classification.CompoundAssignmentAnywhere | src/argumentClassifier.py:66 | any of `+*/%:-` followed by `=` anywhere in the token makes it an update |
| Classification.CompoundAssignmentFound | src/argumentClassifier.py:66 | an update token holds such a pair at some position |
| Classification.NoCompoundAssignment | src/argumentClassifier.py:66 | a token without such a pair is not an update |
| Classification.RouteBareToken | src/argumentClassifier.py:66-71 | a token that is neither an option nor a select particle is an update iff it holds a compound assignment |
| Classification.ExampleRoutes | src/argumentClassifier.py:51-71 | `mytable` and `id=5` are plain tokens, and `+name` is a post-select |
| Classification.ClassifyExample | src/argumentClassifier.py:22-71 | classifying `mytable id=5 +name` gives table `mytable`, where-clause `id=5` and post-select `name` |
| Classification.AsWrittenRejectsBareTokens | src/argumentClassifier.py:66 | as written, every token reaching the compound-assignment test raises NameError |
| Classification.ArgumentClassifier.constructor | src/argumentClassifier.py:6-11 | a fresh classifier has no table, no options and empty lists |
| Classification.ArgumentClassifier.ToggleOptions | src/argumentClassifier.py:13-20 | the options become the toggled options |
| Classification.ArgumentClassifier.ClassifyToken | src/argumentClassifier.py:25-71 | one token raises iff it does not route; otherwise the fields become the routed state |
| Classification.ArgumentClassifier.ClassifyOption | src/argumentClassifier.py:25-49 | a dash-led token always routes, and the options become the toggled pair or the stored value |
| Classification.ArgumentClassifier.ClassifySelect | src/argumentClassifier.py:51-62 | a plus-led token raises iff it is `+` or `++`; otherwise the token joins the pre- or post-selects as routed |
| Classification.ArgumentClassifier.Classify | src/argumentClassifier.py:22-71 | the loop over the preconfigured tokens and then the argument list leaves exactly the state, and the completion flag, of `Run` |
| Errors.CodeValue | src/errorManager.py:4-14 | the return codes have values 0 to 9, and 0 only for SUCCESS |
| Errors.FormatSucceedsIff | src/errorManager.py:46-47 | for templates whose only replacement fields are single-digit `{d}` fields, as all of errorMsgDict's are, formatting succeeds iff every field names a supplied argument (otherwise IndexError) |
| Errors.UsageMessage | src/errorManager.py:16-18 | the HELP_AND_EXIT template, filled, reads `USAGE: prog object trailing` and then names the program again in the help hint |
| Errors.AcceptedCalls | src/errorManager.py:36-49 | for an errorMsgDict-style template (single-digit `{d}` fields only), a call with a flat override, or with arguments that cover the template's fields, succeeds and records the override or the template |
| Errors.ErrorManager.constructor | src/errorManager.py:32-33 | the message is empty and the code is SUCCESS, which establishes the manager's invariant |
| Errors.ErrorManager.SetError | src/errorManager.py:36-49 | prints the flat-argument warning exactly when the override holds `$`, and nothing otherwise; never changes returnCode, so the manager's invariant (returnCode is SUCCESS) is kept; an override holding `$` returns 99 with nothing recorded; otherwise the override, the raw template or the formatted template is recorded; a missing argument raises with nothing recorded |
| Errors.ErrorManager.DoExit | src/errorManager.py:29-53 | writes the given message, or the recorded one when none is given; the exit status is always 0, because nothing after construction assigns returnCode, so even a recorded error exits with SUCCESS's value |
| MiniUtils.CaseInsensitive | src/miniUtils.py:17-18 | the mapping ignores letter case |
| MiniUtils.FirstWordOnly | src/miniUtils.py:17 | only the text before the first space counts |
| MiniUtils.IntegerWins | src/miniUtils.py:21-22 | any type whose first word contains `int` is INTEGER |
| MiniUtils.PointIsInteger | src/miniUtils.py:21-22 | any type whose first word is `POINT` is INTEGER, because `point` contains `int` |
| MiniUtils.AsWrittenFailsOnTimestamps | src/miniUtils.py:31-32 | as written, the function raises exactly where TIMESTAMP is intended and agrees everywhere else |
| MiniUtils.TimestampFailsAsWritten | src/miniUtils.py:31-32 | `timestamp` raises as written and maps to TIMESTAMP as intended |
| MiniHelp.HelpFlagIff | src/miniHelp.py:64-65 | a help flag is one or more dashes followed by `h` or `help` |
| MiniHelp.HelpFlagExamples | src/miniHelp.py:64-65 | `-h` and `--help` are help flags; `-hx`, `h` and bare dashes are not |
| MiniHelp.ShouldHelpOrExecute | src/miniHelp.py:62-70 | usage help iff there are no arguments; full help iff there are arguments and the first is a help flag |
| MiniHelp.BasenameOfPath | src/miniHelp.py:29 | the program name is the last path component |
| MiniHelp.UsageObjectNameFailsIff | src/miniHelp.py:35-49 | usage help raises UnboundLocalError exactly for an empty object name and for a plural one not ending in `Rows` |
| MiniHelp.RowsObjectName | src/miniHelp.py:35-38 | `xRows` is shown as `[-rowCount] xNameOrList`, with the trailing s's of x dropped |
| MiniHelp.SingularObjectName | src/miniHelp.py:45-46 | any other singular name x is shown as `xName` |
| MiniHelp.GiveHelp | src/miniHelp.py:27-60 | usage help records the filled usage template; other help records "Details to come."; both return SUCCESS unless the object name is unassigned |
| ScriptHelp.ShouldHelpOrExecute | src/minihelp.py:12-20 | usage help iff there are no arguments; mini help iff the first argument is a help flag; no help otherwise |
| ScriptHelp.AgreesWithMiniHelp | src/minihelp.py:12-20 | both help decisions make the same distinction, case by case |
| ScriptHelp.Examples | src/minihelp.py:12-20 | the decision on `--help`, `-h`, `-hx`, `h` and an empty argument list |
| Queries.WidthRules | src/queryProcessor.py:46-54 | a column is as wide as its display size and its header, and is widened to 4 only when it is narrower and holds a falsy value |
| Queries.NullFits | src/queryProcessor.py:50-54 | every `NULL` shown fits its column |
| Queries.ColumnWidths | src/queryProcessor.py:46-54 | the widening loop computes exactly the final widths |
| Queries.FieldInLine | src/queryProcessor.py:56-61 | in a formatted line, each field appears at its offset and is padded with spaces to its width |
| Queries.AlignedOffsets | src/queryProcessor.py:56 | when every field fits, field k starts at the sum of the earlier widths plus one separator each |
| Queries.AlignedField | src/queryProcessor.py:56-61 | in a line formatted with fitting widths, each field appears whole at its column's start |
| Queries.HeaderLineAligned | src/queryProcessor.py:58 | each header appears at its column start in the header line |
| Queries.DisplayLinesAt | src/queryProcessor.py:58-61 | the display is the header line, a newline entry, and one formatted line per row |
| Queries.RowLineShowsValues | src/queryProcessor.py:61 | each value, or `NULL` for a falsy one, appears in its row line, aligned when it fits |
| Queries.BuildDisplayLines | src/queryProcessor.py:58-61 | the loop builds exactly the display lines |
| Queries.TabRowsAt | src/queryProcessor.py:40-42 | each row prints as its values joined by tabs, followed by a newline entry |
| Queries.TabCount | src/queryProcessor.py:41 | a tab-separated line of n tab-free fields holds n-1 tabs |
| Queries.PrintTabRows | src/queryProcessor.py:40-42 | the loop prints exactly the tab rows |
| Queries.PrintedShape | src/queryProcessor.py:27-63 | output appears only for a non-empty SELECT: 2n+2 entries for tab output, one joined string otherwise |
| Queries.QueryProcessor.constructor | src/queryProcessor.py:10-12 | an empty query of type SELECT |
| Queries.QueryProcessor.InflateQuery | src/queryProcessor.py:21-25 | sets the fixed query and type SELECT |
| Queries.QueryProcessor.RunAndDisplayResult | src/queryProcessor.py:27-63 | prints the displayed result; returns SUCCESS for SELECT and nothing otherwise; records EMPTY_RESULT_SET for an empty SELECT |
| Queries.QueryProcessor.Process | src/queryProcessor.py:14-19 | inflates the query, prints it under `q`, and runs and displays it under `r` |
| Connections.CountJoinPresent | src/databaseConnection.py:74-79 | joining adds one separator only when both parts are non-empty |
| Connections.AtSignIff | src/databaseConnection.py:74-79 | the URL holds `@` iff both user and host are given |
| Connections.SlashIff | src/databaseConnection.py:91-97 | the URL holds a third `/` iff a user or host is given and the database is named |
| Connections.QuestionMarkIff | src/databaseConnection.py:81-88 | driver options appear, after `?`, iff the database is named and the options are non-empty |
| Connections.PlusIff | src/databaseConnection.py:51-55 | the URL holds `+` iff a driver or transport is given |
| Connections.UrlShape | src/databaseConnection.py:51-100 | a component URL starts with the driver part and `://`, and ends with the database part |
| Connections.FullPathShape | src/databaseConnection.py:41-48 | a full-path URL is the path alone, or `engine:` followed by the path |
| Connections.AppSettings.constructor | src/databaseConnection.py:30-31 | holds the given connection settings and database |
| Connections.DatabaseConnection.constructor | src/databaseConnection.py:8-10 | no connection yet and no password typed |
| Connections.DatabaseConnection.BuildComponentsUrl | src/databaseConnection.py:51-100 | the component branch builds exactly the specified URL from driver, user, host and database parts |
| Connections.DatabaseConnection.GetConnection | src/databaseConnection.py:26-101 | returns a cached connection unchanged; otherwise builds the URL from the settings, prompts for the password at most once, caches the connection when the engine accepts the URL, and fails otherwise |
| Prompts.Attribute | src/prompts.py:33-42 | an attribute letter maps to one of the prompt, user, host, db or table styles |
| Prompts.Split | src/prompts.py:61 | splitting gives at least one piece, and every odd-numbered piece is a marker body |
| Prompts.SplitAlternates | src/prompts.py:61 | the piece count is odd: literal text and markers alternate, starting and ending with text |
| Prompts.SplitRoundTrip | src/prompts.py:61 | reassembling the pieces with `${`...`}` gives back the definition |
| Prompts.MarkerHasNoMarkerStart | src/prompts.py:61-66 | a marker body never holds `${` |
| Prompts.NoValueSyntaxError | src/prompts.py:64-66 | the `${` syntax error never fires |
| Prompts.DescribedOkIff | src/prompts.py:82-86 | a style description succeeds iff every feature letter is known |
| Prompts.PlainMarker | src/prompts.py:69-90 | a single-letter marker shows its attribute in white |
| Prompts.UnknownAttribute | src/prompts.py:69-72 | an unknown attribute letter is an error |
| Prompts.UnknownColor | src/prompts.py:74-79 | an unknown colour letter is an error |
| Prompts.YellowBoldItalicUser | src/prompts.py:74-94 | `u:yBI` shows the user name, or `<unknown>`, in yellow bold italic |
| Prompts.FoldOkIff | src/prompts.py:61-98 | the translation succeeds iff every marker is valid |
| Prompts.FoldStopsAtFirstBadMarker | src/prompts.py:61-98 | a failed translation reports the first invalid marker |
| Prompts.PromptFrame | src/prompts.py:25-104 | the prompt starts with the fixed prefix segments and ends with the prompt symbol |
| Prompts.LiteralTextKept | src/prompts.py:96-98 | the literal text between markers is kept, in order |
| Prompts.StyleMarker | src/prompts.py:69-94 | the per-marker code, including the features loop, computes the marker's style |
| Prompts.FoldKeepsStyles | src/prompts.py:13-94 | building the prompt never overwrites the fixed styles |
| Prompts.FoldPieces | src/prompts.py:61-98 | the loop over the pieces builds the specified prompt or stops at the specified error |
| Prompts.StringToPrompt | src/prompts.py:9-106 | the whole translation computes the specified prompt or error |
| CommandCompletion.StarOnlyForGet | util/commandCompleter.py:64-84 | the get commands offer `*` and the unset commands do not; a missing Variables section leaves getv/unsetv with nothing, and a failed settings lookup leaves get/set/unset with nothing; set and unset offer the same list |
| CommandCompletion.SettingCandidatesIff | util/commandCompleter.py:72-76 | the settings lookups succeed iff the ConnectionString section, its definitionType entry and the definition type's sub-section all exist; the list is the setting names, then `definitionType`, then the sub-section's entries |
| CommandCompletion.OtherCommandCandidates | util/commandCompleter.py:81-82 | other commands offer their fixed setting values, or nothing |
| CommandCompletion.AnchoredMatchIff | util/commandCompleter.py:102-103 | a word matches iff the typed text is empty, or the word starts with the first typed character and holds the typed text as a subsequence |
| CommandCompletion.AnchoredMatchIsSubsequence | util/commandCompleter.py:102-103 | every match holds the typed text as a subsequence |
| CommandCompletion.EmptyMatchesAll | util/commandCompleter.py:92-103 | empty typed text matches every word |
| CommandCompletion.MatchingAppend | util/commandCompleter.py:105-108 | matching distributes over concatenated word lists |
| CommandCompletion.MatchingSoundComplete | util/commandCompleter.py:105-108 | each completion comes from a matching word, and each matching word yields a completion |
| CommandCompletion.NoLeaderNoCompletions | util/commandCompleter.py:50-54 | without the leader there are no completions |
| CommandCompletion.CommandNameCompletions | util/commandCompleter.py:85-88 | before the first space, the candidates are the command names and aliases |
| CommandCompletion.YieldMatches | util/commandCompleter.py:105-108 | the loop yields exactly the matching completions |
| CommandCompletion.GetCompletions | util/commandCompleter.py:42-108 | computes exactly the specified completions |
| MiniCompletion.DecodeRegex | util/miniCompleter.py:116-141 | the subsequence regex loses nothing: decoding it gives back the abbreviation |
| MiniCompletion.DecodeOnlyRegexes | util/miniCompleter.py:116-141 | only regexes built this way decode |
| MiniCompletion.RegexPieces | util/miniCompleter.py:131-139 | the regex holds one piece per character, in order, with `.*?` between neighbours |
| MiniCompletion.SortSortsAndPermutes | util/miniCompleter.py:62-64 | the sorted records are ordered by start and are exactly the records given |
| MiniCompletion.SortStable | util/miniCompleter.py:62-64 | records with equal starts keep their order |

## Left out

- The shell-word splitting of the preconfigured options is left out. `Classify` takes the preconfigured tokens as a ready list.
- The preconfigured option string comes from `miniEnv`, which is not part of this model.
- Database I/O is left out: the engine, `execute`, `fetchall` and `__del__`.
  - The result set is an input, with rows, headers and display sizes.
  - Whether the engine accepts a URL is a function parameter.
  - `getpass` is replaced by a typed-password parameter.
- Queries.Printed: the debug print of the format string is not modelled. Each value is modelled as an optional string. Python falsiness of numeric zero and other non-string values is not modelled: only None and "" are falsy.
- Errors.Format: only single-digit positional fields `{d}` are recognised, which covers every template in errorMsgDict. Python's `str.format` handling of `{{` and `}}` escapes, a lone `}`, automatic `{}` numbering, multi-digit indices and format specs such as `{0:>5}` is not modelled, so results about Format hold for such templates only.
- CommandCompletion.AnchoredMatch and CommandCompletion.WordMatches: the typed text is assumed to hold no regular-expression metacharacters. The source joins it into a regex with `.*?`, so a typed `.` would match any character, and a typed `(`, `*` or `[` would make `re.search` raise `re.error` out of `get_completions`; neither is modelled.
- Queries.InitialWidth: display sizes are integers. A display size of None, which makes `max` raise TypeError in the width loop, cannot be represented.
- Process exit and the error stream are left out. `DoExit` reports what it would write and the exit status.
- The console output of `giveMiniHelp` in src/miniHelp.py and of `giveHelp` in src/minihelp.py is left out. It is plain printing with no decision in it.
- Letter case is modelled for ASCII letters only. Python's Unicode case mapping is left out.
- The names `QueryType` (imported from miniUtils), `ReturnCode.DATABASE_CONNECTION_ERROR` and `ReturnCode.PROMPT_ERROR` do not exist in the source.
  - The model uses its own `QueryType`.
  - A refused connection is `Err(UndefinedReturnCode(url))`.
  - Prompt errors are `PromptError` values.
- Prompts.Split: `re.split` on the marker pattern is modelled by an explicit scanner with the same groups.
- The operating-system test in src/prompts.py reads a setting that is not defined. It is the parameter `isWindows`.
- In util/miniCompleter.py, the grouping loop of `build_regexes` and the search for abbreviations in a line are left out.
  - Both depend on user-supplied regexes.
  - The found records are an input to the sort.
- util/miniCompleter.py does not parse as written: the `if re.search()` at line 182 has no colon and no arguments, so the module cannot be imported and `getSubsequenceRegex` never runs; `build_regexes` would also stop in the debugger at the `breakpoint()` of line 143. MiniCompletion models the evident intent.
- The word before the cursor, which prompt_toolkit supplies, is a parameter of the completer. The `Settings` section (with its `leader` entry) and the `Aliases` section are assumed present: they are read outside the KeyError handler, at lines 50-51 and 88, where their absence would raise. The `Variables` and `ConnectionString` sections, the `definitionType` entry and the definition type's sub-section may be missing; the handler at lines 83-84 then gives no candidates.
- Settings loading, the dialogs and the module-level singletons are not part of this model.
- In src/argumentClassifier.py, the lists are class attributes shared across instances. The model keeps them per object, which is the same for the single instance the program creates.

## Findings

| source | as written | input that shows it | evidently intended | confidence | as-written member | corrected member |
|---|---|---|---|---|---|---|
| src/argumentClassifier.py:66 | `re.search` is called but `re` is never imported, so the first token that is not an option or select particle raises NameError | `classify(["mytable"])` | such a token is an update, the table name or a where-clause | not executed | Classification.RouteAsWritten (Classification.AsWrittenRejectsBareTokens) | Classification.Route |
| src/miniUtils.py:31-32 | the datetime/timestamp branch assigns `internalTime`, so `return internalType` raises UnboundLocalError | `sqlTypeToInternalType("timestamp")` | TIMESTAMP is returned | not executed | MiniUtils.SqlTypeToInternalTypeAsWritten (MiniUtils.TimestampFailsAsWritten) | MiniUtils.SqlTypeToInternalType |
