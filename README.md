# Shell.io command interpreter, modelled in Dafny

Shell.io is a small interactive shell for Windows. This project models how it interprets commands, all of which lives in `src/main.c`:

- **Tokenizer** (`lsh_split_line`): a line becomes an argument vector. It splits on space, tab, CR and LF, and never produces an empty token.
- **History** (`add_to_history`): a log of at most 100 lines. When full, it shifts down by one and drops the oldest line.
- **Alias table**:
  - `expand_alias` looks up the first entry with a given name;
  - `lsh_alias` defines an entry, in the `name command` or `name=command` form;
  - the table holds at most 50 entries and starts with `ll` → `dir` and `ls` → `dir`.
- **Builtins**: the registry of seven builtins, each with its return code. `color` maps codes 1 to 7 to console attributes.
- **External launch** (`lsh_launch`) and **redirection** (`handle_redirection`): each turns an argument vector into the one string handed to `system()`.
- **Pipeline** (`handle_pipeline`): splits a raw line at its first bar (`|`) and runs the two stages around the temporary file `temp_pipe.txt`.
- **Dispatch** (`lsh_execute`), in this order:
  1. an empty vector;
  2. `!!` replay;
  3. alias rewrite and re-tokenizing;
  4. builtin lookup;
  5. external launch.
- **Read-loop pass** (one iteration of `lsh_loop` on a line already read): skips empty lines, sends `|` lines to the pipeline, and records every other line before dispatching it.

The host calls that carry the shell's commands are `Effect`s appended to a log:

- each string passed to `system()`;
- each file passed to `remove()`;
- each directory passed to `_chdir()`;
- the attribute the `color` builtin passes to `SetConsoleTextAttribute()`.

The console colours set only to frame output (the prompt, the banner, the headings of `help`, `history` and the alias listing) are not logged; see "## Left out". With this log, each component's contract is an exact equality on strings or sequences.

The modules are:

- **`Wrappers`**: the `Option` type.
- **`Text`**:
  - joining words with single spaces, as the `strcat` loops do;
  - `strchr` as `FirstIndex`;
  - skipping leading spaces.
- **`Tokenizer`**, **`History`**, **`Aliases`**, **`Builtins`**, **`Host`** (the effect type), **`Launcher`**, **`Pipeline`**.
- **`Dispatch`**: the state of the shell as a value, plus `Execute` and `Step` as functions of it.
- **`Session`**: the class `Shell`. It holds the shell's globals:
  - the `history` array and its count;
  - the `aliases` array and its count;
  - `lastCommand`;
  - the effect log.

  Its methods update these fields in place. The history shift, the alias scan, the strtok-style split, the `strcat` loops, the redirection scan and the space skipping are loops, as in the C code. The tokenizer loop walks characters where the C code calls `strtok`, and the builtin name lookup is the recursive `Builtins.IndexFrom`, not a loop.

  The methods that change the tables or dispatch are proved to leave `Model()` exactly as the matching function in `Dispatch`, `History` or `Aliases` says. These are `AddToHistory`, `DefineAlias`, `CallBuiltin`, `RunCommand`, `Execute`, `Replay`, `Rewrite` and `Step`. `HandleRedirection`, `Launch` and `HandlePipeline` change only the effect log, and are proved to append exactly what `Launcher.RedirectedCommand`, `Launcher.LaunchCommand` and `Pipeline.PipelineEffects` say.

The C dispatcher can recurse forever: through `!!`, or through an alias whose replacement starts with its own name. The model therefore carries `fuel`, the number of re-dispatches allowed, and returns `Exhausted` when it runs out. The alias test in the C code compares pointers (`expanded != args[0]`), so the model treats any lookup hit as a rewrite, even when the replacement is the same text.

`handle_pipeline` strips only leading spaces from each stage and keeps trailing ones. The model follows the code: `cat file.txt | sort` runs `cat file.txt  > temp_pipe.txt`, with two spaces before `>` (`Pipeline.PipelineExample`). It does not run the single-spaced `cat file.txt > temp_pipe.txt`.

## Model

| member | source | states |
|---|---|---|
| Text.Join | src/main.c:427-433 | the words with one space between consecutive words (no contract of its own; its properties are `JoinSnoc`, `JoinCons` and `Tokenizer.TokensOfJoin`) |
| Text.JoinSnoc | src/main.c:427-433 | appending one more token to the joined command adds exactly one separating space, except before the first token |
| Text.JoinCons | src/main.c:467-472 | the joined command is the first word, a space, then the rest joined, which is how the alias rebuild reads it |
| Text.FirstIndex | src/main.c:378 | `strchr`: none exactly when the character is absent; otherwise an index holding it with no earlier occurrence |
| Text.FirstIndexAt | src/main.c:378 | an occurrence with none before it is the one `strchr` finds |
| Text.LeadingSpaces | src/main.c:386-387 | the count of leading `' '` characters: all of them are spaces and the next character is not |
| Text.SkipSpaces | src/main.c:386-387 | the pointer-advancing loop stops at the first non-space, having skipped only spaces |
| Text.TrimLeadingSpacesIsSuffix | src/main.c:385-387 | trimming removes only leading spaces and keeps the rest, trailing spaces included, as a suffix |
| Tokenizer.WordLength | src/main.c:84-97 | the length of the delimiter-free prefix: no delimiter before it, a delimiter (or the end) at it |
| Tokenizer.Tokens | src/main.c:84-98 | the maximal delimiter-free runs of the line, in order (no contract of its own; its properties are the lemmas below and `SplitLine` is proved equal to it) |
| Tokenizer.TokensAreWords | src/main.c:84-98 | no token is empty and no token contains space, tab, CR or LF |
| Tokenizer.TokensAtDelim | src/main.c:84-97 | a delimiter between tokens is skipped |
| Tokenizer.WordLengthAt | src/main.c:84-97 | a maximal run of non-delimiters is one whole token |
| Tokenizer.TokensAtWord | src/main.c:84-97 | a maximal word is the next token and splitting resumes after it |
| Tokenizer.SplitLine | src/main.c:73-101 | the `strtok` loop yields exactly `Tokens(line)`, every element a word |
| Tokenizer.TokensEmptyIff | src/main.c:84-99 | the vector is empty if and only if the line is empty or all delimiters |
| Tokenizer.RemoveDelimsOfWordPrefix | src/main.c:84-97 | the characters of a leading word are kept whole |
| Tokenizer.TokensInInputOrder | src/main.c:84-98 | the tokens laid end to end are exactly the line's non-delimiter characters, in input order |
| Tokenizer.TokensAfterWord | src/main.c:84-97 | a word followed by a space tokenizes to that word followed by the tokens of the rest |
| Tokenizer.TokensOfWord | src/main.c:84-97 | a single word tokenizes to itself |
| Tokenizer.TokensOfJoin | src/main.c:84-97 | round trip: words joined with single spaces tokenize back to the same words |
| History.Record | src/main.c:130-142 | below capacity the line is appended and the old entries are kept; at capacity the length stays 100, entries shift down by one and the line is last |
| History.RecordAll | src/main.c:130-142 | a history built line by line never exceeds 100 entries |
| History.NewestOfNewest | src/main.c:134-141 | keeping the newest 100 twice equals keeping them once |
| History.RecordAllKeepsNewest | src/main.c:130-142 | after any number of lines the history is exactly the newest 100 of everything seen, oldest first |
| History.RecordAllInOrder | src/main.c:131-133 | up to capacity every line is kept in insertion order |
| History.RecordPastCapacity | src/main.c:134-141 | the 101st line drops exactly the oldest line |
| Aliases.Lookup | src/main.c:162-169 | a hit is always the command of an entry with that name (that it is the earliest such entry, and that a miss means no entry has the name, is `LookupIsFirstMatch`) |
| Aliases.Expand | src/main.c:162-169 | only an entry's command can replace a name: a result other than the name is the command of an entry with that name |
| Aliases.ParseAlias | src/main.c:283-314 | list if and only if there is no argument, a definition if and only if there are at least two; a defined name never holds `=`; in the `name=command` form name, `=` and command rebuild the argument; otherwise the entry is the two arguments |
| Aliases.LookupIsFirstMatch | src/main.c:162-169 | lookup misses if and only if no entry has the name; a hit returns the command of the earliest entry with it |
| Aliases.LookupIgnoresLaterEntries | src/main.c:163-167 | entries after the first match do not affect the lookup |
| Aliases.LookupFallsThrough | src/main.c:163-168 | later entries are consulted only when no earlier one matches |
| Aliases.Define | src/main.c:281-326 | the table stays within 50 entries and keeps its prefix; it grows by one exactly when a definition is requested and there is room, and the new entry is the parsed one |
| Aliases.EqualsFormMatchesTwoTokenForm | src/main.c:303-314 | `name=command x` defines the same entry as `name command`; the third argument is ignored |
| Aliases.OneArgumentIsUsage | src/main.c:283-301 | with no argument, or with one (even `name=command`), the table is unchanged |
| Aliases.DefineThenLookup | src/main.c:316-323 | a fresh name resolves to its new command when there was room; an existing name keeps resolving to its first command |
| Builtins.IndexFrom | src/main.c:480-484 | the scan returns the first registry position holding the name, or none if no later entry holds it |
| Builtins.FindBuiltin | src/main.c:480-484 | the `exit` handler is selected if and only if the name is `exit` |
| Builtins.FindBuiltinMatchesRegistry | src/main.c:106-128 | a name is a builtin if and only if it is one of the seven names, and it selects the handler beside that name |
| Builtins.ColorAttribute | src/main.c:261-274 | codes 1 to 7 and only those are accepted; 1 to 6 are the intensified blue/green/red bit patterns of the code, and 7 is plain white |
| Builtins.Atoi | src/main.c:260 | text that does not start with white space, a sign or a digit reads as 0 |
| Builtins.ColorCommand | src/main.c:252-274 | usage if and only if there is no argument; a colour is set if and only if the argument reads (by `atoi`) as 1 to 7 |
| Builtins.ColorArgument | src/main.c:252-279 | a digit 1 to 7 sets that colour; an argument that does not start like a number is rejected as invalid |
| Launcher.RedirectedCommand | src/main.c:328-368 | when a clause is honoured, its target ends the command (the rest of its meaning is stated by `ClauseAt`, `NoClause`, `LaterTokensIgnored` and `DanglingOperatorDropped`) |
| Launcher.LaunchCommand | src/main.c:408-433 | the redirected command when some token is `>` or `<`, else the tokens joined by single spaces (no contract of its own; `Session.Shell.Launch`, `RedirectionExample`, `DanglingOperatorDropped` and `PlainLaunchRoundTrip` state it) |
| Launcher.ClauseFrom | src/main.c:337-354 | the first `>` or `<` that has a token after it, with no such operator before it |
| Launcher.OperandsSnoc | src/main.c:348-352 | a token extends the command only when it is not an operator |
| Launcher.OperandsOfPlain | src/main.c:348-352 | without operators, every token is an operand |
| Launcher.FindRedirection | src/main.c:410-417 | the scan is true if and only if some token is exactly `>` or `<` |
| Launcher.JoinWords | src/main.c:423-433 | the `strcat` loop builds the tokens joined by single spaces |
| Launcher.AppendOperand | src/main.c:348-352 | appending an operand adds a space only after the first position |
| Launcher.ClauseFromAt | src/main.c:337-347 | the loop breaks at the first operator that has a following token |
| Launcher.ClauseAt | src/main.c:337-368 | where the loop breaks, the command is the earlier tokens plus one ` > f` or ` < f` clause |
| Launcher.NoClause | src/main.c:337-358 | without such an operator the command is the operands alone |
| Launcher.BuildRedirectedCommand | src/main.c:328-373 | the loop with its `break`s and the clause appends build exactly the redirected command |
| Launcher.RedirectionExample | src/main.c:408-421 | `sort > out.txt` reaches the host as `sort > out.txt` |
| Launcher.LaterTokensIgnored | src/main.c:338-347 | at most one clause: tokens after the first target, operators included, are lost |
| Launcher.DanglingOperatorDropped | src/main.c:338-347 | an operator with nothing after it is dropped from the command |
| Launcher.PlainLaunchRoundTrip | src/main.c:423-435 | without an operator the host receives the tokens joined by single spaces, which split back to the same tokens |
| Pipeline.Stages | src/main.c:378-387 | no stages if and only if the line has no bar; the first stage never holds a bar |
| Pipeline.PipelineEffects | src/main.c:375-405 | no effect if and only if the line has no bar; otherwise exactly three effects, the last removing `temp_pipe.txt` |
| Pipeline.PipelineShape | src/main.c:375-406 | no effect if and only if the line has no bar; otherwise exactly stage 1 `> temp_pipe.txt`, stage 2 `< temp_pipe.txt`, then the file is removed, and stage 1 holds no bar |
| Pipeline.TwoStagePipeline | src/main.c:381-399 | a line `a`, bar, `b` keeps the space before the bar, so two spaces precede the first redirection |
| Pipeline.TwoStageSplit | src/main.c:378-387 | a line `a`, bar, `b` splits into `a ` and `b` |
| Pipeline.PipelineExample | src/main.c:375-406 | the line `cat file.txt`, bar, `sort` runs `cat file.txt  > temp_pipe.txt`, then `sort < temp_pipe.txt`, then removes `temp_pipe.txt` |
| Dispatch.RunBuiltin | src/main.c:174-326 | every handler returns 1 except `exit`, which returns 0; only `alias` changes the alias table (as `Define`); history and last command are untouched; `cd` logs its directory only when it has one, `clear` logs exactly `cls`, `color` logs exactly its attribute when the code is valid and nothing otherwise, and `help`, `history`, `exit` and `alias` reach no host |
| Dispatch.ExpansionLine | src/main.c:467-472 | the replacement followed by each further argument after one space (no contract of its own; `ExpansionLineShape` states its shape and its re-tokenization) |
| Dispatch.RunCommand | src/main.c:479-486 | the end of dispatch keeps the bounds, history and last command, only appends to the log and alias table, and returns 0 if and only if the command is `exit` |
| Dispatch.BuildExpansionLine | src/main.c:467-472 | the loop builds the replacement followed by each further argument after one space |
| Dispatch.Execute | src/main.c:439-487 | dispatch keeps the bounds, never changes the history or last command, only appends to the effect log and the alias table, and returns 0, 1 or runs out of fuel |
| Dispatch.Step | src/main.c:495-527 | one pass keeps the history within 100 and the alias table within 50 entries |
| Dispatch.EmptyVectorContinues | src/main.c:443-445 | an empty vector returns 1 and changes nothing |
| Dispatch.NoPreviousCommand | src/main.c:457-459 | `!!` with no last command returns 1 and changes nothing |
| Dispatch.ReplayDispatchesLastCommand | src/main.c:448-456 | `!!` dispatches the tokens of the last command; with no fuel it is exhausted |
| Dispatch.ExpansionLineShape | src/main.c:467-473 | the rebuilt line is the replacement, a space and the rest, and it re-tokenizes to the replacement followed by the remaining arguments |
| Dispatch.AliasShadowsBuiltin | src/main.c:463-484 | an alias hit is re-dispatched before any builtin lookup, so an alias shadows a builtin of the same name |
| Dispatch.OnlyExitStops | src/main.c:479-486 | without `!!` or an alias, the status is 0 if and only if the command is `exit`, and 1 otherwise |
| Dispatch.ExternalLaunch | src/main.c:486 | anything else reaches the host once, as the launch command, and returns 1 |
| Dispatch.RunCommandIgnoresHistory | src/main.c:479-486 | builtins and launches never read the history |
| Dispatch.ExecuteFuelMonotone | src/main.c:439-487 | a dispatch that finishes with some fuel finishes identically, same state and status, with any more fuel |
| Dispatch.ExecuteIgnoresHistory | src/main.c:439-487 | dispatch never reads the history |
| Dispatch.EmptyLineSkipped | src/main.c:499-503 | an empty line changes nothing |
| Dispatch.StepRecordsLine | src/main.c:515-523 | a non-empty line without a bar is recorded in the history and becomes the last command, and then its tokens are dispatched on that recorded state: the pass's state and status are those of that dispatch |
| Dispatch.PipelineRecordsPrefix | src/main.c:506-512 | as written: a line with a bar runs the pipeline but records only the text before the first bar, which differs from the line |
| Dispatch.BangBangReplaysItself | src/main.c:448-453 | as written: with `!!` as the last command, `!!` exhausts every bound |
| Dispatch.StepBangBangExhausts | src/main.c:516-523 | as written: typing `!!` makes `!!` the last command and then exhausts every bound |
| Dispatch.SelfAliasExhausts | src/main.c:464-474 | an alias whose replacement is its own name is rewritten until every bound is exhausted |
| Dispatch.IntendedStep | src/main.c:495-527 | the corrected pass keeps the history and alias table within bounds |
| Dispatch.IntendedReplay | src/main.c:448-456 | corrected: `!!` after `c` dispatches exactly as typing `c` again, with the same result, effects and aliases |
| Dispatch.IntendedPipelineRecordsLine | src/main.c:506-512 | corrected: a pipeline line is recorded whole in the history and as the last command |
| Session.Shell.constructor | src/main.c:536-559 | the shell starts with the screen cleared, an empty history and the aliases `ll` and `ls` → `dir` |
| Session.Shell.AddToHistory | src/main.c:130-142 | below capacity the line lands at index `historyCount` and the count grows by one; at capacity entries 1..99 shift to 0..98, the line lands at 99 and the count stays 100; the model changes as `Record` says |
| Session.Shell.ExpandAlias | src/main.c:162-169 | the scan returns the first matching entry's command, or the argument unchanged, and reports whether it hit |
| Session.Shell.DefineAlias | src/main.c:281-326 | the table changes exactly as `Define` says, and the result is 1 |
| Session.Shell.HandleRedirection | src/main.c:328-373 | exactly one host command, the redirected command, and the result is 1 |
| Session.Shell.Launch | src/main.c:408-437 | exactly one host command, the launch command, and the result is 1 |
| Session.Shell.HandlePipeline | src/main.c:375-406 | returns 0 with no effect when there is no bar; otherwise appends the pipeline effects and returns 1 |
| Session.Shell.CallBuiltin | src/main.c:480-483 | the state and status are those of `RunBuiltin` |
| Session.Shell.RunCommand | src/main.c:479-486 | the new state and status are exactly those of `Dispatch.RunCommand` |
| Session.Shell.Replay | src/main.c:448-460 | the `!!` branch: the new state and status are exactly those of `Dispatch.Execute` |
| Session.Shell.Rewrite | src/main.c:463-477 | the alias branch: the new state and status are exactly those of `Dispatch.Execute` |
| Session.Shell.Execute | src/main.c:439-487 | the new state and status are exactly those of `Dispatch.Execute` |
| Session.Shell.Step | src/main.c:495-527 | the new state and result are exactly those of `Dispatch.Step` |

## Left out

- Terminal input and output:
  - `lsh_read_line` (reading, EOF, stripping the newline) is left out. `Step` takes the line as a parameter.
  - `show_prompt` is left out.
  - The banner in `main` and `SetConsoleOutputCP` are left out.
  - Every `printf` and `perror` is left out, including the listings of `help`, `history` and `alias`. These handlers change no modelled state.
- Host calls are entries in the effect log:
  - their results and failures are not modelled;
  - `system()` return values are ignored by the shell too;
  - a `cd` whose `_chdir` fails is still logged as the attempt.
- Colour changes made for output framing (the prompt, `help`, `history` and `alias` headings) are left out. Only the `color` builtin's attribute is logged.
- The `lsh_loop` loop itself is left out:
  - only one pass is modelled;
  - its `while (status)` test reads `status` uninitialised after a skipped or piped first line, which the model does not represent.
- Memory management is left out: `malloc`/`realloc` growth of the token buffer, allocation-failure exits, `_strdup`, and the frees in `lsh_exit`. Sequences are unbounded.
- Overflows are not modelled. The fixed 1024- and 512-byte command buffers are filled by unchecked `strcat`/`strcpy`/`sprintf`, and the model's strings have no length limit.
- Embedded NUL characters are not modelled. The C code would stop reading a string at one.
- Builtins.Atoi: does not model overflow of C's `int`. Numbers are unbounded.
- Dispatch.Execute and Session.Shell.Execute: the unbounded recursion of the shell is cut off by `fuel`. `Exhausted` is the outcome both of runs that would recurse forever (and overflow the C stack) and of finite runs given too little fuel; for example `Step(INITIAL, "ll", 0)` is exhausted, while the shell runs `dir`. `Dispatch.ExecuteFuelMonotone` shows that any run that finishes keeps its result under more fuel, so the model agrees with the shell on every finite run once the fuel is large enough.
- Session.Shell.Step: runs the code as written. The corrected pass exists only as the function `Dispatch.IntendedStep`.

## Findings

| source | as written | input that shows it | evidently intended | confidence | as-written member | corrected member |
|---|---|---|---|---|---|---|
| src/main.c:516-523 | the loop sets `last_command` to the typed line before dispatching it, so after `!!` the replay finds `!!` again and recurses without end | the line `!!` after any command | `!!` re-runs the command typed before it | high; not executed | Dispatch.StepBangBangExhausts | Dispatch.IntendedReplay |
| src/main.c:506-510 | `handle_pipeline` writes `'\0'` at the first bar before the line is recorded, so history and `last_command` keep only the first stage | the line `cat file.txt`, bar, `sort` is recorded as `cat file.txt ` | the whole line is recorded | high; not executed | Dispatch.PipelineRecordsPrefix | Dispatch.IntendedPipelineRecordsLine |
