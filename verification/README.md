# A Dafny model of benhinchley/cmd

`cmd` is a small Go library for command-line programs made of sub-commands. A `Program`
has a name, a description, an optional root command (run when no sub-command is named)
and a list of named commands. `Program.Run(args, fn)` does four things:

- it classifies the arguments;
- it looks up the selected command;
- it parses that command's flags;
- it hands the command and the positional arguments left over to the callback `fn`.

It also renders usage pages: one per command, with a flags table in which two flags
sharing a usage text are printed on one row, and one for the program listing its commands.

This project models that core, all of it in `cmd.go`, as immutable datatypes and pure
functions:

- `Classifier` (classify.dfy): `isHelp`, `isCommand` and `parseArgs`. The source's
  mutable `calledCmd`/`printCmdHelp` fields become the returned `Classification` value.
- `Dispatch` (dispatch.dfy): `Program.Run` with every outcome as a value, and the
  library's errors and their `Error()` texts. The outcomes are dispatched, usage shown,
  error returned, nothing done, or one of the two panics the source can reach. The flag
  parser and the callback are function parameters.
- `Usage` (usage.dfy): the command page of `createCommandUsage` and the program page of
  `createProgramUsage`, as structured values.
- `Flags` (flags.dfy): flags, `prettyDefaultValue`, the order `flag.FlagSet.VisitAll`
  visits flags in (sorted by name), and the coalescing walk that builds the flags table.
- `Registry` (registry.dfy): commands, programs and the environment.
- `Text` (text.dfy): the parts of Go's `strings` package the core uses: `TrimSpace`,
  lower-casing, `Contains`, and the byte-wise string order.
- `Collections` and `Wrappers`: generic sequence lemmas and `Option`.
- `Scenarios` (scenarios.dfy): the greet example program and a program with two commands
  and no root, worked through `Run` and the renderer.

Behaviour of `cmd.go` that the model keeps:

- `prog help` with exactly two arguments returns the program usage as an error value. It
  does not print it.
- The callback's error is returned unchanged, and `ErrParseArgs` carries no command name.
- `prog help <x>` for an `<x>` that is neither registered nor "default" prints nothing and
  returns nil.
- The greet flags are booleans, so their default shows as "false".
- The root is selected through the string "default" and looked up among the named
  commands first. A command registered under the name "default" therefore runs in the
  root's place, on `args[2:]`, whenever an unregistered, non-help `args[1]` falls back to
  the root outside help mode (`CommandNamedDefaultShadowsRoot`). Outside help mode,
  with no `args[1]` at all, the same lookup slices `args[2:]` past the arguments and panics
  (`RunPanicsExactly`). In help mode that command's usage is shown instead, before any
  slicing.
- `printCmdHelp` is set by a help request and never cleared, so it affects later calls of
  `Run` on the same program (`HelpModeSticks`).
- The two panics of the source are outcomes, `Panicked(SliceOutOfRange)` and
  `Panicked(NilRoot)`, rather than preconditions. `RunPanicsExactly` states, for each
  reason separately, exactly when it happens, so `Run` is total.

## Model

| member | source | states |
|---|---|---|
| Classifier.IsHelpMeansHelpLike | cmd.go:250-252 | an argument is help-like exactly when it contains "help" in any mixture of letter case, or is "-h" or "-H" |
| Classifier.NoLetterHNoHelp | cmd.go:250-252 | an argument without the letter h in either case is never help-like |
| Registry.IsCommand | cmd.go:255-262 | true exactly when some registered command has the argument as its name |
| Registry.FindCommand | cmd.go:134-135 | the dispatcher's loop finds the first command with the selected name, and none before it has that name; no result means no command has it |
| Registry.FindCommandAgreesWithIsCommand | cmd.go:134-135 | the dispatcher's loop finds a command exactly when the classifier's `isCommand` says one is registered |
| Registry.CommandNames | cmd.go:255-262 | the set of registered names holds exactly the names `isCommand` accepts |
| Classifier.Classify | cmd.go:264-298 | `parseArgs` as a pure function. Program help iff exactly two arguments and a help-like second. Help for `args[2]` iff three or more and a help-like second. A named selection only for a registered, non-help `args[1]`. ErrNoSuchCommand for `args[1]` iff it is neither help nor registered and there is no root. The default command otherwise |
| Classifier.ShortArgsSelectDefault | cmd.go:266-267 | with at most the program name, the default command is selected, whatever is registered |
| Classifier.HelpBeatsCommand | cmd.go:269-270 | a help-like `args[1]` never selects a command by name and never yields ErrNoSuchCommand |
| Classifier.HelpNamedCommandUnreachable | cmd.go:281-286 | a command whose name is help-like ("help", "HELP", "-h", ...) can never be selected by name |
| Classifier.NamedBeatsDefault | cmd.go:271-272 | a registered, non-help `args[1]` selects that command even when a root exists |
| Classifier.UnknownFallsBackToRoot | cmd.go:273-279 | an unregistered, non-help `args[1]` selects the root if there is one and is ErrNoSuchCommand with that token otherwise |
| Classifier.ClassifyIgnoresRest | cmd.go:281-284 | the classification depends on the first three arguments only |
| Classifier.ClassifyDependsOnNames | cmd.go:255-262 | the classification depends only on the set of registered names, not their order, repetition or other fields |
| Dispatch.RunCommand | cmd.go:136-153 | the usage is shown exactly in help mode, and it is the command's own page; a panic happens exactly outside help mode when fewer than `skip` arguments were given; a dispatch always passes the command, the environment and positionals the parser produced from the arguments after `skip`, and returns the callback's own result on them; a refusal is always ErrParseArgs after a failed parse; the call is never ignored |
| Dispatch.Run | cmd.go:128-183 | a dispatched call records the arguments in the environment it passes on; the nil-root panic only happens for a program with neither root nor commands |
| Dispatch.AfterRun | cmd.go:281-284 | after `Run` the environment holds the arguments, and help mode is on iff it was on before or the call asked for a command's help |
| Dispatch.NoArgumentsWithoutRoot | cmd.go:176-179 | with at most the program name, no root, at least one command and none named "default", `Run` returns ErrNoDefaultCommand, whose `Error()` text is exactly the program usage |
| Dispatch.UnknownCommandRefused | cmd.go:276-279 | an unknown, non-help first argument without a root is refused as "<program>: <argument>: no such command" |
| Dispatch.HelpAloneReturnsUsage | cmd.go:269-270 | "prog help" returns the program usage as an error, or panics when the program has neither root nor commands |
| Dispatch.HelpForCommandShowsUsage | cmd.go:144-146 | "prog help <registered>" shows that command's usage; the result is the same for any parser, any callback and any arguments after the name |
| Dispatch.HelpForDefaultShowsRoot | cmd.go:166-169 | when no command is named "default", "prog help default" shows the root's usage when there is a root, returns ErrNoDefaultCommand when there is none but some command is registered, and panics on the nil root when there are neither |
| Dispatch.HelpForUnknownIgnored | cmd.go:182 | help for a name neither registered nor "default" does nothing and returns nil |
| Dispatch.NamedCommandParsesAfterName | cmd.go:149-153 | outside help mode, a command selected by a registered, non-help `args[1]` has its flags parsed from `args[2:]`. A parse failure is ErrParseArgs; a success passes the parser's positionals to the callback, whose error is returned unchanged |
| Dispatch.RootParsesAfterProgramName | cmd.go:171-175 | outside help mode, with a root, no command named "default", and either only the program name or an unregistered, non-help `args[1]`, the root's flags are parsed from `args[1:]`, so the unmatched first argument reaches it as input |
| Dispatch.DispatchOnlyAfterParse | cmd.go:149-175 | the callback is reached only after a successful parse: of `args[2:]` for a registered command, or of `args[1:]` for the root |
| Dispatch.RunPanicsExactly | cmd.go:128-183 | `Run` panics on the nil root exactly when the program usage is built for a program with neither root nor commands ("prog help", no argument, or "prog help default"), and on a slice exactly when, outside help mode, a command named "default" is selected with at most the program name or the root with no argument at all; the two never coincide |
| Dispatch.CommandNamedDefaultShadowsRoot | cmd.go:134-153 | when an unregistered, non-help `args[1]` falls back to the root outside help mode, a command registered as "default" is the one dispatched, and dispatch happens exactly when `args[2:]` parses for it |
| Dispatch.HelpModeSticks | cmd.go:144-146 | after one "prog help <x>" call, a later call naming a registered command shows its usage instead of running it |
| Dispatch.ErrorMessage | cmd.go:187-194 | the `Error()` text is the program usage exactly for the usage error and ErrNoDefaultCommand, and it is the very page that error carries |
| Dispatch.ErrorMessageDeterminesError | cmd.go:300-309 | two errors with the same `Error()` text are both usage-bearing or both not, and in the latter case they are the same error, provided program names have no ": " |
| Dispatch.NotParseArgsMessage | cmd.go:126 | no ErrNoSuchCommand text is the text of ErrParseArgs |
| Dispatch.NoSuchCommandMessageRoundTrip | cmd.go:307-309 | for a program name without ": ", the program and command names can be read back from the rendered message |
| Dispatch.ParseNoSuchCommand | cmd.go:307-309 | whatever the reader accepts is the rendering of the names it returns |
| Flags.PrettyDefaultValue | cmd.go:197-203 | the shown default is never empty; it is "<none>" for an empty default and the default itself otherwise |
| Flags.PrettyDefaultValueIdempotent | cmd.go:197-203 | prettifying twice is prettifying once |
| Flags.VisitOrder | cmd.go:214 | `VisitAll` visits a permutation of the declared flags, sorted by name |
| Flags.StepMergesOrHolds | cmd.go:214-222 | a flag whose usage text is held merges with the held flag into one pair ending at it, and the text is no longer held; any other flag becomes held and no pair is added |
| Flags.StepPreserves | cmd.go:214-222 | one visit keeps the walk's invariant: positions held below the visited count, one held flag per usage text, merged pairs of aliases in visit order, and two positions per pair plus one per held flag accounting for every visited flag |
| Flags.WalkKeepsInvariant | cmd.go:213-223 | the invariant holds after every prefix of the visit order |
| Flags.WalkPartition | cmd.go:213-223 | every visited flag is in exactly one merged pair or still held |
| Flags.WalkParity | cmd.go:214-222 | a usage text is held exactly when an odd number of the visited flags carry it |
| Flags.WalkPairsGrow | cmd.go:216-218 | merged rows are only ever appended |
| Flags.MergedRowCells | cmd.go:217 | a merged row prints as "-held -current", with the current flag's usage and default |
| Flags.VisitFlags | cmd.go:208-226 | the `flags` boolean is set iff a flag is declared; the table has the declared count minus the number of merges as rows |
| Flags.RowsSpellDeclaredNames | cmd.go:213-226 | in any order of the leftover rows, the spellings of all rows are a permutation of the declared names |
| Flags.EachFlagInExactlyOneRow | cmd.go:213-226 | with distinct names, each declared flag's name appears in exactly one row |
| Flags.MergedRowsAreAliasPairs | cmd.go:216-217 | each merged row joins two declared flags with the same usage text, the first sorting before the second |
| Flags.MergedRowsInVisitOrder | cmd.go:216-217 | merged rows come out sorted by the name of their second flag |
| Flags.LeftoverOnePerUsage | cmd.go:224-226 | the leftover rows come from a map keyed by usage text: no two share a usage and none repeats |
| Flags.AliasPairMerged | cmd.go:213-226 | two flags that alone carry their usage text share one merged row, the one sorting first leading, and no leftover row has that usage |
| Text.TrimSpace | cmd.go:236 | the result neither starts nor ends with white space, and everything cut from either side is white space |
| Text.TrimSpaceIdempotent | cmd.go:236 | trimming twice is trimming once |
| Usage.Invocation | cmd.go:229-233 | the invocation line is program and arguments for the root, and program, command name and arguments otherwise |
| Usage.InvocationOmitsNameOnlyForRoot | cmd.go:229-233 | the command name is left out of the invocation line exactly when the command is the root |
| Usage.InvocationLineSpelled | cmd.go:229-233 | the rendered line is "Usage: <program> <args>" for the root and "Usage: <program> <command> <args>" otherwise |
| Usage.CommandUsage | cmd.go:205-245 | the command page has the invocation line and the trimmed help; its flags section is present iff a flag is declared and has the declared count minus the merges as rows |
| Usage.ProgramUsage | cmd.go:90-124 | a listing iff commands are registered, carrying the trimmed description iff there is one; otherwise the root's command page |
| Usage.Entries | cmd.go:104-109 | the listing has one entry per command, plus one for the root when there is one |
| Usage.ListingShowsEveryCommand | cmd.go:104-109 | the root comes first as "[default]", then every command with its description in registration order, and nothing else |
| Usage.ListingLines | cmd.go:94-120 | a listing has six lines plus one per entry and two for a description; it opens with the banner, closes with the hint, has the description third when there is one, and the entry lines just before the closing blank and hint |
| Usage.ListingLinesShowEveryCommand | cmd.go:94-120 | the printed listing of a program with commands opens with "Usage: <program> <command>", closes with the "help [command]" hint, and has a tab-separated line for the root as "[default]" and for every command with its description |
| Scenarios.GreetFlagsShareOneRow | example/greet/main.go:39-42 | the greet flags "pirate" and "p" are visited as "p", "pirate" and share the single row "-p -pirate" |
| Scenarios.GreetPirateSam | example/greet/main.go:13-17 | "greet -pirate Sam" passes both arguments to the root's flag parser |
| Scenarios.GreetHelp | example/greet/main.go:13-17 | "greet help" returns the root's page, with its one merged flag row, as an error |
| Scenarios.UnknownCommandReported | cmd.go:276-279 | "prog deploy" on a program with "build" and "test" and no root is ErrNoSuchCommand |
| Scenarios.NoRootListsCommands | cmd.go:176-179 | "prog" alone on that program is ErrNoDefaultCommand carrying the listing of both commands |

## Left out

- `NewProgram` is left out. Its capture of the working directory and process environment
  is OS input and becomes the `env` field of a program. The `Environment` and
  `defaultContext` accessors are trivial getters.
- The loggers `Out`/`Err` and all printing are left out. A printed command usage is the
  `ShowedUsage` outcome, and the standard streams are not modelled.
- The column alignment of `text/tabwriter` and `fmt` layout are left out. Rows are kept as
  cells and pages as structured values, not padded text. `Usage.ListingLines` gives the
  listing's lines as they are written into the tab writer, tab-separated and not yet
  aligned; a command page is not rendered to lines.
- `flag.FlagSet.Parse` is a foreign library and is left out. It is a parameter of `Run`
  that fails or returns the positionals. Its `-h`/`-help` handling (ErrHelp, which `Run`
  reports as ErrParseArgs) is left to that parameter.
- `Flags.RowsSpellDeclaredNames`, `Flags.LeftoverOnePerUsage` and `Flags.VisitFlags`: the
  leftover rows are a multiset, because Go's map iteration order is unspecified. Their
  printing order is not modelled.
- The panic of the `flag` package when a name is declared twice is left out. The lemmas
  that need it assume distinct names (`DistinctNames`).
- `Dispatch.ErrorMessage`: the usage error is built with `fmt.Errorf(p.usage())`, which
  reads the usage as a format string. Its text is modelled as the usage itself, so what
  `fmt` does to a `%` in a name or description is not modelled.
- `Usage.ProgramUsage`: for a root-only program the source trims the rendered command page
  as text. The model keeps the page's parts, so the trailing blank lines it trims are not
  represented.
- `Text.Lower` lower-cases ASCII letters only. No other character lower-cases to one of
  "h", "e", "l", "p" or "-" in Go, so `IsHelp` is unaffected.
- Strings are sequences of characters, not UTF-8 bytes. Name sorting compares characters
  in code point order, which for valid UTF-8 agrees with Go's byte-wise order.
