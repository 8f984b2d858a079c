# The `prior` command line: argument parsing, stdin merge and nudge tokens

`prior` is the command-line front end of a knowledge-sharing service. Its commands are
`search`, `contribute`, `feedback`, `get`, `retract`, `status`, `credits`, `claim` and
`verify`. Before a command talks to the service, three small pieces of logic decide what
the invocation means. This project models those three pieces in Dafny and proves their
rules.

- **`parseArgs`** (module `Args`) scans the argument list from left to right.
  - It returns the positionals `_` and a map of named options.
  - `--kebab-name` becomes the key `kebabName`. `-h` stands for `--help`.
  - A collector flag (`--error-messages`, `--failed-approaches`) takes every following
    non-flag token as a list.
  - Any other flag takes one following non-flag token, or is `true` when no such token
    follows.
  - `Args.ParseArgs` is the index scan as a method with loop invariants.
  - `Args.Parse` is the recursive definition the method is proved against.
- **The stdin merge and the pre-dispatch checks** (module `Resolver`).
  - `Resolve` takes the parsed arguments and what standard input held, and decides the
    outcome. It either shows the version, shows a help text, fails with one of the
    command line's errors (`Usage`, `too short`, `Missing required`, `Invalid JSON`,
    `Unknown command`), or runs a command with its operands and option fields.
  - The JSON document on standard input is the base layer. The command line is laid
    over it, so a command-line value always wins.
  - The document is read through an explicit schema per command, with nested `effort`,
    `environment` and `correction` objects flattened. A `tags` array becomes its
    comma-joined text.
- **`expandNudgeTokens`** (module `Nudge`) rewrites every well-formed token in a message
  into `` `prior cmd` ``, with the command lower-cased. `null` and `undefined` pass
  through unchanged.
  - A well-formed token is `[PRIOR:` followed by a command of one or more characters
    from `A`–`Z` and `_`.
  - The command is followed either by `]`, or by exactly one space and attributes that
    run to the first `]`. The attributes are dropped.
  - Any other text is copied unchanged. This includes a lower-case command, a missing
    `]`, or another character after the command.

`bin/prior.js` is not part of this model. The rules follow the behaviour that
`test/cli.test.js` requires of it. Where that test file leaves a choice open, the model
makes a choice and states it below. Parsed JSON is modelled by the `Json` datatype
(module `JsonValues`). Its JavaScript truthiness and its `String()`/`join` text are
modelled too, because the required-field checks and the tags normalisation depend on
them.

The modules are:
- `Wrappers`, `Strings`, `Naming`, `Args`, `JsonValues`, `Resolver` and `Nudge` hold the
  definitions.
- `ParseProperties` and `ResolveProperties` hold the general lemmas.
- `ParseExamples`, `ResolveExamples` and `NudgeExamples` work the cases of the test
  suite listed in the table below through those lemmas. `NudgeExamples` adds two
  malformed markers.
  - Each standard-input case is stated for every document that holds the test's
    entries, so it covers the test's own document.
  - Most command-line cases are first proved for any flags with the right keys and any
    values, then applied to the test's argument list.

Decisions where the tests do not fix the behaviour:
- Flags and collectors:
  - A flag token starts with `--` or is exactly `-h`. Any other token that starts with
    `-` is an ordinary token.
  - A collector stops at the next flag token (`--…` or `-h`). A token such as `-x`
    is collected.
  - A collector followed directly by a flag stores the empty list.
  - When the same key is written twice, the last write wins.
- Version requests: `-v` is not a flag to the parser. The resolver treats a first
  positional `-v` as a version request, as it treats `--version`.
- The decision order is:
  1. version;
  2. no command gives the general help;
  3. an unknown command name;
  4. `--help` after a command gives that command's help;
  5. reading standard input, where input that is not JSON gives `Invalid JSON`;
  6. the command's own checks.
- Standard input and `Invalid JSON`:
  - Standard input is read once a known command is named and no help is asked for.
  - Non-empty input that is not JSON stops every such command with `Invalid JSON`,
    before the command's own checks.
  - Only `contribute` and `feedback` use the document.
  - A document that parses but is not an object counts as `{}`.
- Feedback operands: a command-line operand overrides the document at its own index
  only (`feedback k_cli` with a document outcome takes the outcome from the document).
- Checks:
  - `search` fails with `Usage` when the words joined with spaces are empty.
  - `search` fails with `too short` when that query is non-empty and has fewer than 10
    characters.
  - A required field counts as given when it is present and truthy in the JavaScript
    sense. So an empty string or `0` counts as missing.

## Model

| member | source | states |
|---|---|---|
| Args.Parse | test/cli.test.js:17-86 | the recursive definition of `parseArgs`; what it returns is stated by `Args.ParseArgs` (the scan computes it), `ParseProperties.PositionalsExact` (which tokens are positionals) and `ParseProperties.LastFlagDecides` (which tokens are values) |
| Args.ParseFrom | test/cli.test.js:17-86 | the scan from one position on: a flag adds its key and value and resumes at `Args.FlagNext`, other tokens are positionals; its properties are those of `Args.Parse` |
| Args.ParseArgs | test/cli.test.js:17-86 | the left-to-right index scan returns exactly the bag the recursive definition `Parse` gives, for every argument list |
| Args.CollectValues | test/cli.test.js:59-73 | the loop after a collector flag returns the tokens up to the next flag or the end, and the index where the scan resumes |
| Args.ValuesEnd | test/cli.test.js:59-73 | a collector's values run from the token after it to the first flag or the end; none of them is a flag |
| Args.FlagNext | test/cli.test.js:23-37 | the scan always advances past a flag, and skips no other flag |
| ParseProperties.PositionalsExact | test/cli.test.js:18-21 | `_` is exactly the tokens that are neither flags nor taken as a flag's value, in input order |
| ParseProperties.NoFlagsAllPositional | test/cli.test.js:18-21 | an argument list without flags is all positionals and no options |
| ParseProperties.LastFlagDecides | test/cli.test.js:23-37 | a non-flag token is a value exactly when the nearest flag before it takes a value at that distance |
| ParseProperties.SkipValues | test/cli.test.js:59-73 | skipping a run of value tokens adds no positionals |
| ParseProperties.AfterPositional | test/cli.test.js:75-80 | the token after a positional is never a value |
| ParseProperties.PositionalsFromBoundary | test/cli.test.js:75-80 | from any point that is not inside a flag's values, the scan's positionals are the non-value tokens from there on |
| ParseProperties.OptionKeys | test/cli.test.js:23-47 | a key is in the options exactly when some flag token in the list writes it |
| ParseProperties.OptionsFrom | test/cli.test.js:23-47 | from any position, the option keys are the keys written from there on, and a key's value is the one its last flag writes |
| ParseProperties.ScalarOrTrue | test/cli.test.js:23-37 | the last non-collector flag of a key stores the next token when it is not a flag, and `true` when a flag or the end follows |
| ParseProperties.CollectorList | test/cli.test.js:59-73 | the last collector flag of a key stores the list of exactly the tokens up to the next flag, even a single one |
| ParseProperties.ListsOnlyForCollectors | test/cli.test.js:59-73 | only collector keys ever hold a list |
| ParseProperties.ValuesEndSpelling | test/cli.test.js:49-57 | two spellings of the same flags end every collector's values at the same place with the same tokens |
| ParseProperties.SpellingIrrelevant | test/cli.test.js:49-57 | argument lists that differ only in how flags with the same key are spelled parse to the same bag |
| ParseProperties.ShortHelp | test/cli.test.js:49-57 | writing `-h` as `--help` anywhere does not change the parse |
| Naming.KebabToCamel | test/cli.test.js:39-47 | the key has no hyphen and is no longer than the name |
| Naming.KebabSegments | test/cli.test.js:39-47 | a name of hyphen-separated lower-case segments becomes the first segment followed by every later segment capitalised |
| Naming.TwoSegments | test/cli.test.js:39-47 | `a-b` becomes `a` followed by `b` capitalised |
| Naming.HyphenFreeUnchanged | test/cli.test.js:23-37 | a name without hyphens is its own key |
| Naming.PlainPrefix | test/cli.test.js:39-47 | a hyphen-free prefix of a name is copied into the key unchanged |
| Naming.CapitalizeJoin | test/cli.test.js:39-47 | capitalising a hyphen-joined name changes only its first segment |
| ParseExamples.ShapeScalar | test/cli.test.js:23-26 | any non-collector flag followed by a non-flag token gives no positionals and that token as the flag's value |
| ParseExamples.ShapeFlag | test/cli.test.js:28-31 | a lone non-collector flag gives `true` |
| ParseExamples.ShapeTwoFlags | test/cli.test.js:33-37 | two flags in a row both give `true` |
| ParseExamples.ShapeCollectorThenScalar | test/cli.test.js:59-63 | a collector's three values end at the next flag, and that flag still takes its own value |
| ParseExamples.ShapeCollector | test/cli.test.js:65-73 | a collector followed by any run of non-flags stores exactly that run as a list |
| ParseExamples.ShapeMixed | test/cli.test.js:75-80 | positionals around flags are kept in order while each flag takes its value or `true` |
| ParseExamples.ExamplePositionals | test/cli.test.js:18-21 | `search hello world` is three positionals |
| ParseExamples.ExampleScalar | test/cli.test.js:23-26 | `--title "my title"` gives `title = "my title"` |
| ParseExamples.ExampleTrue | test/cli.test.js:28-31 | `--json` gives `json = true` |
| ParseExamples.ExampleTwoFlags | test/cli.test.js:33-37 | the argument list `--json --verbose` gives both `true` |
| ParseExamples.ExampleKebab | test/cli.test.js:39-42 | `--max-results 5` gives `maxResults = "5"` |
| ParseExamples.ExampleDeepKebab | test/cli.test.js:44-47 | `--context-os linux` gives `contextOs = "linux"` |
| ParseExamples.ExampleHelp | test/cli.test.js:49-57 | `--help` and `-h` both give `help = true` |
| ParseExamples.ExampleCollector | test/cli.test.js:59-63 | `--error-messages err1 err2 err3 --title x` gives the three-element list and `title = "x"` |
| ParseExamples.ExampleFailedApproaches | test/cli.test.js:65-68 | `--failed-approaches a1 a2` gives the two-element list |
| ParseExamples.ExampleSingleValueList | test/cli.test.js:70-73 | a single collected value is still a one-element list |
| ParseExamples.ExampleMixed | test/cli.test.js:75-80 | `pos1 --flag val pos2 --bool` gives `_ = [pos1, pos2]`, `flag = "val"`, `bool = true` |
| ParseExamples.ExampleEmpty | test/cli.test.js:82-85 | the empty list gives empty `_` and no options |
| Strings.JoinAppend | test/cli.test.js:179-184 | adding a part to a join adds the separator and that part at the end, and joining one part gives that part |
| JsonValues.StringArrayText | test/cli.test.js:257-261 | a JSON array of strings is shown as the strings joined with commas |
| JsonValues.JoinEmpty | test/cli.test.js:167-171 | a join is empty exactly when there is no part or a single empty part |
| JsonValues.StringItemTexts | test/cli.test.js:59-73 | a string list turned into a JSON array gives back exactly that list, element by element, when its items are shown |
| Resolver.Dispatch | test/cli.test.js:167-232 | a command's own checks on its operands, options and document; stated by `ResolveProperties.SearchChecks`, `OperandChecks`, `PlainCommandsRun`, `ContributeChecks` and `FeedbackChecks` |
| Resolver.Resolve | test/cli.test.js:91-345 | the decision order version, help, unknown command, invalid input, command checks; stated by `ResolveProperties.VersionFirst`, `HelpTopics`, `UnknownCommandExactly`, `InvalidJsonExactly`, `StdinUnread` and the per-command check lemmas |
| Resolver.Invoke | test/cli.test.js:91-345 | a whole invocation, the argument list parsed and then resolved; its outcomes on the tests' argument lists are proved in `ResolveExamples` |
| Resolver.CommandOf | test/cli.test.js:234-238 | a name is recognised exactly when it is some command's name, and then names that command |
| Resolver.StdinDocument | test/cli.test.js:323-335 | non-empty input that does not parse is `Invalid JSON`, and that is the only failure; a terminal or empty input is the empty document |
| Resolver.MissingExactly | test/cli.test.js:186-196 | the missing names are exactly the required names not given, and none is missing exactly when all are given |
| ResolveProperties.NameRoundTrip | test/cli.test.js:91-97 | every command's name is recognised as that command |
| ResolveProperties.VersionFirst | test/cli.test.js:99-107 | the version is shown exactly when `--version` is set or the first positional is `-v`, whatever else is given |
| ResolveProperties.HelpTopics | test/cli.test.js:109-162 | with no command the general help is shown; with a command and `--help` or `-h`, that command's help |
| ResolveProperties.UnknownCommandExactly | test/cli.test.js:234-238 | `Unknown command` is reported exactly when the first positional names no command, and it names that positional |
| ResolveProperties.StdinUnread | test/cli.test.js:99-112 | before a command is reached (version, general help, unknown name, `--help`), the outcome does not depend on standard input |
| ResolveProperties.DocumentIgnored | test/cli.test.js:167-232 | commands other than `contribute` and `feedback` have the same outcome for every input that is a document or no input |
| ResolveProperties.EmptyStdinIsAbsent | test/cli.test.js:330-335 | empty piped input behaves exactly like an interactive terminal |
| ResolveProperties.InvalidJsonExactly | test/cli.test.js:323-328 | `Invalid JSON` happens exactly when a known command is reached without `--help` and gets non-empty input that does not parse, so such input never reaches `Missing required` |
| ResolveProperties.ContributeFieldSource | test/cli.test.js:243-285 | a `contribute` field is present exactly when the command line or the document supplies it, and the command line's value wins |
| ResolveProperties.ContributeChecks | test/cli.test.js:186-196 | `contribute` runs exactly when title, content and tags are all given after the merge, and runs with the merged fields; otherwise it fails with `Missing required` listing exactly the missing ones |
| ResolveProperties.SearchChecks | test/cli.test.js:167-184 | `search` fails with `Usage` exactly when the query is empty, with `too short` exactly when it has 1 to 9 characters, and runs exactly when it has at least 10, when standard input is absent or a document |
| ResolveProperties.OperandChecks | test/cli.test.js:210-232 | `get`, `retract`, `claim` and `verify` fail with `Usage` exactly when the operand is missing or empty, and otherwise run with their operands, when standard input is absent or a document |
| ResolveProperties.PlainCommandsRun | test/cli.test.js:143-152 | `status` and `credits` always run with their operands and options, when standard input is absent or a document |
| ResolveProperties.FeedbackChecks | test/cli.test.js:198-208 | `feedback` runs exactly when both merged operands are given, where a command-line operand beats the document at its index; it runs with those operands and the merged fields, and otherwise fails with `Usage` |
| ResolveProperties.FeedbackFieldSource | test/cli.test.js:304-317 | a `feedback` field is present exactly when the command line or the document supplies it, and the command line's value wins |
| ResolveProperties.SameLayer | test/cli.test.js:243-317 | documents that agree on every schema path give the same layer |
| ResolveProperties.LayerAvoids | test/cli.test.js:294-297 | writing a key that no schema path reads leaves the layer unchanged |
| ResolveProperties.SameFeedbackRun | test/cli.test.js:288-317 | documents with the same feedback layer and the same given operands give the same feedback outcome |
| ResolveProperties.SameContributeRun | test/cli.test.js:243-285 | documents with the same contribute layer give the same contribute outcome |
| ResolveProperties.SameDocuments | test/cli.test.js:243-317 | two documents that agree on both layers and on the feedback operands give every invocation the same outcome |
| ResolveProperties.TagsArrayAsString | test/cli.test.js:257-261 | a tags array and its comma-joined string give every invocation the same outcome |
| ResolveProperties.IdAlias | test/cli.test.js:294-297 | `id` in place of `entryId` gives every invocation the same outcome |
| ResolveExamples.ExampleNoArguments | test/cli.test.js:109-112 | no arguments show the general help |
| ResolveExamples.VersionFlag | test/cli.test.js:99-102 | a lone flag with key `version` shows the version, whatever standard input holds |
| ResolveExamples.ExampleVersion | test/cli.test.js:99-102 | `--version` shows the version |
| ResolveExamples.ExampleShortVersion | test/cli.test.js:104-107 | `-v` shows the version |
| ResolveExamples.ExampleHelp | test/cli.test.js:91-97 | `--help` alone shows the general help |
| ResolveExamples.ExampleCommandHelp | test/cli.test.js:114-162 | `<command> --help` shows that command's help, for every command |
| ResolveExamples.ExampleUnknownCommand | test/cli.test.js:234-238 | `notacommand` is an unknown command |
| ResolveExamples.ExampleSearchNoQuery | test/cli.test.js:167-171 | `search` alone is a `Usage` error, when standard input is absent or a document |
| ResolveExamples.ExampleSearchShort | test/cli.test.js:173-177 | `search short` is too short, at length 5, when standard input is absent or a document |
| ResolveExamples.ExampleSearchTenCharacters | test/cli.test.js:179-184 | a 10-character query runs the search with that query, when standard input is absent or a document |
| ResolveExamples.ExampleNoOperand | test/cli.test.js:210-232 | `get`, `retract`, `claim` and `verify` without an operand are `Usage` errors, when standard input is absent or a document |
| ResolveExamples.ExampleFeedbackNoOperands | test/cli.test.js:198-202 | `feedback` alone is a `Usage` error |
| ResolveExamples.ExampleFeedbackOnlyEntry | test/cli.test.js:204-208 | `feedback k_abc123` without an outcome is a `Usage` error |
| ResolveExamples.CliOnlyContribute | test/cli.test.js:186-196 | with no document, `contribute` runs with the command line's fields when none is missing, and otherwise reports the missing ones |
| ResolveExamples.MissingRequiredOf | test/cli.test.js:186-196 | the missing required fields are listed in the order title, content, tags |
| ResolveExamples.NoOptionsContribute | test/cli.test.js:186-190 | `contribute` with neither options nor a document misses every required field |
| ResolveExamples.ExampleContributeNothing | test/cli.test.js:186-190 | `contribute` with no document misses title, content and tags |
| ResolveExamples.TitleOnlyRun | test/cli.test.js:192-196 | with no document, a given title and no content or tags option misses exactly content and tags |
| ResolveExamples.ContributeTitleOnly | test/cli.test.js:192-196 | a non-empty title alone, spelled by any flag with key `title`, misses content and tags |
| ResolveExamples.ExampleContributeOnlyTitle | test/cli.test.js:192-196 | `contribute --title test` misses content and tags |
| ResolveExamples.AllGivenRun | test/cli.test.js:337-340 | with no document, title, content and tags given on the command line run `contribute` with the command line's fields |
| ResolveExamples.ContributeAllOptions | test/cli.test.js:337-340 | non-empty title, content and tags and a model on the command line run `contribute` with exactly those four fields |
| ResolveExamples.ExampleContributeAllFlags | test/cli.test.js:337-340 | `contribute --title T --content C --tags a,b --model m` runs with those four fields |
| ResolveExamples.StdinSatisfiesContribute | test/cli.test.js:244-248 | a document giving title, content and tags satisfies `contribute` when the command line sets none of them |
| ResolveExamples.StdinOnlyContribute | test/cli.test.js:244-248 | `contribute` with such a document runs with exactly the document's layer |
| ResolveExamples.ExampleStdinContribute | test/cli.test.js:244-248 | any document with the test's title, content, tags `["a","b"]` and model runs `contribute` with tags `a,b` and model `gpt-4` |
| ResolveExamples.TitleOverStdinRun | test/cli.test.js:250-255 | a title option beats the document's title, with the document supplying content and tags |
| ResolveExamples.CliTitleOverStdin | test/cli.test.js:250-255 | a command-line title beats the document's title |
| ResolveExamples.ExampleCliOverridesStdin | test/cli.test.js:250-255 | `--title CLITitle` over any document titled `StdinTitle` with the test's content and tags runs with `CLITitle` |
| ResolveExamples.TopInLayer | test/cli.test.js:244-284 | a top-level schema option carries the document's value, a tags array joined |
| ResolveExamples.StdinContributeField | test/cli.test.js:244-284 | with a document giving the required fields, `contribute` runs and each top-level option carries the document's value |
| ResolveExamples.ExampleStdinTagsArray | test/cli.test.js:257-261 | tags `["tag1","tag2","tag3"]` satisfy `contribute`, arrive as `tag1,tag2,tag3`, and act exactly like that string in the document |
| ResolveExamples.ExampleStdinTagsString | test/cli.test.js:342-345 | a tags string in the document passes through unchanged and satisfies `contribute` |
| ResolveExamples.NestedInLayer | test/cli.test.js:263-310 | an option read from a member of a nested object carries that member's value, a tags array joined |
| ResolveExamples.ExampleStdinEffort | test/cli.test.js:263-269 | the effort object's numbers arrive as `tokensUsed`, `durationSeconds` and `toolCalls` |
| ResolveExamples.ExampleStdinEnvironment | test/cli.test.js:271-277 | the environment object's members arrive as `language` and `os` |
| ResolveExamples.ExampleStdinTtl | test/cli.test.js:279-284 | the document's `ttl` arrives as a field |
| ResolveExamples.StdinOnlyFeedback | test/cli.test.js:288-292 | `feedback` with a document giving both operands runs with them and the document's layer |
| ResolveExamples.ExampleStdinFeedback | test/cli.test.js:288-292 | `entryId` and `outcome` from the document become the two operands |
| ResolveExamples.ExampleStdinIdAlias | test/cli.test.js:294-297 | in a document without `entryId`, `id` serves as the entry operand |
| ResolveExamples.ExamplePositionalsOverrideStdin | test/cli.test.js:299-302 | `feedback k_cli useful` beats the document's operands |
| ResolveExamples.ExampleStdinCorrection | test/cli.test.js:304-310 | the correction object arrives as `correctionContent`, and as `correctionTags` joined, next to `reason` |
| ResolveExamples.ExampleStdinReasonNotes | test/cli.test.js:312-317 | `reason` and `notes` arrive as fields |
| ResolveExamples.ExampleInvalidJson | test/cli.test.js:323-328 | `contribute` with input `not json{` fails with `Invalid JSON` |
| ResolveExamples.ExampleSearchInvalidJson | test/cli.test.js:323-328 | input that is not JSON stops `search` with `Invalid JSON` too, before its own checks |
| ResolveExamples.ExampleEmptyStdin | test/cli.test.js:330-335 | `contribute` with empty input fails with `Missing required`, not `Invalid JSON` |
| Nudge.TokenAt | test/cli.test.js:351-370 | a recognised token starts with `[PRIOR:`, carries a non-empty upper-case command right after it, and ends with `]` |
| Nudge.TokenAtWellFormed | test/cli.test.js:351-370 | a recognised token is exactly the text of a well-formed token, `[PRIOR:` and its command followed by `]` or by a space, attributes without `]` and `]`, with the recognised length |
| Nudge.TokenAtExactly | test/cli.test.js:351-370 | a token is recognised at the start of a text exactly when the text starts with a well-formed token |
| Nudge.Expand | test/cli.test.js:351-387 | every recognised token rewritten from left to right, other text copied; stated by `Nudge.ExpandsToken`, `NoMarkerRemains`, `NoTokensIdentity` and `NoTokenTextIdentity` |
| Nudge.ExpandNudgeTokens | test/cli.test.js:351-387 | a text message is expanded and `null` and `undefined` are returned; stated by `Nudge.AbsentPassesThrough` and the lemmas about `Nudge.Expand` |
| Nudge.Hint | test/cli.test.js:351-363 | the hint starts with a backtick, has the command's length plus eight, and holds no `[` |
| Nudge.Lower | test/cli.test.js:351-363 | the result has no upper-case letter, and only upper-case letters change, each to its lower-case form |
| Nudge.TokenTextRecognised | test/cli.test.js:351-370 | a token with or without attributes is recognised with its command and its exact length |
| Nudge.ExpandsToken | test/cli.test.js:351-377 | a token after marker-free text becomes its hint, and expansion carries on after it |
| Nudge.ExpandOne | test/cli.test.js:351-370 | a message with one token and no other `[` becomes the text around it with the hint in its place |
| Nudge.NoMarkerRemains | test/cli.test.js:372-377 | when every `[PRIOR:` starts a well-formed token, no `[PRIOR:` is left after expansion |
| Nudge.AbsentPassesThrough | test/cli.test.js:379-382 | `null` and `undefined` are returned unchanged |
| Nudge.NoTokensIdentity | test/cli.test.js:384-387 | a message in which `TokenAt` recognises nothing at any position is returned unchanged, malformed markers and other brackets included |
| Nudge.NoTokenTextIdentity | test/cli.test.js:384-387 | a message in which no position starts a well-formed token is returned unchanged |
| Nudge.MarkerFreeNoToken | test/cli.test.js:384-387 | a message without `[PRIOR:` has no token at any position |
| Nudge.OnlyHeadBracket | test/cli.test.js:384-387 | a message whose only `[` is its first character, and which does not start with a token, has no token at any position |
| Nudge.BracketFree | test/cli.test.js:384-387 | text without `[` holds no marker |
| NudgeExamples.ExampleContribute | test/cli.test.js:351-356 | `Try [PRIOR:CONTRIBUTE] your fix.` expands to ``Try `prior contribute` your fix.`` |
| NudgeExamples.ExampleFeedback | test/cli.test.js:358-363 | `Did it help? [PRIOR:FEEDBACK]` expands to ``Did it help? `prior feedback` `` |
| NudgeExamples.ExampleAttributes | test/cli.test.js:365-370 | the parameterised token expands to `` `prior contribute` `` alone |
| NudgeExamples.ExampleTwoTokens | test/cli.test.js:372-377 | two distinct tokens both expand, ``…contribute` or `prior feedback` `` |
| NudgeExamples.ExampleNoTokens | test/cli.test.js:384-387 | `No tokens here.` is unchanged |
| NudgeExamples.ExampleLowerCaseMarker | test/cli.test.js:351-370 | following the token grammar above, which the tests' tokens all fit, `[PRIOR:lower]` has no upper-case command, so it is not a token and is returned unchanged |
| NudgeExamples.ExampleUnclosedMarker | test/cli.test.js:351-370 | following the token grammar above, `[PRIOR:X` has no closing `]`, so it is not a token and is returned unchanged |
| NudgeExamples.ExampleAbsent | test/cli.test.js:379-382 | `null` and `undefined` pass through |

## Left out

- Process spawning, reading standard input, TTY detection and environment variables are I/O. Standard input arrives as the `Stdin` value (a terminal, or piped text with the result of parsing it).
- JSON text parsing: the parse result is an input. `Invalid JSON` means the text is non-empty and the parse gave nothing. Whitespace-only input is treated like any other non-empty text.
- The text of the help, usage and version output, and exit codes, are formatting. The model decides which help or error is shown, not what it says.
- The HTTP client, the service and network failures are external. A successful `Resolve` ends at the `Run` value handed to the command.
- Effort numbers and other values are carried through opaquely. Numeric checks and the validity of an `outcome` value are not modelled.
- Only the schema's nested keys are read: `effort` (`tokensUsed`, `durationSeconds`, `toolCalls`), `environment` (`language`, `os`) and `correction` (`content`, `title`, `tags`). Any other nested key is ignored.
- `feedback` operands beyond the second are dropped.
- Args.ValuesEnd: a collector stops only at a flag token, `--…` or `-h`, so a following token such as `-x` is collected. A stricter rule would stop a collector at any token that starts with `-`. It is not modelled, because the tests only place `--` flags after a collector.
- String lengths are counted in characters, not JavaScript UTF-16 code units. The two differ only outside the Basic Multilingual Plane.
- Names are converted to camel case for ASCII lower-case letters only, with no Unicode case mapping.
- Search queries, the operands of `get`, `retract`, `claim` and `verify`, and the `status` and `credits` calls are passed on unchanged.
