# A verified model of `oi`, `op-secret-cache` and the zellij tab-name plugins

This Dafny project models three small tools from a home-manager configuration and proves
properties about each model.

- **`oi`** is an AI-assisted git commit helper.
  - `claude_cli.dfy` models the adapter to the `claude` command line:
    - the prompt encoder;
    - the argument list;
    - the markdown-fence stripper, with the JavaScript regular expression's backtracking written out;
    - the single-shot output scan;
    - the streaming line mapper, a class holding the "text started" flag.
  - `ai.dfy` models provider selection and the commit-message step.
  - `review.dfy` models the review result and the two review prompts.
  - `oi_cli.dfy` models the console formatters and the `commit` handler. The handler is a trace of the
    steps it takes: hook, review, confirmation, message generation and `git commit`.
  - `oi_errors.dfy` holds the tagged errors.
- **`op-secret-cache`** is a file cache in front of the 1Password CLI.
  - `duration.dfy` models duration parsing and formatting.
  - `cache.dfy` models the cache directory:
    - slugs and file names;
    - read, write, list, clear and info, over a value model of one directory. The three loops are
      methods proved against recursive specifications.
  - `op.dfy` models the calls to `op read` and `op inject`.
  - `secret_cli.dfy` models the settings and the `get`, `inject`, `clear`, `list` and `info` commands.
    Each command is a function from its arguments and the world (directories, environment, clock,
    command output) to a `CommandRun`: its status, the printed output, the directories afterwards, and
    the `op` commands it ran.
  - `slug_examples.dfy` proves the result of `slugifyPath` on two concrete paths.
- **zellij-auto-tabname** is two zellij plugins that name tabs after the focused pane.
  - `zellij.dfy` holds the plugin-interface types they share.
  - `tabname.dfy` models `lib.rs`. It is a class whose `prefix` and `lastTabNames` fields are updated by
    `Load` and `Update`.
  - `autotab.dfy` models `main.rs`. It is a stateless `Update` method.

  In both plugins, `rename_tab` calls are returned as a list of `Rename` actions.

`wrappers.dfy` (`Option`, `Result`) and `strings.dfy` are shared helpers. `strings.dfy` holds
JavaScript `trim`, `split`/`join`, decimal rendering and ASCII lower-casing.

Behaviour of the code as written, kept in the model:
- In the streaming parser, the success-result branch never sets the "text started" flag. An assistant
  record after a result therefore opens a second text (`ClaudeCli.ResultThenContentStartsTwice`).
- The streaming parser never fails with "no result" and ignores the process's exit code. A stream
  that ends without a result record, or after a non-zero exit, still ends with the finish part; only
  an error record makes it fail (`ClaudeCli.StreamFailure`, `ClaudeCli.StreamFinishOnce`).
- `JSON.parse` on a corrupt cache file throws inside the effect. That is a defect, which the
  surrounding `catchAll` does not catch. The `get`, `inject` and `list` commands therefore die on such
  a file: the `Died` outcome and the `Crashed` status.
- `get` parses an explicit `--ttl` only after `op read` has run (`SecretCli.GetBadTtl`).
- `op read` and `op inject` are run through `Command.string`, which collects standard output and does
  not check the exit status. Only an `op` that cannot be run counts as `OpCliError`. An `op read`
  that fails and prints nothing gives the value `""`, which `get` caches and prints for the whole
  time to live (`SecretCli.GetCachesEmptyOutput`).
- `formatSize` prints "1024.0 KB" for 1048575 bytes (`SecretCli.AlmostAMegabyte`).
- `lib.rs` looks only at the first focused pane. When that pane's title is empty, the tab is left
  alone even if a later focused pane has a title. `main.rs` picks the first focused pane that has a
  title (`AutoTab.SelectionRulesDiffer`).

## Model

Source paths are relative to the repository root. `oi/src` stands for
`nixpkgs/home-manager/modules/ts/oi/src`, `op/src` for
`nixpkgs/home-manager/modules/ts/op-secret-cache/src`, and `zellij/src` for
`nixpkgs/home-manager/modules/zellij-auto-tabname/src`; the table spells them out.

Some rows are worked examples, each on one concrete input: `ClaudeCli.SingleShotExample`,
`ClaudeCli.StreamingExample`, `CacheExamples.SlugifyExample`, `CacheExamples.SlugifySchemeOnce`,
`SecretCli.AlmostAMegabyte` and `AutoTab.SelectionRulesDiffer`. They illustrate documented
behaviour. The general statements are in the other rows, for example
`ClaudeCli.ScanCharacterisation`, `ClaudeCli.WellBehavedStream`, `Cache.SlugifyKeepsSlugChars`,
`SecretCli.FormatSizeNearest`, `AutoTabName.FirstFocusedOnly` and
`AutoTab.EveryQualifyingTabRenamed`.

| member | source | states |
|---|---|---|
| ClaudeCli.PromptToString | nixpkgs/home-manager/modules/ts/oi/src/claude-cli.ts:21-57 | the loop's output is the encoded paragraphs of the messages, in order, joined by a blank line |
| ClaudeCli.PushTexts | nixpkgs/home-manager/modules/ts/oi/src/claude-cli.ts:33-44 | the inner loop appends the tagged text paragraphs of the message's parts, in order |
| ClaudeCli.PromptParagraphsAppend | nixpkgs/home-manager/modules/ts/oi/src/claude-cli.ts:27-46 | messages are encoded in order: the paragraphs of `a + b` are those of `a` followed by those of `b` |
| ClaudeCli.TextParagraphsAppend | nixpkgs/home-manager/modules/ts/oi/src/claude-cli.ts:33-44 | the text parts of a message contribute their paragraphs in order, and other parts contribute none |
| ClaudeCli.NonTextDropped | nixpkgs/home-manager/modules/ts/oi/src/claude-cli.ts:33-44 | a message without text parts contributes no paragraph |
| ClaudeCli.JsonInstructionLast | nixpkgs/home-manager/modules/ts/oi/src/claude-cli.ts:48-54 | the text format adds nothing; the JSON format adds exactly one last paragraph, which starts with the CRITICAL instruction and ends with the schema |
| ClaudeCli.SystemThenUser | nixpkgs/home-manager/modules/ts/oi/src/claude-cli.ts:28-36 | a system message followed by a user message encodes as "[System]: s", a blank line, then the user text |
| ClaudeCli.StripMarkdownCodeBlocks | nixpkgs/home-manager/modules/ts/oi/src/claude-cli.ts:69-76 | the result is always trimmed: either the non-empty capture or the whole text |
| ClaudeCli.NoFenceNoMatch | nixpkgs/home-manager/modules/ts/oi/src/claude-cli.ts:71 | text without three backticks has no match of the fence pattern at any line start |
| ClaudeCli.StripWithoutFence | nixpkgs/home-manager/modules/ts/oi/src/claude-cli.ts:69-76 | text without a fence comes back trimmed, and stripping is then idempotent |
| ClaudeCli.LazyBodyStops | nixpkgs/home-manager/modules/ts/oi/src/claude-cli.ts:71 | the lazy capture ends at the first position where the closing fence matches |
| ClaudeCli.ClosingOnlyAfter | nixpkgs/home-manager/modules/ts/oi/src/claude-cli.ts:71 | in `head + t + "\n```"`, the closing fence matches only right after a trimmed, fence-free `t` |
| ClaudeCli.TagThenBody | nixpkgs/home-manager/modules/ts/oi/src/claude-cli.ts:71 | after an opening line ending in a newline, the capture is exactly the body |
| ClaudeCli.StripJsonFenced | nixpkgs/home-manager/modules/ts/oi/src/claude-cli.ts:69-76 | stripping undoes wrapping a trimmed, fence-free text in a fence with the `json` tag |
| ClaudeCli.StripPlainFenced | nixpkgs/home-manager/modules/ts/oi/src/claude-cli.ts:69-76 | stripping undoes wrapping a trimmed, fence-free text in a fence without a tag |
| ClaudeCli.CliArgs | nixpkgs/home-manager/modules/ts/oi/src/claude-cli.ts:100-110 | the arguments are `-p`, the output format and an empty `--tools`, then `--model m` exactly when a non-empty model is set |
| ClaudeCli.FirstError | nixpkgs/home-manager/modules/ts/oi/src/claude-cli.ts:150-156 | gives the index of the first error-result line, or says there is none |
| ClaudeCli.LastSuccess | nixpkgs/home-manager/modules/ts/oi/src/claude-cli.ts:148-149 | gives the non-empty result of some success line, or says there is no success line |
| ClaudeCli.GenerateText | nixpkgs/home-manager/modules/ts/oi/src/claude-cli.ts:133-189 | the method with the scanning loop equals the single-shot specification |
| ClaudeCli.ScanCharacterisation | nixpkgs/home-manager/modules/ts/oi/src/claude-cli.ts:144-160 | the scan fails with the first error record wherever success records stand; otherwise the last success wins |
| ClaudeCli.GenerateTextOutcome | nixpkgs/home-manager/modules/ts/oi/src/claude-cli.ts:133-189 | a nonzero exit fails first; then the first error record fails; with no success it is "no result"; otherwise the text (fence-stripped in JSON mode) followed by the finish part |
| ClaudeCli.ScanIgnoresNoise | nixpkgs/home-manager/modules/ts/oi/src/claude-cli.ts:145-159 | a line that is neither a success nor an error record leaves the scan unchanged |
| Strings.SplitJoin | nixpkgs/home-manager/modules/ts/oi/src/claude-cli.ts:141 | splitting the output at newlines loses nothing: joining the lines back gives the output |
| Strings.JoinSplit | nixpkgs/home-manager/modules/ts/oi/src/claude-cli.ts:141 | newline-free lines joined by newlines split back into exactly those lines |
| ClaudeCli.StdoutLines | nixpkgs/home-manager/modules/ts/oi/src/claude-cli.ts:141 | at least one line, none holding a newline, and joined by newlines they give the trimmed output |
| ClaudeCli.SingleShotExample | nixpkgs/home-manager/modules/ts/oi/src/claude-cli.ts:141-189 | a progress line and then a success "Looks good" give the text "Looks good" and the finish part |
| ClaudeCli.StreamState.MapLine | nixpkgs/home-manager/modules/ts/oi/src/claude-cli.ts:242-302 | mapping one line from the old flag gives the parts, the new flag and the failure of the line specification |
| ClaudeCli.StreamText | nixpkgs/home-manager/modules/ts/oi/src/claude-cli.ts:237-318 | the mapper over all lines from a fresh flag equals the stream specification |
| ClaudeCli.StreamFinishOnce | nixpkgs/home-manager/modules/ts/oi/src/claude-cli.ts:304-318 | a stream that does not fail ends with exactly one finish part; a failing one has none |
| ClaudeCli.StepFailsOnError | nixpkgs/home-manager/modules/ts/oi/src/claude-cli.ts:289-295 | a line fails the stream exactly when it is an error record |
| ClaudeCli.StreamFailure | nixpkgs/home-manager/modules/ts/oi/src/claude-cli.ts:289-295 | the stream fails exactly when an error record appears, with the first one's message |
| ClaudeCli.StreamDeltasOpened | nixpkgs/home-manager/modules/ts/oi/src/claude-cli.ts:253-287 | no delta is emitted before a text start |
| ClaudeCli.StreamStartsBeforeDeltas | nixpkgs/home-manager/modules/ts/oi/src/claude-cli.ts:253-287 | from a fresh flag, no delta comes before a text start |
| ClaudeCli.StepCounts | nixpkgs/home-manager/modules/ts/oi/src/claude-cli.ts:253-298 | a line emits a start only when the flag is clear and the line has content or a result; it emits an end only for a success; only content sets the flag |
| ClaudeCli.StreamStartBound | nixpkgs/home-manager/modules/ts/oi/src/claude-cli.ts:256-287 | text starts number at most the success records, plus one if the flag begins clear |
| ClaudeCli.StreamSingleStart | nixpkgs/home-manager/modules/ts/oi/src/claude-cli.ts:256-276 | without success records there is at most one text start |
| ClaudeCli.StartedEmitsNoStart | nixpkgs/home-manager/modules/ts/oi/src/claude-cli.ts:259-290 | once the flag is set, no line emits another text start |
| ClaudeCli.NoContentStarts | nixpkgs/home-manager/modules/ts/oi/src/claude-cli.ts:256-287 | before the first content line, only success records can emit a text start |
| ClaudeCli.FirstContentStartsOnce | nixpkgs/home-manager/modules/ts/oi/src/claude-cli.ts:253-288 | the first content line emits the one start and sets the flag; no later line starts again; starts are at most the success records before it, plus one |
| ClaudeCli.StreamEndCount | nixpkgs/home-manager/modules/ts/oi/src/claude-cli.ts:278-288 | a stream that does not fail closes its text once per success record |
| ClaudeCli.StreamContentStep | nixpkgs/home-manager/modules/ts/oi/src/claude-cli.ts:253-276 | a content line emits a start if the flag is clear, then its delta, and sets the flag |
| ClaudeCli.StreamNoiseStep | nixpkgs/home-manager/modules/ts/oi/src/claude-cli.ts:298-300 | a line that is not a record emits nothing and leaves the flag |
| ClaudeCli.SuccessStep | nixpkgs/home-manager/modules/ts/oi/src/claude-cli.ts:278-288 | a success record emits a start if needed, its result as a delta and an end, and leaves the flag unchanged |
| ClaudeCli.ContentPrefix | nixpkgs/home-manager/modules/ts/oi/src/claude-cli.ts:253-276 | a run of content and noise lines emits one start (if needed) and one delta per content line |
| ClaudeCli.NoiseTail | nixpkgs/home-manager/modules/ts/oi/src/claude-cli.ts:298-318 | after the last record, noise leaves only the finish part |
| ClaudeCli.WellBehavedStream | nixpkgs/home-manager/modules/ts/oi/src/claude-cli.ts:237-318 | content, one success and then noise give one start, the deltas, the result delta, one end and one finish |
| ClaudeCli.StreamingExample | nixpkgs/home-manager/modules/ts/oi/src/claude-cli.ts:253-288 | two assistant records "Hel" and "lo", then the result "Hello", give the expected part sequence |
| ClaudeCli.ResultThenContentStartsTwice | nixpkgs/home-manager/modules/ts/oi/src/claude-cli.ts:278-288 | an assistant record after a success opens a second text: two text starts |
| ClaudeCli.StreamIgnoresNoise | nixpkgs/home-manager/modules/ts/oi/src/claude-cli.ts:240-300 | a noise line anywhere leaves the stream unchanged |
| Ai.SelectProvider | nixpkgs/home-manager/modules/ts/oi/src/ai.ts:79-105 | OpenAI (gpt-4o) exactly when a key is present, even an empty one; otherwise Claude with opus for review and sonnet for commit |
| Ai.TiersAgree | nixpkgs/home-manager/modules/ts/oi/src/ai.ts:79-105 | both tiers take the same provider in one environment, with different Claude models |
| Ai.ClaudeTierArgs | nixpkgs/home-manager/modules/ts/oi/src/ai.ts:10-11 | on the Claude path each tier passes its model flag |
| Ai.CommitPromptText | nixpkgs/home-manager/modules/ts/oi/src/ai.ts:22-26 | the CLI receives "[System]: " and the system prompt, a blank line, then the diff |
| Ai.GenerateCommitMessage | nixpkgs/home-manager/modules/ts/oi/src/ai.ts:26-45 | a call failure becomes `AiGenerationError`; a blank answer becomes `EmptyCommitMessageError`; otherwise the message is the non-empty trimmed answer |
| Ai.EmptyExactlyWhenWhitespace | nixpkgs/home-manager/modules/ts/oi/src/ai.ts:37-43 | the empty-message error occurs exactly when the answer is all whitespace |
| Ai.CommitMessageStable | nixpkgs/home-manager/modules/ts/oi/src/ai.ts:37-45 | a generated message fed back as the answer comes out unchanged |
| Strings.TrimIsTrimmed | nixpkgs/home-manager/modules/ts/oi/src/ai.ts:37 | the trimmed message neither starts nor ends with whitespace |
| Strings.TrimIdempotent | nixpkgs/home-manager/modules/ts/oi/src/ai.ts:37 | trimming twice is trimming once |
| Review.DecodeReviewResult | nixpkgs/home-manager/modules/ts/oi/src/review.ts:23-28 | a missing suggestion list decodes to the empty one; the issue lists are kept |
| Review.CleanIgnoresSuggestions | nixpkgs/home-manager/modules/ts/oi/src/review.ts:41-43 | clean exactly when there are no blocking issues and no warnings, whatever the suggestions |
| Review.SystemPrompt | nixpkgs/home-manager/modules/ts/oi/src/review.ts:104-108 | the review prompt, extended by the context section exactly when a non-empty context is given |
| Review.BuildPrompts | nixpkgs/home-manager/modules/ts/oi/src/review.ts:104-124 | the step-by-step prompt building yields the two prompt specifications |
| Review.SystemPromptExtended | nixpkgs/home-manager/modules/ts/oi/src/review.ts:106-108 | the system prompt grows exactly when a non-empty context is given |
| Review.UserPromptLayout | nixpkgs/home-manager/modules/ts/oi/src/review.ts:114-124 | the commits section opens the prompt exactly when given; the fenced staged diff follows; the unstaged section closes it exactly when given |
| Review.ReviewChanges | nixpkgs/home-manager/modules/ts/oi/src/review.ts:126-143 | a call failure becomes `AiGenerationError("Failed to review changes")`; a success passes the result through |
| OiCli.FormatLocation | nixpkgs/home-manager/modules/ts/oi/src/mod.ts:13-21 | `file:line`, the file alone, or nothing without a file, even when a line is known |
| OiCli.IssueBlockLines | nixpkgs/home-manager/modules/ts/oi/src/mod.ts:24-36 | the number and location (or "General"), the indented message, then the arrowed suggestion if any |
| OiCli.IssueBlockLinesBack | nixpkgs/home-manager/modules/ts/oi/src/mod.ts:24-36 | an issue without line breaks splits back into exactly its block lines |
| OiCli.IssueEntries | nixpkgs/home-manager/modules/ts/oi/src/mod.ts:45-48 | one block per issue, numbered from 1, with a blank line between consecutive blocks |
| OiCli.FormatIssuesList | nixpkgs/home-manager/modules/ts/oi/src/mod.ts:39-51 | the loop yields nothing for no issues, else the header and the entries joined by newlines |
| OiCli.IssueEntriesUpTo | nixpkgs/home-manager/modules/ts/oi/src/mod.ts:45-48 | after k turns of the loop, entry 2j is the block of issue j numbered j+1, and every block but the last is followed by a blank line |
| OiCli.SuggestionLines | nixpkgs/home-manager/modules/ts/oi/src/mod.ts:60-63 | a bulleted file line, then the indented reason, per suggestion, in order |
| OiCli.FormatUnstagedSuggestions | nixpkgs/home-manager/modules/ts/oi/src/mod.ts:54-66 | the loop yields nothing for no suggestions, else the header and the lines |
| OiCli.DisplayReviewResults | nixpkgs/home-manager/modules/ts/oi/src/mod.ts:69-90 | the method logs exactly the texts of the display specification |
| OiCli.SectionsAreNotNotes | nixpkgs/home-manager/modules/ts/oi/src/mod.ts:71-87 | a non-empty issue or suggestion section never reads as one of the all-clear notes |
| OiCli.DisplayNotes | nixpkgs/home-manager/modules/ts/oi/src/mod.ts:69-90 | "No issues found" only when clean without suggestions; "No code issues found" only when clean with suggestions; blocking first; always ends with an empty line |
| OiCli.GenerateAndCommitShape | nixpkgs/home-manager/modules/ts/oi/src/mod.ts:167-178 | generation and commit come in order; the commit carries the flag and the message `generateCommitMessage` makes of the model's answer, and happens exactly when that message was generated; otherwise the step fails with its error |
| OiCli.GenerateAndCommit | nixpkgs/home-manager/modules/ts/oi/src/mod.ts:167-178 | every commit carries the model's answer trimmed, non-empty and free of surrounding whitespace; no error exactly when a message came out and the commit succeeded; a failed model call is a generation failure |
| OiCli.ReviewGate | nixpkgs/home-manager/modules/ts/oi/src/mod.ts:136-165 | the model's review answer goes through `reviewChanges`, so a failed call ends the step with AiGenerationError("Failed to review changes"); any commit carries the trimmed answer; no error only when the review passed, a message came out and the commit succeeded |
| OiCli.FailedReviewAborts | nixpkgs/home-manager/modules/ts/oi/src/review.ts:127-141 | in `oi commit`, a failed model call during the review ends the command with AiGenerationError("Failed to review changes") before a message is requested |
| OiCli.Decide | nixpkgs/home-manager/modules/ts/oi/src/mod.ts:150-178 | after a commit-free display, any commit carries the trimmed answer; no error only without blocking issues, with confirmation when there are warnings, a message and a successful commit |
| OiCli.CommitCommand | nixpkgs/home-manager/modules/ts/oi/src/mod.ts:124-179 | the whole command commits only the trimmed, non-empty answer of the model, and ends without error only when every step up to the commit went through and the commit did too |
| OiCli.ReviewGatePasses | nixpkgs/home-manager/modules/ts/oi/src/mod.ts:136-165 | a passing review asks for no message itself, and generation follows it |
| OiCli.ReviewGateStops | nixpkgs/home-manager/modules/ts/oi/src/mod.ts:136-164 | a review that does not pass ends the command with an error before any message request |
| OiCli.DecideAborts | nixpkgs/home-manager/modules/ts/oi/src/mod.ts:150-164 | blocking issues abort first; then a declined confirmation aborts; confirmation is asked exactly for warnings without blocking issues |
| OiCli.CommitGate | nixpkgs/home-manager/modules/ts/oi/src/mod.ts:124-179 | `git commit` runs exactly when every earlier step went through, with the generated message and the `--no-verify` flag; the command succeeds exactly when the commit does; the steps keep their order |
| OiCli.SkipReviewSkips | nixpkgs/home-manager/modules/ts/oi/src/mod.ts:136 | `--skip-review` skips the diffs, the review and the confirmation |
| OiCli.NoVerifySkipsHook | nixpkgs/home-manager/modules/ts/oi/src/mod.ts:130-133 | `--no-verify` skips the pre-commit hook |
| OiCli.AfterHookNoHook | nixpkgs/home-manager/modules/ts/oi/src/mod.ts:136-178 | no step after the hook step runs the hook |
| OiCli.HookFailureStops | nixpkgs/home-manager/modules/ts/oi/src/mod.ts:130-133 | a failing hook ends the command right after it runs, with the hook's error |
| OiCli.BlockingAborts | nixpkgs/home-manager/modules/ts/oi/src/mod.ts:150-154 | blocking issues abort the commit before a message is requested |
| OiCli.DeclinedWarningsAbort | nixpkgs/home-manager/modules/ts/oi/src/mod.ts:157-163 | warnings ask for confirmation, and a declined or quit prompt aborts before a message is requested |
| OiCli.ReviewDecided | nixpkgs/home-manager/modules/ts/oi/src/mod.ts:147-164 | once the review is shown, the command's outcome is the gate's decision |
| Duration.UnitMillis | nixpkgs/home-manager/modules/ts/op-secret-cache/src/duration.ts:22-28 | each unit letter is a key of the multiplier table, with a positive whole number of seconds |
| Duration.Evaluate | nixpkgs/home-manager/modules/ts/op-secret-cache/src/duration.ts:22-38 | "Unknown duration unit" exactly for a unit outside the table; otherwise the value times the multiplier, a multiple of 1000 |
| Duration.ParseDuration | nixpkgs/home-manager/modules/ts/op-secret-cache/src/duration.ts:10-39 | succeeds exactly when the input is digits plus one unit letter, giving digits times unit milliseconds; every failure is the format error, so the unknown-unit error is unreachable |
| Duration.ParseDigitsUnit | nixpkgs/home-manager/modules/ts/op-secret-cache/src/duration.ts:10-39 | every digit string followed by a unit parses, to its value times the unit |
| Duration.FormatDuration | nixpkgs/home-manager/modules/ts/op-secret-cache/src/duration.ts:42-54 | the output always matches the parse pattern; under one second it is "0s" |
| Duration.Rendered | nixpkgs/home-manager/modules/ts/op-secret-cache/src/duration.ts:49-53 | the decimal count followed by the unit letter, matching the parse pattern |
| Duration.FloorChain | nixpkgs/home-manager/modules/ts/op-secret-cache/src/duration.ts:43-47 | the repeated floor divisions are divisions by the unit sizes |
| Duration.LargestUnit | nixpkgs/home-manager/modules/ts/op-secret-cache/src/duration.ts:43-53 | the unit is `w` from a week on, `d` from a day, `h` from an hour, `m` from a minute, otherwise `s` |
| Duration.ParseRendered | nixpkgs/home-manager/modules/ts/op-secret-cache/src/duration.ts:10-54 | a rendered count parses back to that many units |
| Duration.FormatThenParse | nixpkgs/home-manager/modules/ts/op-secret-cache/src/duration.ts:10-54 | format then parse rounds down to the chosen unit; that unit is the largest one reached; the value is positive from one second on |
| Duration.ParseThenFormat | nixpkgs/home-manager/modules/ts/op-secret-cache/src/duration.ts:10-54 | a canonical duration text survives parse and format unchanged |
| Duration.FormatRelativeTime | nixpkgs/home-manager/modules/ts/op-secret-cache/src/duration.ts:57-65 | "... ago" exactly for a past moment and "in ..." otherwise, around the formatted distance |
| Duration.PastAndFuture | nixpkgs/home-manager/modules/ts/op-secret-cache/src/duration.ts:62-64 | the two forms are told apart by their affixes, and each gives the distance back |
| Cache.StripScheme | nixpkgs/home-manager/modules/ts/op-secret-cache/src/cache.ts:23 | removes one leading "op://" and nothing else |
| Cache.CollapseShape | nixpkgs/home-manager/modules/ts/op-secret-cache/src/cache.ts:25 | after collapsing runs, only `a-z0-9` and single dashes remain, emptiness is kept, and the first character is a dash exactly when the input starts with a non-alphanumeric |
| Cache.TrimDashes | nixpkgs/home-manager/modules/ts/op-secret-cache/src/cache.ts:26 | trimming the dashes of a collapsed string gives a slug, and leaves a dash-free-ended string alone |
| Cache.SlugifyPath | nixpkgs/home-manager/modules/ts/op-secret-cache/src/cache.ts:21-26 | the result is a slug: lower-case letters, digits and single inner dashes only |
| Cache.SlugifyIdempotent | nixpkgs/home-manager/modules/ts/op-secret-cache/src/cache.ts:21-26 | slugifying a slug changes nothing |
| Cache.CollapseKeeps | nixpkgs/home-manager/modules/ts/op-secret-cache/src/cache.ts:25 | collapsing runs keeps every `a-z0-9` character, in order, and adds only dashes |
| Cache.SlugifyKeepsSlugChars | nixpkgs/home-manager/modules/ts/op-secret-cache/src/cache.ts:21-26 | the slug's letters and digits are exactly those of the lower-cased path without its scheme, in order; the slug is empty exactly when there are none |
| CacheExamples.SlugifyExample | nixpkgs/home-manager/modules/ts/op-secret-cache/src/cache.ts:21-26 | "op://Vault/Item/Field" becomes "vault-item-field" |
| CacheExamples.SlugifySchemeOnce | nixpkgs/home-manager/modules/ts/op-secret-cache/src/cache.ts:23 | only the first scheme is removed: "op://op://x" becomes "op-x" |
| Cache.KeyOf | nixpkgs/home-manager/modules/ts/op-secret-cache/src/cache.ts:104 | removing ".json" from a `.json` name gives the key whose file name it is |
| Cache.KeyFileRoundTrip | nixpkgs/home-manager/modules/ts/op-secret-cache/src/cache.ts:29-30 | a key's file name gives the key back, and a `.json` name is its key's file name |
| Cache.CacheFilePath | nixpkgs/home-manager/modules/ts/op-secret-cache/src/cache.ts:29-30 | the path is the directory, a slash, then a `.json` name whose key is the given key |
| Cache.ExpiryMonotone | nixpkgs/home-manager/modules/ts/op-secret-cache/src/cache.ts:33-37 | an entry expired at one moment stays expired later, and one without expiry never expires |
| Cache.Remove | nixpkgs/home-manager/modules/ts/op-secret-cache/src/cache.ts:124 | a removable existing file is removed and reported; anything else leaves the directory unchanged |
| Cache.ReadCacheEntry | nixpkgs/home-manager/modules/ts/op-secret-cache/src/cache.ts:40-67 | an entry is returned exactly when the file is readable, decodes and is not expired; a non-JSON file is a defect; an expired file is removed (unless the removal fails) and nothing else is |
| Cache.WriteCacheEntry | nixpkgs/home-manager/modules/ts/op-secret-cache/src/cache.ts:70-85 | the key's file holds the encoded entry and is listed, and other files are unchanged; a failed write changes nothing |
| Cache.WriteThenRead | nixpkgs/home-manager/modules/ts/op-secret-cache/src/cache.ts:40-85 | an entry written then read back before it expires is returned unchanged, when the codec round-trips |
| Cache.DirOkKept | nixpkgs/home-manager/modules/ts/op-secret-cache/src/cache.ts:40-85 | removing, reading and writing keep every listed name backed by a file, no name listed twice and a missing directory empty; a write to a missing directory creates it holding only the key's file |
| Cache.WithoutDistinct | nixpkgs/home-manager/modules/ts/op-secret-cache/src/cache.ts:124 | removing a file from a listing without repeats leaves a listing without repeats |
| Cache.ListEntries | nixpkgs/home-manager/modules/ts/op-secret-cache/src/cache.ts:88-110 | the `continue` loop over the listing equals the listing specification |
| Cache.ListFromSound | nixpkgs/home-manager/modules/ts/op-secret-cache/src/cache.ts:96-107 | over any listing, the loop removes only expired files and yields only unexpired entries held by `.json` names |
| Cache.ListFromEvicts | nixpkgs/home-manager/modules/ts/op-secret-cache/src/cache.ts:102-107 | a loop that completes removes every removable expired file with a `.json` name in the listing |
| Cache.ListFromComplete | nixpkgs/home-manager/modules/ts/op-secret-cache/src/cache.ts:102-107 | a loop that completes returns every unexpired entry held by a `.json` name of the listing |
| Cache.ReadKeepsLive | nixpkgs/home-manager/modules/ts/op-secret-cache/src/cache.ts:61-64 | reading any key leaves a file holding a live entry untouched |
| Cache.LiveInEvicts | nixpkgs/home-manager/modules/ts/op-secret-cache/src/cache.ts:61-64 | evicting expired files does not change the live entries of a listing |
| Cache.ListFromIsLive | nixpkgs/home-manager/modules/ts/op-secret-cache/src/cache.ts:101-109 | a loop that completes returns exactly the live entries of the listing, in order, as the directory held them before |
| Cache.ListSound | nixpkgs/home-manager/modules/ts/op-secret-cache/src/cache.ts:88-110 | a completed listing returns exactly the live entries of the listed `.json` files, in listing order: each is unexpired and held by such a file, and every such entry is returned; only expired files are removed, and every removable expired `.json` file is gone |
| Cache.ListCacheEntries | nixpkgs/home-manager/modules/ts/op-secret-cache/src/cache.ts:88-110 | a missing directory lists nothing and is unchanged; only expired files are removed; a completed listing holds only unexpired entries and every unexpired entry of a listed `.json` file |
| Cache.ClearCacheEntry | nixpkgs/home-manager/modules/ts/op-secret-cache/src/cache.ts:113-126 | true exactly when the key's file existed and was removed; other entries are kept |
| Cache.ClearAll | nixpkgs/home-manager/modules/ts/op-secret-cache/src/cache.ts:129-153 | the loop over the listing equals the clearing specification |
| Cache.ClearAllCacheEntries | nixpkgs/home-manager/modules/ts/op-secret-cache/src/cache.ts:129-153 | reports the keys of the listing's `.json` names, or none for a missing directory; the directory stays present or absent; files are only removed, never changed |
| Cache.ClearFromEffect | nixpkgs/home-manager/modules/ts/op-secret-cache/src/cache.ts:138-150 | over any listing, the reported keys are those of its `.json` names; removable ones are gone, no file changes content, and other files stay |
| Cache.ClearAllEffect | nixpkgs/home-manager/modules/ts/op-secret-cache/src/cache.ts:129-153 | reports every listed `.json` key, even if its removal failed; removable `.json` files are gone; the rest is unchanged |
| Cache.Tally | nixpkgs/home-manager/modules/ts/op-secret-cache/src/cache.ts:172-179 | the count is the number of `.json` names, and the total is zero when the count is |
| Cache.TallyIsJsonSizes | nixpkgs/home-manager/modules/ts/op-secret-cache/src/cache.ts:172-179 | the running total is the sum of the stat sizes of the `.json` names alone: other names add nothing, a failed stat adds 0 |
| Cache.TallyOne | nixpkgs/home-manager/modules/ts/op-secret-cache/src/cache.ts:173-178 | one name adds 1 and its stat size when it ends in `.json`, and nothing otherwise |
| Cache.TallyAppend | nixpkgs/home-manager/modules/ts/op-secret-cache/src/cache.ts:172-179 | count and total size add up over the parts of a listing |
| Cache.JsonNamesMembers | nixpkgs/home-manager/modules/ts/op-secret-cache/src/cache.ts:173 | the filter keeps exactly the `.json` names of the listing, one per key |
| Cache.GetCacheInfo | nixpkgs/home-manager/modules/ts/op-secret-cache/src/cache.ts:156-182 | names the directory; zeros for a missing or unreadable directory; otherwise the number of `.json` names and the sum of their stat sizes |
| Cache.CacheInfoOf | nixpkgs/home-manager/modules/ts/op-secret-cache/src/cache.ts:169-181 | the counting loop equals the info specification |
| Cache.InfoCountsClearable | nixpkgs/home-manager/modules/ts/op-secret-cache/src/cache.ts:129-182 | the info count is the number of keys clearing everything would report |
| Op.ValidateSecretPath | nixpkgs/home-manager/modules/ts/op-secret-cache/src/op.ts:17-25 | succeeds with the path unchanged exactly when it starts with "op://", else the invalid-path error carrying the path |
| Op.ReadSecret | nixpkgs/home-manager/modules/ts/op-secret-cache/src/op.ts:28-41 | runs `op read <path>` exactly for a valid path; the success value is the trimmed output, whatever the exit status; `OpCliError` only when `op` cannot be run |
| Op.InjectTemplateFile | nixpkgs/home-manager/modules/ts/op-secret-cache/src/op.ts:44-54 | runs `op inject -i <file>` and returns the output verbatim, or the failure with the file name |
| Op.InjectTemplateContent | nixpkgs/home-manager/modules/ts/op-secret-cache/src/op.ts:57-86 | runs `op inject -i <tmp>/template.tpl` exactly when the directory and the file were made; reports each failure's message |
| Op.ReadTrimsInjectDoesNot | nixpkgs/home-manager/modules/ts/op-secret-cache/src/op.ts:28-54 | the same output yields equal values from `read` and `inject` exactly when it is already trimmed |
| SecretCli.GetCacheDir | nixpkgs/home-manager/modules/ts/op-secret-cache/src/mod.ts:24-25 | the override, else the variable, else ".direnv/secrets" |
| SecretCli.EmptyOverrideWins | nixpkgs/home-manager/modules/ts/op-secret-cache/src/mod.ts:24-25 | an empty override or variable is used as it is, not skipped |
| SecretCli.GetDefaultTtl | nixpkgs/home-manager/modules/ts/op-secret-cache/src/mod.ts:28-33 | a time to live exactly when the variable is set and parses, and then the parsed milliseconds |
| SecretCli.TtlFor | nixpkgs/home-manager/modules/ts/op-secret-cache/src/mod.ts:113-115 | an explicit `--ttl` fails exactly when it does not parse; without one, the variable's time to live |
| SecretCli.BadTtlFailsOnlyWhenExplicit | nixpkgs/home-manager/modules/ts/op-secret-cache/src/mod.ts:28-33 | a bad text fails as `--ttl` but means "no expiry" in the variable |
| SecretCli.TenthsNearest | nixpkgs/home-manager/modules/ts/op-secret-cache/src/mod.ts:38-39 | the printed tenths are the nearest to the exact quotient, ties rounding up |
| SecretCli.FormatSize | nixpkgs/home-manager/modules/ts/op-secret-cache/src/mod.ts:36-40 | " B" exactly below 1024, " KB" exactly below 1024², " MB" otherwise; the byte count reads back exactly; above that, the one-decimal rendering of the rounded tenths of kilobytes or megabytes |
| SecretCli.Fixed1 | nixpkgs/home-manager/modules/ts/op-secret-cache/src/mod.ts:38-39 | the whole part, a point and one digit, which read back give the number of tenths |
| SecretCli.FormatSizeNearest | nixpkgs/home-manager/modules/ts/op-secret-cache/src/mod.ts:38-39 | above a kilobyte, the printed number read back is the one-decimal value nearest to the size in its unit, ties rounding up |
| SecretCli.AlmostAMegabyte | nixpkgs/home-manager/modules/ts/op-secret-cache/src/mod.ts:38 | 1048575 bytes print as "1024.0 KB" |
| SecretCli.GetHit | nixpkgs/home-manager/modules/ts/op-secret-cache/src/mod.ts:90-106 | a cache hit prints the cached entry and runs no `op`, changing nothing |
| SecretCli.GetFetches | nixpkgs/home-manager/modules/ts/op-secret-cache/src/mod.ts:110-146 | otherwise the command runs `op read`, then caches and prints the trimmed value under the key, with the path, the time of the call and the expiry |
| SecretCli.GetCachesEmptyOutput | nixpkgs/home-manager/modules/ts/op-secret-cache/src/op.ts:32-40 | an `op read` that prints nothing still counts as a read: `get` caches and prints the empty value |
| SecretCli.GetBadTtl | nixpkgs/home-manager/modules/ts/op-secret-cache/src/mod.ts:110-115 | a bad `--ttl` fails after `op read` has run, and writes nothing |
| SecretCli.Get | nixpkgs/home-manager/modules/ts/op-secret-cache/src/mod.ts:84-147 | `get` touches only the cache directory, runs `op read <path>` or nothing, and a bad `--ttl` only after `op read` ran |
| SecretCli.GetFetch | nixpkgs/home-manager/modules/ts/op-secret-cache/src/mod.ts:109-146 | the fetch touches only the cache directory and runs `op read <path>` or nothing; a bad `--ttl` is reported after the read |
| SecretCli.Save | nixpkgs/home-manager/modules/ts/op-secret-cache/src/mod.ts:112-146 | saving touches only the cache directory, runs no further command, and ends normally or with the bad-duration error |
| SecretCli.GetInvalidPath | nixpkgs/home-manager/modules/ts/op-secret-cache/src/mod.ts:110 | a path without "op://" fails without running `op` or writing |
| SecretCli.GetThenGetHits | nixpkgs/home-manager/modules/ts/op-secret-cache/src/mod.ts:84-146 | a fetched secret is served from the cache by the next `get` until it expires |
| SecretCli.QuoteWarning | nixpkgs/home-manager/modules/ts/op-secret-cache/src/mod.ts:346-350 | the warning is printed exactly when the template contains a double-quoted placeholder edge |
| SecretCli.InjectStdinNeedsKey | nixpkgs/home-manager/modules/ts/op-secret-cache/src/mod.ts:307-313 | `inject -` without `--key` prints the error, ends normally and touches nothing |
| SecretCli.InjectStdinRecordsPath | nixpkgs/home-manager/modules/ts/op-secret-cache/src/mod.ts:339-391 | a template from stdin is injected through the temporary file and cached untrimmed with the path "<stdin>" |
| SecretCli.InjectFileRecordsPath | nixpkgs/home-manager/modules/ts/op-secret-cache/src/mod.ts:315-377 | a template file is injected in place and cached under its own path and, without `--key`, its slug |
| SecretCli.Inject | nixpkgs/home-manager/modules/ts/op-secret-cache/src/mod.ts:304-392 | `inject` touches only the cache directory and runs at most one `op inject -i`: on the template file, or on the temporary `template.tpl` for stdin; a bad `--ttl` only after it ran |
| SecretCli.InjectFetch | nixpkgs/home-manager/modules/ts/op-secret-cache/src/mod.ts:339-391 | the same as `inject` once the cache missed: at most one `op inject -i` on the right file, a bad `--ttl` only after it |
| SecretCli.ClearedLines | nixpkgs/home-manager/modules/ts/op-secret-cache/src/mod.ts:233-242 | the JSON object, the header plus one "  - key" line per key, or the nothing-to-clear note |
| SecretCli.ClearNeedsKeyOrAll | nixpkgs/home-manager/modules/ts/op-secret-cache/src/mod.ts:246-249 | with neither a key nor `--all`, it prints the error and removes nothing |
| SecretCli.ClearOneReports | nixpkgs/home-manager/modules/ts/op-secret-cache/src/mod.ts:251-258 | the key is reported as cleared exactly when its file existed and was removed; other directories are unchanged |
| SecretCli.ClearAllReports | nixpkgs/home-manager/modules/ts/op-secret-cache/src/mod.ts:231-234 | `clear --all --json` reports the listing's `.json` keys and their count |
| SecretCli.Clear | nixpkgs/home-manager/modules/ts/op-secret-cache/src/mod.ts:227-259 | `clear` always ends normally, runs no `op`, touches only the cache directory and only removes files there |
| SecretCli.EntryLines | nixpkgs/home-manager/modules/ts/op-secret-cache/src/mod.ts:186-207 | six lines per entry in the verbose form, otherwise one, each starting with the key |
| SecretCli.ListShowsLiveEntries | nixpkgs/home-manager/modules/ts/op-secret-cache/src/mod.ts:159-211 | `list` prints exactly the live entries of the listed `.json` files, in listing order; it removes only expired files, and after a completed listing every removable expired `.json` file is gone; it runs no `op` and touches no other directory |
| SecretCli.List | nixpkgs/home-manager/modules/ts/op-secret-cache/src/mod.ts:159-211 | `list` runs no `op`, ends normally or as a defect, touches only the cache directory and removes only expired files there |
| SecretCli.ListOneLinePerEntry | nixpkgs/home-manager/modules/ts/op-secret-cache/src/mod.ts:183-207 | the count heading, a blank line, then one line per entry, in order, starting with its key |
| SecretCli.EntriesLinesOneEach | nixpkgs/home-manager/modules/ts/op-secret-cache/src/mod.ts:203-206 | in the compact form, line i is the line of entry i |
| SecretCli.ListJsonHidesValues | nixpkgs/home-manager/modules/ts/op-secret-cache/src/mod.ts:166-175 | one array element per entry, giving its key, expiry and value length (in characters) but not its value |
| SecretCli.InfoCountsWhatClearAllClears | nixpkgs/home-manager/modules/ts/op-secret-cache/src/mod.ts:265-281 | `info` changes nothing, and its count equals the count `clear --all` would report |
| SecretCli.Info | nixpkgs/home-manager/modules/ts/op-secret-cache/src/mod.ts:267-279 | `info` changes nothing, runs no `op` and ends normally; it prints the JSON object, or the three lines giving the cache directory, the number of `.json` files and the formatted sum of their sizes, with zeros for a missing or unreadable directory |
| ZellijTile.TabId | nixpkgs/home-manager/modules/zellij-auto-tabname/src/lib.rs:31 | the u32 cast keeps the low 32 bits, which is the identity below 2^32 |
| ZellijTile.SmallTabsAreDistinct | nixpkgs/home-manager/modules/zellij-auto-tabname/src/lib.rs:31 | distinct tab indices below 2^32 stay distinct after the cast |
| AutoTabName.FirstFocused | nixpkgs/home-manager/modules/zellij-auto-tabname/src/lib.rs:27 | gives the index of the first focused pane, or says no pane is focused |
| AutoTabName.Wanted | nixpkgs/home-manager/modules/zellij-auto-tabname/src/lib.rs:27-29 | a name exactly when the first focused pane has a title, and then the prefix plus that title |
| AutoTabName.Step | nixpkgs/home-manager/modules/zellij-auto-tabname/src/lib.rs:29-35 | a rename is issued exactly when the wanted name differs from the remembered one; afterwards the tab has it; no other tab changes |
| AutoTabName.AutoTabName.constructor | nixpkgs/home-manager/modules/zellij-auto-tabname/src/lib.rs:4-8 | `Default`: an empty prefix and no names |
| AutoTabName.AutoTabName.Load | nixpkgs/home-manager/modules/zellij-auto-tabname/src/lib.rs:13-22 | the prefix is `config["prefix"]` if present, otherwise "> "; the names are kept |
| AutoTabName.AutoTabName.Update | nixpkgs/home-manager/modules/zellij-auto-tabname/src/lib.rs:24-41 | always true; other events change nothing; a pane update's loop gives the names and renames of the update specification |
| AutoTabName.FirstFocusedOnly | nixpkgs/home-manager/modules/zellij-auto-tabname/src/lib.rs:27-28 | when the first focused pane has no title, the tab is left alone even if a later focused pane has one |
| AutoTabName.UpdateFromFrame | nixpkgs/home-manager/modules/zellij-auto-tabname/src/lib.rs:26-38 | a tab the manifest does not mention keeps its remembered name |
| AutoTabName.UpdateFromSettles | nixpkgs/home-manager/modules/zellij-auto-tabname/src/lib.rs:26-38 | after an update, with distinct tabs, every tab with a wanted name remembers it |
| AutoTabName.UpdateFromSettled | nixpkgs/home-manager/modules/zellij-auto-tabname/src/lib.rs:32-35 | when every wanted name is already remembered, an update issues nothing and changes nothing |
| AutoTabName.UpdateIdempotent | nixpkgs/home-manager/modules/zellij-auto-tabname/src/lib.rs:32-35 | the same pane update applied a second time issues no renames and changes nothing |
| AutoTabName.UpdateRenamesWanted | nixpkgs/home-manager/modules/zellij-auto-tabname/src/lib.rs:26-38 | at most one rename per entry, each giving a tab of the manifest its wanted name, which starts with the prefix |
| AutoTab.FirstQualifying | nixpkgs/home-manager/modules/zellij-auto-tabname/src/main.rs:32 | gives the index of the first pane that is focused and has a title, or says there is none |
| AutoTab.TabRename | nixpkgs/home-manager/modules/zellij-auto-tabname/src/main.rs:32-35 | no rename without a qualifying pane, otherwise exactly one, to "> " plus that pane's title |
| AutoTab.TabRenames | nixpkgs/home-manager/modules/zellij-auto-tabname/src/main.rs:31-36 | at most one rename per entry, and none when no tab has a qualifying pane |
| AutoTab.Update | nixpkgs/home-manager/modules/zellij-auto-tabname/src/main.rs:29-39 | always true; other events issue nothing; a pane update's loop gives the renames of every entry, in order |
| AutoTab.RenamesComeFromTabs | nixpkgs/home-manager/modules/zellij-auto-tabname/src/main.rs:31-36 | at most one rename per entry, each to "> " plus a title of a qualifying pane of its tab |
| AutoTab.EveryQualifyingTabRenamed | nixpkgs/home-manager/modules/zellij-auto-tabname/src/main.rs:31-36 | every entry with a qualifying pane is renamed on every update: there is no de-duplication |
| AutoTab.SelectionRulesDiffer | nixpkgs/home-manager/modules/zellij-auto-tabname/src/main.rs:32 | an untitled focused pane before a titled one: `lib.rs` renames nothing, `main.rs` renames to "> vim" |
| AutoTab.FreshAutoTabNameAgrees | nixpkgs/home-manager/modules/zellij-auto-tabname/src/main.rs:31-35 | where each first focused pane has a title, a fresh `lib.rs` plugin with the default prefix issues the same renames as `main.rs` |

## Left out

- I/O of every kind is a parameter. This covers:
  - spawning `claude`, `git` and `op`;
  - writing stdin and collecting stdout;
  - the file system and `Scope` cleanup;
  - the clock, environment variables, the console and the terminal prompt.
- `JSON.parse`, `JSON.stringify`, `Schema` decoding and encoding, and `JSONSchema.make` are
  parameters: `decode`, `encode`, and the schema as a string.
- `git.ts` is not part of this model. Its results enter the `commit` trace as given outcomes.
- The `oi review` command (`oi/src/mod.ts` lines 183-207) is not modelled. It reuses the review and
  display steps that are modelled.
- `Command.string` from `@effect/platform` is not part of this model. The model takes it to return
  the collected standard output whatever the exit status, and to fail only when the command cannot
  be run.
- `readStdin` and the `Effect` runtime (spans, layers, `NodeRuntime`) are not modelled.
- The zellij host calls `request_permission`, `subscribe`, `render` and `eprintln` are not modelled.
- The order of a `HashMap` of panes is not modelled: the manifest is a sequence in the order the
  plugin happens to visit it.
- SecretCli.Get: reads the clock once. The source reads it in `isExpired` and again for
  `cachedAt`, and `inject` does the same.
- SecretCli.List: reads the clock once, for the expiry checks of the listing and for every relative
  time it prints. The source reads it again in each `isExpired` and each `formatRelativeTime` call.
- SecretCli.ListJsonHidesValues: the reported size is the number of characters of the value. The
  source's `.length` counts UTF-16 code units, which differs for characters outside the Basic
  Multilingual Plane.
- SecretCli.ListedOf: the `size` field is the character count, not the UTF-16 `.length`, as above.
- SecretCli.EntryLines: the verbose "Size:" line formats the character count, not the UTF-16
  `.length`, as above.
- SecretCli.FormatSize: is exact tenths arithmetic. The source uses floating-point `toFixed(1)`,
  which agrees for every size whose quotient by 1024 is exactly representable.
- Cache.WriteCacheEntry: a failed write leaves the directory unchanged. In the source, the
  `makeDirectory` before the failing write may already have created the directory.
- Cache.WriteCacheEntry: the stored file size is the number of characters, not UTF-8 bytes.
- Cache.WriteCacheEntry: a new file is listed after the existing ones. The real `readdir` order is
  not modelled.
- A key containing `/` is not modelled: such a key makes a file in a subdirectory.
- Strings.ToLower: lower-cases ASCII letters only, where `toLowerCase` follows Unicode.
- Duration.ParseDuration: digit strings have their exact value. Precision loss in `parseInt`
  beyond 2^53 is not modelled.
- Duration.FormatDuration: works on whole milliseconds. Fractional inputs are not modelled.
- Review.ReviewIssue: `line` is an integer where the schema allows any number.
- The `cause` fields of the tagged errors and of `AiError` are not modelled.
- Token usage in the finish part is not modelled: it is always undefined.
