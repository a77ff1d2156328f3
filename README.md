# Pyro build orchestrator: decision and counting logic

This project models the core of Pyro's build orchestrator (`BuildFacade`)
and its run-statistics record (`CompileData`) in Dafny, and proves what
that logic promises. Pyro is a build tool for Papyrus scripts. The core
covered here:

- **Construction.** The constructor counts the project's source scripts. It
  re-resolves every option key that passes the option-key filter, in
  dictionary order. When a log directory is set, it rotates the logs,
  keeping 5.
- **Log rotation** (`_rotate_logs`). The directory listing is taken as given
  and is not sorted. The keep count is first lowered by one to leave room
  for the log about to be written. The last-listed `.log` entries are
  kept; every other `.log` path is selected. A deletion is attempted
  for each selected path, and a refused deletion does not stop the loop.
- **Compile stage** (`try_compile`). It chooses between the sequential
  loop, a worker pool of `min(commands, worker limit)` and no run at all.
  It records the command count and adds one to the success count for each
  successful outcome. A failing command never stops the batch.
- **Incremental analysis** (`_find_modified_scripts`). For each source
  script it takes the first compiled path ending in `<script name>.pex`.
  It keeps that path when the file exists, its header reads, and the
  source was modified strictly before the compile time in the header. The
  result is then de-duplicated. Despite the function's name, the result is
  the set of compiled files that are *up to date*.
- **Anonymize stage** (`try_anonymize`). The stage is skipped exactly when
  no compiled file is up to date, no script is missing and incremental
  building is on. Otherwise every listed compiled path that exists is
  handed to the anonymizer, in order, and each missing one is reported.
- **Counters and summary lines.** `failed_count` is derived from the other
  counters. A new `CompileData` starts at zero. The summary lines of
  `build_time` and `to_string` report the succeeded, failed and script
  counts, and a right-to-left parser is proved to read those counts back.

Modules:

- `Wrappers`: `Option`.
- `Sequences`: order-preserving filters and de-duplication.
- `Text`: POSIX `basename`, `splitext` and `join`; `str.startswith` and
  `str.endswith`; `str(int)` and its inverse.
- `Performance`: `CompileData` and the summary line.
- `OptionFilter`: the option-key filter and the resolution loop.
- `LogRotation`: log rotation.
- `Staleness`: the incremental analysis.
- `CompileBatch`: strategy choice and success counting.
- `Build`: the `BuildFacade` class.

The following are parameters of the model rather than parts of it:

- the file system: file existence, modification times, the `.pex` header
  read, the log directory listing and deletion permission;
- the compiler run, as a function from a command to its outcome;
- the per-key option resolver.

## Model

| member | source | states |
|---|---|---|
| Performance.CompileData.FailedCount | pyro/Performance/CompileData.py:17-19 | failed + succeeded = commands run, and failed is non-negative exactly when succeeded ≤ commands run |
| Performance.NewCompileData | pyro/Performance/CompileData.py:7-12 | a new record takes no arguments; its script, success and command counts are all 0, and so its failed count is 0 |
| Performance.CompileData.ToString | pyro/Performance/CompileData.py:21-29 | the line starts with `Compile time: ` and reads back as (succeeded, failed, scripts) in that order, whatever the two time texts are |
| Performance.Summary | pyro/Performance/CompileData.py:25-29 | the summary line's layout shared by `to_string` and `build_time` (its partner is the parser below) |
| Performance.ParseSummaryCounts | pyro/Performance/CompileData.py:25-29 | reads the three counts back off the end of a line, right to left |
| Performance.SummaryRoundTrip | pyro/Performance/CompileData.py:25-29 | parsing a summary line from the right returns exactly the three counts written into it, negative counts included |
| Performance.SummaryStartsWithHeading | pyro/Performance/CompileData.py:25 | a summary line begins with its heading |
| Build.BuildFacade.FailedCount | pyro/BuildFacade.py:34-36 | the orchestrator's failed count plus its success count is its command count |
| Build.BuildFacade.BuildTime | pyro/BuildFacade.py:38-47 | the line starts with `Compilation time: ` and reads back as (success count, failed count, scripts count) |
| Build.LogDir | pyro/BuildFacade.py:67 | a log directory is present exactly when `log_path` is a non-empty string, and it is that string |
| Build.NoParallel | pyro/BuildFacade.py:149 | Python truthiness of `no_parallel`; false when absent |
| Build.NoIncrementalBuild | pyro/BuildFacade.py:170 | Python truthiness of `no_incremental_build`; false when absent |
| Build.WorkerLimit | pyro/BuildFacade.py:155 | `worker_limit` when it is an integer, 0 otherwise |
| Build.BuildFacade.constructor | pyro/BuildFacade.py:49-68 | scripts count = number of source paths, counters zero; options = the in-order resolution fold with the same keys; with a log directory, the attempted deletions are the rotation selection for keep count 5, and none without one; refused deletions are those the file system turns down |
| OptionFilter.IsResolved | pyro/BuildFacade.py:58-63 | the option-key filter: not one of `args`, `input_path`, `anonymize`, `package`, `zip`, `zip_compression`; no `ignore_`, `no_`, `force_` or `resolve_` prefix; no `_token` suffix (pinned on examples below) |
| OptionFilter.ResolveFold | pyro/BuildFacade.py:57-64 | the options after the key loop, as a fold over the keys in order (properties in the rows below) |
| OptionFilter.ResolveOptions | pyro/BuildFacade.py:57-64 | the loop over the option keys yields the fold that overwrites each key passing the filter with the resolver's value, given the options as they stand at its turn |
| OptionFilter.ResolveKeepsKeys | pyro/BuildFacade.py:57-64 | resolution neither adds nor removes an option |
| OptionFilter.ResolveKeepsUnresolved | pyro/BuildFacade.py:58-63 | a key the filter skips (or that is not iterated) keeps its original value |
| OptionFilter.ResolvedKeyValue | pyro/BuildFacade.py:57-64 | a key that passes the filter ends with the resolver's value computed on the options as resolved up to that key |
| OptionFilter.SkippedExamples | pyro/BuildFacade.py:58-63 | `no_parallel` (prefix), `zip` (exact name) and `access_token` (suffix) are skipped |
| OptionFilter.ResolvedExample | pyro/BuildFacade.py:58-64 | `zip_output_path` is resolved: the names are matched exactly, not as prefixes |
| LogRotation.LogFiles | pyro/BuildFacade.py:91 | a listed name is a log file exactly when it ends with `.log` |
| LogRotation.JoinAll | pyro/BuildFacade.py:95 | one joined path per log name |
| LogRotation.JoinAllAt | pyro/BuildFacade.py:95 | the i-th path is the directory joined with the i-th log name |
| LogRotation.SliceFrom | pyro/BuildFacade.py:97 | Python `s[start:]`: a negative start counts from the end, a non-negative one from the front, and both are clamped to the sequence |
| LogRotation.LogsToRemove | pyro/BuildFacade.py:84-98 | nothing is selected when the log path is not a directory, or when there are at most keep count − 1 `.log` entries |
| LogRotation.RemovesOnlyLogFiles | pyro/BuildFacade.py:91-98 | every selected path is the directory joined with a listed name ending in `.log`, and itself ends in `.log` |
| LogRotation.RotationRemovesFirstListed | pyro/BuildFacade.py:89-98 | for keep count ≥ 2 and a listing of distinct relative names, the selection is exactly the `.log` paths before the last keep count − 1, in listing order, so keep count − 1 remain |
| LogRotation.KeepOneRemovesNothing | pyro/BuildFacade.py:89-97 | with keep count 1 the retained slice `[-0:]` is the whole list, so nothing is removed |
| LogRotation.StartupRotationOfSix | pyro/BuildFacade.py:68 | the start-up call on six old logs removes the two listed first |
| LogRotation.SelectionOnDistinct | pyro/BuildFacade.py:97-98 | on distinct paths, dropping the members of the last k keeps exactly the prefix before them |
| LogRotation.JoinAllNoDups | pyro/BuildFacade.py:95 | distinct relative names give distinct paths |
| LogRotation.LogPathsDistinct | pyro/BuildFacade.py:91-95 | distinct relative names in the listing give distinct `.log` paths |
| LogRotation.RotateLogs | pyro/BuildFacade.py:84-104 | a deletion is attempted for exactly the selected paths; the refused ones are those without permission |
| LogRotation.RemoveAll | pyro/BuildFacade.py:100-104 | every path is attempted, in order; a refusal is recorded and does not stop the loop |
| Staleness.FirstEndingWith | pyro/BuildFacade.py:113-117 | None exactly when no path ends with the suffix; otherwise the path at the first index that does |
| Staleness.Contribution | pyro/BuildFacade.py:110-132 | what one source adds: its first suffix match, when that file exists, its header reads and the source is strictly older; whatever it adds is a listed compiled path |
| Staleness.UpToDate | pyro/BuildFacade.py:110-132 | the declarative membership condition the loop is proved against |
| Staleness.ContributionIsUpToDate | pyro/BuildFacade.py:110-132 | a source contributes a compiled path exactly when that path is its first suffix match, exists, has a readable header and is strictly newer than the source |
| Staleness.CollectMembers | pyro/BuildFacade.py:109-132 | a value is collected exactly when some item contributes it |
| Staleness.CandidatesMembers | pyro/BuildFacade.py:109-132 | a path is appended by the loop exactly when some source contributes it |
| Staleness.Collect | pyro/BuildFacade.py:107-132 | the list a loop builds by appending each item's contribution: at most one entry per item |
| Staleness.Candidates | pyro/BuildFacade.py:107-132 | the list the loop builds before de-duplication: at most one entry per source |
| Staleness.ModifiedScripts | pyro/BuildFacade.py:106-134 | the analysis result, de-duplicated: at most one entry per source |
| Staleness.ModifiedScriptsSpec | pyro/BuildFacade.py:106-134 | the result has no duplicates, is a subset of the compiled paths, and holds a path exactly when it is up to date for some source |
| Staleness.EqualTimesExclude | pyro/BuildFacade.py:131-132 | equal modification and compile times leave the compiled file out |
| Staleness.SuffixMatchIsLoose | pyro/BuildFacade.py:113 | `out/XFoo.pex`, listed first, is taken as the compiled file of script `Foo` |
| Build.ScriptContribution | pyro/BuildFacade.py:110-132 | one pass of the loop, with its three early skips and the strict comparison, yields exactly the source's contribution |
| Build.BuildFacade.FindModifiedScripts | pyro/BuildFacade.py:106-134 | the loop with its three early skips and strict comparison, followed by de-duplication, computes the analysis result |
| CompileBatch.ChooseStrategy | pyro/BuildFacade.py:149-157 | sequential iff parallelism is off or there is exactly one command; pooled iff neither and more than one command; idle iff neither and no command; the pool has min(commands, worker limit) workers |
| CompileBatch.CountSuccesses | pyro/BuildFacade.py:150-152 | the number of successes is at most the number of commands |
| CompileBatch.CountOutcomes | pyro/BuildFacade.py:158-160 | the successes counted over the pool's outcomes, at most one per outcome |
| CompileBatch.Outcomes | pyro/BuildFacade.py:158 | the pool yields one outcome per command, in command order |
| CompileBatch.PooledMatchesSequential | pyro/BuildFacade.py:150-160 | the pooled loop counts the same successes as the sequential loop |
| CompileBatch.CountIsMultiplicity | pyro/BuildFacade.py:158-160 | the count is the number of successful outcomes |
| CompileBatch.CountOrderIndependent | pyro/BuildFacade.py:158-160 | the count does not depend on the order the outcomes arrive in |
| CompileBatch.ThreeCommandsOneFailing | pyro/BuildFacade.py:149-160 | three commands with the second failing and worker limit 2: a pool of 2, two successes |
| Build.BuildFacade.TryCompile | pyro/BuildFacade.py:141-162 | command count = number of commands; success count grows by the number of successful outcomes over all the commands, so a failure never stops the batch and no command is skipped; the strategy is the one chosen above, with 1 to \|commands\| workers; from a fresh orchestrator, success ≤ command count and failed ≥ 0 |
| Build.AnonymizeExisting | pyro/BuildFacade.py:174-179 | the loop hands exactly the existing paths to the anonymizer, in order, and reports exactly the missing ones |
| Build.BuildFacade.TryAnonymize | pyro/BuildFacade.py:166-179 | skipped iff the analysis is empty, no script is missing and incremental building is on; otherwise exactly the existing compiled paths are anonymized, in order, and exactly the missing ones are reported |
| Sequences.Filter | pyro/BuildFacade.py:91 | the kept elements are exactly those of the input the predicate accepts |
| Sequences.Rejected | pyro/BuildFacade.py:174-177 | the rejected elements are exactly those of the input the predicate turns down |
| Sequences.FilterNotIn | pyro/BuildFacade.py:98 | the result is no longer than the input |
| Sequences.FilterNotInMembers | pyro/BuildFacade.py:98 | an element survives exactly when it is listed and not dropped |
| Sequences.FilterNotInSelf | pyro/BuildFacade.py:97-98 | when everything is retained, nothing is removed |
| Sequences.FilterNotInSuffix | pyro/BuildFacade.py:97-98 | on distinct elements, dropping the last k by membership cuts them off |
| Sequences.FilterNotInNothing | pyro/BuildFacade.py:98 | dropping values that do not occur keeps everything |
| Sequences.FilterNotInIgnoresOther | pyro/BuildFacade.py:98 | an extra dropped value that does not occur changes nothing |
| Sequences.Uniqify | pyro/BuildFacade.py:134 | the assumed behaviour of `PathHelper.uniqify`: first occurrences kept, in order; never longer than its input |
| Sequences.UniqifySpec | pyro/BuildFacade.py:134 | de-duplication keeps exactly the input's elements, each once, and is no longer than the input |
| Sequences.UniqifyNoDupsIdentity | pyro/BuildFacade.py:134 | a list without duplicates is left as it is |
| Sequences.UniqifyAppend | pyro/BuildFacade.py:134 | a repeated element is dropped; a new one is appended at the end |
| Sequences.FilterNoDups | pyro/BuildFacade.py:91 | filtering keeps a list free of duplicates |
| Text.EndsWithConcat | pyro/BuildFacade.py:91 | a string extended on the left keeps its suffix |
| Text.LastIndexOf | pyro/BuildFacade.py:110 | None exactly when the character is absent; otherwise an index holding it with none after it |
| Text.BaseName | pyro/BuildFacade.py:110 | the base name is the whole path or exactly what follows the last `/` in it: it ends the path, holds no `/`, and is preceded by a `/` unless it is the whole path |
| Text.StripExt | pyro/BuildFacade.py:110 | the root is the whole name, or the prefix before its last `.` when that prefix is not all dots (the converse in the next row) |
| Text.StripExtCuts | pyro/BuildFacade.py:110 | the name is cut exactly when some `.` in it has a non-dot before it, so `Foo.psc` loses its extension |
| Text.ScriptName | pyro/BuildFacade.py:110 | `splitext(basename(path))[0]` (properties in the two rows above and the one below) |
| Text.ScriptNameNoSlash | pyro/BuildFacade.py:110 | the script name is a prefix of the path's base name, so it holds no `/` |
| Text.LastIndexOfMiddle | pyro/BuildFacade.py:110 | the last occurrence is the one in the middle when none follows it |
| Text.ScriptNameOfPath | pyro/BuildFacade.py:110 | the script name of `dir/Name.ext` is `Name` |
| Text.Join | pyro/BuildFacade.py:95 | POSIX `os.path.join` of two components: an absolute name replaces the directory, otherwise a `/` is inserted unless the directory is empty or ends in one (properties in the two rows below) |
| Text.JoinKeepsSuffix | pyro/BuildFacade.py:95 | a joined path ends with the joined name, so a `.log` name gives a `.log` path |
| Text.JoinInjective | pyro/BuildFacade.py:95 | joining to a fixed directory is injective on relative names |
| Text.DigitChar | pyro/Performance/CompileData.py:27-29 | the character is a digit with the given value |
| Text.NatDigits | pyro/Performance/CompileData.py:27-29 | a natural number renders as a non-empty string of digits with no leading zero |
| Text.NatDigitsRoundTrip | pyro/Performance/CompileData.py:27-29 | reading a rendered natural number gives it back |
| Text.IntString | pyro/Performance/CompileData.py:27-29 | `str(n)` is non-empty and ends in a digit |
| Text.TrailingDigits | pyro/Performance/CompileData.py:27-29 | the count of trailing digits is at most the length |
| Text.TrailingDigitsAppend | pyro/Performance/CompileData.py:27-29 | after text that does not end in a digit, the trailing digits are exactly those appended |
| Text.ParseDigitsAfter | pyro/Performance/CompileData.py:27-29 | digits appended after a non-digit are read back with the text before them |
| Text.IntStringRoundTrip | pyro/Performance/CompileData.py:27-29 | `str(n)` written after text that does not end in a digit or `-` is read back as n, with that text |

## Left out

- The timer (`TimeElapsed`) is left out. This covers the start and end timestamps `try_compile` records, the elapsed and average times, and their `.3f` formatting. These are floating point and clock reads, so the two time texts enter the summary lines as arbitrary strings.
- `CompileData.__post_init__` is left out. It only replaces the timer with a fresh one.
- The JSON option dump and the project-data log record are left out. So are `os.makedirs`, `JsonLogger` and the log file's timestamped name. These are I/O.
- The pool mechanics are left out: `freeze_support`, `close`/`join` and `_limit_priority` (process priority). Only the pool size and the fold over outcomes are modelled. Outcomes are taken in command order, as `imap` yields them.
- `try_pack` and `try_zip` are left out. Each is a single delegation to the packager.
- The following collaborators are parameters, not code: the `.pex` header reader, the anonymizer, the compiler runner and the project's reflective per-key resolvers (`get_<key>`). The header reader is a function returning None for an unknown magic number. The runner is a function from command to outcome. The resolvers are one function of the key and the current options.
- `PathHelper.uniqify` is not part of this model. It is taken to be an order-preserving de-duplication that keeps first occurrences.
- `ProcessState` is reduced to success and failure, since only success is counted.
- Log rotation keeps the last-listed `.log` entries, as the code does. The listing is never sorted, so the newest logs are kept only when the file system lists them in creation order; `os.listdir` promises no order.
- Paths follow POSIX rules (`/` separator, no drive letters).
- `os.remove` and its `PermissionError` are a per-path permission predicate. Other errors from the file system are not modelled.
- Build.BuildFacade.TryCompile: requires an integer worker limit of at least 1 when the pool runs. A smaller limit makes `multiprocessing.Pool` raise, which the model does not cover.
- Build.BuildFacade.TryCompile: the count does not reset between calls, as in the source. So `success ≤ command count` and `failed ≥ 0` are proved only for a call on an orchestrator whose success count is still 0, the single call a build makes.
- Build.BuildFacade.constructor: the log directory counts as set when `log_path` is a non-empty string. Its existence as a directory is the listing parameter being present.
