# Auto Company cycle controller — a Dafny model

Auto Company runs an AI coding engine (Codex) over and over on one project. Every
*cycle* builds a prompt from `PROMPT.md` and the shared consensus file
`memories/consensus.md`, runs the engine, writes its output to a cycle log, and
classifies the result. A circuit breaker cools the loop down after `MAX_ERRORS`
failed cycles in a row. Old cycle logs are rotated away, and a stop marker ends the
loop. A small web dashboard edits `.env`, drops an idea into the consensus, pauses
and resumes the loop, and shows the cycle history and the log tail.

This project models that bookkeeping and proves what it promises:

- `strings.dfy` (modules `Options`, `Strings`): the JavaScript string operations the
  core relies on (`split`/`join`, `trim`, `toLowerCase`, `padStart`, `includes`,
  decimal numerals), with their round trips.
- `sorting.dfy` (module `Sorting`): the default `Array.prototype.sort` order on
  strings, an insertion sort proved to produce it, and `reverse`.
- `config.js` → `config.dfy` (module `Config`, class `Config.Config`): the `.env`
  line parser, the environment override, the default table, and the
  falsy-to-`null` `get`, `set` and `getAll`.
- `logger.js` → `logger.dfy` (module `Logger`, class `Logger.Logger`): the levels,
  the constructor's level choice (debug can never be chosen), the threshold filter,
  the line format, and the append-only console and log file.
- `loop.js` → `cycle_logs.dfy` (module `CycleLogs`): cycle-log names, their
  lexicographic order, and the retention rule.
- `loop.js` → `loop.dfy` (module `Loop`, class `Loop.AutoLoop`):
  - the result classifier, the prompt template and the engine arguments;
  - the state record and the one-slot consensus backup;
  - a cycle as a function of the state and of what the engine did;
  - the `while (this.running)` loop, `cleanup` and `stop`;
  - the `AutoLoop` class, whose methods are proved to follow those functions.
- `dashboard/server.js` → `dashboard.dfy` (module `Dashboard`, class
  `Dashboard.Dashboard`): the data logic of the config, idea, cycles, logs, status
  and pause endpoints.

The engine is an oracle. Each cycle receives, as input, what the engine did:
- either it exited with `{code, stdout, stderr}` or it threw;
- the consensus text it left behind;
- the two clock readings the cycle takes.

The file system is a value:
- the prompt, the consensus and its backup;
- every state record written, in order;
- the log directory, the stop marker and the PID file.

Sleeps are recorded as events, not performed.

## Model

| member | source | states |
|---|---|---|
| Strings.JoinSplit | src/config.js:27 | joining the pieces of `split('\n')` with `\n` gives back the text, so no line is lost or altered |
| Strings.SplitJoin | src/dashboard/server.js:89-93 | splitting a `\n`-join of pieces that contain no `\n` returns exactly those pieces |
| Strings.Trim | src/config.js:30 | the trimmed text is the original with exactly its leading and trailing white space removed: it starts right after the leading run, everything after it is white space, and it begins and ends with non-white space |
| Strings.PadStart | src/loop.js:105 | `padStart` never truncates: the result has length max(len, width), ends with the input and is padded with the fill character |
| Strings.DecimalRoundTrip | src/loop.js:105 | the decimal numeral of a cycle number reads back as that number |
| Sorting.SortSorted | src/loop.js:292-294 | the sort of distinct names is strictly ascending in UTF-16 code-unit order and has the same elements |
| Sorting.LexTransitive | src/loop.js:294 | the default string order is transitive |
| Sorting.LexTotal | src/loop.js:294 | the default string order is total |
| Sorting.RankInSorted | src/loop.js:296-297 | in a strictly sorted list, the element at index i has exactly len - 1 - i larger names |
| Sorting.Reverse | src/dashboard/server.js:178 | `reverse` puts element len - 1 - i at index i |
| Sorting.ReverseElems | src/dashboard/server.js:178 | `reverse` keeps the same elements |
| Config.ParseInt | src/config.js:49-69 | `parseInt` gives an integer or `NaN` |
| Config.ParseIntText | src/config.js:49-69 | `parseInt` of an integer's numeral is that integer, so numeric defaults read back as written |
| Config.MatchEnvLine | src/config.js:28 | a match splits the line at its first `=`; the key is non-empty and has no `=`; the value has no line terminator; a line with no `=`, a leading `=`, or a line terminator after the `=` is rejected |
| Config.MatchEnvLineWritten | src/config.js:28 | a `key=value` line with a non-empty key free of `=` and a value free of line terminators matches as (key, value) |
| Config.EnvUntouched | src/config.js:27-33 | a variable that no line of `.env` assigns keeps its environment value, or stays absent |
| Config.EnvLastLineWins | src/config.js:27-33 | the last `.env` line assigning a key sets its value, overriding earlier lines and the environment |
| Config.ApplyEnvFile | src/config.js:24-33 | walking the lines yields the environment after applying every line in order |
| Config.Defaults | src/config.js:36-70 | the loaded table holds exactly the nineteen settings |
| Config.Lookup | src/config.js:75-77 | `get` returns the stored value exactly when it is present and truthy; missing and falsy values read as `null` |
| Config.LookupDefault | src/config.js:36-77 | reading a loaded setting gives its table value exactly when that value is truthy |
| Config.UnsetReadsDefault | src/config.js:40-69 | with the variable unset or empty, numeric settings read their fixed defaults (30, 1800, 300, 3600, 5, 200, 3456), text settings theirs ('codex', 'danger-full-access', 'info', or `null` for an empty `MODEL`), and path settings their place under the project directory |
| Config.EnvOverridesNumber | src/config.js:49-69 | a set numeric variable is read through `parseInt`; 0 and `NaN` read as `null` |
| Config.Config.constructor | src/config.js:14-17 | a new configuration is empty and has no project directory |
| Config.Config.Load | src/config.js:19-73 | `load` applies `.env` over the environment when the file exists and then rebuilds the table from the defaults |
| Config.Config.Get | src/config.js:75-77 | `get(k)` is the stored value when it is truthy and `null` otherwise |
| Config.Config.Set | src/config.js:79-81 | `set(k, v)` then `get(k)` gives `v` when `v` is truthy and `null` otherwise; other keys read as before |
| Config.Config.GetAll | src/config.js:83-85 | the copy equals the configuration, falsy entries included, and reads the same through `get`; it is a value, so later changes to it cannot reach the configuration |
| Logger.LevelNamed | src/logger.js:10-15 | a level name maps to the level with that name; unknown names map to none |
| Logger.ConfiguredRank | src/logger.js:30 | the threshold is between 1 and 3; it is 1 (info) unless `LOG_LEVEL` names warn or error |
| Logger.DebugNeverEmitted | src/logger.js:30-43 | debug messages are never emitted and error messages always are; `LOG_LEVEL=debug` yields info |
| Logger.Format | src/logger.js:37-40 | a line starts with `[ts] [LEVEL] [` and ends with `] message` |
| Logger.ParseFormat | src/logger.js:37-40 | a formatted line parses back into its timestamp, level, name and message when the timestamp and name hold no `]` |
| Logger.UpperNamesLevel | src/logger.js:39 | the upper-cased level name identifies the level |
| Logger.OutputExcerpt | src/logger.js:91-93 | exactly the first 500 characters are kept from longer output; shorter output is kept whole |
| Logger.Logger.constructor | src/logger.js:18-31 | the logger takes its threshold from `LOG_LEVEL`, writes to `auto-company.log` in the log directory, and starts with nothing written |
| Logger.Logger.Write | src/logger.js:42-56 | below the threshold nothing changes; otherwise the formatted line goes to the console and, with `\n`, to the log file, or a failed append is reported on stderr without stopping the console line |
| Logger.FailureReport | src/logger.js:53-55 | a failed append is reported as `Failed to write to log file: ` followed by the error's message |
| Logger.Logger.Info | src/logger.js:62-64 | an info line is emitted at threshold 1 and suppressed above it; when emitted it goes to the console and to the log file, or, if the append fails, a report goes to stderr instead |
| Logger.Logger.Debug | src/logger.js:58-60 | a debug call never changes the console or the log file |
| Logger.Logger.Warn | src/logger.js:66-68 | a warn line is emitted at thresholds up to 2, to the console and to the log file or as a stderr report when the append fails; at 3 nothing changes |
| Logger.Logger.Error | src/logger.js:70-72 | an error line is always emitted: to the console, and to the log file or as a stderr report when the append fails |
| Logger.Logger.CycleStart | src/logger.js:75-79 | at info level exactly three lines are emitted: the rule, `CYCLE #n STARTED`, the rule, appended to the log file or, when appends fail, reported three times on stderr; above info nothing changes |
| Logger.Logger.CycleEnd | src/logger.js:81-84 | at info level exactly two lines are emitted: the summary and the closing rule, appended to the log file or, when appends fail, reported twice on stderr; above info nothing changes |
| Logger.Logger.CommandStart | src/logger.js:87-89 | the debug-level command line never reaches the console or the log file |
| Logger.Logger.CommandOutput | src/logger.js:91-93 | the debug-level output excerpt never reaches the console or the log file |
| Logger.Logger.CommandError | src/logger.js:95-97 | `Command failed: …` is always emitted at error level, to the console and to the log file or as a stderr report when the append fails |
| CycleLogs.Timestamp | src/loop.js:321-324 | the timestamp is the first 19 characters of the ISO string and holds no `:` or `.` |
| CycleLogs.TimestampOfIso | src/loop.js:321-324 | for an ISO string `YYYY-MM-DDTHH:MM:SS.sssZ` the timestamp is `YYYY-MM-DDTHH-MM-SS` |
| CycleLogs.CycleNumber | src/loop.js:105 | the padded cycle number has at least four digits |
| CycleLogs.CycleLogName | src/loop.js:103-106 | every cycle-log name starts with `cycle-` and ends with `.log`, so rotation and the dashboard both see it |
| CycleLogs.NameParts | src/loop.js:105 | the name is `cycle-`, the padded number, `-`, the timestamp and `.log` |
| CycleLogs.FixedDigitsOrder | src/loop.js:105 | zero-padded numerals of one width are ordered as the numbers are |
| CycleLogs.CycleLogOrder | src/loop.js:103-106 | below cycle 10000 an earlier cycle's log sorts before a later one's, whatever the timestamps |
| CycleLogs.CycleLogOrderBreaks | src/loop.js:105 | from cycle 10000 on the order breaks: cycle 10000's log sorts before cycle 9999's |
| CycleLogs.CycleLogsOf | src/loop.js:292-293 | the filter keeps only cycle-log names from the listing |
| CycleLogs.CycleLogsOfExact | src/loop.js:292-293 | the filter keeps exactly the cycle-log names of the listing, each once |
| CycleLogs.Retain | src/loop.js:288-303 | rotation only deletes files: what is left keeps its contents |
| CycleLogs.RetainKeepsNewest | src/loop.js:296-300 | a deleted file is a cycle log that sorts before every kept cycle log |
| CycleLogs.RetainSorted | src/loop.js:292-300 | rotation deletes exactly the first n - MAX_LOGS names of the sorted cycle-log listing |
| CycleLogs.RetainCount | src/loop.js:296-300 | exactly min(n, MAX_LOGS) cycle logs remain, none when MAX_LOGS is at most 0, and every other file remains |
| Loop.CheckResult | src/loop.js:240-269 | the loop over the nine patterns returns exactly the acceptance rule |
| Loop.LimitMatchIgnoresCase | src/loop.js:251-265 | output holding any casing of a limit pattern is rejected, whatever the exit code |
| Loop.ExitCodeRule | src/loop.js:242-248 | a zero exit code with no limit pattern is accepted; a non-zero code with stdout under 5 characters (so under 10 UTF-16 units) is rejected |
| Loop.BuildPrompt | src/loop.js:175-215 | no prompt file means failure; otherwise the prompt is exactly the file, the guardrails, the consensus (or the first-cycle note) and the cycle footer, in that order and with nothing between them |
| Loop.ExecArgs | src/loop.js:217-238 | `exec -c sandbox_mode="…"`, then `-m model` only when a model is set, then `-o` with the cycle's output file, then the prompt |
| Loop.Numeric | src/loop.js:153-161 | a numeric setting (also `MAX_LOGS` at src/loop.js:290) reads as its number, or as 0 when `get` returns `null` |
| Loop.LoadedTableNumeric | src/config.js:49-69 | every numeric setting of a loaded table is a number or `NaN`, never text |
| Loop.RestoreUndoesChanges | src/loop.js:271-286 | a restore after a backup undoes edits to the consensus; with no backup a restore changes nothing; both are idempotent |
| Loop.RanFrame | src/loop.js:94-133 | the try part counts the cycle and touches only the consensus, the engine calls and the logs |
| Loop.SuccessEffect | src/loop.js:122-130 | the success branch clears the consecutive errors and saves one `running` record |
| Loop.FailureEffect | src/loop.js:135-169 | the catch block counts the error, restores the backup, saves `cooldown` and sleeps only when the breaker trips, and saves `error` last |
| Loop.CycleCounts | src/loop.js:94-173 | every cycle counts once; the error count grows by one exactly on failure; a cooldown sleep is added exactly when the breaker trips; earlier state writes are kept |
| Loop.CycleSuccess | src/loop.js:120-130 | success clears the consecutive errors, keeps the error count, saves one `running` record and keeps the engine's consensus |
| Loop.CycleFailure | src/loop.js:135-169 | failure restores the backup when there is one; the breaker trips iff the incremented count reaches `MAX_ERRORS`; the last record is `error` with the final counts |
| Loop.RanCall | src/loop.js:108-117 | with a prompt file the engine is called exactly once more, with the built prompt as the last argument |
| Loop.RanLogs | src/loop.js:113-117 | with a prompt file, the cycle log holds the engine's stdout exactly when the engine resolves |
| Loop.RanEngine | src/loop.js:94-117 | running the engine: no call and no log without the prompt file; otherwise one call with the prompt and a log iff it resolved |
| Loop.CycleEngineCall | src/loop.js:108-117 | the engine runs exactly when the prompt file exists, with the built prompt last; the cycle log is written exactly when the engine resolves, with its stdout |
| Loop.BreakerBound | src/loop.js:153-166 | consecutive errors stay below `MAX_ERRORS` ≥ 1; with `MAX_ERRORS` ≤ 1 they are 0 after every cycle |
| Loop.CycleFailureOrSuccess | src/loop.js:129-165 | after a cycle the consecutive count is 0 on success or a trip, and one more otherwise |
| Loop.CyclesCount | src/loop.js:94-173 | over k cycles the loop count grows by k, the error count by at most k, and never passes the loop count |
| Loop.KFailuresTrip | src/loop.js:153-166 | k = MAX_ERRORS failing cycles in a row from 0, whatever the cause (no prompt file, an engine that throws, a rejected result), trip the breaker on the k-th and only there |
| Loop.CyclesSplit | src/loop.js:41-56 | a run of cycles followed by one more is that cycle applied to the run's end state |
| Loop.IntervalSleepsAppend | src/loop.js:53-55 | interval sleeps of a concatenation add up |
| Loop.PassCounts | src/loop.js:41-55 | one pass of the loop counts one cycle and adds no interval sleep of its own |
| Loop.LoopEnds | src/loop.js:41-58 | once the loop ends, `running` is false, the marker and PID file are gone and `stopped` is saved last; every cycle except one ended by the marker is followed by an interval sleep; `cleanup` is src/loop.js:330-344 |
| Loop.CleanedUpEffect | src/loop.js:330-344 | `cleanup` clears the flag and the PID file and saves `stopped` last, changing no counter |
| Loop.MarkerCheckedAfterCycle | src/loop.js:41-50 | a marker present at start still lets one cycle run, and the loop then ends without an interval sleep |
| Loop.EngineMissingState | src/loop.js:23-35 | when the engine is missing, `start` fails with `running` set and runs no cycle |
| Loop.WithoutStep | src/loop.js:298-300 | deleting one more file removes just that name |
| Loop.DeleteFiles | src/loop.js:298-300 | the deletion loop leaves the directory without exactly the listed names |
| Loop.ListDirectory | src/loop.js:292 | a directory listing names every file exactly once |
| Loop.SortedCycleLogs | src/loop.js:292-294 | filtering and sorting a listing yields the directory's cycle logs, strictly ascending |
| Loop.AutoLoop.constructor | src/loop.js:13-21 | a new loop has zero counters and is not running |
| Loop.AutoLoop.SaveState | src/loop.js:305-319 | one record is appended with the status, the counters, the engine, the model (or `default`) and `Cycle #n` or `Stopped` |
| Loop.AutoLoop.BackupConsensus | src/loop.js:271-276 | the backup becomes a copy of the consensus when the consensus exists |
| Loop.AutoLoop.RestoreConsensus | src/loop.js:278-286 | the consensus becomes the backup when a backup exists |
| Loop.AutoLoop.RotateLogs | src/loop.js:288-303 | after the deletion loop the directory is the retention rule applied to it, nothing else changed |
| Loop.AutoLoop.TryCycle | src/loop.js:94-133 | the count, the prompt, the engine call and the log write follow the cycle specification; the result is the classification |
| Loop.AutoLoop.CatchFailure | src/loop.js:135-169 | the catch block follows the failure specification |
| Loop.AutoLoop.RunCycle | src/loop.js:94-173 | one cycle follows the cycle specification, so every cycle lemma holds of it |
| Loop.AutoLoop.Cleanup | src/loop.js:330-344 | `cleanup` follows its specification |
| Loop.AutoLoop.Stop | src/loop.js:346-348 | `stop` clears only the running flag |
| Loop.AutoLoop.RunPass | src/loop.js:41-46 | one pass of the `while` body follows the pass specification: the cycle, then any `stop()` or marker |
| Loop.AutoLoop.Start | src/loop.js:23-59 | the `while` loop follows the loop specification, and so ends as `LoopEnds` says |
| Dashboard.Keys | src/dashboard/server.js:89 | the keys are listed in insertion order |
| Dashboard.Put | src/dashboard/server.js:84-87 | assigning a key makes it read the value, leaves other keys alone, and appends the key only when it is new |
| Dashboard.PutWellFormed | src/dashboard/server.js:84-87 | assigning a one-line entry keeps the entries writable |
| Dashboard.PutNew | src/dashboard/server.js:56 | a new key goes at the end |
| Dashboard.ReadEnvVars | src/dashboard/server.js:50-58 | the `forEach` over the lines builds exactly the parsed entries |
| Dashboard.EntriesAfterAppend | src/dashboard/server.js:54-56 | parsing two runs of lines is parsing the first and then the second |
| Dashboard.ParsedWellFormed | src/dashboard/server.js:54-56 | lines without `\n` parse into writable entries |
| Dashboard.ParseEnvWellFormed | src/dashboard/server.js:54-56 | every parsed `.env` is writable: keys non-empty without `=`, values without line terminators |
| Dashboard.ParseLastLineWins | src/dashboard/server.js:54-56 | the untrimmed parse reads each key's value from its last line |
| Dashboard.ParseKeepsKey | src/dashboard/server.js:54-56 | lines that do not assign a key leave its value alone |
| Dashboard.EntryLines | src/dashboard/server.js:90 | each entry becomes the line `k=v` |
| Dashboard.Serialize | src/dashboard/server.js:89-93 | the written file ends with `\n`; no entries give a file of just `\n` |
| Dashboard.JoinTrailing | src/dashboard/server.js:93 | the trailing `\n` is an extra empty piece |
| Dashboard.ReadBackLines | src/dashboard/server.js:54-91 | parsing the written lines appends those entries in order |
| Dashboard.SerializeRoundTrip | src/dashboard/server.js:89-93 | re-parsing the written file returns the entries, in order, when they are well formed |
| Dashboard.SetIf | src/dashboard/server.js:84-87 | a guarded assignment sets its key only when the guard holds and keeps other keys and their order |
| Dashboard.SetAllEffect | src/dashboard/server.js:84-87 | guarded assignments of distinct keys each take effect by their own guard |
| Dashboard.MergeIsSetAll | src/dashboard/server.js:84-87 | the four field rules are four guarded assignments |
| Dashboard.MergeEffect | src/dashboard/server.js:84-87 | `ENGINE`, `INTERVAL`, `TIMEOUT` are set only when truthy; `MODEL` whenever supplied, even `''`; every other key and the key order are kept |
| Dashboard.SetIfWellFormed | src/dashboard/server.js:84-87 | a guarded one-line assignment keeps entries writable |
| Dashboard.MergeWellFormed | src/dashboard/server.js:84-87 | merging one-line fields into writable entries keeps them writable |
| Dashboard.ConfigWriteReadBack | src/dashboard/server.js:75-93 | after an update with one-line fields, reading `.env` back gives exactly the merged entries |
| Dashboard.WithIdea | src/dashboard/server.js:146-163 | the new consensus is exactly the old one (or `''`), the `New Idea Received` heading, the idea and the request to act, in that order |
| Dashboard.IdeaReachesPrompt | src/dashboard/server.js:146-163 | the next cycle's prompt, as `buildPrompt` (src/loop.js:186-211) builds it, contains the submitted idea |
| Dashboard.ListedCycleLogs | src/dashboard/server.js:175-178 | filtering, sorting and reversing keeps exactly the listing's cycle-log names |
| Dashboard.ListCycles | src/dashboard/server.js:169-178 | the history lists exactly the directory's cycle logs, or nothing when there is no log directory |
| Dashboard.CyclesDescending | src/dashboard/server.js:175-178 | the history is in strictly descending name order |
| Dashboard.LogLimit | src/dashboard/server.js:289 | the limit is never 0: 100 when missing, non-numeric or 0, else the parsed number |
| Dashboard.TailStart | src/dashboard/server.js:296 | `slice(-limit)` starts limit from the end for a positive limit, and skips the first -limit lines for a negative one |
| Dashboard.NonEmptyLines | src/dashboard/server.js:297 | blank lines are dropped and nothing else |
| Dashboard.NonEmptyLinesAppend | src/dashboard/server.js:297 | the filter of a concatenation is the concatenation of the filters, so kept lines keep their order and repeats |
| Dashboard.NonEmptyLine | src/dashboard/server.js:297 | one line is kept exactly when it is not empty |
| Dashboard.LogTail | src/dashboard/server.js:290-298 | for the limit the handler reads with `LogLimit`: a missing log file gives no lines, and no returned line is blank |
| Dashboard.TailOfLoggedLines | src/dashboard/server.js:296-297 | on a log file of non-blank `\n`-terminated lines, as the logger appends them (src/logger.js:52), a positive limit n shows the last n - 1 lines (all of them when there are fewer), because the trailing empty piece takes one place |
| Dashboard.LoggedFileTail | src/dashboard/server.js:296-297 | splitting a file of `\n`-terminated lines gives back those lines and one empty piece, which the tail then slices |
| Dashboard.TailOfLines | src/dashboard/server.js:296-297 | the tail of lines plus one empty piece, with blanks dropped, is the last limit - 1 lines |
| Dashboard.NonEmptyKeeps | src/dashboard/server.js:297 | dropping blanks from non-blank lines and one empty piece gives the lines |
| Dashboard.StatusOf | src/dashboard/server.js:99-107 | with no state file the status is `stopped` with zero counts; otherwise it is the saved record |
| Dashboard.StatusStoppedUnlessRunning | src/dashboard/server.js:99-107 | after the loop ends (its last save, src/loop.js:342, says `stopped`), and with no state file, the dashboard reports `stopped` |
| Dashboard.Dashboard.constructor | src/dashboard/server.js:49-58 | the dashboard starts from the given files |
| Dashboard.Dashboard.GetEnvVars | src/dashboard/server.js:49-58 | `GET /api/config` returns the parsed, writable entries |
| Dashboard.Dashboard.PostConfig | src/dashboard/server.js:71-96 | `.env` becomes the serialised merge of its parsed contents with the body; no other file changes |
| Dashboard.Dashboard.PostIdea | src/dashboard/server.js:136-166 | a missing or empty idea answers 400 and changes nothing; otherwise the idea file holds the idea and the consensus gains it |
| Dashboard.Dashboard.Pause | src/dashboard/server.js:121-125 | the pause marker is written with the time, and the loop is paused |
| Dashboard.Dashboard.Resume | src/dashboard/server.js:127-133 | the marker is removed; resuming when not paused changes nothing |

## Left out

- Engine internals (`runEngine`, `checkEngine`, `findInPath`, `findNvmVersion` in `src/engine.js`): the engine is an input per cycle that either resolves with `{code, stdout, stderr}` or throws. `checkEngine` is a boolean input to `start`.
- WebSocket server, `broadcast`, Express routing, CORS, static files and HTTP response shapes are transport and are not modelled.
- `sleep`, `setTimeout`, `Date.now` and `toISOString` are not performed. Sleeps are recorded events, and timestamps are opaque strings supplied as inputs. One clock reading stands for every save within a cycle.
- The unawaited `LIMIT_WAIT` sleep in `checkResult` has no effect on the loop and is not recorded.
- Logging from inside `AutoLoop` (its `Logger` calls) is not part of the loop state. The logger is modelled on its own.
- `mkdirSync` of the log and memory directories is left out: directories are assumed to exist.
- `Strings.ToLower` maps only A–Z. This is exact for the nine ASCII limit patterns, but non-ASCII case mapping is not modelled.
- Sorting.LexLess compares characters by code point, while JavaScript compares UTF-16 code units. The two agree outside the astral planes.
- Path joining is plain concatenation with `/`; `path.resolve` normalisation is not modelled.
- Numbers are unbounded integers. Precision beyond 2^53 and floating-point body fields in `POST /api/config` are not modelled.
- Dashboard.Put: JavaScript objects list integer-like keys first and treat `__proto__` specially. The model keeps plain insertion order for every key.
- Logger.ConfiguredRank: a `LOG_LEVEL` naming an inherited object property (`toString`, `constructor`, `valueOf`, `hasOwnProperty`, `__proto__`, ...) is not modelled. In the source the lookup yields a truthy function or object, which becomes the threshold; every comparison with it is false, so every level, debug included, is emitted. The model treats such names as unknown and uses info.
- Logger.OutputExcerpt: `substring(0, 500)` counts UTF-16 code units, while the model counts characters. With characters outside the Basic Multilingual Plane the source keeps fewer characters and can split a surrogate pair. The excerpt is only logged at debug level, which is never emitted.
- Dashboard.Dashboard.PostIdea: only string ideas are modelled. A non-string truthy JSON value would be written through `String(...)`.
- Dashboard.ListCycles: the `size` and `mtime` of each entry are not modelled, only the names and their order.
- Dashboard.StatusOf: a state file that is not valid JSON (where `JSON.parse` throws) is not modelled.
- Loop.AutoLoop.Stop: `stop()` is called from outside the loop. Its timing relative to the saves inside a cycle is abstracted to one flag per pass, observed at the next `while` test.
- Config.Config.Set: values are `Value`s. Storing text into a numeric setting, which later arithmetic would coerce, is not modelled.
- Config.Defaults: `PROJECT_DIR` is `path.resolve(__dirname, '..')` and is taken as an input.
- The `/api/files`, `/api/file`, `/api/memory`, `/api/memories`, stop and restart endpoints are filesystem traversal and process control, and are not modelled. The `/api/files` handler at src/dashboard/server.js:245 does not parse (`return return`).
- `src/index.js` (CLI dispatch, PID liveness, signals) and `src/daemon/` (systemd commands) are process management and are not modelled.
- There is no idea priority queue, approval or rejection in the code. The dashboard keeps one idea file and appends the idea to the consensus, and that is what is modelled.
- Loop.Ran: the file-system calls of a cycle are taken to succeed, and so are those of Loop.AutoLoop.TryCycle, which follows it. A throwing `writeFileSync` of the cycle log (src/loop.js:117) or `saveState('running')` (src/loop.js:130) would send the cycle down the catch path and count an error; after line 129 that leaves the consecutive count at 1, not 0. A throwing `copyFileSync` in the restore (src/loop.js:283), `unlinkSync` in the rotation (src/loop.js:299) or `saveState` in the catch block would escape `runCycle` and end `start()`. None of these failures is modelled.
- `backupConsensus` is never called by `runCycle`. It is modelled as a standalone operation, so a restore after a failure uses whatever backup already exists.
