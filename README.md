# coverseer: a verified model of the process monitor

`coverseer.py` supervises one child process. It starts the child and captures its combined output line by line into a bounded buffer of the last 100 lines. Every check interval it asks a language-model oracle whether the output looks stuck or crashed. It terminates and respawns the child when the oracle says so, respawns it after a backoff when it exits with a nonzero code, and stops when it exits with code 0.

The model covers the three pieces of sequential logic in `ProcessMonitor`:

- **Output buffer** (`output_buffer.dfy`, module `OutputBuffer`). Class `Buffer` holds `output_buffer` as a `seq<string>` field. `Append` is one locked append-and-evict step, proved to keep the last 100 lines of the old contents plus the new line. `ReadLine` (one pass of the reader thread's `for` loop) and `ReadOutput` (the whole loop) are proved against `Feed`, the last 100 of the stripped, non-empty lines taken in so far. The Python `strip()` and `"\n".join` it relies on live in `text.dfy` (module `Text`), with the whitespace set of Python's `str.isspace`.
- **Health decision** (`health_check.dfy`, module `HealthCheck`). `_check_process` after the snapshot is the pure function `CheckProcess`. It takes the snapshot text, the oracle call's outcome (`Raised` or `Returned(value)`) and the JSON parser as a function parameter. JSON data is Python's data model (`Json`), with Python truthiness.
- **Supervisor loop** (`supervisor.dfy`, module `Supervisor`). The operating system is replaced by a script of events, one per pass of the monitoring loop:
  - `Exited(output, code)`: `poll()` found the child gone.
  - `Tick(output, reply, shutdown)`: the child was live, and the health check ran on the buffer with the oracle `reply`. When the check asks for a restart, `shutdown` says how the termination ended (exited within the grace period with a code, or killed, with whatever `poll()` then reports).

  The pure function `Run` is the loop's specification. Class `ProcessMonitor` keeps the source's fields (`command`, the buffer, `stop_requested`) and a ghost log of actions taken (`Spawn`, `AskOracle`, `Terminate`, `Kill`, `Backoff`). Its `Start` runs the source's two nested `while` loops and is proved to end in the state `Run` gives. Lemmas about `Run` state which scripts end supervision and when a new child is spawned.

Three behaviours of the code are easy to misread:

- `restart_needed` is tested for truthiness, not `is True` (coverseer.py:86). So a non-empty string such as `"false"` also restarts the child (`HealthCheck.TruthyStringRequestsRestart`).
- `stop_requested` is set only on exit code 0 (coverseer.py:130-132). An interrupt is a `KeyboardInterrupt` escaping `start` into `main`.
- An oracle-triggered termination reaches the same exit-code branch as a child that exits on its own (coverseer.py:128-135). So a child that exits 0 on SIGTERM ends supervision, and a child that `poll()` still reports live after `kill()` is respawned at once, without backoff (`Supervisor.AfterTermination`).

## Model

| member | source | states |
|---|---|---|
| `Text.TrimStartSpec` | coverseer.py:37 | the leading-whitespace trim removes exactly a whitespace prefix and leaves a suffix not starting with whitespace |
| `Text.TrimEndSpec` | coverseer.py:37 | the trailing-whitespace trim removes exactly a whitespace suffix and leaves a prefix not ending with whitespace |
| `Text.StripSpec` | coverseer.py:37 | `line.strip()` is an infix of the line with only whitespace cut off on both sides, and neither starts nor ends with whitespace |
| `Text.StripEmptyIff` | coverseer.py:37 | a line strips to `""` exactly when it is all whitespace |
| `Text.StripIdempotent` | coverseer.py:37 | stripping a stripped line changes nothing |
| `Text.JoinEmptyIff` | coverseer.py:49-51 | `"\n".join(buffer)` is empty exactly when the buffer is `[]` or `[""]` |
| `OutputBuffer.LastNSpec` | coverseer.py:40-42 | the window keeps min(length, n) elements, and they are the newest ones |
| `OutputBuffer.LastNConcat` | coverseer.py:40-42 | evicting early loses nothing that evicting at the end would keep |
| `OutputBuffer.LastNOfBlocks` | coverseer.py:40-42 | the same, for a buffer that takes in two blocks of lines |
| `OutputBuffer.StoredSpec` | coverseer.py:35-37 | the reader keeps at most one line per raw line, and every kept line is already stripped |
| `OutputBuffer.StoredConcat` | coverseer.py:35-40 | reading the stream in two pieces keeps the same lines, in the same order, as reading it whole |
| `OutputBuffer.StoredSingle` | coverseer.py:36-37 | an empty raw line is skipped, a whitespace-only one is kept as `""`, any other is kept stripped |
| `OutputBuffer.FeedBound` | coverseer.py:41-42 | the buffer never holds more than 100 lines |
| `OutputBuffer.FeedConcat` | coverseer.py:35-42 | taking in output in chunks gives the same buffer as taking it in at once |
| `OutputBuffer.FeedFromEmpty` | coverseer.py:25 | from the initial empty list, the buffer is the last min(n, 100) kept lines in arrival order |
| `OutputBuffer.Buffer.constructor` | coverseer.py:25 | the buffer starts empty |
| `OutputBuffer.Buffer.Append` | coverseer.py:39-42 | one append under the lock: the new line is added, the oldest is dropped exactly when 100 were held, nothing else changes |
| `OutputBuffer.Buffer.ReadLine` | coverseer.py:36-42 | a falsy raw line leaves the buffer unchanged; any other is appended stripped |
| `OutputBuffer.Buffer.ReadOutput` | coverseer.py:35-42 | after the reader loop, the buffer is the window of the old contents followed by the kept lines, bounded by 100 |
| `OutputBuffer.Buffer.Snapshot` | coverseer.py:48-49 | the snapshot is the joined buffer, and it is empty exactly when the buffer is `[]` or `[""]` |
| `HealthCheck.Truthy` | coverseer.py:86 | Python truthiness: a value is false exactly when it is None, False, zero, `""`, `[]` or `{}` |
| `HealthCheck.Data` | coverseer.py:72-84 | a raised call and a reply that is not a dictionary both leave no data |
| `HealthCheck.Verdict` | coverseer.py:86-95 | the verdict is true exactly when the data is a dictionary whose `restart_needed` is present and truthy |
| `HealthCheck.CheckProcess` | coverseer.py:51-95 | an empty text gives false, and a true answer implies data was obtained and asked for a restart |
| `HealthCheck.EmptyOutputSkipsOracle` | coverseer.py:51-53 | with empty text the answer is false whatever the oracle would have replied |
| `HealthCheck.CheckProcessIff` | coverseer.py:80-95 | with non-empty text, true exactly when the data is a dictionary with a truthy `restart_needed` |
| `HealthCheck.FailSafe` | coverseer.py:93-95 | a call failure, a non-dictionary reply, a parse error, non-dictionary data or a missing `restart_needed` all give false |
| `HealthCheck.MissingResponseIsNoRestart` | coverseer.py:80-82 | a reply without `response` is read as `""`, which a JSON parser rejects, so the answer is false |
| `HealthCheck.TextAndStructuredAgree` | coverseer.py:81-84 | a string payload that parses to `v` and the structured payload `v` give the same answer |
| `HealthCheck.ConformingDataDecides` | coverseer.py:61-68 | for data in the requested schema's shape, the answer is its boolean `restart_needed` |
| `HealthCheck.TruthyStringRequestsRestart` | coverseer.py:86 | `restart_needed: "false"` (a non-empty string) asks for a restart |
| `Supervisor.CommandForm` | coverseer.py:100 | an empty command has no form (the IndexError); otherwise the form's tokens are the command, and it is a shell line exactly for one token |
| `Supervisor.ExitBranch` | coverseer.py:128-135 | code 0 sets `stop_requested`, a nonzero code adds a backoff, no code adds nothing; the buffer is untouched |
| `Supervisor.RunStep` | coverseer.py:116-126 | the run from a live child is one pass of the monitoring loop followed by the rest |
| `Supervisor.RunSplit` | coverseer.py:97-135 | running one script and then another is running their concatenation |
| `Supervisor.RunSettles` | coverseer.py:97-135 | a run ends stopped or with a live child being monitored |
| `Supervisor.CleanExitEndsSupervision` | coverseer.py:128-132 | once a child exits on its own with code 0, supervision stops and nothing after that event is consumed or spawned |
| `Supervisor.CrashLoopContinues` | coverseer.py:97-135 | when no event shows exit code 0, supervision never stops, every event is consumed, and the buffer, never cleared across respawns, is the window of all output |
| `Supervisor.StepSpawnsNothing` | coverseer.py:116-135 | one pass of the monitoring loop only appends to the log, and never a spawn |
| `Supervisor.SpawnsUseCommand` | coverseer.py:98-103 | every child spawned in a run gets the same command form, and earlier actions are kept |
| `Supervisor.RunKeepsBufferBound` | coverseer.py:39-42 | the buffer stays within 100 lines through any run |
| `Supervisor.CrashesAreRetried` | coverseer.py:133-135 | after n nonzero exits the supervisor has backed off and respawned the same command n times |
| `Supervisor.NonzeroExitRespawns` | coverseer.py:133-135 | a nonzero exit backs off, then respawns the same command, keeping the buffer |
| `Supervisor.HealthyTickKeepsChild` | coverseer.py:116-119 | a check that finds nothing wrong leaves the child running and spawns nothing; at most the oracle call is logged |
| `Supervisor.OracleAskedIffOutput` | coverseer.py:48-53 | a health check consults the oracle exactly when the buffer's snapshot is non-empty; on an empty one the pass only takes in output |
| `Supervisor.RunSingle` | coverseer.py:97-135 | a run of one event is one pass, then a respawn unless stopped or still monitoring |
| `Supervisor.AfterTermination` | coverseer.py:119-135 | after terminate/kill, poll code 0 stops; another code backs off and respawns; a child not yet reaped is respawned at once without backoff |
| `Supervisor.UnhealthyChildIsReplaced` | coverseer.py:119-126 | a check that asks for a restart has consulted the oracle, terminates the child (and kills it after the grace period), then applies the exit-code branch |
| `Supervisor.ProcessMonitor.constructor` | coverseer.py:22-27 | a new monitor keeps its command, has an empty buffer and `stop_requested` false |
| `Supervisor.ProcessMonitor.CheckProcess` | coverseer.py:44-95 | `_check_process` is the decision on the joined snapshot, never true for an empty buffer, and logs one oracle call exactly when the snapshot is non-empty |
| `Supervisor.ProcessMonitor.MonitorOnce` | coverseer.py:116-126 | one pass of the monitoring loop updates the buffer and log as `Step` specifies |
| `Supervisor.ProcessMonitor.Start` | coverseer.py:97-135 | `start` raises exactly for an empty command, and otherwise ends in the stop flag, buffer and log that `Run` gives for the script |

## Left out

- Process control (`subprocess.Popen`, `poll`, `terminate`, `wait(timeout=5)`, `kill`, coverseer.py:103-125): these are operating-system calls. They are replaced by the events of the script. A failing `Popen` is not modelled.
- The reader thread and `buffer_lock` (coverseer.py:26, 39, 48, 113-114): each append and each snapshot is treated as one atomic step. The output a reader takes in between two passes of the monitoring loop is carried by the next event. So a reader of an old child that is still draining is folded into the same stream.
- The guard `if not self.process: return` in `_read_output` (coverseer.py:31-32): the reader is only started after `Popen`, so the guard never fires in the model.
- `time.sleep` for the check interval and the 2-second backoff (coverseer.py:117, 135): these are real time. The backoff is recorded as a `Backoff` action.
- `ollama_call` and `json.loads` (coverseer.py:8, 72-82): a foreign call and a library parser. The call's outcome is an input value, and the parser is a function parameter.
- HealthCheck.CheckProcess: the prompt and schema built from the text (coverseer.py:55-68) are not modelled. The oracle's reply is taken as given for the current snapshot.
- Logging (coverseer.py:15-19 and every `logger` call): output formatting with no effect on behaviour.
- `Supervisor.CommandForm`: only the value handed to `Popen` is modelled, not what the shell runs. With `shell=True` (coverseer.py:109) on POSIX, a list form runs only its first token as the shell command line. The remaining tokens become the shell's `$0`, `$1`, and so on. So a multi-token command does not run as written, and `Tokens` recovering the command says nothing about what is executed.
- `main`, its argument check and the `KeyboardInterrupt` handler (coverseer.py:137-153): command-line and signal plumbing.
- Supervisor.ProcessMonitor.Start: it also returns when the script runs out while a child is live. The real loop would go on waiting there.
