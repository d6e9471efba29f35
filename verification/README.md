# logging-lib in Dafny

A model of a small C++ logging library and its example program:

- **Levels** (`levels.dfy`): `LogLevel`, a C++ `enum class` over `int`. Its
  four enumerators DEBUG < INFO < WARNING < ERROR are 0..3 in declaration
  order. `levelToString` maps them to their names and any other value to
  `UNKNOWN`.
- **File sink** (`file_logger.dfy`): `FileLogger` with its file name and
  minimum level, and the operations `log`, `setLogLevel`, `getLogLevel` and
  `createFileLogger`. The destination file is a sequence of lines.
  `Contents` renders its bytes, one `\n` after each line. The record format is
  `[timestamp] [LEVEL] message`. A reader for that format proves that a record
  can be taken apart again.
- **Worker** (`worker.dfy`): the example program's queue of `(text, level)`
  entries and its exit flag. It covers the wake predicate, one pass of
  `logWorker`'s loop as a step function, a loop method that drains the queue
  into a real sink, and executions as sequences of atomic actions: pushes
  under `queueMutex`, the worker's steps, and the exit request. The worker's
  `queueCV.wait` is two steps, testing the predicate under the lock and then
  blocking, because the input loop stores the exit flag and notifies without
  the lock (example/main.cpp:99-100). These give the FIFO and no-loss
  properties, and show both the lost wake-up of the program as written and
  drain-on-exit once the flag is stored under the lock.
- **Front end** (`front_end.dfy`): the `[LEVEL:]message` line parser, the
  `exit` command, the input loop (as written and with the flag stored under
  the lock), end of input, the argv scan (as written and as evidently
  intended) and start-up. It also holds the end-to-end theorems: however the
  worker's steps interleave with the input loop, a worker that has left its
  loop has handed the logger every line typed before `exit`, in typing order;
  with the flag stored under the lock it also always gets there.
- `strings.dfy` models `std::string::find` for one character.
  `wrappers.dfy` holds `Option`.

Timestamps, "the file could be opened for append" and "the write reached
the file" are inputs to each `log` call (`Call`, `WriteContext`).

Two behaviours of the example program differ from what its own text
suggests, and the model follows the code:

- The usage line presents the input as `[LEVEL:]MESSAGE`
  (example/main.cpp:90), but a colon prefix that is not a level name is
  stripped too, colon included (example/main.cpp:117). The line is not kept
  whole.
- The header comment of `main` lists exit status 1 for a failed logger
  creation (example/main.cpp:60). `createFileLogger` never returns null
  (src/file_logger.cpp:52-54), so that branch (example/main.cpp:82-85)
  cannot be taken; `FrontEnd.Startup` states this.

## Model

| member | source | states |
|---|---|---|
| Levels.DeclarationOrder | include/logger.h:15-20 | the four enumerators are strictly ordered DEBUG < INFO < WARNING < ERROR, and the named levels are exactly these four |
| Levels.PassesMonotone | src/file_logger.cpp:14 | a message passes the filter unless its level is strictly below the minimum; raising the minimum never lets more through |
| Levels.LevelToString | src/file_logger.cpp:37-45 | the result is UNKNOWN exactly for values outside the four enumerators; names are non-empty and hold no `]` or `:` |
| Levels.LevelToStringInjective | src/file_logger.cpp:37-45 | distinct enumerators get distinct names |
| Strings.IndexOf | example/main.cpp:105 | None exactly when the character is absent; otherwise the position of its first occurrence |
| FileLogging.ContentsAppend | src/file_logger.cpp:17-28 | appending a line adds exactly that line and one terminator to the file's bytes; earlier bytes are kept (append mode) |
| FileLogging.FormatRecord | src/file_logger.cpp:26-28 | a record `[ts] [NAME] message` reads back as ts, levelToString(level) and message when ts has no `]`, even if the message has brackets or colons |
| FileLogging.FormatRecordInjective | src/file_logger.cpp:26-28 | two records with `]`-free timestamps are equal exactly when their timestamp, level name and message are |
| FileLogging.Log | src/file_logger.cpp:13-31 | returns false exactly when the level passes the filter and the open fails; a filtered message returns true even when the open would fail; after a successful open it returns true whether or not the write reached the file; the file grows by one line exactly when the level passes, the open succeeds and the write is stored, and that line is the record; earlier lines are kept |
| FileLogging.LogDefault | include/logger.h:41-42 | `log` without a level logs at INFO, and appends the INFO record when the minimum allows it and the open and write succeed |
| FileLogging.LogAppendsOneLine | src/file_logger.cpp:14-30 | on disk, a `log` call appends either nothing or one record followed by one terminator |
| FileLogging.SetLogLevel | src/file_logger.cpp:33 | after `setLogLevel(L)`, `getLogLevel()` is L and the file name is unchanged |
| FileLogging.GetLogLevel | src/file_logger.cpp:34 | the accessor for the minimum level; its meaning is stated by `FileLogging.SetLogLevel` and `FileLogging.SetLogLevelLastWins` |
| FileLogging.SetLogLevelLastWins | src/file_logger.cpp:33-34 | only the last `setLogLevel` counts; setting the level `getLogLevel` reports changes nothing |
| FileLogging.CreateFileLogger | src/file_logger.cpp:52-54 | never null; the logger has the requested file name and minimum level |
| FileLogging.CreateFileLoggerDefault | include/logger.h:65-66 | without a level argument the logger starts at INFO |
| FileLogging.LogAllAppendsInOrder | src/file_logger.cpp:13-31 | a run of `log` calls leaves the old file followed by the records of the accepted calls, in call order; each call fails exactly when it passed the filter and the open failed |
| FileLogging.WrittenCount | src/file_logger.cpp:14-30 | exactly one line is written per accepted call and none for the others |
| FileLogging.EveryAcceptedCallIsWritten | tests/logger_test.cpp:97-123 | every accepted message appears in the file as its own record, after the records of the accepted calls before it |
| Worker.ShouldWakeWorker | example/main.cpp:24-28 | the worker keeps waiting only while nothing is queued and no exit is requested |
| Worker.Push | example/main.cpp:120-124 | a push puts the entry behind everything already queued, leaves the flag alone, and gives the worker something to do |
| Worker.RequestExit | example/main.cpp:98-101 | raising the flag leaves the queue alone; the worker's next pass never waits, and stops exactly when nothing is queued |
| Worker.WorkerStep | example/main.cpp:24-50 | the worker keeps waiting exactly when the queue is empty and the exit flag is clear; it stops exactly when the flag is set and the queue is empty; otherwise it removes exactly the head entry, unchanged, and leaves the tail |
| Worker.LogWorker | example/main.cpp:37-52 | with no producer active, the worker hands every queued entry to `log` in queue order, empties the queue, and then leaves the loop exactly when the exit flag is set (otherwise it blocks); the file gains exactly the records of the accepted entries, in order |
| Worker.Apply | example/main.cpp:37-50 | one atomic action: a worker that has left its loop has seen the exit flag and delivers nothing more; the flag never goes back to false and is raised only by an exit request; no entry is lost or duplicated; every action except a flag store without the lock keeps a waiting worker's view of the state correct |
| Worker.RunConserves | example/main.cpp:43-50 | in any execution, the entries delivered followed by those still queued are the entries queued at the start and then pushed, in push order (FIFO, no loss, no duplication) |
| Worker.ExitFlagMonotone | example/main.cpp:14 | the exit flag only goes false to true, and is set exactly when it started set or an exit was requested |
| Worker.StoppedMeansDrained | example/main.cpp:43-44 | if nothing is pushed after the exit request, a worker that has left its loop has an empty queue |
| Worker.NoLossOnExit | example/main.cpp:41-50 | from the initial state, a worker that has left its loop has delivered every pushed entry, in push order, and an exit was requested |
| Worker.RunKeepsNoLostWakeup | example/main.cpp:39-41 | as long as the flag is never stored without the lock, a worker that is about to block, or blocked, really has nothing to do |
| Worker.DrainAfterExit | example/main.cpp:39-50 | once the exit flag is set and the worker is not inside its wait, it delivers all queued entries in order and leaves after one pass per entry plus one |
| Worker.BlockedStaysBlocked | example/main.cpp:41 | a blocked worker that gets no notification stays blocked, whatever the flag and queue say |
| Worker.LostWakeup | example/main.cpp:37-101 | the worker finds the predicate false, the flag is stored and the notification sent before it blocks, and it then stays blocked for good with the flag set |
| FrontEnd.LevelFromName | example/main.cpp:108-116 | a prefix selects a level exactly when it is that level's name |
| FrontEnd.LevelNameRoundTrip | example/main.cpp:108-116 | reading back the name the sink writes gives the same level; UNKNOWN names no level |
| FrontEnd.PrefixLevel | example/main.cpp:104-116 | a prefix that is a level's name selects that level; any other prefix keeps the default |
| FrontEnd.ParseLine | example/main.cpp:98-118 | `exit` and only `exit` stops the producer; a colon-free line is queued whole at the default level; otherwise the text is everything after the first colon, at the prefix's level or the default |
| FrontEnd.ParseLineSplitsAtColon | example/main.cpp:105-118 | a line `prefix:message` with a colon-free prefix is queued as `message` at the level the prefix selects |
| FrontEnd.ParseLinePrefixed | example/main.cpp:105-118 | `NAME:message` is queued as `message` at level NAME, even when the message has colons |
| FrontEnd.ParseLineStripsUnknownPrefix | example/main.cpp:107-117 | an unrecognised prefix is still stripped with its colon, and the message gets the default level |
| FrontEnd.InputLoopShape | example/main.cpp:94-125 | the input loop pushes exactly the entries of the lines before the first `exit`, in order; it requests exit exactly when `exit` is typed; it pushes nothing afterwards |
| FrontEnd.ProducerActions | example/main.cpp:94-125 | the input loop as written: the pushes of the typed lines, in order, then a flag store without the lock exactly when `exit` is typed, and no push after it |
| FrontEnd.ProducerActionsLocked | example/main.cpp:94-125 | the same input loop with the flag stored under the lock: the same pushes, and never a flag store without the lock |
| FrontEnd.ProducersKeepFacts | example/main.cpp:37-50 | the worker's steps neither push nor request exit |
| FrontEnd.TypedLinesAreDelivered | example/main.cpp:94-125 | for any interleaving of the worker's steps with the input loop as written, a worker that has left its loop has handed the logger exactly the lines typed before `exit`, in order |
| FrontEnd.ExitCanHang | example/main.cpp:98-127 | as written, typing `exit` can leave the worker blocked for good with the flag set, so `join` never returns |
| FrontEnd.TypedLinesAreDeliveredLocked | example/main.cpp:94-127 | with the flag stored under the lock, the worker is never stuck in its wait once `exit` is typed; further passes deliver the rest of the typed lines, in order, and it leaves its loop |
| FrontEnd.Reads | example/main.cpp:95-96 | the first `n` reads are the first `n` lines while input lasts; past its end, all the lines in order followed by one empty string per further read |
| FrontEnd.EndOfInputNeverExits | example/main.cpp:94-102 | as written, input that ends without `exit` never raises the exit flag and makes the loop push one entry per read, for ever |
| FrontEnd.SubmittedBeforeExit | example/main.cpp:98-101 | an `exit` after the typed lines submits nothing more |
| FrontEnd.EndOfInputExits | example/main.cpp:94-102 | reading end of input as `exit`, and with the flag still stored without the lock, every session requests exit and submits exactly the lines before the first `exit` |
| FrontEnd.ArgLevel | example/main.cpp:72-77 | a `--loglevel` value sets DEBUG, WARNING or ERROR when it is that name; `INFO` and anything else keep the current level |
| FrontEnd.ScanArgs | example/main.cpp:66-79 | the scan as written never changes the default level, and can only set the file name to the literal `--logfile` |
| FrontEnd.ParseCommandLine | example/main.cpp:63-79 | scanning from index 0 always yields level INFO, and file `app.log` or `--logfile` |
| FrontEnd.ScanArgsReadsOptionToken | example/main.cpp:68-71 | `logger --logfile out.log` logs to `--logfile`; `logger --loglevel DEBUG` stays at INFO; a trailing `--logfile` is ignored |
| FrontEnd.ScanArgsIgnoresValues | example/main.cpp:66-79 | on a well-formed option list, the scan as written ignores every value: the level is unchanged and the file is `--logfile` exactly when a `--logfile` option is present, and otherwise unchanged |
| FrontEnd.ScanArgsIntendedRoundTrip | example/main.cpp:66-79 | the corrected scan reads back exactly what an option list says, each option overriding earlier ones |
| FrontEnd.ParseCommandLineIntended | example/main.cpp:63-79 | with a program name in front, the corrected scan honours the options; `prog --logfile out.log --loglevel DEBUG` runs on `out.log` at DEBUG |
| FrontEnd.Startup | example/main.cpp:81-85 | start-up always gets a logger for the configured file and level, so the exit-status-1 branch cannot be taken |

## Left out

- Threads, `std::mutex`, `std::condition_variable` and `std::atomic` as such (example/main.cpp:11-14, 39-41, 99-100, 121-124; src/file_logger.cpp:16, 49). An execution is a sequence of atomic actions: a push with its notification, a flag store, a notification, and the worker's steps (test the wake predicate under the lock, block, pop and log). Memory-model effects are not covered.
- Spurious wake-ups. A blocked worker wakes only on a notification. A spurious wake-up could rescue the lost wake-up of `FrontEnd.ExitCanHang`, but nothing guarantees one.
- The producer's push and its notification (example/main.cpp:120-124) are one action. A blocked worker cannot run between them, and a running one finds the entry either way.
- Wall-clock time and `localtime`/`put_time` (src/file_logger.cpp:23-26). The timestamp is an opaque string input. The round trip needs only that it holds no `]`.
- Real file I/O. The file is a sequence of lines. Whether the open succeeds and whether the write reaches the file are boolean inputs. A message with an embedded newline counts as one line here; on disk it would split into several.
- FileLogging.Log: a write that fails part-way through is modelled as losing the whole record, because the file is modelled as whole lines and a cut-off last line has no representation.
- Console output and the final message and exit status 0 (example/main.cpp:83, 89-92, 128-129). The model starts from the lines the input loop reads.
- The return value of `log` inside the worker (example/main.cpp:50). The source ignores it, and so does `Worker.LogWorker`.
- Test fixture setup and teardown (tests/logger_test.cpp:18-39). The tests serve only as evidence for properties.

## Findings

| source | as written | input that shows it | evidently intended | confidence | as-written member | corrected member |
|---|---|---|---|---|---|---|
| example/main.cpp:68-71 | `argv[i++]` reads the option token itself, then skips its value | `logger --logfile out.log` logs to a file named `--logfile`; `logger --loglevel DEBUG` stays at INFO | `argv[++i]`: read the argument after the option | high; not executed | FrontEnd.ScanArgsReadsOptionToken | FrontEnd.ScanArgsIntendedRoundTrip |
| example/main.cpp:99-100 | the exit flag is stored and `notify_one` called without holding `queueMutex` | the worker tests the predicate on an empty queue, `exit` stores the flag and notifies before the worker blocks; the notification is lost and `worker.join()` at line 127 waits for ever | store the flag while holding `queueMutex`, then notify | medium (needs an unlucky schedule); not executed | FrontEnd.ExitCanHang | FrontEnd.TypedLinesAreDeliveredLocked |
| example/main.cpp:95-96 | the result of `std::getline` is not tested | standard input closed without `exit`: every further read yields an empty line, which is queued, and the exit flag is never raised | treat end of input like `exit` | high; not executed | FrontEnd.EndOfInputNeverExits | FrontEnd.EndOfInputExits |
