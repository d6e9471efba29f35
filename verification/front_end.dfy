/** The interactive front end of the example program: the command-line scan,
    start-up, the `[LEVEL:]message` input-line parser and the producer side of
    the worker protocol, with the end-to-end guarantee that every line typed
    before `exit` reaches the logger in order. */
module FrontEnd {

  import opened Wrappers
  import opened Levels
  import opened Strings
  import opened FileLogging
  import opened Worker

  // ---------------------------------------------------------------------------
  // Input lines

  /** The level an input-line prefix names, when it is exactly one of the four
      level names. */
  function LevelFromName(s: string): (r: Option<LogLevel>)
    ensures r.Some? ==> IsNamed(r.value) && LevelToString(r.value) == s
    ensures r.None? ==> forall l :: IsNamed(l) ==> LevelToString(l) != s
  {
    if s == "DEBUG" then Some(DEBUG)
    else if s == "INFO" then Some(INFO)
    else if s == "WARNING" then Some(WARNING)
    else if s == "ERROR" then Some(ERROR)
    else None
  }

  /** The names the sink writes are exactly the names the front end reads. */
  lemma LevelNameRoundTrip(l: LogLevel)
    ensures IsNamed(l) ==> LevelFromName(LevelToString(l)) == Some(l)
    ensures !IsNamed(l) ==> LevelFromName(LevelToString(l)) == None
  {
  }

  /** What one input line asks for. */
  datatype Command = Exit | Enqueue(entry: Entry)

  /** The level a colon-terminated prefix selects: its own when it names one,
      the configured default otherwise. */
  function PrefixLevel(prefix: string, defaultLevel: LogLevel): (r: LogLevel)
    ensures r == defaultLevel || (IsNamed(r) && LevelToString(r) == prefix)
    ensures forall l :: IsNamed(l) && LevelToString(l) == prefix ==> r == l
  {
    match LevelFromName(prefix)
    case Some(l) => l
    case None => defaultLevel
  }

  /** The input loop's handling of one line. `exit` stops the producer. A
      line without a colon is queued whole at the default level. A line with
      a colon loses everything up to and including its first colon, whether
      or not the prefix names a level; the prefix only selects the level. */
  function ParseLine(input: string, defaultLevel: LogLevel): (c: Command)
    ensures c.Exit? <==> input == "exit"
    ensures c.Enqueue? && ':' !in input ==> c.entry == Entry(input, defaultLevel)
    ensures c.Enqueue? ==>
              forall k :: 0 <= k < |input| && input[k] == ':' && ':' !in input[..k] ==>
                c.entry == Entry(input[k + 1..], PrefixLevel(input[..k], defaultLevel))
  {
    if input == "exit" then Exit
    else match IndexOf(input, ':')
      case None => Enqueue(Entry(input, defaultLevel))
      case Some(k) =>
        FirstColonUnique(input, k);
        Enqueue(Entry(input[k + 1..], PrefixLevel(input[..k], defaultLevel)))
  }

  /** A string has at most one first colon. */
  lemma FirstColonUnique(s: string, k: nat)
    requires k < |s| && s[k] == ':' && ':' !in s[..k]
    ensures forall j :: 0 <= j < |s| && s[j] == ':' && ':' !in s[..j] ==> j == k
  {
  }

  /** A line with a colon-free prefix before its first colon is queued as
      the text after that colon, at the level the prefix selects. */
  lemma ParseLineSplitsAtColon(prefix: string, message: string, defaultLevel: LogLevel)
    requires ':' !in prefix
    ensures ParseLine(prefix + ":" + message, defaultLevel)
            == Enqueue(Entry(message, PrefixLevel(prefix, defaultLevel)))
  {
    var line := prefix + ":" + message;
    assert line == prefix + [':'] + message;
    IndexOfAfter(prefix, ':', message);
    assert line[..|prefix|] == prefix;
    assert line[|prefix| + 1..] == message;
    assert line != "exit" by {
      assert line[|prefix|] == ':';
    }
  }

  /** A line written as `NAME:message` with a level name is queued as the
      message at that level; the message may itself contain colons. */
  lemma ParseLinePrefixed(l: LogLevel, message: string, defaultLevel: LogLevel)
    requires IsNamed(l)
    ensures ParseLine(LevelToString(l) + ":" + message, defaultLevel) == Enqueue(Entry(message, l))
  {
    ParseLineSplitsAtColon(LevelToString(l), message, defaultLevel);
    LevelNameRoundTrip(l);
  }

  /** A colon-free prefix that names no level is still stripped together with
      its colon; the message is queued at the default level. */
  lemma ParseLineStripsUnknownPrefix(prefix: string, message: string, defaultLevel: LogLevel)
    requires ':' !in prefix && LevelFromName(prefix).None?
    ensures ParseLine(prefix + ":" + message, defaultLevel) == Enqueue(Entry(message, defaultLevel))
  {
    ParseLineSplitsAtColon(prefix, message, defaultLevel);
  }

  // ---------------------------------------------------------------------------
  // Producer side of the worker protocol

  /** Reference definition: the entries for the lines typed before the first
      `exit`, in typing order. */
  function Submitted(lines: seq<string>, defaultLevel: LogLevel): seq<Entry>
  {
    if |lines| == 0 || lines[0] == "exit" then []
    else [ParseLine(lines[0], defaultLevel).entry] + Submitted(lines[1..], defaultLevel)
  }

  /** The actions of the input loop for `lines` when it performs `onExit` for
      `exit`: one push per line up to the first `exit`, then `onExit`, and
      nothing after it. */
  function InputLoop(lines: seq<string>, defaultLevel: LogLevel, onExit: seq<Action>): seq<Action>
  {
    if |lines| == 0 then []
    else match ParseLine(lines[0], defaultLevel)
      case Exit => onExit
      case Enqueue(e) => [Produce(e)] + InputLoop(lines[1..], defaultLevel, onExit)
  }

  /** The input loop pushes exactly the submitted entries, in order, raises
      the exit flag exactly when `exit` was typed, pushes nothing after it,
      and performs no other action than its pushes and `onExit`. */
  lemma {:induction false} InputLoopShape(lines: seq<string>, defaultLevel: LogLevel, onExit: seq<Action>)
    requires ProducerQuiet(onExit) && RaisesExit(onExit)
    ensures ExitIsLast(InputLoop(lines, defaultLevel, onExit))
    ensures Pushed(InputLoop(lines, defaultLevel, onExit)) == Submitted(lines, defaultLevel)
    ensures RaisesExit(InputLoop(lines, defaultLevel, onExit)) <==> "exit" in lines
    ensures forall a :: a in InputLoop(lines, defaultLevel, onExit) && !a.Produce? ==> a in onExit
    decreases |lines|
  {
    if |lines| > 0 {
      var acts := InputLoop(lines, defaultLevel, onExit);
      if lines[0] == "exit" {
        ProducerQuietExitIsLast(onExit);
        QuietPushesNothing(onExit);
      } else {
        InputLoopShape(lines[1..], defaultLevel, onExit);
        assert acts[1..] == InputLoop(lines[1..], defaultLevel, onExit);
        assert acts == [acts[0]] + acts[1..];
        assert lines == [lines[0]] + lines[1..];
      }
    }
  }

  /** The input loop as written: on `exit` it stores the flag and notifies,
      neither under `queueMutex`. It pushes exactly the submitted entries,
      raises the flag exactly when `exit` was typed, and pushes nothing after
      it. */
  function ProducerActions(lines: seq<string>, defaultLevel: LogLevel): (acts: seq<Action>)
    ensures ExitIsLast(acts) && Pushed(acts) == Submitted(lines, defaultLevel)
    ensures StoreFlag in acts <==> "exit" in lines
    ensures ShutdownLocked !in acts
  {
    var acts := InputLoop(lines, defaultLevel, [StoreFlag, Notify]);
    InputLoopShape(lines, defaultLevel, [StoreFlag, Notify]);
    acts
  }

  /** The input loop with the flag stored while holding `queueMutex`: the same
      pushes, and the flag raised the same way, but never without the lock. */
  function ProducerActionsLocked(lines: seq<string>, defaultLevel: LogLevel): (acts: seq<Action>)
    ensures ExitIsLast(acts) && Pushed(acts) == Submitted(lines, defaultLevel)
    ensures ShutdownLocked in acts <==> "exit" in lines
    ensures StoreFlag !in acts
  {
    var acts := InputLoop(lines, defaultLevel, [ShutdownLocked]);
    InputLoopShape(lines, defaultLevel, [ShutdownLocked]);
    acts
  }

  /** The producer's actions of an execution: everything but the worker's
      passes. */
  function Producers(acts: seq<Action>): (r: seq<Action>)
    ensures |r| <= |acts|
  {
    if |acts| == 0 then []
    else (if acts[0].Work? then [] else [acts[0]]) + Producers(acts[1..])
  }

  /** The worker's passes neither push nor raise the flag, so the facts about
      the producer's actions carry over to the whole execution. */
  lemma {:induction false} ProducersKeepFacts(acts: seq<Action>)
    ensures Pushed(Producers(acts)) == Pushed(acts)
    ensures forall a :: a in Producers(acts) <==> a in acts && !a.Work?
    ensures ProducerQuiet(Producers(acts)) ==> ProducerQuiet(acts)
    ensures ExitIsLast(Producers(acts)) ==> ExitIsLast(acts)
    decreases |acts|
  {
    if |acts| > 0 {
      ProducersKeepFacts(acts[1..]);
      var p := Producers(acts);
      var tail := Producers(acts[1..]);
      assert acts == [acts[0]] + acts[1..];
      if acts[0].Work? {
        assert p == tail;
      } else {
        assert p == [acts[0]] + tail;
        assert p[1..] == tail;
      }
      if ProducerQuiet(p) {
        assert ProducerQuiet(tail) by {
          forall i | 0 <= i < |tail| ensures !tail[i].Produce? {
            if !acts[0].Work? {
              assert tail[i] == p[i + 1];
            }
          }
        }
        forall i | 0 <= i < |acts| ensures !acts[i].Produce? {
          if i > 0 {
            assert acts[i] == acts[1..][i - 1];
          } else if !acts[0].Work? {
            assert p[0] == acts[0];
          }
        }
      }
      if ExitIsLast(p) && RaisesFlag(acts[0]) {
        assert ProducerQuiet(tail);
        assert ProducerQuiet(acts[1..]);
      }
    }
  }

  /** End to end, as written: in any execution whose producer actions are
      those of the input loop for `lines`, however the worker's steps
      interleave with them, a worker that has left its loop has handed the
      logger exactly the entries for the lines before the first `exit`, in
      typing order, and `exit` was typed. */
  lemma TypedLinesAreDelivered(lines: seq<string>, defaultLevel: LogLevel, acts: seq<Action>)
    requires Producers(acts) == ProducerActions(lines, defaultLevel)
    ensures var r := Run(Start, acts);
            r.phase.Exited? ==> r.delivered == Submitted(lines, defaultLevel) && "exit" in lines
  {
    ProducersKeepFacts(acts);
    NoLossOnExit(acts);
  }

  /** As written, typing `exit` can leave the worker blocked for good, so
      `worker.join()` never returns: the worker finds the queue empty, the
      input loop stores the flag and notifies before the worker blocks, and
      no further notification ever comes. */
  lemma ExitCanHang(defaultLevel: LogLevel, n: nat)
    ensures var acts := [Work, StoreFlag, Notify, Work];
            var r := Run(Start, acts);
            Producers(acts) == ProducerActions(["exit"], defaultLevel)
            && r.shared.exitFlag && !Run(r, Works(n)).phase.Exited?
  {
    var acts := [Work, StoreFlag, Notify, Work];
    assert ParseLine(["exit"][0], defaultLevel) == Exit;
    assert InputLoop(["exit"], defaultLevel, [StoreFlag, Notify]) == [StoreFlag, Notify];
    assert acts[1..] == [StoreFlag, Notify, Work];
    assert acts[1..][1..] == [Notify, Work];
    assert acts[1..][1..][1..] == [Work];
    assert Producers(acts) == [StoreFlag, Notify];
    LostWakeup(n);
  }

  /** End to end, with the flag stored under the lock: besides the guarantee
      above, once `exit` has been typed a worker that has not left its loop
      is never stuck in its wait, and further passes make it deliver the rest
      and leave. */
  lemma TypedLinesAreDeliveredLocked(lines: seq<string>, defaultLevel: LogLevel, acts: seq<Action>)
    requires Producers(acts) == ProducerActionsLocked(lines, defaultLevel)
    ensures var r := Run(Start, acts);
            r.phase.Exited? ==> r.delivered == Submitted(lines, defaultLevel) && "exit" in lines
    ensures var r := Run(Start, acts);
            var fin := Run(r, Works(|r.shared.queue| + 1));
            "exit" in lines && !r.phase.Exited? ==>
              r.phase.Awake? && fin.phase.Exited? && fin.delivered == Submitted(lines, defaultLevel)
  {
    ProducersKeepFacts(acts);
    NoLossOnExit(acts);
    var r := Run(Start, acts);
    RunConserves(Start, acts);
    ExitFlagMonotone(Start, acts);
    RunKeepsNoLostWakeup(Start, acts);
    if "exit" in lines && !r.phase.Exited? {
      DrainAfterExit(r);
    }
  }

  /** What `std::getline` leaves in `input` on read `i`: the `i`-th line, or
      the empty string once standard input is exhausted, since the stream's
      failure is never tested. */
  function ReadInput(lines: seq<string>, i: nat): string
  {
    if i < |lines| then lines[i] else ""
  }

  /** The first `n` reads of the input loop. */
  function Reads(lines: seq<string>, n: nat): (r: seq<string>)
    ensures |r| == n
    ensures n <= |lines| ==> r == lines[..n]
    ensures |lines| <= n ==> r[..|lines|] == lines && forall i :: |lines| <= i < n ==> r[i] == ""
  {
    seq(n, i requires 0 <= i => ReadInput(lines, i))
  }

  /** Lines without `exit` are each submitted. */
  lemma {:induction false} SubmittedWithoutExit(lines: seq<string>, defaultLevel: LogLevel)
    requires "exit" !in lines
    ensures |Submitted(lines, defaultLevel)| == |lines|
    decreases |lines|
  {
    if |lines| > 0 {
      assert "exit" !in lines[1..] by {
        assert lines == [lines[0]] + lines[1..];
      }
      SubmittedWithoutExit(lines[1..], defaultLevel);
    }
  }

  /** As written, input that ends without `exit` never stops the producer:
      however many reads it makes, it never raises the exit flag and pushes
      one entry per read, empty ones past the end of the input. */
  lemma EndOfInputNeverExits(lines: seq<string>, defaultLevel: LogLevel, n: nat)
    requires "exit" !in lines
    ensures var acts := ProducerActions(Reads(lines, n), defaultLevel);
            !RaisesExit(acts) && |Pushed(acts)| == n
  {
    var rs := Reads(lines, n);
    assert "exit" !in rs by {
      forall i | 0 <= i < n ensures rs[i] != "exit" {
        if i < |lines| {
          assert rs[i] == lines[i] by {
            if n <= |lines| {
              assert rs == lines[..n];
            } else {
              assert rs[..|lines|][i] == lines[i];
            }
          }
          assert lines[i] in lines;
        }
      }
    }
    SubmittedWithoutExit(rs, defaultLevel);
  }

  /** Submitting stops at the first `exit`, so an `exit` after the lines adds
      nothing. */
  lemma {:induction false} SubmittedBeforeExit(lines: seq<string>, defaultLevel: LogLevel)
    ensures Submitted(lines + ["exit"], defaultLevel) == Submitted(lines, defaultLevel)
    decreases |lines|
  {
    if |lines| > 0 {
      assert (lines + ["exit"])[1..] == lines[1..] + ["exit"];
      SubmittedBeforeExit(lines[1..], defaultLevel);
    }
  }

  /** With end of input read as `exit`, every session requests exit, and the
      same entries are submitted as before: all lines up to the first `exit`,
      or all of them. Only the end-of-input fix is applied: the flag is still
      stored without the lock. */
  lemma EndOfInputExits(lines: seq<string>, defaultLevel: LogLevel)
    ensures var acts := ProducerActions(lines + ["exit"], defaultLevel);
            RaisesExit(acts) && Pushed(acts) == Submitted(lines, defaultLevel)
  {
    assert "exit" in lines + ["exit"] by {
      assert (lines + ["exit"])[|lines|] == "exit";
    }
    SubmittedBeforeExit(lines, defaultLevel);
  }

  // ---------------------------------------------------------------------------
  // Command line and start-up

  /** The file name and default level the program runs with. */
  datatype Config = Config(logFile: string, defaultLevel: LogLevel)

  /** `app.log` at INFO unless the command line says otherwise. */
  const Defaults: Config := Config("app.log", INFO)

  /** The level a `--loglevel` value selects: the level it names, except that
      there is no INFO branch, so `INFO` and every other value leave the
      current level, INFO by default, in place. */
  function ArgLevel(s: string, current: LogLevel): (r: LogLevel)
    ensures r == current || (IsNamed(r) && r != INFO && LevelToString(r) == s)
    ensures forall l :: IsNamed(l) && l != INFO && LevelToString(l) == s ==> r == l
  {
    if s == "DEBUG" then DEBUG
    else if s == "WARNING" then WARNING
    else if s == "ERROR" then ERROR
    else current
  }

  /** The argv scan as written, over the arguments not yet visited. An option
      with a following argument assigns the option token itself (`argv[i++]`
      reads before it increments) and then skips one argument; an option with
      nothing after it is ignored like any other argument. So the default
      level never changes and the file name can only become `--logfile`. */
  function ScanArgs(args: seq<string>, cfg: Config): (r: Config)
    ensures r.defaultLevel == cfg.defaultLevel
    ensures r.logFile == cfg.logFile || r.logFile == "--logfile"
    decreases |args|
  {
    if |args| == 0 then cfg
    else if args[0] == "--logfile" && |args| >= 2 then
      ScanArgs(args[2..], cfg.(logFile := args[0]))
    else if args[0] == "--loglevel" && |args| >= 2 then
      ScanArgs(args[2..], cfg.(defaultLevel := ArgLevel(args[0], cfg.defaultLevel)))
    else ScanArgs(args[1..], cfg)
  }

  /** The whole argv, program name included, scanned from index 0. */
  function ParseCommandLine(argv: seq<string>): (r: Config)
    ensures r.defaultLevel == INFO
    ensures r.logFile == "app.log" || r.logFile == "--logfile"
  {
    ScanArgs(argv, Defaults)
  }

  /** Concrete inputs showing the scan as written: the path after `--logfile`
      and the level after `--loglevel` are skipped, not read, and a trailing
      option is ignored. */
  lemma ScanArgsReadsOptionToken()
    ensures ParseCommandLine(["logger", "--logfile", "out.log"]) == Config("--logfile", INFO)
    ensures ParseCommandLine(["logger", "--loglevel", "DEBUG"]) == Config("app.log", INFO)
    ensures ParseCommandLine(["logger", "--logfile"]) == Defaults
  {
    var a := ["logger", "--logfile", "out.log"];
    assert a[1..] == ["--logfile", "out.log"];
    assert a[1..][2..] == [];
    var b := ["logger", "--loglevel", "DEBUG"];
    assert b[1..] == ["--loglevel", "DEBUG"];
    assert b[1..][2..] == [];
    var c := ["logger", "--logfile"];
    assert c[1..] == ["--logfile"];
    assert c[1..][1..] == [];
  }

  /** One option of a well-formed command line. */
  datatype CliOption = LogFileOpt(path: string) | LogLevelOpt(name: string)

  /** The tokens of a list of options, each option followed by its value. */
  function RenderOptions(opts: seq<CliOption>): (args: seq<string>)
    ensures |args| == 2 * |opts|
  {
    if |opts| == 0 then []
    else
      (match opts[0]
       case LogFileOpt(p) => ["--logfile", p]
       case LogLevelOpt(n) => ["--loglevel", n])
      + RenderOptions(opts[1..])
  }

  /** Reference meaning of a list of options: each one overrides what came
      before it. */
  function ApplyOptions(opts: seq<CliOption>, cfg: Config): Config
  {
    if |opts| == 0 then cfg
    else
      var next := match opts[0]
        case LogFileOpt(p) => cfg.(logFile := p)
        case LogLevelOpt(n) => cfg.(defaultLevel := ArgLevel(n, cfg.defaultLevel));
      ApplyOptions(opts[1..], next)
  }

  /** Whether some option sets the file name. */
  predicate HasLogFileOpt(opts: seq<CliOption>) {
    exists i :: 0 <= i < |opts| && opts[i].LogFileOpt?
  }

  /** On a well-formed command line the scan as written ignores every value:
      the level stays INFO and the file name is `--logfile` exactly when a
      `--logfile` option is present. */
  lemma {:induction false} ScanArgsIgnoresValues(opts: seq<CliOption>, cfg: Config)
    ensures ScanArgs(RenderOptions(opts), cfg)
            == cfg.(logFile := if HasLogFileOpt(opts) then "--logfile" else cfg.logFile)
    decreases |opts|
  {
    if |opts| > 0 {
      var args := RenderOptions(opts);
      assert args[2..] == RenderOptions(opts[1..]);
      match opts[0]
      case LogFileOpt(p) =>
        ScanArgsStaysLogfile(RenderOptions(opts[1..]), cfg.(logFile := "--logfile"));
        assert HasLogFileOpt(opts) by { assert opts[0].LogFileOpt?; }
      case LogLevelOpt(n) =>
        ScanArgsIgnoresValues(opts[1..], cfg);
        assert HasLogFileOpt(opts) <==> HasLogFileOpt(opts[1..]) by {
          if HasLogFileOpt(opts) {
            var i :| 0 <= i < |opts| && opts[i].LogFileOpt?;
            assert opts[1..][i - 1] == opts[i];
          }
          if HasLogFileOpt(opts[1..]) {
            var i :| 0 <= i < |opts[1..]| && opts[1..][i].LogFileOpt?;
            assert opts[i + 1] == opts[1..][i];
          }
        }
    }
  }

  /** Once the file name is `--logfile`, the scan as written keeps it so. */
  lemma {:induction false} ScanArgsStaysLogfile(args: seq<string>, cfg: Config)
    requires cfg.logFile == "--logfile"
    ensures ScanArgs(args, cfg) == cfg
    decreases |args|
  {
    if |args| > 0 {
      if args[0] == "--logfile" && |args| >= 2 {
        ScanArgsStaysLogfile(args[2..], cfg);
      } else if args[0] == "--loglevel" && |args| >= 2 {
        ScanArgsStaysLogfile(args[2..], cfg);
      } else {
        ScanArgsStaysLogfile(args[1..], cfg);
      }
    }
  }

  /** The scan as evidently intended: an option with a following argument
      takes that argument as its value and skips it. */
  function ScanArgsIntended(args: seq<string>, cfg: Config): Config
    decreases |args|
  {
    if |args| == 0 then cfg
    else if args[0] == "--logfile" && |args| >= 2 then
      ScanArgsIntended(args[2..], cfg.(logFile := args[1]))
    else if args[0] == "--loglevel" && |args| >= 2 then
      ScanArgsIntended(args[2..], cfg.(defaultLevel := ArgLevel(args[1], cfg.defaultLevel)))
    else ScanArgsIntended(args[1..], cfg)
  }

  /** The intended scan reads back exactly what a list of options says. */
  lemma {:induction false} ScanArgsIntendedRoundTrip(opts: seq<CliOption>, cfg: Config)
    ensures ScanArgsIntended(RenderOptions(opts), cfg) == ApplyOptions(opts, cfg)
    decreases |opts|
  {
    if |opts| > 0 {
      var args := RenderOptions(opts);
      assert args[2..] == RenderOptions(opts[1..]);
      match opts[0]
      case LogFileOpt(p) =>
        ScanArgsIntendedRoundTrip(opts[1..], cfg.(logFile := p));
      case LogLevelOpt(n) =>
        ScanArgsIntendedRoundTrip(opts[1..], cfg.(defaultLevel := ArgLevel(n, cfg.defaultLevel)));
    }
  }

  /** With the program name in front, the intended scan honours the options:
      `prog --logfile out.log --loglevel DEBUG` runs on `out.log` at DEBUG. */
  lemma ParseCommandLineIntended(prog: string, opts: seq<CliOption>)
    requires prog != "--logfile" && prog != "--loglevel"
    ensures ScanArgsIntended([prog] + RenderOptions(opts), Defaults) == ApplyOptions(opts, Defaults)
    ensures ScanArgsIntended([prog, "--logfile", "out.log", "--loglevel", "DEBUG"], Defaults)
            == Config("out.log", DEBUG)
  {
    assert ([prog] + RenderOptions(opts))[1..] == RenderOptions(opts);
    ScanArgsIntendedRoundTrip(opts, Defaults);
    var example := [LogFileOpt("out.log"), LogLevelOpt("DEBUG")];
    assert RenderOptions(example) == ["--logfile", "out.log", "--loglevel", "DEBUG"] by {
      assert example[1..][1..] == [];
    }
    ScanArgsIntendedRoundTrip(example, Defaults);
    assert example[1..][1..] == [];
    assert [prog, "--logfile", "out.log", "--loglevel", "DEBUG"] == [prog] + RenderOptions(example);
  }

  /** How start-up ends: with an exit status, or with the worker running on
      a logger. */
  datatype Launch = Failed(exitCode: int) | Running(logger: FileLogger)

  /** Start-up after the scan: create the logger and give up with status 1
      when it is null. The factory never returns null, so start-up always
      proceeds with a logger for the configured file and level. */
  function Startup(cfg: Config): (r: Launch)
    ensures r.Running?
    ensures r.logger.filename == cfg.logFile && GetLogLevel(r.logger) == cfg.defaultLevel
  {
    match CreateFileLogger(cfg.logFile, cfg.defaultLevel)
    case None => Failed(1)
    case Some(logger) => Running(logger)
  }
}
