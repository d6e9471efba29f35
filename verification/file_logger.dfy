/** The leveled file sink: `FileLogger` and its factory.

    The destination file is a sequence of lines; each line stands for the text
    written before `std::endl`, and `Contents` renders the bytes on disk. The
    wall-clock timestamp and whether opening the file for append succeeded are
    inputs of each call. */
module FileLogging {

  import opened Wrappers
  import opened Levels
  import opened Strings

  /** A logger: its destination path and its current minimum level. */
  datatype FileLogger = FileLogger(filename: string, minLevel: LogLevel)

  /** The destination file, one element per written line. */
  type File = seq<string>

  /** What a `log` call returns, together with the file it leaves behind. */
  datatype LogResult = LogResult(ok: bool, file: File)

  /** The bytes of a file: every line followed by its terminator. */
  function Contents(f: File): string
  {
    if |f| == 0 then "" else f[0] + "\n" + Contents(f[1..])
  }

  /** Appending a line to the file appends exactly that line and one
      terminator to its bytes; earlier bytes are untouched. */
  lemma {:induction false} ContentsAppend(f: File, line: string)
    ensures Contents(f + [line]) == Contents(f) + line + "\n"
  {
    if |f| == 0 {
      assert f + [line] == [line];
      assert Contents([line][1..]) == "";
    } else {
      assert (f + [line])[1..] == f[1..] + [line];
      ContentsAppend(f[1..], line);
    }
  }

  /** The three fields a record is made of. */
  datatype Record = Record(timestamp: string, levelName: string, message: string)

  /** Splits `s` around its first `c`, or None when `c` does not occur. */
  function SplitAt(s: string, c: char): Option<(string, string)>
  {
    match IndexOf(s, c)
    case None => None
    case Some(k) => Some((s[..k], s[k + 1..]))
  }

  lemma SplitAtFirst(a: string, c: char, b: string)
    requires c !in a
    ensures SplitAt(a + [c] + b, c) == Some((a, b))
  {
    var s := a + [c] + b;
    IndexOfAfter(a, c, b);
    assert s[..|a|] == a;
    assert s[|a| + 1..] == b;
  }

  /** Reads the part of a record after the timestamp: a space, a bracketed
      level name, a space, and the message as the rest. */
  function ParseLevelAndMessage(s: string): Option<(string, string)>
  {
    if |s| < 2 || s[..2] != " [" then None
    else match SplitAt(s[2..], ']')
      case None => None
      case Some((name, tail)) =>
        if |tail| == 0 || tail[0] != ' ' then None else Some((name, tail[1..]))
  }

  /** Reads a record back from a line: a bracketed timestamp, then the level
      name and message. */
  function ParseRecord(line: string): Option<Record>
  {
    if |line| == 0 || line[0] != '[' then None
    else match SplitAt(line[1..], ']')
      case None => None
      case Some((timestamp, after)) =>
        match ParseLevelAndMessage(after)
        case None => None
        case Some((name, message)) => Some(Record(timestamp, name, message))
  }

  lemma ParseLevelAndMessageShape(n: string, m: string)
    requires ']' !in n
    ensures ParseLevelAndMessage(" [" + n + "] " + m) == Some((n, m))
  {
    var x := " [" + n + "] " + m;
    var y := " " + m;
    assert x[..2] == " [";
    assert x[2..] == n + [']'] + y;
    SplitAtFirst(n, ']', y);
  }

  /** The parser splits a line of the record shape at the first two `]`. */
  lemma ParseRecordShape(t: string, n: string, m: string)
    requires ']' !in t && ']' !in n
    ensures ParseRecord("[" + t + "] [" + n + "] " + m) == Some(Record(t, n, m))
  {
    var x := " [" + n + "] " + m;
    ParseLevelAndMessageShape(n, m);
    var line := "[" + t + "] [" + n + "] " + m;
    assert line[0] == '[';
    assert line[1..] == t + [']'] + x;
    SplitAtFirst(t, ']', x);
  }

  /** One log record, `[timestamp] [LEVEL] message`. It can be read back into
      the timestamp, the level's name and the message it was made of whenever
      the timestamp holds no `]` (the `%Y-%m-%d %H:%M:%S` format never does);
      the message may contain anything. */
  function FormatRecord(timestamp: string, level: LogLevel, message: string): (line: string)
    ensures ']' !in timestamp
            ==> ParseRecord(line) == Some(Record(timestamp, LevelToString(level), message))
  {
    var line := "[" + timestamp + "] [" + LevelToString(level) + "] " + message;
    assert ']' !in timestamp ==> ParseRecord(line) == Some(Record(timestamp, LevelToString(level), message)) by {
      if ']' !in timestamp {
        ParseRecordShape(timestamp, LevelToString(level), message);
      }
    }
    line
  }

  /** Two records with `]`-free timestamps are equal exactly when their
      timestamp, level name and message are. */
  lemma FormatRecordInjective(t1: string, l1: LogLevel, m1: string, t2: string, l2: LogLevel, m2: string)
    requires ']' !in t1 && ']' !in t2
    ensures FormatRecord(t1, l1, m1) == FormatRecord(t2, l2, m2)
            <==> t1 == t2 && m1 == m2 && LevelToString(l1) == LevelToString(l2)
  {
  }

  /** `FileLogger::log`. The level filter comes first, before the file is
      opened, so a filtered message succeeds even when the destination cannot
      be opened. A message that passes fails, with the file untouched, when the
      open fails. Otherwise the record is written and the call returns true
      without looking at the stream again: `stored` says whether the write
      reached the file, and when it did not the call still reports success. */
  function Log(logger: FileLogger, file: File, message: string, level: LogLevel,
               timestamp: string, canOpen: bool, stored: bool): (r: LogResult)
    ensures r.ok <==> !Passes(level, logger.minLevel) || canOpen
    ensures |file| <= |r.file| <= |file| + 1 && r.file[..|file|] == file
    ensures |r.file| == |file| + 1 <==> Passes(level, logger.minLevel) && canOpen && stored
    ensures |r.file| == |file| + 1 ==> r.file[|file|] == FormatRecord(timestamp, level, message)
  {
    if level < logger.minLevel then LogResult(true, file)
    else if !canOpen then LogResult(false, file)
    else LogResult(true, if stored then file + [FormatRecord(timestamp, level, message)] else file)
  }

  /** `log` with the level argument left out uses INFO. */
  function LogDefault(logger: FileLogger, file: File, message: string,
                      timestamp: string, canOpen: bool, stored: bool): (r: LogResult)
    ensures r == Log(logger, file, message, INFO, timestamp, canOpen, stored)
    ensures logger.minLevel <= INFO && canOpen && stored
            ==> r.ok && r.file == file + [FormatRecord(timestamp, INFO, message)]
  {
    Log(logger, file, message, INFO, timestamp, canOpen, stored)
  }

  /** At the byte level a `log` call appends either nothing or one record
      followed by one terminator. */
  lemma LogAppendsOneLine(logger: FileLogger, file: File, message: string, level: LogLevel,
                          timestamp: string, canOpen: bool, stored: bool)
    ensures var r := Log(logger, file, message, level, timestamp, canOpen, stored);
            Contents(r.file)
            == Contents(file) + (if Passes(level, logger.minLevel) && canOpen && stored
                                 then FormatRecord(timestamp, level, message) + "\n" else "")
  {
    if Passes(level, logger.minLevel) && canOpen && stored {
      ContentsAppend(file, FormatRecord(timestamp, level, message));
    }
  }

  /** `setLogLevel`: the minimum changes, the destination does not. */
  function SetLogLevel(logger: FileLogger, level: LogLevel): (r: FileLogger)
    ensures GetLogLevel(r) == level
    ensures r.filename == logger.filename
  {
    logger.(minLevel := level)
  }

  /** `getLogLevel`. */
  function GetLogLevel(logger: FileLogger): LogLevel
  {
    logger.minLevel
  }

  /** Only the last `setLogLevel` matters, and setting the level a logger
      already has changes nothing. */
  lemma SetLogLevelLastWins(logger: FileLogger, a: LogLevel, b: LogLevel)
    ensures SetLogLevel(SetLogLevel(logger, a), b) == SetLogLevel(logger, b)
    ensures SetLogLevel(logger, GetLogLevel(logger)) == logger
  {
  }

  /** `createFileLogger`: never null, and the logger has the requested
      destination and minimum. The `std::make_unique` allocation failure path
      throws rather than yielding null. */
  function CreateFileLogger(filename: string, level: LogLevel): (r: Option<FileLogger>)
    ensures r.Some?
    ensures r.value.filename == filename && GetLogLevel(r.value) == level
  {
    Some(FileLogger(filename, level))
  }

  /** `createFileLogger` with the level argument left out starts at INFO. */
  function CreateFileLoggerDefault(filename: string): (r: Option<FileLogger>)
    ensures r.Some? && r.value.filename == filename && GetLogLevel(r.value) == INFO
  {
    CreateFileLogger(filename, INFO)
  }

  /** One call of `log`, with the inputs the environment supplies. */
  datatype Call = Call(message: string, level: LogLevel, timestamp: string, canOpen: bool, stored: bool)

  /** Whether `logger` writes a line for call `c`. */
  predicate Accepts(logger: FileLogger, c: Call) {
    Passes(c.level, logger.minLevel) && c.canOpen && c.stored
  }

  /** The record a call writes when it is accepted. */
  function LineOf(c: Call): string {
    FormatRecord(c.timestamp, c.level, c.message)
  }

  /** Reference definition: the records of the accepted calls, in call order. */
  function Written(logger: FileLogger, calls: seq<Call>): seq<string>
  {
    if |calls| == 0 then []
    else (if Accepts(logger, calls[0]) then [LineOf(calls[0])] else []) + Written(logger, calls[1..])
  }

  lemma {:induction false} WrittenAppend(logger: FileLogger, a: seq<Call>, b: seq<Call>)
    ensures Written(logger, a + b) == Written(logger, a) + Written(logger, b)
  {
    if |a| == 0 {
      assert a + b == b;
    } else {
      assert (a + b)[1..] == a[1..] + b;
      WrittenAppend(logger, a[1..], b);
    }
  }

  /** Number of accepted calls. */
  function AcceptedCount(logger: FileLogger, calls: seq<Call>): nat
  {
    if |calls| == 0 then 0
    else (if Accepts(logger, calls[0]) then 1 else 0) + AcceptedCount(logger, calls[1..])
  }

  /** What a run of `log` calls on one logger leaves: the file and each call's
      return value. */
  datatype Batch = Batch(file: File, results: seq<bool>)

  /** A run of `log` calls on the same logger, in order. */
  function LogAll(logger: FileLogger, file: File, calls: seq<Call>): (r: Batch)
    ensures |r.results| == |calls|
    decreases |calls|
  {
    if |calls| == 0 then Batch(file, [])
    else
      var c := calls[0];
      var one := Log(logger, file, c.message, c.level, c.timestamp, c.canOpen, c.stored);
      var rest := LogAll(logger, one.file, calls[1..]);
      Batch(rest.file, [one.ok] + rest.results)
  }

  /** The file after a run of calls is the original file followed by the
      records of the accepted calls in call order, and each call reports
      failure exactly when it passed the filter and the open failed. */
  lemma {:induction false} LogAllAppendsInOrder(logger: FileLogger, file: File, calls: seq<Call>)
    ensures LogAll(logger, file, calls).file == file + Written(logger, calls)
    ensures forall i :: 0 <= i < |calls| ==>
              (LogAll(logger, file, calls).results[i] <==> !Passes(calls[i].level, logger.minLevel) || calls[i].canOpen)
    decreases |calls|
  {
    if |calls| > 0 {
      var c := calls[0];
      var one := Log(logger, file, c.message, c.level, c.timestamp, c.canOpen, c.stored);
      LogAllAppendsInOrder(logger, one.file, calls[1..]);
      var r := LogAll(logger, file, calls);
      var rest := LogAll(logger, one.file, calls[1..]);
      assert r.file == rest.file && r.results == [one.ok] + rest.results;
      assert one.file == file + Written(logger, [c])
             && Written(logger, calls) == Written(logger, [c]) + Written(logger, calls[1..]) by {
        assert calls == [c] + calls[1..];
        WrittenAppend(logger, [c], calls[1..]);
      }
      forall i | 0 <= i < |calls|
        ensures r.results[i] <==> !Passes(calls[i].level, logger.minLevel) || calls[i].canOpen
      {
        if i > 0 {
          assert calls[i] == calls[1..][i - 1];
        }
      }
    }
  }

  /** Exactly one line per accepted call is written, and nothing for the
      others. */
  lemma {:induction false} WrittenCount(logger: FileLogger, calls: seq<Call>)
    ensures |Written(logger, calls)| == AcceptedCount(logger, calls)
  {
    if |calls| > 0 {
      WrittenCount(logger, calls[1..]);
    }
  }

  /** The record of the `i`-th call, when accepted, sits right after the
      records of the accepted calls before it. */
  lemma {:induction false} WrittenPosition(logger: FileLogger, calls: seq<Call>, i: nat)
    requires i < |calls| && Accepts(logger, calls[i])
    ensures AcceptedCount(logger, calls[..i]) < |Written(logger, calls)|
    ensures Written(logger, calls)[AcceptedCount(logger, calls[..i])] == LineOf(calls[i])
  {
    assert calls == calls[..i] + calls[i..];
    WrittenAppend(logger, calls[..i], calls[i..]);
    WrittenCount(logger, calls[..i]);
    assert calls[i..][0] == calls[i];
  }

  /** Every accepted message appears in the file after the run, as its own
      record, at the position given by the accepted calls before it. */
  lemma EveryAcceptedCallIsWritten(logger: FileLogger, file: File, calls: seq<Call>, i: nat)
    requires i < |calls| && Accepts(logger, calls[i])
    ensures var f := LogAll(logger, file, calls).file;
            |file| + AcceptedCount(logger, calls[..i]) < |f|
            && f[|file| + AcceptedCount(logger, calls[..i])] == LineOf(calls[i])
  {
    LogAllAppendsInOrder(logger, file, calls);
    WrittenPosition(logger, calls, i);
  }
}
