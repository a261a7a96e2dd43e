/** The logger of src/logger.js: four ranked levels, a threshold chosen once
    from `LOG_LEVEL`, one fixed line format, and every emitted line sent to
    the console and appended to `auto-company.log`. Timestamps come from the
    clock and are parameters here; the file system's answer to an append is
    a field the caller sets. */
module Logger {
  import opened Options
  import opened Strings
  import opened Config

  datatype Level = Debug | Info | Warn | Error {
    /** `LOG_LEVELS` (src/logger.js:10-15). */
    function Rank(): nat {
      match this
      case Debug => 0
      case Info => 1
      case Warn => 2
      case Error => 3
    }

    /** The key the methods pass to `write`. */
    function Name(): string {
      match this
      case Debug => "debug"
      case Info => "info"
      case Warn => "warn"
      case Error => "error"
    }

    /** `level.toUpperCase()`. */
    function Upper(): string {
      match this
      case Debug => "DEBUG"
      case Info => "INFO"
      case Warn => "WARN"
      case Error => "ERROR"
    }
  }

  /** `LOG_LEVELS[key]`: the level whose name is exactly `key`, if any. */
  function LevelNamed(key: string): (r: Option<Level>)
    ensures r.Some? ==> r.value.Name() == key
    ensures r.None? ==> forall l: Level :: l.Name() != key
  {
    if key == "debug" then Some(Debug)
    else if key == "info" then Some(Info)
    else if key == "warn" then Some(Warn)
    else if key == "error" then Some(Error)
    else None
  }

  /** The level whose upper-case name is exactly `word`, if any. */
  function LevelUpper(word: string): (r: Option<Level>)
    ensures r.Some? ==> r.value.Upper() == word
  {
    if word == "DEBUG" then Some(Debug)
    else if word == "INFO" then Some(Info)
    else if word == "WARN" then Some(Warn)
    else if word == "ERROR" then Some(Error)
    else None
  }

  /** `LOG_LEVELS[config.get('LOG_LEVEL')] || LOG_LEVELS.info`: the setting
      is used as a property key (so `null` looks up `"null"`), and a missing
      level or rank 0 falls back to info. The threshold is therefore never
      below info. Settings that name a property every object inherits
      (`toString`, `constructor`, `__proto__`, ...) are outside this model:
      there the lookup yields a truthy non-number and the source emits every
      level. */
  function ConfiguredRank(setting: Option<Value>): (rank: nat)
    ensures 1 <= rank <= 3
    ensures rank == 1 <==> LevelNamed(ValueText(setting)) !in {Some(Warn), Some(Error)}
  {
    match LevelNamed(ValueText(setting))
    case Some(l) => if l.Rank() != 0 then l.Rank() else Info.Rank()
    case None => Info.Rank()
  }

  /** `write` goes on past its first line iff this holds (src/logger.js:43). */
  predicate Emits(level: Level, threshold: nat) {
    level.Rank() >= threshold
  }

  /** For every `LOG_LEVEL` that is not the name of an inherited object
      property, debug lines are never emitted, and info, warn and error
      lines are emitted exactly from the configured level up. */
  lemma DebugNeverEmitted(setting: Option<Value>)
    ensures !Emits(Debug, ConfiguredRank(setting))
    ensures Emits(Error, ConfiguredRank(setting))
    ensures ValueText(setting) == "debug" ==> ConfiguredRank(setting) == Info.Rank()
    ensures forall l: Level :: LevelNamed(ValueText(setting)) == Some(l) && l != Debug ==>
      ConfiguredRank(setting) == l.Rank()
  {
  }

  /** `format()`: `[ts] [LEVEL] [name] message` (src/logger.js:37-40). */
  function Format(ts: string, level: Level, name: string, message: string): (line: string)
    ensures StartsWith(line, "[" + ts + "] [" + level.Upper() + "] [")
    ensures EndsWith(line, "] " + message)
  {
    var head := "[" + ts + "] [" + level.Upper() + "] [";
    var tail := "] " + message;
    var line := head + name + tail;
    assert line[..|head|] == head;
    assert line[|line| - |tail|..] == tail;
    line
  }

  /** The text inside a leading `[...]` and what follows the `]`. */
  function Bracketed(s: string): Option<(string, string)> {
    if |s| > 0 && s[0] == '[' && ']' in s[1..] then
      var i := IndexOf(s[1..], ']');
      Some((s[1..][..i], s[1..][i + 1..]))
    else None
  }

  lemma BracketedOf(x: string, rest: string)
    requires ']' !in x
    ensures Bracketed("[" + x + "]" + rest) == Some((x, rest))
  {
    var s := "[" + x + "]" + rest;
    assert s[1..] == x + [']'] + rest;
    IndexOfAfter(x, ']', rest);
    assert s[1..][..|x|] == x;
    assert s[1..][|x| + 1..] == rest;
  }

  /** A space, then a bracketed field: the text inside and what follows. */
  function Field(s: string): Option<(string, string)> {
    if |s| > 0 && s[0] == ' ' then Bracketed(s[1..]) else None
  }

  lemma FieldOf(x: string, rest: string)
    requires ']' !in x
    ensures Field(" [" + x + "]" + rest) == Some((x, rest))
  {
    var s := " [" + x + "]" + rest;
    assert s[1..] == "[" + x + "]" + rest;
    BracketedOf(x, rest);
  }

  /** Reads a log line back into its timestamp, level, logger name and
      message. */
  function ParseLine(line: string): Option<(string, Level, string, string)> {
    match Bracketed(line)
    case None => None
    case Some((ts, r1)) =>
      match Field(r1)
      case None => None
      case Some((word, r2)) =>
        match Field(r2)
        case None => None
        case Some((name, r3)) =>
          if LevelUpper(word).None? || |r3| == 0 || r3[0] != ' ' then None
          else Some((ts, LevelUpper(word).value, name, r3[1..]))
  }

  /** A formatted line gives back its four parts whenever the timestamp
      and the logger name hold no `]` (an ISO timestamp never does). */
  lemma ParseFormat(ts: string, level: Level, name: string, message: string)
    requires ']' !in ts && ']' !in name
    ensures ParseLine(Format(ts, level, name, message)) == Some((ts, level, name, message))
  {
    var word := level.Upper();
    var r3 := " " + message;
    var r2 := " [" + name + "]" + r3;
    var r1 := " [" + word + "]" + r2;
    var line := Format(ts, level, name, message);
    assert line == "[" + ts + "]" + r1;
    BracketedOf(ts, r1);
    UpperNoBracket(level);
    FieldOf(word, r2);
    FieldOf(name, r3);
    UpperNamesLevel(level);
    assert Bracketed(line) == Some((ts, r1));
    assert Field(r1) == Some((word, r2));
    assert Field(r2) == Some((name, r3));
    assert LevelUpper(word) == Some(level);
    assert |r3| > 0 && r3[0] == ' ' && r3[1..] == message;
  }

  lemma UpperNoBracket(level: Level)
    ensures ']' !in level.Upper()
  {
  }

  lemma UpperNamesLevel(level: Level)
    ensures LevelUpper(level.Upper()) == Some(level)
  {
  }

  /** The rule line `cycleStart` draws above and below its title: 51 `═`. */
  function StartRule(): (r: string)
    ensures |r| == 51 && forall i :: 0 <= i < |r| ==> r[i] == '═'
  {
    Repeat('═', 51)
  }

  /** The rule line `cycleEnd` draws under its summary: 51 `─`. */
  function EndRule(): (r: string)
    ensures |r| == 51 && forall i :: 0 <= i < |r| ==> r[i] == '─'
  {
    Repeat('─', 51)
  }

  function StartTitle(cycle: int): string {
    "CYCLE #" + IntText(cycle) + " STARTED"
  }

  function EndSummary(cycle: int, status: string, duration: int, details: string): string {
    "CYCLE #" + IntText(cycle) + " " + status + " (" + IntText(duration) + "ms) " + details
  }

  /** `output.substring(0, 500)`: at most the first 500 characters. */
  function OutputExcerpt(output: string): (r: string)
    ensures |r| <= 500 && StartsWith(output, r)
    ensures |output| <= 500 ==> r == output
    ensures |output| > 500 ==> |r| == 500
  {
    if |output| <= 500 then output else output[..500]
  }

  /** The stderr line a failed append reports (src/logger.js:54): the fixed
      text and the error's message, which `console.error` joins with a
      space. */
  function FailureReport(e: string): (line: string)
    ensures StartsWith(line, "Failed to write to log file: ") && EndsWith(line, e)
  {
    var head := "Failed to write to log file: ";
    var line := head + e;
    assert line[..|head|] == head;
    assert line[|line| - |e|..] == e;
    line
  }

  /** The logger object. `console` holds the lines `console.log` printed,
      `stderr` those `console.error` printed, `logFile` the contents of
      `auto-company.log`, and `appendFailure` the error message an append
      to that file currently fails with, if it fails. */
  class Logger {
    const name: string
    const level: nat
    const logPath: string
    var console: seq<string>
    var stderr: seq<string>
    var logFile: string
    var appendFailure: Option<string>

    predicate Valid()
      reads this
    {
      1 <= level <= 3
    }

    /** `new Logger(name)`: the threshold comes from `LOG_LEVEL` and the
        file sits in `LOG_DIR` (src/logger.js:18-31). */
    constructor (name: string, logLevel: Option<Value>, logDir: string, existing: string)
      ensures Valid()
      ensures this.name == name && level == ConfiguredRank(logLevel)
      ensures logPath == JoinPath(logDir, "auto-company.log")
      ensures console == [] && stderr == [] && logFile == existing && appendFailure == None
    {
      this.name := name;
      level := ConfiguredRank(logLevel);
      logPath := JoinPath(logDir, "auto-company.log");
      console := [];
      stderr := [];
      logFile := existing;
      appendFailure := None;
    }

    /** `write(level, message)` with the clock reading `ts`: below the
        threshold nothing happens; otherwise the formatted line is printed,
        and appended with a newline unless the append fails, in which case
        the failure is reported on stderr and nothing is thrown. */
    method Write(lvl: Level, message: string, ts: string)
      modifies this
      ensures appendFailure == old(appendFailure)
      ensures !Emits(lvl, level) ==>
        console == old(console) && stderr == old(stderr) && logFile == old(logFile)
      ensures Emits(lvl, level) ==> console == old(console) + [Format(ts, lvl, name, message)]
      ensures Emits(lvl, level) && appendFailure.None? ==>
        logFile == old(logFile) + Format(ts, lvl, name, message) + "\n" && stderr == old(stderr)
      ensures Emits(lvl, level) && appendFailure.Some? ==>
        logFile == old(logFile) && stderr == old(stderr) + [FailureReport(appendFailure.value)]
    {
      if lvl.Rank() < level {
        return;
      }
      var formatted := Format(ts, lvl, name, message);
      console := console + [formatted];
      match appendFailure {
        case None =>
          logFile := logFile + formatted + "\n";
        case Some(e) =>
          stderr := stderr + [FailureReport(e)];
      }
    }

    /** `info(message)`: emitted exactly when the threshold is info; the
        line then reaches the console, and the log file or, when the append
        fails, a report on stderr. */
    method Info(message: string, ts: string)
      requires Valid()
      modifies this
      ensures Valid() && appendFailure == old(appendFailure)
      ensures level == 1 ==> console == old(console) + [Format(ts, Level.Info, name, message)]
      ensures level == 1 && appendFailure.None? ==>
        logFile == old(logFile) + Format(ts, Level.Info, name, message) + "\n" && stderr == old(stderr)
      ensures level == 1 && appendFailure.Some? ==>
        logFile == old(logFile) && stderr == old(stderr) + [FailureReport(appendFailure.value)]
      ensures level > 1 ==> console == old(console) && stderr == old(stderr) && logFile == old(logFile)
    {
      Write(Level.Info, message, ts);
    }

    /** `debug(message)`: never emitted, whatever the configuration. */
    method Debug(message: string, ts: string)
      requires Valid()
      modifies this
      ensures console == old(console) && stderr == old(stderr) && logFile == old(logFile)
      ensures appendFailure == old(appendFailure)
    {
      Write(Level.Debug, message, ts);
    }

    /** `error(message)`: always emitted, to the console and to the log
        file or, when the append fails, as a report on stderr. */
    method Error(message: string, ts: string)
      requires Valid()
      modifies this
      ensures appendFailure == old(appendFailure)
      ensures console == old(console) + [Format(ts, Level.Error, name, message)]
      ensures appendFailure.None? ==>
        logFile == old(logFile) + Format(ts, Level.Error, name, message) + "\n" && stderr == old(stderr)
      ensures appendFailure.Some? ==>
        logFile == old(logFile) && stderr == old(stderr) + [FailureReport(appendFailure.value)]
    {
      Write(Level.Error, message, ts);
    }

    /** `warn(message)`: emitted unless the threshold is error, and then
        written as `error` writes. */
    method Warn(message: string, ts: string)
      requires Valid()
      modifies this
      ensures appendFailure == old(appendFailure)
      ensures level <= 2 ==> console == old(console) + [Format(ts, Level.Warn, name, message)]
      ensures level <= 2 && appendFailure.None? ==>
        logFile == old(logFile) + Format(ts, Level.Warn, name, message) + "\n" && stderr == old(stderr)
      ensures level <= 2 && appendFailure.Some? ==>
        logFile == old(logFile) && stderr == old(stderr) + [FailureReport(appendFailure.value)]
      ensures level == 3 ==> console == old(console) && stderr == old(stderr) && logFile == old(logFile)
    {
      Write(Level.Warn, message, ts);
    }

    /** `cycleStart(n)`: a rule, the title, a rule, each at info level, so
        three lines exactly when the threshold is info and none otherwise;
        with a failing append each line costs one stderr report instead
        (src/logger.js:75-79). */
    method CycleStart(cycle: int, ts1: string, ts2: string, ts3: string)
      requires Valid()
      modifies this
      ensures Valid() && appendFailure == old(appendFailure)
      ensures level == 1 ==> console == old(console) + [
        Format(ts1, Level.Info, name, StartRule()),
        Format(ts2, Level.Info, name, StartTitle(cycle)),
        Format(ts3, Level.Info, name, StartRule())]
      ensures level == 1 && appendFailure.None? ==>
        logFile == old(logFile)
        + Format(ts1, Level.Info, name, StartRule()) + "\n"
        + Format(ts2, Level.Info, name, StartTitle(cycle)) + "\n"
        + Format(ts3, Level.Info, name, StartRule()) + "\n"
        && stderr == old(stderr)
      ensures level == 1 && appendFailure.Some? ==>
        logFile == old(logFile)
        && stderr == old(stderr) + [FailureReport(appendFailure.value),
          FailureReport(appendFailure.value), FailureReport(appendFailure.value)]
      ensures level > 1 ==> console == old(console) && stderr == old(stderr) && logFile == old(logFile)
    {
      Info(StartRule(), ts1);
      Info(StartTitle(cycle), ts2);
      Info(StartRule(), ts3);
    }

    /** `cycleEnd(n, status, duration, details)`: the summary and a rule
        (src/logger.js:81-84). */
    method CycleEnd(cycle: int, status: string, duration: int, details: string, ts1: string, ts2: string)
      requires Valid()
      modifies this
      ensures Valid() && appendFailure == old(appendFailure)
      ensures level == 1 ==> console == old(console) + [
        Format(ts1, Level.Info, name, EndSummary(cycle, status, duration, details)),
        Format(ts2, Level.Info, name, EndRule())]
      ensures level == 1 && appendFailure.None? ==>
        logFile == old(logFile)
        + Format(ts1, Level.Info, name, EndSummary(cycle, status, duration, details)) + "\n"
        + Format(ts2, Level.Info, name, EndRule()) + "\n"
        && stderr == old(stderr)
      ensures level == 1 && appendFailure.Some? ==>
        logFile == old(logFile)
        && stderr == old(stderr) + [FailureReport(appendFailure.value), FailureReport(appendFailure.value)]
      ensures level > 1 ==> console == old(console) && stderr == old(stderr) && logFile == old(logFile)
    {
      Info(EndSummary(cycle, status, duration, details), ts1);
      Info(EndRule(), ts2);
    }

    /** `commandStart(cmd)`: a debug line, so never emitted. */
    method CommandStart(cmd: string, ts: string)
      requires Valid()
      modifies this
      ensures console == old(console) && stderr == old(stderr) && logFile == old(logFile)
      ensures appendFailure == old(appendFailure)
    {
      Debug("Executing: " + cmd, ts);
    }

    /** `commandOutput(output)`: the first 500 characters at debug level,
        so never emitted either (src/logger.js:91-93). */
    method CommandOutput(output: string, ts: string)
      requires Valid()
      modifies this
      ensures console == old(console) && stderr == old(stderr) && logFile == old(logFile)
      ensures appendFailure == old(appendFailure)
    {
      Debug("Output: " + OutputExcerpt(output), ts);
    }

    /** `commandError(error)`: always emitted, as `error` writes. */
    method CommandError(error: string, ts: string)
      requires Valid()
      modifies this
      ensures appendFailure == old(appendFailure)
      ensures console == old(console) + [Format(ts, Level.Error, name, "Command failed: " + error)]
      ensures appendFailure.None? ==>
        logFile == old(logFile) + Format(ts, Level.Error, name, "Command failed: " + error) + "\n"
        && stderr == old(stderr)
      ensures appendFailure.Some? ==>
        logFile == old(logFile) && stderr == old(stderr) + [FailureReport(appendFailure.value)]
    {
      Error("Command failed: " + error, ts);
    }
  }
}
