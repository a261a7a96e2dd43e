/** The cycle controller `AutoLoop` of src/loop.js. Its three counters, its
    `running` flag and the files it touches (prompt, consensus and its
    backup, the state file, the log directory, the stop marker and the PID
    file) are the fields of the class `AutoLoop`; each method is proved
    against a function of the old state, and the properties of the loop are
    lemmas about those functions.

    The engine is an oracle: for every cycle the caller supplies what the
    engine call returned (or that it failed) and what the consensus file
    held when it came back. Clock readings are supplied the same way, and
    the sleeps the loop awaits are recorded as events. */
module Loop {
  import opened Options
  import opened Strings
  import opened Sorting
  import opened Config
  import opened CycleLogs

  // ------------------------------------------------------ engine results

  /** What `runEngine` resolves with; a `null` exit code (the process was
      killed by a signal) is `None`. */
  datatype ProcessResult = ProcessResult(code: Option<int>, stdout: string, stderr: string, duration: int)

  /** The engine call either resolves or rejects (spawn error, timeout). */
  datatype EngineOutcome = Exited(result: ProcessResult) | Failed(message: string)

  /** The markers `checkResult` scans for, in its order (src/loop.js:252-256). */
  const LimitPatterns: seq<string> := [
    "usage limit", "rate limit", "too many requests",
    "resource_exhausted", "overloaded", "quota", "429",
    "billing", "insufficient credits"
  ]

  /** Some marker occurs in the lower-cased output. */
  predicate MentionsLimit(output: string) {
    exists i | 0 <= i < |LimitPatterns| :: Contains(ToLower(output), LimitPatterns[i])
  }

  /** The verdict `checkResult` reaches: a non-zero (or null) exit code is
      tolerated only with at least 10 UTF-16 units of stdout, and no
      marker may appear in stdout followed by stderr. */
  predicate Accepted(r: ProcessResult) {
    (r.code == Some(0) || Utf16Length(r.stdout) >= 10) && !MentionsLimit(r.stdout + r.stderr)
  }

  /** `checkResult(result)`: the exit-code test, then the scan over the
      markers in order, stopping at the first one found (src/loop.js:240-269).
      The `LIMIT_WAIT` sleep it starts on a match is not awaited, so it has
      no effect on the loop. */
  method CheckResult(r: ProcessResult) returns (ok: bool)
    ensures ok == Accepted(r)
  {
    if r.code != Some(0) {
      if r.stdout == "" || Utf16Length(r.stdout) < 10 {
        return false;
      }
    }
    var output := ToLower(r.stdout + r.stderr);
    for i := 0 to |LimitPatterns|
      invariant forall j :: 0 <= j < i ==> !Contains(output, LimitPatterns[j])
    {
      if Contains(output, LimitPatterns[i]) {
        return false;
      }
    }
    return true;
  }

  /** The scan ignores case: any spelling of a marker in any mix of ASCII
      capitals (`Rate Limit`, `QUOTA`) makes the result fail. */
  lemma LimitMatchIgnoresCase(r: ProcessResult, q: string, i: int)
    requires 0 <= i < |LimitPatterns| && ToLower(q) == LimitPatterns[i]
    requires Contains(r.stdout + r.stderr, q)
    ensures !Accepted(r)
  {
    var s := r.stdout + r.stderr;
    var at :| 0 <= at <= |s| - |q| && OccursAt(s, q, at);
    assert ToLower(s)[at..at + |q|] == ToLower(q);
    assert OccursAt(ToLower(s), LimitPatterns[i], at);
  }

  /** A zero exit code with little or no output and no marker succeeds; a
      failing exit code with short output fails whatever it says. */
  lemma ExitCodeRule(r: ProcessResult)
    ensures r.code == Some(0) && !MentionsLimit(r.stdout + r.stderr) ==> Accepted(r)
    ensures r.code != Some(0) && |r.stdout| < 5 ==> !Accepted(r)
  {
  }

  // ------------------------------------------------------------- prompt

  const NoConsensus: string := "No consensus file found. This is the very first cycle."

  /** The text between the prompt and the consensus (src/loop.js:193-206). */
  const Guardrails: string :=
    "\n\n---\n\n## Runtime Guardrails (must follow)\n\n" +
    "1. Early in the cycle, create or update `memories/consensus.md` with the required section skeleton.\n" +
    "2. If work scope is large, persist partial decisions to `memories/consensus.md` before deep dives.\n" +
    "3. Prefer shipping one completed milestone over broad parallel exploration.\n\n---\n\n" +
    "## Current Consensus (pre-loaded, do NOT re-read this file)\n\n"

  /** The text after the consensus (src/loop.js:208-212). */
  function Footer(cycle: int): string {
    "\n\n---\n\nThis is Cycle #" + IntText(cycle) + ". Act decisively.\n"
  }

  /** `buildPrompt()`: no prompt file is an error (`None`); otherwise the
      prompt, the guardrails, the consensus (or the first-cycle note when
      there is no consensus file) and the footer naming the cycle. */
  function BuildPrompt(prompt: Option<string>, consensus: Option<string>, cycle: int): (r: Option<string>)
    ensures r.None? <==> prompt.None?
    ensures r.Some? ==> StartsWith(r.value, prompt.value + Guardrails)
    ensures r.Some? ==> EndsWith(r.value, Footer(cycle))
    ensures r.Some? ==> OccursAt(r.value, consensus.GetOr(NoConsensus), |prompt.value| + |Guardrails|)
    ensures r.Some? ==>
      |r.value| == |prompt.value| + |Guardrails| + |consensus.GetOr(NoConsensus)| + |Footer(cycle)|
  {
    match prompt
    case None => None
    case Some(p) =>
      var head := p + Guardrails;
      var body := consensus.GetOr(NoConsensus);
      var full := head + body + Footer(cycle);
      assert full[..|head|] == head;
      assert full[|full| - |Footer(cycle)|..] == Footer(cycle);
      assert full[|head|..|head| + |body|] == body;
      Some(full)
  }

  // --------------------------------------------------------- engine args

  /** `executeCycle`'s argument list: `exec -c sandbox_mode="<mode>"`,
      `-m <model>` only when a model is set, `-o <logdir>/.cycle-output-N.txt`
      and the prompt last (src/loop.js:217-236). A null setting is
      interpolated as `null`. */
  function ExecArgs(sandbox: Option<Value>, model: Option<Value>, logDir: string, cycle: int, prompt: string): (args: seq<string>)
    ensures |args| == if model.Some? then 8 else 6
    ensures args[0] == "exec" && args[1] == "-c" && args[2] == "sandbox_mode=\"" + ValueText(sandbox) + "\""
    ensures model.Some? ==> args[3] == "-m" && args[4] == ValueText(model)
    ensures args[|args| - 3] == "-o"
    ensures args[|args| - 2] == JoinPath(logDir, ".cycle-output-" + IntText(cycle) + ".txt")
    ensures args[|args| - 1] == prompt
  {
    ["exec", "-c", "sandbox_mode=\"" + ValueText(sandbox) + "\""]
    + (if model.Some? then ["-m", ValueText(model)] else [])
    + ["-o", JoinPath(logDir, ".cycle-output-" + IntText(cycle) + ".txt"), prompt]
  }

  // ----------------------------------------------------------- settings

  /** The settings the loop reads through `config.get`. Numeric ones that
      read as `null` take part in arithmetic and comparisons as 0. */
  datatype LoopSettings = LoopSettings(
    logDir: string,
    maxErrors: int,
    cooldown: int,
    interval: int,
    maxLogs: int,
    sandbox: Option<Value>,
    model: Option<Value>,
    engine: Option<Value>)

  /** Every numeric setting of the table holds a number (or `NaN`), as
      `load` leaves it. */
  predicate NumericEntries(config: map<Setting, Value>) {
    forall k :: k in config && IsNumeric(k) ==> !config[k].Str?
  }

  /** A numeric setting as read by `get`, with `null` counting as 0. */
  function Numeric(config: map<Setting, Value>, k: Setting): (n: int)
    requires NumericEntries(config) && IsNumeric(k)
    ensures Lookup(config, k) == Some(Num(n)) || (Lookup(config, k) == None && n == 0)
  {
    match Lookup(config, k)
    case None => 0
    case Some(v) => v.n
  }

  function SettingsOf(config: map<Setting, Value>): LoopSettings
    requires NumericEntries(config)
  {
    LoopSettings(
      ValueText(Lookup(config, LogDir)),
      Numeric(config, MaxErrors),
      Numeric(config, Setting.Cooldown),
      Numeric(config, Interval),
      Numeric(config, MaxLogs),
      Lookup(config, SandboxMode),
      Lookup(config, Model),
      Lookup(config, Engine))
  }

  /** The table `load` builds always qualifies. */
  lemma LoadedTableNumeric(projectDir: string, env: map<string, string>)
    ensures NumericEntries(Defaults(projectDir, env))
  {
    var table := Defaults(projectDir, env);
    forall k | k in table && IsNumeric(k)
      ensures !table[k].Str?
    {
      assert table[k] == DefaultValue(projectDir, env, k);
      NumericDefault(projectDir, env, k);
    }
  }

  lemma NumericDefault(projectDir: string, env: map<string, string>, k: Setting)
    requires IsNumeric(k)
    ensures !DefaultValue(projectDir, env, k).Str?
  {
    assert !IsPath(k);
  }

  // -------------------------------------------------------------- state

  datatype Status = Running | Cooldown | Error | Stopped {
    function Text(): string {
      match this
      case Running => "running"
      case Cooldown => "cooldown"
      case Error => "error"
      case Stopped => "stopped"
    }
  }

  /** The object `saveState` writes (src/loop.js:307-316). */
  datatype StateRecord = StateRecord(
    status: Status,
    loopCount: nat,
    errorCount: nat,
    consecutiveErrors: nat,
    lastRun: string,
    engine: Option<Value>,
    model: Value,
    current: string)

  /** The files the loop reads and writes. `stateWrites` is every state
      file write in order (the file holds the last); `logs` maps the names
      in the log directory to their contents. */
  datatype Disk = Disk(
    prompt: Option<string>,
    consensus: Option<string>,
    backup: Option<string>,
    stateWrites: seq<StateRecord>,
    logs: map<string, string>,
    stopMarker: bool,
    pidFile: bool)

  /** An awaited sleep, in milliseconds. */
  datatype Sleep = CooldownSleep(ms: int) | IntervalSleep(ms: int)

  /** The whole observable state of an `AutoLoop`. */
  datatype LoopState = LoopState(
    loopCount: nat,
    errorCount: nat,
    consecutiveErrors: nat,
    running: bool,
    disk: Disk,
    sleeps: seq<Sleep>,
    engineCalls: seq<seq<string>>)

  /** The record `saveState(status)` writes at clock reading `now`. */
  function Record(s: LoopState, settings: LoopSettings, status: Status, now: string): StateRecord {
    StateRecord(status, s.loopCount, s.errorCount, s.consecutiveErrors, now,
      settings.engine, settings.model.GetOr(Str("default")),
      if s.running then "Cycle #" + IntText(s.loopCount) else "Stopped")
  }

  function Saved(s: LoopState, settings: LoopSettings, status: Status, now: string): LoopState {
    s.(disk := s.disk.(stateWrites := s.disk.stateWrites + [Record(s, settings, status, now)]))
  }

  /** `backupConsensus()`: copy the consensus over the backup if it exists. */
  function BackedUp(d: Disk): Disk {
    if d.consensus.Some? then d.(backup := d.consensus) else d
  }

  /** `restoreConsensus()`: copy the backup over the consensus if it exists. */
  function Restored(d: Disk): Disk {
    if d.backup.Some? then d.(consensus := d.backup) else d
  }

  /** Restoring after a backup brings back the consensus as it was at the
      backup, whatever happened to it in between; with no backup, restoring
      changes nothing. */
  lemma RestoreUndoesChanges(d: Disk, edited: Option<string>)
    ensures d.consensus.Some? ==> Restored(BackedUp(d).(consensus := edited)).consensus == d.consensus
    ensures d.backup.None? ==> Restored(d) == d
    ensures Restored(Restored(d)) == Restored(d) && BackedUp(BackedUp(d)) == BackedUp(d)
  {
  }

  // --------------------------------------------------------- one cycle

  /** What the world supplies for one `runCycle`: the clock reading the
      log name is built from, the reading the state saves record, the
      engine's outcome and the consensus file as the engine left it. */
  datatype CycleInput = CycleInput(
    started: string,
    now: string,
    outcome: EngineOutcome,
    consensusAfter: Option<string>)

  /** The cycle succeeds iff the prompt file exists, the engine resolves,
      and `checkResult` accepts its result. */
  predicate Succeeds(s: LoopState, input: CycleInput) {
    s.disk.prompt.Some? && input.outcome.Exited? && Accepted(input.outcome.result)
  }

  /** The breaker trips on a failed cycle iff the incremented count of
      consecutive errors reaches `MAX_ERRORS`. */
  predicate Trips(s: LoopState, settings: LoopSettings, input: CycleInput) {
    !Succeeds(s, input) && s.consecutiveErrors + 1 >= settings.maxErrors
  }

  /** The catch block (src/loop.js:135-169). */
  function Failure(s: LoopState, settings: LoopSettings, now: string): LoopState {
    var counted := s.(errorCount := s.errorCount + 1, consecutiveErrors := s.consecutiveErrors + 1);
    var restored := counted.(disk := Restored(counted.disk));
    var cooled :=
      if restored.consecutiveErrors >= settings.maxErrors then
        Saved(restored, settings, Status.Cooldown, now)
          .(sleeps := restored.sleeps + [CooldownSleep(settings.cooldown * 1000)])
          .(consecutiveErrors := 0)
      else restored;
    Saved(cooled, settings, Error, now)
  }

  /** The success branch (src/loop.js:122-130). */
  function Success(s: LoopState, settings: LoopSettings, now: string): LoopState {
    Saved(s.(consecutiveErrors := 0), settings, Running, now)
  }

  /** The state once the engine has run: count the cycle, build the
      prompt (no prompt file: nothing more happens), record the engine
      call, take the consensus as the engine left it and, when the engine
      resolved, write its stdout to the cycle's log. */
  function Ran(s: LoopState, settings: LoopSettings, input: CycleInput): LoopState {
    var n := s.loopCount + 1;
    var counted := s.(loopCount := n);
    match BuildPrompt(s.disk.prompt, s.disk.consensus, n)
    case None => counted
    case Some(prompt) =>
      var ran := counted.(
        engineCalls := counted.engineCalls + [ExecArgs(settings.sandbox, settings.model, settings.logDir, n, prompt)],
        disk := counted.disk.(consensus := input.consensusAfter));
      match input.outcome
      case Failed(_) => ran
      case Exited(r) => ran.(disk := ran.disk.(logs := ran.disk.logs[CycleLogName(n, input.started) := r.stdout]))
  }

  /** The state before rotation: the success branch or the catch block. */
  function Attempt(s: LoopState, settings: LoopSettings, input: CycleInput): LoopState {
    var r := Ran(s, settings, input);
    if Succeeds(s, input) then Success(r, settings, input.now) else Failure(r, settings, input.now)
  }

  /** `runCycle()` as a whole (src/loop.js:94-173). */
  function Cycle(s: LoopState, settings: LoopSettings, input: CycleInput): LoopState {
    var a := Attempt(s, settings, input);
    a.(disk := a.disk.(logs := Retain(a.disk.logs, settings.maxLogs)))
  }

  /** Running the engine touches only the loop count, the engine calls,
      the consensus and the logs. */
  lemma RanFrame(s: LoopState, settings: LoopSettings, input: CycleInput)
    ensures var r := Ran(s, settings, input);
      && r.loopCount == s.loopCount + 1 && r.errorCount == s.errorCount
      && r.consecutiveErrors == s.consecutiveErrors && r.running == s.running && r.sleeps == s.sleeps
      && r.disk.prompt == s.disk.prompt && r.disk.backup == s.disk.backup
      && r.disk.stateWrites == s.disk.stateWrites
      && r.disk.stopMarker == s.disk.stopMarker && r.disk.pidFile == s.disk.pidFile
      && (s.disk.prompt.Some? ==> r.disk.consensus == input.consensusAfter)
  {
    var n := s.loopCount + 1;
    if s.disk.prompt.Some? {
      assert BuildPrompt(s.disk.prompt, s.disk.consensus, n).Some?;
    } else {
      assert BuildPrompt(s.disk.prompt, s.disk.consensus, n).None?;
    }
  }

  /** The success branch saves one `running` record and clears the
      consecutive errors. */
  lemma SuccessEffect(r: LoopState, settings: LoopSettings, now: string)
    ensures var t := Success(r, settings, now);
      && t == r.(consecutiveErrors := 0, disk := t.disk)
      && t.disk == r.disk.(stateWrites := t.disk.stateWrites)
      && |t.disk.stateWrites| == |r.disk.stateWrites| + 1
      && t.disk.stateWrites[..|r.disk.stateWrites|] == r.disk.stateWrites
      && t.disk.stateWrites[|r.disk.stateWrites|].status == Running
      && t.disk.stateWrites[|r.disk.stateWrites|].errorCount == r.errorCount
      && t.disk.stateWrites[|r.disk.stateWrites|].consecutiveErrors == 0
  {
  }

  /** The catch block counts the error, restores the backup, and saves
      `error` last; it trips the breaker iff the incremented consecutive
      count reaches `MAX_ERRORS`, and then saves `cooldown` first, sleeps
      and resets the count. */
  lemma FailureEffect(r: LoopState, settings: LoopSettings, now: string)
    ensures var t := Failure(r, settings, now);
      var trips := r.consecutiveErrors + 1 >= settings.maxErrors;
      var w := |r.disk.stateWrites|;
      && t.loopCount == r.loopCount && t.errorCount == r.errorCount + 1
      && t.running == r.running && t.engineCalls == r.engineCalls
      && t.consecutiveErrors == (if trips then 0 else r.consecutiveErrors + 1)
      && t.disk == Restored(r.disk).(stateWrites := t.disk.stateWrites)
      && |t.disk.stateWrites| == w + (if trips then 2 else 1)
      && t.disk.stateWrites[..w] == r.disk.stateWrites
      && t.disk.stateWrites[|t.disk.stateWrites| - 1].status == Error
      && t.disk.stateWrites[|t.disk.stateWrites| - 1].consecutiveErrors == t.consecutiveErrors
      && t.disk.stateWrites[|t.disk.stateWrites| - 1].errorCount == r.errorCount + 1
      && (trips ==>
            t.disk.stateWrites[w].status == Status.Cooldown
            && t.disk.stateWrites[w].consecutiveErrors == r.consecutiveErrors + 1
            && t.sleeps == r.sleeps + [CooldownSleep(settings.cooldown * 1000)])
      && (!trips ==> t.sleeps == r.sleeps)
  {
  }

  /** Every cycle counts exactly once, whatever its outcome; the error
      count grows by one exactly when the cycle fails; the running flag,
      the prompt, the backup, the stop marker and the PID file are left
      alone, and earlier state writes are kept. */
  lemma CycleCounts(s: LoopState, settings: LoopSettings, input: CycleInput)
    ensures var t := Cycle(s, settings, input);
      && t.loopCount == s.loopCount + 1
      && t.errorCount == s.errorCount + (if Succeeds(s, input) then 0 else 1)
      && t.running == s.running && t.disk.prompt == s.disk.prompt && t.disk.backup == s.disk.backup
      && t.disk.stopMarker == s.disk.stopMarker && t.disk.pidFile == s.disk.pidFile
      && |t.disk.stateWrites| > |s.disk.stateWrites|
      && t.disk.stateWrites[..|s.disk.stateWrites|] == s.disk.stateWrites
      && t.sleeps == s.sleeps + (if Trips(s, settings, input) then [CooldownSleep(settings.cooldown * 1000)] else [])
  {
    var r := Ran(s, settings, input);
    RanFrame(s, settings, input);
    if Succeeds(s, input) {
      SuccessEffect(r, settings, input.now);
    } else {
      FailureEffect(r, settings, input.now);
    }
  }

  /** A successful cycle clears the consecutive errors, keeps the error
      count and saves exactly one record, with status `running`; the
      consensus stays as the engine left it and nothing sleeps. */
  lemma CycleSuccess(s: LoopState, settings: LoopSettings, input: CycleInput)
    requires Succeeds(s, input)
    ensures var t := Cycle(s, settings, input);
      && t.consecutiveErrors == 0 && t.errorCount == s.errorCount
      && |t.disk.stateWrites| == |s.disk.stateWrites| + 1
      && t.disk.stateWrites[|s.disk.stateWrites|].status == Running
      && t.disk.stateWrites[|s.disk.stateWrites|].errorCount == s.errorCount
      && t.sleeps == s.sleeps
      && t.disk.consensus == input.consensusAfter
  {
    RanFrame(s, settings, input);
    SuccessEffect(Ran(s, settings, input), settings, input.now);
  }

  /** A failed cycle restores the backup over the consensus when there is
      one; it trips the breaker iff the consecutive errors, after the
      increment, reach `MAX_ERRORS`. A trip saves `cooldown`, awaits the
      cooldown and resets the consecutive errors; either way the last
      record saved has status `error` and carries the final counts. */
  lemma CycleFailure(s: LoopState, settings: LoopSettings, input: CycleInput)
    requires !Succeeds(s, input)
    ensures var t := Cycle(s, settings, input);
      && (s.disk.backup.Some? ==> t.disk.consensus == s.disk.backup)
      && t.consecutiveErrors == (if Trips(s, settings, input) then 0 else s.consecutiveErrors + 1)
      && |t.disk.stateWrites| == |s.disk.stateWrites| + (if Trips(s, settings, input) then 2 else 1)
      && t.disk.stateWrites[|t.disk.stateWrites| - 1].status == Error
      && t.disk.stateWrites[|t.disk.stateWrites| - 1].consecutiveErrors == t.consecutiveErrors
      && t.disk.stateWrites[|t.disk.stateWrites| - 1].errorCount == s.errorCount + 1
      && (Trips(s, settings, input) ==>
            t.disk.stateWrites[|s.disk.stateWrites|].status == Status.Cooldown
            && t.disk.stateWrites[|s.disk.stateWrites|].consecutiveErrors == s.consecutiveErrors + 1
            && t.sleeps == s.sleeps + [CooldownSleep(settings.cooldown * 1000)])
      && (!Trips(s, settings, input) ==> t.sleeps == s.sleeps)
  {
    RanFrame(s, settings, input);
    FailureEffect(Ran(s, settings, input), settings, input.now);
  }

  /** The engine runs (and its arguments are recorded) exactly when the
      prompt file exists, with the built prompt as its last argument; the
      cycle's log is written exactly when the engine resolves, under the
      cycle's name, with its stdout (rotation may delete it again). */
  lemma CycleEngineCall(s: LoopState, settings: LoopSettings, input: CycleInput)
    ensures var t := Attempt(s, settings, input);
      && (s.disk.prompt.None? ==> t.engineCalls == s.engineCalls && t.disk.logs == s.disk.logs)
      && (s.disk.prompt.Some? ==>
            |t.engineCalls| == |s.engineCalls| + 1
            && t.engineCalls[..|s.engineCalls|] == s.engineCalls
            && t.engineCalls[|s.engineCalls|][|t.engineCalls[|s.engineCalls|]| - 1]
               == BuildPrompt(s.disk.prompt, s.disk.consensus, s.loopCount + 1).value)
      && (s.disk.prompt.Some? && input.outcome.Exited? ==>
            t.disk.logs == s.disk.logs[CycleLogName(s.loopCount + 1, input.started) := input.outcome.result.stdout])
      && (s.disk.prompt.Some? && input.outcome.Failed? ==> t.disk.logs == s.disk.logs)
  {
    var r := Ran(s, settings, input);
    RanEngine(s, settings, input);
    var t := Attempt(s, settings, input);
    if Succeeds(s, input) {
      SuccessEffect(r, settings, input.now);
    } else {
      FailureEffect(r, settings, input.now);
    }
    assert t.engineCalls == r.engineCalls && t.disk.logs == r.disk.logs;
  }

  lemma RanEngine(s: LoopState, settings: LoopSettings, input: CycleInput)
    ensures var r := Ran(s, settings, input);
      && (s.disk.prompt.None? ==> r.engineCalls == s.engineCalls && r.disk.logs == s.disk.logs)
      && (s.disk.prompt.Some? ==>
            |r.engineCalls| == |s.engineCalls| + 1
            && r.engineCalls[..|s.engineCalls|] == s.engineCalls
            && r.engineCalls[|s.engineCalls|][|r.engineCalls[|s.engineCalls|]| - 1]
               == BuildPrompt(s.disk.prompt, s.disk.consensus, s.loopCount + 1).value)
      && (s.disk.prompt.Some? && input.outcome.Exited? ==>
            r.disk.logs == s.disk.logs[CycleLogName(s.loopCount + 1, input.started) := input.outcome.result.stdout])
      && (s.disk.prompt.Some? && input.outcome.Failed? ==> r.disk.logs == s.disk.logs)
  {
    if s.disk.prompt.Some? {
      RanCall(s, settings, input);
      RanLogs(s, settings, input);
    } else {
      assert BuildPrompt(s.disk.prompt, s.disk.consensus, s.loopCount + 1).None?;
    }
  }

  /** With a prompt file, running the engine appends exactly one call
      whose last argument is the built prompt. */
  lemma RanCall(s: LoopState, settings: LoopSettings, input: CycleInput)
    requires s.disk.prompt.Some?
    ensures var calls := Ran(s, settings, input).engineCalls;
      && |calls| == |s.engineCalls| + 1
      && calls[..|s.engineCalls|] == s.engineCalls
      && calls[|s.engineCalls|][|calls[|s.engineCalls|]| - 1]
         == BuildPrompt(s.disk.prompt, s.disk.consensus, s.loopCount + 1).value
  {
    var n := s.loopCount + 1;
    var built := BuildPrompt(s.disk.prompt, s.disk.consensus, n);
    assert built.Some?;
    var args := ExecArgs(settings.sandbox, settings.model, settings.logDir, n, built.value);
    var calls := Ran(s, settings, input).engineCalls;
    assert calls == s.engineCalls + [args];
    assert calls[|s.engineCalls|] == args;
  }

  /** With a prompt file, the engine's stdout is logged iff it resolved. */
  lemma RanLogs(s: LoopState, settings: LoopSettings, input: CycleInput)
    requires s.disk.prompt.Some?
    ensures var logs := Ran(s, settings, input).disk.logs;
      && (input.outcome.Exited? ==>
            logs == s.disk.logs[CycleLogName(s.loopCount + 1, input.started) := input.outcome.result.stdout])
      && (input.outcome.Failed? ==> logs == s.disk.logs)
  {
    var n := s.loopCount + 1;
    var built := BuildPrompt(s.disk.prompt, s.disk.consensus, n);
    assert built.Some?;
    var args := ExecArgs(settings.sandbox, settings.model, settings.logDir, n, built.value);
    var ran := s.(loopCount := n, engineCalls := s.engineCalls + [args],
      disk := s.disk.(consensus := input.consensusAfter));
    assert ran.disk.logs == s.disk.logs;
    match input.outcome
    case Failed(_) =>
      assert Ran(s, settings, input) == ran;
    case Exited(res) =>
      assert Ran(s, settings, input) == ran.(disk := ran.disk.(logs := ran.disk.logs[CycleLogName(n, input.started) := res.stdout]));
  }

  /** With `MAX_ERRORS` at least 1, the consecutive-error count stays below
      it from cycle to cycle; with `MAX_ERRORS` at most 1 (or null) every
      failure trips the breaker, so the count is always 0 after a cycle. */
  lemma BreakerBound(s: LoopState, settings: LoopSettings, input: CycleInput)
    ensures settings.maxErrors >= 1 && s.consecutiveErrors < settings.maxErrors ==>
      Cycle(s, settings, input).consecutiveErrors < settings.maxErrors
    ensures settings.maxErrors <= 1 ==> Cycle(s, settings, input).consecutiveErrors == 0
  {
    CycleFailureOrSuccess(s, settings, input);
  }

  lemma CycleFailureOrSuccess(s: LoopState, settings: LoopSettings, input: CycleInput)
    ensures Cycle(s, settings, input).consecutiveErrors ==
      if Succeeds(s, input) || Trips(s, settings, input) then 0 else s.consecutiveErrors + 1
  {
    if Succeeds(s, input) {
      CycleSuccess(s, settings, input);
    } else {
      CycleFailure(s, settings, input);
    }
  }

  /** The state after a run of cycles with no stop in between. */
  function Cycles(s: LoopState, settings: LoopSettings, inputs: seq<CycleInput>): LoopState
    decreases |inputs|
  {
    if inputs == [] then s else Cycles(Cycle(s, settings, inputs[0]), settings, inputs[1..])
  }

  /** Over any run of cycles the loop count grows by the number of cycles,
      the error count by at most that, and the error count never exceeds
      the loop count if it did not at the start. */
  lemma {:induction false} CyclesCount(s: LoopState, settings: LoopSettings, inputs: seq<CycleInput>)
    requires s.errorCount <= s.loopCount
    ensures var t := Cycles(s, settings, inputs);
      t.loopCount == s.loopCount + |inputs| && s.errorCount <= t.errorCount <= s.errorCount + |inputs|
      && t.errorCount <= t.loopCount
    decreases |inputs|
  {
    if inputs != [] {
      CycleCounts(s, settings, inputs[0]);
      CyclesCount(Cycle(s, settings, inputs[0]), settings, inputs[1..]);
    }
  }

  /** With `MAX_ERRORS` = k >= 1, k failing cycles in a row from a clean
      count trip the breaker on the last one, and only there. A cycle fails
      when the prompt file is missing, or the engine throws (timeout, spawn
      error), or `checkResult` rejects what it returned. */
  lemma {:induction false} KFailuresTrip(s: LoopState, settings: LoopSettings, inputs: seq<CycleInput>)
    requires settings.maxErrors >= 1 && |inputs| <= settings.maxErrors
    requires s.consecutiveErrors == 0
    requires forall i :: 0 <= i < |inputs| ==>
      !(s.disk.prompt.Some? && inputs[i].outcome.Exited? && Accepted(inputs[i].outcome.result))
    ensures var t := Cycles(s, settings, inputs);
      t.consecutiveErrors == (if |inputs| == settings.maxErrors then 0 else |inputs|)
      && t.disk.prompt == s.disk.prompt
      && t.errorCount == s.errorCount + |inputs|
      && |t.sleeps| == |s.sleeps| + (if |inputs| == settings.maxErrors then 1 else 0)
    decreases |inputs|
  {
    if inputs != [] {
      var init := inputs[..|inputs| - 1];
      var last := inputs[|inputs| - 1];
      assert inputs == init + [last];
      CyclesSplit(s, settings, init, last);
      KFailuresTrip(s, settings, init);
      var m := Cycles(s, settings, init);
      assert !Succeeds(m, last);
      CycleCounts(m, settings, last);
      CycleFailure(m, settings, last);
    }
  }

  lemma {:induction false} CyclesSplit(s: LoopState, settings: LoopSettings, init: seq<CycleInput>, last: CycleInput)
    ensures Cycles(s, settings, init + [last]) == Cycle(Cycles(s, settings, init), settings, last)
    decreases |init|
  {
    if init != [] {
      assert (init + [last])[1..] == init[1..] + [last];
      CyclesSplit(Cycle(s, settings, init[0]), settings, init[1..], last);
    } else {
      assert init + [last] == [last];
    }
  }

  // ------------------------------------------------------ the main loop

  /** What happens around one pass of the `while` body: the cycle, then
      whether something outside created the stop marker or called
      `stop()` meanwhile. */
  datatype Pass = Pass(cycle: CycleInput, markerCreated: bool, stopCalled: bool)

  /** How `start()` ends: `checkEngine` threw, the stop marker was found,
      the `running` flag was cleared, or it is still looping when the
      supplied passes run out. */
  datatype Exit = EngineMissing | StopMarker | StopCalled | StillRunning

  /** `cleanup()` (src/loop.js:330-344). */
  function CleanedUp(s: LoopState, settings: LoopSettings, now: string): LoopState {
    var stopped := s.(running := false, disk := s.disk.(pidFile := false));
    Saved(stopped, settings, Stopped, now)
  }

  /** One pass: the cycle, the outside events, and the stop-marker check. */
  function AfterPass(s: LoopState, settings: LoopSettings, pass: Pass): LoopState {
    var c := Cycle(s, settings, pass.cycle);
    c.(running := c.running && !pass.stopCalled,
       disk := c.disk.(stopMarker := c.disk.stopMarker || pass.markerCreated))
  }

  /** The `while (this.running)` loop and what follows it (src/loop.js:41-58). */
  function RunLoop(s: LoopState, settings: LoopSettings, passes: seq<Pass>, stoppedAt: string): (LoopState, Exit)
    decreases |passes|
  {
    if !s.running then (CleanedUp(s, settings, stoppedAt), StopCalled)
    else if passes == [] then (s, StillRunning)
    else
      var p := AfterPass(s, settings, passes[0]);
      if p.disk.stopMarker then
        (CleanedUp(p.(disk := p.disk.(stopMarker := false)), settings, stoppedAt), StopMarker)
      else
        RunLoop(p.(sleeps := p.sleeps + [IntervalSleep(settings.interval * 1000)]), settings, passes[1..], stoppedAt)
  }

  /** `start()`: set `running`, find the engine, then loop (src/loop.js:23-59). */
  function Started(s: LoopState, settings: LoopSettings, engineFound: bool, passes: seq<Pass>, stoppedAt: string): (LoopState, Exit) {
    var r := s.(running := true);
    if !engineFound then (r, EngineMissing) else RunLoop(r, settings, passes, stoppedAt)
  }

  function IntervalSleeps(sleeps: seq<Sleep>): nat {
    if sleeps == [] then 0
    else (if sleeps[0].IntervalSleep? then 1 else 0) + IntervalSleeps(sleeps[1..])
  }

  lemma {:induction false} IntervalSleepsAppend(a: seq<Sleep>, b: seq<Sleep>)
    ensures IntervalSleeps(a + b) == IntervalSleeps(a) + IntervalSleeps(b)
    decreases |a|
  {
    if a != [] {
      assert (a + b)[1..] == a[1..] + b;
      IntervalSleepsAppend(a[1..], b);
    } else {
      assert a + b == b;
    }
  }

  /** However the loop ends, `running` is false, the stop marker and the
      PID file are gone and the last state saved says `stopped`; every
      cycle but one ended by the marker is followed by an interval sleep,
      and no more cycles run than passes were supplied. */
  lemma {:induction false} LoopEnds(s: LoopState, settings: LoopSettings, passes: seq<Pass>, stoppedAt: string)
    requires !s.disk.stopMarker
    ensures var t := RunLoop(s, settings, passes, stoppedAt).0;
      var exit := RunLoop(s, settings, passes, stoppedAt).1;
      && (exit != StillRunning ==> Ended(t))
      && (exit == StillRunning ==> t.running && t.loopCount == s.loopCount + |passes|)
      && s.loopCount <= t.loopCount <= s.loopCount + |passes|
      && exit != EngineMissing
      && (s.running ==>
            IntervalSleeps(t.sleeps) + (if exit == StopMarker then 1 else 0)
            == IntervalSleeps(s.sleeps) + (t.loopCount - s.loopCount))
      && (!s.running ==> t.loopCount == s.loopCount && t.sleeps == s.sleeps)
    decreases |passes|
  {
    if !s.running {
      CleanedUpEffect(s, settings, stoppedAt);
    } else if passes != [] {
      var pass := passes[0];
      var p := AfterPass(s, settings, pass);
      PassCounts(s, settings, pass);
      if p.disk.stopMarker {
        var cleared := p.(disk := p.disk.(stopMarker := false));
        CleanedUpEffect(cleared, settings, stoppedAt);
        assert RunLoop(s, settings, passes, stoppedAt) == (CleanedUp(cleared, settings, stoppedAt), StopMarker);
      } else {
        var interval := [IntervalSleep(settings.interval * 1000)];
        var q := p.(sleeps := p.sleeps + interval);
        IntervalSleepsAppend(p.sleeps, interval);
        assert IntervalSleeps(interval) == 1;
        LoopEnds(q, settings, passes[1..], stoppedAt);
        assert RunLoop(s, settings, passes, stoppedAt) == RunLoop(q, settings, passes[1..], stoppedAt);
      }
    }
  }

  /** One pass counts one cycle and adds no interval sleep of its own
      (a cooldown sleep is not one). */
  lemma PassCounts(s: LoopState, settings: LoopSettings, pass: Pass)
    ensures var p := AfterPass(s, settings, pass);
      && p.loopCount == s.loopCount + 1
      && IntervalSleeps(p.sleeps) == IntervalSleeps(s.sleeps)
  {
    var c := Cycle(s, settings, pass.cycle);
    CycleCounts(s, settings, pass.cycle);
    IntervalSleepsAppend(s.sleeps, c.sleeps[|s.sleeps|..]);
    assert c.sleeps == s.sleeps + c.sleeps[|s.sleeps|..];
  }

  /** How the loop leaves things once it has stopped. */
  predicate Ended(t: LoopState) {
    && !t.running && !t.disk.stopMarker && !t.disk.pidFile
    && |t.disk.stateWrites| > 0
    && t.disk.stateWrites[|t.disk.stateWrites| - 1].status == Stopped
    && t.disk.stateWrites[|t.disk.stateWrites| - 1].current == "Stopped"
  }

  /** `cleanup` clears the flag and the PID file and saves `stopped` last;
      nothing else changes. */
  lemma CleanedUpEffect(s: LoopState, settings: LoopSettings, now: string)
    ensures !s.disk.stopMarker ==> Ended(CleanedUp(s, settings, now))
    ensures var t := CleanedUp(s, settings, now);
      && !t.running && !t.disk.pidFile
      && t.loopCount == s.loopCount && t.sleeps == s.sleeps && t.disk.stopMarker == s.disk.stopMarker
      && |t.disk.stateWrites| == |s.disk.stateWrites| + 1
      && t.disk.stateWrites[|s.disk.stateWrites|].status == Stopped
      && t.disk.stateWrites[|s.disk.stateWrites|].current == "Stopped"
  {
  }

  /** The stop marker is only looked at after a cycle: a marker present
      when the loop starts still lets exactly one cycle run, and the loop
      then ends without sleeping. */
  lemma MarkerCheckedAfterCycle(s: LoopState, settings: LoopSettings, passes: seq<Pass>, stoppedAt: string)
    requires s.disk.stopMarker && |passes| > 0
    ensures var (t, exit) := Started(s, settings, true, passes, stoppedAt);
      exit == StopMarker && t.loopCount == s.loopCount + 1 && t.sleeps == Cycle(s.(running := true), settings, passes[0].cycle).sleeps
      && !t.running && !t.disk.stopMarker
  {
    CycleCounts(s.(running := true), settings, passes[0].cycle);
  }

  /** A missing engine leaves `running` set and nothing else changed: no
      cycle runs and `cleanup` is not reached. */
  lemma EngineMissingState(s: LoopState, settings: LoopSettings, passes: seq<Pass>, stoppedAt: string)
    ensures Started(s, settings, false, passes, stoppedAt) == (s.(running := true), EngineMissing)
  {
  }

  // ---------------------------------------------------------- the class

  class AutoLoop {
    const settings: LoopSettings
    var loopCount: nat
    var errorCount: nat
    var consecutiveErrors: nat
    var running: bool
    var disk: Disk
    var sleeps: seq<Sleep>
    var engineCalls: seq<seq<string>>

    function State(): LoopState
      reads this
    {
      LoopState(loopCount, errorCount, consecutiveErrors, running, disk, sleeps, engineCalls)
    }

    /** `new AutoLoop(config)`: counters at 0, not running (src/loop.js:13-21). */
    constructor (settings: LoopSettings, disk: Disk)
      ensures this.settings == settings
      ensures State() == LoopState(0, 0, 0, false, disk, [], [])
    {
      this.settings := settings;
      loopCount := 0;
      errorCount := 0;
      consecutiveErrors := 0;
      running := false;
      this.disk := disk;
      sleeps := [];
      engineCalls := [];
    }

    /** `saveState(status)` (src/loop.js:305-319). */
    method SaveState(status: Status, now: string)
      modifies this
      ensures State() == Saved(old(State()), settings, status, now)
    {
      disk := disk.(stateWrites := disk.stateWrites + [Record(State(), settings, status, now)]);
    }

    /** `backupConsensus()` (src/loop.js:271-276); never called by the loop. */
    method BackupConsensus()
      modifies this
      ensures State() == old(State()).(disk := BackedUp(old(disk)))
    {
      if disk.consensus.Some? {
        disk := disk.(backup := disk.consensus);
      }
    }

    /** `restoreConsensus()` (src/loop.js:278-286). */
    method RestoreConsensus()
      modifies this
      ensures State() == old(State()).(disk := Restored(old(disk)))
    {
      if disk.backup.Some? {
        disk := disk.(consensus := disk.backup);
      }
    }

    /** `rotateLogs()`: list the directory, keep the cycle logs, sort them,
        and when there are more than `MAX_LOGS` delete the first ones
        (src/loop.js:288-303). */
    method RotateLogs()
      modifies this
      ensures State() == old(State()).(disk := old(disk).(logs := Retain(old(disk.logs), settings.maxLogs)))
    {
      var dir := disk.logs;
      var listing := ListDirectory(dir);
      var files := Sort(CycleLogsOf(listing));
      SortedCycleLogs(dir, listing);
      var logs := dir;
      var k := DeleteCount(|files|, settings.maxLogs);
      if |files| > settings.maxLogs {
        logs := DeleteFiles(dir, files[..k]);
      } else {
        assert files[..k] == [];
        assert Without(dir, []) == dir;
      }
      assert logs == Without(dir, files[..k]);
      RetainSorted(dir, settings.maxLogs, files);
      assert Retain(dir, settings.maxLogs) == Without(dir, files[..k]);
      disk := disk.(logs := logs);
    }

    /** `runCycle()` (src/loop.js:94-173). */
    method RunCycle(input: CycleInput)
      modifies this
      ensures State() == Cycle(old(State()), settings, input)
    {
      ghost var before := State();
      var ok := TryCycle(input);
      if ok {
        consecutiveErrors := 0;
        SaveState(Running, input.now);
      } else {
        CatchFailure(input.now);
      }
      assert State() == Attempt(before, settings, input);
      RotateLogs();
    }

    /** The start of `runCycle` and its `try` block up to the result
        check (src/loop.js:95-120): count the cycle, build the prompt, run
        the engine, save its output and check it. `ok` is false when any
        of these throws or the check fails. */
    method TryCycle(input: CycleInput) returns (ok: bool)
      modifies this
      ensures State() == Ran(old(State()), settings, input)
      ensures ok == Succeeds(old(State()), input)
    {
      loopCount := loopCount + 1;
      var n := loopCount;
      ok := false;
      var prompt := BuildPrompt(disk.prompt, disk.consensus, n);
      if prompt.Some? {
        engineCalls := engineCalls + [ExecArgs(settings.sandbox, settings.model, settings.logDir, n, prompt.value)];
        disk := disk.(consensus := input.consensusAfter);
        match input.outcome {
          case Failed(_) =>
          case Exited(r) =>
            disk := disk.(logs := disk.logs[CycleLogName(n, input.started) := r.stdout]);
            ok := CheckResult(r);
        }
      }
    }

    /** The `catch` block of `runCycle` (src/loop.js:135-169): count the
        error, restore the consensus, and trip the breaker when the
        consecutive errors reach `MAX_ERRORS`. */
    method CatchFailure(now: string)
      modifies this
      ensures State() == Failure(old(State()), settings, now)
    {
      errorCount := errorCount + 1;
      consecutiveErrors := consecutiveErrors + 1;
      RestoreConsensus();
      if consecutiveErrors >= settings.maxErrors {
        SaveState(Status.Cooldown, now);
        sleeps := sleeps + [CooldownSleep(settings.cooldown * 1000)];
        consecutiveErrors := 0;
      }
      SaveState(Error, now);
    }

    /** `cleanup()` (src/loop.js:330-344). */
    method Cleanup(now: string)
      modifies this
      ensures State() == CleanedUp(old(State()), settings, now)
    {
      running := false;
      if disk.pidFile {
        disk := disk.(pidFile := false);
      }
      SaveState(Stopped, now);
    }

    /** `stop()`: only clears the flag, which the loop sees at its next
        test (src/loop.js:346-348). */
    method Stop()
      modifies this
      ensures State() == old(State()).(running := false)
    {
      running := false;
    }

    /** One pass of the `while` body up to the stop-marker check: the
        cycle, then whatever `stop()` call or marker file the world
        supplies meanwhile (src/loop.js:41-46). */
    method RunPass(pass: Pass)
      modifies this
      ensures State() == AfterPass(old(State()), settings, pass)
    {
      RunCycle(pass.cycle);
      if pass.stopCalled {
        Stop();
      }
      if pass.markerCreated {
        disk := disk.(stopMarker := true);
      }
    }

    /** `start()` (src/loop.js:23-59), driven by the passes the world
        supplies; `stoppedAt` is the clock reading `cleanup` records. */
    method Start(engineFound: bool, passes: seq<Pass>, stoppedAt: string) returns (exit: Exit)
      modifies this
      ensures (State(), exit) == Started(old(State()), settings, engineFound, passes, stoppedAt)
    {
      running := true;
      if !engineFound {
        return EngineMissing;
      }
      var i := 0;
      while running && i < |passes|
        invariant 0 <= i <= |passes|
        invariant RunLoop(State(), settings, passes[i..], stoppedAt)
          == Started(old(State()), settings, engineFound, passes, stoppedAt)
        decreases |passes| - i
      {
        RunPass(passes[i]);
        if disk.stopMarker {
          disk := disk.(stopMarker := false);
          Cleanup(stoppedAt);
          return StopMarker;
        }
        sleeps := sleeps + [IntervalSleep(settings.interval * 1000)];
        i := i + 1;
      }
      if !running {
        Cleanup(stoppedAt);
        return StopCalled;
      }
      return StillRunning;
    }
  }

  /** The directory `dir` after deleting the names in `deleted`. */
  function Without(dir: map<string, string>, deleted: seq<string>): map<string, string> {
    map x | x in dir && x !in deleted :: dir[x]
  }

  /** The `for (const f of toDelete)` loop: unlink each name in turn. */
  method DeleteFiles(dir: map<string, string>, toDelete: seq<string>) returns (logs: map<string, string>)
    ensures logs == Without(dir, toDelete)
  {
    logs := dir;
    for i := 0 to |toDelete|
      invariant logs == Without(dir, toDelete[..i])
    {
      WithoutStep(dir, toDelete[..i], toDelete[i]);
      assert toDelete[..i + 1] == toDelete[..i] + [toDelete[i]];
      logs := logs - {toDelete[i]};
    }
    assert toDelete[..|toDelete|] == toDelete;
  }

  lemma WithoutStep(dir: map<string, string>, deleted: seq<string>, y: string)
    ensures Without(dir, deleted + [y]) == Without(dir, deleted) - {y}
  {
    assert forall x :: x in deleted + [y] <==> x in deleted || x == y;
  }

  /** `fs.readdirSync(logDir)`: every name of the directory once, in some
      order. */
  method ListDirectory(dir: map<string, string>) returns (names: seq<string>)
    ensures Elems(names) == dir.Keys && Distinct(names)
  {
    names := [];
    var rest := dir.Keys;
    while rest != {}
      invariant rest !! Elems(names) && rest + Elems(names) == dir.Keys
      invariant Distinct(names)
      decreases |rest|
    {
      var x :| x in rest;
      names := names + [x];
      rest := rest - {x};
    }
  }

  lemma SortedCycleLogs(dir: map<string, string>, listing: seq<string>)
    requires Elems(listing) == dir.Keys && Distinct(listing)
    ensures StrictlySorted(Sort(CycleLogsOf(listing)))
    ensures Elems(Sort(CycleLogsOf(listing))) == CycleLogsIn(dir.Keys)
  {
    CycleLogsOfExact(listing);
    SortSorted(CycleLogsOf(listing));
  }
}
