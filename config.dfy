/** The configuration object of src/config.js: the `.env` reader that writes
    into the process environment, the table of settings with their defaults,
    and the `get`/`set`/`getAll` accessors. The process environment is a
    `map<string, string>` passed in and returned, since the source mutates
    the global `process.env`. */
module Config {
  import opened Options
  import opened Strings

  /** A setting: a string, an integer produced by `parseInt`, or `NaN`
      when `parseInt` found no digits. */
  datatype Value = Str(s: string) | Num(n: int) | NaN

  /** The names of the settings table; `Name()` is the key string the
      source uses. */
  datatype Setting =
    | ProjectDir
    | Engine
    | Model
    | SandboxMode
    | CodexBin
    | ClaudeBin
    | Interval
    | Timeout
    | Cooldown
    | LimitWait
    | MaxErrors
    | LogLevel
    | MaxLogs
    | PidFile
    | StateFile
    | LogDir
    | ConsensusFile
    | PromptFile
    | DashboardPort
  {
    function Name(): string {
      match this
      case ProjectDir => "PROJECT_DIR"
      case Engine => "ENGINE"
      case Model => "MODEL"
      case SandboxMode => "SANDBOX_MODE"
      case CodexBin => "CODEX_BIN"
      case ClaudeBin => "CLAUDE_BIN"
      case Interval => "INTERVAL"
      case Timeout => "TIMEOUT"
      case Cooldown => "COOLDOWN"
      case LimitWait => "LIMIT_WAIT"
      case MaxErrors => "MAX_ERRORS"
      case LogLevel => "LOG_LEVEL"
      case MaxLogs => "MAX_LOGS"
      case PidFile => "PID_FILE"
      case StateFile => "STATE_FILE"
      case LogDir => "LOG_DIR"
      case ConsensusFile => "CONSENSUS_FILE"
      case PromptFile => "PROMPT_FILE"
      case DashboardPort => "DASHBOARD_PORT"
    }
  }

  /** JavaScript truthiness of a setting: `''`, `0` and `NaN` are falsy. */
  predicate Truthy(v: Value) {
    match v
    case Str(s) => s != ""
    case Num(n) => n != 0
    case NaN => false
  }

  /** `String(x)` of a looked-up setting, `null` included. */
  function ValueText(v: Option<Value>): string {
    match v
    case None => "null"
    case Some(Str(s)) => s
    case Some(Num(n)) => IntText(n)
    case Some(NaN) => "NaN"
  }

  // ---------------------------------------------------------------- parseInt

  predicate IsHexDigit(c: char) {
    IsDigit(c) || 'a' <= c <= 'f' || 'A' <= c <= 'F'
  }

  function HexDigitValue(c: char): (d: nat)
    requires IsHexDigit(c)
    ensures d < 16
  {
    if IsDigit(c) then c as int - '0' as int
    else if 'a' <= c <= 'f' then c as int - 'a' as int + 10
    else c as int - 'A' as int + 10
  }

  /** The longest prefix of `s` made of characters satisfying the radix's
      digit test. */
  function DigitRun(s: string, hex: bool): (r: string)
    ensures StartsWith(s, r)
    ensures forall i :: 0 <= i < |r| ==> (if hex then IsHexDigit(r[i]) else IsDigit(r[i]))
    ensures |r| < |s| ==> !(if hex then IsHexDigit(s[|r|]) else IsDigit(s[|r|]))
  {
    if s != [] && (if hex then IsHexDigit(s[0]) else IsDigit(s[0]))
    then [s[0]] + DigitRun(s[1..], hex)
    else []
  }

  function HexValue(s: string): nat
    requires forall i :: 0 <= i < |s| ==> IsHexDigit(s[i])
  {
    if s == [] then 0 else 16 * HexValue(s[..|s| - 1]) + HexDigitValue(s[|s| - 1])
  }

  /** `parseInt(s)` with no radix: leading white space is skipped, one sign
      is accepted, a `0x`/`0X` prefix selects base 16, and the longest run of
      digits that follows is read; no digits at all gives `NaN`. */
  function ParseInt(s: string): (v: Value)
    ensures v.Num? || v.NaN?
  {
    ParseSigned(TrimStart(s))
  }

  function ParseSigned(t: string): (v: Value)
    ensures v.Num? || v.NaN?
  {
    if |t| > 0 && t[0] == '-' then ParseMagnitude(t[1..], true)
    else if |t| > 0 && t[0] == '+' then ParseMagnitude(t[1..], false)
    else ParseMagnitude(t, false)
  }

  function ParseMagnitude(u: string, negative: bool): (v: Value)
    ensures v.Num? || v.NaN?
  {
    var hex := |u| >= 2 && u[0] == '0' && (u[1] == 'x' || u[1] == 'X');
    var digits := if hex then DigitRun(u[2..], true) else DigitRun(u, false);
    if digits == [] then NaN
    else
      var magnitude: int := if hex then HexValue(digits) else DecimalValue(digits);
      Num(if negative then -magnitude else magnitude)
  }

  lemma {:induction false} DigitRunOfDigits(s: string)
    requires forall i :: 0 <= i < |s| ==> IsDigit(s[i])
    ensures DigitRun(s, false) == s
    decreases |s|
  {
    if s != [] {
      DigitRunOfDigits(s[1..]);
    }
  }

  /** `parseInt(String(n))` gives `n` back for every integer. */
  lemma ParseIntText(n: int)
    ensures ParseInt(IntText(n)) == Num(n)
  {
    var m: nat := if n < 0 then -n else n;
    var d := Decimal(m);
    var t := IntText(n);
    MagnitudeOfDecimal(m, n < 0);
    SignNotSpace(t[0]);
    assert TrimStart(t) == t;
    if n < 0 {
      assert t == "-" + d;
      assert t[1..] == d;
      assert ParseSigned(t) == ParseMagnitude(d, true);
    } else {
      assert t == d;
      assert ParseSigned(t) == ParseMagnitude(d, false);
    }
  }

  lemma MagnitudeOfDecimal(m: nat, negative: bool)
    ensures ParseMagnitude(Decimal(m), negative) == Num(if negative then -(m as int) else m as int)
  {
    var d := Decimal(m);
    if |d| >= 2 {
      assert IsDigit(d[1]);
    }
    DigitRunOfDigits(d);
    DecimalRoundTrip(m);
  }

  lemma SignNotSpace(c: char)
    requires c == '-' || IsDigit(c)
    ensures !IsJsSpace(c)
  {
  }


  // ------------------------------------------------------------- .env lines

  /** `line.match(/^([^=]+)=(.*)$/)`: the key group is everything before the
      first `=` (at least one character, line terminators allowed), and the
      value group is the rest, which `.` and `$` reject if it holds a line
      terminator. */
  function MatchEnvLine(line: string): (m: Option<(string, string)>)
    ensures m.Some? ==> line == m.value.0 + "=" + m.value.1
    ensures m.Some? ==> |m.value.0| > 0 && '=' !in m.value.0 && NoLineTerminator(m.value.1)
    ensures m.None? ==> '=' !in line || line[0] == '=' || !NoLineTerminator(line[IndexOf(line, '=') + 1..])
  {
    if '=' !in line then None
    else
      var i := IndexOf(line, '=');
      var key := line[..i];
      var value := line[i + 1..];
      if i == 0 || !NoLineTerminator(value) then None
      else
        assert line == key + "=" + value;
        Some((key, value))
  }

  /** Every `key=value` line whose key is non-empty and free of `=` and whose
      value has no line terminator is matched, and split back into the same
      key and value. */
  lemma MatchEnvLineWritten(key: string, value: string)
    requires |key| > 0 && '=' !in key && NoLineTerminator(value)
    ensures MatchEnvLine(key + "=" + value) == Some((key, value))
  {
    var line := key + "=" + value;
    assert line[|key|] == '=';
    IndexOfAfter(key, '=', value);
    assert line[..|key|] == key && line[|key| + 1..] == value;
  }

  /** The assignment one `.env` line makes to the environment, both sides
      trimmed (src/config.js:28-31). */
  function EnvAssignment(line: string): Option<(string, string)> {
    match MatchEnvLine(line)
    case None => None
    case Some((k, v)) => Some((Trim(k), Trim(v)))
  }

  /** `process.env[key] = value` for a matching line; nothing otherwise. */
  function ApplyLine(env: map<string, string>, line: string): map<string, string> {
    match EnvAssignment(line)
    case None => env
    case Some((k, v)) => env[k := v]
  }

  /** The environment after the `.env` lines are applied in order. */
  function EnvAfterLines(env: map<string, string>, lines: seq<string>): map<string, string>
    decreases |lines|
  {
    if lines == [] then env else EnvAfterLines(ApplyLine(env, lines[0]), lines[1..])
  }

  predicate AssignsKey(line: string, k: string) {
    EnvAssignment(line).Some? && EnvAssignment(line).value.0 == k
  }

  /** A variable no line assigns keeps its value (or stays unset). */
  lemma {:induction false} EnvUntouched(env: map<string, string>, lines: seq<string>, k: string)
    requires forall i :: 0 <= i < |lines| ==> !AssignsKey(lines[i], k)
    ensures var r := EnvAfterLines(env, lines);
      (k in r <==> k in env) && (k in env ==> r[k] == env[k])
    decreases |lines|
  {
    if lines != [] {
      assert !AssignsKey(lines[0], k);
      EnvUntouched(ApplyLine(env, lines[0]), lines[1..], k);
    }
  }

  /** The last line assigning a variable decides its value, whatever the
      environment held before and whatever earlier lines said. */
  lemma {:induction false} EnvLastLineWins(env: map<string, string>, lines: seq<string>, i: int)
    requires 0 <= i < |lines| && EnvAssignment(lines[i]).Some?
    requires forall j :: i < j < |lines| ==> !AssignsKey(lines[j], EnvAssignment(lines[i]).value.0)
    ensures EnvAssignment(lines[i]).value.0 in EnvAfterLines(env, lines)
    ensures EnvAfterLines(env, lines)[EnvAssignment(lines[i]).value.0] == EnvAssignment(lines[i]).value.1
    decreases |lines|
  {
    var k := EnvAssignment(lines[i]).value.0;
    var next := ApplyLine(env, lines[0]);
    var rest := lines[1..];
    assert EnvAfterLines(env, lines) == EnvAfterLines(next, rest);
    if i == 0 {
      assert next == env[k := EnvAssignment(lines[0]).value.1];
      LaterLinesSkip(lines, 0, k);
      EnvUntouched(next, rest, k);
    } else {
      assert rest[i - 1] == lines[i];
      LaterLinesSkip(lines, i, k);
      EnvLastLineWins(next, rest, i - 1);
    }
  }

  /** No line after index `i` assigns `k`, read on the lines after the first. */
  lemma LaterLinesSkip(lines: seq<string>, i: int, k: string)
    requires 0 <= i < |lines|
    requires forall j :: i < j < |lines| ==> !AssignsKey(lines[j], k)
    ensures forall j :: i - 1 < j < |lines| - 1 ==> !AssignsKey(lines[1..][j], k)
  {
    forall j | i - 1 < j < |lines| - 1 ensures !AssignsKey(lines[1..][j], k) {
      assert lines[1..][j] == lines[j + 1];
    }
  }

  /** The forEach over the lines of `.env` (src/config.js:27-32). */
  method ApplyEnvFile(env: map<string, string>, content: string) returns (result: map<string, string>)
    ensures result == EnvAfterLines(env, Split(content, '\n'))
  {
    var lines := Split(content, '\n');
    result := env;
    var i := 0;
    while i < |lines|
      invariant 0 <= i <= |lines|
      invariant EnvAfterLines(result, lines[i..]) == EnvAfterLines(env, lines)
    {
      assert lines[i..][1..] == lines[i + 1..];
      var assignment := EnvAssignment(lines[i]);
      if assignment.Some? {
        result := result[assignment.value.0 := assignment.value.1];
      }
      i := i + 1;
    }
  }

  // ------------------------------------------------------------- the table

  /** `process.env.K || d`: an unset or empty variable takes the default. */
  function EnvOr(env: map<string, string>, k: string, d: string): (r: string)
    ensures k in env && env[k] != "" ==> r == env[k]
    ensures !(k in env && env[k] != "") ==> r == d
  {
    if k in env && env[k] != "" then env[k] else d
  }

  /** `path.join(dir, name)`; normalisation of `..` and repeated separators
      is not modelled. */
  function JoinPath(dir: string, name: string): string {
    dir + "/" + name
  }

  /** The text `load` falls back on when the environment variable of a
      text setting is unset or empty (src/config.js:36-70). */
  function FallbackText(k: Setting): string {
    match k
    case Engine => "codex"
    case SandboxMode => "danger-full-access"
    case LogLevel => "info"
    case _ => ""
  }

  /** The numeral a numeric setting falls back on, as a number: `load`
      hands `parseInt` its decimal text. */
  function FallbackNumber(k: Setting): nat {
    match k
    case Interval => 30
    case Timeout => 1800
    case Cooldown => 300
    case LimitWait => 3600
    case MaxErrors => 5
    case MaxLogs => 200
    case DashboardPort => 3456
    case _ => 0
  }

  /** The settings `load` derives from the project directory. */
  predicate IsPath(k: Setting) {
    k in {ProjectDir, PidFile, StateFile, LogDir, ConsensusFile, PromptFile}
  }

  /** The settings `load` passes through `parseInt`. */
  predicate IsNumeric(k: Setting) {
    k in {Interval, Timeout, Cooldown, LimitWait, MaxErrors, MaxLogs, DashboardPort}
  }

  function PathOf(projectDir: string, k: Setting): string {
    match k
    case PidFile => JoinPath(projectDir, ".auto-company.pid")
    case StateFile => JoinPath(projectDir, ".auto-company-state.json")
    case LogDir => JoinPath(projectDir, "logs")
    case ConsensusFile => JoinPath(JoinPath(projectDir, "memories"), "consensus.md")
    case PromptFile => JoinPath(projectDir, "PROMPT.md")
    case _ => projectDir
  }

  /** One entry of the settings table `load` builds: a path under the
      project directory, `parseInt(process.env.X || fallback)`, or
      `process.env.X || fallback`. */
  function DefaultValue(projectDir: string, env: map<string, string>, k: Setting): Value {
    if IsPath(k) then Str(PathOf(projectDir, k))
    else if IsNumeric(k) then ParseInt(EnvOr(env, k.Name(), IntText(FallbackNumber(k))))
    else Str(EnvOr(env, k.Name(), FallbackText(k)))
  }

  const AllSettings: set<Setting> := {
    ProjectDir, Engine, Model, SandboxMode, CodexBin, ClaudeBin, Interval, Timeout, Cooldown, LimitWait, MaxErrors, LogLevel, MaxLogs, PidFile, StateFile, LogDir, ConsensusFile, PromptFile, DashboardPort
  }

  /** The whole table: every setting, each with its entry. */
  function Defaults(projectDir: string, env: map<string, string>): (table: map<Setting, Value>)
    ensures table.Keys == AllSettings
  {
    map k | k in AllSettings :: DefaultValue(projectDir, env, k)
  }

  /** `config[key] || null`: a missing or falsy setting reads as null. */
  function Lookup(config: map<Setting, Value>, key: Setting): (r: Option<Value>)
    ensures r.Some? <==> key in config && Truthy(config[key])
    ensures r.Some? ==> r.value == config[key]
  {
    if key in config && Truthy(config[key]) then Some(config[key]) else None
  }

  /** Reading one setting of a freshly built table. */
  lemma LookupDefault(projectDir: string, env: map<string, string>, k: Setting)
    ensures var v := DefaultValue(projectDir, env, k);
      Lookup(Defaults(projectDir, env), k) == if Truthy(v) then Some(v) else None
  {
  }

  /** A setting the environment leaves unset or empty reads back as its
      fallback: the numeric ones as the number itself (every fallback numeral
      is non-zero and read back exactly), the text ones as their text or
      null when that is empty, the paths as built. */
  lemma UnsetReadsDefault(projectDir: string, env: map<string, string>, k: Setting)
    requires !IsPath(k) ==> k.Name() !in env || env[k.Name()] == ""
    ensures IsNumeric(k) ==> Lookup(Defaults(projectDir, env), k) == Some(Num(FallbackNumber(k)))
    ensures !IsNumeric(k) && !IsPath(k) ==>
      Lookup(Defaults(projectDir, env), k) == (if FallbackText(k) == "" then None else Some(Str(FallbackText(k))))
    ensures IsPath(k) && k != ProjectDir ==> Lookup(Defaults(projectDir, env), k) == Some(Str(PathOf(projectDir, k)))
  {
    LookupDefault(projectDir, env, k);
    var v := DefaultValue(projectDir, env, k);
    if IsPath(k) {
      assert v == Str(PathOf(projectDir, k));
    } else if IsNumeric(k) {
      var text := IntText(FallbackNumber(k));
      assert EnvOr(env, k.Name(), text) == text;
      ParseIntText(FallbackNumber(k));
      assert v == Num(FallbackNumber(k));
      FallbackNonZero(k);
    } else {
      assert v == Str(FallbackText(k));
    }
  }

  lemma FallbackNonZero(k: Setting)
    requires IsNumeric(k)
    ensures FallbackNumber(k) > 0
  {
  }

  /** A non-empty environment variable overrides the default of a numeric
      setting exactly as `parseInt` reads it; one without digits makes the
      setting read as null. */
  lemma EnvOverridesNumber(projectDir: string, env: map<string, string>, k: Setting)
    requires k in {Interval, Timeout, Cooldown, LimitWait, MaxErrors, MaxLogs, DashboardPort}
    requires k.Name() in env && env[k.Name()] != ""
    ensures var v := ParseInt(env[k.Name()]);
      Lookup(Defaults(projectDir, env), k) == if v.Num? && v.n != 0 then Some(v) else None
  {
  }

  /** The configuration object. */
  class Config {
    var config: map<Setting, Value>
    var projectDir: Option<string>

    constructor ()
      ensures config == map[] && projectDir == None
    {
      config := map[];
      projectDir := None;
    }

    /** `load()`: apply `.env` (when the file exists) to the environment,
        then rebuild the table; returns the new environment and the table. */
    method Load(dir: string, envFile: Option<string>, env: map<string, string>)
      returns (newEnv: map<string, string>, table: map<Setting, Value>)
      modifies this
      ensures newEnv == if envFile.Some? then EnvAfterLines(env, Split(envFile.value, '\n')) else env
      ensures config == Defaults(dir, newEnv) && table == config && projectDir == Some(dir)
    {
      projectDir := Some(dir);
      newEnv := env;
      if envFile.Some? {
        newEnv := ApplyEnvFile(env, envFile.value);
      }
      table := Defaults(dir, newEnv);
      config := table;
    }

    function Get(key: Setting): (r: Option<Value>)
      reads this
      ensures r.Some? <==> key in config && Truthy(config[key])
      ensures r.Some? ==> r.value == config[key]
    {
      Lookup(config, key)
    }

    method Set(key: Setting, value: Value)
      modifies this
      ensures config == old(config)[key := value] && projectDir == old(projectDir)
      ensures Get(key) == if Truthy(value) then Some(value) else None
      ensures forall k :: k != key ==> Get(k) == old(Get(k))
    {
      config := config[key := value];
    }

    /** `{ ...this.config }`: a value copy of the table, so later `Set`
        calls (which reassign the field) cannot change it, and every key reads
        through it exactly as through `Get`. */
    function GetAll(): (copy: map<Setting, Value>)
      reads this
      ensures forall k :: Lookup(copy, k) == Get(k)
      ensures copy == config
    {
      config
    }
  }
}
