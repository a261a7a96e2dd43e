/** The data logic of the dashboard's HTTP handlers (src/dashboard/server.js):
    the `.env` editor behind `/api/config`, the idea submission that appends
    to the consensus, the cycle history listing, the log tail, the status
    fallback and the pause marker. The files the handlers read and write
    are the fields of the class `Dashboard`; what a handler answers is a
    function of them. */
module Dashboard {
  import opened Options
  import opened Strings
  import opened Sorting
  import opened Config
  import opened CycleLogs
  import opened Loop

  // ------------------------------------------------------- .env entries

  /** A plain JavaScript object of strings, as its entries in insertion
      order. */
  type Entries = seq<(string, string)>

  function Keys(e: Entries): (ks: seq<string>)
    ensures |ks| == |e| && forall i :: 0 <= i < |e| ==> ks[i] == e[i].0
  {
    if e == [] then [] else [e[0].0] + Keys(e[1..])
  }

  /** `obj[k]`, `None` for a missing key. */
  function Get(e: Entries, k: string): Option<string> {
    if e == [] then None else if e[0].0 == k then Some(e[0].1) else Get(e[1..], k)
  }

  /** `obj[k] = v`: an existing key keeps its place and takes the new value,
      a new key goes last. */
  function Put(e: Entries, k: string, v: string): (r: Entries)
    ensures Get(r, k) == Some(v)
    ensures forall j :: j != k ==> Get(r, j) == Get(e, j)
    ensures Keys(r) == if k in Keys(e) then Keys(e) else Keys(e) + [k]
    ensures forall p :: p in r ==> p in e || p == (k, v)
  {
    if e == [] then [(k, v)]
    else if e[0].0 == k then [(k, v)] + e[1..]
    else
      var rest := Put(e[1..], k, v);
      assert Keys(e) == [e[0].0] + Keys(e[1..]);
      assert Keys([e[0]] + rest) == [e[0].0] + Keys(rest);
      [e[0]] + rest
  }

  /** An entry that survives being written as `k=v` and read back: a key
      the line pattern takes whole, a value that `.` matches throughout. */
  predicate GoodEntry(p: (string, string)) {
    |p.0| > 0 && '=' !in p.0 && '\n' !in p.0 && NoLineTerminator(p.1)
  }

  predicate WellFormed(e: Entries) {
    Distinct(Keys(e)) && forall p :: p in e ==> GoodEntry(p)
  }

  lemma PutWellFormed(e: Entries, k: string, v: string)
    requires WellFormed(e) && GoodEntry((k, v))
    ensures WellFormed(Put(e, k, v))
  {
    var r := Put(e, k, v);
    if k !in Keys(e) {
      assert Distinct(Keys(e) + [k]) by {
        var ks := Keys(e) + [k];
        forall i, j | 0 <= i < j < |ks| ensures ks[i] != ks[j] {
          if j == |ks| - 1 {
            assert ks[i] == Keys(e)[i];
          } else {
            assert ks[i] == Keys(e)[i] && ks[j] == Keys(e)[j];
          }
        }
      }
    }
  }

  /** A key not yet present is appended. */
  lemma {:induction false} PutNew(e: Entries, k: string, v: string)
    requires k !in Keys(e)
    ensures Put(e, k, v) == e + [(k, v)]
    decreases |e|
  {
    if e != [] {
      assert Keys(e) == [e[0].0] + Keys(e[1..]);
      PutNew(e[1..], k, v);
      assert [e[0]] + (e[1..] + [(k, v)]) == e + [(k, v)];
    }
  }

  // --------------------------------------------------------- .env parse

  /** One line of the `forEach`: a line matching `^([^=]+)=(.*)$` sets its
      key, untrimmed; any other line is dropped (src/dashboard/server.js:54-56). */
  function ApplyEnvLine(e: Entries, line: string): Entries {
    match MatchEnvLine(line)
    case None => e
    case Some((k, v)) => Put(e, k, v)
  }

  function EntriesAfterLines(e: Entries, lines: seq<string>): Entries
    decreases |lines|
  {
    if lines == [] then e else EntriesAfterLines(ApplyEnvLine(e, lines[0]), lines[1..])
  }

  /** `envVars` as the handlers build it: empty when there is no `.env`. */
  function ParseEnv(content: Option<string>): Entries {
    match content
    case None => []
    case Some(c) => EntriesAfterLines([], Split(c, '\n'))
  }

  /** The parsing loop of both `/api/config` handlers. */
  method ReadEnvVars(content: Option<string>) returns (vars: Entries)
    ensures vars == ParseEnv(content)
  {
    vars := [];
    if content.Some? {
      var lines := Split(content.value, '\n');
      for i := 0 to |lines|
        invariant EntriesAfterLines(vars, lines[i..]) == ParseEnv(content)
      {
        assert lines[i..][1..] == lines[i + 1..];
        vars := ApplyEnvLine(vars, lines[i]);
      }
    }
  }

  lemma {:induction false} EntriesAfterAppend(e: Entries, a: seq<string>, b: seq<string>)
    ensures EntriesAfterLines(e, a + b) == EntriesAfterLines(EntriesAfterLines(e, a), b)
    decreases |a|
  {
    if a != [] {
      assert (a + b)[1..] == a[1..] + b;
      EntriesAfterAppend(ApplyEnvLine(e, a[0]), a[1..], b);
    } else {
      assert a + b == b;
    }
  }

  /** Whatever the file says, what the handlers parse from it is well
      formed: distinct keys, each non-empty and free of `=`, values on one
      line. */
  lemma {:induction false} ParsedWellFormed(e: Entries, lines: seq<string>)
    requires WellFormed(e)
    requires forall i :: 0 <= i < |lines| ==> '\n' !in lines[i]
    ensures WellFormed(EntriesAfterLines(e, lines))
    decreases |lines|
  {
    if lines != [] {
      var m := MatchEnvLine(lines[0]);
      if m.Some? {
        var (k, v) := m.value;
        assert lines[0] == k + "=" + v;
        assert '\n' !in k by {
          forall i | 0 <= i < |k| ensures k[i] != '\n' {
            assert lines[0][i] == k[i];
          }
        }
        PutWellFormed(e, k, v);
      }
      assert forall i :: 0 <= i < |lines| - 1 ==> lines[1..][i] == lines[i + 1];
      ParsedWellFormed(ApplyEnvLine(e, lines[0]), lines[1..]);
    }
  }

  lemma ParseEnvWellFormed(content: Option<string>)
    ensures WellFormed(ParseEnv(content))
  {
    if content.Some? {
      ParsedWellFormed([], Split(content.value, '\n'));
    }
  }

  /** The last line that assigns a key decides its value, untrimmed. */
  lemma {:induction false} ParseLastLineWins(e: Entries, lines: seq<string>, i: int, k: string, v: string)
    requires 0 <= i < |lines| && MatchEnvLine(lines[i]) == Some((k, v))
    requires forall j :: i < j < |lines| ==> MatchEnvLine(lines[j]).None? || MatchEnvLine(lines[j]).value.0 != k
    ensures Get(EntriesAfterLines(e, lines), k) == Some(v)
    decreases |lines|
  {
    if i == 0 {
      ParseKeepsKey(ApplyEnvLine(e, lines[0]), lines[1..], k);
    } else {
      ParseLastLineWins(ApplyEnvLine(e, lines[0]), lines[1..], i - 1, k, v);
    }
  }

  /** Lines that do not assign `k` leave its value as it was. */
  lemma {:induction false} ParseKeepsKey(e: Entries, lines: seq<string>, k: string)
    requires forall j :: 0 <= j < |lines| ==> MatchEnvLine(lines[j]).None? || MatchEnvLine(lines[j]).value.0 != k
    ensures Get(EntriesAfterLines(e, lines), k) == Get(e, k)
    decreases |lines|
  {
    if lines != [] {
      assert forall j :: 0 <= j < |lines| - 1 ==> lines[1..][j] == lines[j + 1];
      ParseKeepsKey(ApplyEnvLine(e, lines[0]), lines[1..], k);
    }
  }

  // --------------------------------------------------------- .env write

  /** One entry as the line `k=v`. */
  function EntryLine(p: (string, string)): string {
    p.0 + "=" + p.1
  }

  function EntryLines(e: Entries): (ls: seq<string>)
    ensures |ls| == |e| && forall i :: 0 <= i < |e| ==> ls[i] == EntryLine(e[i])
  {
    if e == [] then [] else [EntryLine(e[0])] + EntryLines(e[1..])
  }

  /** `Object.entries(envVars).map(([k, v]) => `${k}=${v}`).join('\n') + '\n'`
      (src/dashboard/server.js:89-93). */
  function Serialize(e: Entries): (text: string)
    ensures EndsWith(text, "\n")
    ensures e == [] ==> text == "\n"
  {
    var text := (if e == [] then "" else Join(EntryLines(e), '\n')) + "\n";
    assert text[|text| - 1..] == "\n";
    text
  }

  lemma {:induction false} JoinTrailing(parts: seq<string>)
    requires |parts| >= 1
    ensures Join(parts + [""], '\n') == Join(parts, '\n') + "\n"
    decreases |parts|
  {
    if |parts| > 1 {
      assert (parts + [""])[1..] == parts[1..] + [""];
      JoinTrailing(parts[1..]);
    } else {
      assert parts + [""] == [parts[0], ""];
      assert Join([""], '\n') == "";
    }
  }

  /** Reading back the lines of distinct, well-formed entries after what
      is already there appends them. */
  lemma {:induction false} ReadBackLines(a: Entries, b: Entries)
    requires WellFormed(a + b)
    ensures EntriesAfterLines(a, EntryLines(b)) == a + b
    decreases |b|
  {
    if b != [] {
      var p, rest := b[0], b[1..];
      var a2 := a + [p];
      assert a2 + rest == a + b;
      ReadBackFirst(a, b);
      var lines := EntryLines(b);
      assert lines[0] == EntryLine(p) && lines[1..] == EntryLines(rest);
      ReadBackLines(a2, rest);
      assert EntriesAfterLines(a, lines) == EntriesAfterLines(a2, lines[1..]);
    } else {
      assert a + b == a;
    }
  }

  /** The first line written for `b` appends its entry to `a`. */
  lemma ReadBackFirst(a: Entries, b: Entries)
    requires WellFormed(a + b) && b != []
    ensures ApplyEnvLine(a, EntryLine(b[0])) == a + [b[0]]
  {
    var p := b[0];
    assert p == (a + b)[|a|];
    assert p in a + b;
    MatchEnvLineWritten(p.0, p.1);
    assert Keys(a + b)[|a|] == p.0;
    assert p.0 !in Keys(a) by {
      forall i | 0 <= i < |a| ensures Keys(a)[i] != p.0 {
        assert Keys(a + b)[i] == Keys(a)[i];
      }
    }
    PutNew(a, p.0, p.1);
  }

  /** What the handler writes, read back by the same parser, is what it
      wrote: no entry is lost, reordered or altered. */
  lemma SerializeRoundTrip(e: Entries)
    requires WellFormed(e)
    ensures ParseEnv(Some(Serialize(e))) == e
  {
    if e == [] {
      assert Split("\n", '\n') == ["", ""] by {
        assert IndexOf("\n", '\n') == 0;
        assert "\n"[1..] == "";
      }
    } else {
      var ls := EntryLines(e);
      var all := ls + [""];
      JoinTrailing(ls);
      assert Serialize(e) == Join(all, '\n');
      WrittenPieces(e);
      SplitJoin(all, '\n');
      EntriesAfterAppend([], ls, [""]);
      assert [] + e == e;
      ReadBackLines([], e);
      assert MatchEnvLine("").None?;
    }
  }

  /** No written line holds a `\n`, nor does the final empty piece. */
  lemma WrittenPieces(e: Entries)
    requires WellFormed(e)
    ensures forall i :: 0 <= i < |EntryLines(e) + [""]| ==> '\n' !in (EntryLines(e) + [""])[i]
  {
    var all := EntryLines(e) + [""];
    forall i | 0 <= i < |all| ensures '\n' !in all[i] {
      if i < |e| {
        var p := e[i];
        assert p in e;
        assert all[i] == p.0 + "=" + p.1;
      }
    }
  }

  // -------------------------------------------------------- config POST

  /** A field of the JSON request body. */
  datatype BodyField = Missing | Null | Text(s: string) | Number(n: int) | Flag(b: bool) {
    predicate Truthy() {
      match this
      case Missing => false
      case Null => false
      case Text(s) => s != ""
      case Number(n) => n != 0
      case Flag(b) => b
    }

    /** The field as a template literal or `String(...)` renders it. */
    function Render(): string {
      match this
      case Missing => "undefined"
      case Null => "null"
      case Text(s) => s
      case Number(n) => IntText(n)
      case Flag(b) => if b then "true" else "false"
    }
  }

  datatype ConfigBody = ConfigBody(engine: BodyField, model: BodyField, interval: BodyField, timeout: BodyField)

  /** `if (cond) obj[k] = v`. */
  function SetIf(e: Entries, cond: bool, k: string, v: string): (r: Entries)
    ensures Get(r, k) == if cond then Some(v) else Get(e, k)
    ensures forall j :: j != k ==> Get(r, j) == Get(e, j)
    ensures |Keys(r)| >= |Keys(e)| && Keys(r)[..|e|] == Keys(e)
  {
    if cond then Put(e, k, v) else e
  }

  /** The four assignments of the POST handler (src/dashboard/server.js:84-87):
      `ENGINE`, `INTERVAL` and `TIMEOUT` only when truthy, `MODEL` whenever
      the field is present, even empty or null. */
  function Merge(vars: Entries, body: ConfigBody): Entries {
    var a := SetIf(vars, body.engine.Truthy(), "ENGINE", body.engine.Render());
    var b := SetIf(a, body.model != Missing, "MODEL", body.model.Render());
    var c := SetIf(b, body.interval.Truthy(), "INTERVAL", body.interval.Render());
    SetIf(c, body.timeout.Truthy(), "TIMEOUT", body.timeout.Render())
  }

  const EditedKeys: set<string> := {"ENGINE", "MODEL", "INTERVAL", "TIMEOUT"}

  /** Four conditional assignments to distinct keys, in a row. */
  function SetAll(e: Entries, c: seq<bool>, k: seq<string>, v: seq<string>): Entries
    requires |c| == |k| == |v|
    decreases |c|
  {
    if c == [] then e else SetAll(SetIf(e, c[0], k[0], v[0]), c[1..], k[1..], v[1..])
  }

  /** After the assignments, an assigned key holds its value, an untouched
      key its old one, and every old key keeps its place. */
  lemma {:induction false} SetAllEffect(e: Entries, c: seq<bool>, k: seq<string>, v: seq<string>)
    requires |c| == |k| == |v| && Distinct(k)
    ensures forall i :: 0 <= i < |k| ==> Get(SetAll(e, c, k, v), k[i]) == if c[i] then Some(v[i]) else Get(e, k[i])
    ensures forall j :: j !in k ==> Get(SetAll(e, c, k, v), j) == Get(e, j)
    ensures |Keys(SetAll(e, c, k, v))| >= |e| && Keys(SetAll(e, c, k, v))[..|e|] == Keys(e)
    decreases |c|
  {
    if c != [] {
      var e1 := SetIf(e, c[0], k[0], v[0]);
      assert Distinct(k[1..]);
      SetAllEffect(e1, c[1..], k[1..], v[1..]);
      var r := SetAll(e, c, k, v);
      forall i | 0 <= i < |k| ensures Get(r, k[i]) == if c[i] then Some(v[i]) else Get(e, k[i]) {
        if i > 0 {
          assert k[1..][i - 1] == k[i];
        } else {
          assert k[0] !in k[1..] by {
            forall t | 0 <= t < |k[1..]| ensures k[1..][t] != k[0] {
              assert k[1..][t] == k[t + 1];
            }
          }
        }
      }
      forall j | j !in k ensures Get(r, j) == Get(e, j) {
        assert j !in k[1..];
      }
      assert |Keys(e1)| == |e1|;
      assert Keys(r)[..|e|] == Keys(r)[..|e1|][..|e|];
    }
  }

  /** The merge sets exactly the fields its rules select, keeps every other
      key with its value, and leaves every key in its place. */
  lemma MergeEffect(vars: Entries, body: ConfigBody)
    ensures var m := Merge(vars, body);
      && Get(m, "ENGINE") == (if body.engine.Truthy() then Some(body.engine.Render()) else Get(vars, "ENGINE"))
      && Get(m, "MODEL") == (if body.model != Missing then Some(body.model.Render()) else Get(vars, "MODEL"))
      && Get(m, "INTERVAL") == (if body.interval.Truthy() then Some(body.interval.Render()) else Get(vars, "INTERVAL"))
      && Get(m, "TIMEOUT") == (if body.timeout.Truthy() then Some(body.timeout.Render()) else Get(vars, "TIMEOUT"))
      && (forall k :: k !in EditedKeys ==> Get(m, k) == Get(vars, k))
      && |Keys(m)| >= |vars| && Keys(m)[..|vars|] == Keys(vars)
  {
    var c := [body.engine.Truthy(), body.model != Missing, body.interval.Truthy(), body.timeout.Truthy()];
    var k := ["ENGINE", "MODEL", "INTERVAL", "TIMEOUT"];
    var v := [body.engine.Render(), body.model.Render(), body.interval.Render(), body.timeout.Render()];
    MergeIsSetAll(vars, body);
    SetAllEffect(vars, c, k, v);
    assert k[0] == "ENGINE" && k[1] == "MODEL" && k[2] == "INTERVAL" && k[3] == "TIMEOUT";
    forall j | j !in EditedKeys ensures j !in k {
    }
  }

  lemma MergeIsSetAll(vars: Entries, body: ConfigBody)
    ensures Merge(vars, body) == SetAll(vars,
      [body.engine.Truthy(), body.model != Missing, body.interval.Truthy(), body.timeout.Truthy()],
      ["ENGINE", "MODEL", "INTERVAL", "TIMEOUT"],
      [body.engine.Render(), body.model.Render(), body.interval.Render(), body.timeout.Render()])
  {
    var c := [body.engine.Truthy(), body.model != Missing, body.interval.Truthy(), body.timeout.Truthy()];
    var k := ["ENGINE", "MODEL", "INTERVAL", "TIMEOUT"];
    var v := [body.engine.Render(), body.model.Render(), body.interval.Render(), body.timeout.Render()];
    var a := SetIf(vars, c[0], k[0], v[0]);
    var b := SetIf(a, c[1], k[1], v[1]);
    var d := SetIf(b, c[2], k[2], v[2]);
    var m := SetIf(d, c[3], k[3], v[3]);
    assert SetAll(d, c[3..], k[3..], v[3..]) == m;
    assert SetAll(b, c[2..], k[2..], v[2..]) == m by {
      assert c[2..][1..] == c[3..] && k[2..][1..] == k[3..] && v[2..][1..] == v[3..];
    }
    assert SetAll(a, c[1..], k[1..], v[1..]) == m by {
      assert c[1..][1..] == c[2..] && k[1..][1..] == k[2..] && v[1..][1..] == v[2..];
    }
  }

  /** Body fields whose rendering stays on one line. */
  predicate OneLine(f: BodyField) {
    NoLineTerminator(f.Render())
  }

  lemma MergeWellFormed(vars: Entries, body: ConfigBody)
    requires WellFormed(vars)
    requires OneLine(body.engine) && OneLine(body.model) && OneLine(body.interval) && OneLine(body.timeout)
    ensures WellFormed(Merge(vars, body))
  {
    var a := SetIf(vars, body.engine.Truthy(), "ENGINE", body.engine.Render());
    SetIfWellFormed(vars, body.engine.Truthy(), "ENGINE", body.engine.Render());
    var b := SetIf(a, body.model != Missing, "MODEL", body.model.Render());
    SetIfWellFormed(a, body.model != Missing, "MODEL", body.model.Render());
    var c := SetIf(b, body.interval.Truthy(), "INTERVAL", body.interval.Render());
    SetIfWellFormed(b, body.interval.Truthy(), "INTERVAL", body.interval.Render());
    SetIfWellFormed(c, body.timeout.Truthy(), "TIMEOUT", body.timeout.Render());
  }

  lemma SetIfWellFormed(e: Entries, cond: bool, k: string, v: string)
    requires WellFormed(e) && |k| > 0 && '=' !in k && '\n' !in k && NoLineTerminator(v)
    ensures WellFormed(SetIf(e, cond, k, v))
  {
    if cond {
      PutWellFormed(e, k, v);
    }
  }

  // ------------------------------------------------------------- ideas

  const IdeaHeading: string := "\n\n---\n\n## New Idea Received (from dashboard)\n"
  const IdeaRequest: string := "\n\nPlease analyze this idea, refine it into a concrete plan, and execute it!\n"

  /** The new consensus text (src/dashboard/server.js:146-161): the old one,
      or nothing when there is no file, then the heading, the idea and the
      request. */
  function WithIdea(consensus: Option<string>, idea: string): (r: string)
    ensures StartsWith(r, consensus.GetOr(""))
    ensures OccursAt(r, IdeaHeading, |consensus.GetOr("")|)
    ensures OccursAt(r, idea, |consensus.GetOr("")| + |IdeaHeading|)
    ensures EndsWith(r, IdeaRequest)
    ensures |r| == |consensus.GetOr("")| + |IdeaHeading| + |idea| + |IdeaRequest|
  {
    var before := consensus.GetOr("");
    var r := before + IdeaHeading + idea + IdeaRequest;
    assert r[..|before|] == before;
    assert r[|before|..|before| + |IdeaHeading|] == IdeaHeading;
    assert r[|before| + |IdeaHeading|..|before| + |IdeaHeading| + |idea|] == idea;
    assert r[|r| - |IdeaRequest|..] == IdeaRequest;
    r
  }

  /** The next prompt the loop builds from that consensus carries the idea. */
  lemma IdeaReachesPrompt(prompt: string, consensus: Option<string>, idea: string, cycle: int)
    ensures Contains(BuildPrompt(Some(prompt), Some(WithIdea(consensus, idea)), cycle).value, idea)
  {
    var text := WithIdea(consensus, idea);
    var full := BuildPrompt(Some(prompt), Some(text), cycle).value;
    var at := |prompt| + |Guardrails|;
    var k := |consensus.GetOr("")| + |IdeaHeading|;
    OccursInside(full, text, idea, at, k);
  }

  // ------------------------------------------------------------ cycles

  /** `/api/cycles` (src/dashboard/server.js:169-190): no log directory
      lists nothing; otherwise the cycle logs of the listing, sorted and
      reversed. */
  function ListCycles(listing: Option<seq<string>>): (r: seq<string>)
    ensures listing.None? ==> r == []
    ensures listing.Some? ==> Elems(r) == CycleLogsIn(Elems(listing.value))
    ensures forall x :: x in r ==> IsCycleLog(x)
  {
    match listing
    case None => []
    case Some(names) =>
      ListedCycleLogs(names);
      Reverse(Sort(CycleLogsOf(names)))
  }

  lemma ListedCycleLogs(names: seq<string>)
    ensures var r := Reverse(Sort(CycleLogsOf(names)));
      Elems(r) == CycleLogsIn(Elems(names)) && forall x :: x in r ==> IsCycleLog(x)
  {
    var s := Sort(CycleLogsOf(names));
    CycleLogsOfExact(names);
    MultisetElems(s, CycleLogsOf(names));
    ReverseElems(s);
    assert forall x :: x in Reverse(s) ==> x in Elems(Reverse(s));
  }

  /** A real directory listing names each file once, and then the history
      is newest name first: strictly descending, without repeats. */
  lemma CyclesDescending(names: seq<string>)
    requires Distinct(names)
    ensures var r := ListCycles(Some(names));
      forall i, j :: 0 <= i < j < |r| ==> LexLess(r[j], r[i])
  {
    CycleLogsOfExact(names);
    SortSorted(CycleLogsOf(names));
  }

  // -------------------------------------------------------------- logs

  /** `parseInt(req.query.limit) || 100`: a missing, non-numeric or zero
      limit becomes 100. */
  function LogLimit(query: Option<string>): (n: int)
    ensures n != 0
    ensures query.None? ==> n == 100
    ensures query.Some? && ParseInt(query.value).Num? && ParseInt(query.value).n != 0 ==> n == ParseInt(query.value).n
    ensures query.Some? && !(ParseInt(query.value).Num? && ParseInt(query.value).n != 0) ==> n == 100
  {
    match query
    case None => 100
    case Some(q) =>
      match ParseInt(q)
      case Num(n) => if n != 0 then n else 100
      case _ => 100
  }

  /** Where `lines.slice(-limit)` starts: the last `limit` lines for a
      positive limit, but for a negative one all lines after the first
      `-limit`. */
  function TailStart(count: nat, limit: int): (start: nat)
    ensures start <= count
    ensures limit > 0 ==> start == if limit >= count then 0 else count - limit
    ensures limit < 0 ==> start == if -limit >= count then count else -limit
  {
    var from := -limit;
    if from < 0 then (if count + from < 0 then 0 else count + from)
    else (if from > count then count else from)
  }

  /** `.filter(l => l.length > 0)`. */
  function NonEmptyLines(lines: seq<string>): (r: seq<string>)
    ensures |r| <= |lines|
    ensures forall x :: x in r <==> x in lines && x != ""
  {
    if lines == [] then []
    else (if lines[0] != "" then [lines[0]] else []) + NonEmptyLines(lines[1..])
  }

  /** The filter of a concatenation is the concatenation of the filters;
      with `NonEmptyLine`, the kept lines keep their order and repeats. */
  lemma {:induction false} NonEmptyLinesAppend(a: seq<string>, b: seq<string>)
    ensures NonEmptyLines(a + b) == NonEmptyLines(a) + NonEmptyLines(b)
    decreases |a|
  {
    if a == [] {
      assert a + b == b;
    } else {
      var ab := a + b;
      assert ab[0] == a[0] && ab[1..] == a[1..] + b;
      NonEmptyLinesAppend(a[1..], b);
    }
  }

  /** A single line is kept exactly when it is not blank. */
  lemma NonEmptyLine(x: string)
    ensures NonEmptyLines([x]) == if x != "" then [x] else []
  {
    assert [x][1..] == [];
  }

  /** `/api/logs` (src/dashboard/server.js:288-298), given the limit the
      handler reads with `LogLimit`: the lines of the log file from
      `slice(-limit)` on, blank ones dropped. */
  function LogTail(logFile: Option<string>, limit: int): (r: seq<string>)
    ensures logFile.None? ==> r == []
    ensures forall x :: x in r ==> x != ""
  {
    match logFile
    case None => []
    case Some(text) =>
      var lines := Split(text, '\n');
      NonEmptyLines(lines[TailStart(|lines|, limit)..])
  }

  /** The log file as the logger leaves it: every line followed by `\n`.
      Its trailing empty piece takes one place of the tail, so a limit of
      `n` shows the last `n - 1` lines. */
  lemma TailOfLoggedLines(lines: seq<string>, limit: int)
    requires forall i :: 0 <= i < |lines| ==> lines[i] != "" && '\n' !in lines[i]
    requires limit > 0
    ensures var n := limit - 1;
      LogTail(Some(Join(lines + [""], '\n')), limit) == lines[if n >= |lines| then 0 else |lines| - n..]
  {
    LoggedFileTail(lines, limit);
    TailOfLines(lines, limit);
  }

  /** The pieces of a file of `\n`-terminated lines are the lines and one
      empty piece. */
  lemma LoggedFileTail(lines: seq<string>, limit: int)
    requires forall i :: 0 <= i < |lines| ==> '\n' !in lines[i]
    ensures LogTail(Some(Join(lines + [""], '\n')), limit)
      == NonEmptyLines((lines + [""])[TailStart(|lines| + 1, limit)..])
  {
    var all := lines + [""];
    forall i | 0 <= i < |all| ensures '\n' !in all[i] {
      if i < |lines| { assert all[i] == lines[i]; }
    }
    SplitJoin(all, '\n');
  }

  lemma TailOfLines(lines: seq<string>, limit: int)
    requires forall i :: 0 <= i < |lines| ==> lines[i] != ""
    requires limit > 0
    ensures var n := limit - 1;
      NonEmptyLines((lines + [""])[TailStart(|lines| + 1, limit)..]) == lines[if n >= |lines| then 0 else |lines| - n..]
  {
    var n := limit - 1;
    var from := if n >= |lines| then 0 else |lines| - n;
    assert TailStart(|lines| + 1, limit) == from;
    assert (lines + [""])[from..] == lines[from..] + [""];
    NonEmptyKeeps(lines[from..]);
  }

  /** Dropping blank lines from non-blank lines and one trailing blank. */
  lemma {:induction false} NonEmptyKeeps(lines: seq<string>)
    requires forall i :: 0 <= i < |lines| ==> lines[i] != ""
    ensures NonEmptyLines(lines + [""]) == lines
    decreases |lines|
  {
    if lines == [] {
      assert NonEmptyLines([""]) == [] + NonEmptyLines([]);
    } else {
      assert (lines + [""])[1..] == lines[1..] + [""];
      NonEmptyKeeps(lines[1..]);
      assert [lines[0]] + lines[1..] == lines;
    }
  }

  // ------------------------------------------------------------ status

  /** What `/api/status` answers: the saved record, or the fixed object for
      a missing state file. */
  datatype StatusReply = FromFile(record: StateRecord) | Fallback(status: string, loopCount: nat, errorCount: nat) {
    function StatusText(): string {
      match this
      case FromFile(rec) => rec.status.Text()
      case Fallback(s, _, _) => s
    }
  }

  function StatusOf(stateFile: Option<StateRecord>): (r: StatusReply)
    ensures stateFile.None? ==> r == Fallback("stopped", 0, 0)
    ensures stateFile.Some? ==> r.FromFile? && r.record == stateFile.value
  {
    match stateFile
    case None => Fallback("stopped", 0, 0)
    case Some(rec) => FromFile(rec)
  }

  /** The dashboard says `stopped` both before the loop ever saved its
      state and once the loop has ended. */
  lemma StatusStoppedUnlessRunning(t: LoopState)
    ensures StatusOf(None).StatusText() == "stopped"
    ensures Ended(t) ==> StatusOf(Some(t.disk.stateWrites[|t.disk.stateWrites| - 1])).StatusText() == "stopped"
  {
  }

  // ------------------------------------------------------- the handlers

  /** The files the handlers use: `.env`, the consensus, the idea file and
      the pause marker (holding the time it was written). */
  class Dashboard {
    var envFile: Option<string>
    var consensus: Option<string>
    var ideaFile: Option<string>
    var pauseMarker: Option<string>

    constructor (envFile: Option<string>, consensus: Option<string>, ideaFile: Option<string>, pauseMarker: Option<string>)
      ensures this.envFile == envFile && this.consensus == consensus
      ensures this.ideaFile == ideaFile && this.pauseMarker == pauseMarker
    {
      this.envFile := envFile;
      this.consensus := consensus;
      this.ideaFile := ideaFile;
      this.pauseMarker := pauseMarker;
    }

    /** `GET /api/config`'s `envVars` (src/dashboard/server.js:49-68). */
    method GetEnvVars() returns (vars: Entries)
      ensures vars == ParseEnv(envFile) && WellFormed(vars)
    {
      vars := ReadEnvVars(envFile);
      ParseEnvWellFormed(envFile);
    }

    /** `POST /api/config` (src/dashboard/server.js:71-96). */
    method PostConfig(body: ConfigBody)
      modifies this
      ensures envFile == Some(Serialize(Merge(ParseEnv(old(envFile)), body)))
      ensures consensus == old(consensus) && ideaFile == old(ideaFile) && pauseMarker == old(pauseMarker)
    {
      var vars := ReadEnvVars(envFile);
      if body.engine.Truthy() { vars := Put(vars, "ENGINE", body.engine.Render()); }
      if body.model != Missing { vars := Put(vars, "MODEL", body.model.Render()); }
      if body.interval.Truthy() { vars := Put(vars, "INTERVAL", body.interval.Render()); }
      if body.timeout.Truthy() { vars := Put(vars, "TIMEOUT", body.timeout.Render()); }
      envFile := Some(Serialize(vars));
    }

    /** `POST /api/idea` (src/dashboard/server.js:136-166): a missing or
        empty idea is answered 400 and changes nothing; otherwise the idea
        file holds the idea and the consensus gains it. */
    method PostIdea(idea: Option<string>) returns (code: int)
      modifies this
      ensures idea.None? || idea == Some("") ==> code == 400 && unchanged(this)
      ensures idea.Some? && idea.value != "" ==>
        && code == 200
        && ideaFile == idea
        && consensus == Some(WithIdea(old(consensus), idea.value))
        && envFile == old(envFile) && pauseMarker == old(pauseMarker)
    {
      if idea.None? || idea.value == "" {
        return 400;
      }
      ideaFile := idea;
      consensus := Some(WithIdea(consensus, idea.value));
      return 200;
    }

    /** `paused` in `/api/settings`: the marker exists (src/dashboard/server.js:116). */
    predicate Paused()
      reads this
    {
      pauseMarker.Some?
    }

    /** `POST /api/pause` (src/dashboard/server.js:121-125). */
    method Pause(now: string)
      modifies this
      ensures Paused() && pauseMarker == Some(now)
      ensures envFile == old(envFile) && consensus == old(consensus) && ideaFile == old(ideaFile)
    {
      pauseMarker := Some(now);
    }

    /** `POST /api/resume` (src/dashboard/server.js:127-133): removes the
        marker if it is there; resuming twice is resuming once. */
    method Resume()
      modifies this
      ensures !Paused() && pauseMarker == None
      ensures envFile == old(envFile) && consensus == old(consensus) && ideaFile == old(ideaFile)
      ensures !old(Paused()) ==> unchanged(this)
    {
      if pauseMarker.Some? {
        pauseMarker := None;
      }
    }
  }

  /** After the config handler writes the file, both handlers read back
      exactly the merged entries, provided the body's fields render on one
      line. */
  lemma ConfigWriteReadBack(envFile: Option<string>, body: ConfigBody)
    requires OneLine(body.engine) && OneLine(body.model) && OneLine(body.interval) && OneLine(body.timeout)
    ensures ParseEnv(Some(Serialize(Merge(ParseEnv(envFile), body)))) == Merge(ParseEnv(envFile), body)
  {
    ParseEnvWellFormed(envFile);
    MergeWellFormed(ParseEnv(envFile), body);
    SerializeRoundTrip(Merge(ParseEnv(envFile), body));
  }
}
