/** The per-cycle log files of src/loop.js: how a cycle's log is named
    (a zero-padded cycle number and a sanitised timestamp) and which of them
    `rotateLogs` keeps (the `MAX_LOGS` names that sort last). The retention
    rule is stated by rank and proved equal to the sort-and-delete the
    source performs. */
module CycleLogs {
  import opened Strings
  import opened Sorting

  /** The filter `rotateLogs` and `/api/cycles` apply to directory entries. */
  predicate IsCycleLog(name: string) {
    StartsWith(name, "cycle-") && EndsWith(name, ".log")
  }

  function Sanitize(c: char): char {
    if c == ':' || c == '.' then '-' else c
  }

  /** `timestamp()`: the ISO text with every `:` and `.` turned into `-`,
      cut to its first 19 characters (src/loop.js:321-324). */
  function Timestamp(iso: string): (r: string)
    ensures |r| == if |iso| < 19 then |iso| else 19
    ensures ':' !in r && '.' !in r
  {
    var n := if |iso| < 19 then |iso| else 19;
    var r := seq(n, i requires 0 <= i < n => Sanitize(iso[i]));
    assert forall i :: 0 <= i < |r| ==> r[i] != ':' && r[i] != '.';
    r
  }

  /** An ISO string `YYYY-MM-DDTHH:MM:SS.sssZ` becomes
      `YYYY-MM-DDTHH-MM-SS`: the date and the hour, minute and second
      survive, the milliseconds are dropped. */
  lemma TimestampOfIso(iso: string)
    requires |iso| == 24 && iso[13] == ':' && iso[16] == ':' && iso[19] == '.'
    requires forall i :: 0 <= i < 19 && i != 13 && i != 16 ==> iso[i] != ':' && iso[i] != '.'
    ensures Timestamp(iso) == iso[..13] + "-" + iso[14..16] + "-" + iso[17..19]
  {
    var r := Timestamp(iso);
    var e := iso[..13] + "-" + iso[14..16] + "-" + iso[17..19];
    assert |r| == |e| == 19;
    forall i | 0 <= i < 19 ensures r[i] == e[i] {
      if i < 13 {
        assert e[i] == iso[i];
      } else if 13 < i < 16 {
        assert e[i] == iso[i];
      } else if 16 < i {
        assert e[i] == iso[i];
      }
    }
  }

  /** `String(cycleNum).padStart(4, '0')`. */
  function CycleNumber(n: nat): (r: string)
    ensures |r| >= 4
    ensures forall i :: 0 <= i < |r| ==> IsDigit(r[i])
  {
    var d := Decimal(n);
    var r := PadStart(d, 4, '0');
    assert forall i :: |r| - |d| <= i < |r| ==> r[i] == d[i - (|r| - |d|)];
    r
  }

  /** The name of cycle `n`'s log: `cycle-NNNN-<timestamp>.log`
      (src/loop.js:103-106). */
  function CycleLogName(n: nat, iso: string): (name: string)
    ensures IsCycleLog(name)
  {
    var name := "cycle-" + CycleNumber(n) + "-" + Timestamp(iso) + ".log";
    assert name[..6] == "cycle-";
    assert name[|name| - 4..] == ".log";
    name
  }

  /** The `w`-digit rendering of `n` with leading zeros. */
  function FixedDigits(n: nat, w: nat): (r: string)
    ensures |r| == w
  {
    if w == 0 then [] else FixedDigits(n / 10, w - 1) + [DigitChar(n % 10)]
  }

  function Pow10(k: nat): (p: nat)
    ensures p >= 1
  {
    if k == 0 then 1 else 10 * Pow10(k - 1)
  }

  lemma {:induction false} DecimalFits(n: nat, k: nat)
    requires k >= 1 && n < Pow10(k)
    ensures |Decimal(n)| <= k
  {
    if n >= 10 {
      DecimalFits(n / 10, k - 1);
    }
  }

  lemma {:induction false} FixedZero(w: nat)
    ensures FixedDigits(0, w) == Repeat('0', w)
  {
    if w > 0 {
      FixedZero(w - 1);
      var a := FixedDigits(0, w);
      var b := Repeat('0', w);
      assert DigitChar(0) == '0';
      forall i | 0 <= i < w ensures a[i] == b[i] {
        if i < w - 1 {
          assert a[i] == FixedDigits(0, w - 1)[i];
        }
      }
    }
  }

  /** Padding a numeral with zeros is the fixed-width rendering. */
  lemma {:induction false} FixedIsPadded(n: nat, w: nat)
    requires |Decimal(n)| <= w
    ensures FixedDigits(n, w) == Repeat('0', w - |Decimal(n)|) + Decimal(n)
  {
    if n < 10 {
      FixedZero(w - 1);
      assert n / 10 == 0;
    } else {
      FixedIsPadded(n / 10, w - 1);
    }
  }

  /** Among renderings of the same width, the numerically smaller one sorts
      first. */
  lemma {:induction false} FixedDigitsOrder(a: nat, b: nat, w: nat)
    requires a < b < Pow10(w)
    ensures LexLess(FixedDigits(a, w), FixedDigits(b, w))
  {
    var pa := FixedDigits(a / 10, w - 1);
    var pb := FixedDigits(b / 10, w - 1);
    if a / 10 < b / 10 {
      FixedDigitsOrder(a / 10, b / 10, w - 1);
      LexEqualLengthPrefix(pa, pb, [DigitChar(a % 10)], [DigitChar(b % 10)]);
    } else {
      assert pa == pb && a % 10 < b % 10;
      LexCommonPrefix(pa, [DigitChar(a % 10)], [DigitChar(b % 10)]);
    }
  }

  /** Below 10000 the padded cycle number is exactly four digits wide. */
  lemma CycleNumberFixed(n: nat)
    requires n < 10000
    ensures CycleNumber(n) == FixedDigits(n, 4)
  {
    assert Pow10(4) == 10000;
    DecimalFits(n, 4);
    FixedIsPadded(n, 4);
  }

  /** For cycles below 10000, the log names sort in cycle order, whatever
      their timestamps. */
  lemma CycleLogOrder(n1: nat, iso1: string, n2: nat, iso2: string)
    requires n1 < n2 < 10000
    ensures LexLess(CycleLogName(n1, iso1), CycleLogName(n2, iso2))
  {
    CycleNumberFixed(n1);
    CycleNumberFixed(n2);
    assert Pow10(4) == 10000;
    FixedDigitsOrder(n1, n2, 4);
    LexEqualLengthPrefix(CycleNumber(n1), CycleNumber(n2), NameTail(iso1), NameTail(iso2));
    LexCommonPrefix("cycle-", CycleNumber(n1) + NameTail(iso1), CycleNumber(n2) + NameTail(iso2));
    NameParts(n1, iso1);
    NameParts(n2, iso2);
  }

  function NameTail(iso: string): string {
    "-" + Timestamp(iso) + ".log"
  }

  lemma NameParts(n: nat, iso: string)
    ensures CycleLogName(n, iso) == "cycle-" + (CycleNumber(n) + NameTail(iso))
  {
  }

  /** `padStart` never truncates, so from cycle 10000 on the order breaks:
      the log of cycle 10000 sorts before that of cycle 9999. */
  lemma CycleLogOrderBreaks(iso1: string, iso2: string)
    ensures LexLess(CycleLogName(10000, iso1), CycleLogName(9999, iso2))
  {
    assert Decimal(1) == "1";
    assert Decimal(10) == "10";
    assert Decimal(100) == "100";
    assert Decimal(1000) == "1000";
    assert Decimal(10000) == "10000";
    assert Decimal(9) == "9";
    assert Decimal(99) == "99";
    assert Decimal(999) == "999";
    assert Decimal(9999) == "9999";
    var a := CycleNumber(10000) + NameTail(iso1);
    var b := CycleNumber(9999) + NameTail(iso2);
    assert a[0] == '1' && b[0] == '9';
    LexCommonPrefix("cycle-", a, b);
    NameParts(10000, iso1);
    NameParts(9999, iso2);
  }

  // ------------------------------------------------------------ retention

  /** The cycle logs among a directory's names. */
  function CycleLogsIn(names: set<string>): set<string> {
    set x | x in names && IsCycleLog(x)
  }

  /** The cycle logs of a directory listing, in listing order: the
      `filter(f => f.startsWith('cycle-') && f.endsWith('.log'))` that
      `rotateLogs` and the dashboard's cycle listing share. */
  function CycleLogsOf(names: seq<string>): (r: seq<string>)
    ensures forall x :: x in r ==> x in names && IsCycleLog(x)
  {
    if names == [] then []
    else (if IsCycleLog(names[0]) then [names[0]] else []) + CycleLogsOf(names[1..])
  }

  /** The filter keeps every cycle log of the listing, once. */
  lemma {:induction false} CycleLogsOfExact(names: seq<string>)
    ensures Elems(CycleLogsOf(names)) == CycleLogsIn(Elems(names))
    ensures Distinct(names) ==> Distinct(CycleLogsOf(names))
    decreases |names|
  {
    if names != [] {
      var rest := CycleLogsOf(names[1..]);
      var head := if IsCycleLog(names[0]) then [names[0]] else [];
      CycleLogsOfExact(names[1..]);
      assert CycleLogsOf(names) == head + rest;
      assert Elems(names) == {names[0]} + Elems(names[1..]);
      assert Elems(head + rest) == Elems(head) + Elems(rest);
      if Distinct(names) {
        assert Distinct(names[1..]);
        assert names[0] !in Elems(names[1..]) by {
          forall k | 0 <= k < |names[1..]| ensures names[1..][k] != names[0] {
            assert names[1..][k] == names[k + 1];
          }
        }
        assert names[0] !in rest;
      }
    }
  }

  /** Whether `rotateLogs` keeps `x`: anything that is not a cycle log, and
      a cycle log when fewer than `maxLogs` cycle logs sort after it. A
      null `MAX_LOGS` is passed as 0. */
  predicate Kept(names: set<string>, x: string, maxLogs: int) {
    !IsCycleLog(x) || |Larger(CycleLogsIn(names), x)| < maxLogs
  }

  /** The directory (name to contents) after `rotateLogs`. */
  function Retain(dir: map<string, string>, maxLogs: int): (r: map<string, string>)
    ensures r.Keys <= dir.Keys
    ensures forall x :: x in r ==> r[x] == dir[x]
  {
    map x | x in dir && Kept(dir.Keys, x, maxLogs) :: dir[x]
  }

  /** Retention leaves every other file alone, and every kept cycle log
      sorts after every deleted one. */
  lemma RetainKeepsNewest(dir: map<string, string>, maxLogs: int, kept: string, gone: string)
    requires kept in Retain(dir, maxLogs) && IsCycleLog(kept)
    requires gone in dir && gone !in Retain(dir, maxLogs)
    ensures IsCycleLog(gone) && LexLess(gone, kept)
  {
    var logs := CycleLogsIn(dir.Keys);
    LexTotal(gone, kept);
    if LexLess(kept, gone) {
      assert Larger(logs, gone) <= Larger(logs, kept) by {
        forall y | y in Larger(logs, gone) ensures y in Larger(logs, kept) {
          LexTransitive(kept, gone, y);
        }
      }
      SubsetCard(Larger(logs, gone), Larger(logs, kept));
      assert false;
    }
  }

  lemma SubsetCard(a: set<string>, b: set<string>)
    requires a <= b
    ensures |a| <= |b|
  {
    assert b == a + (b - a);
  }

  /** How many names `files.slice(0, files.length - maxLogs)` takes when
      `files.length > maxLogs`: the slice end is clamped to the length. */
  function DeleteCount(n: nat, maxLogs: int): (k: nat)
    ensures k <= n
  {
    if n > maxLogs then (if maxLogs < 0 then n else n - maxLogs) else 0
  }

  /** Deleting the first names of the sorted listing of cycle logs is the
      retention rule: exactly the cycle logs with fewer than `maxLogs`
      larger names survive. */
  lemma RetainSorted(dir: map<string, string>, maxLogs: int, s: seq<string>)
    requires StrictlySorted(s) && Elems(s) == CycleLogsIn(dir.Keys)
    ensures Retain(dir, maxLogs) == map x | x in dir && x !in s[..DeleteCount(|s|, maxLogs)] :: dir[x]
  {
    var k := DeleteCount(|s|, maxLogs);
    var logs := CycleLogsIn(dir.Keys);
    forall x | x in dir
      ensures Kept(dir.Keys, x, maxLogs) <==> x !in s[..k]
    {
      if IsCycleLog(x) {
        assert x in Elems(s);
        var i :| 0 <= i < |s| && s[i] == x;
        RankInSorted(s, i);
        if x in s[..k] {
          var j :| 0 <= j < k && s[..k][j] == x;
          if j != i {
            assert s[j] == s[i];
            if j < i { LexIrreflexive(s[i]); } else { LexIrreflexive(s[i]); }
          }
        }
      } else {
        assert x !in Elems(s);
      }
    }
  }

  /** After retention exactly `min(n, MAX_LOGS)` cycle logs remain (none
      for a zero or negative limit), and only cycle logs were removed. */
  lemma RetainCount(dir: map<string, string>, maxLogs: int, s: seq<string>)
    requires StrictlySorted(s) && Elems(s) == CycleLogsIn(dir.Keys)
    ensures |CycleLogsIn(Retain(dir, maxLogs).Keys)| == |s| - DeleteCount(|s|, maxLogs)
    ensures |s| - DeleteCount(|s|, maxLogs) == if maxLogs <= 0 then 0 else if |s| < maxLogs then |s| else maxLogs
    ensures forall x :: x in dir && !IsCycleLog(x) ==> x in Retain(dir, maxLogs)
  {
    var k := DeleteCount(|s|, maxLogs);
    RetainSorted(dir, maxLogs, s);
    assert CycleLogsIn(Retain(dir, maxLogs).Keys) == Elems(s[k..]) by {
      forall x | x in Elems(s[k..]) ensures x in CycleLogsIn(Retain(dir, maxLogs).Keys) {
        var i :| k <= i < |s| && s[i] == x;
        assert x in Elems(s);
        if x in s[..k] {
          var j :| 0 <= j < k && s[j] == x;
          assert j != i;
          LexIrreflexive(x);
        }
      }
      forall x | x in CycleLogsIn(Retain(dir, maxLogs).Keys) ensures x in Elems(s[k..]) {
        assert x in Elems(s);
        var i :| 0 <= i < |s| && s[i] == x;
        assert forall j :: 0 <= j < k ==> s[j] != x by {
          forall j | 0 <= j < k ensures s[j] != x {
            assert s[..k][j] == s[j];
          }
        }
        assert s[k..][i - k] == x;
      }
    }
    assert Distinct(s[k..]) by {
      forall a, b | 0 <= a < b < |s[k..]| ensures s[k..][a] != s[k..][b] {
        assert s[k..][a] == s[k + a] && s[k..][b] == s[k + b];
        LexIrreflexive(s[k + a]);
      }
    }
    DistinctCard(s[k..]);
  }
}
