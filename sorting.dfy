/** JavaScript's default `Array.prototype.sort` on strings: ascending
    lexicographic order of the characters, stable. The order is written out
    as `LexLess`, the sort as an insertion sort, and the facts the log
    retention needs about both (a strict total order, a sorted permutation,
    the rank of each element) are proved here. */
module Sorting {

  /** `a < b` for JavaScript strings: a proper prefix is smaller, otherwise
      the first differing character decides. */
  predicate LexLess(a: string, b: string)
    decreases |a|
  {
    |b| > 0 && (|a| == 0 || a[0] < b[0] || (a[0] == b[0] && LexLess(a[1..], b[1..])))
  }

  lemma {:induction false} LexIrreflexive(a: string)
    ensures !LexLess(a, a)
    decreases |a|
  {
    if |a| > 0 {
      LexIrreflexive(a[1..]);
    }
  }

  lemma {:induction false} LexTransitive(a: string, b: string, c: string)
    requires LexLess(a, b) && LexLess(b, c)
    ensures LexLess(a, c)
    decreases |a|
  {
    if |a| > 0 && a[0] == b[0] && b[0] == c[0] {
      LexTransitive(a[1..], b[1..], c[1..]);
    }
  }

  lemma {:induction false} LexTotal(a: string, b: string)
    ensures a == b || LexLess(a, b) || LexLess(b, a)
    decreases |a|
  {
    if |a| > 0 && |b| > 0 && a[0] == b[0] {
      LexTotal(a[1..], b[1..]);
      if a[1..] == b[1..] {
        assert a == [a[0]] + a[1..] && b == [b[0]] + b[1..];
      }
    }
  }

  lemma LexAsymmetric(a: string, b: string)
    requires LexLess(a, b)
    ensures !LexLess(b, a)
  {
    if LexLess(b, a) {
      LexTransitive(a, b, a);
      LexIrreflexive(a);
    }
  }

  /** A common prefix does not change the order. */
  lemma {:induction false} LexCommonPrefix(p: string, x: string, y: string)
    ensures LexLess(p + x, p + y) <==> LexLess(x, y)
    decreases |p|
  {
    if |p| > 0 {
      assert (p + x)[0] == p[0] == (p + y)[0];
      assert (p + x)[1..] == p[1..] + x;
      assert (p + y)[1..] == p[1..] + y;
      LexCommonPrefix(p[1..], x, y);
    } else {
      assert p + x == x && p + y == y;
    }
  }

  /** When two strings of equal length are ordered, anything appended to
      them keeps that order. */
  lemma {:induction false} LexEqualLengthPrefix(x: string, y: string, u: string, v: string)
    requires |x| == |y| && LexLess(x, y)
    ensures LexLess(x + u, y + v)
    decreases |x|
  {
    if x[0] == y[0] && !(x[0] < y[0]) {
      assert (x + u)[1..] == x[1..] + u;
      assert (y + v)[1..] == y[1..] + v;
      LexEqualLengthPrefix(x[1..], y[1..], u, v);
    }
  }

  function Elems(s: seq<string>): set<string> {
    set x | x in s
  }

  predicate Distinct(s: seq<string>) {
    forall i, j :: 0 <= i < j < |s| ==> s[i] != s[j]
  }

  predicate StrictlySorted(s: seq<string>) {
    forall i, j :: 0 <= i < j < |s| ==> LexLess(s[i], s[j])
  }

  /** Insert `x` before the first element that is not smaller than it. */
  function Insert(x: string, s: seq<string>): (r: seq<string>)
    ensures multiset(r) == multiset(s) + multiset{x}
  {
    if s == [] then [x]
    else if LexLess(s[0], x) then
      assert s == [s[0]] + s[1..];
      [s[0]] + Insert(x, s[1..])
    else
      [x] + s
  }

  lemma {:induction false} InsertSorted(x: string, s: seq<string>)
    requires StrictlySorted(s) && x !in s
    ensures StrictlySorted(Insert(x, s))
    decreases |s|
  {
    if s != [] {
      if LexLess(s[0], x) {
        InsertSorted(x, s[1..]);
        var t := Insert(x, s[1..]);
        forall j | 0 <= j < |t| ensures LexLess(s[0], t[j]) {
          assert t[j] in multiset(t);
          if t[j] != x {
            assert t[j] in s[1..];
            var k :| 0 <= k < |s[1..]| && s[1..][k] == t[j];
            assert s[k + 1] == t[j];
          }
        }
      } else {
        LexTotal(x, s[0]);
        forall j | 1 <= j < |s| ensures LexLess(x, s[j]) {
          LexTransitive(x, s[0], s[j]);
        }
      }
    }
  }

  /** The insertion sort. */
  function Sort(s: seq<string>): (r: seq<string>)
    ensures multiset(r) == multiset(s)
  {
    if s == [] then []
    else
      assert s == [s[0]] + s[1..];
      Insert(s[0], Sort(s[1..]))
  }

  /** Sorting names without duplicates gives each of them once, in strictly
      ascending order. */
  lemma {:induction false} SortSorted(s: seq<string>)
    requires Distinct(s)
    ensures StrictlySorted(Sort(s))
    ensures |Sort(s)| == |s| && Elems(Sort(s)) == Elems(s)
    decreases |s|
  {
    if s != [] {
      assert Distinct(s[1..]);
      SortSorted(s[1..]);
      assert s[0] !in multiset(s[1..]) by {
        forall k | 0 <= k < |s[1..]| ensures s[1..][k] != s[0] {
          assert s[1..][k] == s[k + 1];
        }
      }
      assert s[0] !in Sort(s[1..]) by {
        assert s[0] !in multiset(Sort(s[1..]));
      }
      InsertSorted(s[0], Sort(s[1..]));
    }
    MultisetElems(Sort(s), s);
  }

  lemma MultisetElems(a: seq<string>, b: seq<string>)
    requires multiset(a) == multiset(b)
    ensures |a| == |b| && Elems(a) == Elems(b)
  {
    assert |multiset(a)| == |multiset(b)|;
    forall x ensures x in a <==> x in b {
      assert x in a <==> x in multiset(a);
      assert x in b <==> x in multiset(b);
    }
  }

  function Reverse(s: seq<string>): (r: seq<string>)
    ensures |r| == |s|
    ensures forall i :: 0 <= i < |s| ==> r[i] == s[|s| - 1 - i]
  {
    if s == [] then [] else Reverse(s[1..]) + [s[0]]
  }

  /** Reversing keeps the elements. */
  lemma ReverseElems(s: seq<string>)
    ensures Elems(Reverse(s)) == Elems(s)
  {
    var r := Reverse(s);
    forall x | x in Elems(r) ensures x in Elems(s) {
      var i :| 0 <= i < |r| && r[i] == x;
      assert s[|s| - 1 - i] == x;
    }
    forall x | x in Elems(s) ensures x in Elems(r) {
      var i :| 0 <= i < |s| && s[i] == x;
      assert r[|s| - 1 - i] == x;
    }
  }

  /** A sequence without duplicates has as many distinct elements as it has
      positions. */
  lemma {:induction false} DistinctCard(s: seq<string>)
    requires Distinct(s)
    ensures |Elems(s)| == |s|
    decreases |s|
  {
    if s != [] {
      assert Distinct(s[1..]);
      DistinctCard(s[1..]);
      assert Elems(s) == Elems(s[1..]) + {s[0]};
      assert s[0] !in Elems(s[1..]) by {
        forall k | 0 <= k < |s[1..]| ensures s[1..][k] != s[0] {
          assert s[1..][k] == s[k + 1];
        }
      }
    }
  }

  /** Names of `names` that sort after `x`. */
  function Larger(names: set<string>, x: string): set<string> {
    set y | y in names && LexLess(x, y)
  }

  /** In a strictly sorted listing, exactly the later entries sort after an
      entry, so the entry at `i` has `|s| - 1 - i` larger names. */
  lemma RankInSorted(s: seq<string>, i: int)
    requires StrictlySorted(s) && 0 <= i < |s|
    ensures |Larger(Elems(s), s[i])| == |s| - 1 - i
  {
    var later := s[i + 1..];
    assert Larger(Elems(s), s[i]) == Elems(later) by {
      forall y | y in Elems(s) && LexLess(s[i], y) ensures y in later {
        var k :| 0 <= k < |s| && s[k] == y;
        if k <= i {
          if k < i {
            LexAsymmetric(s[k], s[i]);
          } else {
            LexIrreflexive(s[i]);
          }
        }
        assert later[k - i - 1] == y;
      }
      forall y | y in later ensures y in Elems(s) && LexLess(s[i], y) {
        var k :| 0 <= k < |later| && later[k] == y;
        assert s[i + 1 + k] == y;
      }
    }
    assert Distinct(later) by {
      forall a, b | 0 <= a < b < |later| ensures later[a] != later[b] {
        assert later[a] == s[i + 1 + a] && later[b] == s[i + 1 + b];
        LexIrreflexive(later[a]);
      }
    }
    DistinctCard(later);
  }
}
