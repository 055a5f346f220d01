/**
 * Collection helpers shared by the commands and the stores: sums over a table's
 * rows, the ascending sequence of a set of TEXT keys (what `ORDER BY` produces
 * over a key column), a stable sort by a comparator, and order-preserving filters.
 */
module Collections {
  import opened Text

  // ---------------------------------------------------------------------------
  // Sums over maps
  // ---------------------------------------------------------------------------

  /** The sum of the values of a map (the order of summation is immaterial). */
  ghost function MapSum<K>(m: map<K, int>): int
    decreases |m|
  {
    if m == map[] then 0
    else
      var k :| k in m;
      m[k] + MapSum(m - {k})
  }

  /** Any key may be split off first. */
  lemma {:induction false} MapSumRemove<K>(m: map<K, int>, k: K)
    requires k in m
    ensures MapSum(m) == m[k] + MapSum(m - {k})
    decreases |m|
  {
    var j :| j in m && MapSum(m) == m[j] + MapSum(m - {j});
    if j != k {
      var mj := m - {j};
      var mk := m - {k};
      assert k in mj && j in mk;
      MapSumRemove(mj, k);
      MapSumRemove(mk, j);
      assert mj - {k} == mk - {j};
    }
  }

  /** Writing `v` at key `k` replaces the old contribution of `k`, if any, by `v`. */
  lemma MapSumUpdate<K>(m: map<K, int>, k: K, v: int)
    ensures MapSum(m[k := v]) == MapSum(m) - (if k in m then m[k] else 0) + v
  {
    var m' := m[k := v];
    MapSumRemove(m', k);
    if k in m {
      MapSumRemove(m, k);
      assert m' - {k} == m - {k};
    } else {
      assert m' - {k} == m;
    }
  }

  /** `SUM(col)` over the rows of `m`, taken in key order; it is the sum of the values. */
  function SumValues(m: map<string, int>): (s: int)
    ensures s == MapSum(m)
    decreases |m|
  {
    if m == map[] then 0
    else
      var k := Minimum(m.Keys);
      MapSumRemove(m, k);
      assert |m - {k}| < |m| by { assert (m - {k}).Keys < m.Keys; }
      m[k] + SumValues(m - {k})
  }

  /** `COALESCE(MAX(col), 0)` over the rows of `m`. */
  function MaxValue(m: map<string, int>): (r: int)
    ensures m == map[] ==> r == 0
    ensures m != map[] ==> (exists k | k in m :: m[k] == r) && forall k | k in m :: m[k] <= r
    decreases |m|
  {
    if m == map[] then 0
    else
      var k := Minimum(m.Keys);
      var rest := m - {k};
      assert |rest| < |m| by { assert rest.Keys < m.Keys; }
      if rest == map[] then
        assert forall j | j in m :: j == k;
        m[k]
      else
        var r := MaxValue(rest);
        assert forall j | j in m :: j == k || j in rest;
        if m[k] >= r then m[k] else r
  }

  // ---------------------------------------------------------------------------
  // Ascending order of TEXT keys
  // ---------------------------------------------------------------------------

  predicate StrictlyAscending(xs: seq<string>)
  {
    forall i, j | 0 <= i < j < |xs| :: StrLt(xs[i], xs[j])
  }

  predicate IsMinimum(s: set<string>, m: string)
  {
    m in s && forall x | x in s :: StrLe(m, x)
  }

  lemma {:induction false} MinimumExists(s: set<string>)
    requires s != {}
    ensures exists m :: IsMinimum(s, m)
    decreases |s|
  {
    var y :| y in s;
    if s == {y} {
      StrLeRefl(y);
      assert IsMinimum(s, y);
    } else {
      var rest := s - {y};
      MinimumExists(rest);
      var m :| IsMinimum(rest, m);
      StrLeTotal(m, y);
      if StrLe(m, y) {
        forall x | x in s ensures StrLe(m, x) {
          if x != y { assert x in rest; }
        }
        assert IsMinimum(s, m);
      } else {
        forall x | x in s ensures StrLe(y, x) {
          if x == y { StrLeRefl(y); } else { assert x in rest; StrLeTransitive(y, m, x); }
        }
        assert IsMinimum(s, y);
      }
    }
  }

  lemma MinimumUnique(s: set<string>, a: string, b: string)
    requires IsMinimum(s, a) && IsMinimum(s, b)
    ensures a == b
  {
    StrLeAntisymmetric(a, b);
  }

  /** The least key of a non-empty set (`MIN(col)`). */
  function Minimum(s: set<string>): (m: string)
    requires s != {}
    ensures IsMinimum(s, m)
  {
    MinimumExists(s);
    forall a, b | IsMinimum(s, a) && IsMinimum(s, b) ensures a == b {
      MinimumUnique(s, a, b);
    }
    var m :| IsMinimum(s, m);
    m
  }

  /** The keys of `s` in ascending order, each once. */
  function Ascending(s: set<string>): (r: seq<string>)
    ensures |r| == |s|
    ensures forall x :: x in r <==> x in s
    ensures StrictlyAscending(r)
    decreases |s|
  {
    if s == {} then []
    else
      var m := Minimum(s);
      var rest := Ascending(s - {m});
      var r := [m] + rest;
      assert forall i | 1 <= i < |r| :: r[i] in s - {m};
      forall i, j | 0 <= i < j < |r| ensures StrLt(r[i], r[j]) {
        if i > 0 { assert r[i] == rest[i - 1] && r[j] == rest[j - 1]; }
      }
      r
  }

  function Reverse<T>(xs: seq<T>): (r: seq<T>)
    ensures |r| == |xs|
    ensures forall i | 0 <= i < |xs| :: r[i] == xs[|xs| - 1 - i]
    decreases |xs|
  {
    if xs == [] then [] else Reverse(xs[1..]) + [xs[0]]
  }

  /** No element occurs twice. */
  ghost predicate Distinct<T>(xs: seq<T>)
  {
    forall i, j | 0 <= i < j < |xs| :: xs[i] != xs[j]
  }

  /** In a list without repeats every element is counted at most once. */
  lemma {:induction false} DistinctCount<T>(xs: seq<T>)
    requires Distinct(xs)
    ensures forall x :: multiset(xs)[x] <= 1
  {
    if xs != [] {
      var t := xs[1..];
      assert xs == [xs[0]] + t;
      assert Distinct(t) by {
        forall i, j | 0 <= i < j < |t| ensures t[i] != t[j] {
          assert t[i] == xs[i + 1] && t[j] == xs[j + 1];
        }
      }
      DistinctCount(t);
      forall i | 0 <= i < |t| ensures t[i] != xs[0] {
        assert t[i] == xs[i + 1];
      }
      assert xs[0] !in t;
    }
  }

  /** An element found at two positions is counted at least twice. */
  lemma TwoOccurrences<T>(xs: seq<T>, i: nat, j: nat)
    requires i < j < |xs|
    ensures xs[i] == xs[j] ==> multiset(xs)[xs[i]] >= 2
  {
    var head := xs[..j];
    assert xs == head + [xs[j]] + xs[j + 1..];
    assert head[i] == xs[i];
    assert multiset(head)[xs[i]] >= 1;
  }

  /** A reordering of a list without repeats has no repeats. */
  lemma DistinctPermuted<T>(a: seq<T>, b: seq<T>)
    requires multiset(a) == multiset(b) && Distinct(a)
    ensures Distinct(b)
  {
    DistinctCount(a);
    forall i, j | 0 <= i < j < |b| ensures b[i] != b[j] {
      TwoOccurrences(b, i, j);
    }
  }

  // ---------------------------------------------------------------------------
  // Filtering, replacing and sorting sequences
  // ---------------------------------------------------------------------------

  /** `xs.filter(p)`: the elements satisfying `p`, in their original order. */
  function Filter<T(!new)>(xs: seq<T>, p: T -> bool): (r: seq<T>)
    ensures |r| <= |xs|
    ensures forall x :: x in r <==> x in xs && p(x)
    ensures multiset(r) <= multiset(xs)
    decreases |xs|
  {
    if xs == [] then []
    else
      assert xs == [xs[0]] + xs[1..];
      if p(xs[0]) then [xs[0]] + Filter(xs[1..], p) else Filter(xs[1..], p)
  }

  lemma {:induction false} FilterAppend<T(!new)>(a: seq<T>, b: seq<T>, p: T -> bool)
    ensures Filter(a + b, p) == Filter(a, p) + Filter(b, p)
    decreases |a|
  {
    if a == [] {
      assert a + b == b;
    } else {
      assert (a + b)[1..] == a[1..] + b;
      FilterAppend(a[1..], b, p);
    }
  }

  lemma {:induction false} FilterAll<T(!new)>(xs: seq<T>, p: T -> bool)
    requires forall x | x in xs :: p(x)
    ensures Filter(xs, p) == xs
    decreases |xs|
  {
    if xs != [] { FilterAll(xs[1..], p); }
  }

  /** The number of elements satisfying `p`. */
  function CountWhere<T(!new)>(xs: seq<T>, p: T -> bool): (n: nat)
    ensures n <= |xs|
    ensures n == |Filter(xs, p)|
    decreases |xs|
  {
    if xs == [] then 0 else (if p(xs[0]) then 1 else 0) + CountWhere(xs[1..], p)
  }

  /** Comparator `le` is total: any two elements are ordered one way or the other. */
  ghost predicate Total<T(!new)>(le: (T, T) -> bool)
  {
    forall a, b :: le(a, b) || le(b, a)
  }

  predicate SortedBy<T>(xs: seq<T>, le: (T, T) -> bool)
  {
    forall i | 0 < i < |xs| :: le(xs[i - 1], xs[i])
  }

  /** Inserts `x` before the first element it may precede. */
  function InsertBy<T(!new)>(x: T, xs: seq<T>, le: (T, T) -> bool): (r: seq<T>)
    ensures multiset(r) == multiset(xs) + multiset{x}
    ensures r != [] && (r[0] == x || (xs != [] && r[0] == xs[0]))
    ensures Total(le) && SortedBy(xs, le) ==> SortedBy(r, le)
    decreases |xs|
  {
    if xs == [] || le(x, xs[0]) then [x] + xs
    else
      var tail := InsertBy(x, xs[1..], le);
      assert xs == [xs[0]] + xs[1..];
      [xs[0]] + tail
  }

  /** Insertion sort: stable, so elements the comparator ties keep their input order. */
  function SortBy<T(!new)>(xs: seq<T>, le: (T, T) -> bool): (r: seq<T>)
    ensures multiset(r) == multiset(xs)
    ensures Total(le) ==> SortedBy(r, le)
    decreases |xs|
  {
    if xs == [] then []
    else
      assert xs == [xs[0]] + xs[1..];
      InsertBy(xs[0], SortBy(xs[1..], le), le)
  }
}
