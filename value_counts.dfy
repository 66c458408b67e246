/** Counting how often each value occurs in a column.

    This is the aggregation behind both pie charts of the dashboard: pandas'
    `Series.value_counts()` in the per-site chart, and the grouping that a pie
    chart performs over its `names` column when it is given no `values` column
    (every row then contributes one unit to the slice named by its key). The
    result is a map from each distinct value to its number of occurrences; the
    order pandas puts the rows in (descending count) is not modelled. */
module ValueCounts {

  /** The count table of `s`: one entry per distinct value of `s`. */
  function Tally<K>(s: seq<K>): (m: map<K, nat>)
    ensures m.Keys == set k | k in s
    ensures forall k :: k in m ==> m[k] == multiset(s)[k]
    ensures forall k :: k in m ==> m[k] > 0
  {
    if s == [] then map[]
    else
      var rest := Tally(s[1..]);
      assert s == [s[0]] + s[1..];
      rest[s[0] := (if s[0] in rest then rest[s[0]] else 0) + 1]
  }

  /** The sum of all the counts of a count table. */
  ghost function MapSum<K>(m: map<K, nat>): nat
    decreases |m|
  {
    if m == map[] then 0
    else
      var k :| k in m;
      assert (m - {k}).Keys == m.Keys - {k};
      m[k] + MapSum(m - {k})
  }

  /** The sum does not depend on which key is taken out first. */
  lemma {:induction false} MapSumRemove<K>(m: map<K, nat>, k: K)
    requires k in m
    ensures MapSum(m) == m[k] + MapSum(m - {k})
    decreases |m|
  {
    var j :| j in m && MapSum(m) == m[j] + MapSum(m - {j});
    if j != k {
      assert (m - {j}).Keys == m.Keys - {j};
      assert (m - {k}).Keys == m.Keys - {k};
      MapSumRemove(m - {j}, k);
      MapSumRemove(m - {k}, j);
      assert m - {j} - {k} == m - {k} - {j};
    }
  }

  /** Adding one occurrence of a key adds one to the sum of the counts. */
  lemma MapSumBump<K>(m: map<K, nat>, x: K)
    ensures MapSum(m[x := (if x in m then m[x] else 0) + 1]) == MapSum(m) + 1
  {
    var m' := m[x := (if x in m then m[x] else 0) + 1];
    MapSumRemove(m', x);
    assert m' - {x} == m - {x};
    if x in m {
      MapSumRemove(m, x);
    } else {
      assert m - {x} == m;
    }
  }

  /** The counts of a count table add up to the length of the column. */
  lemma {:induction false} TallyTotal<K>(s: seq<K>)
    ensures MapSum(Tally(s)) == |s|
  {
    if s != [] {
      TallyTotal(s[1..]);
      MapSumBump(Tally(s[1..]), s[0]);
    }
  }

  /** A count table has no more entries than the values its column can take. */
  lemma TallySizeBound<K>(s: seq<K>, domain: set<K>)
    requires forall k :: k in s ==> k in domain
    ensures |Tally(s)| <= |domain|
  {
    var keys := Tally(s).Keys;
    assert keys <= domain;
    SubsetCardinality(keys, domain);
  }

  lemma {:induction false} SubsetCardinality<K>(a: set<K>, b: set<K>)
    requires a <= b
    ensures |a| <= |b|
    decreases |b|
  {
    if a != {} {
      var x :| x in a;
      SubsetCardinality(a - {x}, b - {x});
    }
  }
}
