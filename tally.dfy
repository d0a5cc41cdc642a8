/**
 * Counting and percentages as pandas computes them: value_counts() over a column,
 * counts divided by a denominator times 100 (before rounding), and the sum of a
 * dictionary's values, which the lemmas here use to state that counts add up to the
 * number of rows and percentages to 100.
 */
module Tally {

  // ---------------------------------------------------------------- sums over maps

  ghost function Pick<K>(m: map<K, real>): (k: K)
    requires |m| > 0
    ensures k in m
  {
    assert m.Keys != {};
    var k :| k in m; k
  }

  /** The sum of a dictionary's values, in no particular key order. */
  ghost function Sum<K>(m: map<K, real>): real
    decreases |m|
  {
    if |m| == 0 then 0.0
    else
      var k := Pick(m);
      assert (m - {k}).Keys == m.Keys - {k};
      m[k] + Sum(m - {k})
  }

  /** Sum does not depend on which key is taken first. */
  lemma {:induction false} SumRemove<K>(m: map<K, real>, k: K)
    requires k in m
    ensures Sum(m) == m[k] + Sum(m - {k})
    decreases |m|
  {
    var j := Pick(m);
    if j != k {
      assert (m - {j}).Keys == m.Keys - {j};
      assert (m - {k}).Keys == m.Keys - {k};
      SumRemove(m - {j}, k);
      SumRemove(m - {k}, j);
      assert (m - {j}) - {k} == (m - {k}) - {j};
    }
  }

  /** Replacing one value changes the sum by the difference. */
  lemma SumUpdate<K>(m: map<K, real>, k: K, v: real)
    requires k in m
    ensures Sum(m[k := v]) == Sum(m) - m[k] + v
  {
    var updated := m[k := v];
    SumRemove(updated, k);
    assert updated - {k} == m - {k};
    SumRemove(m, k);
  }

  lemma {:induction false} SumOfZeros<K>(m: map<K, real>)
    requires forall k :: k in m ==> m[k] == 0.0
    ensures Sum(m) == 0.0
    decreases |m|
  {
    if |m| > 0 {
      var k := Pick(m);
      assert (m - {k}).Keys == m.Keys - {k};
      SumOfZeros(m - {k});
    }
  }

  lemma {:induction false} SumNonNegative<K>(m: map<K, real>)
    requires forall k :: k in m ==> m[k] >= 0.0
    ensures Sum(m) >= 0.0
    decreases |m|
  {
    if |m| > 0 {
      var k := Pick(m);
      assert (m - {k}).Keys == m.Keys - {k};
      SumNonNegative(m - {k});
    }
  }

  // ---------------------------------------------------------------- counting

  function AsReal<K>(counts: map<K, nat>): (r: map<K, real>)
    ensures r.Keys == counts.Keys
  {
    map k | k in counts :: counts[k] as real
  }

  /** For each key, how many entries of s equal it (zero for keys that do not occur). */
  function CountsIn<C>(s: seq<C>, keys: set<C>): (d: map<C, nat>)
    ensures d.Keys == keys
  {
    map c | c in keys :: multiset(s)[c]
  }

  /** One more entry x adds one to x's count and leaves the other counts alone. */
  lemma CountsSnoc<C>(p: seq<C>, x: C, keys: set<C>)
    requires x in keys
    ensures AsReal(CountsIn(p + [x], keys)) == AsReal(CountsIn(p, keys))[x := multiset(p)[x] as real + 1.0]
  {
    assert multiset(p + [x]) == multiset(p) + multiset{x};
    var before := AsReal(CountsIn(p, keys));
    var after := AsReal(CountsIn(p + [x], keys));
    var v := multiset(p)[x] as real + 1.0;
    forall c | c in after ensures after[c] == before[x := v][c] {
    }
  }

  /** When every entry of s is a key, the counts add up to |s|: zero-filled keys add nothing. */
  lemma {:induction false} CountsTotal<C>(s: seq<C>, keys: set<C>)
    requires forall i :: 0 <= i < |s| ==> s[i] in keys
    ensures Sum(AsReal(CountsIn(s, keys))) == |s| as real
    decreases |s|
  {
    if s == [] {
      SumOfZeros(AsReal(CountsIn(s, keys)));
    } else {
      var p, x := s[..|s| - 1], s[|s| - 1];
      assert s == p + [x];
      CountsTotal(p, keys);
      CountsSnoc(p, x, keys);
      SumUpdate(AsReal(CountsIn(p, keys)), x, multiset(p)[x] as real + 1.0);
    }
  }

  function Elements<C(!new)>(s: seq<C>): (e: set<C>)
    ensures forall c :: c in e <==> c in s
  {
    set c | c in s
  }

  /**
   * Series.value_counts(): one entry per value that occurs, holding how often it occurs;
   * a value that does not occur has no entry (rather than a zero).
   */
  function Distribution<C(!new)>(s: seq<C>): (d: map<C, nat>)
    ensures forall c :: c in d <==> c in s
    ensures forall c :: c in d ==> d[c] == multiset(s)[c] && d[c] > 0
  {
    CountsIn(s, Elements(s))
  }

  /** The counts of a value_counts() add up to the length of the column. */
  lemma DistributionTotal<C(!new)>(s: seq<C>)
    ensures Sum(AsReal(Distribution(s))) == |s| as real
  {
    CountsTotal(s, Elements(s));
  }

  // ---------------------------------------------------------------- percentages

  /** x / n * 100, unrounded. */
  function Share(x: real, n: real): real
    requires n > 0.0
  {
    x / n * 100.0
  }

  lemma ShareAdd(x: real, y: real, n: real)
    requires n > 0.0
    ensures Share(x + y, n) == Share(x, n) + Share(y, n)
  {
  }

  lemma ShareOfWhole(n: real)
    requires n > 0.0
    ensures Share(n, n) == 100.0
  {
  }

  function Shares<K>(m: map<K, real>, n: real): (r: map<K, real>)
    requires n > 0.0
    ensures r.Keys == m.Keys
  {
    map k | k in m :: Share(m[k], n)
  }

  /** Shares of the parts add up to the share of the whole. */
  lemma {:induction false} SumShares<K>(m: map<K, real>, n: real)
    requires n > 0.0
    ensures Sum(Shares(m, n)) == Share(Sum(m), n)
    decreases |m|
  {
    if |m| == 0 {
      assert Shares(m, n) == map[];
    } else {
      var k := Pick(m);
      var rest := m - {k};
      var sm := Shares(m, n);
      SumRemove(m, k);
      SumRemove(sm, k);
      assert sm - {k} == Shares(rest, n) by {
        forall j | j in Shares(rest, n) ensures (sm - {k})[j] == Shares(rest, n)[j] {
          assert j in rest;
        }
      }
      SumShares(rest, n);
      ShareAdd(m[k], Sum(rest), n);
    }
  }

  /** count / n * 100, unrounded; an empty denominator gives 0 (pandas gives NaN). */
  function Percent(count: nat, n: nat): real {
    if n == 0 then 0.0 else Share(count as real, n as real)
  }

  /** A percentage times its denominator gives back the count times 100, and a part is at most 100 percent. */
  lemma PercentMeaning(count: nat, n: nat)
    requires n > 0
    ensures Percent(count, n) * (n as real) == (count as real) * 100.0
    ensures count <= n ==> 0.0 <= Percent(count, n) <= 100.0
    ensures count > 0 ==> Percent(count, n) > 0.0
  {
  }

  /** Every count of the table divided by the same denominator n. */
  function Percentages<C>(counts: map<C, nat>, n: nat): (pct: map<C, real>)
    ensures pct.Keys == counts.Keys
  {
    map c | c in counts :: Percent(counts[c], n)
  }

  /** The percentages add up to the counts' total as a percentage of n. */
  lemma PercentagesTotal<C>(counts: map<C, nat>, n: nat)
    requires n > 0
    ensures Sum(Percentages(counts, n)) == Share(Sum(AsReal(counts)), n as real)
  {
    assert Percentages(counts, n) == Shares(AsReal(counts), n as real);
    SumShares(AsReal(counts), n as real);
  }

  /** When the counts add up to the denominator, the percentages add up to exactly 100. */
  lemma PercentagesOfWholeTotal<C>(counts: map<C, nat>, n: nat)
    requires n > 0
    requires Sum(AsReal(counts)) == n as real
    ensures Sum(Percentages(counts, n)) == 100.0
  {
    PercentagesTotal(counts, n);
    ShareOfWhole(n as real);
  }
}
