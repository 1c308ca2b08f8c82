/** Small shared vocabulary: optional values, outcomes, Go's fixed-width integers, and sums over finite maps (the
    meaning of SQL's SUM). */
module Prelude {
  datatype Option<+T> = None | Some(value: T)

  datatype Outcome<+T, +E> = Ok(value: T) | Err(error: E)

  newtype byte = x: int | 0 <= x < 256

  const MAX_INT64: int := 0x7FFF_FFFF_FFFF_FFFF

  newtype int64 = x: int | -0x8000_0000_0000_0000 <= x <= 0x7FFF_FFFF_FFFF_FFFF

  type Bytes = seq<byte>

  ghost predicate Distinct<T>(s: seq<T>) {
    forall i, j :: 0 <= i < j < |s| ==> s[i] != s[j]
  }

  ghost function Elements<T>(s: seq<T>): set<T> {
    set x | x in s
  }

  /** The sum of all values of a finite map. */
  ghost function Sum<K>(m: map<K, int>): int {
    if m == map[] then 0
    else
      var k :| k in m;
      m[k] + Sum(m - {k})
  }

  /** Any key may be taken out first. */
  lemma {:induction false} SumTakeOut<K>(m: map<K, int>, k: K)
    requires k in m
    ensures Sum(m) == m[k] + Sum(m - {k})
    decreases |m|
  {
    var j :| j in m && Sum(m) == m[j] + Sum(m - {j});
    if j != k {
      SumTakeOut(m - {j}, k);
      SumTakeOut(m - {k}, j);
      assert m - {j} - {k} == m - {k} - {j};
    }
  }

  lemma SumInsert<K>(m: map<K, int>, k: K, v: int)
    requires k !in m
    ensures Sum(m[k := v]) == Sum(m) + v
  {
    SumTakeOut(m[k := v], k);
    assert m[k := v] - {k} == m;
  }

  /** Dropping entries of a map of non-negative values never raises the sum. */
  lemma {:induction false} SumSubmap<K>(small: map<K, int>, large: map<K, int>)
    requires forall k :: k in large ==> large[k] >= 0
    requires forall k :: k in small ==> k in large && small[k] == large[k]
    ensures 0 <= Sum(small) <= Sum(large)
    decreases |large|
  {
    if large != map[] {
      var k :| k in large;
      SumTakeOut(large, k);
      if k in small {
        SumTakeOut(small, k);
        SumSubmap(small - {k}, large - {k});
      } else {
        SumSubmap(small, large - {k});
      }
    } else {
      assert small == map[];
    }
  }

  lemma TimesMonotone(a: int, b: int, d: nat)
    ensures a <= b ==> a * d <= b * d
  {
  }

  /** Division is determined by quotient and remainder. */
  lemma Quotient(n: nat, d: nat, q: nat, r: nat)
    requires 0 < d && n == q * d + r && r < d
    ensures n / d == q
  {
    var p, s := n / d, n % d;
    assert n == p * d + s;
    TimesMonotone(p + 1, q, d);
    TimesMonotone(q + 1, p, d);
    assert (p + 1) * d == p * d + d && (q + 1) * d == q * d + d;
  }

  lemma CeilingLaw(all: nat, n: nat, k: nat)
    requires 0 < n
    ensures all <= k * n <==> (all + n - 1) / n <= k
  {
    var q, r := (all + n - 1) / n, (all + n - 1) % n;
    assert all + n - 1 == q * n + r;
    TimesMonotone(q, k, n);
    TimesMonotone(k + 1, q, n);
    assert (k + 1) * n == k * n + n;
  }
}
