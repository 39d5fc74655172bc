/** Small shared vocabulary: optional values, results and byte strings. */
module Wrappers {

  datatype Option<+T> = None | Some(value: T)

  datatype Result<+T, +E> = Ok(value: T) | Err(error: E)

  type Byte = x: int | 0 <= x < 256

  type Bytes = seq<Byte>

  /** The elements of a sequence. */
  ghost function Elems<T>(s: seq<T>): set<T> {
    set x | x in s
  }

  lemma ElemsCons<T>(s: seq<T>, i: nat)
    requires i < |s|
    ensures Elems(s[i..]) == {s[i]} + Elems(s[i + 1..])
  {
    assert s[i..] == [s[i]] + s[i + 1..];
  }

  lemma ElemsSnoc<T>(s: seq<T>, i: nat)
    requires i < |s|
    ensures Elems(s[..i + 1]) == Elems(s[..i]) + {s[i]}
  {
    assert s[..i + 1] == s[..i] + [s[i]];
  }

  lemma ElemsJoin<T>(s: seq<T>, t: seq<T>)
    ensures Elems(s + t) == Elems(s) + Elems(t)
  {
  }
}

/** Sums over finite maps, used for gauges that count what a map holds. */
module MapSum {

  /** The sum of `f(k, m[k])` over the entries of `m`, taken in some order. */
  ghost function Sum<K(!new), V>(m: map<K, V>, f: (K, V) -> int): int
    decreases |m|
  {
    if m == map[] then 0
    else
      var k :| k in m;
      f(k, m[k]) + Sum(m - {k}, f)
  }

  /** The order of summation does not matter: any entry may be split off. */
  lemma {:induction false} SumSplit<K(!new), V>(m: map<K, V>, f: (K, V) -> int, k: K)
    requires k in m
    ensures Sum(m, f) == f(k, m[k]) + Sum(m - {k}, f)
    decreases |m|
  {
    var j :| j in m && Sum(m, f) == f(j, m[j]) + Sum(m - {j}, f);
    if j != k {
      SumSplit(m - {j}, f, k);
      SumSplit(m - {k}, f, j);
      assert m - {j} - {k} == m - {k} - {j};
    }
  }

  lemma SumUpdate<K(!new), V>(m: map<K, V>, f: (K, V) -> int, k: K, v: V)
    ensures Sum(m[k := v], f) == Sum(m - {k}, f) + f(k, v)
    ensures k in m ==> Sum(m[k := v], f) == Sum(m, f) - f(k, m[k]) + f(k, v)
    ensures k !in m ==> Sum(m[k := v], f) == Sum(m, f) + f(k, v)
  {
    SumSplit(m[k := v], f, k);
    assert m[k := v] - {k} == m - {k};
    if k in m {
      SumSplit(m, f, k);
    } else {
      assert m - {k} == m;
    }
  }

  /** Pointwise equal summands give equal sums. */
  lemma {:induction false} SumCongruent<K(!new), V, W>(
      m: map<K, V>, f: (K, V) -> int, n: map<K, W>, g: (K, W) -> int)
    requires m.Keys == n.Keys
    requires forall k :: k in m ==> f(k, m[k]) == g(k, n[k])
    ensures Sum(m, f) == Sum(n, g)
    decreases |m|
  {
    if m == map[] {
      assert n == map[];
    } else {
      var k :| k in m;
      SumSplit(m, f, k);
      SumSplit(n, g, k);
      SumCongruent(m - {k}, f, n - {k}, g);
    }
  }

  lemma {:induction false} SumAdd<K(!new), V>(
      m: map<K, V>, f: (K, V) -> int, g: (K, V) -> int, h: (K, V) -> int)
    requires forall k :: k in m ==> h(k, m[k]) == f(k, m[k]) + g(k, m[k])
    ensures Sum(m, h) == Sum(m, f) + Sum(m, g)
    decreases |m|
  {
    if m != map[] {
      var k :| k in m;
      SumSplit(m, f, k);
      SumSplit(m, g, k);
      SumSplit(m, h, k);
      SumAdd(m - {k}, f, g, h);
    }
  }

  /** Summing one per entry counts the entries. */
  lemma {:induction false} SumOnes<K(!new), V>(m: map<K, V>, f: (K, V) -> int)
    requires forall k :: k in m ==> f(k, m[k]) == 1
    ensures Sum(m, f) == |m|
    decreases |m|
  {
    if m != map[] {
      var k :| k in m;
      SumSplit(m, f, k);
      SumOnes(m - {k}, f);
      assert (m - {k}).Keys == m.Keys - {k};
    }
  }

  lemma {:induction false} SumNonNegative<K(!new), V>(m: map<K, V>, f: (K, V) -> int)
    requires forall k :: k in m ==> f(k, m[k]) >= 0
    ensures Sum(m, f) >= 0
    decreases |m|
  {
    if m != map[] {
      var k :| k in m;
      SumSplit(m, f, k);
      SumNonNegative(m - {k}, f);
    }
  }
}
