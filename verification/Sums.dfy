/** Totals over finite maps, and counting facts about index sets. */
module Sums {

  ghost function Sum<K, V>(m: map<K, V>, weight: V -> nat): nat
  {
    if m.Keys == {} then 0
    else
      var k :| k in m.Keys;
      weight(m[k]) + Sum(m - {k}, weight)
  }

  lemma {:induction false} SumRemove<K, V>(m: map<K, V>, weight: V -> nat, k: K)
    requires k in m
    ensures Sum(m, weight) == weight(m[k]) + Sum(m - {k}, weight)
    decreases m.Keys
  {
    var j :| j in m.Keys && Sum(m, weight) == weight(m[j]) + Sum(m - {j}, weight);
    if j != k {
      SumRemove(m - {j}, weight, k);
      SumRemove(m - {k}, weight, j);
      assert m - {j} - {k} == m - {k} - {j};
    }
  }

  lemma SumUpdate<K, V>(m: map<K, V>, weight: V -> nat, k: K, v: V)
    ensures Sum(m[k := v], weight) == weight(v) + Sum(m - {k}, weight)
  {
    SumRemove(m[k := v], weight, k);
    assert m[k := v] - {k} == m - {k};
  }

  lemma SumInsert<K, V>(m: map<K, V>, weight: V -> nat, k: K, v: V)
    requires k !in m
    ensures Sum(m[k := v], weight) == Sum(m, weight) + weight(v)
  {
    SumUpdate(m, weight, k, v);
    assert m - {k} == m;
  }

  /** The entries of `m` whose key is in `keep`. */
  function Restrict<K, V>(m: map<K, V>, keep: set<K>): map<K, V>
  {
    map k | k in m && k in keep :: m[k]
  }

  /** Dropping the keys in `gone` and keeping the rest splits the total. */
  lemma {:induction false} SumSplit<K, V>(m: map<K, V>, weight: V -> nat, gone: set<K>)
    ensures Sum(m, weight) == Sum(m - gone, weight) + Sum(Restrict(m, gone), weight)
    decreases m.Keys * gone
  {
    var g := Restrict(m, gone);
    if m.Keys * gone == {} {
      assert forall k :: k in m && k in gone ==> k in m.Keys * gone;
      assert m - gone == m;
      assert g.Keys == {};
    } else {
      var k :| k in m.Keys * gone;
      SumRemove(m, weight, k);
      SumRemove(g, weight, k);
      SumSplit(m - {k}, weight, gone);
      assert m - gone == m - {k} - gone;
      assert g - {k} == Restrict(m - {k}, gone);
    }
  }

  lemma TimesSucc(n: nat, cap: nat)
    ensures (n + 1) * cap == n * cap + cap
  {
  }

  /** No entry heavier than `cap` means no total heavier than `cap` times the count. */
  lemma {:induction false} SumBound<K, V>(m: map<K, V>, weight: V -> nat, cap: nat, n: nat)
    requires |m| == n
    requires forall k :: k in m ==> weight(m[k]) <= cap
    ensures Sum(m, weight) <= n * cap
    decreases n
  {
    if n > 0 {
      assert |m.Keys| == n;
      var k :| k in m.Keys;
      var rest := m - {k};
      SumRemove(m, weight, k);
      assert rest.Keys == m.Keys - {k};
      assert |rest| == n - 1;
      SumBound(rest, weight, cap, n - 1);
      TimesSucc(n - 1, cap);
    }
  }

  /** `{0, .., n-1}`. */
  ghost function Below(n: nat): (s: set<nat>)
    ensures forall i: nat :: i in s <==> i < n
  {
    if n == 0 then {} else Below(n - 1) + {n - 1}
  }

  lemma {:induction false} BelowCard(n: nat)
    ensures |Below(n)| == n
  {
    if n > 0 {
      BelowCard(n - 1);
    }
  }

  lemma {:induction false} SubsetCard<T>(a: set<T>, b: set<T>)
    requires a <= b
    ensures |a| <= |b|
    ensures |a| == |b| ==> a == b
  {
    if a != {} {
      var x :| x in a;
      SubsetCard(a - {x}, b - {x});
    }
  }

  /** A set of indices below `n` is everything below `n` exactly when it has `n` members. */
  lemma FullIndexSet(s: set<nat>, n: nat)
    requires s <= Below(n)
    ensures |s| <= n
    ensures |s| == n <==> s == Below(n)
  {
    BelowCard(n);
    SubsetCard(s, Below(n));
  }
}
