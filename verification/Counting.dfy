/**
 Counting the entries of a finite map that satisfy a predicate, and how that count moves
 when one entry is written or removed. Every "held by" and "done so far" figure of the
 concurrent models is such a count.
 */
module Counting {

  ghost function Matching<K, V>(m: map<K, V>, p: V -> bool): set<K> {
    set k | k in m && p(m[k])
  }

  ghost function Tally<K, V>(m: map<K, V>, p: V -> bool): nat {
    |Matching(m, p)|
  }

  lemma Without<K>(s: set<K>, k: K)
    ensures |s| == |s - {k}| + if k in s then 1 else 0
  {
    assert s == if k in s then (s - {k}) + {k} else s - {k};
  }

  lemma TallyUpdate<K, V>(m: map<K, V>, k: K, v: V, p: V -> bool)
    ensures Tally(m[k := v], p)
         == Tally(m, p) - (if k in m && p(m[k]) then 1 else 0) + (if p(v) then 1 else 0)
  {
    var before, after := Matching(m, p), Matching(m[k := v], p);
    assert after - {k} == before - {k};
    Without(before, k);
    Without(after, k);
  }

  lemma TallyRemove<K, V>(m: map<K, V>, k: K, p: V -> bool)
    requires k in m
    ensures Tally(m - {k}, p) == Tally(m, p) - (if p(m[k]) then 1 else 0)
  {
    var before, after := Matching(m, p), Matching(m - {k}, p);
    assert after == before - {k};
  }

  lemma TallyPositive<K, V>(m: map<K, V>, k: K, p: V -> bool)
    requires k in m && p(m[k])
    ensures Tally(m, p) > 0
  {
    assert k in Matching(m, p);
  }

  lemma TallyZero<K, V>(m: map<K, V>, p: V -> bool)
    requires forall k :: k in m ==> !p(m[k])
    ensures Tally(m, p) == 0
  {
    assert Matching(m, p) == {};
  }

  lemma TallyAll<K, V>(m: map<K, V>, p: V -> bool)
    requires forall k :: k in m ==> p(m[k])
    ensures Tally(m, p) == |m|
  {
    assert Matching(m, p) == m.Keys;
  }

  lemma TallyMonotone<K, V>(m: map<K, V>, p: V -> bool, q: V -> bool)
    requires forall k :: k in m && p(m[k]) ==> q(m[k])
    ensures Tally(m, p) <= Tally(m, q)
  {
    SubsetSize(Matching(m, p), Matching(m, q));
  }

  lemma TallySame<K, V>(m: map<K, V>, p: V -> bool, q: V -> bool)
    requires forall k :: k in m ==> (p(m[k]) <==> q(m[k]))
    ensures Tally(m, p) == Tally(m, q)
  {
    assert Matching(m, p) == Matching(m, q);
  }

  lemma SubsetSize<T>(a: set<T>, b: set<T>)
    requires a <= b
    ensures |a| <= |b|
  {
    assert b == a + (b - a);
  }
}
