/** Counting the entries of a finite map that satisfy a predicate. The state machines
    use it to compare a counter kept by the program with the goroutines it stands for. */
module Counting {

  ghost function Matching<K, V>(m: map<K, V>, p: V -> bool): set<K> {
    set k | k in m && p(m[k])
  }

  ghost function Count<K, V>(m: map<K, V>, p: V -> bool): nat {
    |Matching(m, p)|
  }

  ghost function Bit(b: bool): nat { if b then 1 else 0 }

  /** Writing one entry moves the count by what that entry gained or lost. */
  lemma CountUpdate<K, V>(m: map<K, V>, k: K, v: V, p: V -> bool)
    ensures Count(m[k := v], p) == Count(m, p) + Bit(p(v)) - Bit(k in m && p(m[k]))
  {
    var before, after := Matching(m, p), Matching(m[k := v], p);
    if p(v) {
      assert after == before + {k};
    } else {
      assert after == before - {k};
    }
  }

  lemma CountPositive<K, V>(m: map<K, V>, k: K, p: V -> bool)
    requires k in m && p(m[k])
    ensures Count(m, p) >= 1
  {
    assert Matching(m, p) >= {k};
    SubsetSize({k}, Matching(m, p));
  }

  /** Two distinct entries that both match are counted twice. */
  lemma CountTwo<K, V>(m: map<K, V>, j: K, k: K, p: V -> bool)
    requires j in m && k in m && p(m[j]) && p(m[k]) && j != k
    ensures Count(m, p) >= 2
  {
    SubsetSize({j, k}, Matching(m, p));
  }

  lemma CountZero<K, V>(m: map<K, V>, p: V -> bool)
    requires forall k :: k in m ==> !p(m[k])
    ensures Count(m, p) == 0
  {
    assert Matching(m, p) == {};
  }

  /** Entries that match one of two exclusive predicates are counted once each. */
  lemma CountSplit<K, V>(m: map<K, V>, p: V -> bool, q: V -> bool, either: V -> bool)
    requires forall k :: k in m ==> (either(m[k]) <==> p(m[k]) || q(m[k])) && !(p(m[k]) && q(m[k]))
    ensures Count(m, either) == Count(m, p) + Count(m, q)
  {
    assert Matching(m, either) == Matching(m, p) + Matching(m, q);
    assert Matching(m, p) !! Matching(m, q);
  }

  lemma {:induction false} SubsetSize<T>(a: set<T>, b: set<T>)
    requires a <= b
    ensures |a| <= |b|
  {
    assert b == a + (b - a);
  }
}
