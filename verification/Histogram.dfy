/** Counting over finite maps: Go's `map[K]int` histograms, and how many of a set of goroutines
    stand at a given program point. */
module Histogram {

  /** An element of a nonempty set; naming the choice lets `SumOver` and its lemmas share it. */
  ghost function Pick<K>(ks: set<K>): (k: K)
    requires ks != {}
    ensures k in ks
  {
    var k :| k in ks; k
  }

  ghost function SumOver<K>(m: map<K, nat>, ks: set<K>): nat
    requires ks <= m.Keys
  {
    if ks == {} then 0 else var k := Pick(ks); m[k] + SumOver(m, ks - {k})
  }

  /** `m[k]++` on a Go map, where a missing key reads as zero. */
  function Bump<K>(m: map<K, nat>, k: K): map<K, nat> {
    m[k := (if k in m then m[k] else 0) + 1]
  }

  /** The sum of the counts of the keys satisfying `p`. */
  ghost function Total<K>(m: map<K, nat>, p: K -> bool): nat {
    SumOver(m, KeysWhere(m, p))
  }

  ghost function KeysWhere<K>(m: map<K, nat>, p: K -> bool): (ks: set<K>)
    ensures ks <= m.Keys
  {
    set k | k in m && p(k)
  }

  ghost predicate Any<K>(k: K) { true }

  lemma {:induction false} SumSplit<K>(m: map<K, nat>, ks: set<K>, k: K)
    requires k in ks && ks <= m.Keys
    ensures SumOver(m, ks) == m[k] + SumOver(m, ks - {k})
    decreases |ks|
  {
    var j := Pick(ks);
    if j != k {
      SumSplit(m, ks - {j}, k);
      SumSplit(m, ks - {k}, j);
      assert ks - {j} - {k} == ks - {k} - {j};
    }
  }

  lemma {:induction false} SumAgree<K>(m: map<K, nat>, m': map<K, nat>, ks: set<K>)
    requires ks <= m.Keys && ks <= m'.Keys
    requires forall k :: k in ks ==> m[k] == m'[k]
    ensures SumOver(m, ks) == SumOver(m', ks)
    decreases |ks|
  {
    if ks != {} {
      SumAgree(m, m', ks - {Pick(ks)});
    }
  }

  lemma {:induction false} SumDisjoint<K>(m: map<K, nat>, a: set<K>, b: set<K>)
    requires a !! b && a <= m.Keys && b <= m.Keys
    ensures SumOver(m, a + b) == SumOver(m, a) + SumOver(m, b)
    decreases |a|
  {
    if a == {} {
      assert a + b == b;
    } else {
      var k := Pick(a);
      SumSplit(m, a + b, k);
      assert a + b - {k} == (a - {k}) + b;
      SumDisjoint(m, a - {k}, b);
    }
  }

  /** Incrementing one key raises exactly the totals that include it. */
  lemma TotalBump<K>(m: map<K, nat>, k: K, p: K -> bool)
    ensures Total(Bump(m, k), p) == Total(m, p) + if p(k) then 1 else 0
  {
    var m' := Bump(m, k);
    var ks, ks' := KeysWhere(m, p), KeysWhere(m', p);
    if p(k) {
      assert ks' == ks + {k};
      SumSplit(m', ks', k);
      assert ks' - {k} == ks - {k};
      SumAgree(m, m', ks - {k});
      if k in m {
        SumSplit(m, ks, k);
      } else {
        assert ks - {k} == ks;
      }
    } else {
      assert ks' == ks;
      SumAgree(m, m', ks);
    }
  }

  /** The threads that stand at a program point satisfying `p`, and how many they are. */
  ghost function At<W, P>(pcs: map<W, P>, p: P -> bool): set<W> {
    set w | w in pcs && p(pcs[w])
  }

  ghost function Count<W, P>(pcs: map<W, P>, p: P -> bool): nat {
    |At(pcs, p)|
  }

  /** Moving one thread (or adding it) changes a count by that thread alone. */
  lemma CountMove<W, P>(pcs: map<W, P>, w: W, pc: P, p: P -> bool)
    ensures Count(pcs[w := pc], p)
         == Count(pcs, p) - (if w in pcs && p(pcs[w]) then 1 else 0) + if p(pc) then 1 else 0
  {
    var before, after := At(pcs, p), At(pcs[w := pc], p);
    assert after - {w} == before - {w};
    CardWithout(before, w);
    CardWithout(after, w);
  }

  lemma CardWithout<T>(s: set<T>, x: T)
    ensures |s| == |s - {x}| + if x in s then 1 else 0
  {
    if x !in s {
      assert s - {x} == s;
    }
  }

  lemma CountBound<W, P>(pcs: map<W, P>, p: P -> bool)
    ensures Count(pcs, p) <= |pcs|
  {
    SubsetCard(At(pcs, p), pcs.Keys);
    assert |pcs.Keys| == |pcs|;
  }

  lemma CountNone<W, P>(pcs: map<W, P>, p: P -> bool)
    requires forall w :: w in pcs ==> !p(pcs[w])
    ensures Count(pcs, p) == 0
  {
    assert At(pcs, p) == {};
  }

  lemma {:induction false} SubsetCard<T>(a: set<T>, b: set<T>)
    requires a <= b
    ensures |a| <= |b|
    decreases |a|
  {
    if a != {} {
      var x := Pick(a);
      SubsetCard(a - {x}, b - {x});
    }
  }
}
