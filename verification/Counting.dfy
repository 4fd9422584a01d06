/** How often a value is held by a finite map: the arithmetic behind every reference count. */
module Counting {

  /** The keys of `m` that hold `v`. */
  ghost function Holders<K, V>(m: map<K, V>, v: V): set<K> {
    set k | k in m && m[k] == v
  }

  ghost function Count<K, V>(m: map<K, V>, v: V): nat {
    |Holders(m, v)|
  }

  /** Adding a fresh key raises exactly the count of its value. */
  lemma CountAdd<K, V>(m: map<K, V>, k: K, x: V, v: V)
    requires k !in m
    ensures Count(m[k := x], v) == Count(m, v) + if v == x then 1 else 0
  {
    var m' := m[k := x];
    if v == x {
      assert Holders(m', v) == Holders(m, v) + {k};
    } else {
      assert Holders(m', v) == Holders(m, v);
    }
  }

  /** Removing a key lowers exactly the count of the value it held. */
  lemma CountRemove<K, V>(m: map<K, V>, k: K, v: V)
    requires k in m
    ensures Count(m - {k}, v) == Count(m, v) - if v == m[k] then 1 else 0
  {
    var m' := m - {k};
    if v == m[k] {
      assert Holders(m', v) == Holders(m, v) - {k};
    } else {
      assert Holders(m', v) == Holders(m, v);
    }
  }

  /** A count of zero means the value occurs nowhere. */
  lemma CountZero<K, V>(m: map<K, V>, v: V)
    ensures Count(m, v) == 0 <==> forall k :: k in m ==> m[k] != v
  {
    if Count(m, v) == 0 {
      forall k | k in m ensures m[k] != v {
        assert k !in Holders(m, v);
      }
    } else {
      var k :| k in Holders(m, v);
    }
  }

  /** `ref` records the number of holders of every number outside `skip`. */
  ghost predicate CountsMatch<K>(ref: seq<nat>, m: map<K, nat>, skip: set<nat>) {
    forall p: nat :: p < |ref| && p !in skip ==> ref[p] == Count(m, p)
  }

  lemma MatchAdd<K>(ref: seq<nat>, m: map<K, nat>, skip: set<nat>, k: K, p: nat, r: nat)
    requires CountsMatch(ref, m, skip) && k !in m && p < |ref| && p !in skip
    ensures CountsMatch(ref[p := r], m[k := p], skip) <==> r == ref[p] + 1
  {
    forall q: nat | q < |ref| ensures Count(m[k := p], q) == Count(m, q) + if q == p then 1 else 0 {
      CountAdd(m, k, p, q);
    }
    if CountsMatch(ref[p := r], m[k := p], skip) {
      assert ref[p := r][p] == Count(m[k := p], p);
    }
  }

  lemma MatchRemove<K>(ref: seq<nat>, m: map<K, nat>, skip: set<nat>, k: K)
    requires CountsMatch(ref, m, skip) && k in m && m[k] < |ref| && m[k] !in skip
    ensures ref[m[k]] > 0 && CountsMatch(ref[m[k] := ref[m[k]] - 1], m - {k}, skip)
  {
    var p := m[k];
    CountZero(m, p);
    forall q: nat | q < |ref| ensures Count(m - {k}, q) == Count(m, q) - if q == p then 1 else 0 {
      CountRemove(m, k, q);
    }
  }
}
