/** pbuf.c, on the pbufs themselves. */
module PbufCode {
  import opened Counting
  import opened PbufModel
  import opened PbufData
  import opened PbufCut

  /** The pool's elements are on its free list, each once, or are pooled pbufs in use. */
  ghost predicate PoolOk(b: Bufs, pool: seq<nat>, elems: set<nat>) {
    && (forall i, j {:trigger pool[i], pool[j]} :: 0 <= i < j < |pool| ==> pool[i] != pool[j])
    && PoolSplit(b, pool, elems)
  }

  ghost predicate PoolSplit(b: Bufs, pool: seq<nat>, elems: set<nat>) {
    && (forall x {:trigger x in pool} :: x in pool ==> x !in b && x in elems)
    && (forall x {:trigger x in elems} :: x in elems ==> x in pool || (x in b && b[x].pooled))
    && (forall x {:trigger b[x]} :: x in b && b[x].pooled ==> x in elems)
  }

  lemma PoolGives(b: Bufs, pool: seq<nat>, elems: set<nat>, x: nat)
    requires PoolOk(b, pool, elems) && x in b
    ensures PoolOk(b - {x}, if b[x].pooled then [x] + pool else pool, elems)
  {
    var (b', pool') := (b - {x}, if b[x].pooled then [x] + pool else pool);
    assert x !in pool;
    assert forall y :: y in pool' <==> y in pool || (y == x && b[x].pooled);
    assert forall i :: 0 < i < |[x] + pool| ==> ([x] + pool)[i] == pool[i - 1] && pool[i - 1] in pool;
    assert PoolSplit(b', pool', elems) by {
      forall y | y in elems ensures y in pool' || (y in b' && b'[y].pooled) { }
      forall y | y in b' && b'[y].pooled ensures y in elems { var z := b[y]; }
    }
  }

  ghost predicate SamePooled(b: Bufs, b': Bufs) {
    b'.Keys == b.Keys && forall x {:trigger b'[x]} :: x in b ==> b'[x].pooled == b[x].pooled
  }

  /** Only which pbufs are in use, and from where, matters to the pool. */
  lemma PoolSame(b: Bufs, b': Bufs, pool: seq<nat>, elems: set<nat>)
    requires PoolOk(b, pool, elems) && SamePooled(b, b')
    ensures PoolOk(b', pool, elems)
  {
    forall x | x in elems ensures x in pool || (x in b' && b'[x].pooled) { }
    forall x | x in b' && b'[x].pooled ensures x in elems { var y := b[x]; }
  }

  lemma PoolTakes(b: Bufs, pool: seq<nat>, elems: set<nat>, b': Bufs)
    requires PoolOk(b, pool, elems) && pool != [] && b'.Keys == b.Keys + {pool[0]} && b'[pool[0]].pooled
    requires forall x :: x in b ==> b'[x].pooled == b[x].pooled
    ensures PoolOk(b', pool[1..], elems)
  {
    var rest := pool[1..];
    assert forall i :: 0 <= i < |rest| ==> rest[i] == pool[i + 1];
    assert pool[0] in pool;
    assert forall y :: y in pool <==> y == pool[0] || y in rest;
    forall x | x in elems ensures x in rest || (x in b' && b'[x].pooled) { }
    forall x | x in b' && b'[x].pooled ensures x in elems { if x in b { var y := b[x]; } }
  }

  /** `b'` is `b` with another count on `p`. */
  ghost predicate Recounted(b: Bufs, b': Bufs, p: nat) {
    && p in b && b'.Keys == b.Keys && b'[p].ref == Add16(b[p].ref, 1)
    && (forall x {:trigger b'[x]} :: x in b ==> b'[x] == b[x].(ref := b'[x].ref) && (x != p ==> b'[x].ref == b[x].ref))
  }

  lemma RefPbuf(b: Bufs, hs: Handles, b': Bufs, hs': Handles, rank: Rank, p: nat, h: nat)
    requires PbufOk(b, hs, rank) && LensOk(b) && NewHandle(hs, hs', h, p) && Recounted(b, b', p)
    ensures LensOk(b') && (PbufOk(b', hs', rank) <==> b[p].ref + 1 < LIM16)
  {
    RefOk(b, hs, b', hs', p, h);
    SameLinks(b, b', rank);
    assert HandlesOk(b', hs') by { forall k | k in hs' ensures hs'[k] in b' { if k != h { assert hs[k] in b; } } }
    forall x | x in b' ensures b'[x].len <= |b'[x].data| && b'[x].len < LIM16 { var y := b[x]; }
  }

  // ---- concatenation ----

  lemma CatPbuf(b: Bufs, hs: Handles, rank: Rank, b': Bufs, rank': Rank, h: nat, t: nat, ht: nat)
    requires PbufOk(b, hs, rank) && Separate(b, rank, h, t) && Catted(b, rank, b', rank', h, t) && ht in hs &&
      hs[ht] == t
    ensures PbufOk(b', hs - {ht}, rank') && LensOk(b')
  {
    CatSound(b, rank, b', rank', h, t);
    CatRefs(b, hs, rank, b', h, t, ht);
    assert HandlesOk(b', hs - {ht}) by { forall k | k in hs - {ht} ensures (hs - {ht})[k] in b' { assert hs[k] in b; } }
  }

  lemma CatRefs(b: Bufs, hs: Handles, rank: Rank, b': Bufs, h: nat, t: nat, ht: nat)
    requires RefsOk(b, hs) && Sound(b, rank) && h in b && t in b && IsCat(b, b', Chain(b, rank, h), t) && ht in hs &&
      hs[ht] == t
    ensures RefsOk(b', hs - {ht})
  {
    ChainEnds(b, rank, h);
    var cs := Chain(b, rank, h);
    CatLinks(b, b', cs, t);
    AttachOk(b, hs, b', Last(cs), ht);
  }

  lemma CatLinks(b: Bufs, b': Bufs, cs: seq<nat>, t: nat)
    requires IsCat(b, b', cs, t)
    ensures b'[Last(cs)].next == t && SamePooled(b, b')
    ensures forall x :: x in b ==> b'[x].ref == b[x].ref && (x != Last(cs) ==> b'[x].next == b[x].next)
  {
    forall x | x in b ensures b'[x] == CatBuf(b, cs, t, x) { }
  }

  lemma CatAll(b: Bufs, hs: Handles, rank: Rank, b': Bufs, h: nat, t: nat, ht: nat, pool: seq<nat>, elems: set<nat>)
    returns (rank': Rank)
    requires PbufOk(b, hs, rank) && Separate(b, rank, h, t) && IsCat(b, b', Chain(b, rank, h), t) && ht in hs &&
      hs[ht] == t
    requires PoolOk(b, pool, elems)
    ensures PbufOk(b', hs - {ht}, rank') && LensOk(b') && PoolOk(b', pool, elems) && Catted(b, rank, b', rank', h, t)
    ensures h in b' && Bytes(b', rank', h) == Bytes(b, rank, h) + Bytes(b, rank, t)
  {
    rank' := RaiseOthers(rank, Chain(b, rank, t), RankOf(b, rank, t) + 1);
    CatConcatenates(b, rank, b', rank', h, t);
    CatPbuf(b, hs, rank, b', rank', h, t, ht);
    CatLinks(b, b', Chain(b, rank, h), t);
    PoolSame(b, b', pool, elems);
  }

  ghost function RankOf(b: Bufs, rank: Rank, t: nat): nat
    requires RankOk(b, rank) && t in b
  {
    assert t in rank by { var x := b[t]; }
    rank[t]
  }

  lemma RaiseOthers(rank: Rank, tail: seq<nat>, k: nat) returns (rank': Rank)
    ensures Raised(rank, rank', tail, k)
  {
    rank' := map x | x in rank :: if x in tail then rank[x] else rank[x] + k;
  }

  /** `p` is element `n` of the chain `cs`. */
  ghost predicate OnChain(b: Bufs, rank: Rank, cs: seq<nat>, n: nat, p: int) {
    Sound(b, rank) && n < |cs| && p == cs[n] && p in b && Chain(b, rank, p) == cs[n..] && p !in cs[..n] &&
      AllAbove(cs[..n], rank, p)
  }

  ghost predicate AllAbove(cs: seq<nat>, rank: Rank, p: nat) {
    p in rank && forall x {:trigger x in cs} :: x in cs ==> x in rank && rank[x] > rank[p]
  }

  lemma OnChainNext(b: Bufs, rank: Rank, cs: seq<nat>, n: nat, p: nat)
    requires OnChain(b, rank, cs, n, p)
    ensures b[p].next == NULL ==> n == |cs| - 1 && p == Last(cs) && cs[..n + 1] == cs
    ensures b[p].next != NULL ==> b[p].next >= 0 && OnChain(b, rank, cs, n + 1, b[p].next)
  {
    BytesCons(b, rank, p);
    var q := b[p].next;
    assert cs[n..] == [p] + Chain(b, rank, q);
    if q >= 0 {
      assert cs[n + 1..] == Chain(b, rank, q) && Chain(b, rank, q)[0] == q by { BytesCons(b, rank, q); }
      assert cs[..n + 1] == cs[..n] + [p];
    } else {
      assert cs[..n + 1] == cs;
    }
  }

  /** One round of pbuf_cat's loop. */
  lemma AddedMore(b: Bufs, a: Bufs, a': Bufs, cs: seq<nat>, n: nat, add: nat)
    requires n < |cs| && cs[n] in b && cs[n] !in cs[..n] && Added(b, a, cs, n, add)
    requires a' == a[cs[n] := a[cs[n]].(totLen := Add16(a[cs[n]].totLen, add))]
    ensures a[cs[n]] == b[cs[n]] && Added(b, a', cs, n + 1, add)
  {
    assert cs[..n + 1] == cs[..n] + [cs[n]];
    forall x | x in b ensures a'[x] == if x in cs[..n + 1] then b[x].(totLen := Add16(b[x].totLen, add)) else b[x] {
      var y := a[x];
    }
  }

  lemma AddedCat(b: Bufs, a: Bufs, a': Bufs, cs: seq<nat>, t: nat)
    requires cs != [] && Last(cs) in b && t in b && Added(b, a, cs, |cs|, TotOf(b, t)) &&
      a' == a[Last(cs) := a[Last(cs)].(next := t)]
    ensures IsCat(b, a', cs, t)
  {
    assert cs[..|cs|] == cs;
    forall x | x in b ensures a'[x] == CatBuf(b, cs, t, x) { var y := a[x]; }
  }

  lemma CatRef(b: Bufs, rank: Rank, b': Bufs, rank': Rank, h: nat, t: nat)
    requires Catted(b, rank, b', rank', h, t)
    ensures t in b' && b'[t].ref == b[t].ref
  {
    CatLinks(b, b', Chain(b, rank, h), t);
  }

  /** A count raised without a new reference is wrong. */
  lemma Unheld(b: Bufs, b': Bufs, hs: Handles, p: nat)
    requires RefsOk(b, hs) && p in b && b' == b[p := b[p].(ref := Add16(b[p].ref, 1))]
    ensures !RefsOk(b', hs)
  {
    forall x ensures At(b', hs, x) == At(b, hs, x) { }
    SlotsPut(b, hs, b', hs, Link(p));
    SlotsAt(b, hs, Link(p));
    assert Slots(b', hs) == Slots(b, hs);
    assert b[p].ref == Count(Slots(b, hs), p);
    assert b'[p].ref != Count(Slots(b', hs), p);
  }

  lemma RecountedIs(b: Bufs, p: nat, b': Bufs)
    requires p in b && b' == b[p := b[p].(ref := Add16(b[p].ref, 1))]
    ensures Recounted(b, b', p)
  {
  }

  // ---- cutting ----

  /** `hs'` is `hs`, with a new handle `h` on `t` unless that is NULL. */
  ghost predicate MaybeHandle(hs: Handles, hs': Handles, h: nat, t: int) {
    if t < 0 then hs' == hs else NewHandle(hs, hs', h, t)
  }

  /** A link is dropped, and what it led to gets the handle `h`. */
  lemma DetachPbuf(b: Bufs, hs: Handles, rank: Rank, b': Bufs, hs': Handles, q: nat, h: nat)
    requires PbufOk(b, hs, rank) && q in b && MaybeHandle(hs, hs', h, b[q].next) && b'.Keys == b.Keys &&
      b'[q].next == NULL
    requires Relinked(b, b', q)
    ensures PbufOk(b', hs', rank)
  {
    var t := b[q].next;
    assert LinksOk(b') && RankOk(b', rank) by {
      forall x | x in b' ensures (b'[x].next == NULL || (b'[x].next >= 0 && b'[x].next in b')) && x in rank
        && (b'[x].next in rank && b'[x].next >= 0 ==> rank[b'[x].next] < rank[x]) { var y := b[x]; }
    }
    assert HandlesOk(b', hs') by { forall k | k in hs'
      ensures hs'[k] in b' { if k in hs { assert hs[k] in b; } else { var y := b[q]; } } }
    if t >= 0 { DetachOk(b, hs, b', hs', q, h); } else { SameRefs(b, hs, b', q); }
  }

  /** `b'` has the counts of `b`, and its links but for that of `q`. */
  ghost predicate Relinked(b: Bufs, b': Bufs, q: nat) {
    b'.Keys == b.Keys && forall x {:trigger b'[x]} ::
      x in b ==> b'[x].ref == b[x].ref && (x != q ==> b'[x].next == b[x].next)
  }

  lemma SameRefs(b: Bufs, hs: Handles, b': Bufs, q: nat)
    requires RefsOk(b, hs) && LinksOk(b) && q in b && b[q].next < 0 && Relinked(b, b', q) && b'[q].next == NULL
    ensures RefsOk(b', hs)
  {
    assert b[q].next == NULL;
    forall y ensures At(b', hs, y) == At(b, hs, y) { if y.Link? && y.q in b { var z := b'[y.q]; } }
    SlotsPut(b, hs, b', hs, Link(q));
    SlotsAt(b, hs, Link(q));
    assert Slots(b', hs) == Slots(b, hs);
    assert Counted(b', Slots(b', hs)) by {
      forall p | p in b' ensures b'[p].ref == Count(Slots(b, hs), p) && 0 < b'[p].ref < LIM16 { var z := b[p]; }
    }
  }

  /** pbuf_dechain before the tail is freed. */
  ghost predicate Dechained(b: Bufs, b': Bufs, p: nat, q: nat) {
    && p in b && q in b && p != q && b[p].next == q && b'.Keys == b.Keys
    && b'[p] == b[p].(next := NULL, totLen := b[p].len) && b'[q] == b[q].(totLen := Sub16(b[p].totLen, b[p].len))
    && forall x {:trigger b'[x]} :: x in b && x != p && x != q ==> b'[x] == b[x]
  }

  lemma DechainedOk(b: Bufs, rank: Rank, b': Bufs, p: nat, q: nat)
    requires Sound(b, rank) && Dechained(b, b', p, q)
    ensures Relinked(b, b', p) && SamePooled(b, b') && LensOk(b')
    ensures TotOk(b) && Unshared(b, [p]) ==> TotOk(b')
  {
    forall x | x in b' ensures b'[x].len <= |b'[x].data| && b'[x].len < LIM16 { var y := b[x]; }
    if TotOk(b) && Unshared(b, [p]) {
      forall x | x in b' ensures b'[x].totLen == b'[x].len + TotOf(b', b'[x].next) < LIM16 {
        var n := b[x].next;
        assert b[x].totLen == b[x].len + TotOf(b, n) < LIM16 && b[p].totLen == b[p].len + TotOf(b, q);
        assert n != p by { assert b[x].next >= 0 && b[x].next in [p] ==> x in [p]; assert x == p ==> n == q; }
        if n >= 0 { assert n in b; var y := b'[n]; }
      }
    }
  }

  /** The chain of `q` is untouched by cutting `p` off in front of it. */
  lemma DechainedTail(b: Bufs, rank: Rank, b': Bufs, p: nat, q: nat)
    requires Sound(b, rank) && Sound(b', rank) && Dechained(b, b', p, q)
    ensures Bytes(b', rank, q) == Bytes(b, rank, q)
  {
    BytesCons(b, rank, p);
    ChainFalls(b, rank, q);
    assert SameAlong(b, b', Chain(b, rank, q)) by {
      forall x | x in Chain(b, rank, q) ensures x in b && x in b' && b'[x].next == b[x].next &&
        b'[x].len == b[x].len && b'[x].data == b[x].data {
        assert x != p;
        var y := b'[x];
      }
    }
    SameChain(b, rank, b', rank, q);
  }

  /** Nothing is freed exactly if the first pbuf stays. */
  lemma FreedZero(b: Bufs, q: nat)
    requires q in b && b[q].ref > 0
    ensures FreedBy(b, q) == 0 <==> b[q].ref > 1
    ensures FreedBy(b, q) == 0 ==> q in FreeFrom(b, q)
    ensures FreedBy(b, q) > 0 ==> q !in FreeFrom(b, q)
  {
    FreeFromStep(b, q);
    if b[q].ref == 1 { GoneStays(b - {q}, b[q].next, q); }
  }

  lemma {:induction false} GoneStays(b: Bufs, p: int, q: nat)
    requires q !in b
    ensures q !in FreeFrom(b, p)
    decreases |b|
  {
    if p >= 0 && p in b && b[p].ref == 1 { GoneStays(b - {p}, b[p].next, q); }
  }

  /** Freeing the rest does not come back to `p`. */
  lemma DechainKeeps(b: Bufs, rank: Rank, p: nat, q: nat)
    requires Sound(b, rank) && p in b && q in b && b[p].next == NULL && p in rank && q in rank && rank[q] < rank[p]
    ensures p in FreeFrom(b, q) && FreeFrom(b, q)[p] == b[p]
  {
    ChainFalls(b, rank, q);
    if Touches(b, q, p) { TouchesChain(b, rank, b, q, p); }
    FreeFromApart(b, q, p, b[p]);
  }

  lemma BytesEnd(b: Bufs, rank: Rank, p: nat)
    requires Sound(b, rank) && p in b && b[p].next == NULL
    ensures Bytes(b, rank, p) == b[p].data[..b[p].len]
  {
    BytesCons(b, rank, p);
  }

  lemma DechainRest(b0: Bufs, b1: Bufs, b: Bufs, rank: Rank, p: nat, q: nat)
    requires Dechained(b0, b1, p, q) && Sound(b1, rank) && Sound(b, rank) && Kept(b1, b) && p in b && b[p] == b1[p]
    ensures b[p].next == NULL && Bytes(b, rank, p) == b0[p].data[..b0[p].len]
    ensures q in b ==> Bytes(b, rank, q) == Bytes(b1, rank, q)
    ensures TotOk(b1) ==> TotOk(b)
  {
    BytesEnd(b, rank, p);
    if q in b { KeptChain(b1, b, rank, q); }
    if TotOk(b1) { KeptTotals(b1, b); }
  }

  lemma DechainedIs(b: Bufs, p: nat, q: nat, b': Bufs)
    requires p in b && q in b && p != q && b[p].next == q
    requires var b1 := b[q := b[q].(totLen := Sub16(b[p].totLen, b[p].len))];
      b' == b1[p := b1[p].(next := NULL, totLen := b1[p].len)]
    ensures Dechained(b, b', p, q)
  {
  }

  lemma CutOffAll(b: Bufs, hs: Handles, rank: Rank, b': Bufs, hs': Handles, p: nat, q: nat, h: nat, pool: seq<nat>,
      elems: set<nat>)
    requires PbufOk(b, hs, rank) && LensOk(b) && PoolOk(b, pool, elems) && Dechained(b, b', p, q) && h !in hs &&
      hs' == hs[h := q]
    ensures PbufOk(b', hs', rank) && LensOk(b') && PoolOk(b', pool, elems) && Bytes(b', rank, q) == Bytes(b, rank, q)
    ensures TotOk(b) && Unshared(b, [p]) ==> TotOk(b')
  {
    DechainedOk(b, rank, b', p, q);
    DetachPbuf(b, hs, rank, b', hs', p, h);
    DechainedTail(b, rank, b', p, q);
    PoolSame(b, b', pool, elems);
  }

  lemma DechainAll(b0: Bufs, b1: Bufs, b: Bufs, rank: Rank, p: nat, q: nat)
    requires Dechained(b0, b1, p, q) && Sound(b0, rank) && Sound(b1, rank) && Sound(b, rank) && Kept(b1, b) &&
      b == FreeFrom(b1, q) && b1[q].ref > 0
    ensures p in b && b[p].next == NULL && Bytes(b, rank, p) == b0[p].data[..b0[p].len]
    ensures q in b ==> Bytes(b, rank, q) == Bytes(b1, rank, q)
    ensures (FreedBy(b1, q) == 0 <==> q in b) && (TotOk(b1) ==> TotOk(b)) &&
      FreedBy(b1, q) == Lone(b0, Chain(b0, rank, q))
  {
    DechainLone(b0, b1, rank, p, q);
    BytesCons(b0, rank, p);
    FreedZero(b1, q);
    DechainKeeps(b1, rank, p, q);
    DechainRest(b0, b1, b, rank, p, q);
  }

  /** How many pbufs at the front of a chain have no other reference. */
  ghost function Lone(b: Bufs, cs: seq<nat>): nat {
    if cs == [] || cs[0] !in b || b[cs[0]].ref != 1 then 0 else 1 + Lone(b, cs[1..])
  }

  /** The walk of pbuf_free takes the pbufs at the front of the chain that have no other reference. */
  lemma {:induction false} FreedIsLone(b: Bufs, rank: Rank, b': Bufs, p: int)
    requires Sound(b, rank) && IsPtr(b, p)
    requires forall x {:trigger x in Chain(b, rank, p)} :: x in Chain(b, rank, p) ==>
      x in b && x in b' && b'[x].ref == b[x].ref && b'[x].next == b[x].next
    ensures FreedBy(b', p) == Lone(b, Chain(b, rank, p))
    decreases Height(rank, p)
  {
    if p >= 0 {
      var n := b[p].next;
      BytesCons(b, rank, p);
      ChainFalls(b, rank, n);
      assert p in Chain(b, rank, p) && Chain(b, rank, p)[1..] == Chain(b, rank, n);
      forall x | x in Chain(b, rank, n) ensures x in Chain(b, rank, p) && x != p { }
      if b[p].ref == 1 { FreedIsLone(b, rank, b' - {p}, n); }
    }
  }

  lemma DechainLone(b0: Bufs, b1: Bufs, rank: Rank, p: nat, q: nat)
    requires Dechained(b0, b1, p, q) && Sound(b0, rank)
    ensures FreedBy(b1, q) == Lone(b0, Chain(b0, rank, q))
  {
    BytesCons(b0, rank, p);
    ChainFalls(b0, rank, q);
    forall x | x in Chain(b0, rank, q) ensures x in b0 && x in b1 && b1[x].ref == b0[x].ref &&
      b1[x].next == b0[x].next {
      var y := b1[x];
    }
    FreedIsLone(b0, rank, b1, q);
  }

  lemma HandleBack(hs: Handles, h: nat)
    requires h in hs
    ensures (hs - {h})[h := hs[h]] == hs
  {
  }

  // ---- pbuf_realloc ----

  /** Pbufs off the chain `cs` are left alone. */
  ghost predicate Spared(b: Bufs, b': Bufs, cs: seq<nat>) {
    forall x {:trigger x in b} :: x in b && x !in cs ==> x in b' && b'[x] == b[x]
  }

  lemma FreeSpares(b: Bufs, rank: Rank, p: int)
    requires Sound(b, rank) && IsPtr(b, p)
    ensures Spared(b, FreeFrom(b, p), Chain(b, rank, p))
  {
    forall x | x in b && x !in Chain(b, rank, p) ensures x in FreeFrom(b, p) && FreeFrom(b, p)[x] == b[x] {
      if Touches(b, p, x) { TouchesChain(b, rank, b, p, x); }
      FreeFromApart(b, p, x, b[x]);
    }
  }

  lemma BehindSpares(b: Bufs, rank: Rank, q: nat, n: int, b': Bufs)
    requires Sound(b, rank) && IsPtr(b, n) && q in FreeFrom(b, n) &&
      b' == FreeFrom(b, n)[q := FreeFrom(b, n)[q].(next := NULL)]
    ensures Spared(b, b', [q] + Chain(b, rank, n))
  {
    FreeSpares(b, rank, n);
  }

  /** Cutting a chain at `q` and freeing what is behind it leaves everything else alone. */
  lemma CutSpares(b0: Bufs, rank: Rank, a: Bufs, b2: Bufs, b: Bufs, p: nat, q: nat, k: nat, rem: nat, newLen: nat)
    requires CutPoint(b0, rank, a, p, q, k, rem, newLen) && q in a && b2 == a[q := a[q].(len := rem, totLen := rem)]
    requires Sound(b2, rank) && IsPtr(b2, b2[q].next) && Spared(b2, b, [q] + Chain(b2, rank, b2[q].next))
    ensures Spared(b0, b, Chain(b0, rank, p))
  {
    forall x | x in b0 ensures b2[x].next == b0[x].next { var y := a[x]; }
    var n := b2[q].next;
    var cs := Chain(b0, rank, p);
    assert q in cs;
    ChainNext(b0, rank, p, q);
    SameNexts(b0, b2, rank, n);
    SubChain(b0, rank, p, n);
    forall x | x in b0 && x !in cs ensures x in b && b[x] == b0[x] {
      var y := a[x];
      assert x !in cs[..k] && x in b2 && x !in [q] + Chain(b2, rank, n);
    }
  }

  lemma DroppedMore(b: Bufs, a: Bufs, a': Bufs, cs: seq<nat>, k: nat, drop: nat)
    requires k < |cs| && cs[k] in b && cs[k] !in cs[..k] && Dropped(b, a, cs, k, drop) &&
      0 < drop <= b[cs[k]].totLen < LIM16
    requires a' == a[cs[k] := a[cs[k]].(totLen := Add16(a[cs[k]].totLen, 65536 - drop))]
    ensures a[cs[k]] == b[cs[k]] && Dropped(b, a', cs, k + 1, drop)
  {
    assert cs[..k + 1] == cs[..k] + [cs[k]];
    assert Add16(b[cs[k]].totLen, 65536 - drop) == Sub16(b[cs[k]].totLen, drop);
    forall x | x in b ensures a'[x] == if x in cs[..k + 1] then b[x].(totLen := Sub16(b[x].totLen, drop)) else b[x] {
      var y := a[x];
    }
  }

  /** The step over a pbuf that is kept whole: there is a next one, and the same number of bytes is to go. */
  lemma StepOver(b: Bufs, rank: Rank, cs: seq<nat>, k: nat, q: nat, rem: nat, drop: nat)
    requires OnChain(b, rank, cs, k, q) && TotOk(b) && b[q].totLen == rem + drop && rem > b[q].len
    ensures b[q].next >= 0 && OnChain(b, rank, cs, k + 1, b[q].next) && b[b[q].next].totLen == rem - b[q].len + drop
    ensures b[q].totLen < LIM16
  {
    OnChainNext(b, rank, cs, k, q);
    assert b[q].totLen == b[q].len + TotOf(b, b[q].next) < LIM16;
  }

  lemma DroppedAt(b: Bufs, a: Bufs, cs: seq<nat>, k: nat, drop: nat, q: nat)
    requires Dropped(b, a, cs, k, drop) && q in b && q !in cs[..k]
    ensures a[q] == b[q]
  {
  }

  /** One round of pbuf_realloc's loop. */
  lemma StepKept(b: Bufs, rank: Rank, cs: seq<nat>, k: nat, q: nat, rem: nat, drop: nat, a: Bufs, a': Bufs)
    requires KeptUpTo(b, a, rank, cs, k, q, rem, drop) && TotOk(b) && rem > b[q].len && drop > 0
    requires a' == a[q := a[q].(totLen := Add16(a[q].totLen, 65536 - drop))]
    ensures a'[q].next == b[q].next >= 0 && a'[q].len == b[q].len &&
      KeptUpTo(b, a', rank, cs, k + 1, b[q].next, rem - b[q].len, drop)
  {
    StepOver(b, rank, cs, k, q, rem, drop);
    DroppedMore(b, a, a', cs, k, drop);
    DroppedAt(b, a', cs, k + 1, drop, b[q].next);
  }

  /** The loop of pbuf_realloc: it has come to `q`, with `rem` bytes to go. */
  ghost predicate KeptUpTo(b: Bufs, a: Bufs, rank: Rank, cs: seq<nat>, k: nat, q: nat, rem: nat, drop: nat) {
    OnChain(b, rank, cs, k, q) && Dropped(b, a, cs, k, drop) && b[q].totLen == rem + drop && q in a && a[q] == b[q]
  }

  /** pbuf_realloc before the rest of the chain is freed. */
  lemma CutIs(b: Bufs, a: Bufs, a': Bufs, cs: seq<nat>, k: nat, rem: nat, drop: nat)
    requires LensOk(b) && k < |cs| && cs[k] in b && cs[k] !in cs[..k] && Dropped(b, a, cs, k, drop) &&
      rem <= b[cs[k]].len
    requires a' == a[cs[k] := a[cs[k]].(len := rem, totLen := rem, next := NULL)]
    ensures CutAt(b, a', cs, k, rem, drop) && Relinked(b, a', cs[k]) && SamePooled(b, a')
  {
    var z := b[cs[k]];
    forall x | x in b ensures x != cs[k] ==> a'[x] == a[x] { var y := a[x]; }
  }

  /** A chain is linked in order, its elements are distinct, and it ends only where it ends. */
  lemma {:induction false} ChainSteps(b: Bufs, rank: Rank, p: nat, cs: seq<nat>, k: nat)
    requires Sound(b, rank) && p in b && cs == Chain(b, rank, p) && k < |cs|
    ensures cs[0] == p && InSteps(b, cs, k) && cs[k] !in cs[..k] && (b[cs[k]].next >= 0 ==> Step(b, cs, k))
    decreases k
  {
    BytesCons(b, rank, p);
    var n := b[p].next;
    if k > 0 {
      var rest := Chain(b, rank, n);
      assert cs == [p] + rest && n >= 0;
      ChainSteps(b, rank, n, rest, k - 1);
      ChainFalls(b, rank, n);
      assert cs[k] == rest[k - 1] && cs[k] in rest && cs[k] != p;
      assert cs[..k] == [p] + rest[..k - 1];
      forall j: nat | j < k ensures Step(b, cs, j) {
        if j > 0 { assert Step(b, rest, j - 1); } else { BytesCons(b, rank, n); }
      }
      if b[cs[k]].next >= 0 { assert Step(b, rest, k - 1); }
    } else if n >= 0 {
      BytesCons(b, rank, n);
      assert cs == [p] + Chain(b, rank, n);
    }
  }

  /** Totals do not grow along a chain. */
  lemma {:induction false} TotDown(b: Bufs, cs: seq<nat>, i: nat, k: nat)
    requires TotOk(b) && LinksOk(b) && i <= k && InSteps(b, cs, k)
    ensures cs[i] in b && b[cs[i]].totLen >= b[cs[k]].totLen
    decreases k - i
  {
    if i < k {
      assert Step(b, cs, i);
      TotDown(b, cs, i + 1, k);
      assert b[cs[i]].totLen == b[cs[i]].len + TotOf(b, b[cs[i]].next);
    }
  }

  lemma CutTotalsAll(b: Bufs, rank: Rank, b': Bufs, p: nat, cs: seq<nat>, k: nat, rem: nat, drop: nat)
    requires Sound(b, rank) && TotOk(b) && p in b && cs == Chain(b, rank, p) && Unshared(b, cs)
    requires CutAt(b, b', cs, k, rem, drop) && b[cs[k]].totLen == rem + drop
    ensures TotOk(b')
  {
    ChainSteps(b, rank, p, cs, k);
    forall x | x in cs[..k] ensures x in b && b[x].totLen >= drop && b[x].next >= 0 && b[x].next in cs[..k + 1] {
      var i :| 0 <= i < k && cs[i] == x;
      TotDown(b, cs, i, k);
      assert Step(b, cs, i) && cs[..k + 1][i + 1] == cs[i + 1];
    }
    forall q | q in b && b[q].next >= 0 && b[q].next in cs[..k + 1] ensures q in cs[..k] {
      assert q in cs;
      Predecessor(b, rank, p, cs, k, q);
    }
    CutTotals(b, rank, b', cs, k, rem, drop);
  }

  /** What links to one of the first elements comes before it. */
  lemma Predecessor(b: Bufs, rank: Rank, p: nat, cs: seq<nat>, k: nat, q: nat)
    requires Sound(b, rank) && p in b && cs == Chain(b, rank, p) && k < |cs| && q in b && q in cs && b[q].next >= 0 &&
      b[q].next in cs[..k + 1]
    ensures q in cs[..k]
  {
    var i :| 0 <= i < |cs| && cs[i] == q;
    var j :| 0 <= j <= k && cs[j] == b[q].next;
    ChainSteps(b, rank, p, cs, i);
    assert cs[i + 1] == cs[j];
    assert i + 1 == j by {
      if j < i + 1 { ChainDistinct(b, rank, p, cs, j, i + 1); }
      if i + 1 < j { ChainDistinct(b, rank, p, cs, i + 1, j); }
    }
    assert cs[..k][i] == q;
  }

  lemma ChainDistinct(b: Bufs, rank: Rank, p: nat, cs: seq<nat>, x: nat, y: nat)
    requires Sound(b, rank) && p in b && cs == Chain(b, rank, p) && x < y < |cs|
    ensures cs[x] != cs[y]
  {
    ChainSteps(b, rank, p, cs, y);
    assert cs[..y][x] == cs[x];
  }

  lemma CutBytes(b: Bufs, rank: Rank, b': Bufs, p: nat, cs: seq<nat>, k: nat, rem: nat, drop: nat, newLen: nat)
    requires Sound(b, rank) && Sound(b', rank) && TotOk(b) && TotOk(b') && p in b && cs == Chain(b, rank, p)
    requires CutAt(b, b', cs, k, rem, drop) && b[cs[k]].totLen == rem + drop && newLen + drop == b[p].totLen
    ensures newLen <= |Bytes(b, rank, p)| && Bytes(b', rank, p) == Bytes(b, rank, p)[..newLen]
  {
    ChainSteps(b, rank, p, cs, k);
    CutPrefix(b, rank, b', cs, k, rem, drop, 0);
    TotIsLength(b, rank, p);
    TotIsLength(b', rank, p);
    TotDown(b, cs, 0, k);
    assert b'[p].totLen == newLen by { if k > 0 { assert p in cs[..k] by { assert cs[..k][0] == p; } var y := b'[p]; } }
  }

  lemma CutAll(b: Bufs, hs: Handles, rank: Rank, b': Bufs, hs': Handles, p: nat, cs: seq<nat>, k: nat, rem: nat,
      drop: nat, newLen: nat, h: nat)
    requires PbufOk(b, hs, rank) && LensOk(b) && TotOk(b) && p in b && cs == Chain(b, rank, p) && Unshared(b, cs)
    requires CutAt(b, b', cs, k, rem, drop) && Relinked(b, b', cs[k]) && b[cs[k]].totLen == rem + drop &&
      newLen + drop == b[p].totLen
    requires MaybeHandle(hs, hs', h, b[cs[k]].next)
    ensures PbufOk(b', hs', rank) && LensOk(b') && TotOk(b') && newLen <= |Bytes(b, rank, p)| &&
      Bytes(b', rank, p) == Bytes(b, rank, p)[..newLen]
  {
    CutSound(b, rank, b', cs, k, rem, drop);
    DetachPbuf(b, hs, rank, b', hs', cs[k], h);
    CutTotalsAll(b, rank, b', p, cs, k, rem, drop);
    CutBytes(b, rank, b', p, cs, k, rem, drop, newLen);
  }

  /** What pbuf_realloc's loop leaves: `q` is to be the last pbuf, with `rem` bytes. */
  ghost predicate CutPoint(b: Bufs, rank: Rank, a: Bufs, p: nat, q: nat, k: nat, rem: nat, newLen: nat) {
    && Sound(b, rank) && Sound(a, rank) && p in b && newLen < b[p].totLen
    && OnChain(b, rank, Chain(b, rank, p), k, q) && Dropped(b, a, Chain(b, rank, p), k, b[p].totLen - newLen)
    && b[q].totLen == rem + (b[p].totLen - newLen) && rem <= b[q].len
  }

  lemma ReallocCut(b: Bufs, hs: Handles, rank: Rank, a: Bufs, b2: Bufs, p: nat, q: nat, k: nat, rem: nat, newLen: nat,
      h: nat,
                   pool: seq<nat>, elems: set<nat>)
    returns (b1: Bufs, hs': Handles)
    requires PbufOk(b, hs, rank) && LensOk(b) && TotOk(b) && p in b && Unshared(b, Chain(b, rank, p)) &&
      PoolOk(b, pool, elems)
    requires CutPoint(b, rank, a, p, q, k, rem, newLen) && h !in hs && q in a &&
      b2 == a[q := a[q].(len := rem, totLen := rem)]
    ensures b1 == b2[q := b2[q].(next := NULL)] && MaybeHandle(hs, hs', h, b2[q].next)
    ensures PbufOk(b1, hs', rank) && LensOk(b1) && TotOk(b1) && PoolOk(b1, pool, elems) && Sound(b2, rank)
    ensures newLen <= |Bytes(b, rank, p)| && Bytes(b1, rank, p) == Bytes(b, rank, p)[..newLen]
  {
    var (cs, drop) := (Chain(b, rank, p), b[p].totLen - newLen);
    DroppedAt(b, a, cs, k, drop, q);
    b1 := TwoUpdates(a, q, rem, b2);
    hs' := MakeHandle(b, hs, q, h);
    CutIs(b, a, b1, cs, k, rem, drop);
    CutAll(b, hs, rank, b1, hs', p, cs, k, rem, drop, newLen, h);
    PoolSame(b, b1, pool, elems);
    ShorterSound(a, rank, b2, q, rem);
  }

  lemma TwoUpdates(a: Bufs, q: nat, rem: nat, b2: Bufs) returns (b1: Bufs)
    requires q in a && b2 == a[q := a[q].(len := rem, totLen := rem)]
    ensures b1 == b2[q := b2[q].(next := NULL)] && b1 == a[q := a[q].(len := rem, totLen := rem, next := NULL)]
  {
    b1 := b2[q := b2[q].(next := NULL)];
  }

  lemma MakeHandle(b: Bufs, hs: Handles, q: nat, h: nat) returns (hs': Handles)
    requires LinksOk(b) && q in b && h !in hs
    ensures MaybeHandle(hs, hs', h, b[q].next)
  {
    hs' := if b[q].next < 0 then hs else hs[h := b[q].next];
  }

  lemma ShorterSound(a: Bufs, rank: Rank, b2: Bufs, q: nat, rem: nat)
    requires Sound(a, rank) && q in a && rem <= a[q].len && b2 == a[q := a[q].(len := rem, totLen := rem)]
    ensures Sound(b2, rank)
  {
    SameLinks(a, b2, rank);
    forall x | x in b2 ensures b2[x].len <= |b2[x].data| && b2[x].len < LIM16 { var y := a[x]; var z := a[q]; }
  }

  /** Freeing the rest leaves what a handle still reaches. */
  lemma CutRestOk(b: Bufs, b': Bufs, rank: Rank, hs: Handles, p: nat, hp: nat)
    requires Sound(b, rank) && LensOk(b') && PbufOk(b', hs, rank) && Kept(b, b') && TotOk(b) && hp in hs &&
      hs[hp] == p && p in b
    ensures p in b' && Sound(b', rank) && Bytes(b', rank, p) == Bytes(b, rank, p) && TotOk(b')
  {
    assert hs[hp] in b';
    KeptChain(b, b', rank, p);
    KeptTotals(b, b');
  }

  lemma DroppedSound(b: Bufs, a: Bufs, rank: Rank, cs: seq<nat>, k: nat, drop: nat)
    requires Sound(b, rank) && Dropped(b, a, cs, k, drop)
    ensures Sound(a, rank)
  {
    forall x | x in b ensures a[x].next == b[x].next && a[x].len == b[x].len &&
      a[x].data == b[x].data { var y := a[x]; }
    SameLinks(b, a, rank);
    forall x | x in a ensures a[x].len <= |a[x].data| && a[x].len < LIM16 { var y := b[x]; }
  }

  /** Walking on from `q` never comes back to it, so clearing its link may wait until the walk is over. */
  lemma BehindOk(b1: Bufs, b2: Bufs, hs: Handles, hs0: Handles, rank: Rank, q: nat, n: nat, h: nat)
    requires q in b1 && b1[q].next == NULL && b2 == b1[q := b1[q].(next := n)] && n in b1 && Sound(b2, rank) &&
      LensOk(b1)
    requires PbufOk(b1, hs, rank) && NewHandle(hs0, hs, h, n)
    ensures Positive(b2) && q in FreeFrom(b2, n)
    ensures var b := FreeFrom(b2, n); var b' := b[q := b[q].(next := NULL)];
      PbufOk(b', hs0, rank) && LensOk(b') && Kept(b1, b') && SamePooled(b, b')
  {
    BytesCons(b2, rank, q);
    ChainFalls(b2, rank, n);
    if Touches(b2, n, q) { TouchesChain(b2, rank, b2, n, q); }
    FreeFromApart(b2, n, q, b1[q]);
    assert b2[q := b1[q]] == b1;
    PositiveRefs(b1, hs);
    assert Positive(b2) by { forall x | x in b2 ensures b2[x].ref > 0 { var y := b1[x]; } }
    assert FreeFrom(b2, n)[q].(next := NULL) == b1[q];
    var t := TokenFacts(b1, hs, rank, h);
    FreeOk(b1, hs, rank, h, rank[n]);
    TokenBack(hs0, hs, h, n);
    FreeKept(b1, n);
    KeptLens(b1, FreeFrom(b1, n));
  }

  // ---- pbuf_alloc ----

  /** How many pool elements `rem` more bytes take. */
  function Pieces(rem: nat, size: nat): nat
    requires size > 0
  {
    if rem == 0 then 0 else 1 + Pieces(if rem < size then 0 else rem - size, size)
  }

  /** A chain `cs` under construction from `p`: new pbufs with one reference each, `rem` bytes still to come. */
  ghost predicate Building(b0: Bufs, b: Bufs, rank: Rank, p: nat, cs: seq<nat>, length: nat, rem: nat) {
    && Sound(b, rank) && p in b && cs == Chain(b, rank, p) && cs != [] && NewOnes(b0, b, cs)
    && rem <= length < LIM16 && |Bytes(b, rank, p)| + rem == length && Last(cs) in b && b[Last(cs)].next == NULL &&
      TotRising(b, cs, rem)
    && (length > 0 ==> forall x {:trigger x in cs} :: x in cs ==> b[x].len > 0)
  }

  ghost predicate NewOnes(b0: Bufs, b: Bufs, cs: seq<nat>) {
    && (forall x {:trigger x in cs} :: x in cs ==> x !in b0 && x in b && b[x].ref == 1)
    && (forall x {:trigger b[x]} :: x in b && x !in cs ==> x in b0 && b[x] == b0[x])
    && (forall x {:trigger x in b0} :: x in b0 ==> x in b)
  }

  /** The totals count the bytes to come. */
  ghost predicate TotRising(b: Bufs, cs: seq<nat>, rem: nat)
    requires cs != []
  {
    forall x {:trigger x in cs} ::
      x in cs ==> x in b && b[x].totLen == b[x].len + (if x == Last(cs) then rem else TotOf(b, b[x].next)) < LIM16
  }

  lemma {:induction false} CatChain(b: Bufs, rank: Rank, b': Bufs, rank': Rank, cs: seq<nat>, t: nat, p: nat)
    requires Sound(b, rank) && Sound(b', rank') && Continued(b, b', cs, t) && p in cs && p in b && p in b' && t in b'
    ensures Chain(b', rank', p) == Chain(b, rank, p) + Chain(b', rank', t)
    decreases Height(rank, p)
  {
    BytesCons(b, rank, p);
    BytesCons(b', rank', p);
    if p != Last(cs) { CatChain(b, rank, b', rank', cs, t, b[p].next); }
  }

  lemma GrowContinued(b: Bufs, rank: Rank, p: nat, cs: seq<nat>, q: nat, pb: Pbuf)
    requires Sound(b, rank) && p in b && cs == Chain(b, rank, p) && q !in b
    ensures cs != [] && Last(cs) in b && Continued(b, Grown(b, Last(cs), q, pb), cs, q) && q !in cs
  {
    ChainEnds(b, rank, p);
    ChainFalls(b, rank, p);
  }

  /** One more pbuf on the chain. */
  lemma BuildingMore(b0: Bufs, b: Bufs, rank: Rank, p: nat, cs: seq<nat>, length: nat, rem: nat, q: nat, pb: Pbuf)
    requires Building(b0, b, rank, p, cs, length, rem) && q !in b && pb.next == NULL && pb.ref == 1 &&
      0 < pb.len <= rem && pb.len <= |pb.data|
    requires pb.totLen == rem
    ensures Building(b0, Grown(b, Last(cs), q, pb), Above(rank, q), p, cs + [q], length, rem - pb.len)
  {
    var (b', rank') := (Grown(b, Last(cs), q, pb), Above(rank, q));
    GrowContinued(b, rank, p, cs, q, pb);
    GrownSound(b, rank, Last(cs), q, pb);
    ChainEnds(b, rank, p);
    BytesEnd(b', rank', q);
    CatBytes(b, rank, b', rank', cs, q, p);
    CatChain(b, rank, b', rank', cs, q, p);
    assert Chain(b', rank', q) == [q] by { BytesCons(b', rank', q); }
    BuildingTotals(b0, b, rank, p, cs, rem, q, pb);
  }

  lemma BuildingTotals(b0: Bufs, b: Bufs, rank: Rank, p: nat, cs: seq<nat>, rem: nat, q: nat, pb: Pbuf)
    requires Sound(b, rank) && p in b && cs == Chain(b, rank, p) && cs != [] && NewOnes(b0, b, cs) &&
      TotRising(b, cs, rem) && Last(cs) in b
    requires b[Last(cs)].next == NULL && q !in b && pb.totLen == rem && pb.len <= rem && pb.ref == 1 && pb.next == NULL
    ensures NewOnes(b0, Grown(b, Last(cs), q, pb), cs + [q]) &&
      TotRising(Grown(b, Last(cs), q, pb), cs + [q], rem - pb.len)
  {
    var (b', cs') := (Grown(b, Last(cs), q, pb), cs + [q]);
    ChainEnds(b, rank, p);
    assert Last(cs') == q && Last(cs) in cs;
    assert forall x :: x in cs' <==> x in cs || x == q;
    GrowNewOnes(b0, b, b', cs, cs', Last(cs), q);
    forall x | x in cs' ensures x in b' && b'[x].totLen == b'[x].len + (if x == q then rem - pb.len
      else TotOf(b', b'[x].next)) < LIM16 {
      if x != q {
        assert x in cs && b[x].totLen == b[x].len + (if x == Last(cs) then rem else TotOf(b, b[x].next)) < LIM16;
        if x != Last(cs) { assert b[x].next in b; }
      }
    }
  }

  lemma GrowNewOnes(b0: Bufs, b: Bufs, b': Bufs, cs: seq<nat>, cs': seq<nat>, r: nat, q: nat)
    requires NewOnes(b0, b, cs) && r in cs && r in b && q !in b && (forall x :: x in cs' <==> x in cs || x == q) &&
      b'.Keys == b.Keys + {q}
    requires b'[q].ref == 1 && b'[r].ref == b[r].ref && forall x :: x in b && x != r ==> b'[x] == b[x]
    ensures NewOnes(b0, b', cs')
  {
    assert q !in b0;
    forall x | x in cs' ensures x !in b0 && x in b' && b'[x].ref == 1 { if x != q { assert x in cs; } }
    forall x | x in b' && x !in cs' ensures x in b0 && b'[x] == b0[x] { var y := b[x]; }
  }

  /** A finished chain: its total is its length, and the other totals are as right as they were. */
  lemma BuildingDone(b0: Bufs, b: Bufs, rank: Rank, p: nat, cs: seq<nat>, length: nat)
    requires Building(b0, b, rank, p, cs, length, 0) && LinksOk(b0)
    ensures |Bytes(b, rank, p)| == length && (TotOk(b0) ==> TotOk(b))
  {
    if TotOk(b0) {
      forall x | x in b ensures b[x].totLen == b[x].len + TotOf(b, b[x].next) < LIM16 {
        if x !in cs {
          assert b[x] == b0[x] && b0[x].totLen == b0[x].len + TotOf(b0, b0[x].next);
          var n := b0[x].next;
          if n >= 0 { assert n in b0 && n in b && n !in cs; var y := b[n]; }
        }
      }
    }
  }

  /** The pool holds exactly the elements that are not in use. */
  lemma PoolRestored(b: Bufs, pool: seq<nat>, pool': seq<nat>, elems: set<nat>)
    requires PoolOk(b, pool, elems) && PoolOk(b, pool', elems)
    ensures forall x :: x in pool <==> x in pool'
  {
    forall x ensures x in pool <==> x in pool' { assert x in pool ==> x in elems; assert x in pool' ==> x in elems; }
  }

  lemma BuildingUndone(b0: Bufs, b: Bufs, rank: Rank, p: nat, cs: seq<nat>, length: nat, rem: nat)
    requires Building(b0, b, rank, p, cs, length, rem)
    ensures FreeFrom(b, p) == b0
  {
    FreeWhole(b, rank, b, p, cs);
    var left := b - (set x | x in cs);
    forall x ensures x in left <==> x in b0 { }
    forall x | x in left ensures left[x] == b0[x] { var y := b[x]; }
  }

  lemma FirstOk(b: Bufs, hs: Handles, rank: Rank, b': Bufs, hs': Handles, rank': Rank, p: nat, h: nat, length: nat)
    requires PbufOk(b, hs, rank) && LensOk(b) && p !in b && h !in hs && hs' == hs[h := p] && rank' == rank[p := 0]
    requires b'.Keys == b.Keys + {p} && (forall x :: x in b ==> b'[x] == b[x]) && length < LIM16
    requires var pb := b'[p];
      pb.next == NULL && pb.ref == 1 && pb.len <= length && pb.len <= |pb.data| && pb.totLen == length &&
        (length > 0 ==> pb.len > 0)
    ensures PbufOk(b', hs', rank') && LensOk(b') && Building(b, b', rank', p, [p], length, length - b'[p].len)
  {
    assert Sound(b', rank') by {
      forall x | x in b' ensures
        && (b'[x].next == NULL || (b'[x].next >= 0 && b'[x].next in b')) && b'[x].len <= |b'[x].data| &&
          b'[x].len < LIM16
        && x in rank' && (b'[x].next in rank' && b'[x].next >= 0 ==> rank'[b'[x].next] < rank'[x])
      {
        if x != p { var y := b[x]; }
      }
    }
    NewOk(b, hs, b', hs', p, h);
    assert HandlesOk(b', hs') by { forall k | k in hs' ensures hs'[k] in b' { if k != h { assert hs[k] in b; } } }
    BytesEnd(b', rank', p);
    BytesCons(b', rank', p);
  }

  lemma NextAll(b0: Bufs, b: Bufs, hs: Handles, rank: Rank, p: nat, cs: seq<nat>, length: nat, rem: nat, q: nat,
      pb: Pbuf, h2: nat,
                pool: seq<nat>, elems: set<nat>)
    returns (b': Bufs, rank': Rank)
    requires PbufOk(b, hs, rank) && LensOk(b) && PoolOk(b, pool, elems) && pool != [] && q == pool[0] && h2 !in hs
    requires Building(b0, b, rank, p, cs, length, rem) && pb.next == NULL && pb.ref == 1 && 0 < pb.len <= rem &&
      pb.len <= |pb.data| && pb.totLen == rem
    requires pb.pooled
    ensures b' == b[Last(cs) := b[Last(cs)].(next := q)][q := pb]
    ensures PbufOk(b', hs, rank') && LensOk(b') && PoolOk(b', pool[1..], elems) &&
      Building(b0, b', rank', p, cs + [q], length, rem - pb.len)
  {
    assert q in pool;
    ChainEnds(b, rank, p);
    BuildingMore(b0, b, rank, p, cs, length, rem, q, pb);
    GrownOk(b, hs, rank, Last(cs), q, pb, h2);
    b' := Grown(b, Last(cs), q, pb);
    rank' := Above(rank, q);
    PoolTakes(b, pool, elems, b');
  }

  class Pool {
    var bufs: map<nat, Pbuf>
    /** The free elements of the pool. */
    var pool: seq<nat>
    ghost var handles: Handles
    ghost var rank: Rank
    ghost const elems: set<nat>

    ghost predicate Valid()
      reads this
    {
      PbufOk(bufs, handles, rank) && LensOk(bufs) && PoolOk(bufs, pool, elems)
    }

    /** A pool of `n` free elements and no pbuf in use. */
    constructor (n: nat)
      ensures Valid() && bufs == map[] && handles == map[] && |pool| == n
    {
      var all := seq(n, i => i);
      bufs, pool, handles, rank := map[], all, map[], map[];
      elems := set x | x in all;
    }

    // ---- pbuf_free, pbuf_ref ----

    /** The loop of pbuf_free. */
    method FreeWalk(p0: int) returns (count: nat)
      requires Sound(bufs, rank) && Positive(bufs) && IsPtr(bufs, p0) && PoolOk(bufs, pool, elems)
      modifies this`bufs, this`pool
      ensures bufs == FreeFrom(old(bufs), p0) && count == FreedBy(old(bufs), p0) && PoolOk(bufs, pool, elems)
    {
      ghost var b0 := bufs;
      var p := p0;
      count := 0;
      while p != NULL
        invariant p == NULL || (p >= 0 && p in b0 && p in rank)
        invariant Part(bufs, b0) && PoolOk(bufs, pool, elems) && Untouched(b0, bufs, rank, p)
        invariant FreeFrom(bufs, p) == FreeFrom(b0, p0) && count + FreedBy(bufs, p) == FreedBy(b0, p0)
        decreases Height(rank, p), if p == NULL then 0 else 1
      {
        WalkStep(b0, bufs, rank, p);
        var ref := bufs[p].ref - 1;
        if ref == 0 {
          var q := bufs[p].next;
          PoolGives(bufs, pool, elems, p);
          if bufs[p].pooled {
            pool := [p] + pool;
          }
          bufs := bufs - {p};
          count := count + 1;
          p := q;
        } else {
          PoolSame(bufs, bufs[p := bufs[p].(ref := ref)], pool, elems);
          bufs := bufs[p := bufs[p].(ref := ref)];
          return;
        }
      }
    }

    /** What lies below `p` has not been touched. */
    static ghost predicate Untouched(b0: Bufs, b: Bufs, rank: Rank, p: int) {
      forall x {:trigger x in b0} :: x in b0 && x in rank && rank[x] < Height(rank, p) ==> x in b && b[x] == b0[x]
    }

    /** One round of the walk. */
    static lemma WalkStep(b0: Bufs, b: Bufs, rank: Rank, p: nat)
      requires Sound(b0, rank) && Positive(b0) && p in b0 && p in rank && Part(b, b0) && Untouched(b0, b, rank, p)
      ensures p in b && b[p] == b0[p] && b[p].ref > 0 && Part(b - {p}, b0)
      ensures var n := b[p].next;
        (n == NULL || (n >= 0 && n in b0 && n in rank)) && Height(rank, n) < Height(rank, p) &&
          Untouched(b0, b - {p}, rank, n)
      ensures if b[p].ref == 1 then FreeFrom(b, p) == FreeFrom(b - {p}, b[p].next) &&
        FreedBy(b, p) == 1 + FreedBy(b - {p}, b[p].next)
              else FreeFrom(b, p) == b[p := b[p].(ref := b[p].ref - 1)] && FreedBy(b, p) == 0
    {
      BytesCons(b0, rank, p);
      assert b0[p].ref > 0;
      FreeFromStep(b, p);
    }

    /** pbuf_free: gives up the reference `h`; the result is a count of 8 bits. */
    method Free(p: int, ghost h: nat) returns (count: nat)
      requires Valid() && (p != NULL ==> h in handles && handles[h] == p)
      modifies this`bufs, this`pool, this`handles
      ensures Valid() && Kept(old(bufs), bufs)
      ensures p == NULL ==> count == 0 && bufs == old(bufs) && handles == old(handles)
      ensures p != NULL ==>
        count == FreedBy(old(bufs), p) % 256 && bufs == FreeFrom(old(bufs), p) && handles == old(handles) - {h}
    {
      if p == NULL {
        return 0;
      }
      ghost var b0 := bufs;
      PositiveRefs(b0, handles);
      ghost var n := TokenFacts(b0, handles, rank, h);
      var freed := FreeWalk(p);
      FreeOk(b0, handles, rank, h, rank[p]);
      FreeKept(b0, p);
      KeptLens(b0, bufs);
      handles := handles - {h};
      return freed % 256;
    }

    /** pbuf_ref: a new reference `h`; the counts are right exactly if this one does not wrap. */
    method Ref(p: int, ghost h: nat)
      requires Valid() && (p != NULL ==> p >= 0 && p in bufs && h !in handles)
      modifies this`bufs, this`handles
      ensures p == NULL ==> bufs == old(bufs) && handles == old(handles)
      ensures p != NULL ==>
        && handles == old(handles)[h := p] && bufs == old(bufs)[p := old(bufs)[p].(ref := Add16(old(bufs)[p].ref, 1))]
        && (Valid() <==> old(bufs)[p].ref + 1 < LIM16)
    {
      if p == NULL {
        return;
      }
      ghost var (b0, h0) := (bufs, handles);
      bufs := bufs[p := bufs[p].(ref := Add16(bufs[p].ref, 1))];
      handles := handles[h := p];
      RefPbuf(b0, h0, bufs, handles, rank, p, h);
      PoolSame(b0, bufs, pool, elems);
    }

    // ---- pbuf_cat, pbuf_chain ----

    /** pbuf_cat: `h`'s chain is continued by `t`, whose reference `ht` passes to the chain. */
    method Cat(h: int, t: int, ghost ht: nat)
      requires Valid() && (h != NULL && t != NULL ==>
        h >= 0 && t >= 0 && Separate(bufs, rank, h, t) && ht in handles && handles[ht] == t)
      modifies this`bufs, this`handles, this`rank
      ensures Valid() && Sound(bufs, rank)
      ensures h == NULL || t == NULL ==> bufs == old(bufs) && handles == old(handles) && rank == old(rank)
      ensures h != NULL && t != NULL ==>
        && handles == old(handles) - {ht} && Catted(old(bufs), old(rank), bufs, rank, h, t)
        && Bytes(bufs, rank, h) == Bytes(old(bufs), old(rank), h) + Bytes(old(bufs), old(rank), t)
    {
      if h == NULL || t == NULL {
        return;
      }
      ghost var (b0, r0) := (bufs, rank);
      assert t !in Chain(b0, r0, h) by { BytesCons(b0, r0, t); assert t in Chain(b0, r0, t); }
      LinkTail(h, t);
      ghost var r1 := CatAll(b0, handles, r0, bufs, h, t, ht, pool, elems);
      rank := r1;
      handles := handles - {ht};
    }

    /** The loop of pbuf_cat and the link at its end. */
    method LinkTail(h: nat, t: nat)
      requires Sound(bufs, rank) && h in bufs && t in bufs && t !in Chain(bufs, rank, h)
      modifies this`bufs
      ensures IsCat(old(bufs), bufs, Chain(old(bufs), rank, h), t)
    {
      ghost var b0 := bufs;
      ghost var cs := Chain(b0, rank, h);
      ChainEnds(b0, rank, h);
      var add := bufs[t].totLen;
      var p := h;
      ghost var n := 0;
      while bufs[p].next != NULL
        invariant OnChain(b0, rank, cs, n, p) && Added(b0, bufs, cs, n, add)
        decreases |cs| - n
      {
        OnChainNext(b0, rank, cs, n, p);
        ghost var a := bufs;
        bufs := bufs[p := bufs[p].(totLen := Add16(bufs[p].totLen, add))];
        AddedMore(b0, a, bufs, cs, n, add);
        p := bufs[p].next;
        n := n + 1;
      }
      OnChainNext(b0, rank, cs, n, p);
      ghost var a := bufs;
      bufs := bufs[p := bufs[p].(totLen := Add16(bufs[p].totLen, add))];
      AddedMore(b0, a, bufs, cs, n, add);
      a := bufs;
      bufs := bufs[p := bufs[p].(next := t)];
      AddedCat(b0, a, bufs, cs, t);
    }

    /**
     * pbuf_chain: as pbuf_cat, but the caller keeps its reference to `t`. Without a chain to put `t` behind, `t` is
     * still given a reference, which nobody holds.
     */
    method ChainTo(h: int, t: int, ghost ht: nat)
      requires Valid() && (t != NULL ==> t >= 0 && t in bufs)
      requires h != NULL && t != NULL ==> h >= 0 && Separate(bufs, rank, h, t) && ht in handles && handles[ht] == t
      modifies this`bufs, this`handles, this`rank
      ensures handles == old(handles)
      ensures t == NULL ==> bufs == old(bufs) && rank == old(rank)
      ensures h == NULL && t != NULL ==> Recounted(old(bufs), bufs, t)
      ensures h != NULL && t != NULL ==> exists b ::
        Catted(old(bufs), old(rank), b, rank, h, t) && Recounted(b, bufs, t)
      ensures Valid() <==> t == NULL || (h != NULL && old(bufs)[t].ref + 1 < LIM16)
    {
      ghost var (b0, r0, h0) := (bufs, rank, handles);
      Cat(h, t, ht);
      ghost var b1 := bufs;
      if t != NULL {
        if h != NULL {
          CatRef(b0, r0, b1, rank, h, t);
          Ref(t, ht);
          HandleBack(h0, ht);
        } else {
          bufs := bufs[t := bufs[t].(ref := Add16(bufs[t].ref, 1))];
          Unheld(b0, bufs, handles, t);
        }
        RecountedIs(b1, t, bufs);
      }
    }

    // ---- pbuf_dechain ----

    /**
     * pbuf_dechain: cuts `p` off from the rest `q` of its chain and drops its reference to it. That frees the pbufs at
     * the front of the rest that nobody else refers to. The result is NULL or a pbuf in use, unless the number of those
     * freed is a multiple of 256 other than 0: then it is a pbuf that has been freed.
     */
    method Dechain(p: nat, ghost h: nat) returns (r: int)
      requires Valid() && p in bufs && h !in handles
      modifies this`bufs, this`pool, this`handles
      ensures Valid() && handles == old(handles) && p in bufs && bufs[p].next == NULL
      ensures Sound(bufs, rank) && Bytes(bufs, rank, p) == old(bufs)[p].data[..old(bufs)[p].len]
      ensures Sound(old(bufs), rank) && IsPtr(old(bufs), old(bufs)[p].next)
      ensures var (q, gone) := (old(bufs)[p].next, old(Gone(bufs, rank, p)));
        && r == (if q == NULL || gone % 256 > 0 then NULL else q)
        && (r == NULL || r in bufs <==> !(gone > 0 && gone % 256 == 0))
        && (q != NULL ==> (q in bufs <==> gone == 0))
        && (q != NULL && q in bufs ==> Bytes(bufs, rank, q) == Bytes(old(bufs), rank, q))
      ensures TotOk(old(bufs)) && Unshared(old(bufs), [p]) ==> TotOk(bufs)
    {
      ghost var (b0, h0) := (bufs, handles);
      BytesCons(b0, rank, p);
      var tailGone := 1;
      var q := bufs[p].next;
      if q != NULL {
        CutOff(p, h);
        ghost var b1 := bufs;
        tailGone := Free(q, h);
        TokenBack(h0, h0[h := q], h, q);
        DechainAll(b0, b1, bufs, rank, p, q);
      } else {
        BytesEnd(b0, rank, p);
      }
      r := if tailGone > 0 then NULL else q;
    }

    /** How many pbufs go when `p` is cut off from the rest of its chain. */
    static ghost function Gone(b: Bufs, rank: Rank, p: nat): nat {
      if Sound(b, rank) && p in b && IsPtr(b, b[p].next) then Lone(b, Chain(b, rank, b[p].next)) else 0
    }

    /** The first half: the link is gone and its reference is held by `h`. */
    method CutOff(p: nat, ghost h: nat)
      requires Valid() && p in bufs && bufs[p].next != NULL && h !in handles
      modifies this`bufs, this`handles
      ensures Valid() && Sound(bufs, rank) && handles == old(handles)[h := old(bufs)[p].next]
      ensures old(bufs)[p].next >= 0 && Dechained(old(bufs), bufs, p, old(bufs)[p].next)
      ensures Sound(old(bufs), rank) && Bytes(bufs, rank, old(bufs)[p].next) == Bytes(old(bufs), rank,
        old(bufs)[p].next)
      ensures TotOk(old(bufs)) && Unshared(old(bufs), [p]) ==> TotOk(bufs)
    {
      ghost var (b0, h0) := (bufs, handles);
      BytesCons(b0, rank, p);
      var q := bufs[p].next;
      bufs := bufs[q := bufs[q].(totLen := Sub16(bufs[p].totLen, bufs[p].len))];
      bufs := bufs[p := bufs[p].(next := NULL, totLen := bufs[p].len)];
      handles := handles[h := q];
      DechainedIs(b0, p, q, bufs);
      CutOffAll(b0, h0, rank, bufs, handles, p, q, h, pool, elems);
    }

    // ---- pbuf_realloc ----

    /**
     * pbuf_realloc: cuts an unshared chain down to its first `newLen` bytes and frees the pbufs behind them; it does
     * not lengthen a chain.
     */
    method Realloc(p: nat, newLen: nat, ghost hp: nat, ghost h: nat)
      requires Valid() && TotOk(bufs) && hp in handles && handles[hp] == p && h !in handles && p in bufs &&
        newLen < LIM16
      requires Sound(bufs, rank) && Unshared(bufs, Chain(bufs, rank, p))
      modifies this`bufs, this`pool
      ensures Valid() && TotOk(bufs) && p in bufs && Sound(bufs, rank)
      ensures newLen >= old(bufs)[p].totLen ==> bufs == old(bufs)
      ensures newLen < old(bufs)[p].totLen ==>
        newLen <= |Bytes(old(bufs), rank, p)| && Bytes(bufs, rank, p) == Bytes(old(bufs), rank, p)[..newLen]
      ensures Spared(old(bufs), bufs, Chain(old(bufs), rank, p))
    {
      if newLen >= bufs[p].totLen {
        return;
      }
      ghost var b0 := bufs;
      ghost var k;
      var q, rem;
      q, rem, k := StepOverKept(p, newLen);
      CutHere(p, q, rem, newLen, b0, k, hp, h);
    }

    /** The rest of pbuf_realloc: `q` becomes the last pbuf, with `rem` bytes. */
    method CutHere(p: nat, q: nat, rem: nat, ghost newLen: nat, ghost b0: Bufs, ghost k: nat, ghost hp: nat,
        ghost h: nat)
      requires PbufOk(b0, handles, rank) && LensOk(b0) && PoolOk(b0, pool, elems) && TotOk(b0) && p in b0
      requires hp in handles && handles[hp] == p && h !in handles && Unshared(b0, Chain(b0, rank, p))
      requires CutPoint(b0, rank, bufs, p, q, k, rem, newLen) && q in bufs
      modifies this`bufs, this`pool
      ensures Valid() && TotOk(bufs) && p in bufs && Sound(bufs, rank)
      ensures newLen <= |Bytes(b0, rank, p)| && Bytes(bufs, rank, p) == Bytes(b0, rank, p)[..newLen]
      ensures Spared(b0, bufs, Chain(b0, rank, p))
    {
      ghost var a := bufs;
      bufs := bufs[q := bufs[q].(len := rem, totLen := rem)];
      ghost var b2 := bufs;
      ghost var b1, hs := ReallocCut(b0, handles, rank, a, bufs, p, q, k, rem, newLen, h, pool, elems);
      FreeBehind(q, b1, h, hs);
      CutSpares(b0, rank, a, b2, bufs, p, q, k, rem, newLen);
      CutRestOk(b1, bufs, rank, handles, p, hp);
    }

    /** Frees what is behind `q` and ends the chain there. `b1` is the state in which only the link is gone. */
    method FreeBehind(q: nat, ghost b1: Bufs, ghost h: nat, ghost hs: Handles)
      requires q in bufs && b1 == bufs[q := bufs[q].(next := NULL)] && PbufOk(b1, hs, rank) && LensOk(b1) &&
        PoolOk(b1, pool, elems)
      requires Sound(bufs, rank) && MaybeHandle(handles, hs, h, bufs[q].next)
      modifies this`bufs, this`pool
      ensures PbufOk(bufs, handles, rank) && LensOk(bufs) && PoolOk(bufs, pool, elems) && Kept(b1, bufs)
      ensures IsPtr(old(bufs), old(bufs)[q].next) &&
        Spared(old(bufs), bufs, [q] + Chain(old(bufs), rank, old(bufs)[q].next))
    {
      ghost var b2 := bufs;
      var n := bufs[q].next;
      assert b2 == b1[q := b1[q].(next := n)];
      PoolSame(b1, b2, pool, elems);
      if n != NULL {
        BehindOk(b1, b2, hs, handles, rank, q, n, h);
        var c := FreeWalk(n);
        PoolSame(bufs, bufs[q := bufs[q].(next := NULL)], pool, elems);
      }
      bufs := bufs[q := bufs[q].(next := NULL)];
      BehindSpares(b2, rank, q, n, bufs);
    }

    /** q->tot_len += d, in 16 bits. */
    method AddTotal(q: nat, d: nat)
      requires q in bufs
      modifies this`bufs
      ensures bufs == old(bufs)[q := old(bufs)[q].(totLen := Add16(old(bufs)[q].totLen, d))]
    {
      bufs := bufs[q := bufs[q].(totLen := Add16(bufs[q].totLen, d))];
    }

    /** The loop: over the pbufs that stay as they are. */
    method StepOverKept(p: nat, newLen: nat) returns (q: nat, rem: nat, ghost k: nat)
      requires Sound(bufs, rank) && p in bufs && TotOk(bufs) && newLen < bufs[p].totLen
      modifies this`bufs
      ensures CutPoint(old(bufs), rank, bufs, p, q, k, rem, newLen) && q in bufs
    {
      ghost var b0 := bufs;
      ghost var cs := Chain(b0, rank, p);
      BytesCons(b0, rank, p);
      var grow := bufs[p].totLen - newLen;
      assert b0[p].totLen < LIM16;
      rem := newLen;
      q := p;
      k := 0;
      while rem > bufs[q].len
        invariant KeptUpTo(b0, bufs, rank, cs, k, q, rem, grow)
        decreases |cs| - k
      {
        ghost var a := bufs;
        AddTotal(q, 65536 - grow);
        StepKept(b0, rank, cs, k, q, rem, grow, a, bufs);
        rem := rem - bufs[q].len;
        q := bufs[q].next;
        k := k + 1;
      }
      DroppedSound(b0, bufs, rank, cs, k, grow);
    }

    // ---- pbuf_alloc ----

    /**
     * pbuf_alloc for PBUF_POOL: a chain for `length` bytes, the first pbuf with room for `room` of them, the others for
     * `size`; their memory holds whatever it held. It fails exactly if the pool has too few elements, and then puts
     * back those it took.
     */
    method Alloc(length: nat, room: nat, size: nat, junk: seq<Byte>, ghost h: nat, ghost h2: nat) returns (r: int)
      requires Valid() && length < LIM16 && 0 < room <= size == |junk| < LIM16 && h !in handles && h2 !in handles &&
        h != h2
      modifies this
      ensures Valid() && Sound(bufs, rank)
      ensures r == NULL <==> |old(pool)| < 1 + Pieces(if length < room then 0 else length - room, size)
      ensures r == NULL ==> bufs == old(bufs) && handles == old(handles) && forall x :: x in pool <==> x in old(pool)
      ensures r != NULL ==> r >= 0 && r in bufs && handles == old(handles)[h := r] && |Bytes(bufs, rank, r)| == length
      ensures r != NULL ==> NewOnes(old(bufs), bufs, Chain(bufs, rank, r)) && (TotOk(old(bufs)) ==> TotOk(bufs))
      ensures r != NULL ==> |Chain(bufs, rank, r)| == 1 + Pieces(if length < room then 0 else length - room, size)
    {
      ghost var (b0, h0, pool0) := (bufs, handles, pool);
      if pool == [] {
        return NULL;
      }
      var p := First(length, room, junk, h);
      ghost var cs, rem;
      var ok;
      ok, rem, cs := Tail(p, length - bufs[p].len, size, junk, b0, length, h2);
      if !ok {
        GiveUp(p, h, b0, h0, pool0, cs, length, rem);
        return NULL;
      }
      BuildingDone(b0, bufs, rank, p, cs, length);
      return p;
    }

    /** The pool ran out: the pbufs taken so far go back. */
    method GiveUp(p: nat, ghost h: nat, ghost b0: Bufs, ghost h0: Handles, ghost pool0: seq<nat>, ghost cs: seq<nat>,
        ghost length: nat, ghost rem: nat)
      requires Valid() && h !in h0 && handles == h0[h := p] && Building(b0, bufs, rank, p, cs, length, rem) &&
        PoolOk(b0, pool0, elems)
      modifies this`bufs, this`pool, this`handles
      ensures Valid() && bufs == b0 && handles == h0 && forall x :: x in pool <==> x in pool0
    {
      BuildingUndone(b0, bufs, rank, p, cs, length, rem);
      var c := Free(p, h);
      TokenBack(h0, h0[h := p], h, p);
      PoolRestored(b0, pool, pool0, elems);
    }

    /** The loop of pbuf_alloc; `rem` bytes are left when the pool runs out. */
    method Tail(p: nat, rem0: nat, size: nat, junk: seq<Byte>, ghost b0: Bufs, ghost length: nat, ghost h2: nat)
      returns (ok: bool, ghost rem: nat, ghost cs: seq<nat>)
      requires Valid() && 0 < size == |junk| < LIM16 && Building(b0, bufs, rank, p, [p], length, rem0) && h2 !in handles
      modifies this`bufs, this`pool, this`rank
      ensures Valid() && Building(b0, bufs, rank, p, cs, length, rem) && (ok <==> rem == 0)
      ensures ok <==> Pieces(rem0, size) <= |old(pool)|
      ensures ok ==> |cs| == 1 + Pieces(rem0, size)
    {
      var last, left: nat := p, rem0;
      cs := [p];
      while left > 0
        invariant Valid() && Building(b0, bufs, rank, p, cs, length, left) && last == Last(cs)
        invariant |old(pool)| - |pool| + Pieces(left, size) == Pieces(rem0, size) && |cs| == 1 + |old(pool)| - |pool|
        decreases left
      {
        if pool == [] {
          return false, left, cs;
        }
        var q := Next(last, left, size, junk, b0, p, cs, length, h2);
        cs := cs + [q];
        left := left - bufs[q].len;
        last := q;
      }
      return true, 0, cs;
    }

    /** The head of the chain. */
    method First(length: nat, room: nat, junk: seq<Byte>, ghost h: nat) returns (p: nat)
      requires Valid() && length < LIM16 && 0 < room <= |junk| < LIM16 && h !in handles && pool != []
      modifies this
      ensures Valid() && handles == old(handles)[h := p] && pool == old(pool)[1..] && p in bufs
      ensures bufs[p].len == (if length < room then length else room) &&
        Building(old(bufs), bufs, rank, p, [p], length, length - bufs[p].len)
    {
      ghost var (b0, h0, r0) := (bufs, handles, rank);
      p := pool[0];
      assert p in pool;
      var len := if length < room then length else room;
      bufs := bufs[p := Pbuf(NULL, len, length, 1, junk[..room], true)];
      PoolTakes(b0, pool, elems, bufs);
      pool := pool[1..];
      handles := handles[h := p];
      rank := rank[p := 0];
      FirstOk(b0, h0, r0, bufs, handles, rank, p, h, length);
    }

    /** Another pbuf behind `last`. */
    method Next(last: nat, rem: nat, size: nat, junk: seq<Byte>, ghost b0: Bufs, ghost p: nat, ghost cs: seq<nat>,
        ghost length: nat, ghost h2: nat)
      returns (q: nat)
      requires Valid() && pool != [] && 0 < rem && 0 < size == |junk| < LIM16 &&
        Building(b0, bufs, rank, p, cs, length, rem) && last == Last(cs)
      requires h2 !in handles
      modifies this`bufs, this`pool, this`rank
      ensures Valid() && pool == old(pool)[1..] && q in bufs && bufs[q].len == if rem < size then rem else size
      ensures Building(b0, bufs, rank, p, cs + [q], length, rem - bufs[q].len)
    {
      ghost var (b, r0) := (bufs, rank);
      q := pool[0];
      assert q in pool;
      var len := if rem < size then rem else size;
      var pb := Pbuf(NULL, len, rem, 1, junk, true);
      ghost var b', r' := NextAll(b0, b, handles, r0, p, cs, length, rem, q, pb, h2, pool, elems);
      bufs := bufs[last := bufs[last].(next := q)];
      bufs := bufs[q := pb];
      rank := r';
      pool := pool[1..];
    }
  }

  // ---- the limits ----

  lemma {:induction false} AllLone(b: Bufs, cs: seq<nat>)
    requires forall x {:trigger x in cs} :: x in cs ==> x in b && b[x].ref == 1
    ensures Lone(b, cs) == |cs|
  {
    if cs != [] {
      assert cs[0] in cs && forall x :: x in cs[1..] ==> x in cs;
      AllLone(b, cs[1..]);
    }
  }

  /** Pbufs 0 to `n`, each linked to the one below. */
  ghost predicate IsLong(b: Bufs, rank: Rank, n: nat) {
    && (forall x: nat {:trigger x in b} :: x in b <==> x <= n)
    && forall x {:trigger b[x]} :: x in b ==> b[x] == Pbuf(x - 1, 0, 0, 1, [], false) && x in rank && rank[x] == x
  }

  lemma LongSound(b: Bufs, rank: Rank, n: nat)
    requires IsLong(b, rank, n)
    ensures LinksOk(b) && RankOk(b, rank) && LensOk(b)
  {
  }

  lemma LongFirst(b: Bufs, hs: Handles)
    requires b == map[0 := Pbuf(NULL, 0, 0, 1, [], false)] && hs == map[0 := 0]
    ensures RefsOk(b, hs)
  {
    var none: Bufs := map[];
    assert Slots(none, map[]) == map[];
    NewOk(none, map[], b, hs, 0, 0);
  }

  /** One more on top: a new pbuf with a handle, which takes over the other handle as its link. */
  lemma LongMore(b0: Bufs, h0: Handles, rank: Rank, b: Bufs, hs: Handles, n: nat)
    requires PbufOk(b0, h0, rank) && n > 0 && h0 == map[n - 1 := n - 1] && n !in b0 && n - 1 in b0
    requires b == b0[n := Pbuf(n - 1, 0, 0, 1, [], false)] && hs == map[n := n]
    ensures RefsOk(b, hs)
  {
    var b1, h1 := b0[n := Pbuf(NULL, 0, 0, 1, [], false)], h0[n := n];
    NewOk(b0, h0, b1, h1, n, n);
    AttachOk(b1, h1, b, n, n - 1);
    assert h1 - {n - 1} == hs;
  }

  lemma {:induction false} LongChain(n: nat) returns (b: Bufs, hs: Handles, rank: Rank)
    ensures PbufOk(b, hs, rank) && LensOk(b) && hs == map[n := n] && IsLong(b, rank, n)
  {
    if n == 0 {
      b, hs, rank := map[0 := Pbuf(NULL, 0, 0, 1, [], false)], map[0 := 0], map[0 := 0];
      LongFirst(b, hs);
    } else {
      var b0, h0, r0 := LongChain(n - 1);
      b, hs, rank := b0[n := Pbuf(n - 1, 0, 0, 1, [], false)], map[n := n], r0[n := n];
      assert n !in b0;
      LongMore(b0, h0, r0, b, hs, n);
    }
    LongSound(b, rank, n);
  }

  lemma {:induction false} LongLength(b: Bufs, rank: Rank, n: nat)
    requires Sound(b, rank) && n in b && forall x {:trigger b[x]} :: x in b ==> b[x].next == x - 1
    ensures |Chain(b, rank, n)| == n + 1
  {
    BytesCons(b, rank, n);
    var m := b[n].next;
    if n > 0 { LongLength(b, rank, n - 1); }
  }

  /**
   * Taking the head off a chain frees the other n pbufs, if nobody else refers to them. If n is a multiple of 256, such
   * as 256 itself, the 8-bit count is 0 and pbuf_dechain returns the first of them, which is no longer in use.
   */
  lemma DechainDangles(n: nat) returns (b: Bufs, hs: Handles, rank: Rank, b1: Bufs)
    requires n > 0
    ensures PbufOk(b, hs, rank) && LensOk(b) && Dechained(b, b1, n, n - 1)
    ensures Pool.Gone(b, rank, n) == n == FreedBy(b1, n - 1) && n - 1 !in FreeFrom(b1, n - 1)
  {
    b, hs, rank := LongChain(n);
    b1 := b[n - 1 := b[n - 1].(totLen := Sub16(b[n].totLen, b[n].len))];
    b1 := b1[n := b1[n].(next := NULL, totLen := b1[n].len)];
    DechainedIs(b, n, n - 1, b1);
    LongLength(b, rank, n - 1);
    ChainFalls(b, rank, n - 1);
    AllLone(b, Chain(b, rank, n - 1));
    DechainLone(b, b1, rank, n, n - 1);
    FreedZero(b1, n - 1);
  }

  /** A pbuf that `n` handles refer to. */
  lemma {:induction false} ManyHandles(n: nat) returns (b: Bufs, hs: Handles)
    requires 0 < n < LIM16
    ensures PbufOk(b, hs, map[0 := 0]) && LensOk(b) && 0 in b && b[0].ref == n && forall h :: h in hs ==> h < n
  {
    if n == 1 {
      var none: Bufs := map[];
      b, hs := map[0 := Pbuf(NULL, 0, 0, 1, [], false)], map[0 := 0];
      assert Slots(none, map[]) == map[];
      NewOk(none, map[], b, hs, 0, 0);
    } else {
      var b0, h0 := ManyHandles(n - 1);
      b, hs := b0[0 := b0[0].(ref := n)], h0[n - 1 := 0];
      RefPbuf(b0, h0, b, hs, map[0 := 0], 0, n - 1);
    }
  }

  /** With 65535 references one more makes the count 0, and the pbuf looks unused. */
  lemma RefWraps() returns (b: Bufs, hs: Handles, b': Bufs, hs': Handles)
    ensures PbufOk(b, hs, map[0 := 0]) && NewHandle(hs, hs', 65535, 0) && Recounted(b, b', 0)
    ensures b'[0].ref == 0 && hs'[65535] == 0 && !RefsOk(b', hs')
  {
    b, hs := ManyHandles(65535);
    b', hs' := b[0 := b[0].(ref := 0)], hs[65535 := 0];
    RefOk(b, hs, b', hs', 0, 65535);
  }
}
