/** lwIP packet buffers: reference-counted chains, who refers to whom, and what pbuf_free leaves. */
module PbufModel {
  import opened Counting

  newtype Byte = x: int | 0 <= x < 256

  const NULL: int := -1
  const LIM16: nat := 65536

  /** `data` is the payload memory, of which the first `len` bytes count. */
  datatype Pbuf = Pbuf(next: int, len: nat, totLen: nat, ref: nat, data: seq<Byte>, pooled: bool)

  type Bufs = map<nat, Pbuf>
  /** The references held outside: each token names the pbuf it refers to. */
  type Handles = map<nat, nat>
  /** A measure that falls along every chain. */
  type Rank = map<nat, nat>

  datatype Slot = Handle(h: nat) | Link(q: nat)

  ghost predicate LinksOk(b: Bufs) {
    forall q {:trigger b[q]} :: q in b ==> b[q].next == NULL || (b[q].next >= 0 && b[q].next in b)
  }

  ghost predicate HandlesOk(b: Bufs, hs: Handles) {
    forall h {:trigger hs[h]} :: h in hs ==> hs[h] in b
  }

  ghost predicate RankOk(b: Bufs, rank: Rank) {
    forall q {:trigger b[q]} ::
      q in b ==> q in rank && (b[q].next in rank && b[q].next >= 0 ==> rank[b[q].next] < rank[q])
  }

  ghost function At(b: Bufs, hs: Handles, x: Slot): int {
    match x
    case Handle(h) => if h in hs then hs[h] else NULL
    case Link(q) => if q in b then b[q].next else NULL
  }

  ghost function Slots(b: Bufs, hs: Handles): map<Slot, nat> {
    var keys := (set h | h in hs :: Handle(h)) + (set q | q in b :: Link(q));
    map x | x in keys && At(b, hs, x) >= 0 :: At(b, hs, x)
  }

  lemma SlotsAt(b: Bufs, hs: Handles, x: Slot)
    ensures x in Slots(b, hs) <==> At(b, hs, x) >= 0
    ensures x in Slots(b, hs) ==> Slots(b, hs)[x] == At(b, hs, x)
  {
  }

  /** Every count is the number of references, and none is zero. */
  ghost predicate RefsOk(b: Bufs, hs: Handles) {
    Counted(b, Slots(b, hs))
  }

  ghost predicate Counted(b: Bufs, m: map<Slot, nat>) {
    InRange(b) && forall p: nat {:trigger Count(m, p)} :: p in b ==> b[p].ref == Count(m, p)
  }

  ghost predicate InRange(b: Bufs) {
    forall p {:trigger b[p]} :: p in b ==> 0 < b[p].ref < LIM16
  }

  /** A reference that changes its holder. */
  lemma CountedMove(b: Bufs, b': Bufs, m: map<Slot, nat>, k: Slot, k': Slot)
    requires Counted(b, m) && k in m && k' !in m && b'.Keys <= b.Keys && forall p :: p in b' ==> b'[p].ref == b[p].ref
    ensures Counted(b', (m - {k})[k' := m[k]])
  {
    forall p | p in b' ensures b'[p].ref == Count((m - {k})[k' := m[k]], p) && 0 < b'[p].ref < LIM16 {
      CountRemove(m, k, p);
      CountAdd(m - {k}, k', m[k], p);
      assert b[p].ref == Count(m, p);
    }
  }

  /** A new reference. */
  lemma CountedAdd(b: Bufs, b': Bufs, m: map<Slot, nat>, k: Slot, p: nat)
    requires Counted(b, m) && k !in m && p in b && b'.Keys == b.Keys && forall x ::
      x in b && x != p ==> b'[x].ref == b[x].ref
    ensures Counted(b', m[k := p]) <==> b'[p].ref == b[p].ref + 1 < LIM16
  {
    forall x | x in b ensures Count(m[k := p], x) == b[x].ref + (if x == p then 1 else 0) && 0 < b[x].ref < LIM16 {
      CountAdd(m, k, p, x);
      assert b[x].ref == Count(m, x);
    }
    if Counted(b', m[k := p]) { assert b'[p].ref == Count(m[k := p], p); }
  }

  /** A new object with one reference. */
  lemma CountedNew(b: Bufs, b': Bufs, m: map<Slot, nat>, k: Slot, x: nat)
    requires Counted(b, m) && k !in m && x !in b && (forall j :: j in m ==> m[j] != x) && b'.Keys == b.Keys + {x} &&
      b'[x].ref == 1
    requires forall p :: p in b ==> b'[p].ref == b[p].ref
    ensures Counted(b', m[k := x])
  {
    CountZero(m, x);
    forall p | p in b' ensures b'[p].ref == Count(m[k := x], p) && 0 < b'[p].ref < LIM16 {
      CountAdd(m, k, x, p);
      if p != x { assert b[p].ref == Count(m, p); }
    }
  }

  ghost predicate PbufOk(b: Bufs, hs: Handles, rank: Rank) {
    LinksOk(b) && HandlesOk(b, hs) && RankOk(b, rank) && RefsOk(b, hs)
  }

  // ---- live means reachable ----

  /** A path along next links from something a handle names. */
  ghost predicate Path(b: Bufs, hs: Handles, path: seq<nat>) {
    && path != [] && path[0] in hs.Values && (forall i {:trigger path[i]} :: 0 <= i < |path| ==> path[i] in b)
    && (forall i, j {:trigger path[i], path[j]} ::
      0 <= i && j == i + 1 < |path| ==> path[i] in b && b[path[i]].next == path[j])
  }

  ghost predicate Reachable(b: Bufs, hs: Handles, p: nat) {
    exists path {:trigger Path(b, hs, path)} :: Path(b, hs, path) && path[|path| - 1] == p
  }

  /** Nothing leaks: every pbuf in use can be reached from a handle. */
  lemma {:induction false} LiveReachable(b: Bufs, hs: Handles, rank: Rank, p: nat, top: nat)
    requires PbufOk(b, hs, rank) && p in b && rank[p] <= top && forall q :: q in b ==> rank[q] <= top
    ensures Reachable(b, hs, p)
    decreases top - rank[p]
  {
    assert b[p].ref == Count(Slots(b, hs), p);
    CountZero(Slots(b, hs), p);
    var x :| x in Slots(b, hs) && Slots(b, hs)[x] == p;
    SlotsAt(b, hs, x);
    if x.Handle? {
      assert hs[x.h] == p;
      assert Path(b, hs, [p]);
    } else {
      assert b[x.q].next == p;
      LiveReachable(b, hs, rank, x.q, top);
      var path :| Path(b, hs, path) && path[|path| - 1] == x.q;
      PathOn(b, hs, path, p);
      assert Path(b, hs, path + [p]);
    }
  }

  lemma PathOn(b: Bufs, hs: Handles, path: seq<nat>, p: nat)
    requires Path(b, hs, path) && p in b && b[path[|path| - 1]].next == p
    ensures Path(b, hs, path + [p])
  {
    var longer := path + [p];
    assert forall i :: 0 <= i < |path| ==> longer[i] == path[i];
  }

  // ---- one reference dropped ----

  /** Slots that differ in `x` only. */
  lemma SlotsPut(b: Bufs, hs: Handles, b': Bufs, hs': Handles, x: Slot)
    requires forall y :: y != x ==> At(b', hs', y) == At(b, hs, y)
    ensures var v := At(b', hs', x); Slots(b', hs') == if v >= 0 then Slots(b, hs)[x := v] else Slots(b, hs) - {x}
  {
    var (m, m', v) := (Slots(b, hs), Slots(b', hs'), At(b', hs', x));
    var n := if v >= 0 then m[x := v] else m - {x};
    forall y ensures y in m' <==> y in n {
      SlotsAt(b, hs, y);
      SlotsAt(b', hs', y);
    }
    forall y | y in m' ensures m'[y] == n[y] {
      SlotsAt(b, hs, y);
      SlotsAt(b', hs', y);
    }
  }

  /** A pbuf somebody else still refers to. */
  lemma DropRef(b: Bufs, hs: Handles, rank: Rank, h: nat)
    requires PbufOk(b, hs, rank) && h in hs && b[hs[h]].ref > 1
    ensures var p := hs[h]; PbufOk(b[p := b[p].(ref := b[p].ref - 1)], hs - {h}, rank)
  {
    var p := hs[h];
    var b' := b[p := b[p].(ref := b[p].ref - 1)];
    assert RefsOk(b', hs - {h}) by { DropRefCounts(b, hs, h); }
    assert HandlesOk(b', hs - {h});
    assert LinksOk(b') && RankOk(b', rank) by { SameLinks(b, b', rank); }
  }

  lemma SameLinks(b: Bufs, b': Bufs, rank: Rank)
    requires LinksOk(b) && RankOk(b, rank) && b'.Keys == b.Keys && forall q :: q in b ==> b'[q].next == b[q].next
    ensures LinksOk(b') && RankOk(b', rank)
  {
  }

  lemma DropRefCounts(b: Bufs, hs: Handles, h: nat)
    requires RefsOk(b, hs) && h in hs && hs[h] in b && b[hs[h]].ref > 1
    ensures var p := hs[h]; RefsOk(b[p := b[p].(ref := b[p].ref - 1)], hs - {h})
  {
    var p := hs[h];
    var b' := b[p := b[p].(ref := b[p].ref - 1)];
    SlotsAt(b, hs, Handle(h));
    SlotsPut(b, hs, b', hs - {h}, Handle(h));
    var (m, m') := (Slots(b, hs), Slots(b', hs - {h}));
    assert m' == m - {Handle(h)};
    assert Counted(b', m') by {
      forall v | v in b' ensures b'[v].ref == Count(m', v) && 0 < b'[v].ref < LIM16 {
        CountRemove(m, Handle(h), v);
        assert b[v].ref == Count(m, v);
      }
    }
  }

  /** What is left of the token once its pbuf is gone: it now stands for the next one. */
  ghost function Moved(hs: Handles, h: nat, next: int): Handles {
    if next < 0 then hs - {h} else hs[h := next]
  }

  /** The last reference: the pbuf goes and its own reference to the next one is passed on. */
  lemma FreeOne(b: Bufs, hs: Handles, rank: Rank, h: nat)
    requires PbufOk(b, hs, rank) && h in hs && b[hs[h]].ref == 1
    ensures var p := hs[h]; PbufOk(b - {p}, Moved(hs, h, b[p].next), rank)
  {
    var p := hs[h];
    var b' := b - {p};
    var hs' := Moved(hs, h, b[p].next);
    SoleReference(b, hs, h);
    FreeOneCounts(b, hs, h);
    assert RefsOk(b', hs') by {
      forall v | v in b' ensures b'[v].ref == Count(Slots(b', hs'), v) && 0 < b'[v].ref < LIM16 {
        assert b[v].ref == Count(Slots(b, hs), v);
      }
    }
    assert LinksOk(b') by {
      forall q | q in b' ensures b'[q].next == NULL || (b'[q].next >= 0 && b'[q].next in b') { assert b[q].next != p; }
    }
    assert HandlesOk(b', hs') by {
      forall k | k in hs' ensures hs'[k] in b' {
        if k == h { assert b[p].next != p by { assert p in rank; } } else { assert hs[k] != p; }
      }
    }
  }

  /** With a count of one, the token is the only reference. */
  lemma SoleReference(b: Bufs, hs: Handles, h: nat)
    requires LinksOk(b) && RefsOk(b, hs) && h in hs && hs[h] in b && b[hs[h]].ref == 1
    ensures forall q :: q in b ==> b[q].next != hs[h]
    ensures forall k :: k in hs && k != h ==> hs[k] != hs[h]
  {
    var p := hs[h];
    var m := Slots(b, hs);
    SlotsAt(b, hs, Handle(h));
    assert Count(m, p) == 1 by { assert b[p].ref == 1; }
    CountRemove(m, Handle(h), p);
    CountZero(m - {Handle(h)}, p);
    var m' := m - {Handle(h)};
    forall q | q in b ensures b[q].next != p {
      SlotsAt(b, hs, Link(q));
      assert b[q].next >= 0 ==> Link(q) in m' && m'[Link(q)] == b[q].next;
    }
    forall k | k in hs && k != h ensures hs[k] != p {
      SlotsAt(b, hs, Handle(k));
      assert Handle(k) in m' && m'[Handle(k)] == hs[k];
    }
  }

  lemma FreeOneCounts(b: Bufs, hs: Handles, h: nat)
    requires LinksOk(b) && h in hs && hs[h] in b
    ensures var p := hs[h];
      forall v: nat :: v != p ==> Count(Slots(b - {p}, Moved(hs, h, b[p].next)), v) == Count(Slots(b, hs), v)
  {
    var p := hs[h];
    var n := b[p].next;
    var (b', m) := (b - {p}, Slots(b, hs));
    SlotsAt(b, hs, Handle(h));
    SlotsAt(b, hs, Link(p));
    SlotsPut(b, hs, b, hs - {h}, Handle(h));
    var m1 := m - {Handle(h)};
    SlotsPut(b, hs - {h}, b', hs - {h}, Link(p));
    var m2 := m1 - {Link(p)};
    if n >= 0 { SlotsPut(b', hs - {h}, b', hs[h := n], Handle(h)); }
    forall v: nat | v != p ensures Count(Slots(b', Moved(hs, h, n)), v) == Count(m, v) {
      CountRemove(m, Handle(h), v);
      if n >= 0 {
        CountRemove(m1, Link(p), v);
        CountAdd(m2, Handle(h), n, v);
      } else {
        assert m2 == m1;
      }
    }
  }

  // ---- pbuf_free ----

  /** The loop of pbuf_free from `p`. */
  ghost function FreeFrom(b: Bufs, p: int): Bufs
    decreases |b|
  {
    if p < 0 || p !in b then b
    else if b[p].ref == 1 then FreeFrom(b - {p}, b[p].next)
    else b[p := b[p].(ref := if b[p].ref == 0 then LIM16 - 1 else b[p].ref - 1)]
  }

  /** How many pbufs it gives back. */
  ghost function FreedBy(b: Bufs, p: int): nat
    decreases |b|
  {
    if p >= 0 && p in b && b[p].ref == 1 then 1 + FreedBy(b - {p}, b[p].next) else 0
  }

  /** `b'` is `b` without some pbufs; those left differ only in their counts. */
  ghost predicate Kept(b: Bufs, b': Bufs) {
    forall x {:trigger b'[x]} :: x in b' ==> x in b && b'[x] == b[x].(ref := b'[x].ref) && b'[x].ref <= b[x].ref
  }

  ghost predicate Positive(b: Bufs) {
    forall x {:trigger b[x]} :: x in b ==> b[x].ref > 0
  }

  lemma {:induction false} FreeKept(b: Bufs, p: int)
    requires Positive(b)
    ensures Kept(b, FreeFrom(b, p))
    decreases |b|
  {
    if p >= 0 && p in b && b[p].ref == 1 {
      FreeKept(b - {p}, b[p].next);
      KeptLess(b, p, FreeFrom(b - {p}, b[p].next));
    }
  }

  lemma KeptLess(b: Bufs, p: nat, b': Bufs)
    requires Kept(b - {p}, b')
    ensures Kept(b, b')
  {
  }

  /** The cases of the walk. */
  lemma FreeFromStep(b: Bufs, p: nat)
    requires p in b && b[p].ref > 0
    ensures FreeFrom(b, p) == if b[p].ref == 1 then FreeFrom(b - {p}, b[p].next) else b[p := b[p].(ref := b[p].ref - 1)]
    ensures b[p].next < 0 ==> FreeFrom(b - {p}, b[p].next) == b - {p}
  {
  }

  /** Giving up a handle keeps everything in order: what goes is exactly what nothing refers to any more. */
  lemma {:induction false} FreeOk(b: Bufs, hs: Handles, rank: Rank, h: nat, left: nat)
    requires PbufOk(b, hs, rank) && h in hs && hs[h] in rank && rank[hs[h]] <= left
    ensures PbufOk(FreeFrom(b, hs[h]), hs - {h}, rank)
    decreases left
  {
    var p := hs[h];
    var n := TokenFacts(b, hs, rank, h);
    FreeFromStep(b, p);
    if b[p].ref > 1 {
      DropRef(b, hs, rank, h);
    } else {
      FreeOne(b, hs, rank, h);
      MovedIs(hs, h, n);
      if n >= 0 { FreeOk(b - {p}, Moved(hs, h, n), rank, h, left - 1); }
    }
  }

  lemma MovedIs(hs: Handles, h: nat, n: int)
    requires h in hs
    ensures n >= 0 ==> h in Moved(hs, h, n) && Moved(hs, h, n)[h] == n && Moved(hs, h, n) - {h} == hs - {h}
    ensures n < 0 ==> Moved(hs, h, n) == hs - {h}
  {
  }

  lemma TokenFacts(b: Bufs, hs: Handles, rank: Rank, h: nat) returns (n: int)
    requires PbufOk(b, hs, rank) && h in hs
    ensures hs[h] in b && 0 < b[hs[h]].ref && n == b[hs[h]].next && n >= -1
    ensures hs[h] in rank && (n >= 0 ==> n in rank && rank[n] < rank[hs[h]])
  {
    var p := hs[h];
    n := b[p].next;
    if n >= 0 { assert n in b; }
  }

  lemma {:induction false} PathKept(b: Bufs, hs: Handles, b': Bufs, path: seq<nat>)
    requires Path(b, hs, path) && LinksOk(b') && HandlesOk(b', hs) && Kept(b, b')
    ensures path[|path| - 1] in b'
    decreases |path|
  {
    var n := |path| - 1;
    if n == 0 {
      var h :| h in hs && hs[h] == path[0];
    } else {
      var most := path[..n];
      assert forall i {:trigger most[i]} :: 0 <= i < n ==> most[i] == path[i];
      PathKept(b, hs, b', most);
      var q := path[n - 1];
      assert b[q].next == path[n] && b'[q].next == b[q].next;
    }
  }

  lemma {:induction false} Topmost(b: Bufs, rank: Rank, xs: set<nat>) returns (top: nat)
    requires RankOk(b, rank) && xs <= b.Keys
    ensures forall q :: q in xs ==> q in rank && rank[q] <= top
  {
    top := 0;
    if xs != {} {
      var x :| x in xs;
      var e := b[x];
      var rest := Topmost(b, rank, xs - {x});
      top := if rank[x] > rest then rank[x] else rest;
    }
  }

  /** Giving up a handle frees a pbuf if and only if no other handle leads to it. */
  lemma FreedExactly(b: Bufs, hs: Handles, rank: Rank, h: nat, x: nat)
    requires PbufOk(b, hs, rank) && h in hs && hs[h] in rank && x in b
    ensures x in FreeFrom(b, hs[h]) <==> Reachable(b, hs - {h}, x)
  {
    var b' := FreeFrom(b, hs[h]);
    FreeOk(b, hs, rank, h, rank[hs[h]]);
    FreeKept(b, hs[h]);
    if x in b' {
      var top := Topmost(b', rank, b'.Keys);
      LiveReachable(b', hs - {h}, rank, x, top);
      var path :| Path(b', hs - {h}, path) && path[|path| - 1] == x;
      assert Path(b, hs - {h}, path);
    }
    if Reachable(b, hs - {h}, x) {
      var path :| Path(b, hs - {h}, path) && path[|path| - 1] == x;
      PathKept(b, hs - {h}, b', path);
    }
  }
}
