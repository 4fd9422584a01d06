/**
 * Packet buffer chains as byte sequences: what concatenating, cutting and splitting do to bytes, lengths and counts.
 */
module PbufData {
  import opened Counting
  import opened PbufModel

  ghost predicate LensOk(b: Bufs) {
    forall p {:trigger b[p]} :: p in b ==> b[p].len <= |b[p].data| && b[p].len < LIM16
  }

  /** Chains end, and lengths stay within their buffers. */
  ghost predicate Sound(b: Bufs, rank: Rank) {
    LinksOk(b) && RankOk(b, rank) && LensOk(b)
  }

  ghost predicate IsPtr(b: Bufs, p: int) {
    p == NULL || (p >= 0 && p in b)
  }

  ghost function Height(rank: Rank, p: int): nat {
    if p >= 0 && p in rank then rank[p] + 1 else 0
  }

  /** The pbufs of a chain, in order. */
  ghost function Chain(b: Bufs, rank: Rank, p: int): seq<nat>
    requires Sound(b, rank) && IsPtr(b, p)
    decreases Height(rank, p)
  {
    if p < 0 then [] else var n := b[p].next; [p] + Chain(b, rank, n)
  }

  /** The bytes of a chain. */
  ghost function Bytes(b: Bufs, rank: Rank, p: int): seq<Byte>
    requires Sound(b, rank) && IsPtr(b, p)
    decreases Height(rank, p)
  {
    if p < 0 then [] else var n := b[p].next; b[p].data[..b[p].len] + Bytes(b, rank, n)
  }

  ghost function TotOf(b: Bufs, p: int): nat {
    if p >= 0 && p in b then b[p].totLen else 0
  }

  /** tot_len is the length of the pbuf and of everything behind it. */
  ghost predicate TotOk(b: Bufs) {
    forall p {:trigger b[p]} :: p in b ==> b[p].totLen == b[p].len + TotOf(b, b[p].next) < LIM16
  }

  lemma {:induction false} TotIsLength(b: Bufs, rank: Rank, p: int)
    requires Sound(b, rank) && TotOk(b) && IsPtr(b, p)
    ensures TotOf(b, p) == |Bytes(b, rank, p)|
    decreases Height(rank, p)
  {
    if p >= 0 { TotIsLength(b, rank, b[p].next); }
  }

  /** Along a chain the measure falls, so no pbuf occurs twice. */
  lemma {:induction false} ChainFalls(b: Bufs, rank: Rank, p: int)
    requires Sound(b, rank) && IsPtr(b, p)
    ensures forall x {:trigger x in Chain(b, rank, p)} ::
      x in Chain(b, rank, p) ==> x in b && x in rank && rank[x] < Height(rank, p)
    decreases Height(rank, p)
  {
    if p >= 0 {
      var n := b[p].next;
      ChainFalls(b, rank, n);
      assert Chain(b, rank, p) == [p] + Chain(b, rank, n);
    }
  }

  /** `b'` has the chain from `p` as `b` has it. */
  ghost predicate SameAlong(b: Bufs, b': Bufs, cs: seq<nat>) {
    forall x {:trigger x in cs} ::
      x in cs ==> x in b && x in b' && b'[x].next == b[x].next && b'[x].len == b[x].len && b'[x].data == b[x].data
  }

  lemma {:induction false} SameChain(b: Bufs, rank: Rank, b': Bufs, rank': Rank, p: int)
    requires Sound(b, rank) && Sound(b', rank') && IsPtr(b, p) && IsPtr(b', p) && SameAlong(b, b', Chain(b, rank, p))
    ensures Chain(b', rank', p) == Chain(b, rank, p) && Bytes(b', rank', p) == Bytes(b, rank, p)
    decreases Height(rank, p)
  {
    if p >= 0 {
      var n := b[p].next;
      assert Chain(b, rank, p) == [p] + Chain(b, rank, n);
      assert p in Chain(b, rank, p) && b'[p].next == n;
      assert forall x :: x in Chain(b, rank, n) ==> x in Chain(b, rank, p);
      SameChain(b, rank, b', rank', n);
    }
  }

  lemma {:induction false} SameNexts(b: Bufs, b': Bufs, rank: Rank, p: int)
    requires Sound(b, rank) && Sound(b', rank) && b'.Keys == b.Keys && IsPtr(b, p) && forall x ::
      x in b ==> b'[x].next == b[x].next
    ensures Chain(b', rank, p) == Chain(b, rank, p)
    decreases Height(rank, p)
  {
    if p >= 0 {
      BytesCons(b, rank, p);
      BytesCons(b', rank, p);
      SameNexts(b, b', rank, b[p].next);
    }
  }

  /** What follows an element of a chain is on the chain. */
  lemma {:induction false} SubChain(b: Bufs, rank: Rank, p: nat, x: int)
    requires Sound(b, rank) && p in b && IsPtr(b, x) && (x >= 0 ==> x in Chain(b, rank, p))
    ensures forall y {:trigger y in Chain(b, rank, x)} :: y in Chain(b, rank, x) ==> y in Chain(b, rank, p)
    decreases Height(rank, x)
  {
    if x >= 0 {
      ChainNext(b, rank, p, x);
      SubChain(b, rank, p, b[x].next);
      BytesCons(b, rank, x);
    }
  }

  // ---- concatenation ----

  function Add16(a: nat, b: nat): nat {
    (a + b) % 65536
  }

  /** The first `n` pbufs of the chain `cs` have `t` added to their totals. */
  ghost predicate Added(b: Bufs, b': Bufs, cs: seq<nat>, n: nat, t: nat) {
    && n <= |cs| && b'.Keys == b.Keys
    && forall x {:trigger b'[x]} :: x in b ==> b'[x] == if x in cs[..n] then b[x].(totLen := Add16(b[x].totLen, t))
      else b[x]
  }

  ghost function Last(cs: seq<nat>): nat
    requires cs != []
  {
    cs[|cs| - 1]
  }

  /** What pbuf_cat of the chain `cs` with `t` makes of pbuf `x`. */
  ghost function CatBuf(b: Bufs, cs: seq<nat>, t: nat, x: nat): Pbuf
    requires x in b && cs != []
  {
    b[x].(totLen := if x in cs then Add16(b[x].totLen, TotOf(b, t)) else b[x].totLen, next := if x == Last(cs) then t
      else b[x].next)
  }

  ghost predicate IsCat(b: Bufs, b': Bufs, cs: seq<nat>, t: nat) {
    cs != [] && Last(cs) in b && b'.Keys == b.Keys && forall x {:trigger b'[x]} ::
      x in b ==> b'[x] == CatBuf(b, cs, t, x)
  }

  /** Everything outside the tail is raised above it. */
  ghost predicate Raised(rank: Rank, rank': Rank, tail: seq<nat>, k: nat) {
    rank'.Keys == rank.Keys && forall x {:trigger rank'[x]} :: x in rank ==> rank'[x] == if x in tail then rank[x]
      else rank[x] + k
  }

  lemma {:induction false} ChainEnds(b: Bufs, rank: Rank, p: int)
    requires Sound(b, rank) && p >= 0 && p in b
    ensures var cs := Chain(b, rank, p); cs != [] && cs[0] == p && Last(cs) in b && b[Last(cs)].next == NULL
    ensures var cs := Chain(b, rank, p);
      forall x :: x in cs && x != Last(cs) ==> x in b && b[x].next >= 0 && b[x].next in cs
    decreases Height(rank, p)
  {
    var n := b[p].next;
    assert Chain(b, rank, p) == [p] + Chain(b, rank, n);
    if n >= 0 {
      ChainEnds(b, rank, n);
      var cs := Chain(b, rank, n);
      assert Last(Chain(b, rank, p)) == Last(cs);
      assert n in cs;
      ChainFalls(b, rank, n);
    }
  }

  /** A chain is closed under next. */
  lemma ChainNext(b: Bufs, rank: Rank, t: nat, x: nat)
    requires Sound(b, rank) && t in b && x in Chain(b, rank, t)
    ensures x in b && (b[x].next >= 0 ==> b[x].next in Chain(b, rank, t))
  {
    ChainFalls(b, rank, t);
    ChainEnds(b, rank, t);
  }

  /** `b'` is what pbuf_cat(h, t) makes of `b`, and `rank'` a measure of its chains. */
  ghost predicate Catted(b: Bufs, rank: Rank, b': Bufs, rank': Rank, h: nat, t: nat) {
    && Sound(b, rank) && h in b && t in b && t in rank
    && IsCat(b, b', Chain(b, rank, h), t) && Raised(rank, rank', Chain(b, rank, t), rank[t] + 1)
  }

  /** The two chains do not run into each other. */
  ghost predicate Separate(b: Bufs, rank: Rank, h: nat, t: nat) {
    Sound(b, rank) && h in b && t in b && forall x {:trigger x in Chain(b, rank, h)} ::
      x in Chain(b, rank, h) ==> x !in Chain(b, rank, t)
  }

  lemma CatSound(b: Bufs, rank: Rank, b': Bufs, rank': Rank, h: nat, t: nat)
    requires Separate(b, rank, h, t) && Catted(b, rank, b', rank', h, t)
    ensures Sound(b', rank')
  {
    var (cs, tail) := (Chain(b, rank, h), Chain(b, rank, t));
    ChainEnds(b, rank, h);
    ChainEnds(b, rank, t);
    ChainFalls(b, rank, t);
    assert Last(cs) in cs && t in tail;
    forall q | q in b' ensures
      && (b'[q].next == NULL || (b'[q].next >= 0 && b'[q].next in b')) && b'[q].len <= |b'[q].data| && b'[q].len < LIM16
      && q in rank' && (b'[q].next in rank' && b'[q].next >= 0 ==> rank'[b'[q].next] < rank'[q])
    {
      var x := b[q];
      assert b'[q] == CatBuf(b, cs, t, q);
      if q in tail { ChainNext(b, rank, t, q); }
      if q != Last(cs) && x.next >= 0 && x.next in tail { assert rank[x.next] < rank[t] + 1; }
    }
  }

  lemma BytesCons(b: Bufs, rank: Rank, p: nat)
    requires Sound(b, rank) && p in b
    ensures IsPtr(b, b[p].next) && Bytes(b, rank, p) == b[p].data[..b[p].len] + Bytes(b, rank, b[p].next)
    ensures Chain(b, rank, p) == [p] + Chain(b, rank, b[p].next)
    ensures b[p].next >= 0 ==> b[p].next in rank && p in rank && rank[b[p].next] < rank[p]
  {
  }

  /** The chain `cs` of `b` is continued by `t` in `b'`. */
  ghost predicate Continued(b: Bufs, b': Bufs, cs: seq<nat>, t: nat) {
    && cs != [] && Last(cs) in b && b[Last(cs)].next == NULL
    && (forall x {:trigger x in cs} ::
      x in cs ==> x in b && x in b' && b'[x].len == b[x].len && b'[x].data == b[x].data)
    && (forall x {:trigger x in cs} :: x in cs && x in b && x in b' ==> b'[x].next == if x == Last(cs) then t
      else b[x].next)
    && (forall x {:trigger x in cs} :: x in cs && x in b && x != Last(cs) ==> b[x].next >= 0 && b[x].next in cs)
  }

  /** cat: the tail's bytes follow the head's. */
  lemma {:induction false} CatBytes(b: Bufs, rank: Rank, b': Bufs, rank': Rank, cs: seq<nat>, t: nat, p: nat)
    requires Sound(b, rank) && Sound(b', rank') && Continued(b, b', cs, t) && p in cs && p in b && p in b' && t in b'
    ensures Bytes(b', rank', p) == Bytes(b, rank, p) + Bytes(b', rank', t)
    decreases Height(rank, p)
  {
    BytesCons(b, rank, p);
    BytesCons(b', rank', p);
    if p != Last(cs) { CatBytes(b, rank, b', rank', cs, t, b[p].next); }
  }

  lemma CatContinued(b: Bufs, rank: Rank, b': Bufs, h: nat, t: nat)
    requires Sound(b, rank) && h in b && t in b && IsCat(b, b', Chain(b, rank, h), t)
    ensures Continued(b, b', Chain(b, rank, h), t)
  {
    ChainEnds(b, rank, h);
    ChainFalls(b, rank, h);
    var cs := Chain(b, rank, h);
    forall x | x in cs ensures x in b && x in b' && b'[x] == CatBuf(b, cs, t, x) { }
  }

  lemma CatTail(b: Bufs, rank: Rank, b': Bufs, rank': Rank, h: nat, t: nat)
    requires Separate(b, rank, h, t) && Catted(b, rank, b', rank', h, t) && Sound(b', rank')
    ensures t in b' && Bytes(b', rank', t) == Bytes(b, rank, t)
  {
    var (cs, tail) := (Chain(b, rank, h), Chain(b, rank, t));
    ChainEnds(b, rank, h);
    ChainFalls(b, rank, t);
    assert Last(cs) in cs;
    assert SameAlong(b, b', tail) by {
      forall x | x in tail ensures x in b && x in b' && b'[x].next == b[x].next && b'[x].len == b[x].len &&
        b'[x].data == b[x].data {
        assert b'[x] == CatBuf(b, cs, t, x);
      }
    }
    SameChain(b, rank, b', rank', t);
  }

  /** cat refines concatenation of byte sequences. */
  lemma CatConcatenates(b: Bufs, rank: Rank, b': Bufs, rank': Rank, h: nat, t: nat)
    requires Separate(b, rank, h, t) && Catted(b, rank, b', rank', h, t)
    ensures Sound(b', rank') && h in b' && Bytes(b', rank', h) == Bytes(b, rank, h) + Bytes(b, rank, t)
  {
    CatSound(b, rank, b', rank', h, t);
    CatTail(b, rank, b', rank', h, t);
    ChainEnds(b, rank, h);
    CatContinued(b, rank, b', h, t);
    CatBytes(b, rank, b', rank', Chain(b, rank, h), t, h);
  }

  /** No link from outside leads into the chain. */
  ghost predicate Unshared(b: Bufs, cs: seq<nat>) {
    forall q {:trigger b[q]} :: q in b && b[q].next >= 0 && b[q].next in cs ==> q in cs
  }

  /** The totals stay right exactly if the sum fits in 16 bits. */
  lemma CatTotals(b: Bufs, rank: Rank, b': Bufs, rank': Rank, h: nat, t: nat)
    requires Separate(b, rank, h, t) && Catted(b, rank, b', rank', h, t) && TotOk(b) && Unshared(b, Chain(b, rank, h))
    ensures TotOk(b') <==> b[h].totLen + b[t].totLen < LIM16
  {
    if b[h].totLen + b[t].totLen < LIM16 {
      CatFits(b, rank, b', h, t);
    } else {
      CatConcatenates(b, rank, b', rank', h, t);
      TotIsLength(b, rank, h);
      TotIsLength(b, rank, t);
      if TotOk(b') { TotIsLength(b', rank', h); }
    }
  }

  /** Two chains of 32768 bytes each: their joint total is recorded as 0. */
  lemma CatTotalsFails() returns (b: Bufs, rank: Rank, b': Bufs, rank': Rank)
    ensures Separate(b, rank, 0, 1) && TotOk(b) && Unshared(b, Chain(b, rank, 0)) && Catted(b, rank, b', rank', 0, 1)
    ensures 0 in b' && b'[0].totLen == 0 && Sound(b', rank') && |Bytes(b', rank', 0)| == 65536 && !TotOk(b')
  {
    var half := Pbuf(NULL, 32768, 32768, 1, seq(32768, i => 0), false);
    b, rank := map[0 := half, 1 := half], map[0 := 0, 1 := 0];
    b' := map[0 := half.(next := 1, totLen := 0), 1 := half];
    rank' := map[0 := 1, 1 := 0];
    BytesCons(b, rank, 0);
    BytesCons(b, rank, 1);
    assert Chain(b, rank, 0) == [0] && Chain(b, rank, 1) == [1];
    CatConcatenates(b, rank, b', rank', 0, 1);
    CatTotals(b, rank, b', rank', 0, 1);
  }

  lemma CatFits(b: Bufs, rank: Rank, b': Bufs, h: nat, t: nat)
    requires Separate(b, rank, h, t) && IsCat(b, b', Chain(b, rank, h), t) && TotOk(b) && Unshared(b, Chain(b, rank, h))
    requires b[h].totLen + b[t].totLen < LIM16
    ensures TotOk(b')
  {
    var cs := Chain(b, rank, h);
    ChainEnds(b, rank, h);
    ChainEnds(b, rank, t);
    TotFalls(b, rank, h);
    assert t in Chain(b, rank, t);
    forall p | p in b' ensures b'[p].totLen == b'[p].len + TotOf(b', b'[p].next) < LIM16 {
      assert b'[p] == CatBuf(b, cs, t, p);
      CatTotal(b, b', cs, h, t, p);
    }
  }

  /** Totals fall along a chain. */
  lemma {:induction false} TotFalls(b: Bufs, rank: Rank, p: int)
    requires Sound(b, rank) && TotOk(b) && IsPtr(b, p)
    ensures forall x {:trigger x in Chain(b, rank, p)} ::
      x in Chain(b, rank, p) ==> x in b && b[x].totLen <= TotOf(b, p)
    decreases Height(rank, p)
  {
    if p >= 0 {
      BytesCons(b, rank, p);
      TotFalls(b, rank, b[p].next);
    }
  }

  lemma CatTotal(b: Bufs, b': Bufs, cs: seq<nat>, h: nat, t: nat, p: nat)
    requires TotOk(b) && LinksOk(b) && Unshared(b, cs) && h in b && t in b && p in b && b'.Keys == b.Keys
    requires b[h].totLen + b[t].totLen < LIM16 && t !in cs && cs != [] && b'[p].len == b[p].len
    requires forall x :: x in cs ==> x in b && b[x].totLen <= b[h].totLen
    requires IsCat(b, b', cs, t)
    requires p in cs ==> (if p == Last(cs) then b[p].next == NULL else b[p].next in cs)
    ensures b'[p].totLen == b'[p].len + TotOf(b', b'[p].next) < LIM16
  {
    var n := b[p].next;
    assert b[p].totLen == b[p].len + TotOf(b, n);
    assert b'[p] == CatBuf(b, cs, t, p);
    if n >= 0 { assert n in b && b'[n] == CatBuf(b, cs, t, n); }
    assert b'[t] == CatBuf(b, cs, t, t);
  }

  // ---- counts ----

  /** A link takes the place of a handle. */
  lemma AttachOk(b: Bufs, hs: Handles, b': Bufs, q: nat, h: nat)
    requires RefsOk(b, hs) && q in b && b[q].next == NULL && h in hs && b'.Keys == b.Keys && b'[q].next == hs[h]
    requires forall x :: x in b ==> b'[x].ref == b[x].ref && (x != q ==> b'[x].next == b[x].next)
    ensures RefsOk(b', hs - {h})
  {
    SlotsAt(b, hs, Handle(h));
    SlotsAt(b, hs, Link(q));
    SlotsPut(b, hs, b, hs - {h}, Handle(h));
    SlotsPut(b, hs - {h}, b', hs - {h}, Link(q));
    CountedMove(b, b', Slots(b, hs), Handle(h), Link(q));
  }

  /** `hs'` is `hs` with a new handle `h` on `t`. */
  ghost predicate NewHandle(hs: Handles, hs': Handles, h: nat, t: nat) {
    h !in hs && h in hs' && hs'[h] == t && forall k ::
      k != h ==> (k in hs' <==> k in hs) && (k in hs ==> hs'[k] == hs[k])
  }

  lemma HandleSlots(b: Bufs, hs: Handles, b': Bufs, hs': Handles, h: nat, t: nat)
    requires NewHandle(hs, hs', h, t) && forall q :: At(b', hs, Link(q)) == At(b, hs, Link(q))
    ensures Handle(h) !in Slots(b, hs) && Slots(b', hs') == Slots(b, hs)[Handle(h) := t]
  {
    SlotsAt(b, hs, Handle(h));
    forall y | y != Handle(h) ensures At(b', hs', y) == At(b, hs, y) {
      if y.Link? { assert At(b', hs, Link(y.q)) == At(b, hs, Link(y.q)); }
    }
    SlotsPut(b, hs, b', hs', Handle(h));
  }

  /** A handle takes the place of a link. */
  lemma DetachOk(b: Bufs, hs: Handles, b': Bufs, hs': Handles, q: nat, h: nat)
    requires RefsOk(b, hs) && q in b && b[q].next >= 0 && NewHandle(hs, hs', h, b[q].next) && b'.Keys == b.Keys &&
      b'[q].next == NULL
    requires forall x :: x in b ==> b'[x].ref == b[x].ref && (x != q ==> b'[x].next == b[x].next)
    ensures RefsOk(b', hs')
  {
    DetachSlots(b, hs, b', hs', q, h);
    SwapCounts(b, b', Slots(b, hs), Slots(b', hs'), Link(q), Handle(h));
  }

  lemma DetachSlots(b: Bufs, hs: Handles, b': Bufs, hs': Handles, q: nat, h: nat)
    requires q in b && b[q].next >= 0 && NewHandle(hs, hs', h, b[q].next) && b'.Keys == b.Keys && b'[q].next == NULL
    requires forall x :: x in b && x != q ==> b'[x].next == b[x].next
    ensures var m := Slots(b, hs);
      Link(q) in m && m[Link(q)] == b[q].next && Handle(h) !in m &&
        Slots(b', hs') == (m - {Link(q)})[Handle(h) := b[q].next]
  {
    SlotsAt(b, hs, Link(q));
    SlotsAt(b, hs, Handle(h));
    SlotsPut(b, hs, b', hs, Link(q));
    HandleSlots(b', hs, b', hs', h, b[q].next);
  }

  lemma SwapCounts(b: Bufs, b': Bufs, m: map<Slot, nat>, m': map<Slot, nat>, k: Slot, k': Slot)
    requires Counted(b, m) && k in m && k' !in m && m' == (m - {k})[k' := m[k]] && b'.Keys <= b.Keys && forall p ::
      p in b' ==> b'[p].ref == b[p].ref
    ensures Counted(b', m')
  {
    CountedMove(b, b', m, k, k');
  }

  /** pbuf_ref: one more handle, one more reference; right exactly if the count does not wrap. */
  lemma RefOk(b: Bufs, hs: Handles, b': Bufs, hs': Handles, p: nat, h: nat)
    requires RefsOk(b, hs) && p in b && NewHandle(hs, hs', h, p) && b'.Keys == b.Keys && b'[p].ref == Add16(b[p].ref, 1)
    requires forall x :: x in b ==> b'[x].next == b[x].next && (x != p ==> b'[x].ref == b[x].ref)
    ensures RefsOk(b', hs') <==> b[p].ref + 1 < LIM16
  {
    RefSlots(b, hs, b', hs', p, h);
    AddCounts(b, b', Slots(b, hs), Slots(b', hs'), Handle(h), p);
  }

  lemma RefSlots(b: Bufs, hs: Handles, b': Bufs, hs': Handles, p: nat, h: nat)
    requires NewHandle(hs, hs', h, p) && b'.Keys == b.Keys && forall x :: x in b ==> b'[x].next == b[x].next
    ensures Handle(h) !in Slots(b, hs) && Slots(b', hs') == Slots(b, hs)[Handle(h) := p]
  {
    HandleSlots(b, hs, b', hs', h, p);
  }

  lemma AddCounts(b: Bufs, b': Bufs, m: map<Slot, nat>, m': map<Slot, nat>, k: Slot, p: nat)
    requires Counted(b, m) && k !in m && p in b && m' == m[k := p] && b'.Keys == b.Keys &&
      b'[p].ref == Add16(b[p].ref, 1)
    requires forall x :: x in b && x != p ==> b'[x].ref == b[x].ref
    ensures Counted(b', m') <==> b[p].ref + 1 < LIM16
  {
    assert 0 < b[p].ref < LIM16;
    CountedAdd(b, b', m, k, p);
  }

  /** A new pbuf with one handle. */
  lemma NewOk(b: Bufs, hs: Handles, b': Bufs, hs': Handles, x: nat, h: nat)
    requires LinksOk(b) && RefsOk(b, hs) && HandlesOk(b, hs) && x !in b && NewHandle(hs, hs', h, x)
    requires b'.Keys == b.Keys + {x} && b'[x].next == NULL && b'[x].ref == 1
    requires forall p :: p in b ==> b'[p].ref == b[p].ref && b'[p].next == b[p].next
    ensures RefsOk(b', hs')
  {
    HandleSlots(b, hs, b', hs', h, x);
    SlotsLive(b, hs, x);
    CountedNew(b, b', Slots(b, hs), Handle(h), x);
  }

  lemma SlotsLive(b: Bufs, hs: Handles, x: nat)
    requires LinksOk(b) && HandlesOk(b, hs) && x !in b
    ensures forall k :: k in Slots(b, hs) ==> Slots(b, hs)[k] != x
  {
    forall k | k in Slots(b, hs) ensures Slots(b, hs)[k] != x {
      SlotsAt(b, hs, k);
      if k.Handle? { var v := hs[k.h]; } else { var v := b[k.q]; }
    }
  }
}
