/** pbuf_copy and pbuf_copy_partial: copying bytes out of chains and between chains of different fragmentation. */
module PbufCopy {
  import Counting
  import opened PbufModel
  import opened PbufData
  import opened PbufCut
  import opened PbufCode

  // ---- pbuf_copy_partial ----

  function Min(a: nat, b: nat): nat {
    if a < b then a else b
  }

  /** The `n` bytes of `s` from `o`, as far as there are any. */
  function Slice(s: seq<Byte>, o: nat, n: nat): seq<Byte> {
    s[Min(o, |s|)..Min(o + n, |s|)]
  }

  lemma SliceSkip(d: seq<Byte>, r: seq<Byte>, o: nat, n: nat)
    requires o >= |d|
    ensures Slice(d + r, o, n) == Slice(r, o - |d|, n)
  {
  }

  lemma SliceTake(d: seq<Byte>, r: seq<Byte>, o: nat, n: nat)
    requires o <= |d|
    ensures var m := Min(|d| - o, n); Slice(d + r, o, n) == d[o..o + m] + Slice(r, 0, n - m)
  {
  }

  /** pbuf_copy_partial returns exactly the clamped slice of the chain's bytes. */
  method CopyPartial(b: Bufs, ghost rank: Rank, buf: int, len: nat, offset: nat) returns (out: seq<Byte>)
    requires Sound(b, rank) && IsPtr(b, buf)
    ensures out == Slice(Bytes(b, rank, buf), offset, len)
  {
    out := [];
    if buf == NULL {
      return;
    }
    var p: int, n: nat, o: nat := buf, len, offset;
    ghost var all := Slice(Bytes(b, rank, buf), offset, len);
    while n != 0 && p != NULL
      invariant IsPtr(b, p) && all == out + Slice(Bytes(b, rank, p), o, n)
      decreases Height(rank, p)
    {
      var len := b[p].len;
      if o != 0 && o >= len {
        SkipPbuf(b, rank, p, out, o, n);
        o := o - len;
      } else {
        var m := if len - o > n then n else len - o;
        TakePbuf(b, rank, p, out, o, n, m);
        out := out + b[p].data[o..o + m];
        n := n - m;
        o := 0;
      }
      p := b[p].next;
    }
  }

  lemma SkipPbuf(b: Bufs, rank: Rank, p: nat, out: seq<Byte>, o: nat, n: nat)
    requires Sound(b, rank) && p in b && o >= b[p].len
    ensures IsPtr(b, b[p].next) && Height(rank, b[p].next) < Height(rank, p)
    ensures out + Slice(Bytes(b, rank, p), o, n) == out + Slice(Bytes(b, rank, b[p].next), o - b[p].len, n)
  {
    BytesCons(b, rank, p);
    SliceSkip(b[p].data[..b[p].len], Bytes(b, rank, b[p].next), o, n);
  }

  lemma TakePbuf(b: Bufs, rank: Rank, p: nat, out: seq<Byte>, o: nat, n: nat, m: nat)
    requires Sound(b, rank) && p in b && o <= b[p].len && m == Min(b[p].len - o, n)
    ensures IsPtr(b, b[p].next) && Height(rank, b[p].next) < Height(rank, p) && o + m <= |b[p].data|
    ensures out + Slice(Bytes(b, rank, p), o, n) == out + b[p].data[o..o + m] + Slice(Bytes(b, rank, b[p].next), 0,
      n - m)
  {
    BytesCons(b, rank, p);
    SliceTake(b[p].data[..b[p].len], Bytes(b, rank, b[p].next), o, n);
    SliceOf(b[p].data, b[p].len, o, m);
    Joined(out, b[p].data[o..o + m], Slice(Bytes(b, rank, b[p].next), 0, n - m));
  }

  lemma SliceOf(d: seq<Byte>, len: nat, o: nat, m: nat)
    requires o + m <= len <= |d|
    ensures d[..len][o..o + m] == d[o..o + m]
  {
  }

  lemma Joined(a: seq<Byte>, b: seq<Byte>, c: seq<Byte>)
    ensures a + (b + c) == a + b + c
  {
  }

  // ---- pbuf_copy ----

  /** `Stopped` is a failed assertion: the target has ended and the source has not. */
  datatype Err = ErrOk | ErrArg | ErrVal | Stopped

  /** Only payload bytes of pbufs of `cs` differ. */
  ghost predicate SameShape(b0: Bufs, b: Bufs, cs: seq<nat>) {
    && b.Keys == b0.Keys
    && forall x {:trigger b[x]} ::
      x in b0 ==> b[x] == b0[x].(data := b[x].data) && |b[x].data| == |b0[x].data| && (x !in cs ==> b[x] == b0[x])
  }

  /** The chains share no pbuf. */
  ghost predicate Disjoint(cs: seq<nat>, ds: seq<nat>) {
    forall x {:trigger x in cs} :: x in cs ==> x !in ds
  }

  /** A pbuf's bytes lie in the chain where the totals say. */
  lemma {:induction false} Suffix(b: Bufs, rank: Rank, p: nat, x: nat)
    requires Sound(b, rank) && TotOk(b) && p in b && x in b && x in Chain(b, rank, p)
    ensures b[x].totLen <= b[p].totLen && Reaches(b, rank, p, x, b[p].totLen - b[x].totLen)
    decreases Height(rank, p)
  {
    BytesCons(b, rank, p);
    TotIsLength(b, rank, p);
    if p != x {
      var n := b[p].next;
      Suffix(b, rank, n, x);
      assert b[p].totLen == b[p].len + TotOf(b, n);
      DropPrefix(b[p].data[..b[p].len], Bytes(b, rank, n), b[n].totLen - b[x].totLen);
    }
  }

  lemma DropPrefix(a: seq<Byte>, s: seq<Byte>, k: nat)
    requires k <= |s|
    ensures (a + s)[|a| + k..] == s[k..]
  {
  }

  /** Where a copy stands: `n` bytes done, `pf` and `pt` the pbufs to go on with, `of` and `ot` bytes into them. */
  ghost predicate Placed(b0: Bufs, b: Bufs, rank: Rank, to: nat, from: nat, pt: int, pf: int, ot: nat, of: nat, n: nat)
    requires Sound(b0, rank) && to in b0 && from in b0
  {
    && Sound(b, rank) && SameShape(b0, b, Chain(b0, rank, to))
    && Overwritten(Bytes(b0, rank, from), Bytes(b0, rank, to), Bytes(b, rank, to), n)
    && Stands(b0, Chain(b0, rank, from), from, pf, of, n) && Stands(b0, Chain(b0, rank, to), to, pt, ot, n)
  }

  /** Byte `n` of the chain from `p` is byte `o` of the pbuf `x`, or the end. */
  ghost predicate Stands(b: Bufs, cs: seq<nat>, p: nat, x: int, o: nat, n: nat) {
    && (x == NULL || (x >= 0 && x in b && x in cs && o <= b[x].len)) && (x == NULL ==> o == 0)
    && p in b && n + TotOf(b, x) == b[p].totLen + o
  }

  /** `s` is `t` with its first `n` bytes replaced by those of `f`. */
  ghost predicate Overwritten(f: seq<Byte>, t: seq<Byte>, s: seq<Byte>, n: nat) {
    n <= |f| <= |t| && s == f[..n] + t[n..]
  }

  ghost predicate AllPositive(b: Bufs, cs: seq<nat>) {
    forall x {:trigger x in cs} :: x in cs ==> x in b && b[x].len > 0
  }

  /** There is something to copy in `p`, unless it is empty. */
  ghost predicate Ahead(b: Bufs, p: int, o: nat) {
    p >= 0 ==> p in b && (o < b[p].len || b[p].len == 0)
  }

  /** Where the target ends before the source, everything has been copied and an empty pbuf of the source is left. */
  lemma TargetEnds(b0: Bufs, b: Bufs, rank: Rank, to: nat, from: nat, pf: nat, ot: nat, of: nat, n: nat)
    requires Sound(b0, rank) && TotOk(b0) && to in b0 && from in b0 &&
      Placed(b0, b, rank, to, from, NULL, pf, ot, of, n)
    requires Ahead(b0, pf, of)
    ensures n == |Bytes(b0, rank, from)| && !AllPositive(b0, Chain(b0, rank, from))
  {
    TotIsLength(b0, rank, to);
    TotIsLength(b0, rank, from);
    assert b0[pf].totLen == b0[pf].len + TotOf(b0, b0[pf].next);
  }

  lemma OverwrittenMore(f: seq<Byte>, t: seq<Byte>, s: seq<Byte>, n: nat, len: nat)
    requires Overwritten(f, t, s, n) && n + len <= |f|
    ensures Overwritten(f, t, Over(s, n, f[n..n + len]), n + len)
  {
  }

  /** The bytes a pbuf of the source holds are those of its place in the chain. */
  lemma PieceOf(b: Bufs, rank: Rank, from: nat, pf: nat, n: nat, of: nat, len: nat)
    requires Sound(b, rank) && TotOk(b) && from in b && pf in b && Stands(b, Chain(b, rank, from), from, pf, of, n) &&
      of + len <= b[pf].len <= |b[pf].data|
    ensures n + len <= |Bytes(b, rank, from)| && b[pf].data[of..of + len] == Bytes(b, rank, from)[n..n + len]
  {
    Suffix(b, rank, from, pf);
    TotIsLength(b, rank, from);
    TotIsLength(b, rank, pf);
    BytesCons(b, rank, pf);
    SubSlice(Bytes(b, rank, from), n, of, len);
    assert Bytes(b, rank, pf)[of..of + len] == b[pf].data[of..of + len];
  }

  lemma SubSlice(s: seq<Byte>, n: nat, o: nat, len: nat)
    requires o <= n <= n + len <= |s|
    ensures s[n - o..][o..o + len] == s[n..n + len]
  {
  }

  /** Bytes written into a pbuf of the target appear at their place in the chain. */
  lemma PutPiece(b0: Bufs, b: Bufs, rank: Rank, to: nat, pt: nat, ot: nat, n: nat, d: seq<Byte>)
    requires Sound(b0, rank) && Sound(b, rank) && TotOk(b0) && to in b0 && SameShape(b0, b, Chain(b0, rank, to)) &&
      pt in b
    requires Stands(b0, Chain(b0, rank, to), to, pt, ot, n) && ot + |d| <= b[pt].len <= |b[pt].data|
    ensures Sound(Poked(b, pt, ot, d), rank) && to in b && n + |d| <= |Bytes(b, rank, to)|
    ensures Bytes(Poked(b, pt, ot, d), rank, to) == Over(Bytes(b, rank, to), n, d)
  {
    ShapeChain(b0, b, rank, to);
    ShapeTotals(b0, b, Chain(b0, rank, to));
    PokedAt(b, rank, to, pt, ot, n, d);
  }

  lemma PokedAt(b: Bufs, rank: Rank, to: nat, pt: nat, ot: nat, n: nat, d: seq<Byte>)
    requires Sound(b, rank) && TotOk(b) && to in b && pt in b && Stands(b, Chain(b, rank, to), to, pt, ot, n) &&
      ot + |d| <= b[pt].len <= |b[pt].data|
    ensures Sound(Poked(b, pt, ot, d), rank) && n + |d| <= |Bytes(b, rank, to)|
    ensures Bytes(Poked(b, pt, ot, d), rank, to) == Over(Bytes(b, rank, to), n, d)
  {
    Suffix(b, rank, to, pt);
    PokedPos(b, rank, to, pt, b[to].totLen - b[pt].totLen, ot, n, d);
  }

  lemma PokedPos(b: Bufs, rank: Rank, to: nat, pt: nat, pos: nat, ot: nat, n: nat, d: seq<Byte>)
    requires Sound(b, rank) && to in b && pt in b && Reaches(b, rank, to, pt, pos) && n == pos + ot &&
      ot + |d| <= b[pt].len <= |b[pt].data|
    ensures Sound(Poked(b, pt, ot, d), rank) && n + |d| <= |Bytes(b, rank, to)|
    ensures Bytes(Poked(b, pt, ot, d), rank, to) == Over(Bytes(b, rank, to), n, d)
  {
    PokedSound(b, rank, pt, ot, d);
    PokedBytes(b, rank, to, pt, pos, ot, d);
  }

  lemma ShapeTotals(b0: Bufs, b: Bufs, cs: seq<nat>)
    requires TotOk(b0) && LinksOk(b0) && SameShape(b0, b, cs)
    ensures TotOk(b) && forall x ::
      x in b0 ==> b[x].totLen == b0[x].totLen && b[x].len == b0[x].len && b[x].next == b0[x].next
  {
    forall x | x in b ensures b[x].totLen == b[x].len + TotOf(b, b[x].next) < LIM16 {
      var y := b[x];
      assert b0[x].totLen == b0[x].len + TotOf(b0, b0[x].next);
      var n := b0[x].next;
      if n >= 0 { assert n in b0; var z := b[n]; }
    }
    forall x | x in b0 ensures b[x].totLen == b0[x].totLen && b[x].len == b0[x].len &&
      b[x].next == b0[x].next { var y := b[x]; }
  }

  /** One piece copied. */
  lemma CopyPiece(b0: Bufs, b: Bufs, rank: Rank, to: nat, from: nat, pt: nat, pf: nat, ot: nat, of: nat, n: nat,
      len: nat, d: seq<Byte>)
    requires Sound(b0, rank) && TotOk(b0) && to in b0 && from in b0 && Placed(b0, b, rank, to, from, pt, pf, ot, of, n)
    requires pt in b && ot + len <= b[pt].len <= |b[pt].data| && of + len <= b0[pf].len <= |b0[pf].data| &&
      d == b0[pf].data[of..of + len]
    ensures var b' := Poked(b, pt, ot, d);
      && Sound(b', rank) && SameShape(b0, b', Chain(b0, rank, to)) && to in b'
      && Overwritten(Bytes(b0, rank, from), Bytes(b0, rank, to), Bytes(b', rank, to), n + len)
  {
    PieceOf(b0, rank, from, pf, n, of, len);
    PutPiece(b0, b, rank, to, pt, ot, n, d);
    OverwrittenMore(Bytes(b0, rank, from), Bytes(b0, rank, to), Bytes(b, rank, to), n, len);
    PokedShape(b0, b, Chain(b0, rank, to), pt, ot, d);
  }

  lemma ShapeChain(b0: Bufs, b: Bufs, rank: Rank, to: nat)
    requires Sound(b0, rank) && Sound(b, rank) && to in b0 && SameShape(b0, b, Chain(b0, rank, to))
    ensures Chain(b, rank, to) == Chain(b0, rank, to)
  {
    forall x | x in b0 ensures b[x].next == b0[x].next { var y := b[x]; }
    SameNexts(b0, b, rank, to);
  }

  /** The pbuf to go on with after `o` bytes of `p`. */
  function Then(b: Bufs, p: nat, o: nat): (int, nat)
    requires p in b
  {
    if o == b[p].len then (b[p].next, 0) else (p, o)
  }

  /** Going on to the next pbuf once one is used up. */
  lemma StandsThen(b: Bufs, rank: Rank, p: nat, x: nat, o: nat, n: nat)
    requires Sound(b, rank) && TotOk(b) && p in b && x in b && Stands(b, Chain(b, rank, p), p, x, o, n)
    ensures var y := Then(b, x, o);
      && Stands(b, Chain(b, rank, p), p, y.0, y.1, n) && Height(rank, y.0) <= Height(rank, x)
      && (o == b[x].len ==> Height(rank, y.0) < Height(rank, x)) && (y.0 == x ==> y.1 < b[x].len) &&
        (y.0 != x ==> y.1 == 0)
  {
    ChainNext(b, rank, p, x);
    BytesCons(b, rank, x);
    assert b[x].totLen == b[x].len + TotOf(b, b[x].next);
  }

  /** The source is not written to. */
  lemma SourceKept(b0: Bufs, b: Bufs, rank: Rank, to: nat, from: nat, pf: nat)
    requires Sound(b0, rank) && to in b0 && from in b0 && SameShape(b0, b, Chain(b0, rank, to)) &&
      Disjoint(Chain(b0, rank, from), Chain(b0, rank, to))
    requires pf in b0 && pf in Chain(b0, rank, from)
    ensures pf in b && b[pf] == b0[pf]
  {
    var y := b[pf];
  }

  lemma PokedShape(b0: Bufs, b: Bufs, cs: seq<nat>, x: nat, o: nat, d: seq<Byte>)
    requires SameShape(b0, b, cs) && x in b && x in cs && o + |d| <= |b[x].data|
    ensures SameShape(b0, Poked(b, x, o, d), cs)
  {
    var b' := Poked(b, x, o, d);
    forall y | y in b0 ensures b'[y] == b0[y].(data := b'[y].data) && |b'[y].data| == |b0[y].data| &&
      (y !in cs ==> b'[y] == b0[y]) {
      var z := b[y];
    }
  }

  /** A pbuf that ends a packet but not the chain. */
  predicate EndsPacket(b: Bufs, p: int) {
    p >= 0 && p in b && b[p].len == b[p].totLen && b[p].next != NULL
  }

  lemma NoPacketEnd(b0: Bufs, b: Bufs, rank: Rank, cs: seq<nat>, p: int, q: nat)
    requires Sound(b0, rank) && TotOk(b0) && q in b0 && (p >= 0 ==> p in Chain(b0, rank, q)) &&
      AllPositive(b0, Chain(b0, rank, q)) && SameShape(b0, b, cs)
    ensures !EndsPacket(b, p)
  {
    if p >= 0 && p in b {
      var y := b[p];
      assert b0[p].totLen == b0[p].len + TotOf(b0, b0[p].next);
      ChainNext(b0, rank, q, p);
      var n := b0[p].next;
      if n >= 0 { assert n in Chain(b0, rank, q) && b0[n].len > 0 &&
        b0[n].totLen == b0[n].len + TotOf(b0, b0[n].next); }
    }
  }

  /**
   * pbuf_copy: the bytes of `from` replace the first bytes of `to`. Chains that end a packet early are refused, which
   * an empty pbuf at the end brings about; `n` bytes have then been copied. An empty pbuf at the end of `from` can
   * also stop the copy by an assertion, when all bytes are copied.
   */
  method Copy(pool: Pool, to: int, from: int) returns (c: Err, ghost n: nat)
    requires pool.Valid() && TotOk(pool.bufs) && IsPtr(pool.bufs, to) && IsPtr(pool.bufs, from) &&
      Sound(pool.bufs, pool.rank)
    requires Disjoint(Chain(pool.bufs, pool.rank, from), Chain(pool.bufs, pool.rank, to))
    modifies pool`bufs
    ensures pool.Valid() && Sound(pool.bufs, pool.rank) &&
      SameShape(old(pool.bufs), pool.bufs, Chain(old(pool.bufs), pool.rank, to))
    ensures c == ErrArg <==> to == NULL || from == NULL || old(pool.bufs)[to].totLen < old(pool.bufs)[from].totLen
    ensures c == ErrArg ==> pool.bufs == old(pool.bufs)
    ensures c != ErrArg ==>
      Overwritten(Bytes(old(pool.bufs), pool.rank, from), Bytes(old(pool.bufs), pool.rank, to),
        Bytes(pool.bufs, pool.rank, to), n)
    ensures c == ErrOk ==> n == |Bytes(old(pool.bufs), pool.rank, from)|
    ensures c == Stopped ==> n == |Bytes(old(pool.bufs), pool.rank, from)|
    ensures AllPositive(old(pool.bufs), Chain(old(pool.bufs), pool.rank, from)) ==>
      c != Stopped && (AllPositive(old(pool.bufs), Chain(old(pool.bufs), pool.rank, to)) ==> c != ErrVal)
  {
    ghost var b0 := pool.bufs;
    if to == NULL || from == NULL || pool.bufs[to].totLen < pool.bufs[from].totLen {
      return ErrArg, 0;
    }
    c, n := CopyLoop(pool, to, from);
    ShapeValid(b0, pool.bufs, pool.handles, pool.rank, Chain(b0, pool.rank, to), pool.pool, pool.elems);
  }

  /** The loop of pbuf_copy. */
  method CopyLoop(pool: Pool, to: nat, from: nat) returns (c: Err, ghost n: nat)
    requires Sound(pool.bufs, pool.rank) && TotOk(pool.bufs) && to in pool.bufs && from in pool.bufs &&
      pool.bufs[to].totLen >= pool.bufs[from].totLen
    requires Disjoint(Chain(pool.bufs, pool.rank, from), Chain(pool.bufs, pool.rank, to))
    modifies pool`bufs
    ensures Sound(pool.bufs, pool.rank) && SameShape(old(pool.bufs), pool.bufs,
      Chain(old(pool.bufs), pool.rank, to)) && c != ErrArg
    ensures Overwritten(Bytes(old(pool.bufs), pool.rank, from), Bytes(old(pool.bufs), pool.rank, to),
      Bytes(pool.bufs, pool.rank, to), n)
    ensures c == ErrOk ==> n == |Bytes(old(pool.bufs), pool.rank, from)|
    ensures c == Stopped ==> n == |Bytes(old(pool.bufs), pool.rank, from)|
    ensures AllPositive(old(pool.bufs), Chain(old(pool.bufs), pool.rank, from)) ==>
      c != Stopped && (AllPositive(old(pool.bufs), Chain(old(pool.bufs), pool.rank, to)) ==> c != ErrVal)
  {
    ghost var (b0, rank) := (pool.bufs, pool.rank);
    CopyStart(b0, rank, to, from);
    var pt: int, pf: int, ot: nat, of: nat := to, from, 0, 0;
    n := 0;
    while pf != NULL
      invariant Placed(b0, pool.bufs, rank, to, from, pt, pf, ot, of, n) && Ahead(b0, pf, of)
      decreases Height(rank, pf) + Height(rank, pt)
    {
      if pt == NULL {
        TargetEnds(b0, pool.bufs, rank, to, from, pf, ot, of, n);
        return Stopped, n;
      }
      pt, pf, ot, of, n := CopyOnce(pool, b0, to, from, pt, pf, ot, of, n);
      if EndsPacket(pool.bufs, pf) || EndsPacket(pool.bufs, pt) {
        PacketEnds(b0, pool.bufs, rank, to, from, pt, pf, ot, of, n);
        return ErrVal, n;
      }
    }
    CopyEnd(b0, pool.bufs, rank, to, from, pt, ot, of, n);
    return ErrOk, n;
  }

  /** Payload bytes do not matter to links, counts or the pool. */
  lemma ShapeValid(b0: Bufs, b: Bufs, hs: Handles, rank: Rank, cs: seq<nat>, pool: seq<nat>, elems: set<nat>)
    requires PbufOk(b0, hs, rank) && LensOk(b0) && PoolOk(b0, pool, elems) && SameShape(b0, b, cs)
    ensures PbufOk(b, hs, rank) && LensOk(b) && PoolOk(b, pool, elems)
  {
    forall x | x in b ensures b[x].next == b0[x].next && b[x].ref == b0[x].ref && b[x].pooled == b0[x].pooled &&
      b[x].len <= |b[x].data| && b[x].len < LIM16 {
      var (y, z) := (b[x], b0[x]);
    }
    SameLinks(b0, b, rank);
    SlotsSame(b0, b, hs);
    assert RefsOk(b, hs) by {
      assert Counted(b, Slots(b0, hs)) by { forall p: nat | p in b
        ensures b[p].ref == Counting.Count(Slots(b0, hs), p) { } }
    }
    assert HandlesOk(b, hs) by { forall k | k in hs ensures hs[k] in b { assert hs[k] in b0; } }
    PoolSame(b0, b, pool, elems);
  }

  lemma SlotsSame(b0: Bufs, b: Bufs, hs: Handles)
    requires b.Keys == b0.Keys && forall x :: x in b0 ==> b[x].next == b0[x].next
    ensures Slots(b, hs) == Slots(b0, hs)
  {
    forall y ensures At(b, hs, y) == At(b0, hs, y) { }
    SlotsPut(b0, hs, b, hs, Link(0));
    SlotsAt(b0, hs, Link(0));
  }

  lemma CopyStart(b0: Bufs, rank: Rank, to: nat, from: nat)
    requires Sound(b0, rank) && TotOk(b0) && to in b0 && from in b0 && b0[to].totLen >= b0[from].totLen
    ensures Placed(b0, b0, rank, to, from, to, from, 0, 0, 0)
  {
    TotIsLength(b0, rank, to);
    TotIsLength(b0, rank, from);
    BytesCons(b0, rank, from);
    BytesCons(b0, rank, to);
    assert from in Chain(b0, rank, from) && to in Chain(b0, rank, to);
  }

  lemma CopyEnd(b0: Bufs, b: Bufs, rank: Rank, to: nat, from: nat, pt: int, ot: nat, of: nat, n: nat)
    requires Sound(b0, rank) && TotOk(b0) && to in b0 && from in b0 &&
      Placed(b0, b, rank, to, from, pt, NULL, ot, of, n)
    ensures n == |Bytes(b0, rank, from)|
  {
    TotIsLength(b0, rank, from);
  }

  lemma PacketEnds(b0: Bufs, b: Bufs, rank: Rank, to: nat, from: nat, pt: int, pf: int, ot: nat, of: nat, n: nat)
    requires Sound(b0, rank) && TotOk(b0) && to in b0 && from in b0 && Placed(b0, b, rank, to, from, pt, pf, ot, of, n)
    requires EndsPacket(b, pf) || EndsPacket(b, pt)
    ensures !AllPositive(b0, Chain(b0, rank, from)) || !AllPositive(b0, Chain(b0, rank, to))
  {
    if AllPositive(b0, Chain(b0, rank, from)) { NoPacketEnd(b0, b, rank, Chain(b0, rank, to), pf, from); }
    SameNexts(b0, b, rank, to);
    if AllPositive(b0, Chain(b0, rank, to)) { NoPacketEnd(b0, b, rank, Chain(b0, rank, to), pt, to); }
  }

  /** What one round may rely on. */
  lemma Ready(b0: Bufs, b: Bufs, rank: Rank, to: nat, from: nat, pt: nat, pf: nat, ot: nat, of: nat, n: nat)
    requires Sound(b0, rank) && to in b0 && from in b0 && Placed(b0, b, rank, to, from, pt, pf, ot, of, n)
    requires Disjoint(Chain(b0, rank, from), Chain(b0, rank, to))
    ensures pf in b && pf in b0 && b[pf] == b0[pf] && pt in b && pt in b0 && b[pt].len == b0[pt].len &&
      b[pt].next == b0[pt].next
    ensures ot <= b[pt].len <= |b[pt].data| && of <= b[pf].len <= |b[pf].data|
  {
    SourceKept(b0, b, rank, to, from, pf);
    var (x, y) := (b[pt], b0[pf]);
  }

  lemma CopyRound(b0: Bufs, b: Bufs, b1: Bufs, rank: Rank, to: nat, from: nat, pt: nat, pf: nat, ot: nat, of: nat,
      n: nat, len: nat,
                  t: (int, nat), f: (int, nat))
    requires Sound(b0, rank) && TotOk(b0) && to in b0 && from in b0 && Placed(b0, b, rank, to, from, pt, pf, ot, of, n)
    requires pf in b && b[pf] == b0[pf] && pt in b && pt in b0
    requires b[pt].len == b0[pt].len && b[pt].next == b0[pt].next
    requires ot + len <= b[pt].len <= |b[pt].data| && of + len <= b0[pf].len <= |b0[pf].data|
    requires ot + len == b[pt].len || of + len == b0[pf].len
    requires b1 == b[pt := b[pt].(data := Over(b[pt].data, ot, b[pf].data[of..of + len]))]
    requires t == Then(b, pt, ot + len) && f == Then(b, pf, of + len)
    ensures Placed(b0, b1, rank, to, from, t.0, f.0, t.1, f.1, n + len) && Ahead(b0, f.0, f.1)
    ensures Height(rank, f.0) + Height(rank, t.0) < Height(rank, pf) + Height(rank, pt)
  {
    CopyPiece(b0, b, rank, to, from, pt, pf, ot, of, n, len, b0[pf].data[of..of + len]);
    StandsThen(b0, rank, to, pt, ot + len, n + len);
    StandsThen(b0, rank, from, pf, of + len, n + len);
  }

  /** One round of the loop: as much as fits from one pbuf into another. */
  method CopyOnce(pool: Pool, ghost b0: Bufs, ghost to: nat, ghost from: nat, pt: nat, pf: nat, ot: nat, of: nat,
      ghost n: nat)
    returns (pt': int, pf': int, ot': nat, of': nat, ghost n': nat)
    requires Sound(b0, pool.rank) && TotOk(b0) && to in b0 && from in b0 &&
      Placed(b0, pool.bufs, pool.rank, to, from, pt, pf, ot, of, n)
    requires Disjoint(Chain(b0, pool.rank, from), Chain(b0, pool.rank, to))
    modifies pool`bufs
    ensures Placed(b0, pool.bufs, pool.rank, to, from, pt', pf', ot', of', n') && Ahead(b0, pf', of')
    ensures Height(pool.rank, pf') + Height(pool.rank, pt') < Height(pool.rank, pf) + Height(pool.rank, pt)
  {
    ghost var b := pool.bufs;
    Ready(b0, b, pool.rank, to, from, pt, pf, ot, of, n);
    ghost var len := Piece(b, pt, pf, ot, of);
    pt', pf', ot', of' := CopyBit(pool, pt, pf, ot, of);
    n' := n + len;
    RoundAll(b0, b, pool.bufs, pool.rank, to, from, pt, pf, ot, of, n, len, (pt', ot'), (pf', of'));
  }

  /** As many bytes as are left in the one and fit into the other. */
  function Piece(b: Bufs, pt: nat, pf: nat, ot: nat, of: nat): (len: nat)
    requires pt in b && pf in b && ot <= b[pt].len && of <= b[pf].len
    ensures ot + len <= b[pt].len && of + len <= b[pf].len && (ot + len == b[pt].len || of + len == b[pf].len)
  {
    if b[pt].len - ot >= b[pf].len - of then b[pf].len - of else b[pt].len - ot
  }

  /** The bytes are copied and both sides move on. */
  method CopyBit(pool: Pool, pt: nat, pf: nat, ot: nat, of: nat) returns (pt': int, pf': int, ot': nat, of': nat)
    requires pt in pool.bufs && pf in pool.bufs && ot <= pool.bufs[pt].len <= |pool.bufs[pt].data|
    requires of <= pool.bufs[pf].len <= |pool.bufs[pf].data|
    modifies pool`bufs
    ensures var (b, len) := (old(pool.bufs), Piece(old(pool.bufs), pt, pf, ot, of));
      && pool.bufs == b[pt := b[pt].(data := Over(b[pt].data, ot, b[pf].data[of..of + len]))]
      && (pt', ot') == Then(b, pt, ot + len) && (pf', of') == Then(b, pf, of + len)
  {
    var (t, f) := (pool.bufs[pt], pool.bufs[pf]);
    var len := if t.len - ot >= f.len - of then f.len - of else t.len - ot;
    pool.bufs := pool.bufs[pt := t.(data := Over(t.data, ot, f.data[of..of + len]))];
    pt', ot' := pt, ot + len;
    if ot' == t.len {
      pt', ot' := t.next, 0;
    }
    pf', of' := pf, of + len;
    if of' >= f.len {
      pf', of' := f.next, 0;
    }
  }

  lemma RoundAll(b0: Bufs, b: Bufs, b1: Bufs, rank: Rank, to: nat, from: nat, pt: nat, pf: nat, ot: nat, of: nat,
      n: nat, len: nat,
                 t: (int, nat), f: (int, nat))
    requires Sound(b0, rank) && TotOk(b0) && to in b0 && from in b0 && Placed(b0, b, rank, to, from, pt, pf, ot, of, n)
    requires Disjoint(Chain(b0, rank, from), Chain(b0, rank, to)) && pt in b && pf in b &&
      ot <= b[pt].len <= |b[pt].data|
    requires of <= b[pf].len <= |b[pf].data| && len == Piece(b, pt, pf, ot, of)
    requires b1 == b[pt := b[pt].(data := Over(b[pt].data, ot, b[pf].data[of..of + len]))]
    requires t == Then(b, pt, ot + len) && f == Then(b, pf, of + len)
    ensures Placed(b0, b1, rank, to, from, t.0, f.0, t.1, f.1, n + len) && Ahead(b0, f.0, f.1)
    ensures Height(rank, f.0) + Height(rank, t.0) < Height(rank, pf) + Height(rank, pt)
  {
    Ready(b0, b, rank, to, from, pt, pf, ot, of, n);
    CopyRound(b0, b, b1, rank, to, from, pt, pf, ot, of, n, len, t, f);
  }
}
