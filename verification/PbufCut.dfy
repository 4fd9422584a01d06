/** Cutting a chain short, freeing along it, growing it and writing into it. */
module PbufCut {
  import opened PbufModel
  import opened PbufData

  // ---- pbuf_free on chains ----

  /** The walk of pbuf_free from `p` comes to `q`. */
  ghost predicate Touches(b: Bufs, p: int, q: nat)
    decreases |b|
  {
    p >= 0 && p in b && (p == q || (b[p].ref == 1 && Touches(b - {p}, b[p].next, q)))
  }

  /** Writing to a pbuf the walk does not come to does not disturb it. */
  lemma {:induction false} FreeFromApart(b: Bufs, p: int, q: nat, v: Pbuf)
    requires q in b && !Touches(b, p, q)
    ensures q in FreeFrom(b, p) && FreeFrom(b, p)[q] == b[q] && FreeFrom(b[q := v], p) == FreeFrom(b, p)[q := v]
    decreases |b|
  {
    if p >= 0 && p in b && b[p].ref == 1 {
      FreeFromApart(b - {p}, b[p].next, q, v);
      assert b[q := v] - {p} == (b - {p})[q := v];
    }
  }

  ghost predicate Part(b': Bufs, b: Bufs) {
    forall x {:trigger b'[x]} :: x in b' ==> x in b && b'[x] == b[x]
  }

  lemma {:induction false} TouchesChain(b: Bufs, rank: Rank, b': Bufs, p: int, q: nat)
    requires Sound(b, rank) && IsPtr(b, p) && Part(b', b) && Touches(b', p, q)
    ensures q in Chain(b, rank, p)
    decreases |b'|
  {
    BytesCons(b, rank, p);
    assert b'[p] == b[p];
    if p != q { TouchesChain(b, rank, b' - {p}, b[p].next, q); }
  }

  /** Chains of what is left after a free are what they were. */
  lemma {:induction false} KeptChain(b: Bufs, b': Bufs, rank: Rank, p: int)
    requires Sound(b, rank) && Sound(b', rank) && Kept(b, b') && IsPtr(b', p)
    ensures IsPtr(b, p) && Chain(b', rank, p) == Chain(b, rank, p) && Bytes(b', rank, p) == Bytes(b, rank, p)
    decreases Height(rank, p)
  {
    if p >= 0 {
      assert b'[p] == b[p].(ref := b'[p].ref);
      BytesCons(b', rank, p);
      BytesCons(b, rank, p);
      KeptChain(b, b', rank, b[p].next);
    }
  }

  lemma KeptTotals(b: Bufs, b': Bufs)
    requires TotOk(b) && LinksOk(b') && Kept(b, b')
    ensures TotOk(b')
  {
    forall p | p in b' ensures b'[p].totLen == b'[p].len + TotOf(b', b'[p].next) < LIM16 {
      assert b'[p] == b[p].(ref := b'[p].ref);
      var n := b[p].next;
      assert b[p].totLen == b[p].len + TotOf(b, n);
      if n >= 0 { assert b'[n] == b[n].(ref := b'[n].ref); }
    }
  }

  lemma KeptLens(b: Bufs, b': Bufs)
    requires LensOk(b) && Kept(b, b')
    ensures LensOk(b')
  {
    forall p | p in b' ensures b'[p].len <= |b'[p].data| &&
      b'[p].len < LIM16 { assert b'[p] == b[p].(ref := b'[p].ref) && b[p].len < LIM16; }
  }

  lemma PositiveRefs(b: Bufs, hs: Handles)
    requires RefsOk(b, hs)
    ensures Positive(b)
  {
    assert Counted(b, Slots(b, hs));
  }

  /** A chain of pbufs with one reference each goes as a whole. */
  lemma {:induction false} FreeWhole(b: Bufs, rank: Rank, b': Bufs, p: int, cs: seq<nat>)
    requires Sound(b, rank) && IsPtr(b, p) && cs == Chain(b, rank, p) &&
      (forall x :: x in cs ==> x in b && b[x].ref == 1)
    requires Part(b', b) && forall x :: x in cs ==> x in b'
    ensures FreeFrom(b', p) == b' - (set x | x in cs)
    decreases Height(rank, p)
  {
    if p >= 0 {
      BytesCons(b, rank, p);
      var (n, rest) := (b[p].next, cs[1..]);
      assert cs == [p] + rest && b'[p] == b[p];
      ChainFalls(b, rank, n);
      FreeWhole(b, rank, b' - {p}, n, rest);
      assert b' - {p} - (set x | x in rest) == b' - (set x | x in cs);
    } else {
      assert b' - (set x | x in cs) == b';
    }
  }

  // ---- pbuf_realloc ----

  /** The first `k` pbufs of the chain have `drop` taken off their totals. */
  ghost predicate Dropped(b: Bufs, b': Bufs, cs: seq<nat>, k: nat, drop: nat) {
    && k <= |cs| && b'.Keys == b.Keys
    && forall x {:trigger b'[x]} :: x in b ==> b'[x] == if x in cs[..k] then b[x].(totLen := Sub16(b[x].totLen, drop))
      else b[x]
  }

  function Sub16(a: nat, d: nat): nat {
    if a >= d then a - d else if a + 65536 >= d then a + 65536 - d else 0
  }

  /** `b'` is `b` with the chain `cs` ended at its pbuf `k`, of which `rem` bytes remain. */
  ghost predicate CutAt(b: Bufs, b': Bufs, cs: seq<nat>, k: nat, rem: nat, drop: nat) {
    && k < |cs| && b'.Keys == b.Keys && cs[k] in b && rem <= b[cs[k]].len
    && b'[cs[k]].next == NULL && b'[cs[k]].len == rem && b'[cs[k]].totLen == rem && rem <= |b'[cs[k]].data|
    && rem <= |b[cs[k]].data| && b'[cs[k]].data[..rem] == b[cs[k]].data[..rem] && b'[cs[k]].ref == b[cs[k]].ref
    && CutRest(b, b', cs, k, drop)
  }

  ghost predicate CutRest(b: Bufs, b': Bufs, cs: seq<nat>, k: nat, drop: nat)
    requires k < |cs| && b'.Keys == b.Keys
  {
    forall x {:trigger b'[x]} ::
      x in b && x != cs[k] ==> b'[x] == if x in cs[..k] then b[x].(totLen := Sub16(b[x].totLen, drop)) else b[x]
  }

  lemma CutSound(b: Bufs, rank: Rank, b': Bufs, cs: seq<nat>, k: nat, rem: nat, drop: nat)
    requires Sound(b, rank) && CutAt(b, b', cs, k, rem, drop)
    ensures Sound(b', rank)
  {
    forall x | x in b' ensures b'[x].next == (if x == cs[k] then NULL else b[x].next) && b'[x].len <= |b'[x].data| &&
      b'[x].len < LIM16 {
      var y := b[x];
    }
  }

  /** Element `j` of `cs` links to the next. */
  ghost predicate Step(b: Bufs, cs: seq<nat>, j: nat) {
    j + 1 < |cs| && cs[j] in b && b[cs[j]].next == cs[j + 1]
  }

  /** The elements of `cs` up to `k` are linked in order. */
  ghost predicate InSteps(b: Bufs, cs: seq<nat>, k: nat) {
    k < |cs| && cs[k] in b && forall j: nat {:trigger Step(b, cs, j)} :: j < k ==> Step(b, cs, j)
  }

  /** What is left of the chain is a prefix of it. */
  lemma {:induction false} CutPrefix(b: Bufs, rank: Rank, b': Bufs, cs: seq<nat>, k: nat, rem: nat, drop: nat, i: nat)
    requires Sound(b, rank) && Sound(b', rank) && CutAt(b, b', cs, k, rem, drop) && i <= k
    requires InSteps(b, cs, k) && cs[k] !in cs[..k]
    ensures cs[i] in b && Bytes(b', rank, cs[i]) <= Bytes(b, rank, cs[i])
    decreases k - i
  {
    var p := cs[i];
    assert i < k ==> Step(b, cs, i);
    BytesCons(b, rank, p);
    BytesCons(b', rank, p);
    if i < k {
      var n := cs[i + 1];
      assert Step(b, cs, i) && cs[..k][i] == p;
      CutPrefix(b, rank, b', cs, k, rem, drop, i + 1);
      assert b'[p].next == n && b'[p].data[..b'[p].len] == b[p].data[..b[p].len];
      PrefixOn(b[p].data[..b[p].len], Bytes(b', rank, n), Bytes(b, rank, n));
    } else {
      assert Bytes(b', rank, p) == b[p].data[..rem];
      assert b[p].data[..rem] <= b[p].data[..b[p].len];
    }
  }

  lemma PrefixOn(a: seq<Byte>, s: seq<Byte>, t: seq<Byte>)
    requires s <= t
    ensures a + s <= a + t
  {
  }

  /** The totals are right again. */
  lemma CutTotals(b: Bufs, rank: Rank, b': Bufs, cs: seq<nat>, k: nat, rem: nat, drop: nat)
    requires Sound(b, rank) && TotOk(b) && CutAt(b, b', cs, k, rem, drop) && b[cs[k]].totLen == rem + drop
    requires forall x :: x in cs[..k] ==> x in b && b[x].totLen >= drop && b[x].next >= 0 && b[x].next in cs[..k + 1]
    requires forall q :: q in b && b[q].next >= 0 && b[q].next in cs[..k + 1] ==> q in cs[..k]
    requires cs[k] !in cs[..k]
    ensures TotOk(b')
  {
    assert cs[..k + 1] == cs[..k] + [cs[k]];
    forall p | p in b' ensures b'[p].totLen == b'[p].len + TotOf(b', b'[p].next) < LIM16 {
      var n := b[p].next;
      assert b[p].totLen == b[p].len + TotOf(b, n) < LIM16;
      if p != cs[k] {
        if n >= 0 { assert n in b; var y := b'[n]; }
      }
    }
  }

  // ---- pbuf_alloc ----

  /** A pbuf `q` put at the end of the chain after `r`. */
  ghost function Grown(b: Bufs, r: nat, q: nat, pb: Pbuf): Bufs
    requires r in b
  {
    b[r := b[r].(next := q)][q := pb]
  }

  /** Every pbuf above a new one. */
  ghost function Above(rank: Rank, q: nat): Rank {
    (map x | x in rank && x != q :: rank[x] + 1)[q := 0]
  }

  lemma GrownOk(b: Bufs, hs: Handles, rank: Rank, r: nat, q: nat, pb: Pbuf, h: nat)
    requires PbufOk(b, hs, rank) && LensOk(b) && r in b && b[r].next == NULL && q !in b && h !in hs
    requires pb.next == NULL && pb.ref == 1 && pb.len <= |pb.data| && pb.len < LIM16
    ensures PbufOk(Grown(b, r, q, pb), hs, Above(rank, q)) && LensOk(Grown(b, r, q, pb))
  {
    GrownSound(b, rank, r, q, pb);
    GrownFacts(b, r, q, pb);
    GrownRefs(b, hs, b[q := pb], hs[h := q], Grown(b, r, q, pb), r, q, h);
    assert HandlesOk(Grown(b, r, q, pb), hs) by { forall k | k in hs
      ensures hs[k] in Grown(b, r, q, pb) { assert hs[k] in b; } }
  }

  /** `b1` is `b` with a new pbuf `q`, and `b'` is `b1` with `q` linked behind `r`. */
  ghost predicate Grows(b: Bufs, b1: Bufs, b': Bufs, r: nat, q: nat) {
    && q !in b && r in b && b1.Keys == b.Keys + {q} && b'.Keys == b1.Keys && b1[q].next == NULL && b1[q].ref == 1 &&
      b'[r].next == q
    && (forall p :: p in b ==> b1[p].ref == b[p].ref && b1[p].next == b[p].next)
    && (forall x :: x in b1 ==> b'[x].ref == b1[x].ref && (x != r ==> b'[x].next == b1[x].next))
  }

  lemma GrownFacts(b: Bufs, r: nat, q: nat, pb: Pbuf)
    requires r in b && q !in b && pb.next == NULL && pb.ref == 1
    ensures Grows(b, b[q := pb], Grown(b, r, q, pb), r, q)
  {
  }

  lemma TokenBack(hs: Handles, hs1: Handles, h: nat, q: nat)
    requires NewHandle(hs, hs1, h, q)
    ensures hs1 - {h} == hs
  {
  }

  lemma GrownRefs(b: Bufs, hs: Handles, b1: Bufs, hs1: Handles, b': Bufs, r: nat, q: nat, h: nat)
    requires LinksOk(b) && RefsOk(b, hs) && HandlesOk(b, hs) && NewHandle(hs, hs1, h, q) && Grows(b, b1, b', r, q) &&
      b[r].next == NULL
    ensures RefsOk(b', hs)
  {
    TokenBack(hs, hs1, h, q);
    assert RefsOk(b1, hs1) by { NewOk(b, hs, b1, hs1, q, h); }
    AttachOk(b1, hs1, b', r, h);
  }

  lemma GrownSound(b: Bufs, rank: Rank, r: nat, q: nat, pb: Pbuf)
    requires Sound(b, rank) && r in b && q !in b && pb.next == NULL && pb.len <= |pb.data| && pb.len < LIM16
    ensures Sound(Grown(b, r, q, pb), Above(rank, q))
  {
    var (b', rank') := (Grown(b, r, q, pb), Above(rank, q));
    forall x | x in b' ensures
      && (b'[x].next == NULL || (b'[x].next >= 0 && b'[x].next in b')) && b'[x].len <= |b'[x].data| && b'[x].len < LIM16
      && x in rank' && (b'[x].next in rank' && b'[x].next >= 0 ==> rank'[b'[x].next] < rank'[x])
    {
      if x != q { var y := b[x]; }
    }
  }

  // ---- pbuf_copy ----

  /** `s` with `d` laid over it at `o`. */
  function Over(s: seq<Byte>, o: nat, d: seq<Byte>): seq<Byte>
    requires o + |d| <= |s|
  {
    s[..o] + d + s[o + |d|..]
  }

  /** Bytes written into one pbuf of a chain. */
  ghost function Poked(b: Bufs, x: nat, o: nat, d: seq<Byte>): Bufs
    requires x in b && o + |d| <= |b[x].data|
  {
    b[x := b[x].(data := Over(b[x].data, o, d))]
  }

  lemma PokedSound(b: Bufs, rank: Rank, x: nat, o: nat, d: seq<Byte>)
    requires Sound(b, rank) && x in b && o + |d| <= b[x].len <= |b[x].data|
    ensures Sound(Poked(b, x, o, d), rank)
  {
    var b' := Poked(b, x, o, d);
    forall p | p in b' ensures b'[p].next == b[p].next && b'[p].len == b[p].len && |b'[p].data| == |b[p].data| { }
    SameLinks(b, b', rank);
    forall p | p in b' ensures b'[p].len <= |b'[p].data| && b'[p].len < LIM16 { var y := b[p]; }
  }

  /** Where the bytes of a pbuf lie in its chain. */
  ghost predicate Reaches(b: Bufs, rank: Rank, p: int, x: int, pos: nat)
    requires Sound(b, rank) && IsPtr(b, p) && IsPtr(b, x)
  {
    pos <= |Bytes(b, rank, p)| && Bytes(b, rank, p)[pos..] == Bytes(b, rank, x) && (x >= 0 ==> x in Chain(b, rank, p))
  }

  lemma OverFirst(a: seq<Byte>, t: seq<Byte>, o: nat, d: seq<Byte>)
    requires o + |d| <= |a|
    ensures Over(a + t, o, d) == Over(a, o, d) + t
  {
  }

  lemma OverRest(a: seq<Byte>, t: seq<Byte>, o: nat, d: seq<Byte>)
    requires |a| <= o && o + |d| <= |a + t|
    ensures Over(a + t, o, d) == a + Over(t, o - |a|, d)
  {
  }

  lemma OverCut(s: seq<Byte>, l: nat, o: nat, d: seq<Byte>)
    requires o + |d| <= l <= |s|
    ensures Over(s, o, d)[..l] == Over(s[..l], o, d)
  {
  }

  /** Writing into one pbuf of a chain writes at its place in the chain's bytes. */
  lemma {:induction false} PokedBytes(b: Bufs, rank: Rank, p: nat, x: nat, pos: nat, o: nat, d: seq<Byte>)
    requires Sound(b, rank) && p in b && x in b && Reaches(b, rank, p, x, pos) && o + |d| <= b[x].len <= |b[x].data|
    requires Sound(Poked(b, x, o, d), rank)
    ensures pos + o + |d| <= |Bytes(b, rank, p)|
    ensures Bytes(Poked(b, x, o, d), rank, p) == Over(Bytes(b, rank, p), pos + o, d)
    decreases Height(rank, p)
  {
    BytesCons(b, rank, x);
    if p == x {
      assert |Bytes(b, rank, p)[pos..]| == |Bytes(b, rank, p)| - pos;
      PokedHere(b, rank, x, o, d);
    } else {
      PokedLater(b, rank, p, x, pos);
      PokedBytes(b, rank, b[p].next, x, pos - b[p].len, o, d);
      BytesCons(b, rank, p);
      BytesCons(Poked(b, x, o, d), rank, p);
      OverRest(b[p].data[..b[p].len], Bytes(b, rank, b[p].next), pos + o, d);
    }
  }

  lemma PokedHere(b: Bufs, rank: Rank, x: nat, o: nat, d: seq<Byte>)
    requires Sound(b, rank) && x in b && o + |d| <= b[x].len <= |b[x].data| && Sound(Poked(b, x, o, d), rank)
    ensures o + |d| <= |Bytes(b, rank, x)| && Bytes(Poked(b, x, o, d), rank, x) == Over(Bytes(b, rank, x), o, d)
  {
    BytesCons(b, rank, x);
    BytesCons(Poked(b, x, o, d), rank, x);
    PokedTail(b, rank, x, o, d, b[x].next);
    OverCut(b[x].data, b[x].len, o, d);
    OverFirst(b[x].data[..b[x].len], Bytes(b, rank, b[x].next), o, d);
  }

  lemma PokedLater(b: Bufs, rank: Rank, p: nat, x: nat, pos: nat)
    requires Sound(b, rank) && p in b && x in b && Reaches(b, rank, p, x, pos) && p != x
    ensures b[p].next >= 0 && b[p].next in b && pos >= b[p].len && Reaches(b, rank, b[p].next, x, pos - b[p].len)
  {
    BytesCons(b, rank, p);
    var (n, l) := (b[p].next, b[p].len);
    assert x in Chain(b, rank, n);
    PosAfter(b, rank, n, x);
    assert Bytes(b, rank, p)[pos..] == Bytes(b, rank, n)[pos - l..];
  }

  lemma {:induction false} PosAfter(b: Bufs, rank: Rank, n: nat, x: nat)
    requires Sound(b, rank) && n in b && x in b && x in Chain(b, rank, n)
    ensures |Bytes(b, rank, x)| <= |Bytes(b, rank, n)|
    decreases Height(rank, n)
  {
    BytesCons(b, rank, n);
    if n != x { PosAfter(b, rank, b[n].next, x); }
  }

  lemma PokedTail(b: Bufs, rank: Rank, x: nat, o: nat, d: seq<Byte>, n: int)
    requires Sound(b, rank) && x in b && o + |d| <= b[x].len <= |b[x].data| && n == b[x].next && IsPtr(b, n)
    requires Sound(Poked(b, x, o, d), rank)
    ensures Bytes(Poked(b, x, o, d), rank, n) == Bytes(b, rank, n) &&
      Chain(Poked(b, x, o, d), rank, n) == Chain(b, rank, n)
  {
    var b' := Poked(b, x, o, d);
    BytesCons(b, rank, x);
    ChainFalls(b, rank, n);
    assert SameAlong(b, b', Chain(b, rank, n)) by {
      forall y | y in Chain(b, rank, n) ensures y in b && y in b' && b'[y].next == b[y].next &&
        b'[y].len == b[y].len && b'[y].data == b[y].data {
        assert y != x;
      }
    }
    SameChain(b, rank, b', rank, n);
  }
}
