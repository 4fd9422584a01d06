/**
 * The lwIP heap as a row of cells. A struct mem at offset h keeps next in cell h, prev in cell h + 4 and used in
 * cell h + 8; its data starts at h + 12 and ends where the next struct begins. The last struct, at the end of
 * the heap, is always used.
 */
module HeapModel {

  /** SIZEOF_STRUCT_MEM and MIN_SIZE_ALIGNED, and the smallest distance between two structs. */
  const HDR: nat := 12
  const MIN: nat := 12
  const GAP: nat := 24
  /** mem_size_t holds 32 bits. */
  const WORD: nat := 0x1_0000_0000

  /** LWIP_MEM_ALIGN_SIZE in 32-bit arithmetic. */
  function AlignSize(n: nat): nat
    requires n < WORD
  {
    if n + 3 < WORD then (n + 3) / 4 * 4 else 0
  }

  /** The size mem_malloc and mem_realloc work with. */
  function Rounded(n: nat): (r: nat)
    requires n < WORD
    ensures r % 4 == 0 && r >= MIN
  {
    if AlignSize(n) < MIN then MIN else AlignSize(n)
  }

  /** The working size covers the request exactly when aligning it does not wrap. */
  lemma RoundedCovers(n: nat)
    requires n < WORD
    ensures Rounded(n) >= n <==> n <= WORD - 4
    ensures n <= WORD - 4 ==> Rounded(n) <= n + MIN
  {
  }

  function Next(r: seq<int>, h: nat): int
    requires h + HDR <= |r|
  {
    r[h]
  }

  function Prev(r: seq<int>, h: nat): int
    requires h + HDR <= |r|
  {
    r[h + 4]
  }

  predicate Used(r: seq<int>, h: nat)
    requires h + HDR <= |r|
  {
    r[h + 8] != 0
  }

  /** The structs start at 0 and end with the marker at `size`; all are aligned. */
  ghost predicate Spaced(b: set<nat>, size: nat) {
    0 in b && size in b && 0 < size && forall x :: x in b ==> x <= size && x % 4 == 0
  }

  /** next leads to a struct far enough away to leave room for a header and data. */
  ghost predicate NextOk(r: seq<int>, b: set<nat>, size: nat)
    requires |r| == size + HDR && Spaced(b, size)
  {
    forall x {:trigger Next(r, x)} :: x in b && x != size ==> x + GAP <= Next(r, x) && Next(r, x) in b
  }

  /** next leads to the next higher struct. */
  ghost predicate OrderOk(r: seq<int>, b: set<nat>, size: nat)
    requires |r| == size + HDR && Spaced(b, size)
  {
    forall x, y {:trigger Next(r, x), y in b} :: x in b && y in b && x < y ==> Next(r, x) <= y
  }

  /** prev leads back. */
  ghost predicate PrevOk(r: seq<int>, b: set<nat>, size: nat)
    requires |r| == size + HDR && Spaced(b, size)
  {
    forall x {:trigger Prev(r, x)} :: x in b && x != 0 && x != size ==>
      0 <= Prev(r, x) < x && Prev(r, x) in b && Next(r, Prev(r, x)) == x
  }

  /**
   * `b` holds the offsets of the structs. next leads from each to the next higher one and prev leads back, except
   * at the end marker, which is used and its own next; so the structs tile [0, size).
   */
  ghost predicate Links(r: seq<int>, b: set<nat>, size: nat) {
    && |r| == size + HDR && Spaced(b, size)
    && NextOk(r, b, size) && OrderOk(r, b, size) && PrevOk(r, b, size)
    && Next(r, size) == size && Prev(r, 0) == 0 && Used(r, size)
  }

  /** No two free structs in a row. */
  ghost predicate Coalesced(r: seq<int>, b: set<nat>, size: nat)
    requires Links(r, b, size)
  {
    forall x {:trigger Next(r, x)} :: x in b && x != size ==> Used(r, x) || Used(r, Next(r, x))
  }

  /** lfree is the lowest free struct, or the end marker. */
  ghost predicate Lowest(r: seq<int>, b: set<nat>, size: nat, lfree: nat)
    requires Links(r, b, size)
  {
    && lfree in b && (lfree != size ==> !Used(r, lfree))
    && (forall x :: x in b && x < lfree ==> Used(r, x))
  }

  ghost predicate HeapOk(r: seq<int>, b: set<nat>, size: nat, lfree: nat) {
    Links(r, b, size) && Coalesced(r, b, size) && Lowest(r, b, size, lfree)
  }

  /** Once nothing is in use, one free struct spans the whole heap. */
  lemma AllFreeIsWhole(r: seq<int>, b: set<nat>, size: nat, lfree: nat)
    requires HeapOk(r, b, size, lfree)
    requires forall x :: x in b && x != size ==> !Used(r, x)
    ensures b == {0, size} && lfree == 0 && Next(r, 0) == size
  {
    assert Used(r, Next(r, 0));
  }

  /** The cell `c` belongs to the header at `h`. */
  predicate InHeader(c: nat, h: nat) {
    h <= c < h + HDR
  }

  // ---- the ways the code rewrites headers ----

  function SetUsed(r: seq<int>, h: nat, v: int): seq<int>
    requires h + HDR <= |r|
  {
    r[h + 8 := v]
  }

  /** A free header at `q`, between the struct `h` and its next `n`. */
  function Insert(r: seq<int>, h: nat, q: nat, n: nat, size: nat): seq<int>
    requires h + HDR <= |r| && q + HDR <= |r| && n + HDR <= |r|
  {
    var r' := r[q + 8 := 0][q := n][q + 4 := h][h := q];
    if n != size then r'[n + 4 := q] else r'
  }

  /** Merge the struct `h` with the one between it and `n`. */
  function Join(r: seq<int>, h: nat, n: nat): seq<int>
    requires h + HDR <= |r| && n + HDR <= |r|
  {
    r[h := n][n + 4 := h]
  }

  /** Two structs are the same or their headers do not overlap. */
  predicate Apart(x: nat, y: nat) {
    x == y || x + HDR <= y || y + HDR <= x
  }

  /** The header of `r'` at `x` is that of `r` with `q` put between `h` and `n`. */
  ghost predicate InsertedAt(r: seq<int>, r': seq<int>, h: nat, q: nat, n: nat, size: nat, x: nat) {
    && x + HDR <= |r| && |r'| == |r|
    && Next(r', x) == (if x == q then n else if x == h then q else Next(r, x))
    && Prev(r', x) == (if x == q then h else if x == n && n != size then q else Prev(r, x))
    && Used(r', x) == (x != q && Used(r, x))
  }

  lemma InsertFields(r: seq<int>, h: nat, q: nat, n: nat, size: nat, x: nat)
    requires h + HDR <= q && q + HDR <= n && n + HDR <= |r| && x + HDR <= |r|
    requires Apart(x, h) && Apart(x, q) && Apart(x, n)
    ensures InsertedAt(r, Insert(r, h, q, n, size), h, q, n, size, x)
  {
  }

  lemma InsertOnly(r: seq<int>, h: nat, q: nat, n: nat, size: nat, c: nat)
    requires h + HDR <= |r| && q + HDR <= |r| && n + HDR <= |r|
    requires c < |r| && !InHeader(c, h) && !InHeader(c, q) && !InHeader(c, n)
    ensures Insert(r, h, q, n, size)[c] == r[c]
  {
  }

  /** Structs in the list keep clear of each other. */
  lemma ListApart(r: seq<int>, b: set<nat>, size: nat, x: nat, y: nat)
    requires Links(r, b, size) && x in b && y in b
    ensures Apart(x, y) && (x < y ==> x + GAP <= y)
  {
    assert x != size ==> Next(r, x) >= x + GAP;
    assert y != size ==> Next(r, y) >= y + GAP;
  }

  /** The struct `h` has room for a free struct at `q`. */
  ghost predicate CanSplit(r: seq<int>, b: set<nat>, size: nat, h: nat, q: nat) {
    && Links(r, b, size) && h in b && h != size && h + GAP <= q && q + GAP <= Next(r, h) && q % 4 == 0
  }

  lemma SplitNext(r: seq<int>, r': seq<int>, b: set<nat>, size: nat, h: nat, q: nat, x: nat)
    requires CanSplit(r, b, size, h, q) && x in b + {q} && x != size
    requires InsertedAt(r, r', h, q, Next(r, h), size, x)
    ensures x + GAP <= Next(r', x) && Next(r', x) in b + {q}
  {
  }

  lemma SplitOrder(r: seq<int>, r': seq<int>, b: set<nat>, size: nat, h: nat, q: nat, x: nat, y: nat)
    requires CanSplit(r, b, size, h, q) && x in b + {q} && y in b + {q} && x < y
    requires InsertedAt(r, r', h, q, Next(r, h), size, x)
    ensures Next(r', x) <= y
  {
    assert h < x && x in b ==> Next(r, h) <= x;
    assert h < y && y in b ==> Next(r, h) <= y;
  }

  lemma SplitPrev(r: seq<int>, r': seq<int>, b: set<nat>, size: nat, h: nat, q: nat, x: nat)
    requires CanSplit(r, b, size, h, q) && x in b + {q} && x != 0 && x != size
    requires forall z {:trigger InsertedAt(r, r', h, q, Next(r, h), size, z)} ::
      z in b || z == q ==> InsertedAt(r, r', h, q, Next(r, h), size, z)
    ensures x + HDR <= |r'| && 0 <= Prev(r', x) < x && Prev(r', x) in b + {q} && Next(r', Prev(r', x)) == x
  {
    var n := Next(r, h);
    assert InsertedAt(r, r', h, q, n, size, x);
    assert InsertedAt(r, r', h, q, n, size, h) && InsertedAt(r, r', h, q, n, size, q);
    if x != q && x != n {
      assert InsertedAt(r, r', h, q, n, size, Prev(r, x));
      assert Prev(r, x) != q by { assert h < q && q < n; }
    }
  }

  lemma SplitRelinks(r: seq<int>, r': seq<int>, b: set<nat>, size: nat, h: nat, q: nat)
    requires CanSplit(r, b, size, h, q) && |r'| == |r|
    requires forall x {:trigger InsertedAt(r, r', h, q, Next(r, h), size, x)} ::
      x in b || x == q ==> InsertedAt(r, r', h, q, Next(r, h), size, x)
    ensures Links(r', b + {q}, size)
  {
    var n := Next(r, h);
    var c := b + {q};
    assert n in b && Spaced(c, size);
    assert NextOk(r', c, size) by {
      forall x {:trigger Next(r', x)} | x in c && x != size ensures x + GAP <= Next(r', x) && Next(r', x) in c {
        assert InsertedAt(r, r', h, q, n, size, x);
        SplitNext(r, r', b, size, h, q, x);
      }
    }
    assert OrderOk(r', c, size) by {
      forall x, y {:trigger Next(r', x), y in c} | x in c && y in c && x < y ensures Next(r', x) <= y {
        assert InsertedAt(r, r', h, q, n, size, x);
        SplitOrder(r, r', b, size, h, q, x, y);
      }
    }
    assert PrevOk(r', c, size) by {
      forall x {:trigger Prev(r', x)} | x in c && x != 0 && x != size
        ensures 0 <= Prev(r', x) < x && Prev(r', x) in c && Next(r', Prev(r', x)) == x
      {
        SplitPrev(r, r', b, size, h, q, x);
      }
    }
    assert InsertedAt(r, r', h, q, n, size, 0) && InsertedAt(r, r', h, q, n, size, size);
  }

  /** Splitting a struct: the rest becomes a free struct of its own. */
  lemma SplitLinks(r: seq<int>, b: set<nat>, size: nat, h: nat, q: nat)
    requires Links(r, b, size) && h in b && h != size && h + GAP <= q && q + GAP <= Next(r, h) && q % 4 == 0
    ensures var r' := Insert(r, h, q, Next(r, h), size);
      && Links(r', b + {q}, size) && Next(r', h) == q && Next(r', q) == Next(r, h) && !Used(r', q)
      && (forall x :: x in b ==> Used(r', x) == Used(r, x) && (x != h ==> Next(r', x) == Next(r, x)))
  {
    var n := Next(r, h);
    var r' := Insert(r, h, q, n, size);
    forall x | x in b || x == q ensures InsertedAt(r, r', h, q, n, size, x) {
      if x != q {
        ListApart(r, b, size, x, h);
        ListApart(r, b, size, x, n);
        if h < x { assert n <= x; }
      }
      InsertFields(r, h, q, n, size, x);
    }
    SplitRelinks(r, r', b, size, h, q);
    assert InsertedAt(r, r', h, q, n, size, h) && InsertedAt(r, r', h, q, n, size, q);
    forall x | x in b ensures Used(r', x) == Used(r, x) && (x != h ==> Next(r', x) == Next(r, x)) {
      assert InsertedAt(r, r', h, q, n, size, x);
    }
  }

  // ---- merging ----

  /** The header of `r'` at `x` is that of `r` with the struct between `h` and `n` left out. */
  ghost predicate JoinedAt(r: seq<int>, r': seq<int>, h: nat, n: nat, x: nat) {
    && x + HDR <= |r| && |r'| == |r|
    && Next(r', x) == (if x == h then n else Next(r, x))
    && Prev(r', x) == (if x == n then h else Prev(r, x))
    && Used(r', x) == Used(r, x)
  }

  lemma JoinFields(r: seq<int>, h: nat, n: nat, x: nat)
    requires h + HDR <= n && n + HDR <= |r| && x + HDR <= |r| && Apart(x, h) && Apart(x, n)
    ensures JoinedAt(r, Join(r, h, n), h, n, x)
  {
  }

  lemma JoinOnly(r: seq<int>, h: nat, n: nat, c: nat)
    requires h + HDR <= |r| && n + HDR <= |r| && c < |r| && !InHeader(c, h) && !InHeader(c, n)
    ensures Join(r, h, n)[c] == r[c]
  {
  }

  /** `m` is the struct after `h` and not the end marker. */
  ghost predicate CanJoin(r: seq<int>, b: set<nat>, size: nat, h: nat, m: nat) {
    Links(r, b, size) && h in b && h != size && m == Next(r, h) && m != size
  }

  lemma JoinNext(r: seq<int>, r': seq<int>, b: set<nat>, size: nat, h: nat, m: nat, x: nat)
    requires CanJoin(r, b, size, h, m) && x in b - {m} && x != size && JoinedAt(r, r', h, Next(r, m), x)
    ensures x + GAP <= Next(r', x) && Next(r', x) in b - {m}
  {
    assert m in b && Prev(r, m) >= 0;
    if x != h {
      assert x < h ==> Next(r, x) <= h;
      assert h < x ==> Next(r, h) <= x;
    }
  }

  lemma JoinOrder(r: seq<int>, r': seq<int>, b: set<nat>, size: nat, h: nat, m: nat, x: nat, y: nat)
    requires CanJoin(r, b, size, h, m) && x in b - {m} && y in b - {m} && x < y && JoinedAt(r, r', h, Next(r, m), x)
    ensures Next(r', x) <= y
  {
    assert h < y ==> Next(r, h) <= y;
    assert m < y ==> Next(r, m) <= y;
    assert Next(r, x) <= y;
  }

  lemma JoinPrev(r: seq<int>, r': seq<int>, b: set<nat>, size: nat, h: nat, m: nat, x: nat)
    requires CanJoin(r, b, size, h, m) && x in b - {m} && x != 0 && x != size
    requires forall z {:trigger JoinedAt(r, r', h, Next(r, m), z)} :: z in b - {m} ==> JoinedAt(r, r', h, Next(r, m), z)
    ensures x + HDR <= |r'| && 0 <= Prev(r', x) < x && Prev(r', x) in b - {m} && Next(r', Prev(r', x)) == x
  {
    var n := Next(r, m);
    assert JoinedAt(r, r', h, n, x) && JoinedAt(r, r', h, n, h);
    var p := Prev(r, x);
    assert Next(r, p) == x;
    if x != n {
      assert p != m;
      assert JoinedAt(r, r', h, n, p);
    }
  }

  /** Merging a struct with its successor leaves a well-linked heap with one struct less. */
  lemma JoinLinks(r: seq<int>, b: set<nat>, size: nat, h: nat, m: nat)
    requires CanJoin(r, b, size, h, m)
    ensures var r' := Join(r, h, Next(r, m));
      && Links(r', b - {m}, size) && Next(r', h) == Next(r, m)
      && (forall x :: x in b - {m} ==> Used(r', x) == Used(r, x) && (x != h ==> Next(r', x) == Next(r, x)))
  {
    var n := Next(r, m);
    var r' := Join(r, h, n);
    var c := b - {m};
    forall x | x in c ensures JoinedAt(r, r', h, n, x) {
      ListApart(r, b, size, x, h);
      ListApart(r, b, size, x, n);
      JoinFields(r, h, n, x);
    }
    JoinRelinks(r, r', b, size, h, m);
    assert JoinedAt(r, r', h, n, h);
    forall x | x in c ensures Used(r', x) == Used(r, x) && (x != h ==> Next(r', x) == Next(r, x)) {
      assert JoinedAt(r, r', h, n, x);
    }
  }

  lemma JoinRelinks(r: seq<int>, r': seq<int>, b: set<nat>, size: nat, h: nat, m: nat)
    requires CanJoin(r, b, size, h, m) && |r'| == |r|
    requires forall x {:trigger JoinedAt(r, r', h, Next(r, m), x)} :: x in b - {m} ==> JoinedAt(r, r', h, Next(r, m), x)
    ensures Links(r', b - {m}, size)
  {
    var n := Next(r, m);
    var c := b - {m};
    assert Spaced(c, size);
    assert NextOk(r', c, size) by {
      forall x {:trigger Next(r', x)} | x in c && x != size ensures x + GAP <= Next(r', x) && Next(r', x) in c {
        assert JoinedAt(r, r', h, n, x);
        JoinNext(r, r', b, size, h, m, x);
      }
    }
    assert OrderOk(r', c, size) by {
      forall x, y {:trigger Next(r', x), y in c} | x in c && y in c && x < y ensures Next(r', x) <= y {
        assert JoinedAt(r, r', h, n, x);
        JoinOrder(r, r', b, size, h, m, x, y);
      }
    }
    assert PrevOk(r', c, size) by {
      forall x {:trigger Prev(r', x)} | x in c && x != 0 && x != size
        ensures 0 <= Prev(r', x) < x && Prev(r', x) in c && Next(r', Prev(r', x)) == x
      {
        JoinPrev(r, r', b, size, h, m, x);
      }
    }
    assert JoinedAt(r, r', h, n, 0) && JoinedAt(r, r', h, n, size);
  }

  // ---- marking, and the end marker's prev ----

  /** Changing a used field, or the prev of the end marker, changes no link. */
  lemma SameLinks(r: seq<int>, r': seq<int>, b: set<nat>, size: nat)
    requires Links(r, b, size) && |r'| == |r| && Used(r', size)
    requires forall x :: x in b ==> Next(r', x) == Next(r, x) && (x != size ==> Prev(r', x) == Prev(r, x))
    ensures Links(r', b, size)
  {
    assert NextOk(r', b, size);
    assert OrderOk(r', b, size);
    assert PrevOk(r', b, size);
  }

  lemma SetUsedLinks(r: seq<int>, b: set<nat>, size: nat, h: nat, v: int)
    requires Links(r, b, size) && h in b && h != size
    ensures var r' := SetUsed(r, h, v);
      && Links(r', b, size)
      && (forall x :: x in b ==> Used(r', x) == (if x == h then v != 0 else Used(r, x)) && Next(r', x) == Next(r, x))
  {
    var r' := SetUsed(r, h, v);
    forall x | x in b ensures Next(r', x) == Next(r, x) && Prev(r', x) == Prev(r, x) &&
      (x != h ==> Used(r', x) == Used(r, x)) {
      ListApart(r, b, size, x, h);
    }
    ListApart(r, b, size, size, h);
    SameLinks(r, r', b, size);
  }

  /** The prev of the end marker is nobody's business. */
  lemma EndPrev(r: seq<int>, b: set<nat>, size: nat, v: int)
    requires Links(r, b, size)
    ensures var r' := r[size + 4 := v];
      && Links(r', b, size)
      && (forall x :: x in b ==> Used(r', x) == Used(r, x) && Next(r', x) == Next(r, x))
  {
    var r' := r[size + 4 := v];
    forall x | x in b ensures Next(r', x) == Next(r, x) && (x != size ==> Prev(r', x) == Prev(r, x)) &&
      Used(r', x) == Used(r, x) {
      ListApart(r, b, size, x, size);
    }
    SameLinks(r, r', b, size);
  }

  /** Inserting after merging is inserting, except for the end marker's prev. */
  lemma InsertAfterJoin(r: seq<int>, h: nat, q: nat, n: nat, size: nat)
    requires h + HDR <= q && q + HDR <= n && n + HDR <= |r| && n <= size && |r| == size + HDR
    ensures var r2 := Insert(Join(r, h, n), h, q, n, size);
      Insert(r, h, q, n, size) == if n == size then r2[size + 4 := r[size + 4]] else r2
  {
  }

  /** Moving the free struct `m` after `h` down to `q`. */
  lemma SlideLinks(r: seq<int>, b: set<nat>, size: nat, h: nat, m: nat, q: nat)
    requires CanJoin(r, b, size, h, m) && h + GAP <= q <= m && q % 4 == 0
    ensures var r' := Insert(r, h, q, Next(r, m), size);
      && Links(r', b - {m} + {q}, size) && Next(r', h) == q && Next(r', q) == Next(r, m) && !Used(r', q)
      && (forall x :: x in b - {m} ==> Used(r', x) == Used(r, x) && (x != h ==> Next(r', x) == Next(r, x)))
  {
    var n := Next(r, m);
    JoinLinks(r, b, size, h, m);
    SplitLinks(Join(r, h, n), b - {m}, size, h, q);
    InsertAfterJoin(r, h, q, n, size);
    EndPrev(Insert(Join(r, h, n), h, q, n, size), b - {m} + {q}, size, r[size + 4]);
  }
}
