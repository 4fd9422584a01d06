/** mem_init, mem_free, plug_holes, mem_realloc and mem_malloc, in place on the heap's cells. */
module Heap {
  import opened HeapModel

  const NULL: int := -1

  /** A struct that holds an allocation. */
  ghost predicate Live(r: seq<int>, b: set<nat>, size: nat, x: nat) {
    x in b && x < size && x + HDR <= |r| && Used(r, x)
  }

  /** `x` keeps its place, its extent, its use and its data. */
  ghost predicate Keeps(r: seq<int>, r': seq<int>, b': set<nat>, x: nat) {
    && x in b' && x + HDR <= |r| && |r'| == |r|
    && x + HDR <= Next(r, x) <= |r| && Next(r', x) == Next(r, x) && Used(r', x) == Used(r, x)
    && r'[x + HDR..Next(r, x)] == r[x + HDR..Next(r, x)]
  }

  /** Every allocation but `h` is untouched. */
  ghost predicate KeepsOthers(r: seq<int>, b: set<nat>, r': seq<int>, b': set<nat>, size: nat, h: nat) {
    forall x :: Live(r, b, size, x) && x != h ==> Keeps(r, r', b', x)
  }

  /** A data cell lies in no header. */
  lemma DataApart(r: seq<int>, b: set<nat>, size: nat, x: nat, y: nat, c: nat)
    requires Links(r, b, size) && x in b && y in b && x != size && x + HDR <= c < Next(r, x)
    ensures !InHeader(c, y) && Next(r, x) <= size
  {
    ListApart(r, b, size, x, y);
    assert x < y ==> Next(r, x) <= y;
    assert Next(r, x) in b;
  }

  lemma KeepsIntro(r: seq<int>, r': seq<int>, b': set<nat>, x: nat)
    requires x in b' && |r'| == |r| && x + HDR <= |r| && x + HDR <= Next(r, x) <= |r|
    requires Next(r', x) == Next(r, x) && Used(r', x) == Used(r, x)
    requires forall c :: x + HDR <= c < Next(r, x) ==> r'[c] == r[c]
    ensures Keeps(r, r', b', x)
  {
  }

  lemma KeepsTwice(r: seq<int>, b: set<nat>, r1: seq<int>, b1: set<nat>, r2: seq<int>, b2: set<nat>, size: nat, h: nat)
    requires KeepsOthers(r, b, r1, b1, size, h) && KeepsOthers(r1, b1, r2, b2, size, h)
    ensures KeepsOthers(r, b, r2, b2, size, h)
  {
    forall x | Live(r, b, size, x) && x != h ensures Keeps(r, r2, b2, x) {
      assert Keeps(r, r1, b1, x);
      assert Live(r1, b1, size, x);
      assert Keeps(r1, r2, b2, x);
    }
  }

  // ---- marking ----

  lemma SetUsedKeeps(r: seq<int>, b: set<nat>, size: nat, h: nat, v: int)
    requires Links(r, b, size) && h in b && h != size
    ensures KeepsOthers(r, b, SetUsed(r, h, v), b, size, h)
  {
    SetUsedLinks(r, b, size, h, v);
    forall x | Live(r, b, size, x) && x != h ensures Keeps(r, SetUsed(r, h, v), b, x) {
      assert Next(r, x) in b;
      SetUsedData(r, b, size, h, v, x);
      KeepsIntro(r, SetUsed(r, h, v), b, x);
    }
  }

  lemma SetUsedData(r: seq<int>, b: set<nat>, size: nat, h: nat, v: int, x: nat)
    requires Links(r, b, size) && h in b && h != size && x in b && x != size && x != h
    ensures Next(r, x) <= size
    ensures forall c :: x + HDR <= c < Next(r, x) ==> SetUsed(r, h, v)[c] == r[c]
  {
    assert Next(r, x) in b;
    forall c | x + HDR <= c < Next(r, x) ensures SetUsed(r, h, v)[c] == r[c] { DataApart(r, b, size, x, h, c); }
  }

  /** Only around `h` may two free structs meet. */
  ghost predicate CoalescedBut(r: seq<int>, b: set<nat>, size: nat, h: nat)
    requires Links(r, b, size)
  {
    forall x {:trigger Next(r, x)} ::
      x in b && x != size ==> Used(r, x) || Used(r, Next(r, x)) || x == h || Next(r, x) == h
  }

  /** Marking an allocation free: everything is in order but for its neighbours. */
  lemma FreedOk(r: seq<int>, b: set<nat>, size: nat, lfree: nat, h: nat)
    requires HeapOk(r, b, size, lfree) && h in b && h != size
    ensures var r' := SetUsed(r, h, 0);
      Links(r', b, size) && CoalescedBut(r', b, size, h) && Lowest(r', b, size, if h < lfree then h else lfree) &&
        !Used(r', h)
  {
    SetUsedLinks(r, b, size, h, 0);
    var r' := SetUsed(r, h, 0);
    forall x | x in b && x != size ensures Used(r', x) || Used(r', Next(r', x)) || x == h || Next(r', x) == h {
      assert Next(r, x) in b && (Used(r, x) || Used(r, Next(r, x)));
    }
  }

  // ---- merging ----

  lemma JoinKeeps(r: seq<int>, b: set<nat>, size: nat, h: nat, m: nat)
    requires CanJoin(r, b, size, h, m) && !Used(r, h) && !Used(r, m)
    ensures KeepsOthers(r, b, Join(r, h, Next(r, m)), b - {m}, size, h)
  {
    JoinLinks(r, b, size, h, m);
    forall x | Live(r, b, size, x) && x != h ensures Keeps(r, Join(r, h, Next(r, m)), b - {m}, x) {
      assert Next(r, x) in b;
      JoinData(r, b, size, h, m, x);
      KeepsIntro(r, Join(r, h, Next(r, m)), b - {m}, x);
    }
  }

  lemma JoinData(r: seq<int>, b: set<nat>, size: nat, h: nat, m: nat, x: nat)
    requires CanJoin(r, b, size, h, m) && x in b && x != size
    ensures Next(r, x) <= size
    ensures forall c :: x + HDR <= c < Next(r, x) ==> Join(r, h, Next(r, m))[c] == r[c]
  {
    var n := Next(r, m);
    assert Next(r, x) in b && n in b;
    forall c | x + HDR <= c < Next(r, x) ensures Join(r, h, n)[c] == r[c] {
      DataApart(r, b, size, x, h, c);
      DataApart(r, b, size, x, n, c);
      JoinOnly(r, h, n, c);
    }
  }

  /** Merging the free struct `h` with the free struct after it; `h` itself may still have a free predecessor. */
  lemma JoinForward(r: seq<int>, b: set<nat>, size: nat, h: nat, m: nat)
    requires CanJoin(r, b, size, h, m) && !Used(r, h) && !Used(r, m) && CoalescedBut(r, b, size, h)
    ensures var r' := Join(r, h, Next(r, m));
      && Links(r', b - {m}, size) && CoalescedBut(r', b - {m}, size, h)
      && !Used(r', h) && Used(r', Next(r', h)) && Prev(r', h) == Prev(r, h)
  {
    JoinLinks(r, b, size, h, m);
    var n := Next(r, m);
    var r' := Join(r, h, n);
    var c := b - {m};
    assert Used(r, n) by { assert Next(r, m) == n && m in b; assert Used(r, m) || Used(r, n) || m == h || n == h; }
    ListApart(r, b, size, h, n);
    forall x | x in c && x != size ensures Used(r', x) || Used(r', Next(r', x)) || x == h || Next(r', x) == h {
      if x != h {
        assert Next(r, x) in b && (Used(r, x) || Used(r, Next(r, x)) || Next(r, x) == h);
        assert Next(r', x) == Next(r, x) && Next(r', x) in c;
      }
    }
  }

  /** Merging `h` into its free predecessor puts everything in order. */
  lemma JoinBackward(r: seq<int>, b: set<nat>, size: nat, p: nat, h: nat)
    requires CanJoin(r, b, size, p, h) && !Used(r, p) && !Used(r, h) && Used(r, Next(r, h)) &&
      CoalescedBut(r, b, size, h)
    ensures Links(Join(r, p, Next(r, h)), b - {h}, size) && Coalesced(Join(r, p, Next(r, h)), b - {h}, size)
  {
    JoinLinks(r, b, size, p, h);
    var n := Next(r, h);
    var r' := Join(r, p, n);
    var c := b - {h};
    assert n in b;
    forall x | x in c && x != size ensures Used(r', x) || Used(r', Next(r', x)) {
      if x != p { assert Next(r', x) == Next(r, x) && Next(r', x) in c; }
    }
  }

  /** With both neighbours in use, or none below, nothing is left to merge. */
  lemma NothingToJoin(r: seq<int>, b: set<nat>, size: nat, h: nat)
    requires Links(r, b, size) && CoalescedBut(r, b, size, h) && h in b && h != size
    requires Used(r, Next(r, h)) && (h != 0 ==> Used(r, Prev(r, h)))
    ensures Coalesced(r, b, size)
  {
    forall x | x in b && x != size && Next(r, x) == h ensures Used(r, x) {
      assert Prev(r, h) < h;
      OnePredecessor(r, b, size, x, Prev(r, h));
    }
  }

  lemma OnePredecessor(r: seq<int>, b: set<nat>, size: nat, x: nat, y: nat)
    requires Links(r, b, size) && x in b && y in b && x != size && y != size && Next(r, x) == Next(r, y)
    ensures x == y
  {
  }

  // ---- inserting ----

  lemma InsertKeeps(r: seq<int>, b: set<nat>, size: nat, h: nat, q: nat, n: nat, b': set<nat>)
    requires Links(r, b, size) && h in b && h != size && n in b && h + GAP <= q && q + GAP <= n
    requires forall x :: x in b && h < x < n ==> !Used(r, x)
    requires Links(Insert(r, h, q, n, size), b', size)
    requires forall x :: x in b && !(h <= x < n) ==>
      x in b' && Used(Insert(r, h, q, n, size), x) == Used(r, x) && Next(Insert(r, h, q, n, size), x) == Next(r, x)
    ensures KeepsOthers(r, b, Insert(r, h, q, n, size), b', size, h)
  {
    var r' := Insert(r, h, q, n, size);
    forall x | Live(r, b, size, x) && x != h ensures Keeps(r, r', b', x) {
      assert Next(r, x) in b;
      InsertData(r, b, size, h, q, n, x);
      KeepsIntro(r, r', b', x);
    }
  }

  lemma InsertData(r: seq<int>, b: set<nat>, size: nat, h: nat, q: nat, n: nat, x: nat)
    requires Links(r, b, size) && h in b && h != size && n in b && h + GAP <= q && q + GAP <= n
    requires x in b && x != size && !(h <= x < n)
    ensures Next(r, x) <= size
    ensures forall c :: x + HDR <= c < Next(r, x) ==> Insert(r, h, q, n, size)[c] == r[c]
  {
    assert Next(r, x) in b;
    assert x < h ==> Next(r, x) <= h;
    forall c | x + HDR <= c < Next(r, x) ensures Insert(r, h, q, n, size)[c] == r[c] {
      DataApart(r, b, size, x, h, c);
      DataApart(r, b, size, x, n, c);
      InsertOnly(r, h, q, n, size, c);
    }
  }

  /** The part of `h`'s data below the inserted header survives. */
  lemma InsertPrefix(r: seq<int>, h: nat, q: nat, n: nat, size: nat)
    requires h + HDR <= q && q + HDR <= n && n + HDR <= |r|
    ensures Insert(r, h, q, n, size)[h + HDR..q] == r[h + HDR..q]
  {
    forall c | h + HDR <= c < q ensures Insert(r, h, q, n, size)[c] == r[c] {
      InsertOnly(r, h, q, n, size, c);
    }
  }

  /** A new or moved free struct `q` between two used ones leaves no two free structs in a row. */
  lemma InsertedCoalesced(r: seq<int>, r': seq<int>, b: set<nat>, c: set<nat>, size: nat, h: nat, q: nat)
    requires Links(r, b, size) && Coalesced(r, b, size) && Links(r', c, size)
    requires h in b && h in c && h != size && q in c && q != size && Next(r', h) == q && Used(r, h)
    requires Next(r', q) in b && Next(r', q) in c && Used(r, Next(r', q))
    requires forall x ::
      x in c && x != q ==> x in b && Used(r', x) == Used(r, x) && (x != h ==> Next(r', x) == Next(r, x))
    ensures Coalesced(r', c, size)
  {
    forall x {:trigger Next(r', x)} | x in c && x != size ensures Used(r', x) || Used(r', Next(r', x)) {
      if x != q && x != h {
        assert Next(r', x) == Next(r, x) && Next(r', x) in c;
        assert Next(r, x) != q by {
          assert x < h ==> Next(r', x) <= h;
          assert h < x ==> Next(r', h) <= x;
        }
      }
    }
  }

  lemma SplitOk(r: seq<int>, b: set<nat>, size: nat, h: nat, q: nat)
    requires CanSplit(r, b, size, h, q) && Used(r, h) && Coalesced(r, b, size) && Used(r, Next(r, h))
    ensures var r' := Insert(r, h, q, Next(r, h), size);
      Links(r', b + {q}, size) && Coalesced(r', b + {q}, size)
  {
    SplitLinks(r, b, size, h, q);
    InsertedCoalesced(r, Insert(r, h, q, Next(r, h), size), b, b + {q}, size, h, q);
  }

  lemma SplitKeeps(r: seq<int>, b: set<nat>, size: nat, h: nat, q: nat)
    requires CanSplit(r, b, size, h, q)
    ensures KeepsOthers(r, b, Insert(r, h, q, Next(r, h), size), b + {q}, size, h)
  {
    SplitLinks(r, b, size, h, q);
    var n := Next(r, h);
    assert n in b;
    assert forall x :: x in b && h < x ==> n <= x;
    InsertKeeps(r, b, size, h, q, n, b + {q});
  }

  /** Moving the free struct after the allocation `h` down to `q`. */
  lemma SlideOk(r: seq<int>, b: set<nat>, size: nat, lfree: nat, h: nat, m: nat, q: nat)
    requires HeapOk(r, b, size, lfree) && CanJoin(r, b, size, h, m) && Used(r, h) && !Used(r, m)
    requires h + GAP <= q < m && q % 4 == 0
    ensures var r' := Insert(r, h, q, Next(r, m), size);
      HeapOk(r', b - {m} + {q}, size, if lfree == m then q else lfree) && Next(r', h) == q && Used(r', h)
  {
    SlideLinks(r, b, size, h, m, q);
    assert forall x :: x in b && h < x ==> m <= x;
    assert Used(r, m) || Used(r, Next(r, m));
    InsertedCoalesced(r, Insert(r, h, q, Next(r, m), size), b, b - {m} + {q}, size, h, q);
  }

  lemma SlideKeeps(r: seq<int>, b: set<nat>, size: nat, h: nat, m: nat, q: nat)
    requires CanJoin(r, b, size, h, m) && !Used(r, m) && h + GAP <= q < m && q % 4 == 0
    ensures KeepsOthers(r, b, Insert(r, h, q, Next(r, m), size), b - {m} + {q}, size, h)
  {
    SlideLinks(r, b, size, h, m, q);
    var n := Next(r, m);
    assert m in b && n in b;
    forall x | x in b && h < x < n ensures x == m { OnlyBetween(r, b, size, h, m, x); }
    InsertKeeps(r, b, size, h, q, n, b - {m} + {q});
  }

  lemma OnlyBetween(r: seq<int>, b: set<nat>, size: nat, h: nat, m: nat, x: nat)
    requires CanJoin(r, b, size, h, m) && x in b && h < x < Next(r, m)
    ensures x == m
  {
    assert m in b && Next(r, h) <= x;
  }

  // ---- the heap ----

  class LwipHeap {
    /** MEM_SIZE_ALIGNED. */
    const size: nat
    var ram: array<int>
    var lfree: nat
    /** The offsets of all structs, the end marker included. */
    ghost var blocks: set<nat>

    ghost predicate Valid()
      reads this, ram
    {
      ram.Length == size + HDR && HeapOk(ram[..], blocks, size, lfree)
    }

    /** mem_init: one free struct and the end marker. */
    constructor (size: nat)
      requires size % 4 == 0 && size >= GAP
      ensures Valid() && this.size == size && blocks == {0, size} && !Used(ram[..], 0)
    {
      this.size := size;
      ram := new int[size + HDR](i => 0);
      lfree := 0;
      blocks := {0, size};
      new;
      ram[0], ram[4], ram[8] := size, 0, 0;
      ram[size + 8], ram[size], ram[size + 4] := 1, size, size;
      assert NextOk(ram[..], blocks, size) && OrderOk(ram[..], blocks, size) && PrevOk(ram[..], blocks, size);
    }

    /**
     * lfree is the lowest free struct, or one of the structs about to be merged around `h` with none below but those.
     */
    static ghost predicate NearlyLowest(r: seq<int>, b: set<nat>, size: nat, lfree: nat, h: nat)
      requires Links(r, b, size) && h in b && h != size
    {
      || Lowest(r, b, size, lfree)
      || (&& lfree in b && lfree != size && !Used(r, lfree) &&
        (lfree == h || lfree == Next(r, h) || lfree == Prev(r, h))
          && forall x :: x in b && x < lfree && x != h && x != Prev(r, h) ==> Used(r, x))
    }

    /** The state in which `mem` has been freed and only its neighbours may need merging. */
    ghost predicate Holed(mem: nat)
      reads this, ram
    {
      ram.Length == size + HDR && HoledAt(ram[..], blocks, size, lfree, mem)
    }

    static ghost predicate HoledAt(r: seq<int>, b: set<nat>, size: nat, lfree: nat, mem: nat) {
      && Links(r, b, size) && mem in b && mem != size && !Used(r, mem)
      && CoalescedBut(r, b, size, mem) && NearlyLowest(r, b, size, lfree, mem)
    }

    /** A struct that can be merged: free, and not the end marker. */
    static ghost predicate Hole(r: seq<int>, size: nat, x: int) {
      0 <= x < size && x + HDR <= |r| && !Used(r, x)
    }

    /** What freeing `h` does to the list: a free successor and `h` after a free predecessor are merged away. */
    static ghost function Merged(r: seq<int>, b: set<nat>, size: nat, h: nat): set<nat>
      requires h + HDR <= |r|
    {
      b - (if Hole(r, size, Next(r, h)) then {Next(r, h)} else {})
        - (if Prev(r, h) != h && Hole(r, size, Prev(r, h)) then {h} else {})
    }

    /** plug_holes: merge the freed struct `mem` with its free neighbours. */
    method PlugHoles(mem: nat)
      requires Holed(mem)
      modifies this`lfree, this`blocks, ram
      ensures Valid() && KeepsOthers(old(ram[..]), old(blocks), ram[..], blocks, size, mem)
      ensures blocks == Merged(old(ram[..]), old(blocks), size, mem)
      ensures forall x :: x in blocks ==> Used(ram[..], x) == Used(old(ram[..]), x)
    {
      ghost var (r0, b0) := (ram[..], blocks);
      assert Prev(r0, mem) in b0 && Prev(r0, mem) <= mem;
      PlugForward(mem);
      ghost var (r1, b1) := (ram[..], blocks);
      PlugBackward(mem);
      KeepsTwice(r0, b0, r1, b1, ram[..], blocks, size, mem);
    }

    static lemma ForwardLowest(r: seq<int>, b: set<nat>, size: nat, lfree: nat, h: nat, m: nat)
      requires CanJoin(r, b, size, h, m) && !Used(r, h) && !Used(r, m) && NearlyLowest(r, b, size, lfree, h)
      requires var r' := Join(r, h, Next(r, m)); Links(r', b - {m}, size) && !Used(r', h) && Prev(r', h) == Prev(r, h)
      ensures NearlyLowest(Join(r, h, Next(r, m)), b - {m}, size, if lfree == m then h else lfree, h)
    {
      JoinLinks(r, b, size, h, m);
      ListApart(r, b, size, h, m);
    }

    static lemma ForwardOk(r: seq<int>, b: set<nat>, size: nat, lfree: nat, h: nat)
      requires HoledAt(r, b, size, lfree, h) && Next(r, h) != size && !Used(r, Next(r, h))
      ensures CanJoin(r, b, size, h, Next(r, h))
      ensures var m := Next(r, h); var (r', b') := (Join(r, h, Next(r, m)), b - {m});
        && HoledAt(r', b', size, if lfree == m then h else lfree, h) && KeepsOthers(r, b, r', b', size, h)
        && Used(r', Next(r', h)) && Prev(r', h) == Prev(r, h)
        && forall x :: x in b' ==> Used(r', x) == Used(r, x)
    {
      var m := Next(r, h);
      assert m in b;
      JoinForward(r, b, size, h, m);
      ForwardLowest(r, b, size, lfree, h, m);
      JoinLinks(r, b, size, h, m);
      JoinKeeps(r, b, size, h, m);
    }

    static lemma BackwardLowest(r: seq<int>, b: set<nat>, size: nat, lfree: nat, p: nat, h: nat)
      requires CanJoin(r, b, size, p, h) && !Used(r, p) && !Used(r, h) && p == Prev(r, h) && Used(r, Next(r, h))
      requires NearlyLowest(r, b, size, lfree, h) && Links(Join(r, p, Next(r, h)), b - {h}, size)
      ensures Lowest(Join(r, p, Next(r, h)), b - {h}, size, if lfree == h then p else lfree)
    {
      JoinLinks(r, b, size, p, h);
      ListApart(r, b, size, p, h);
      assert p < h;
      forall x | x in b && x < p ensures Used(r, x) || lfree <= x { }
    }

    static lemma BackwardOk(r: seq<int>, b: set<nat>, size: nat, lfree: nat, p: nat, h: nat)
      requires HoledAt(r, b, size, lfree, h) && Used(r, Next(r, h)) && p == Prev(r, h) && p < h && !Used(r, p)
      ensures CanJoin(r, b, size, p, h) && p + HDR <= h
      ensures var (r', b') := (Join(r, p, Next(r, h)), b - {h});
        && HeapOk(r', b', size, if lfree == h then p else lfree) && KeepsOthers(r, b, r', b', size, h)
        && forall x :: x in b' ==> Used(r', x) == Used(r, x)
    {
      assert p in b && Next(r, p) == h;
      JoinBackward(r, b, size, p, h);
      BackwardLowest(r, b, size, lfree, p, h);
      JoinLinks(r, b, size, p, h);
      JoinKeeps(r, b, size, p, h);
    }

    method PlugForward(mem: nat)
      requires Holed(mem)
      modifies this`lfree, this`blocks, ram
      ensures Holed(mem) && KeepsOthers(old(ram[..]), old(blocks), ram[..], blocks, size, mem)
      ensures Used(ram[..], Next(ram[..], mem)) && Prev(ram[..], mem) == Prev(old(ram[..]), mem)
      ensures var (r, n) := (old(ram[..]), Next(old(ram[..]), mem));
        blocks == old(blocks) - if Hole(r, size, n) then {n} else {}
      ensures forall x :: x in blocks ==> Used(ram[..], x) == Used(old(ram[..]), x)
    {
      ghost var (r0, b0) := (ram[..], blocks);
      var nmem := ram[mem];
      assert Next(r0, mem) in b0;
      if mem != nmem && ram[nmem + 8] == 0 && nmem != size {
        ForwardOk(r0, b0, size, lfree, mem);
        if lfree == nmem {
          lfree := mem;
        }
        assert Next(r0, nmem) in b0;
        ram[mem] := ram[nmem];
        ram[ram[nmem] + 4] := mem;
        blocks := blocks - {nmem};
        assert ram[..] == Join(r0, mem, Next(r0, nmem));
      } else {
        KeepsAll(r0, b0, size, mem);
      }
    }

    method PlugBackward(mem: nat)
      requires Holed(mem) && Used(ram[..], Next(ram[..], mem))
      modifies this`lfree, this`blocks, ram
      ensures Valid() && KeepsOthers(old(ram[..]), old(blocks), ram[..], blocks, size, mem)
      ensures var (r, p) := (old(ram[..]), Prev(old(ram[..]), mem));
        blocks == old(blocks) - if p != mem && Hole(r, size, p) then {mem} else {}
      ensures forall x :: x in blocks ==> Used(ram[..], x) == Used(old(ram[..]), x)
    {
      ghost var (r0, b0) := (ram[..], blocks);
      var pmem := ram[mem + 4];
      assert pmem == Prev(r0, mem) && (mem != 0 ==> pmem < mem && pmem in b0 && Next(r0, pmem) == mem);
      if pmem != mem && ram[pmem + 8] == 0 {
        BackwardOk(r0, b0, size, lfree, pmem, mem);
        if lfree == mem {
          lfree := pmem;
        }
        assert Next(r0, mem) in b0;
        ram[pmem] := ram[mem];
        ram[ram[mem] + 4] := pmem;
        blocks := blocks - {mem};
        assert ram[..] == Join(r0, pmem, Next(r0, mem));
      } else {
        NothingToJoin(r0, b0, size, mem);
        KeepsAll(r0, b0, size, mem);
      }
    }

    /** mem_free: NULL and pointers outside the heap are ignored; an allocation is freed and merged. */
    method MemFree(p: int)
      requires Valid() && (0 <= p < size ==> p >= HDR && Live(ram[..], blocks, size, p - HDR))
      modifies this`lfree, this`blocks, ram
      ensures Valid()
      ensures !(0 <= p < size) ==> ram[..] == old(ram[..]) && blocks == old(blocks) && lfree == old(lfree)
      ensures 0 <= p < size ==>
        && KeepsOthers(old(ram[..]), old(blocks), ram[..], blocks, size, p - HDR)
        && blocks == Merged(old(ram[..]), old(blocks), size, p - HDR)
        && forall x :: x in blocks ==> Used(ram[..], x) == (x != p - HDR && Used(old(ram[..]), x))
    {
      if p < 0 || p >= size {
        return;
      }
      var mem := p - HDR;
      ghost var (r0, b0) := (ram[..], blocks);
      MarkFree(mem);
      ghost var r1 := ram[..];
      PlugHoles(mem);
      KeepsTwice(r0, b0, r1, b0, ram[..], blocks, size, mem);
    }

    static lemma MergedSame(r: seq<int>, b: set<nat>, size: nat, h: nat)
      requires Links(r, b, size) && h in b && h != size
      ensures Merged(SetUsed(r, h, 0), b, size, h) == Merged(r, b, size, h)
    {
      SetUsedLinks(r, b, size, h, 0);
      assert Next(r, h) in b && Prev(r, h) in b;
    }

    method MarkFree(mem: nat)
      requires Valid() && Live(ram[..], blocks, size, mem)
      modifies this`lfree, ram
      ensures Holed(mem) && KeepsOthers(old(ram[..]), blocks, ram[..], blocks, size, mem)
      ensures Merged(ram[..], blocks, size, mem) == Merged(old(ram[..]), blocks, size, mem)
      ensures forall x :: x in blocks ==> Used(ram[..], x) == (x != mem && Used(old(ram[..]), x))
    {
      ghost var (r0, b0) := (ram[..], blocks);
      FreedOk(r0, b0, size, lfree, mem);
      SetUsedLinks(r0, b0, size, mem, 0);
      SetUsedKeeps(r0, b0, size, mem, 0);
      MergedSame(r0, b0, size, mem);
      ram[mem + 8] := 0;
      assert ram[..] == SetUsed(r0, mem, 0);
      if mem < lfree {
        lfree := mem;
      }
    }

    // ---- mem_malloc ----

    /** A free struct whose data space holds `need` bytes. */
    static ghost predicate Fits(r: seq<int>, x: nat, need: nat) {
      x + HDR <= |r| && !Used(r, x) && Next(r, x) - (x + HDR) >= need
    }

    /** No struct below `hi` fits. */
    static ghost predicate NoFit(r: seq<int>, b: set<nat>, hi: nat, need: nat) {
      forall x :: x in b && x < hi ==> !Fits(r, x, need)
    }

    static lemma NoFitIn(r: seq<int>, b: set<nat>, size: nat, need: nat, ptr: nat)
      requires Links(r, b, size) && NoFit(r, b, ptr, need) && (need <= size ==> ptr >= size - need)
      ensures NoFit(r, b, size, need)
    {
      forall x | x in b && x < size ensures !Fits(r, x, need) {
        assert Next(r, x) in b;
      }
    }

    static lemma MarkLast(r: seq<int>, h: nat, q: nat, n: nat, size: nat)
      requires h + HDR <= q && q + HDR <= n && n + HDR <= |r|
      ensures SetUsed(Insert(r, h, q, n, size), h, 1) == Insert(SetUsed(r, h, 1), h, q, n, size)
    {
    }

    /**
     * Where the data of `h` ends once it has been cut to `need` bytes: the rest is split off if a struct fits there.
     */
    static ghost function CutEnd(r: seq<int>, h: nat, need: nat): int
      requires h + HDR <= |r|
    {
      if Next(r, h) - (h + HDR) >= need + GAP then h + HDR + need else Next(r, h)
    }

    /**
     * What mem_malloc does on success: the lowest fitting free struct `h` is taken, its rest split off where
     * possible.
     */
    static ghost predicate Allocated(r: seq<int>, b: set<nat>, r': seq<int>, b': set<nat>, size: nat, h: nat,
        need: nat) {
      && h in b && h < size && Fits(r, h, need) && |r'| == |r|
      && Live(r', b', size, h) && Next(r', h) == CutEnd(r, h, need)
      && b' == (if CutEnd(r, h, need) != Next(r, h) then b + {h + HDR + need} else b)
      && KeepsOthers(r, b, r', b', size, h)
    }

    static ghost predicate OnlyTaken(r: seq<int>, b: set<nat>, r': seq<int>, b': set<nat>, h: nat)
    {
      forall x :: x in b' && x + HDR <= |r'| ==> Used(r', x) == (x == h || (x in b && x + HDR <= |r| && Used(r, x)))
    }

    static ghost predicate UsedBelow(r: seq<int>, b: set<nat>, lfree: nat) {
      lfree in b && forall x :: x in b && x < lfree && x + HDR <= |r| ==> Used(r, x)
    }

    static lemma TakeWhole(r: seq<int>, b: set<nat>, size: nat, lfree: nat, h: nat)
      requires HeapOk(r, b, size, lfree) && h in b && h != size
      ensures var r' := SetUsed(r, h, 1);
        && Links(r', b, size) && Coalesced(r', b, size) && KeepsOthers(r, b, r', b, size, h) &&
          OnlyTaken(r, b, r', b, h)
        && Used(r', h) && Next(r', h) == Next(r, h) && UsedBelow(r', b, lfree) &&
          (h != lfree ==> Lowest(r', b, size, lfree))
    {
      SetUsedLinks(r, b, size, h, 1);
      SetUsedKeeps(r, b, size, h, 1);
      var r' := SetUsed(r, h, 1);
      forall x {:trigger Next(r', x)} | x in b && x != size ensures Used(r', x) || Used(r', Next(r', x)) {
        assert Next(r, x) in b;
      }
    }

    static lemma TakePart(r: seq<int>, b: set<nat>, size: nat, lfree: nat, h: nat, q: nat)
      requires HeapOk(r, b, size, lfree) && h in b && h != size && !Used(r, h)
      requires CanSplit(SetUsed(r, h, 1), b, size, h, q) && Next(SetUsed(r, h, 1), h) == Next(r, h)
      ensures var (r', b') := (Insert(SetUsed(r, h, 1), h, q, Next(r, h), size), b + {q});
        && Links(r', b', size) && Coalesced(r', b', size) && KeepsOthers(r, b, r', b', size, h) &&
          OnlyTaken(r, b, r', b', h)
        && Used(r', h) && Next(r', h) == q && UsedBelow(r', b', lfree) && (h != lfree ==> Lowest(r', b', size, lfree))
    {
      TakeWhole(r, b, size, lfree, h);
      var r1 := SetUsed(r, h, 1);
      assert Next(r, h) in b && Used(r, Next(r, h)) && lfree <= h;
      SplitLinks(r1, b, size, h, q);
      SplitOk(r1, b, size, h, q);
      SplitKeeps(r1, b, size, h, q);
      KeepsTwice(r, b, r1, b, Insert(r1, h, q, Next(r, h), size), b + {q}, size, h);
    }

    /** In order, but lfree may still point at the struct just taken. */
    static ghost predicate Taken(r: seq<int>, b: set<nat>, size: nat, lfree: nat, h: nat) {
      && Links(r, b, size) && Coalesced(r, b, size) && UsedBelow(r, b, lfree)
      && (h != lfree ==> Lowest(r, b, size, lfree))
    }

    /** The heap with `h` taken for `need` bytes. */
    static ghost function Carved(r: seq<int>, size: nat, h: nat, need: nat): seq<int>
      requires h + HDR <= |r| && size + HDR <= |r| && Next(r, h) <= size
    {
      if Next(r, h) - (h + HDR) >= need + GAP then Insert(SetUsed(r, h, 1), h, h + HDR + need, Next(r, h), size)
      else SetUsed(r, h, 1)
    }

    static ghost function CarvedBlocks(r: seq<int>, b: set<nat>, h: nat, need: nat): set<nat>
      requires h + HDR <= |r|
    {
      if Next(r, h) - (h + HDR) >= need + GAP then b + {h + HDR + need} else b
    }

    static lemma TakeOk(r: seq<int>, b: set<nat>, size: nat, lfree: nat, h: nat, need: nat)
      requires HeapOk(r, b, size, lfree) && h in b && h != size && Fits(r, h, need) && need >= MIN && need % 4 == 0
      ensures Next(r, h) <= size
      ensures var (r', b') := (Carved(r, size, h, need), CarvedBlocks(r, b, h, need));
        Taken(r', b', size, lfree, h) && Allocated(r, b, r', b', size, h, need) && OnlyTaken(r, b, r', b', h)
    {
      assert Next(r, h) in b;
      TakeWhole(r, b, size, lfree, h);
      if Next(r, h) - (h + HDR) >= need + GAP {
        TakePart(r, b, size, lfree, h, h + HDR + need);
        assert Carved(r, size, h, need) == Insert(SetUsed(r, h, 1), h, h + HDR + need, Next(r, h), size);
      } else {
        assert Carved(r, size, h, need) == SetUsed(r, h, 1);
      }
    }

    /** Writes what mem_malloc writes into the struct it takes. */
    method Carve(mem: nat, need: nat)
      requires ram.Length == size + HDR && mem + HDR <= ram.Length && mem + HDR <= Next(ram[..], mem) <= size &&
        need >= MIN
      modifies ram
      ensures ram[..] == Carved(old(ram[..]), size, mem, need)
    {
      ghost var r0 := ram[..];
      if ram[mem] - (mem + HDR) >= need + HDR + MIN {
        var q := mem + HDR + need;
        Link(mem, q, ram[mem]);
        ram[mem + 8] := 1;
        assert ram[..] == SetUsed(Insert(r0, mem, q, Next(r0, mem), size), mem, 1);
        MarkLast(r0, mem, q, Next(r0, mem), size);
      } else {
        ram[mem + 8] := 1;
        assert ram[..] == SetUsed(r0, mem, 1);
      }
    }

    method TakeAt(mem: nat, need: nat)
      requires Valid() && mem in blocks && mem != size && Fits(ram[..], mem, need) && need >= MIN && need % 4 == 0
      modifies this`lfree, this`blocks, ram
      ensures Valid() && Allocated(old(ram[..]), old(blocks), ram[..], blocks, size, mem, need)
      ensures OnlyTaken(old(ram[..]), old(blocks), ram[..], blocks, mem)
    {
      TakeOk(ram[..], blocks, size, lfree, mem, need);
      blocks := CarvedBlocks(ram[..], blocks, mem, need);
      Carve(mem, need);
      if mem == lfree {
        Advance();
      }
    }

    /** Puts a free struct at `q`, between `mem` and `next`. */
    method Link(mem: nat, q: nat, next: nat)
      requires ram.Length == size + HDR && mem + HDR <= q && q + HDR <= next <= size
      modifies ram
      ensures ram[..] == Insert(old(ram[..]), mem, q, next, size)
    {
      ghost var r0 := ram[..];
      ram[q + 8] := 0;
      ram[q] := next;
      ram[q + 4] := mem;
      ram[mem] := q;
      if ram[q] != size {
        ram[ram[q] + 4] := q;
      }
      assert ram[..] == Insert(r0, mem, q, next, size);
    }

    /** Moves lfree up to the next free struct. */
    method Advance()
      requires ram.Length == size + HDR && Links(ram[..], blocks, size) && UsedBelow(ram[..], blocks, lfree)
      modifies this`lfree
      ensures Lowest(ram[..], blocks, size, lfree)
    {
      while ram[lfree + 8] != 0 && lfree != size
        invariant UsedBelow(ram[..], blocks, lfree)
        decreases size - lfree
      {
        assert Used(ram[..], lfree) && lfree in blocks && Next(ram[..], lfree) in blocks;
        lfree := ram[lfree];
      }
    }

    /** mem_malloc: first fit from the lowest free struct. */
    method MemMalloc(n: nat) returns (p: int)
      requires Valid() && n < WORD
      modifies this`lfree, this`blocks, ram
      ensures Valid()
      ensures p == NULL <==> n == 0 || NoFit(old(ram[..]), old(blocks), size, Rounded(n))
      ensures p == NULL ==> ram[..] == old(ram[..]) && blocks == old(blocks) && lfree == old(lfree)
      ensures p != NULL ==>
        && p >= HDR && p % 4 == 0
        && Allocated(old(ram[..]), old(blocks), ram[..], blocks, size, p - HDR, Rounded(n))
        && OnlyTaken(old(ram[..]), old(blocks), ram[..], blocks, p - HDR)
        && NoFit(old(ram[..]), old(blocks), p - HDR, Rounded(n))
    {
      if n == 0 {
        return NULL;
      }
      var need := Rounded(n);
      if need > size {
        NoFitIn(ram[..], blocks, size, need, 0);
        return NULL;
      }
      p := Allocate(need);
    }

    /** mem_malloc once the size is rounded. */
    method Allocate(need: nat) returns (p: int)
      requires Valid() && MIN <= need <= size && need % 4 == 0
      modifies this`lfree, this`blocks, ram
      ensures Valid()
      ensures p == NULL <==> NoFit(old(ram[..]), old(blocks), size, need)
      ensures p == NULL ==> ram[..] == old(ram[..]) && blocks == old(blocks) && lfree == old(lfree)
      ensures p != NULL ==>
        && p >= HDR && p % 4 == 0
        && Allocated(old(ram[..]), old(blocks), ram[..], blocks, size, p - HDR, need)
        && OnlyTaken(old(ram[..]), old(blocks), ram[..], blocks, p - HDR)
        && NoFit(old(ram[..]), old(blocks), p - HDR, need)
    {
      ghost var (r0, b0) := (ram[..], blocks);
      var ptr := FindFit(need);
      assert ram[..] == r0;
      if ptr == size {
        return NULL;
      }
      assert ptr in b0 && ptr < size && ptr % 4 == 0;
      assert !NoFit(r0, b0, size, need) by { assert Fits(r0, ptr, need); }
      TakeAt(ptr, need);
      return ptr + HDR;
    }

    /** The scan of mem_malloc: the lowest free struct that fits, or the end of the heap. */
    method FindFit(need: nat) returns (ptr: nat)
      requires Valid() && need <= size
      ensures ptr in blocks && (ptr != size ==> Fits(ram[..], ptr, need))
      ensures NoFit(ram[..], blocks, ptr, need)
    {
      ghost var (r0, b0) := (ram[..], blocks);
      ptr := lfree;
      while ptr < size - need
        invariant ptr in b0 && NoFit(r0, b0, ptr, need)
        decreases size - ptr
      {
        if ram[ptr + 8] == 0 && ram[ptr] - (ptr + HDR) >= need {
          return;
        }
        assert Next(r0, ptr) in b0 && !Fits(r0, ptr, need);
        ptr := ram[ptr];
      }
      NoFitIn(r0, b0, size, need, ptr);
      ptr := size;
    }

    // ---- mem_realloc ----

    /** Where mem_realloc leaves the end of `h`. */
    static ghost function ShrunkEnd(r: seq<int>, h: nat, need: nat): int
      requires h + HDR <= |r| && 0 <= Next(r, h) && Next(r, h) + HDR <= |r|
    {
      if !Used(r, Next(r, h)) then h + HDR + need else CutEnd(r, h, need)
    }

    /**
     * What shrinking `h` to `need` bytes leaves: the first `need` bytes, every other allocation, and the rest
     * returned.
     */
    static ghost predicate Reduced(r: seq<int>, b: set<nat>, r': seq<int>, b': set<nat>, size: nat, h: nat, need: nat)
    {
      && |r'| == |r| && Live(r', b', size, h)
      && h + HDR + need <= |r| && 0 <= Next(r, h) && Next(r, h) + HDR <= |r| && Next(r', h) == ShrunkEnd(r, h, need)
      && r'[h + HDR..h + HDR + need] == r[h + HDR..h + HDR + need]
      && KeepsOthers(r, b, r', b', size, h)
    }

    static lemma ReduceSlide(r: seq<int>, b: set<nat>, size: nat, lfree: nat, h: nat, q: nat)
      requires HeapOk(r, b, size, lfree) && Live(r, b, size, h) && !Used(r, Next(r, h))
      requires h + HDR + MIN <= q < Next(r, h) && q % 4 == 0
      ensures var m := Next(r, h); var n := Next(r, m); var (r', b') := (Insert(r, h, q, n, size), b - {m} + {q});
        && m in b && n in b && q + GAP <= n && |r'| == |r|
        && HeapOk(r', b', size, if lfree == m then q else lfree) && Reduced(r, b, r', b', size, h, q - h - HDR)
    {
      var m := Next(r, h);
      assert m in b;
      assert m != size;
      assert Next(r, m) in b;
      SlideOk(r, b, size, lfree, h, m, q);
      SlideKeeps(r, b, size, h, m, q);
      InsertPrefix(r, h, q, Next(r, m), size);
    }

    static lemma ReduceSplit(r: seq<int>, b: set<nat>, size: nat, lfree: nat, h: nat, q: nat)
      requires HeapOk(r, b, size, lfree) && Live(r, b, size, h) && Used(r, Next(r, h))
      requires h + GAP <= q && q + GAP <= Next(r, h) && q % 4 == 0
      ensures var n := Next(r, h); var (r', b') := (Insert(r, h, q, n, size), b + {q});
        && n in b && |r'| == |r|
        && HeapOk(r', b', size, if q < lfree then q else lfree) && Reduced(r, b, r', b', size, h, q - h - HDR)
    {
      assert Next(r, h) in b;
      SplitOk(r, b, size, h, q);
      SplitLinks(r, b, size, h, q);
      SplitKeeps(r, b, size, h, q);
      InsertPrefix(r, h, q, Next(r, h), size);
    }

    /** mem_realloc: shrinks in place, or refuses. */
    method MemRealloc(p: int, newsize: nat) returns (q: int)
      requires Valid() && newsize < WORD && (0 <= p < size ==> p >= HDR && Live(ram[..], blocks, size, p - HDR))
      modifies this`lfree, this`blocks, ram
      ensures Valid()
      ensures var need := Rounded(newsize);
        q == if need > size || (0 <= p < size && need > Next(old(ram[..]), p - HDR) - p) then NULL else p
      ensures q == NULL || !(0 <= p < size) ==> ram[..] == old(ram[..]) && blocks == old(blocks) && lfree == old(lfree)
      ensures q != NULL && 0 <= p < size ==>
        Reduced(old(ram[..]), old(blocks), ram[..], blocks, size, p - HDR, Rounded(newsize))
    {
      var need := Rounded(newsize);
      if need > size {
        return NULL;
      }
      if p < 0 || p >= size {
        return p;
      }
      var mem := p - HDR;
      ghost var (r0, b0) := (ram[..], blocks);
      assert Next(r0, mem) in b0;
      var len := ram[mem] - mem - HDR;
      if need > len {
        return NULL;
      }
      if need == len {
        KeepsAll(r0, b0, size, mem);
        return p;
      }
      Shrink(mem, need);
      return p;
    }

    method Shrink(mem: nat, need: nat)
      requires Valid() && Live(ram[..], blocks, size, mem) && need >= MIN && need % 4 == 0
      requires need < Next(ram[..], mem) - mem - HDR
      modifies this`lfree, this`blocks, ram
      ensures Valid() && Reduced(old(ram[..]), old(blocks), ram[..], blocks, size, mem, need)
    {
      ghost var (r0, b0) := (ram[..], blocks);
      assert Next(r0, mem) in b0;
      var q := mem + HDR + need;
      var mem2 := ram[mem];
      if ram[mem2 + 8] == 0 {
        ReduceSlide(r0, b0, size, lfree, mem, q);
        if lfree == mem2 {
          lfree := q;
        }
        Link(mem, q, ram[mem2]);
        blocks := blocks - {mem2} + {q};
      } else if need + HDR + MIN <= mem2 - mem - HDR {
        ReduceSplit(r0, b0, size, lfree, mem, q);
        if q < lfree {
          lfree := q;
        }
        Link(mem, q, mem2);
        blocks := blocks + {q};
      } else {
        KeepsAll(r0, b0, size, mem);
      }
    }
  }

  lemma KeepsAll(r: seq<int>, b: set<nat>, size: nat, h: nat)
    requires Links(r, b, size)
    ensures KeepsOthers(r, b, r, b, size, h)
  {
    forall x | Live(r, b, size, x) && x != h ensures Keeps(r, r, b, x) { assert Next(r, x) in b; }
  }
}
