/** The kernel's memory management as it runs: pages, links and tables updated in place. */
module Pmap {
  import opened Vm
  import Spec = Vm
  import opened VmFacts
  import opened EnvFacts
  import opened Syscalls

  /** The end of the free list. */
  const NULL: int := -1

  /** What follows element `i` of a list. */
  ghost function After(s: seq<nat>, i: nat): int {
    if i + 1 < |s| then s[i + 1] else NULL
  }

  /** `s` is what one reads by following pp_link from page_free_list. */
  ghost predicate Linked(link: seq<int>, head: int, s: seq<nat>) {
    && head == (if s == [] then NULL else s[0])
    && (forall i :: 0 <= i < |s| ==> s[i] < |link|)
    && (forall i: nat :: i < |s| ==> link[s[i]] == After(s, i))
  }

  ghost predicate OffList(link: seq<int>, s: seq<nat>) {
    forall p :: 0 <= p < |link| && p !in s ==> link[p] == NULL
  }

  /** Following the links from `head` comes to an end. */
  ghost predicate Ends(link: seq<int>, head: int) {
    exists s :: Linked(link, head, s)
  }

  /** The page at the end of the free list looks like a page that is not on it: page_free takes it again. */
  lemma DoubleFreeDetected(link: seq<int>, head: int, s: seq<nat>, p: nat)
    requires Linked(link, head, s) && Distinct(s) && p in s
    ensures p < |link| && (link[p] != NULL <==> p != s[|s| - 1])
  {
    var i :| 0 <= i < |s| && s[i] == p;
    assert i < |s| - 1 ==> s[i] != s[|s| - 1];
  }

  /** ... and then the free list no longer ends. */
  lemma DoubleFreeCycles(link: seq<int>, head: int, s: seq<nat>, p: nat)
    requires Linked(link, head, s) && Distinct(s) && s != [] && p == s[|s| - 1]
    ensures p < |link| && !Ends(link[p := head], p)
  {
    CycleClosed(link, head, s, p);
    var l := link[p := head];
    forall t ensures !Linked(l, p, t) {
      if t != [] && Linked(l, p, t) {
        StaysOnList(l, s, t, |t| - 1);
      }
    }
  }

  lemma CycleClosed(link: seq<int>, head: int, s: seq<nat>, p: nat)
    requires Linked(link, head, s) && Distinct(s) && s != [] && p == s[|s| - 1]
    ensures p < |link|
    ensures forall i: nat :: i < |s| ==> link[p := head][s[i]] >= 0 && link[p := head][s[i]] in s
  {
    forall i: nat | i < |s| ensures link[p := head][s[i]] >= 0 && link[p := head][s[i]] in s {
      assert link[s[i]] == After(s, i);
      if i + 1 < |s| { assert s[i] != s[|s| - 1] && s[i + 1] in s; } else { assert s[0] in s; }
    }
  }

  /** A list that follows links which never leave `s` never leaves `s`. */
  lemma {:induction false} StaysOnList(l: seq<int>, s: seq<nat>, t: seq<nat>, n: nat)
    requires forall i: nat :: i < |s| ==> s[i] < |l| && l[s[i]] >= 0 && l[s[i]] in s
    requires n < |t| && Linked(l, t[0], t) && t[0] in s
    ensures t[n] in s
  {
    if n > 0 {
      StaysOnList(l, s, t, n - 1);
      assert l[t[n - 1]] == After(t, n - 1);
    }
  }

  /** Putting a page in front of the list. */
  lemma PushLinked(link: seq<int>, head: int, s: seq<nat>, p: nat)
    requires Linked(link, head, s) && OffList(link, s) && Distinct(s) && p < |link| && p !in s
    ensures Linked(link[p := head], p, [p] + s) && OffList(link[p := head], [p] + s) && Distinct([p] + s)
  {
    PushFollows(link, head, s, p, link[p := head], [p] + s);
    PushOff(link, s, p, link[p := head], [p] + s);
    assert Distinct([p] + s) by {
      assert forall i :: 0 < i < |[p] + s| ==> ([p] + s)[i] == s[i - 1] && s[i - 1] in s;
    }
  }

  lemma PushFollows(link: seq<int>, head: int, s: seq<nat>, p: nat, l: seq<int>, t: seq<nat>)
    requires Linked(link, head, s) && p < |link| && p !in s && l == link[p := head] && t == [p] + s
    ensures Linked(l, p, t)
  {
    assert t[0] == p && forall i :: 0 < i < |t| ==> t[i] == s[i - 1];
    forall i: nat | i < |t| ensures t[i] < |l| && l[t[i]] == After(t, i) {
      if i > 0 {
        assert link[s[i - 1]] == After(s, i - 1) && s[i - 1] in s;
        assert After(t, i) == After(s, i - 1);
      }
    }
  }

  lemma PushOff(link: seq<int>, s: seq<nat>, p: nat, l: seq<int>, t: seq<nat>)
    requires OffList(link, s) && p < |link| && |l| == |link| && (forall q :: 0 <= q < |l| && q != p ==> l[q] == link[q])
    requires t == [p] + s
    ensures OffList(l, t)
  {
    forall q | 0 <= q < |l| && q !in t ensures l[q] == NULL {
      assert p in t && (q in s ==> q in t);
    }
  }

  /** Taking the front page off the list. */
  lemma PopLinked(link: seq<int>, head: int, s: seq<nat>)
    requires Linked(link, head, s) && OffList(link, s) && Distinct(s) && s != []
    ensures s[0] < |link| && s[0] !in s[1..]
    ensures Linked(link[s[0] := NULL], link[s[0]], s[1..]) && OffList(link[s[0] := NULL], s[1..]) && Distinct(s[1..])
  {
    var t := s[1..];
    assert forall i :: 0 <= i < |t| ==> t[i] == s[i + 1];
    assert link[s[0]] == After(s, 0);
    forall i: nat | i < |t| ensures link[s[0] := NULL][t[i]] == After(t, i) {
      assert link[s[i + 1]] == After(s, i + 1);
    }
    assert forall q :: q in s ==> q == s[0] || q in t;
  }

  /** A kernel without environments: the counts are exact if every page off the reserve is unreferenced. */
  lemma BootValid(vm: Vm)
    requires Shape(vm) && vm.dir == map[] && Distinct(vm.free)
    requires forall p: nat :: p < |vm.ref| && p !in vm.boot ==> vm.ref[p] == 0 && p in vm.free
    requires forall p :: p in vm.free ==> p !in vm.boot
    ensures Valid(vm) && Limbo(vm) == {}
  {
    assert forall s :: At(vm, s) == None;
    SlotsExact(vm);
    assert Slots(vm) == map[];
  }

  lemma BootShape(vm: Vm)
    requires |vm.tab| == |vm.ref| && |vm.mem| == |vm.ref| && vm.dir == map[]
    requires forall p :: 0 <= p < |vm.ref| ==> vm.ref[p] <= 1 && vm.tab[p] == ZeroRow() && vm.mem[p] == ZeroPage()
    requires forall p :: p in vm.free || p in vm.boot ==> p < |vm.ref|
    ensures Shape(vm)
  {
  }

  class Kernel {
    var ppRef: array<nat>
    var ppLink: array<int>
    var pageFreeList: int
    var tables: array<seq<Pte>>
    var bytes: array<seq<Byte>>
    var envPgdir: map<EnvId, nat>
    ghost var freeSeq: seq<nat>
    ghost const reserved: set<nat>

    /** The kernel state as a value. */
    ghost function Snap(): Vm
      reads this, ppRef, tables, bytes
    {
      Vm(ppRef[..], freeSeq, tables[..], bytes[..], envPgdir, reserved)
    }

    /** The linked list is `freeSeq`. */
    ghost predicate ListOk()
      reads this, ppLink
    {
      Distinct(freeSeq) && Linked(ppLink[..], pageFreeList, freeSeq) && OffList(ppLink[..], freeSeq)
    }

    /** The arrays are separate, the tables well-shaped and the linked list is `freeSeq`. */
    ghost predicate Repr()
      reads this, ppRef, ppLink, tables, bytes
    {
      && ppLink.Length == ppRef.Length && ppRef as object != ppLink && tables as object != bytes
      && Shape(Snap()) && ListOk()
    }

    /** The zeroed arrays of mem_init, before page_init. */
    ghost predicate Zeroed()
      reads this, ppRef, ppLink, tables, bytes
    {
      && ppLink.Length == ppRef.Length && tables.Length == ppRef.Length && bytes.Length == ppRef.Length
      && ppRef as object != ppLink && tables as object != bytes
      && envPgdir == map[] && freeSeq == [] && pageFreeList == NULL
      && forall p :: 0 <= p < ppRef.Length ==>
           ppRef[p] == 0 && ppLink[p] == NULL && tables[p] == ZeroRow() && bytes[p] == ZeroPage()
    }

    constructor (npages: nat, nbase: nat, firstFree: nat)
      ensures Zeroed() && ppRef.Length == npages
      ensures fresh(ppRef) && fresh(ppLink) && fresh(tables) && fresh(bytes)
      ensures reserved == set p: nat | p < npages && !Usable(p, nbase, firstFree)
    {
      ppRef := new nat[npages](i => 0);
      ppLink := new int[npages](i => NULL);
      tables := new seq<Pte>[npages](i => ZeroRow());
      bytes := new seq<Byte>[npages](i => ZeroPage());
      pageFreeList := NULL;
      envPgdir := map[];
      freeSeq := [];
      reserved := set p: nat | p < npages && !Usable(p, nbase, firstFree);
    }

    /**
     * page_init: page 0, MPENTRY's page 7, the I/O hole and the kernel stay reserved, every other page goes
     * on the free list.
     */
    method PageInit(nbase: nat, firstFree: nat)
      requires Zeroed() && 1 <= nbase <= firstFree <= ppRef.Length
      requires reserved == set p: nat | p < ppRef.Length && !Usable(p, nbase, firstFree)
      modifies this`pageFreeList, this`freeSeq, ppRef, ppLink
      ensures Repr() && Valid(Snap()) && Limbo(Snap()) == {}
      ensures forall p: nat :: p < ppRef.Length ==> (p in freeSeq <==> Usable(p, nbase, firstFree))
    {
      ghost var (t0, m0) := (tables[..], bytes[..]);
      assert forall p :: 0 <= p < |t0| ==> t0[p] == ZeroRow() && m0[p] == ZeroPage();
      EmptyListOk();
      InitLists(nbase, firstFree);
      assert tables[..] == t0 && bytes[..] == m0;
      BootReady(Snap(), nbase, firstFree);
    }

    lemma EmptyListOk()
      requires Zeroed()
      ensures ListOk()
    {
    }

    /** What page_init does to the counts and the free list. */
    method InitLists(nbase: nat, firstFree: nat)
      requires ListOk() && ppLink.Length == ppRef.Length && ppRef as object != ppLink && freeSeq == []
      requires 1 <= nbase <= firstFree <= ppRef.Length && forall p :: 0 <= p < |ppRef[..]| ==> ppRef[..][p] == 0
      modifies this`pageFreeList, this`freeSeq, ppRef, ppLink
      ensures ListOk()
      ensures forall p: nat :: p in freeSeq <==> p < ppRef.Length && Usable(p, nbase, firstFree)
      ensures forall p: nat ::
        p < |ppRef[..]| ==> ppRef[..][p] <= 1 && (Usable(p, nbase, firstFree) ==> ppRef[..][p] == 0)
    {
      ghost var r0 := ppRef[..];
      ppRef[0] := 1;
      ghost var r1 := ppRef[..];
      FreeRange(1, nbase, 7);
      ghost var (s2, r2) := (freeSeq, ppRef[..]);
      assert forall p :: p in s2 ==> p < nbase;
      FreeRange(firstFree, ppRef.Length, NULL);
      InitCounts(r0, r1, r2, ppRef[..], nbase, firstFree);
      InitFree(s2, freeSeq, nbase, firstFree, ppRef.Length);
    }

    static lemma InitCounts(r0: seq<nat>, r1: seq<nat>, r2: seq<nat>, r3: seq<nat>, nbase: nat, firstFree: nat)
      requires |r0| > 0 && r1 == r0[0 := 1] && (forall p :: 0 <= p < |r0| ==> r0[p] == 0)
      requires 1 <= nbase <= firstFree <= |r0|
      requires Counts(r1, r2, 1, nbase, 7) && Counts(r2, r3, firstFree, |r0|, NULL)
      ensures forall p: nat :: p < |r3| ==> r3[p] <= 1 && (Usable(p, nbase, firstFree) ==> r3[p] == 0)
    {
    }

    static lemma InitFree(s2: seq<nat>, s3: seq<nat>, nbase: nat, firstFree: nat, npages: nat)
      requires Pushed([], s2, 1, nbase, 7) && Pushed(s2, s3, firstFree, npages, NULL) && nbase <= firstFree <= npages
      ensures forall p: nat :: p in s3 <==> p < npages && Usable(p, nbase, firstFree)
    {
    }

    static lemma BootReady(vm: Vm, nbase: nat, firstFree: nat)
      requires |vm.tab| == |vm.ref| && |vm.mem| == |vm.ref| && vm.dir == map[] && Distinct(vm.free)
      requires vm.boot == set p: nat | p < |vm.ref| && !Usable(p, nbase, firstFree)
      requires forall p :: 0 <= p < |vm.ref| ==> vm.tab[p] == ZeroRow() && vm.mem[p] == ZeroPage()
      requires forall p: nat :: p < |vm.ref| ==> vm.ref[p] <= 1 && (Usable(p, nbase, firstFree) ==> vm.ref[p] == 0)
      requires forall p: nat :: p in vm.free <==> p < |vm.ref| && Usable(p, nbase, firstFree)
      ensures Shape(vm) && Valid(vm) && Limbo(vm) == {}
    {
      BootShape(vm);
      BootValid(vm);
    }

    /** The pages page_init may hand to the allocator. */
    static predicate Usable(p: nat, nbase: nat, firstFree: nat) {
      (1 <= p < nbase && p != 7) || firstFree <= p
    }

    /** One of page_init's two loops: push every page of a range but `mp`, which is marked in use. */
    method FreeRange(lo: nat, hi: nat, mp: int)
      requires ListOk() && ppLink.Length == ppRef.Length && ppRef as object != ppLink && lo <= hi <= ppRef.Length
      requires forall p: nat :: lo <= p < hi ==> p !in freeSeq
      modifies this`pageFreeList, this`freeSeq, ppRef, ppLink
      ensures ListOk() && Pushed(old(freeSeq), freeSeq, lo, hi, mp) && Counts(old(ppRef[..]), ppRef[..], lo, hi, mp)
    {
      ghost var (s0, r0) := (freeSeq, ppRef[..]);
      var i := lo;
      while i < hi
        invariant lo <= i <= hi && ListOk()
        invariant Pushed(s0, freeSeq, lo, i, mp) && Counts(r0, ppRef[..], lo, i, mp)
      {
        ghost var (s, r) := (freeSeq, ppRef[..]);
        assert i !in s;
        if i == mp {
          Reserve(i);
        } else {
          Push(i, 0);
        }
        PushedStep(s0, s, freeSeq, lo, i, mp);
        CountsStep(r0, r, ppRef[..], lo, i, mp);
        i := i + 1;
      }
    }

    /** The pages lo .. hi but `mp` have been added to a list. */
    static ghost predicate Pushed(s0: seq<nat>, s: seq<nat>, lo: nat, hi: nat, mp: int) {
      forall p: nat :: p in s <==> p in s0 || (lo <= p < hi && p != mp)
    }

    /** The counts of the pages lo .. hi have been set. */
    static ghost predicate Counts(r0: seq<nat>, r: seq<nat>, lo: nat, hi: nat, mp: int) {
      |r| == |r0| && forall p: nat :: p < |r| ==> r[p] == if !(lo <= p < hi) then r0[p] else if p == mp then 1 else 0
    }

    static lemma PushedStep(s0: seq<nat>, s: seq<nat>, t: seq<nat>, lo: nat, i: nat, mp: int)
      requires lo <= i && Pushed(s0, s, lo, i, mp) && forall q: nat :: q in t <==> (q == i && i != mp) || q in s
      ensures Pushed(s0, t, lo, i + 1, mp)
    {
    }

    static lemma CountsStep(r0: seq<nat>, r: seq<nat>, t: seq<nat>, lo: nat, i: nat, mp: int)
      requires lo <= i < |r| && Counts(r0, r, lo, i, mp) && t == r[i := if i == mp then 1 else 0]
      ensures Counts(r0, t, lo, i + 1, mp)
    {
    }

    /** Mark a page in use, off the list. */
    method Reserve(p: nat)
      requires ListOk() && ppLink.Length == ppRef.Length && ppRef as object != ppLink && p < ppRef.Length &&
        p !in freeSeq
      modifies ppRef, ppLink
      ensures ListOk() && ppRef[..] == old(ppRef[..])[p := 1]
    {
      ppRef[p] := 1;
      assert ppLink[p] == NULL;
      ppLink[p] := NULL;
      assert ppLink[..] == old(ppLink[..]);
    }

    /** Set a page's count and put it in front of the free list. */
    method Push(p: nat, r: nat)
      requires ListOk() && ppLink.Length == ppRef.Length && ppRef as object != ppLink && p < ppRef.Length &&
        p !in freeSeq
      modifies this`pageFreeList, this`freeSeq, ppRef, ppLink
      ensures ListOk() && freeSeq == [p] + old(freeSeq) &&
        (forall q: nat :: q in freeSeq <==> q == p || q in old(freeSeq))
      ensures ppRef[..] == old(ppRef[..])[p := r]
    {
      PushLinked(ppLink[..], pageFreeList, freeSeq, p);
      ppRef[p] := r;
      ppLink[p] := pageFreeList;
      pageFreeList := p;
      freeSeq := [p] + freeSeq;
      assert ppLink[..] == old(ppLink[..])[p := old(pageFreeList)];
    }

    // ---- page_alloc, page_free, page_decref ----

    method PageAlloc(zero: bool) returns (p: int)
      requires Repr()
      modifies this`pageFreeList, this`freeSeq, ppLink, tables, bytes
      ensures Repr() && (p == NULL <==> old(freeSeq) == [])
      ensures p == NULL ==> Snap() == old(Snap())
      ensures p != NULL ==> p == old(freeSeq)[0] && p !in freeSeq
      ensures zero && p != NULL ==> Snap() == Spec.PageAlloc(old(Snap())).0
      ensures !zero && p != NULL ==> Snap() == old(Snap()).(free := old(freeSeq)[1..])
    {
      if pageFreeList == NULL {
        return NULL;
      }
      p := Pop();
      if zero {
        Clear(p);
      }
    }

    /** Take the front page off the free list. */
    method Pop() returns (p: nat)
      requires Repr() && pageFreeList != NULL
      modifies this`pageFreeList, this`freeSeq, ppLink
      ensures Repr() && old(freeSeq) != [] && p == old(freeSeq)[0] && p < ppRef.Length && p !in freeSeq
      ensures Snap() == old(Snap()).(free := old(freeSeq)[1..])
    {
      PopLinked(ppLink[..], pageFreeList, freeSeq);
      p := pageFreeList;
      ghost var was := freeSeq;
      pageFreeList := ppLink[p];
      ppLink[p] := NULL;
      freeSeq := freeSeq[1..];
      assert ppLink[..] == old(ppLink[..])[p := NULL];
      assert forall q :: q in freeSeq ==> q in was;
    }

    /** memset(page2kva(p), 0, PGSIZE). */
    method Clear(p: nat)
      requires Repr() && p < ppRef.Length
      modifies tables, bytes
      ensures Repr() && Snap() == old(Snap()).(tab := old(Snap()).tab[p := ZeroRow()],
        mem := old(Snap()).mem[p := ZeroPage()])
    {
      tables[p] := ZeroRow();
      bytes[p] := ZeroPage();
      assert tables[..] == old(tables[..])[p := ZeroRow()];
      assert bytes[..] == old(bytes[..])[p := ZeroPage()];
    }

    /** page_free: panics on a linked or referenced page, otherwise pushes it. */
    method PageFree(p: nat) returns (panicked: bool)
      requires Repr() && p < ppRef.Length
      modifies this`pageFreeList, this`freeSeq, ppLink
      ensures panicked <==> old(ppLink[p] != NULL || ppRef[p] != 0)
      ensures panicked ==> Repr() && Snap() == old(Snap())
      ensures !panicked && p !in old(freeSeq) ==> Repr() && Snap() == Spec.PageFree(old(Snap()), p)
      ensures !panicked && p in old(freeSeq) ==> !Ends(ppLink[..], pageFreeList)
    {
      if ppLink[p] != NULL || ppRef[p] != 0 {
        return true;
      }
      ghost var was := ppLink[..];
      if p !in freeSeq {
        PushLinked(was, pageFreeList, freeSeq, p);
      } else {
        DoubleFreeDetected(was, pageFreeList, freeSeq, p);
        DoubleFreeCycles(was, pageFreeList, freeSeq, p);
      }
      ppLink[p] := pageFreeList;
      pageFreeList := p;
      freeSeq := [p] + freeSeq;
      assert ppLink[..] == was[p := old(pageFreeList)];
      return false;
    }

    method PageDecref(p: nat)
      requires Repr() && p < ppRef.Length && p !in freeSeq
      modifies this`pageFreeList, this`freeSeq, ppRef, ppLink
      ensures Repr() && Snap() == Spec.PageDecref(old(Snap()), p)
    {
      ppRef[p] := Dec16(ppRef[p]);
      assert ppRef[..] == old(ppRef[..])[p := Dec16(old(ppRef[p]))];
      assert Repr();
      if ppRef[p] == 0 {
        var panicked := PageFree(p);
      }
    }

    method Incref(p: nat)
      requires Repr() && p < ppRef.Length
      modifies ppRef
      ensures Repr() && Snap() == Spec.Incref(old(Snap()), p)
    {
      ppRef[p] := Inc16(ppRef[p]);
      assert ppRef[..] == old(ppRef[..])[p := Inc16(old(ppRef[p]))];
    }

    method SetEntry(t: nat, i: nat, x: Pte)
      requires Repr() && t < ppRef.Length && i < NPTE && (x.Entry? ==> x.page < ppRef.Length)
      modifies tables
      ensures Repr() && Snap() == Spec.SetEntry(old(Snap()), t, i, x)
    {
      tables[t] := tables[t][i := x];
      assert tables[..] == old(tables[..])[t := old(tables[t])[i := x]];
    }

    // ---- page tables ----

    /** pgdir_walk: the page table covering `pn`, created on demand, or NULL. */
    method PgdirWalk(e: EnvId, pn: nat, create: bool) returns (t: int)
      requires Repr() && e in envPgdir && pn < USERPAGES
      modifies this`pageFreeList, this`freeSeq, ppRef, ppLink, tables, bytes
      ensures Repr()
      ensures create ==>
        (var (v, o) := Spec.PgdirWalk(old(Snap()), e, pn); Snap() == v && t == if o.Some? then o.value else NULL)
      ensures !create ==>
        Snap() == old(Snap()) && t == (var x := Pde(old(Snap()), e, Pdx(pn)); if x.Entry? then x.page else NULL)
    {
      var pde := tables[envPgdir[e]][Pdx(pn)];
      if pde.Entry? {
        return pde.page;
      }
      if !create {
        return NULL;
      }
      t := PageAlloc(true);
      if t != NULL {
        Incref(t);
        SetEntry(envPgdir[e], Pdx(pn), Entry(t, PDEPERM));
      }
    }

    /** page_lookup: the entry for `pn`, or Zero. */
    method PageLookup(e: EnvId, pn: nat) returns (x: Pte)
      requires Repr() && e in envPgdir && pn < USERPAGES
      modifies this`pageFreeList, this`freeSeq, ppRef, ppLink, tables, bytes
      ensures Repr() && Snap() == old(Snap()) && x == Xlate(Snap(), e, pn)
    {
      var t := PgdirWalk(e, pn, false);
      if t == NULL {
        return Zero;
      }
      return tables[t][Ptx(pn)];
    }

    method PageRemove(e: EnvId, pn: nat)
      requires Repr() && Valid(Snap()) && e in envPgdir && pn < USERPAGES
      modifies this`pageFreeList, this`freeSeq, ppRef, ppLink, tables, bytes
      ensures Repr() && Valid(Snap()) && Snap() == Spec.PageRemove(old(Snap()), e, pn)
    {
      PageRemoveFacts(Snap(), e, pn);
      var x := PageLookup(e, pn);
      if x.Entry? {
        ReferencedCounted(Snap(), PteSlot(e, pn));
        var t := PgdirWalk(e, pn, false);
        PageDecref(x.page);
        SetEntry(t, Ptx(pn), Zero);
      }
    }

    /** page_insert once the page table exists. */
    method PutPte(e: EnvId, p: nat, pn: nat, perm: Perm, t: nat)
      requires Repr() && Valid(Snap()) && e in envPgdir && pn < USERPAGES && p < ppRef.Length
      requires Pde(Snap(), e, Pdx(pn)).Entry? && t == Pde(Snap(), e, Pdx(pn)).page
      modifies this`pageFreeList, this`freeSeq, ppRef, ppLink, tables, bytes
      ensures Repr() && Snap() == Spec.PutPte(old(Snap()), e, p, pn, perm)
    {
      var x := tables[t][Ptx(pn)];
      if x.Entry? {
        if x.page == p {
          SetEntry(t, Ptx(pn), Entry(p, perm));
        } else {
          PageRemove(e, pn);
          Incref(p);
          SetEntry(t, Ptx(pn), Entry(p, perm));
        }
      } else {
        SetEntry(t, Ptx(pn), Entry(p, perm));
        Incref(p);
      }
    }

    method PageInsert(e: EnvId, p: nat, pn: nat, perm: Perm) returns (ok: bool)
      requires Repr() && Valid(Snap()) && e in envPgdir && pn < USERPAGES && p < ppRef.Length
      modifies this`pageFreeList, this`freeSeq, ppRef, ppLink, tables, bytes
      ensures Repr() && (Snap(), ok) == Spec.PageInsert(old(Snap()), e, p, pn, perm)
    {
      PgdirWalkFacts(Snap(), e, pn);
      var t := PgdirWalk(e, pn, true);
      if t == NULL {
        return false;
      }
      PutPte(e, p, pn, perm, t);
      return true;
    }

    // ---- address spaces ----

    method EnvSetupVm(e: EnvId) returns (ok: bool)
      requires Repr()
      modifies this`pageFreeList, this`freeSeq, this`envPgdir, ppRef, ppLink, tables, bytes
      ensures Repr() && (Snap(), ok) == Spec.EnvSetupVm(old(Snap()), e)
    {
      var p := PageAlloc(true);
      if p == NULL {
        return false;
      }
      Incref(p);
      envPgdir := envPgdir[e := p];
      return true;
    }

    /** One round of the inner loop of env_free. */
    method FreeEntry(e: EnvId, pn: nat)
      requires Repr() && Valid(Snap()) && e in envPgdir && pn < USERPAGES
      modifies this`pageFreeList, this`freeSeq, ppRef, ppLink, tables, bytes
      ensures Repr() && Valid(Snap()) && Snap() == Spec.PageRemove(old(Snap()), e, pn)
    {
      var x := PageLookup(e, pn);
      if x.Entry? {
        PageRemove(e, pn);
      }
    }

    /** The inner loop of env_free. */
    method FreeTable(e: EnvId, i: nat)
      requires Repr() && Valid(Snap()) && e in envPgdir && i < NPDE
      modifies this`pageFreeList, this`freeSeq, ppRef, ppLink, tables, bytes
      ensures Repr() && TableFreed(old(Snap()), Snap(), e, i, NPTE) && Snap() == FreeEntries(old(Snap()), e, i, 0)
    {
      ghost var vm := Snap();
      var j := 0;
      while j < NPTE
        invariant 0 <= j <= NPTE && Repr() && TableFreed(vm, Snap(), e, i, j)
        invariant FreeEntries(Snap(), e, i, j) == FreeEntries(vm, e, i, 0)
      {
        TableFreedStep(vm, Snap(), e, i, j);
        FreeEntry(e, PageNum(i, j));
        j := j + 1;
      }
    }

    /** One round of the outer loop of env_free. */
    method FreePde(e: EnvId, i: nat)
      requires Repr() && Valid(Snap()) && e in envPgdir && i < NPDE
      modifies this`pageFreeList, this`freeSeq, ppRef, ppLink, tables, bytes
      ensures Repr() && PdeFreed(old(Snap()), Snap(), e, i) && Snap() == Spec.FreePde(old(Snap()), e, i)
    {
      ghost var vm := Snap();
      var x := tables[envPgdir[e]][i];
      if x.Entry? {
        FreeTable(e, i);
        ReferencedCounted(Snap(), PdeSlot(e, i));
        SetEntry(envPgdir[e], i, Zero);
        PageDecref(x.page);
      }
      FreePdeFacts(vm, e, i);
    }

    /** env_free: every page table with what it maps, then the directory. */
    method EnvFree(e: EnvId)
      requires Repr() && Valid(Snap()) && e in envPgdir
      modifies this`pageFreeList, this`freeSeq, this`envPgdir, ppRef, ppLink, tables, bytes
      ensures Repr() && EnvFreed(old(Snap()), Snap(), e) && Snap() == Spec.EnvFree(old(Snap()), e)
    {
      ghost var vm := Snap();
      var i := 0;
      while i < NPDE
        invariant 0 <= i <= NPDE && Repr() && PdesFreed(vm, Snap(), e, i)
        invariant FreePdes(Snap(), e, i) == FreePdes(vm, e, 0)
      {
        ghost var w := Snap();
        FreePde(e, i);
        PdesFreedStep(vm, w, Snap(), e, i);
        i := i + 1;
      }
      EnvFreeFacts(vm, e);
      var d := envPgdir[e];
      ReferencedCounted(Snap(), DirSlot(e));
      DropDir(e);
      PageDecref(d);
    }

    method DropDir(e: EnvId)
      requires Repr()
      modifies this`envPgdir
      ensures Repr() && Snap() == old(Snap()).(dir := old(envPgdir) - {e})
    {
      envPgdir := envPgdir - {e};
    }

    // ---- system calls ----

    method SysPageAlloc(target: Option<EnvId>, pn: nat, perm: Perm) returns (c: Code)
      requires Repr() && Valid(Snap()) && (target.Some? ==> target.value in envPgdir)
      modifies this`pageFreeList, this`freeSeq, ppRef, ppLink, tables, bytes
      ensures Repr() && Valid(Snap()) && (Snap(), c) == Syscalls.SysPageAlloc(old(Snap()), target, pn, perm)
    {
      SysPageAllocFacts(Snap(), target, pn, perm);
      if pn >= USERPAGES {
        return Inval;
      }
      if freeSeq != [] { TakePage(Snap()); }
      var p := PageAlloc(true);
      if p == NULL {
        return NoMem;
      }
      if target.None? {
        return BadEnv;
      }
      PageInsertFacts(Snap(), target.value, p, pn, perm);
      var ok := PageInsert(target.value, p, pn, perm);
      if !ok {
        var panicked := PageFree(p);
        return NoMem;
      }
      return Ok;
    }

    method SysPageMap(src: Option<EnvId>, spn: nat, dst: Option<EnvId>, dpn: nat, perm: Perm) returns (c: Code)
      requires Repr() && Valid(Snap()) && (src.Some? ==> src.value in envPgdir) && (dst.Some? ==> dst.value in envPgdir)
      modifies this`pageFreeList, this`freeSeq, ppRef, ppLink, tables, bytes
      ensures Repr() && (Snap(), c) == Syscalls.SysPageMap(old(Snap()), src, spn, dst, dpn, perm)
    {
      if spn >= USERPAGES || dpn >= USERPAGES {
        return Inval;
      }
      if src.None? || dst.None? {
        return BadEnv;
      }
      var x := PageLookup(src.value, spn);
      if x.Zero? {
        return NoMem;
      }
      MappedIsData(Snap(), src.value, spn);
      var ok := PageInsert(dst.value, x.page, dpn, perm);
      return if ok then Ok else NoMem;
    }

    method SysPageUnmap(target: Option<EnvId>, pn: nat) returns (c: Code)
      requires Repr() && Valid(Snap()) && (target.Some? ==> target.value in envPgdir)
      modifies this`pageFreeList, this`freeSeq, ppRef, ppLink, tables, bytes
      ensures Repr() && Valid(Snap()) && (Snap(), c) == Syscalls.SysPageUnmap(old(Snap()), target, pn)
    {
      if pn >= USERPAGES {
        return Inval;
      }
      if target.None? {
        return BadEnv;
      }
      PageRemove(target.value, pn);
      return Ok;
    }
  }
}
