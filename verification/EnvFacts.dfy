/** Building and tearing down address spaces: env_setup_vm and env_free. */
module EnvFacts {
  import opened Counting
  import opened Vm
  import opened VmFacts

  lemma EnvSetupVmFacts(vm: Vm, e: EnvId)
    requires Valid(vm) && e !in vm.dir
    ensures var (v, ok) := EnvSetupVm(vm, e);
      && (ok <==> vm.free != [])
      && (!ok ==> v == vm)
      && Valid(v) && Limbo(v) == Limbo(vm) && v.boot == vm.boot
      && (ok ==> v.dir.Keys == vm.dir.Keys + {e})
      && (forall p :: p in v.free ==> p in vm.free)
      && (forall p :: 0 <= p < |vm.ref| && p !in vm.free ==> v.mem[p] == vm.mem[p])
      && (forall e2: EnvId, pn2: nat :: Xlate(v, e2, pn2) == Xlate(vm, e2, pn2))
  {
    if vm.free != [] {
      PageAllocFacts(vm);
      var (w, p) := PageAlloc(vm);
      var v := EnvSetupVm(vm, e).0;
      assert p.value in vm.free;
      assert v.tab == w.tab && v.tab[p.value] == ZeroRow();
      forall e2: EnvId, i2: nat ensures Pde(v, e2, i2) == Pde(w, e2, i2) {}
      forall e2: EnvId, pn2: nat ensures Xlate(v, e2, pn2) == Xlate(w, e2, pn2) {
        assert Pde(v, e2, Pdx(pn2)) == Pde(w, e2, Pdx(pn2));
      }
      forall s | s != DirSlot(e) ensures At(v, s) == At(w, s) {
        match s
        case DirSlot(_) =>
        case PdeSlot(_, _) =>
        case PteSlot(_, _) =>
      }
      AddRef(w, v, DirSlot(e), p.value);
    }
  }

  // ---- env_free ----

  /** Nothing but translations of `e` changes between `vm` and `v`, and no page's contents do. */
  ghost predicate Shrunk(vm: Vm, v: Vm, e: EnvId)
  {
    && Valid(vm) && Valid(v) && Limbo(v) == Limbo(vm)
    && |v.ref| == |vm.ref| && v.mem == vm.mem && v.boot == vm.boot
    && (forall e2: EnvId, pn2: nat :: e2 != e ==> Xlate(v, e2, pn2) == Xlate(vm, e2, pn2))
    && (forall e2: EnvId, i2: nat :: e2 != e ==> Pde(v, e2, i2) == Pde(vm, e2, i2))
  }

  lemma ShrunkTwice(vm: Vm, w: Vm, v: Vm, e: EnvId)
    requires Shrunk(vm, w, e) && Shrunk(w, v, e)
    ensures Shrunk(vm, v, e)
  {
  }

  /** After `j` rounds of env_free's inner loop: the first `j` entries of page table `i` are empty. */
  ghost predicate TableFreed(vm: Vm, v: Vm, e: EnvId, i: nat, j: nat) {
    && Shrunk(vm, v, e) && v.dir == vm.dir
    && (forall i2: nat :: Pde(v, e, i2) == Pde(vm, e, i2))
    && (forall pn: nat :: Pdx(pn) == i && Ptx(pn) < j ==> Xlate(v, e, pn) == Zero)
  }

  lemma TableFreedStep(vm: Vm, w: Vm, e: EnvId, i: nat, j: nat)
    requires TableFreed(vm, w, e, i, j) && e in w.dir && i < NPDE && j < NPTE
    ensures TableFreed(vm, PageRemove(w, e, PageNum(i, j)), e, i, j + 1)
  {
    var pn := PageNum(i, j);
    PageRemoveFacts(w, e, pn);
    ShrunkTwice(vm, w, PageRemove(w, e, pn), e);
  }

  /** Clearing the directory entry of an emptied page table changes that slot and no translation. */
  lemma ClearPdeFacts(vm: Vm, e: EnvId, i: nat)
    requires Shape(vm) && Exclusive(vm) && e in vm.dir && i < NPDE && Pde(vm, e, i).Entry?
    requires forall pn: nat :: Pdx(pn) == i ==> Xlate(vm, e, pn) == Zero
    ensures var v := SetEntry(vm, vm.dir[e], i, Zero);
      && Pde(v, e, i).Zero?
      && (forall e2: EnvId, i2: nat :: e2 != e || i2 != i ==> Pde(v, e2, i2) == Pde(vm, e2, i2))
      && (forall e2: EnvId, pn2: nat :: Xlate(v, e2, pn2) == Xlate(vm, e2, pn2))
      && (forall s :: s != PdeSlot(e, i) ==> At(v, s) == At(vm, s))
  {
    var d := vm.dir[e];
    var v := SetEntry(vm, d, i, Zero);
    assert At(vm, DirSlot(e)) == Some(d);
    forall e2: EnvId, i2: nat | e2 != e || i2 != i ensures Pde(v, e2, i2) == Pde(vm, e2, i2) {
      if e2 in vm.dir { assert At(vm, DirSlot(e2)) == Some(vm.dir[e2]); }
    }
    forall e2: EnvId, pn2: nat ensures Xlate(v, e2, pn2) == Xlate(vm, e2, pn2) {
      var x := Pde(vm, e2, Pdx(pn2));
      if x.Entry? { assert At(vm, PdeSlot(e2, Pdx(pn2))) == Some(x.page); }
    }
    forall s | s != PdeSlot(e, i) ensures At(v, s) == At(vm, s) {
      match s
      case DirSlot(_) =>
      case PdeSlot(_, _) =>
      case PteSlot(_, _) =>
    }
  }

  /** Dropping an emptied page table from the directory. */
  lemma DropTableFacts(vm: Vm, e: EnvId, i: nat)
    requires Valid(vm) && e in vm.dir && i < NPDE && Pde(vm, e, i).Entry?
    requires forall pn: nat :: Pdx(pn) == i ==> Xlate(vm, e, pn) == Zero
    ensures var v := PageDecref(SetEntry(vm, vm.dir[e], i, Zero), Pde(vm, e, i).page);
      && Shrunk(vm, v, e)
      && Pde(v, e, i).Zero?
      && (forall i2: nat :: i2 != i ==> Pde(v, e, i2) == Pde(vm, e, i2))
  {
    ClearPdeFacts(vm, e, i);
    var w := SetEntry(vm, vm.dir[e], i, Zero);
    DecrefKeepsTables(w, Pde(vm, e, i).page);
    var v := PageDecref(w, Pde(vm, e, i).page);
    assert forall s :: s != PdeSlot(e, i) ==> At(v, s) == At(vm, s);
    DropRef(vm, v, PdeSlot(e, i));
  }

  /** Page table `i` is gone: emptied, taken out of the directory and given back. */
  ghost predicate PdeFreed(vm: Vm, v: Vm, e: EnvId, i: nat) {
    && Shrunk(vm, v, e) && v.dir == vm.dir
    && Pde(v, e, i).Zero?
    && (forall i2: nat :: i2 != i ==> Pde(v, e, i2) == Pde(vm, e, i2))
  }

  lemma PdeFreedFacts(vm: Vm, w: Vm, e: EnvId, i: nat)
    requires e in vm.dir && i < NPDE && TableFreed(vm, w, e, i, NPTE) && Pde(vm, e, i).Entry?
    ensures PdeFreed(vm, PageDecref(SetEntry(w, w.dir[e], i, Zero), Pde(vm, e, i).page), e, i)
  {
    assert forall pn: nat :: Pdx(pn) == i ==> Xlate(w, e, pn) == Zero;
    DropTableFacts(w, e, i);
    ShrunkTwice(vm, w, PageDecref(SetEntry(w, w.dir[e], i, Zero), Pde(vm, e, i).page), e);
  }

  /** After `i` rounds of env_free's outer loop. */
  ghost predicate PdesFreed(vm: Vm, v: Vm, e: EnvId, i: nat) {
    Shrunk(vm, v, e) && v.dir == vm.dir && forall i2: nat :: i2 < i ==> Pde(v, e, i2).Zero?
  }

  lemma PdesFreedStep(vm: Vm, w: Vm, v: Vm, e: EnvId, i: nat)
    requires PdesFreed(vm, w, e, i) && PdeFreed(w, v, e, i)
    ensures PdesFreed(vm, v, e, i + 1)
  {
    ShrunkTwice(vm, w, v, e);
  }

  /** Dropping the directory of an address space without page tables. */
  lemma DropDirFacts(vm: Vm, e: EnvId)
    requires Valid(vm) && e in vm.dir && forall i: nat :: Pde(vm, e, i).Zero?
    ensures var v := PageDecref(vm.(dir := vm.dir - {e}), vm.dir[e]);
      Shrunk(vm, v, e)
  {
    var w := vm.(dir := vm.dir - {e});
    DecrefKeepsTables(w, vm.dir[e]);
    var v := PageDecref(w, vm.dir[e]);
    forall e2: EnvId, i2: nat ensures Pde(v, e2, i2) == Pde(vm, e2, i2) {}
    forall e2: EnvId, pn2: nat ensures Xlate(v, e2, pn2) == Xlate(vm, e2, pn2) {
      assert Pde(v, e2, Pdx(pn2)) == Pde(vm, e2, Pdx(pn2));
    }
    forall s | s != DirSlot(e) ensures At(v, s) == At(vm, s) {
      match s
      case DirSlot(_) =>
      case PdeSlot(_, _) =>
      case PteSlot(_, _) =>
    }
    DropRef(vm, v, DirSlot(e));
  }

  /** The environment is gone: none of its references is left, and every other slot is as it was. */
  ghost predicate EnvFreed(vm: Vm, v: Vm, e: EnvId) {
    && Shrunk(vm, v, e) && v.dir == vm.dir - {e}
    && (forall s :: At(v, s) == if s.e == e then None else At(vm, s))
  }

  lemma EnvFreedFacts(vm: Vm, w: Vm, e: EnvId)
    requires PdesFreed(vm, w, e, NPDE) && e in vm.dir
    ensures EnvFreed(vm, PageDecref(w.(dir := w.dir - {e}), w.dir[e]), e)
  {
    DropDirFacts(w, e);
    var v := PageDecref(w.(dir := w.dir - {e}), w.dir[e]);
    ShrunkTwice(vm, w, v, e);
    forall s ensures At(v, s) == if s.e == e then None else At(vm, s) {
      match s
      case DirSlot(_) =>
      case PdeSlot(_, _) =>
      case PteSlot(_, _) =>
    }
  }

  lemma {:induction false} FreeEntriesFacts(vm: Vm, w: Vm, e: EnvId, i: nat, j: nat)
    requires TableFreed(vm, w, e, i, j) && e in w.dir && i < NPDE && j <= NPTE
    ensures TableFreed(vm, FreeEntries(w, e, i, j), e, i, NPTE)
    decreases NPTE - j
  {
    if j < NPTE {
      TableFreedStep(vm, w, e, i, j);
      FreeEntriesFacts(vm, PageRemove(w, e, PageNum(i, j)), e, i, j + 1);
    }
  }

  lemma FreePdeFacts(vm: Vm, e: EnvId, i: nat)
    requires Valid(vm) && e in vm.dir && i < NPDE
    ensures PdeFreed(vm, FreePde(vm, e, i), e, i)
  {
    if Pde(vm, e, i).Entry? {
      FreeEntriesFacts(vm, vm, e, i, 0);
      PdeFreedFacts(vm, FreeEntries(vm, e, i, 0), e, i);
    }
  }

  lemma {:induction false} FreePdesFacts(vm: Vm, w: Vm, e: EnvId, i: nat)
    requires PdesFreed(vm, w, e, i) && e in w.dir && i <= NPDE
    ensures PdesFreed(vm, FreePdes(w, e, i), e, NPDE)
    decreases NPDE - i
  {
    if i < NPDE {
      FreePdeFacts(w, e, i);
      PdesFreedStep(vm, w, FreePde(w, e, i), e, i);
      FreePdesFacts(vm, FreePde(w, e, i), e, i + 1);
    }
  }

  /** env_free removes every reference the environment holds and nothing else, and keeps the counts exact. */
  lemma EnvFreeFacts(vm: Vm, e: EnvId)
    requires Valid(vm) && e in vm.dir
    ensures EnvFreed(vm, EnvFree(vm, e), e)
  {
    FreePdesFacts(vm, vm, e, 0);
    EnvFreedFacts(vm, FreePdes(vm, e, 0), e);
  }

  /** The references environment `e` holds on page `p`: mappings, page tables and its directory. */
  ghost function HeldBy(vm: Vm, e: EnvId, p: nat): set<Slot>
    requires Shape(vm)
  {
    set s | s in Slots(vm) && s.e == e && Slots(vm)[s] == p
  }

  /**
   * Freeing an environment lowers each page's count by exactly the number of references it held on it, and
   * puts on the free list exactly the pages it referenced and nobody else does.
   */
  lemma EnvFreeReleases(vm: Vm, e: EnvId, p: nat)
    requires Valid(vm) && e in vm.dir && p < |vm.ref| && p !in vm.boot
    ensures var v := EnvFree(vm, e);
      && v.ref[p] == vm.ref[p] - |HeldBy(vm, e, p)|
      && (p in v.free <==> p in vm.free || (vm.ref[p] > 0 && vm.ref[p] == |HeldBy(vm, e, p)|))
  {
    EnvFreeFacts(vm, e);
    var v := EnvFree(vm, e);
    SlotsExact(vm);
    SlotsExact(v);
    assert Holders(Slots(v), p) == Holders(Slots(vm), p) - HeldBy(vm, e, p);
    assert HeldBy(vm, e, p) <= Holders(Slots(vm), p);
    assert p in Limbo(v) <==> p in Limbo(vm);
  }
}
