/** The page operations keep the reference counts exact and refine a finite map of translations. */
module VmFacts {
  import opened Counting
  import opened Vm

  // ---- slots ----

  lemma SlotsExact(vm: Vm)
    requires Shape(vm)
    ensures forall s :: s in Slots(vm) <==> At(vm, s).Some?
    ensures forall s :: s in Slots(vm) ==> Some(Slots(vm)[s]) == At(vm, s)
  {
    forall s | At(vm, s).Some? ensures s in Universe(vm.dir.Keys) {
      match s
      case DirSlot(e) =>
      case PdeSlot(e, i) =>
      case PteSlot(e, pn) =>
    }
  }

  lemma SlotsSame(vm: Vm, vm': Vm)
    requires Shape(vm) && Shape(vm')
    requires forall s :: At(vm', s) == At(vm, s)
    ensures Slots(vm') == Slots(vm)
  {
    SlotsExact(vm);
    SlotsExact(vm');
    assert forall s :: s in Slots(vm') <==> s in Slots(vm);
  }

  lemma SlotsAdd(vm: Vm, vm': Vm, s0: Slot)
    requires Shape(vm) && Shape(vm')
    requires At(vm, s0).None? && At(vm', s0).Some?
    requires forall s :: s != s0 ==> At(vm', s) == At(vm, s)
    ensures s0 !in Slots(vm) && Slots(vm') == Slots(vm)[s0 := At(vm', s0).value]
  {
    SlotsExact(vm);
    SlotsExact(vm');
    assert forall s :: s in Slots(vm') <==> s in Slots(vm)[s0 := At(vm', s0).value];
  }

  lemma SlotsDrop(vm: Vm, vm': Vm, s0: Slot)
    requires Shape(vm) && Shape(vm')
    requires At(vm, s0).Some? && At(vm', s0).None?
    requires forall s :: s != s0 ==> At(vm', s) == At(vm, s)
    ensures s0 in Slots(vm) && Slots(vm') == Slots(vm) - {s0}
    ensures Slots(vm)[s0] == At(vm, s0).value
  {
    SlotsExact(vm);
    SlotsExact(vm');
    assert forall s :: s in Slots(vm') <==> s in Slots(vm) - {s0};
  }

  /** A page with reference count 0 that is not reserved occurs in no slot. */
  lemma UnreferencedNowhere(vm: Vm, p: nat)
    requires Valid(vm) && p < |vm.ref| && vm.ref[p] == 0 && p !in vm.boot
    ensures forall s :: At(vm, s) != Some(p)
  {
    SlotsExact(vm);
    CountZero(Slots(vm), p);
  }

  /** A page some slot names has a positive count and is not free. */
  lemma ReferencedCounted(vm: Vm, s: Slot)
    requires Valid(vm) && At(vm, s).Some?
    ensures At(vm, s).value < |vm.ref| && vm.ref[At(vm, s).value] > 0 && At(vm, s).value !in vm.free
  {
    var p := At(vm, s).value;
    SlotsExact(vm);
    CountZero(Slots(vm), p);
    assert s in Slots(vm) && Slots(vm)[s] == p;
  }

  // ---- writing one entry ----

  /** Rewriting a page-table entry changes one translation and no directory entry. */
  lemma SetPteFacts(vm: Vm, e: EnvId, pn: nat, x: Pte)
    requires Shape(vm) && Exclusive(vm) && e in vm.dir && pn < USERPAGES
    requires Pde(vm, e, Pdx(pn)).Entry?
    requires x.Entry? ==> x.page < |vm.ref|
    ensures var v := SetEntry(vm, Pde(vm, e, Pdx(pn)).page, Ptx(pn), x);
      && Xlate(v, e, pn) == x
      && (forall e2: EnvId, i2: nat :: Pde(v, e2, i2) == Pde(vm, e2, i2))
      && (forall e2: EnvId, pn2: nat :: (e2, pn2) != (e, pn) ==> Xlate(v, e2, pn2) == Xlate(vm, e2, pn2))
      && (forall s :: s != PteSlot(e, pn) ==> At(v, s) == At(vm, s))
  {
    var i := Pdx(pn);
    var t := Pde(vm, e, i).page;
    var v := SetEntry(vm, t, Ptx(pn), x);
    assert At(vm, PdeSlot(e, i)) == Some(t);
    forall e2: EnvId, i2: nat ensures Pde(v, e2, i2) == Pde(vm, e2, i2) {
      if e2 in vm.dir { assert At(vm, DirSlot(e2)) == Some(vm.dir[e2]); }
    }
    forall e2: EnvId, pn2: nat | (e2, pn2) != (e, pn) ensures Xlate(v, e2, pn2) == Xlate(vm, e2, pn2) {
      var d2 := Pde(vm, e2, Pdx(pn2));
      if d2.Entry? && d2.page == t {
        assert At(vm, PdeSlot(e2, Pdx(pn2))) == Some(t);
        assert Ptx(pn2) != Ptx(pn);
      }
    }
    forall s | s != PteSlot(e, pn) ensures At(v, s) == At(vm, s) {
      match s
      case DirSlot(_) =>
      case PdeSlot(_, _) =>
      case PteSlot(_, _) =>
    }
  }

  // ---- page_alloc ----

  lemma PageAllocFacts(vm: Vm)
    requires Valid(vm) && vm.free != []
    ensures var (v, r) := PageAlloc(vm);
      && r == Some(vm.free[0]) && Valid(v)
      && vm.free[0] < |vm.ref| && vm.ref[vm.free[0]] == 0 && vm.free[0] !in v.free
      && (forall s :: At(v, s) == At(vm, s))
      && (forall s :: At(v, s) != r)
      && (forall e: EnvId, pn: nat :: Xlate(v, e, pn) == Xlate(vm, e, pn))
      && (forall e: EnvId, i: nat :: Pde(v, e, i) == Pde(vm, e, i))
      && Limbo(v) == Limbo(vm) + {vm.free[0]}
  {
    var (v, r) := PageAlloc(vm);
    var p := vm.free[0];
    assert p in vm.free;
    assert forall q :: q in vm.free[1..] ==> q in vm.free;
    UnreferencedNowhere(vm, p);
    forall e: EnvId, i: nat ensures Pde(v, e, i) == Pde(vm, e, i) {
      if e in vm.dir { assert At(vm, DirSlot(e)) == Some(vm.dir[e]); }
    }
    forall e: EnvId, pn: nat ensures Xlate(v, e, pn) == Xlate(vm, e, pn) {
      var d := Pde(vm, e, Pdx(pn));
      if d.Entry? { assert At(vm, PdeSlot(e, Pdx(pn))) == Some(d.page); }
    }
    forall s ensures At(v, s) == At(vm, s) {
      match s
      case DirSlot(_) =>
      case PdeSlot(_, _) =>
      case PteSlot(_, _) =>
    }
    SlotsSame(vm, v);
    assert vm.free == [p] + vm.free[1..];
    assert forall q :: q in vm.free <==> q == p || q in vm.free[1..];
  }

  // ---- adding and dropping one reference ----

  /** `v` is `vm` with the contents of one slot changed. */
  ghost predicate DiffersAt(vm: Vm, v: Vm, s0: Slot) {
    && Shape(vm) && Shape(v)
    && |v.ref| == |vm.ref| && v.boot == vm.boot
    && forall s :: s != s0 ==> At(v, s) == At(vm, s)
  }

  lemma CountsAfterAdd(vm: Vm, v: Vm, s0: Slot, p: nat)
    requires DiffersAt(vm, v, s0) && Counted(vm) && p < |vm.ref| && p !in vm.boot
    requires At(vm, s0).None? && At(v, s0) == Some(p)
    requires v.ref == Incref(vm, p).ref
    ensures Counted(v) <==> vm.ref[p] + 1 < REFLIM
  {
    SlotsAdd(vm, v, s0);
    MatchAdd(vm.ref, Slots(vm), vm.boot, s0, p, Inc16(vm.ref[p]));
  }

  lemma CountsAfterDrop(vm: Vm, v: Vm, s0: Slot)
    requires DiffersAt(vm, v, s0) && Counted(vm)
    requires At(vm, s0).Some? && At(v, s0).None?
    requires At(vm, s0).value < |vm.ref| && At(vm, s0).value !in vm.boot
    requires v.ref == PageDecref(vm, At(vm, s0).value).ref
    ensures Counted(v)
  {
    var p := At(vm, s0).value;
    SlotsDrop(vm, v, s0);
    MatchRemove(vm.ref, Slots(vm), vm.boot, s0);
    assert v.ref == vm.ref[p := vm.ref[p] - 1];
  }

  lemma ExclusiveAfterAdd(vm: Vm, v: Vm, s0: Slot, p: nat)
    requires DiffersAt(vm, v, s0) && Exclusive(vm)
    requires At(v, s0) == Some(p)
    requires forall s :: At(vm, s) == Some(p) ==> s.PteSlot? && s0.PteSlot?
    ensures Exclusive(v)
  {
    forall s, t | At(v, s).Some? && At(v, s) == At(v, t) && !s.PteSlot? ensures s == t {
      if s != s0 && t != s0 {
        assert At(vm, s) == At(vm, t);
      }
    }
  }

  lemma ExclusiveAfterDrop(vm: Vm, v: Vm, s0: Slot)
    requires DiffersAt(vm, v, s0) && Exclusive(vm)
    requires At(v, s0).None?
    ensures Exclusive(v)
  {
    forall s, t | At(v, s).Some? && At(v, s) == At(v, t) && !s.PteSlot? ensures s == t {
      assert At(vm, s) == At(vm, t);
    }
  }

  /** Filling one empty slot with `p` and counting it keeps the invariant, unless the count wraps. */
  lemma AddRef(vm: Vm, v: Vm, s0: Slot, p: nat)
    requires Valid(vm) && DiffersAt(vm, v, s0) && p < |vm.ref| && p !in vm.boot && p !in vm.free
    requires v.ref == Incref(vm, p).ref && v.free == vm.free
    requires At(vm, s0).None? && At(v, s0) == Some(p)
    requires forall s :: At(vm, s) == Some(p) ==> s.PteSlot? && s0.PteSlot?
    ensures Valid(v) <==> vm.ref[p] + 1 < REFLIM
    ensures Valid(v) ==> Limbo(v) == Limbo(vm) - {p}
  {
    assert Counted(v) == (vm.ref[p] + 1 < REFLIM) by { CountsAfterAdd(vm, v, s0, p); }
    assert Exclusive(v) by { ExclusiveAfterAdd(vm, v, s0, p); }
    if vm.ref[p] + 1 < REFLIM {
      OffBootAfterAdd(vm, v, s0, p);
      FreeAfterAdd(vm, v, p);
    }
  }

  lemma OffBootAfterAdd(vm: Vm, v: Vm, s0: Slot, p: nat)
    requires DiffersAt(vm, v, s0) && At(v, s0) == Some(p) && p !in vm.boot
    requires forall s :: At(vm, s).Some? ==> At(vm, s).value !in vm.boot
    ensures forall s :: At(v, s).Some? ==> At(v, s).value !in v.boot
  {
  }

  lemma FreeAfterAdd(vm: Vm, v: Vm, p: nat)
    requires Shape(vm) && Shape(v) && p < |vm.ref| && p !in vm.boot && p !in vm.free && vm.ref[p] + 1 < REFLIM
    requires v.ref == vm.ref[p := vm.ref[p] + 1] && v.free == vm.free && v.boot == vm.boot
    requires forall q :: q in vm.free ==> vm.ref[q] == 0 && q !in vm.boot
    ensures forall q :: q in v.free ==> v.ref[q] == 0 && q !in v.boot
    ensures Limbo(v) == Limbo(vm) - {p}
  {
  }

  /** How the pages in limbo change when one page's count and the free list change. */
  lemma LimboAfter(r: seq<nat>, r': seq<nat>, free: seq<nat>, free': seq<nat>, boot: set<nat>, p: nat)
    requires |r'| == |r| && p < |r| && p !in boot && p !in free && r' == r[p := r'[p]]
    requires forall q :: q in free' <==> q in free || (q == p && r'[p] == 0)
    ensures forall q: nat :: q < |r| && q !in boot ==>
      ((r'[q] == 0 && q !in free') <==> (r[q] == 0 && q !in free && q != p))
  {
  }

  /** Emptying one slot and uncounting it keeps the invariant; the page is freed exactly when that was its last slot. */
  lemma DropRef(vm: Vm, v: Vm, s0: Slot)
    requires Valid(vm) && DiffersAt(vm, v, s0) && At(vm, s0).Some? && At(v, s0).None?
    requires At(vm, s0).value < |vm.ref|
    requires var d := PageDecref(vm, At(vm, s0).value); v.ref == d.ref && v.free == d.free
    ensures Valid(v) && Limbo(v) == Limbo(vm)
  {
    var p := At(vm, s0).value;
    ReferencedCounted(vm, s0);
    CountsAfterDrop(vm, v, s0);
    ExclusiveAfterDrop(vm, v, s0);
    FreedOnce(vm.free, v.free, p);
    LimboAfter(vm.ref, v.ref, vm.free, v.free, vm.boot, p);
  }

  lemma FreedOnce(free: seq<nat>, free': seq<nat>, p: nat)
    requires Distinct(free) && p !in free && (free' == free || free' == [p] + free)
    ensures Distinct(free')
    ensures forall q :: q in free' <==> q in free || (q == p && free' != free)
  {
  }

  // ---- pgdir_walk ----

  /** Putting a fresh page table under an empty directory entry changes no translation. */
  lemma InstallTableFacts(vm: Vm, e: EnvId, i: nat, t: nat)
    requires Valid(vm) && e in vm.dir && i < NPDE && Pde(vm, e, i).Zero?
    requires t < |vm.ref| && t !in vm.boot && t !in vm.free && vm.ref[t] == 0 && vm.tab[t] == ZeroRow()
    ensures var v := SetEntry(Incref(vm, t), vm.dir[e], i, Entry(t, PDEPERM));
      && Valid(v) && Limbo(v) == Limbo(vm) - {t}
      && (forall e2: EnvId, pn2: nat :: Xlate(v, e2, pn2) == Xlate(vm, e2, pn2))
      && Pde(v, e, i) == Entry(t, PDEPERM)
      && (forall e2: EnvId, i2: nat :: (e2 != e || i2 != i) ==> Pde(v, e2, i2) == Pde(vm, e2, i2))
  {
    var d := vm.dir[e];
    var v := SetEntry(Incref(vm, t), d, i, Entry(t, PDEPERM));
    UnreferencedNowhere(vm, t);
    assert At(vm, DirSlot(e)) == Some(d);
    forall e2: EnvId, i2: nat | e2 != e || i2 != i ensures Pde(v, e2, i2) == Pde(vm, e2, i2) {
      if e2 in vm.dir { assert At(vm, DirSlot(e2)) == Some(vm.dir[e2]); }
    }
    forall e2: EnvId, pn2: nat ensures Xlate(v, e2, pn2) == Xlate(vm, e2, pn2) {
      var p2 := Pde(vm, e2, Pdx(pn2));
      if p2.Entry? { assert At(vm, PdeSlot(e2, Pdx(pn2))) == Some(p2.page); }
    }
    forall s | s != PdeSlot(e, i) ensures At(v, s) == At(vm, s) {
      match s
      case DirSlot(_) =>
      case PdeSlot(_, _) =>
      case PteSlot(_, _) =>
    }
    AddRef(vm, v, PdeSlot(e, i), t);
  }

  /** What a successful or failed pgdir_walk(create) leaves alone. */
  ghost predicate Walked(vm: Vm, v: Vm) {
    && Valid(vm) && Valid(v) && Limbo(v) == Limbo(vm)
    && |v.ref| == |vm.ref| && v.dir == vm.dir && v.boot == vm.boot
    && (forall p :: p in v.free ==> p in vm.free)
    && (forall p :: 0 <= p < |vm.ref| && p !in vm.free ==> v.mem[p] == vm.mem[p] && v.ref[p] == vm.ref[p])
    && (forall e2: EnvId, pn2: nat :: Xlate(v, e2, pn2) == Xlate(vm, e2, pn2))
    && (forall e2: EnvId, i2: nat :: Pde(v, e2, i2) == Pde(vm, e2, i2)
                                     || (Pde(v, e2, i2).Entry? && Pde(v, e2, i2).page in vm.free))
  }

  lemma PgdirWalkFacts(vm: Vm, e: EnvId, pn: nat)
    requires Valid(vm) && e in vm.dir && pn < USERPAGES
    ensures var (v, t) := PgdirWalk(vm, e, pn);
      && Walked(vm, v)
      && (t.None? <==> Pde(vm, e, Pdx(pn)).Zero? && vm.free == [])
      && (t.None? ==> v == vm)
      && (t.Some? ==> Pde(v, e, Pdx(pn)).Entry? && Pde(v, e, Pdx(pn)).page == t.value)
  {
    if Pde(vm, e, Pdx(pn)).Zero? && vm.free != [] {
      PageAllocFacts(vm);
      var (v1, t) := PageAlloc(vm);
      assert forall p :: p in v1.free ==> p in vm.free;
      assert t.value in vm.free;
      InstallTableFacts(v1, e, Pdx(pn), t.value);
    }
  }

  // ---- page_remove ----

  /** page_remove deletes one translation, uncounts its page and touches no other page's contents. */
  lemma PageRemoveFacts(vm: Vm, e: EnvId, pn: nat)
    requires Valid(vm) && e in vm.dir && pn < USERPAGES
    ensures var v := PageRemove(vm, e, pn);
      && Valid(v) && Limbo(v) == Limbo(vm)
      && v.mem == vm.mem && v.dir == vm.dir && v.boot == vm.boot
      && Xlate(v, e, pn) == Zero
      && (forall e2: EnvId, pn2: nat :: e2 != e || pn2 != pn ==> Xlate(v, e2, pn2) == Xlate(vm, e2, pn2))
      && (forall e2: EnvId, i2: nat :: Pde(v, e2, i2) == Pde(vm, e2, i2))
  {
    var x := Xlate(vm, e, pn);
    if x.Entry? {
      var vd := PageDecref(vm, x.page);
      assert Pde(vd, e, Pdx(pn)) == Pde(vm, e, Pdx(pn));
      DecrefKeepsTables(vm, x.page);
      SetPteFacts(vd, e, pn, Zero);
      var v := PageRemove(vm, e, pn);
      assert forall s :: s != PteSlot(e, pn) ==> At(v, s) == At(vm, s);
      DropRef(vm, v, PteSlot(e, pn));
    }
  }

  lemma DecrefKeepsTables(vm: Vm, p: nat)
    requires Shape(vm) && p < |vm.ref|
    ensures var v := PageDecref(vm, p);
      && v.tab == vm.tab && v.dir == vm.dir && v.boot == vm.boot && v.mem == vm.mem
      && (forall s :: At(v, s) == At(vm, s))
      && (forall e: EnvId, pn: nat :: Xlate(v, e, pn) == Xlate(vm, e, pn))
      && (forall e: EnvId, i: nat :: Pde(v, e, i) == Pde(vm, e, i))
      && (Exclusive(vm) ==> Exclusive(v))
  {
    var v := PageDecref(vm, p);
    forall s ensures At(v, s) == At(vm, s) {
      match s
      case DirSlot(_) =>
      case PdeSlot(_, _) =>
      case PteSlot(_, _) =>
    }
    if Exclusive(vm) {
      forall s, t | At(v, s).Some? && At(v, s) == At(v, t) && !s.PteSlot? ensures s == t {
        assert At(vm, s) == At(vm, t);
      }
    }
  }

  // ---- page_insert ----

  /** A page that only page-table entries may name: not reserved, not free, no table, no directory. */
  ghost predicate IsData(vm: Vm, p: nat)
    requires Shape(vm)
  {
    && p < |vm.ref| && p !in vm.boot && p !in vm.free
    && forall s :: At(vm, s) == Some(p) ==> s.PteSlot?
  }

  lemma WalkKeepsData(vm: Vm, v: Vm, p: nat)
    requires Walked(vm, v) && IsData(vm, p)
    ensures IsData(v, p)
  {
    forall s | At(v, s) == Some(p) ensures s.PteSlot? {
      match s
      case DirSlot(e) => assert At(vm, s) == Some(p);
      case PdeSlot(e, i) => assert At(vm, s) == Some(p);
      case PteSlot(_, _) =>
    }
  }

  /** The final store of page_insert into an empty entry. */
  lemma FillPteFacts(vm: Vm, e: EnvId, p: nat, pn: nat, perm: Perm)
    requires Valid(vm) && e in vm.dir && pn < USERPAGES && IsData(vm, p)
    requires Pde(vm, e, Pdx(pn)).Entry? && Xlate(vm, e, pn).Zero?
    ensures var v := SetEntry(Incref(vm, p), Pde(vm, e, Pdx(pn)).page, Ptx(pn), Entry(p, perm));
      && (Valid(v) <==> vm.ref[p] + 1 < REFLIM)
      && (Valid(v) ==> Limbo(v) == Limbo(vm) - {p})
      && Xlate(v, e, pn) == Entry(p, perm)
      && (forall e2: EnvId, pn2: nat :: e2 != e || pn2 != pn ==> Xlate(v, e2, pn2) == Xlate(vm, e2, pn2))
  {
    var w := Incref(vm, p);
    assert w.tab == vm.tab && w.dir == vm.dir;
    IncrefKeepsTables(vm, p);
    SetPteFacts(w, e, pn, Entry(p, perm));
    var v := SetEntry(w, Pde(vm, e, Pdx(pn)).page, Ptx(pn), Entry(p, perm));
    assert forall s :: s != PteSlot(e, pn) ==> At(v, s) == At(vm, s);
    AddRef(vm, v, PteSlot(e, pn), p);
  }

  lemma IncrefKeepsTables(vm: Vm, p: nat)
    requires Shape(vm) && p < |vm.ref|
    ensures var v := Incref(vm, p);
      && (forall s :: At(v, s) == At(vm, s))
      && (forall e: EnvId, pn: nat :: Xlate(v, e, pn) == Xlate(vm, e, pn))
      && (forall e: EnvId, i: nat :: Pde(v, e, i) == Pde(vm, e, i))
      && (Exclusive(vm) ==> Exclusive(v))
  {
    var v := Incref(vm, p);
    forall s ensures At(v, s) == At(vm, s) {
      match s
      case DirSlot(_) =>
      case PdeSlot(_, _) =>
      case PteSlot(_, _) =>
    }
    if Exclusive(vm) {
      forall s, t | At(v, s).Some? && At(v, s) == At(v, t) && !s.PteSlot? ensures s == t {
        assert At(vm, s) == At(vm, t);
      }
    }
  }

  /** Re-inserting the page already mapped there only changes the permissions. */
  lemma ReplacePermFacts(vm: Vm, e: EnvId, p: nat, pn: nat, perm: Perm)
    requires Valid(vm) && e in vm.dir && pn < USERPAGES
    requires Xlate(vm, e, pn).Entry? && Xlate(vm, e, pn).page == p
    ensures var v := SetEntry(vm, Pde(vm, e, Pdx(pn)).page, Ptx(pn), Entry(p, perm));
      && Valid(v) && Limbo(v) == Limbo(vm)
      && Xlate(v, e, pn) == Entry(p, perm)
      && (forall e2: EnvId, pn2: nat :: e2 != e || pn2 != pn ==> Xlate(v, e2, pn2) == Xlate(vm, e2, pn2))
  {
    var v := SetEntry(vm, Pde(vm, e, Pdx(pn)).page, Ptx(pn), Entry(p, perm));
    SetPteFacts(vm, e, pn, Entry(p, perm));
    assert At(v, PteSlot(e, pn)) == At(vm, PteSlot(e, pn));
    assert forall s :: At(v, s) == At(vm, s);
    SlotsSame(vm, v);
    forall s, t | At(v, s).Some? && At(v, s) == At(v, t) && !s.PteSlot? ensures s == t {
      assert At(vm, s) == At(vm, t);
    }
  }

  /** The whole of page_insert's effect on translations, counts and page contents. */
  ghost predicate Inserted(vm: Vm, v: Vm, e: EnvId, p: nat, pn: nat, perm: Perm)
    requires Shape(vm) && Shape(v)
  {
    && |v.ref| == |vm.ref| && v.dir == vm.dir && v.boot == vm.boot
    && (forall q :: 0 <= q < |vm.ref| && q !in vm.free ==> v.mem[q] == vm.mem[q])
    && Xlate(v, e, pn) == Entry(p, perm)
    && (forall e2: EnvId, pn2: nat :: e2 != e || pn2 != pn ==> Xlate(v, e2, pn2) == Xlate(vm, e2, pn2))
    && (Valid(v) ==> Limbo(v) == Limbo(vm) - {p})
  }

  lemma PutPteFacts(vm: Vm, e: EnvId, p: nat, pn: nat, perm: Perm)
    requires Valid(vm) && e in vm.dir && pn < USERPAGES && IsData(vm, p) && Pde(vm, e, Pdx(pn)).Entry?
    ensures var v := PutPte(vm, e, p, pn, perm);
      && Inserted(vm, v, e, p, pn, perm)
      && (Valid(v) <==> At(vm, PteSlot(e, pn)) == Some(p) || vm.ref[p] + 1 < REFLIM)
  {
    var x := Xlate(vm, e, pn);
    var t := Pde(vm, e, Pdx(pn)).page;
    if x.Zero? {
      FillPteFacts(vm, e, p, pn, perm);
      assert Incref(SetEntry(vm, t, Ptx(pn), Entry(p, perm)), p) == SetEntry(Incref(vm, p), t, Ptx(pn), Entry(p, perm));
    } else if x.page == p {
      ReplacePermFacts(vm, e, p, pn, perm);
      ReferencedCounted(vm, PteSlot(e, pn));
    } else {
      PageRemoveFacts(vm, e, pn);
      RemoveKeepsData(vm, e, pn, p);
      FillPteFacts(PageRemove(vm, e, pn), e, p, pn, perm);
    }
  }

  /**
   * page_insert fails exactly when a page table is needed and no page is free, and then changes nothing.
   * Otherwise it maps exactly `pn`; the counts stay exact unless a new reference wraps the 16-bit count.
   */
  lemma PageInsertFacts(vm: Vm, e: EnvId, p: nat, pn: nat, perm: Perm)
    requires Valid(vm) && e in vm.dir && pn < USERPAGES && IsData(vm, p)
    ensures var (v, ok) := PageInsert(vm, e, p, pn, perm);
      && (!ok <==> Pde(vm, e, Pdx(pn)).Zero? && vm.free == [])
      && (!ok ==> v == vm)
      && (ok ==> Inserted(vm, v, e, p, pn, perm))
      && (ok ==> (Valid(v) <==> At(vm, PteSlot(e, pn)) == Some(p) || vm.ref[p] + 1 < REFLIM))
  {
    PgdirWalkFacts(vm, e, pn);
    var (w, t) := PgdirWalk(vm, e, pn);
    if t.Some? {
      WalkKeepsData(vm, w, p);
      PutPteFacts(w, e, p, pn, perm);
      assert At(w, PteSlot(e, pn)) == At(vm, PteSlot(e, pn));
    }
  }

  lemma RemoveKeepsData(vm: Vm, e: EnvId, pn: nat, p: nat)
    requires Valid(vm) && e in vm.dir && pn < USERPAGES && IsData(vm, p)
    requires Xlate(vm, e, pn).Entry? && Xlate(vm, e, pn).page != p
    ensures var v := PageRemove(vm, e, pn); IsData(v, p) && v.ref[p] == vm.ref[p]
  {
    PageRemoveFacts(vm, e, pn);
    var v := PageRemove(vm, e, pn);
    forall s | At(v, s) == Some(p) ensures s.PteSlot? {
      match s
      case DirSlot(_) => assert At(vm, s) == Some(p);
      case PdeSlot(_, _) => assert At(vm, s) == Some(p);
      case PteSlot(_, _) =>
    }
  }
}
