/** Copy-on-write fork is indistinguishable from an eager copy, in every run and under every interleaving. */
module CowTheorem {
  import opened Counting
  import opened Vm
  import opened VmFacts
  import opened EnvFacts
  import opened Syscalls
  import opened AddressMap
  import opened CowFork
  import opened CowInvariant
  import opened CowSteps
  import opened CowForkSteps

  ghost function FlatOf(s: Sys): Flat
    requires WF(s)
  {
    Flat(Translations(s.vm), s.vm.mem, s.procs)
  }

  ghost predicate SysInv(s: Sys) {
    Valid(s.vm) && WF(s) && |s.procs| <= NENV && Inv(FlatOf(s))
  }

  ghost predicate Related(s: Sys, a: Eager) {
    WF(s) && Rel(FlatOf(s), a)
  }

  // ---- reference counts stay far from wrapping ----

  /** The slots page `p` can be mapped in: one page number, or PFTEMP, per environment. */
  ghost function PossibleSlots(envs: set<EnvId>, pn: nat): set<Slot> {
    (set e | e in envs :: PteSlot(e, pn)) + (set e | e in envs :: PteSlot(e, PFTEMP))
  }

  lemma {:induction false} SlotsPerEnv(envs: set<EnvId>, pn: nat)
    ensures |set e | e in envs :: PteSlot(e, pn)| == |envs|
  {
    if envs == {} {
      assert (set e | e in envs :: PteSlot(e, pn)) == {};
    } else {
      var x :| x in envs;
      SlotsPerEnv(envs - {x}, pn);
      assert (set e | e in envs :: PteSlot(e, pn)) == (set e | e in envs - {x} :: PteSlot(e, pn)) + {PteSlot(x, pn)};
    }
  }

  /** With at most NENV environments, no reference count in a run of fork can reach 16 bits. */
  lemma RefBound(s: Sys, e: EnvId, pn: nat)
    requires SysInv(s) && Xlate(s.vm, e, pn).Entry? && pn != PFTEMP
    ensures s.vm.ref[Xlate(s.vm, e, pn).page] + 1 < REFLIM
  {
    var vm := s.vm;
    var p := Xlate(vm, e, pn).page;
    var f := FlatOf(s);
    TranslationsExact(vm);
    SlotsExact(vm);
    MappedIsData(vm, e, pn);
    forall t | t in Holders(Slots(vm), p) ensures t in PossibleSlots(vm.dir.Keys, pn) {
      assert At(vm, t) == Some(p);
      assert t.PteSlot? && Xlate(vm, t.e, t.pn).page == p;
      assert (t.e, t.pn) in f.tr && (e, pn) in f.tr;
      assert f.tr[(t.e, t.pn)].page == f.tr[(e, pn)].page;
    }
    SlotsPerEnv(vm.dir.Keys, pn);
    SlotsPerEnv(vm.dir.Keys, PFTEMP);
    var (x, y) := (set q | q in vm.dir.Keys :: PteSlot(q, pn), set q | q in vm.dir.Keys :: PteSlot(q, PFTEMP));
    assert |x + y| <= |x| + |y|;
    SubsetSize(Holders(Slots(vm), p), PossibleSlots(vm.dir.Keys, pn));
    assert |s.procs.Keys| == |s.procs|;
  }

  lemma {:induction false} SubsetSize<T>(a: set<T>, b: set<T>)
    requires a <= b
    ensures |a| <= |b|
  {
    assert b == a + (b - a);
  }

  // ---- from page tables to the address map ----

  lemma BytesKept(vm: Vm, v: Vm)
    requires Valid(vm) && Shape(v) && |v.ref| == |vm.ref|
    requires forall q :: 0 <= q < |vm.ref| && q !in vm.free ==> v.mem[q] == vm.mem[q]
    ensures SameBytes(Translations(vm), vm.mem, v.mem)
  {
    TranslationsExact(vm);
    forall k | k in Translations(vm) ensures Translations(vm)[k].page !in vm.free {
      assert k == (k.0, k.1);
      MappedIsData(vm, k.0, k.1);
    }
  }

  lemma UnmappedIsFresh(vm: Vm, p: nat)
    requires Shape(vm) && Syscalls.Unmapped(vm, p)
    ensures Fresh(Translations(vm), p)
  {
    TranslationsExact(vm);
    forall k | k in Translations(vm) ensures Translations(vm)[k].page != p { assert k == (k.0, k.1); }
  }

  /** A successful sys_page_alloc, on the address map. */
  lemma AllocOnMap(vm: Vm, e: EnvId, pn: nat, perm: Perm)
    requires Valid(vm) && e in vm.dir
    ensures var (v, c) := SysPageAlloc(vm, Some(e), pn, perm);
      && Valid(v) && SameBytes(Translations(vm), vm.mem, v.mem)
      && (c == Ok ==>
          && vm.free != [] && vm.free[0] < |v.mem| && Fresh(Translations(vm), vm.free[0])
          && v.mem[vm.free[0]] == ZeroPage()
          && Translations(v) == Translations(vm)[(e, pn) := Entry(vm.free[0], perm)])
      && (c != Ok ==> Translations(v) == Translations(vm))
  {
    SysPageAllocFacts(vm, Some(e), pn, perm);
    var (v, c) := SysPageAlloc(vm, Some(e), pn, perm);
    BytesKept(vm, v);
    if c == Ok {
      UnmappedIsFresh(vm, vm.free[0]);
      RemappedMap(vm, v, e, pn, Entry(vm.free[0], perm));
      assert vm.free[0] in vm.free;
    } else {
      UnmovedMap(vm, v);
    }
  }

  /** sys_page_map of a mapped page, on the address map; it cannot fail if the target is mapped already. */
  lemma MapOnMap(s: Sys, src: EnvId, spn: nat, dst: EnvId, dpn: nat, perm: Perm)
    requires SysInv(s) && src in s.vm.dir && dst in s.vm.dir && spn < USERPAGES && dpn < USERPAGES
    requires (src, spn) in Translations(s.vm)
    requires MapSafe(s.vm, src, spn, dst, dpn)
    ensures var vm := s.vm; var (v, c) := SysPageMap(vm, Some(src), spn, Some(dst), dpn, perm);
      && Valid(v) && SameBytes(Translations(vm), vm.mem, v.mem)
      && (c == Ok ==> Translations(v) == Translations(vm)[(dst, dpn) := Entry(Translations(vm)[(src, spn)].page, perm)])
      && (c != Ok ==> v == vm && (dst, dpn) !in Translations(vm))
  {
    var vm := s.vm;
    TranslationsExact(vm);
    SysPageMapFacts(vm, Some(src), spn, Some(dst), dpn, perm);
    var (v, c) := SysPageMap(vm, Some(src), spn, Some(dst), dpn, perm);
    BytesKept(vm, v);
    if c == Ok { RemappedMap(vm, v, dst, dpn, Entry(Xlate(vm, src, spn).page, perm)); }
  }

  lemma UnmapOnMap(vm: Vm, e: EnvId, pn: nat)
    requires Valid(vm) && e in vm.dir && pn < USERPAGES
    ensures var v := SysPageUnmap(vm, Some(e), pn).0;
      Valid(v) && Translations(v) == Translations(vm) - {(e, pn)} && SameBytes(Translations(vm), vm.mem, v.mem)
  {
    PageRemoveFacts(vm, e, pn);
    PageRemoveRefines(vm, e, pn);
    BytesKept(vm, PageRemove(vm, e, pn));
  }

  // ---- one step ----

  ghost predicate Sim(t: Sys, a: Eager) {
    SysInv(t) && Related(t, a)
  }

  /** Back from the address map to page tables. */
  lemma Close(v: Vm, procs: Procs, g: Flat, a: Eager)
    requires Valid(v) && v.dir.Keys == procs.Keys && |procs| <= NENV
    requires g == Flat(Translations(v), v.mem, procs) && Inv(g) && Rel(g, a)
    ensures Sim(Sys(v, procs), a)
  {
    assert FlatOf(Sys(v, procs)) == g;
  }

  lemma StoreSim(s: Sys, a: Eager, e: EnvId, pn: nat, off: nat, b: Byte)
    requires Sim(s, a) && CanStep(s, Write(e, pn, off, b)) && Xlate(s.vm, e, pn).Entry? && Xlate(s.vm, e, pn).perm.w
    ensures Sim(s.(vm := StoreByte(s.vm, e, pn, off, b)), EagerStep(a, Wrote(e, pn, off, b)))
  {
    var f := FlatOf(s);
    var t := s.(vm := StoreByte(s.vm, e, pn, off, b));
    TranslationsExact(s.vm);
    StoreKeeps(s.vm, e, pn, off, b);
    UnmovedMap(s.vm, t.vm);
    WriteKeepsInv(f, (e, pn), off, b);
    WriteKeepsRel(f, a, (e, pn), off, b);
    assert FlatOf(t) == Stored(f, (e, pn), off, b);
  }

  /** `e` panics, or stops forking outside a window, while the tables stay as they are. */
  lemma LeaveSim(s: Sys, a: Eager, e: EnvId, p: Proc, v: Vm)
    requires Sim(s, a) && Running(s.procs, e)
    requires p == DEAD || (p == s.procs[e].(fork := NoFork) && !s.procs[e].fork.Mark?)
    requires Valid(v) && v.dir == s.vm.dir && Translations(v) == Translations(s.vm)
    requires SameBytes(Translations(s.vm), s.vm.mem, v.mem)
    ensures Sim(Sys(v, s.procs[e := p]), a)
  {
    LeavesFork(FlatOf(s), a, e, p, v.mem);
    assert FlatOf(Sys(v, s.procs[e := p])) == Left(FlatOf(s), e, p, v.mem);
  }

  lemma FaultSim(s: Sys, a: Eager, e: EnvId, pn: nat)
    requires Sim(s, a) && Runs(s, e) && Region(pn) && Xlate(s.vm, e, pn).Entry? && Xlate(s.vm, e, pn).perm.cow
    ensures Sim(SetProc(s, e, s.procs[e].(fault := FAlloc(pn))), a)
  {
    var t := SetProc(s, e, s.procs[e].(fault := FAlloc(pn)));
    TranslationsExact(s.vm);
    FaultStarts(FlatOf(s), a, e, pn);
    assert FlatOf(t) == FlatOf(s).(procs := t.procs);
  }

  lemma WriteSim(s: Sys, a: Eager, e: EnvId, pn: nat, off: nat, b: Byte)
    requires Sim(s, a) && CanStep(s, Write(e, pn, off, b))
    ensures var (t, ev) := WriteStep(s, e, pn, off, b); Sim(t, EagerStep(a, ev))
  {
    var x := Xlate(s.vm, e, pn);
    if x.Entry? && x.perm.w {
      StoreSim(s, a, e, pn, off, b);
    } else if x.Entry? && x.perm.cow {
      FaultSim(s, a, e, pn);
    } else {
      LeaveSim(s, a, e, DEAD, s.vm);
    }
  }

  /** `e` is inside pgfault. */
  ghost predicate Faulting(s: Sys, a: Eager, e: EnvId, fault: Fault) {
    Sim(s, a) && Running(s.procs, e) && s.procs[e].fault == fault
  }

  lemma HandleAlloc(s: Sys, a: Eager, e: EnvId, q: nat)
    requires Faulting(s, a, e, FAlloc(q))
    ensures Sim(HandleStep(s, e), a)
  {
    var t := HandleStep(s, e);
    AllocOnMap(s.vm, e, PFTEMP, RW);
    if SysPageAlloc(s.vm, Some(e), PFTEMP, RW).1 == Ok {
      FaultAllocates(FlatOf(s), a, e, q, s.vm.free[0], t.vm.mem);
      assert FlatOf(t) == Flat(Translations(t.vm), t.vm.mem, s.procs[e := s.procs[e].(fault := FCopy(q))]);
    } else {
      LeaveSim(s, a, e, DEAD, t.vm);
    }
  }

  lemma HandleCopy(s: Sys, a: Eager, e: EnvId, q: nat)
    requires Faulting(s, a, e, FCopy(q))
    ensures Sim(HandleStep(s, e), a)
  {
    var t := HandleStep(s, e);
    TranslationsExact(s.vm);
    FaultCopies(FlatOf(s), a, e, q);
    SameTables(s.vm, t.vm);
    UnmovedMap(s.vm, t.vm);
    assert FlatOf(t) == Flat(FlatOf(s).tr, t.vm.mem, s.procs[e := s.procs[e].(fault := FMap(q))]);
  }

  lemma HandleMap(s: Sys, a: Eager, e: EnvId, q: nat)
    requires Faulting(s, a, e, FMap(q))
    ensures Sim(HandleStep(s, e), a)
  {
    var t := HandleStep(s, e);
    var f := FlatOf(s);
    assert FaultOk(f.tr, f.bytes, e, f.procs[e].fault);
    MapTempSafe(s, e, q);
    MapOnMap(s, e, PFTEMP, e, q, RW);
    FaultMaps(f, a, e, q, t.vm.mem);
    assert FlatOf(t) == Flat(f.tr[(e, q) := Entry(f.tr[(e, PFTEMP)].page, RW)], t.vm.mem,
      f.procs[e := f.procs[e].(fault := FUnmap(q))]);
  }

  lemma HandleUnmap(s: Sys, a: Eager, e: EnvId, q: nat)
    requires Faulting(s, a, e, FUnmap(q))
    ensures Sim(HandleStep(s, e), a)
  {
    var t := HandleStep(s, e);
    var f := FlatOf(s);
    UnmapOnMap(s.vm, e, PFTEMP);
    FaultEnds(f, a, e, q, t.vm.mem);
    assert FlatOf(t) == Flat(f.tr - {(e, PFTEMP)}, t.vm.mem, f.procs[e := f.procs[e].(fault := NoFault)]);
  }

  lemma HandleSim(s: Sys, a: Eager, e: EnvId)
    requires Sim(s, a) && CanStep(s, Handle(e))
    ensures Sim(HandleStep(s, e), a)
  {
    match s.procs[e].fault
    case FAlloc(q) => HandleAlloc(s, a, e, q);
    case FCopy(q) => HandleCopy(s, a, e, q);
    case FMap(q) => HandleMap(s, a, e, q);
    case FUnmap(q) => HandleUnmap(s, a, e, q);
  }

  /** The private page at PFTEMP has one reference, so a second one fits. */
  lemma MapTempSafe(s: Sys, e: EnvId, q: nat)
    requires SysInv(s) && Running(s.procs, e) && s.procs[e].fault == FMap(q)
    ensures MapSafe(s.vm, e, PFTEMP, e, q)
  {
    var vm := s.vm;
    var f := FlatOf(s);
    TranslationsExact(vm);
    TempIsPrivate(f, e);
    var p := Xlate(vm, e, PFTEMP).page;
    SlotsExact(vm);
    MappedIsData(vm, e, PFTEMP);
    assert Holders(Slots(vm), p) <= {PteSlot(e, PFTEMP)} by {
      forall t | t in Holders(Slots(vm), p) ensures t == PteSlot(e, PFTEMP) {
        assert At(vm, t) == Some(p);
        assert t.PteSlot? && (t.e, t.pn) in f.tr;
      }
    }
    SubsetSize(Holders(Slots(vm), p), {PteSlot(e, PFTEMP)});
  }

  // ---- fork ----

  lemma ForkStartSim(s: Sys, a: Eager, e: EnvId, c: EnvId)
    requires Sim(s, a) && CanStep(s, ForkStart(e, c))
    ensures Sim(ForkStartStep(s, e, c), a)
  {
    var t := ForkStartStep(s, e, c);
    EnvSetupVmFacts(s.vm, c);
    if EnvSetupVm(s.vm, c).1 {
      UnmovedMap(s.vm, t.vm);
      BytesKept(s.vm, t.vm);
      ForkStarts(FlatOf(s), a, e, c, t.vm.mem);
      assert FlatOf(t) == Started(FlatOf(s), e, c, t.vm.mem);
      assert |t.procs| <= |s.procs| + 1;
    }
  }

  /** duppage's first call: the child gets the parent's page, or no page table could be made. */
  lemma GiveOnMap(s: Sys, e: EnvId, c: EnvId, k: nat)
    requires SysInv(s) && e in s.procs && c in s.procs && Region(k) && Xlate(s.vm, e, k).Entry?
    ensures (e, k) in Translations(s.vm) && Translations(s.vm)[(e, k)] == Xlate(s.vm, e, k)
    ensures var perm := ChildPerm(Xlate(s.vm, e, k).perm);
      var (v, code) := SysPageMap(s.vm, Some(e), k, Some(c), k, perm);
      && Valid(v) && SameBytes(Translations(s.vm), s.vm.mem, v.mem)
      && (code == Ok ==> Translations(v) == Translations(s.vm)[(c, k) := Entry(Xlate(s.vm, e, k).page, perm)])
      && (code != Ok ==> v == s.vm)
  {
    TranslationsExact(s.vm);
    RefBound(s, e, k);
    MapOnMap(s, e, k, c, k, ChildPerm(Xlate(s.vm, e, k).perm));
  }

  /** What ForkLoopStep does with a mapped page. */
  lemma GiveStep(s: Sys, e: EnvId, c: EnvId, k: nat)
    requires WF(s) && e in s.procs && c in s.procs && s.procs[e].fork == Next(c, k) && Region(k) &&
      Xlate(s.vm, e, k).Entry?
    ensures var x := Xlate(s.vm, e, k); var (v, code) := SysPageMap(s.vm, Some(e), k, Some(c), k, ChildPerm(x.perm));
      var fk := AfterGive(x, c, k);
      ForkLoopStep(s, e) ==
        if code != Ok then (Sys(v, s.procs[e := s.procs[e].(fork := NoFork)]), Silent)
        else (Sys(v, s.procs[e := s.procs[e].(fork := fk)]), if fk == Mark(c, k, true) then Silent else Copied(e, c, k))
  {
    var x := Xlate(s.vm, e, k);
    assert ChildPerm(x.perm) == COW ==> AfterGive(x, c, k) == Mark(c, k, x.perm.w);
  }

  lemma GivenSim(f: Flat, a: Eager, e: EnvId, c: EnvId, k: nat, v: Vm)
    requires Inv(f) && Rel(f, a) && AtNext(f, e, c, k) && (e, k) in f.tr && |f.procs| <= NENV
    requires Valid(v) && v.dir.Keys == f.procs.Keys && SameBytes(f.tr, f.bytes, v.mem)
    requires Translations(v) == f.tr[(c, k) := Entry(f.tr[(e, k)].page, ChildPerm(f.tr[(e, k)].perm))]
    ensures var fk := AfterGive(f.tr[(e, k)], c, k);
      Sim(Sys(v, SetFork(f, e, fk)), EagerStep(a, if fk == Mark(c, k, true) then Silent else Copied(e, c, k)))
  {
    var fk := AfterGive(f.tr[(e, k)], c, k);
    ForkGives(f, a, e, c, k, v.mem);
    CloseGiven(f, e, c, k, fk, v, EagerStep(a, if fk == Mark(c, k, true) then Silent else Copied(e, c, k)));
  }

  lemma CloseGiven(f: Flat, e: EnvId, c: EnvId, k: nat, fk: Fork, v: Vm, a: Eager)
    requires e in f.procs && (e, k) in f.tr && f.tr[(e, k)].Entry? && |f.procs| <= NENV && Valid(v) &&
      v.dir.Keys == f.procs.Keys
    requires Translations(v) == f.tr[(c, k) := Entry(f.tr[(e, k)].page, ChildPerm(f.tr[(e, k)].perm))]
    requires Inv(Given(f, e, c, k, fk, v.mem)) && Rel(Given(f, e, c, k, fk, v.mem), a)
    ensures Sim(Sys(v, SetFork(f, e, fk)), a)
  {
    Close(v, SetFork(f, e, fk), Given(f, e, c, k, fk, v.mem), a);
  }

  lemma ForkGiveSim(s: Sys, a: Eager, e: EnvId, c: EnvId, k: nat)
    requires Sim(s, a) && Runs(s, e) && s.procs[e].fork == Next(c, k) && Region(k) && c in s.procs
    requires Xlate(s.vm, e, k).Entry?
    ensures var (t, ev) := ForkLoopStep(s, e); Sim(t, EagerStep(a, ev))
  {
    GiveOnMap(s, e, c, k);
    GiveStep(s, e, c, k);
    var (v, code) := SysPageMap(s.vm, Some(e), k, Some(c), k, ChildPerm(Xlate(s.vm, e, k).perm));
    if code == Ok {
      GivenSim(FlatOf(s), a, e, c, k, v);
    } else {
      LeaveSim(s, a, e, s.procs[e].(fork := NoFork), v);
    }
  }

  lemma ForkSkipSim(s: Sys, a: Eager, e: EnvId, c: EnvId, k: nat)
    requires Sim(s, a) && Runs(s, e) && s.procs[e].fork == Next(c, k) && Region(k) && c in s.procs
    requires Xlate(s.vm, e, k).Zero?
    ensures var (t, ev) := ForkLoopStep(s, e); Sim(t, EagerStep(a, ev))
  {
    NotMapped(s.vm, e, k);
    var f := FlatOf(s);
    ForkSkips(f, a, e, c, k);
    var t := ForkLoopStep(s, e).0;
    assert t == Sys(s.vm, SetFork(f, e, Next(c, k + 1)));
    Close(t.vm, t.procs, f.(procs := t.procs), a);
  }

  lemma NotMapped(vm: Vm, e: EnvId, pn: nat)
    requires Shape(vm) && Xlate(vm, e, pn).Zero?
    ensures (e, pn) !in Translations(vm)
  {
  }

  lemma ForkEndSim(s: Sys, a: Eager, e: EnvId, c: EnvId)
    requires Sim(s, a) && Runs(s, e) && s.procs[e].fork == Next(c, USTACKTOP) && c in s.procs
    ensures var (t, ev) := ForkLoopStep(s, e); Sim(t, EagerStep(a, ev))
  {
    var f := FlatOf(s);
    var (t, ev) := ForkLoopStep(s, e);
    assert ForkOk(f.tr, f.procs, e, f.procs[e].fork);
    AllocOnMap(s.vm, c, UXSTACK, RW);
    if SysPageAlloc(s.vm, Some(c), UXSTACK, RW).1 == Ok {
      ForkEnds(f, a, e, c, s.vm.free[0], t.vm.mem);
      assert FlatOf(t) == Ended(f, e, c, s.vm.free[0], t.vm.mem);
    } else {
      LeaveSim(s, a, e, s.procs[e].(fork := NoFork), t.vm);
      assert t.procs == s.procs[e := s.procs[e].(fork := NoFork)];
    }
  }

  /** Re-marking a mapping that exists cannot fail. */
  lemma MarkOnMap(s: Sys, e: EnvId, c: EnvId, k: nat, wasW: bool)
    requires SysInv(s) && Runs(s, e) && s.procs[e].fork == Mark(c, k, wasW)
    ensures (e, k) in Translations(s.vm)
    ensures var (v, code) := SysPageMap(s.vm, Some(e), k, Some(e), k, COW);
      && code == Ok && Valid(v) && SameBytes(Translations(s.vm), s.vm.mem, v.mem)
      && Translations(v) == Translations(s.vm)[(e, k) := Entry(Translations(s.vm)[(e, k)].page, COW)]
  {
    var f := FlatOf(s);
    assert ForkOk(f.tr, f.procs, e, f.procs[e].fork);
    MapOnMap(s, e, k, e, k, COW);
  }

  lemma ForkMarkSim(s: Sys, a: Eager, e: EnvId, c: EnvId, k: nat, wasW: bool)
    requires Sim(s, a) && Runs(s, e) && s.procs[e].fork == Mark(c, k, wasW) && c in s.procs
    ensures var (t, ev) := ForkLoopStep(s, e); Sim(t, EagerStep(a, ev))
  {
    var f := FlatOf(s);
    MarkOnMap(s, e, c, k, wasW);
    var t := ForkLoopStep(s, e).0;
    ForkMarks(f, a, e, c, k, wasW, t.vm.mem);
    assert FlatOf(t) == Marked(f, e, c, k, t.vm.mem);
  }

  lemma ForkStepSim(s: Sys, a: Eager, e: EnvId)
    requires Sim(s, a) && CanStep(s, ForkStep(e))
    ensures var (t, ev) := ForkLoopStep(s, e); Sim(t, EagerStep(a, ev))
  {
    var f := FlatOf(s);
    assert ForkOk(f.tr, f.procs, e, f.procs[e].fork);
    match s.procs[e].fork
    case Next(c, k) =>
      if k == USTACKTOP { ForkEndSim(s, a, e, c); }
      else if Xlate(s.vm, e, k).Zero? { ForkSkipSim(s, a, e, c, k); }
      else { ForkGiveSim(s, a, e, c, k); }
    case Mark(c, k, wasW) => ForkMarkSim(s, a, e, c, k, wasW);
  }

  // ---- allocation, unmapping, exit ----

  lemma AllocSim(s: Sys, a: Eager, e: EnvId, pn: nat, w: bool, share: bool)
    requires Sim(s, a) && CanStep(s, Action.Alloc(e, pn, w, share))
    ensures var (t, ev) := Step(s, Action.Alloc(e, pn, w, share)); Sim(t, EagerStep(a, ev))
  {
    var f := FlatOf(s);
    var (t, ev) := Step(s, Action.Alloc(e, pn, w, share));
    AllocOnMap(s.vm, e, pn, Perm(w, false, share));
    if SysPageAlloc(s.vm, Some(e), pn, Perm(w, false, share)).1 == Ok {
      Allocates(f, a, e, pn, w, share, s.vm.free[0], t.vm.mem);
      assert FlatOf(t) == Flat(f.tr[(e, pn) := Entry(s.vm.free[0], Perm(w, false, share))], t.vm.mem, f.procs);
    } else {
      MemChangeSim(s, a, t.vm);
    }
  }

  /** A failed allocation: only pages nobody maps may have changed. */
  lemma MemChangeSim(s: Sys, a: Eager, v: Vm)
    requires Sim(s, a) && Valid(v) && v.dir == s.vm.dir && Translations(v) == Translations(s.vm)
    requires SameBytes(Translations(s.vm), s.vm.mem, v.mem)
    ensures Sim(s.(vm := v), a)
  {
    var f := FlatOf(s);
    var g := Flat(f.tr, v.mem, f.procs);
    assert Backed(g.tr, g.bytes);
    forall e | Running(g.procs, e) ensures FaultOk(g.tr, g.bytes, e, g.procs[e].fault) {
      assert FaultOk(f.tr, f.bytes, e, f.procs[e].fault);
    }
    RelSame(f, g, a);
    assert FlatOf(s.(vm := v)) == g;
  }

  lemma UnmapSim(s: Sys, a: Eager, e: EnvId, pn: nat)
    requires Sim(s, a) && CanStep(s, Action.Unmap(e, pn))
    ensures var (t, ev) := Step(s, Action.Unmap(e, pn)); Sim(t, EagerStep(a, ev))
  {
    var f := FlatOf(s);
    var (t, ev) := Step(s, Action.Unmap(e, pn));
    UnmapOnMap(s.vm, e, pn);
    Unmaps(f, a, e, pn, t.vm.mem);
    assert FlatOf(t) == Flat(f.tr - {(e, pn)}, t.vm.mem, f.procs);
  }

  lemma ExitOnMap(s: Sys, e: EnvId)
    requires SysInv(s) && e in s.procs
    ensures var v := EnvFree(s.vm, e);
      && Valid(v) && v.dir.Keys == (s.procs - {e}).Keys && Translations(v) == Without(Translations(s.vm), e)
      && SameBytes(FlatOf(s).tr, s.vm.mem, v.mem)
  {
    EnvFreeRefines(s.vm, e);
    EnvFreeFacts(s.vm, e);
    BytesKept(s.vm, EnvFree(s.vm, e));
  }

  lemma ExitSim(s: Sys, a: Eager, e: EnvId)
    requires Sim(s, a) && CanStep(s, Exit(e))
    ensures Sim(Sys(EnvFree(s.vm, e), s.procs - {e}), EagerStep(a, Exited(e)))
  {
    var f := FlatOf(s);
    var v := EnvFree(s.vm, e);
    ExitOnMap(s, e);
    assert forall p :: Forking(f.procs, p, e) == Parent(s, p, e);
    Exits(f, a, e, v.mem);
    Close(v, s.procs - {e}, Flat(Without(f.tr, e), v.mem, f.procs - {e}), EagerStep(a, Exited(e)));
  }

  // ---- every run ----

  /** One step of copy-on-write fork is one step of the eager machine, or none. */
  lemma StepSim(s: Sys, a: Eager, act: Action)
    requires Sim(s, a) && CanStep(s, act)
    ensures var (t, ev) := Step(s, act); Sim(t, EagerStep(a, ev))
  {
    match act
    case Write(e, pn, off, b) => WriteSim(s, a, e, pn, off, b);
    case Handle(e) => HandleSim(s, a, e);
    case ForkStart(e, c) => ForkStartSim(s, a, e, c);
    case ForkStep(e) => ForkStepSim(s, a, e);
    case Alloc(e, pn, w, share) => AllocSim(s, a, e, pn, w, share);
    case Unmap(e, pn) => UnmapSim(s, a, e, pn);
    case Exit(e) => ExitSim(s, a, e);
  }

  lemma {:induction false} RunSim(s: Sys, a: Eager, acts: seq<Action>)
    requires Sim(s, a) && IsRun(s, acts)
    ensures Sim(Execute(s, acts), EagerRun(a, s, acts))
    decreases |acts|
  {
    if acts != [] {
      StepSim(s, a, acts[0]);
      RunSim(Step(s, acts[0]).0, EagerStep(a, Step(s, acts[0]).1), acts[1..]);
    }
  }

  /**
   * Copy-on-write fork refines eager copying: after any run, every running environment sees, on every page
   * from UTEXT to USTACKTOP, exactly the bytes it would see if fork had copied each page.
   */
  lemma CowRefinesEager(s: Sys, a: Eager, acts: seq<Action>, e: EnvId, pn: nat)
    requires Sim(s, a) && IsRun(s, acts)
    requires Running(Execute(s, acts).procs, e) && Region(pn)
    ensures View(Execute(s, acts), e, pn) == EagerView(EagerRun(a, s, acts), e, pn)
  {
    RunSim(s, a, acts);
    SimViews(Execute(s, acts), EagerRun(a, s, acts), e, pn);
  }

  lemma SimViews(t: Sys, a: Eager, e: EnvId, pn: nat)
    requires Sim(t, a) && Running(t.procs, e) && Region(pn)
    ensures View(t, e, pn) == EagerView(a, e, pn)
  {
    TranslationsExact(t.vm);
    RunningNotHidden(FlatOf(t), (e, pn));
    assert Match(FlatOf(t).tr, FlatOf(t).bytes, a, (e, pn));
  }

  // ---- a fork nobody disturbs ----

  /** How many pages the fork has handed over in the eager machine's eyes. */
  function HandedOver(fk: Fork): nat
    requires !fk.NoFork?
  {
    if fk.Mark? && !fk.wasW then fk.pn + 1 else fk.pn
  }

  /** In `a`, the pages of `e` are those of `a0`, and the child has a copy of each page below `k`. */
  ghost predicate CopiedUpTo(a: Eager, a0: Eager, e: EnvId, c: EnvId, k: nat) {
    && a.shm == a0.shm
    && (forall pn: nat :: SameCell(a, e, pn, a0, e))
    && (forall pn: nat :: UTEXT <= pn < k ==> SameCell(a, c, pn, a0, e))
  }

  ghost predicate SameCell(a: Eager, x: EnvId, pn: nat, a0: Eager, e: EnvId) {
    ((x, pn) in a.cells <==> (e, pn) in a0.cells) && ((x, pn) in a.cells ==> a.cells[(x, pn)] == a0.cells[(e, pn)])
  }

  /** What the eager machine knows about the page the fork is at. */
  ghost predicate Poised(s: Sys, a: Eager, e: EnvId)
    requires WF(s) && e in s.procs && !s.procs[e].fork.NoFork?
  {
    var fk := s.procs[e].fork;
    && fk.child != e && fk.child in s.procs && s.procs[fk.child] == DEAD
    && UTEXT <= fk.pn <= USTACKTOP
    && (fk.Next? && Region(fk.pn) ==>
        ((e, fk.pn) in a.cells <==> Xlate(s.vm, e, fk.pn).Entry?) && (fk.child, fk.pn) !in a.cells)
    && (fk.Mark? ==> (e, fk.pn) in a.cells)
  }

  lemma SimPoised(s: Sys, a: Eager, e: EnvId)
    requires Sim(s, a) && e in s.procs && !s.procs[e].fork.NoFork?
    ensures Poised(s, a, e)
  {
    var f := FlatOf(s);
    TranslationsExact(s.vm);
    var fk := s.procs[e].fork;
    assert ForkOk(f.tr, f.procs, e, fk);
    if Region(fk.pn) {
      RunningNotHidden(f, (e, fk.pn));
      assert Match(f.tr, f.bytes, a, (e, fk.pn));
      if fk.Next? {
        assert Forking(f.procs, e, fk.child);
        HiddenChild(f, e, fk, (fk.child, fk.pn));
        assert SetFork(f, e, fk) == f.procs;
        assert Match(f.tr, f.bytes, a, (fk.child, fk.pn));
      }
    }
  }

  lemma CopyAdvances(a: Eager, a0: Eager, e: EnvId, c: EnvId, k: nat)
    requires CopiedUpTo(a, a0, e, c, k) && e != c
    ensures (e, k) in a.cells ==> CopiedUpTo(EagerStep(a, Copied(e, c, k)), a0, e, c, k + 1)
    ensures (e, k) !in a.cells && (c, k) !in a.cells ==> CopiedUpTo(a, a0, e, c, k + 1)
  {
    assert SameCell(a, e, k, a0, e);
    if (e, k) in a.cells {
      var b := EagerStep(a, Copied(e, c, k));
      forall pn: nat ensures SameCell(b, e, pn, a0, e) { assert SameCell(a, e, pn, a0, e); }
      forall pn: nat | UTEXT <= pn < k + 1 ensures SameCell(b, c, pn, a0, e) {
        if pn < k { assert SameCell(a, c, pn, a0, e); }
      }
    } else if (c, k) !in a.cells {
      forall pn: nat | UTEXT <= pn < k + 1 ensures SameCell(a, c, pn, a0, e) {
        if pn < k { assert SameCell(a, c, pn, a0, e); }
      }
    }
  }

  lemma AloneStep(s: Sys, a: Eager, a0: Eager, e: EnvId)
    requires WF(s) && CanStep(s, ForkStep(e)) && Poised(s, a, e)
    requires var fk := s.procs[e].fork; CopiedUpTo(a, a0, e, fk.child, HandedOver(fk))
    ensures var fk := s.procs[e].fork; var (t, ev) := ForkLoopStep(s, e); var a' := EagerStep(a, ev);
      && e in t.procs
      && (!t.procs[e].fork.NoFork? ==>
        t.procs[e].fork.child == fk.child && CopiedUpTo(a', a0, e, fk.child, HandedOver(t.procs[e].fork)))
      && (t.procs[e].fork.NoFork? ==> CopiedUpTo(a', a0, e, fk.child, HandedOver(fk)))
      && (Running(t.procs, fk.child) ==> t.procs[e].fork.NoFork? && HandedOver(fk) == USTACKTOP)
  {
    var fk := s.procs[e].fork;
    CopyAdvances(a, a0, e, fk.child, fk.pn);
  }

  /** The state after `n` more steps of `e`'s fork, as both machines see it. */
  ghost predicate AloneEnd(s: Sys, a: Eager, a0: Eager, e: EnvId, c: EnvId, acts: seq<Action>)
    requires WF(s) && IsRun(s, acts)
  {
    Running(Execute(s, acts).procs, c) ==> CopiedUpTo(EagerRun(a, s, acts), a0, e, c, USTACKTOP)
  }

  /** Every state of a run is poised while `e` is forking. */
  ghost predicate AlwaysPoised(s: Sys, a: Eager, e: EnvId, acts: seq<Action>)
    requires WF(s) && IsRun(s, acts)
    decreases |acts|
  {
    && (e in s.procs && !s.procs[e].fork.NoFork? ==> Poised(s, a, e))
    && (acts != [] ==> AlwaysPoised(Step(s, acts[0]).0, EagerStep(a, Step(s, acts[0]).1), e, acts[1..]))
  }

  lemma {:induction false} RunPoised(s: Sys, a: Eager, e: EnvId, acts: seq<Action>)
    requires Sim(s, a) && IsRun(s, acts)
    ensures AlwaysPoised(s, a, e, acts)
    decreases |acts|
  {
    if e in s.procs && !s.procs[e].fork.NoFork? { SimPoised(s, a, e); }
    if acts != [] {
      StepSim(s, a, acts[0]);
      RunPoised(Step(s, acts[0]).0, EagerStep(a, Step(s, acts[0]).1), e, acts[1..]);
    }
  }

  lemma {:induction false} AloneSteps(s: Sys, a: Eager, a0: Eager, e: EnvId, c: EnvId, acts: seq<Action>)
    requires WF(s) && Forking(s.procs, e, c) && IsRun(s, acts) && forall i :: 0 <= i < |acts| ==> acts[i] == ForkStep(e)
    requires AlwaysPoised(s, a, e, acts)
    requires CopiedUpTo(a, a0, e, c, HandedOver(s.procs[e].fork))
    ensures AloneEnd(s, a, a0, e, c, acts)
    decreases |acts|
  {
    if acts != [] {
      assert |acts| > 1 ==> acts[1..][0] == ForkStep(e);
      var (t, ev) := Step(s, acts[0]);
      AloneStep(s, a, a0, e);
      if !t.procs[e].fork.NoFork? {
        AloneSteps(t, EagerStep(a, ev), a0, e, c, acts[1..]);
        assert AloneEnd(t, EagerStep(a, ev), a0, e, c, acts[1..]);
      }
    }
  }

  /**
   * A fork during which nobody else acts: once the child runs, it sees exactly the bytes the parent saw
   * before the fork, on every page from UTEXT to USTACKTOP, and so does the parent.
   */
  lemma ForkAlone(s: Sys, a: Eager, e: EnvId, c: EnvId, acts: seq<Action>, pn: nat)
    requires Sim(s, a) && CanStep(s, ForkStart(e, c)) && Region(pn)
    requires forall i :: 0 <= i < |acts| ==> acts[i] == ForkStep(e)
    requires IsRun(s, [ForkStart(e, c)] + acts) && Running(Execute(s, [ForkStart(e, c)] + acts).procs, c)
    ensures var t := Execute(s, [ForkStart(e, c)] + acts);
      View(t, c, pn) == View(s, e, pn) && (Running(t.procs, e) ==> View(t, e, pn) == View(s, e, pn))
  {
    var all := [ForkStart(e, c)] + acts;
    assert all[0] == ForkStart(e, c) && all[1..] == acts;
    var s1 := ForkStartStep(s, e, c);
    var b := EagerRun(a, s, all);
    assert b == EagerRun(a, s1, acts);
    ForkAloneCells(s, a, e, c, acts, pn);
    CowRefinesEager(s, a, [], e, pn);
    CowRefinesEager(s, a, all, c, pn);
    if Running(Execute(s, all).procs, e) { CowRefinesEager(s, a, all, e, pn); }
  }

  lemma ForkAloneCells(s: Sys, a: Eager, e: EnvId, c: EnvId, acts: seq<Action>, pn: nat)
    requires Sim(s, a) && CanStep(s, ForkStart(e, c)) && Region(pn)
    requires forall i :: 0 <= i < |acts| ==> acts[i] == ForkStep(e)
    requires var s1 := ForkStartStep(s, e, c); IsRun(s1, acts) && Running(Execute(s1, acts).procs, c)
    ensures var b := EagerRun(a, ForkStartStep(s, e, c), acts);
      EagerView(b, c, pn) == EagerView(a, e, pn) && EagerView(b, e, pn) == EagerView(a, e, pn)
  {
    var s1 := ForkStartStep(s, e, c);
    ForkStartSim(s, a, e, c);
    RunPoised(s1, a, e, acts);
    AloneCells(s, a, e, c, acts, pn);
  }

  lemma StartedFork(s: Sys, e: EnvId, c: EnvId)
    requires WF(s) && CanStep(s, ForkStart(e, c))
    ensures var s1 := ForkStartStep(s, e, c);
      s1 == s || (c !in s.procs && Forking(s1.procs, e, c) && s1.procs[e].fork == Next(c, UTEXT))
  {
  }

  /** Where nobody forks, a run of fork steps is empty. */
  lemma NoForkNoSteps(s: Sys, e: EnvId, acts: seq<Action>)
    requires WF(s) && e in s.procs && s.procs[e].fork.NoFork? && IsRun(s, acts)
    requires forall i :: 0 <= i < |acts| ==> acts[i] == ForkStep(e)
    ensures acts == [] && Execute(s, acts) == s
  {
    assert !CanStep(s, ForkStep(e));
  }

  lemma AloneCells(s: Sys, a: Eager, e: EnvId, c: EnvId, acts: seq<Action>, pn: nat)
    requires WF(s) && CanStep(s, ForkStart(e, c)) && Region(pn)
    requires forall i :: 0 <= i < |acts| ==> acts[i] == ForkStep(e)
    requires var s1 := ForkStartStep(s, e, c);
      IsRun(s1, acts) && Running(Execute(s1, acts).procs, c) && AlwaysPoised(s1, a, e, acts)
    ensures var b := EagerRun(a, ForkStartStep(s, e, c), acts);
      EagerView(b, c, pn) == EagerView(a, e, pn) && EagerView(b, e, pn) == EagerView(a, e, pn)
  {
    var s1 := ForkStartStep(s, e, c);
    StartedFork(s, e, c);
    if s1 == s {
      NoForkNoSteps(s, e, acts);
    } else {
      AloneSteps(s1, a, a, e, c, acts);
      var b := EagerRun(a, s1, acts);
      assert SameCell(b, c, pn, a, e) && SameCell(b, e, pn, a, e);
    }
  }

  // ---- where runs start ----

  /** Environments that neither fork nor fault, and whose pages are each mapped once, in the region. */
  ghost predicate Booted(s: Sys) {
    && Valid(s.vm) && WF(s) && |s.procs| <= NENV
    && (forall e :: e in s.procs ==> s.procs[e] == Proc(true, NoFork, NoFault))
    && (forall e: EnvId, pn: nat :: Xlate(s.vm, e, pn).Entry? ==> Region(pn) && !Xlate(s.vm, e, pn).perm.cow)
    && (forall e1: EnvId, pn1: nat, e2: EnvId, pn2: nat ::
          Xlate(s.vm, e1, pn1).Entry? && Xlate(s.vm, e2, pn2).Entry? &&
            Xlate(s.vm, e1, pn1).page == Xlate(s.vm, e2, pn2).page
          ==> e1 == e2 && pn1 == pn2)
  }

  /** The eager machine in the same situation. */
  ghost function EagerOf(s: Sys): Eager
    requires WF(s)
  {
    var tr := Translations(s.vm);
    Eager(map k | k in tr && tr[k].Entry? && tr[k].page < |s.vm.mem| ::
            if tr[k].perm.share then Shared(tr[k].page, tr[k].perm.w) else Private(s.vm.mem[tr[k].page], tr[k].perm.w),
          map p: nat | p < |s.vm.mem| :: s.vm.mem[p])
  }

  lemma BootedMap(s: Sys)
    requires Booted(s)
    ensures var f := FlatOf(s);
      && (forall k ::
        k in f.tr ==> f.tr[k].Entry? && f.tr[k].page < |f.bytes| && Region(k.1) && !f.tr[k].perm.cow && k.0 in f.procs)
      && (forall k1, k2 :: k1 in f.tr && k2 in f.tr && f.tr[k1].page == f.tr[k2].page ==> k1 == k2)
  {
    var f := FlatOf(s);
    TranslationsExact(s.vm);
    forall k | k in f.tr ensures f.tr[k].Entry? && f.tr[k].page < |f.bytes| && Region(k.1) && !f.tr[k].perm.cow &&
      k.0 in f.procs {
      assert k == (k.0, k.1) && Xlate(s.vm, k.0, k.1).Entry?;
    }
    forall k1, k2 | k1 in f.tr && k2 in f.tr && f.tr[k1].page == f.tr[k2].page ensures k1 == k2 {
      assert k1 == (k1.0, k1.1) && k2 == (k2.0, k2.1);
    }
  }

  /** Every booted system is a start of the refinement. */
  lemma BootedSim(s: Sys)
    requires Booted(s)
    ensures Sim(s, EagerOf(s))
  {
    BootedMap(s);
    BootedFlat(FlatOf(s));
    BootedRel(s);
    Close(s.vm, s.procs, FlatOf(s), EagerOf(s));
  }

  lemma BootedRel(s: Sys)
    requires Booted(s) && Typed(FlatOf(s).tr, FlatOf(s).procs) && Backed(FlatOf(s).tr, FlatOf(s).bytes)
    ensures Rel(FlatOf(s), EagerOf(s))
  {
    var f := FlatOf(s);
    var a := EagerOf(s);
    forall k: Key | Relevant(f.procs, k.0) && Region(k.1) && !Hidden(f.procs, k) ensures Match(f.tr, f.bytes, a, k) {}
  }

  lemma BootedFlat(f: Flat)
    requires forall k ::
      k in f.tr ==> f.tr[k].Entry? && f.tr[k].page < |f.bytes| && Region(k.1) && !f.tr[k].perm.cow && k.0 in f.procs
    requires forall k1, k2 :: k1 in f.tr && k2 in f.tr && f.tr[k1].page == f.tr[k2].page ==> k1 == k2
    requires forall e :: e in f.procs ==> f.procs[e] == Proc(true, NoFork, NoFault)
    requires forall p :: 0 <= p < |f.bytes| ==> |f.bytes[p]| == PGSIZE
    ensures Inv(f)
  {
    assert forall e: EnvId :: (e, PFTEMP) !in f.tr;
  }
}
