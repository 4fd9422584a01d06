/** The page system calls, and what every run of them keeps. */
module Syscalls {
  import opened Counting
  import opened Vm
  import opened VmFacts
  import opened EnvFacts

  datatype Code = Ok | Inval | BadEnv | NoMem

  /** sys_page_alloc. `target` is the outcome of envid2env, which the code only asks for after taking the page. */
  function SysPageAlloc(vm: Vm, target: Option<EnvId>, pn: nat, perm: Perm): (r: (Vm, Code))
    requires Shape(vm) && (target.Some? ==> target.value in vm.dir)
    ensures Shape(r.0) && |r.0.ref| == |vm.ref| && r.0.dir == vm.dir
  {
    if pn >= USERPAGES then (vm, Inval)
    else
      var (v, p) := PageAlloc(vm);
      if p.None? then (v, NoMem)
      else if target.None? then (v, BadEnv)
      else
        var (w, ok) := PageInsert(v, target.value, p.value, pn, perm);
        if ok then (w, Ok) else (PageFree(w, p.value), NoMem)
  }

  /** sys_page_map. An unmapped source is reported as out of memory, not as an invalid argument. */
  function SysPageMap(vm: Vm, src: Option<EnvId>, spn: nat, dst: Option<EnvId>, dpn: nat, perm: Perm): (r: (Vm, Code))
    requires Shape(vm) && (src.Some? ==> src.value in vm.dir) && (dst.Some? ==> dst.value in vm.dir)
    ensures Shape(r.0) && |r.0.ref| == |vm.ref| && r.0.dir == vm.dir
  {
    if spn >= USERPAGES || dpn >= USERPAGES then (vm, Inval)
    else if src.None? || dst.None? then (vm, BadEnv)
    else
      var x := Xlate(vm, src.value, spn);
      if x.Zero? then (vm, NoMem)
      else
        var (v, ok) := PageInsert(vm, dst.value, x.page, dpn, perm);
        (v, if ok then Ok else NoMem)
  }

  function SysPageUnmap(vm: Vm, target: Option<EnvId>, pn: nat): (r: (Vm, Code))
    requires Shape(vm) && (target.Some? ==> target.value in vm.dir)
    ensures Shape(r.0) && |r.0.ref| == |vm.ref| && r.0.dir == vm.dir
  {
    if pn >= USERPAGES then (vm, Inval)
    else if target.None? then (vm, BadEnv)
    else (PageRemove(vm, target.value, pn), Ok)
  }

  // ---- what the calls do to translations and contents ----

  /** Exactly the translation of (e, pn) changed, to `x`; pages in use keep their contents. */
  ghost predicate Remapped(vm: Vm, v: Vm, e: EnvId, pn: nat, x: Pte) {
    && Valid(vm) && Valid(v)
    && |v.ref| == |vm.ref| && v.dir == vm.dir && v.boot == vm.boot
    && Xlate(v, e, pn) == x
    && (forall e2: EnvId, pn2: nat :: e2 != e || pn2 != pn ==> Xlate(v, e2, pn2) == Xlate(vm, e2, pn2))
    && (forall q :: 0 <= q < |vm.ref| && q !in vm.free ==> v.mem[q] == vm.mem[q])
  }

  /** A page some entry maps is not free and holds data. */
  lemma MappedIsData(vm: Vm, e: EnvId, pn: nat)
    requires Valid(vm) && Xlate(vm, e, pn).Entry?
    ensures IsData(vm, Xlate(vm, e, pn).page)
  {
    var p := Xlate(vm, e, pn).page;
    assert At(vm, PteSlot(e, pn)) == Some(p);
    ReferencedCounted(vm, PteSlot(e, pn));
    assert forall s :: At(vm, s) == Some(p) ==> At(vm, s) == At(vm, PteSlot(e, pn));
  }

  /** No translation changed, and pages in use keep their contents. */
  ghost predicate Unmoved(vm: Vm, v: Vm) {
    && Valid(vm) && Valid(v)
    && |v.ref| == |vm.ref| && v.dir == vm.dir && v.boot == vm.boot
    && (forall e2: EnvId, pn2: nat :: Xlate(v, e2, pn2) == Xlate(vm, e2, pn2))
    && (forall q :: 0 <= q < |vm.ref| && q !in vm.free ==> v.mem[q] == vm.mem[q])
  }

  /** `p` is mapped nowhere. */
  ghost predicate Unmapped(vm: Vm, p: nat)
    requires Shape(vm)
  {
    forall e: EnvId, pn: nat :: Xlate(vm, e, pn).Entry? ==> Xlate(vm, e, pn).page != p
  }

  /** Taking a page off the free list changes no translation and takes a page nobody maps. */
  lemma TakePage(vm: Vm)
    requires Valid(vm) && vm.free != []
    ensures var v := PageAlloc(vm).0;
      && Unmoved(vm, v) && Unmapped(vm, vm.free[0]) && IsData(v, vm.free[0]) && v.ref[vm.free[0]] == 0
      && v.mem[vm.free[0]] == ZeroPage()
      && (forall q :: q in v.free ==> q in vm.free)
      && Limbo(v) == Limbo(vm) + {vm.free[0]} && vm.free[0] !in Limbo(vm)
  {
    PageAllocFacts(vm);
    var p := vm.free[0];
    assert p in vm.free;
    var v := PageAlloc(vm).0;
    forall e: EnvId, pn: nat | Xlate(vm, e, pn).Entry? ensures Xlate(vm, e, pn).page != p {
      assert At(v, PteSlot(e, pn)) == Some(Xlate(v, e, pn).page);
    }
  }

  lemma SysPageAllocOk(vm: Vm, e: EnvId, pn: nat, perm: Perm)
    requires Valid(vm) && e in vm.dir && pn < USERPAGES && vm.free != []
    ensures var v := PageAlloc(vm).0; var (w, ok) := PageInsert(v, e, vm.free[0], pn, perm);
      && (!ok ==> w == v)
      && (ok ==>
        Remapped(vm, w, e, pn, Entry(vm.free[0], perm)) && w.mem[vm.free[0]] == ZeroPage() && Limbo(w) == Limbo(vm))
  {
    TakePage(vm);
    PageInsertFacts(PageAlloc(vm).0, e, vm.free[0], pn, perm);
  }

  /**
   * sys_page_alloc maps a zeroed page nobody else maps, or fails and changes no translation. Only the
   * bad-environment failure loses a page: the one it took stays out of reach for good.
   */
  lemma SysPageAllocFacts(vm: Vm, target: Option<EnvId>, pn: nat, perm: Perm)
    requires Valid(vm) && (target.Some? ==> target.value in vm.dir)
    ensures var (v, c) := SysPageAlloc(vm, target, pn, perm);
      && Valid(v)
      && (c == Ok ==>
          && target.Some? && vm.free != [] && Unmapped(vm, vm.free[0])
          && Remapped(vm, v, target.value, pn, Entry(vm.free[0], perm))
          && v.mem[vm.free[0]] == ZeroPage()
          && Limbo(v) == Limbo(vm))
      && (c != Ok ==> Unmoved(vm, v))
      && (c == BadEnv <==> pn < USERPAGES && vm.free != [] && target.None?)
      && (c == BadEnv ==> Limbo(v) == Limbo(vm) + {vm.free[0]} && vm.free[0] !in Limbo(vm))
      && (c != BadEnv ==> Limbo(v) == Limbo(vm))
      && (c == NoMem ==> v.free == vm.free && v.ref == vm.ref)
  {
    if pn < USERPAGES && vm.free != [] {
      TakePage(vm);
      if target.Some? {
        SysPageAllocOk(vm, target.value, pn, perm);
        GiveBackFacts(vm);
      }
    }
  }

  /** Freeing a page right after allocating it restores counts, list and translations. */
  lemma GiveBackFacts(vm: Vm)
    requires Valid(vm) && vm.free != []
    ensures var v := PageFree(PageAlloc(vm).0, vm.free[0]);
      && Unmoved(vm, v) && v.free == vm.free && v.ref == vm.ref && Limbo(v) == Limbo(vm)
  {
    PageAllocFacts(vm);
    var w := PageAlloc(vm).0;
    var v := PageFree(w, vm.free[0]);
    assert v.free == vm.free;
    assert vm.free[0] in vm.free;
    assert v.tab == w.tab && v.dir == w.dir;
    forall s ensures At(v, s) == At(vm, s) {
      assert At(v, s) == At(w, s) by {
        match s
        case DirSlot(_) =>
        case PdeSlot(_, _) =>
        case PteSlot(_, _) =>
      }
    }
    SlotsSame(vm, v);
    forall s, t | At(v, s).Some? && At(v, s) == At(v, t) && !s.PteSlot? ensures s == t {
      assert At(vm, s) == At(vm, t);
    }
    forall e2: EnvId, pn2: nat ensures Xlate(v, e2, pn2) == Xlate(vm, e2, pn2) {
      assert Xlate(v, e2, pn2) == Xlate(w, e2, pn2);
    }
  }

  /** Inserting a page that is already referenced somewhere. */
  lemma InsertReferenced(vm: Vm, p: nat, e: EnvId, pn: nat, perm: Perm)
    requires Valid(vm) && e in vm.dir && pn < USERPAGES && IsData(vm, p) && vm.ref[p] > 0
    ensures var (v, ok) := PageInsert(vm, e, p, pn, perm);
      && (!ok ==> v == vm && Xlate(vm, e, pn).Zero?)
      && (ok ==> (Valid(v) <==> At(vm, PteSlot(e, pn)) == Some(p) || vm.ref[p] + 1 < REFLIM))
      && (ok && Valid(v) ==> Limbo(v) == Limbo(vm) && Remapped(vm, v, e, pn, Entry(p, perm)))
  {
    PageInsertFacts(vm, e, p, pn, perm);
    assert p !in Limbo(vm);
  }

  lemma InsertMapped(vm: Vm, src: EnvId, spn: nat, dst: EnvId, dpn: nat, perm: Perm)
    requires Valid(vm) && dst in vm.dir && dpn < USERPAGES && Xlate(vm, src, spn).Entry?
    ensures var p := Xlate(vm, src, spn).page; var (v, ok) := PageInsert(vm, dst, p, dpn, perm);
      && (!ok ==> v == vm && Xlate(vm, dst, dpn).Zero?)
      && (ok ==> (Valid(v) <==> MapSafe(vm, src, spn, dst, dpn)))
      && (ok && Valid(v) ==> Limbo(v) == Limbo(vm) && Remapped(vm, v, dst, dpn, Entry(p, perm)))
  {
    MappedIsData(vm, src, spn);
    ReferencedCounted(vm, PteSlot(src, spn));
    InsertReferenced(vm, Xlate(vm, src, spn).page, dst, dpn, perm);
  }

  /** sys_page_map aliases the source page at the destination, or fails and changes nothing at all. */
  lemma SysPageMapFacts(vm: Vm, src: Option<EnvId>, spn: nat, dst: Option<EnvId>, dpn: nat, perm: Perm)
    requires Valid(vm) && (src.Some? ==> src.value in vm.dir) && (dst.Some? ==> dst.value in vm.dir)
    ensures var (v, c) := SysPageMap(vm, src, spn, dst, dpn, perm);
      && (c != Ok ==> v == vm)
      && (c == Ok ==> src.Some? && dst.Some? && Xlate(vm, src.value, spn).Entry?)
      && (spn < USERPAGES && dpn < USERPAGES && src.Some? && dst.Some? && Xlate(vm, dst.value, dpn).Entry? ==>
          (c == Ok <==> Xlate(vm, src.value, spn).Entry?))
      && (c == Ok ==> (Valid(v) <==> MapSafe(vm, src.value, spn, dst.value, dpn)))
      && (c == Ok && Valid(v) ==>
          && Limbo(v) == Limbo(vm)
          && Remapped(vm, v, dst.value, dpn, Entry(Xlate(vm, src.value, spn).page, perm)))
  {
    if spn < USERPAGES && dpn < USERPAGES && src.Some? && dst.Some? && Xlate(vm, src.value, spn).Entry? {
      InsertMapped(vm, src.value, spn, dst.value, dpn, perm);
    }
  }

  /** One more reference to the source page still fits pp_ref, or none is added. */
  predicate MapSafe(vm: Vm, src: EnvId, spn: nat, dst: EnvId, dpn: nat)
    requires Shape(vm)
  {
    var x := Xlate(vm, src, spn);
    var y := Xlate(vm, dst, dpn);
    x.Entry? ==> (y.Entry? && y.page == x.page) || vm.ref[x.page] + 1 < REFLIM
  }

  // ---- runs ----

  /** One kernel operation on address spaces, with envid2env's answers as arguments, or one user store. */
  datatype Call =
    | Create(e: EnvId)
    | Alloc(target: Option<EnvId>, pn: nat, perm: Perm)
    | Map(src: Option<EnvId>, spn: nat, dst: Option<EnvId>, dpn: nat, mperm: Perm)
    | Unmap(from: Option<EnvId>, upn: nat)
    | Free(dead: EnvId)
    | Store(who: EnvId, wpn: nat, off: nat, b: Byte)

  predicate Live(vm: Vm, t: Option<EnvId>) {
    t.Some? ==> t.value in vm.dir
  }

  /** The environments a call names exist (or, for Create, does not). */
  ghost predicate Enabled(vm: Vm, c: Call) {
    match c
    case Create(e) => e !in vm.dir
    case Alloc(t, _, _) => Live(vm, t)
    case Map(s, _, d, _, _) => Live(vm, s) && Live(vm, d)
    case Unmap(t, _) => Live(vm, t)
    case Free(e) => e in vm.dir
    case Store(e, _, off, _) => e in vm.dir && off < PGSIZE
  }

  function StoreByte(vm: Vm, e: EnvId, pn: nat, off: nat, b: Byte): (v: Vm)
    requires Shape(vm) && off < PGSIZE
    ensures Shape(v) && |v.ref| == |vm.ref| && v.dir == vm.dir
  {
    var x := Xlate(vm, e, pn);
    if x.Entry? && x.perm.w then vm.(mem := vm.mem[x.page := vm.mem[x.page][off := b]]) else vm
  }

  ghost function Apply(vm: Vm, c: Call): (v: Vm)
    requires Shape(vm) && Enabled(vm, c)
    ensures Shape(v) && |v.ref| == |vm.ref|
  {
    match c
    case Create(e) => EnvSetupVm(vm, e).0
    case Alloc(t, pn, perm) => SysPageAlloc(vm, t, pn, perm).0
    case Map(s, spn, d, dpn, perm) => SysPageMap(vm, s, spn, d, dpn, perm).0
    case Unmap(t, pn) => SysPageUnmap(vm, t, pn).0
    case Free(e) => EnvFree(vm, e)
    case Store(e, pn, off, b) => StoreByte(vm, e, pn, off, b)
  }

  /** The caller-side condition under which a 16-bit count cannot wrap: a Map must find room for one more. */
  ghost predicate Safe(vm: Vm, c: Call)
    requires Shape(vm) && Enabled(vm, c)
  {
    (c.Map? && SysPageMap(vm, c.src, c.spn, c.dst, c.dpn, c.mperm).1 == Ok)
    ==> MapSafe(vm, c.src.value, c.spn, c.dst.value, c.dpn)
  }

  /** The pages a call puts out of reach: the one sys_page_alloc took before it found the environment bad. */
  ghost function Stranded(vm: Vm, c: Call): set<nat> {
    if c.Alloc? && c.target.None? && c.pn < USERPAGES && vm.free != [] then {vm.free[0]} else {}
  }

  lemma StoreKeeps(vm: Vm, e: EnvId, pn: nat, off: nat, b: Byte)
    requires Valid(vm) && off < PGSIZE
    ensures var v := StoreByte(vm, e, pn, off, b);
      && Valid(v) && Limbo(v) == Limbo(vm)
      && (forall e2: EnvId, pn2: nat :: Xlate(v, e2, pn2) == Xlate(vm, e2, pn2))
  {
    var v := StoreByte(vm, e, pn, off, b);
    SameTables(vm, v);
  }

  /** Changing only page contents changes nothing the invariant speaks about. */
  lemma SameTables(vm: Vm, v: Vm)
    requires Valid(vm) && Shape(v)
    requires v.ref == vm.ref && v.free == vm.free && v.tab == vm.tab && v.dir == vm.dir && v.boot == vm.boot
    ensures Valid(v) && Limbo(v) == Limbo(vm)
    ensures forall e2: EnvId, pn2: nat :: Xlate(v, e2, pn2) == Xlate(vm, e2, pn2)
  {
    forall s ensures At(v, s) == At(vm, s) {
      match s
      case DirSlot(_) =>
      case PdeSlot(_, _) =>
      case PteSlot(_, _) =>
    }
    SlotsSame(vm, v);
    forall s, t | At(v, s).Some? && At(v, s) == At(v, t) && !s.PteSlot? ensures s == t {
      assert At(vm, s) == At(vm, t);
    }
  }

  /** A call keeps the counts exact if and only if it does not wrap one; it strands at most one page. */
  lemma ApplyKeepsValid(vm: Vm, c: Call)
    requires Valid(vm) && Enabled(vm, c)
    ensures Valid(Apply(vm, c)) <==> Safe(vm, c)
    ensures Safe(vm, c) ==> Limbo(Apply(vm, c)) == Limbo(vm) + Stranded(vm, c) && Limbo(vm) !! Stranded(vm, c)
  {
    match c
    case Create(e) => EnvSetupVmFacts(vm, e);
    case Alloc(t, pn, perm) => SysPageAllocFacts(vm, t, pn, perm);
    case Map(s, spn, d, dpn, perm) => SysPageMapFacts(vm, s, spn, d, dpn, perm);
    case Unmap(t, pn) => if t.Some? && pn < USERPAGES { PageRemoveFacts(vm, t.value, pn); }
    case Free(e) => EnvFreeFacts(vm, e);
    case Store(e, pn, off, b) => StoreKeeps(vm, e, pn, off, b);
  }

  /** A run all of whose calls are enabled and wrap no count. */
  ghost predicate SafeRun(vm: Vm, calls: seq<Call>)
    requires Shape(vm)
    decreases |calls|
  {
    calls == [] || (Enabled(vm, calls[0]) && Safe(vm, calls[0]) && SafeRun(Apply(vm, calls[0]), calls[1..]))
  }

  ghost function Run(vm: Vm, calls: seq<Call>): (v: Vm)
    requires Shape(vm) && SafeRun(vm, calls)
    ensures Shape(v)
    decreases |calls|
  {
    if calls == [] then vm else Run(Apply(vm, calls[0]), calls[1..])
  }

  /** How many sys_page_alloc calls of a run were made with a bad environment while a page was free. */
  ghost function Leaks(vm: Vm, calls: seq<Call>): nat
    requires Shape(vm) && SafeRun(vm, calls)
    decreases |calls|
  {
    if calls == [] then 0 else |Stranded(vm, calls[0])| + Leaks(Apply(vm, calls[0]), calls[1..])
  }

  /**
   * Over every run: counts stay exact, the free list stays duplicate-free, and the pages lost are exactly
   * one per bad-environment sys_page_alloc.
   */
  lemma {:induction false} RunKeepsValid(vm: Vm, calls: seq<Call>)
    requires Valid(vm) && SafeRun(vm, calls)
    ensures Valid(Run(vm, calls))
    ensures |Limbo(Run(vm, calls))| == |Limbo(vm)| + Leaks(vm, calls)
    decreases |calls|
  {
    if calls != [] {
      ApplyKeepsValid(vm, calls[0]);
      assert |Limbo(vm) + Stranded(vm, calls[0])| == |Limbo(vm)| + |Stranded(vm, calls[0])|;
      RunKeepsValid(Apply(vm, calls[0]), calls[1..]);
    }
  }
}
