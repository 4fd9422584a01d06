/**
 * Physical pages, two-level page tables and address spaces as values.
 *
 * Every physical page carries a reference count, a row of 1024 entries (what the page holds when it
 * is read as a directory or a page table) and its bytes. A directory row is only modelled below UTOP.
 */
module Vm {
  import opened Counting

  newtype Byte = b: int | 0 <= b < 256
  type EnvId = nat

  /** PTE_W, PTE_COW and PTE_SHARE; PTE_P and PTE_U are set in every present entry. */
  datatype Perm = Perm(w: bool, cow: bool, share: bool)

  datatype Pte = Zero | Entry(page: nat, perm: Perm)

  datatype Option<T> = None | Some(value: T)

  /** NPTENTRIES, PDX(UTOP), the number NPDE * NPTE of user pages, and PGSIZE. */
  const NPTE: nat := 1024
  const NPDE: nat := 955
  const USERPAGES: nat := 977920
  const PGSIZE: nat := 4096
  /** pp_ref is a uint16_t. */
  const REFLIM: nat := 65536

  /**
   * ref, free: pp_ref and the free list, front first. tab, mem: page contents as entries and as bytes.
   * dir: the directory page of each live environment. boot: pages page_init keeps from the allocator.
   */
  datatype Vm = Vm(ref: seq<nat>, free: seq<nat>, tab: seq<seq<Pte>>, mem: seq<seq<Byte>>,
                   dir: map<EnvId, nat>, boot: set<nat>)

  /** PDX and PTX of the address of user page `pn`. */
  function Pdx(pn: nat): (i: nat)
    ensures pn < USERPAGES <==> i < NPDE
  {
    pn / 1024
  }

  function Ptx(pn: nat): (j: nat)
    ensures j < NPTE && pn == Pdx(pn) * 1024 + j
  {
    pn % 1024
  }

  /** A count after pp_ref++ and --pp_ref in 16 bits. */
  function Inc16(r: nat): nat {
    if r + 1 == REFLIM then 0 else r + 1
  }

  function Dec16(r: nat): nat {
    if r == 0 then REFLIM - 1 else r - 1
  }

  function ZeroRow(): (r: seq<Pte>)
    ensures |r| == NPTE && forall i :: 0 <= i < NPTE ==> r[i] == Zero
  {
    seq(NPTE, i => Zero)
  }

  function ZeroPage(): (r: seq<Byte>)
    ensures |r| == PGSIZE && forall i :: 0 <= i < PGSIZE ==> r[i] == 0
  {
    seq(PGSIZE, i => 0)
  }

  /** Table and directory entries name existing pages. */
  predicate Shape(vm: Vm) {
    && |vm.tab| == |vm.ref| && |vm.mem| == |vm.ref|
    && (forall p :: 0 <= p < |vm.ref| ==> vm.ref[p] < REFLIM)
    && (forall p :: 0 <= p < |vm.tab| ==> |vm.tab[p]| == NPTE)
    && (forall p :: 0 <= p < |vm.mem| ==> |vm.mem[p]| == PGSIZE)
    && (forall p, i ::
      0 <= p < |vm.tab| && 0 <= i < |vm.tab[p]| && vm.tab[p][i].Entry? ==> vm.tab[p][i].page < |vm.ref|)
    && (forall e :: e in vm.dir ==> vm.dir[e] < |vm.ref|)
    && (forall p :: p in vm.free ==> p < |vm.ref|)
    && (forall p :: p in vm.boot ==> p < |vm.ref|)
  }

  // ---- what the tables say ----

  /** The directory entry covering user page `pn`. */
  function Pde(vm: Vm, e: EnvId, i: nat): Pte
    requires Shape(vm)
  {
    if e in vm.dir && i < NPDE then vm.tab[vm.dir[e]][i] else Zero
  }

  /** The hardware's two-level translation of user page number `pn`. */
  function Xlate(vm: Vm, e: EnvId, pn: nat): Pte
    requires Shape(vm)
  {
    var pde := Pde(vm, e, Pdx(pn));
    if pde.Entry? then vm.tab[pde.page][Ptx(pn)] else Zero
  }

  /** The places that hold a counted reference to a page. */
  datatype Slot = DirSlot(e: EnvId) | PdeSlot(e: EnvId, i: nat) | PteSlot(e: EnvId, pn: nat)

  function At(vm: Vm, s: Slot): Option<nat>
    requires Shape(vm)
  {
    match s
    case DirSlot(e) => if e in vm.dir then Some(vm.dir[e]) else None
    case PdeSlot(e, i) => (var x := Pde(vm, e, i); if x.Entry? then Some(x.page) else None)
    case PteSlot(e, pn) => (var x := Xlate(vm, e, pn); if x.Entry? then Some(x.page) else None)
  }

  ghost function Universe(envs: set<EnvId>): set<Slot> {
    (set e | e in envs :: DirSlot(e))
    + (set e, i: nat | e in envs && i < NPDE :: PdeSlot(e, i))
    + (set e, pn: nat | e in envs && pn < USERPAGES :: PteSlot(e, pn))
  }

  /** Every counted reference in the system. */
  ghost function Slots(vm: Vm): map<Slot, nat>
    requires Shape(vm)
  {
    map s | s in Universe(vm.dir.Keys) && At(vm, s).Some? :: At(vm, s).value
  }

  /** Pages that are neither referenced nor free nor reserved: handed out and not (or no longer) mapped. */
  ghost function Limbo(vm: Vm): set<nat> {
    set p | 0 <= p < |vm.ref| && p !in vm.boot && vm.ref[p] == 0 && p !in vm.free
  }

  ghost predicate Distinct(s: seq<nat>) {
    forall i, j :: 0 <= i < j < |s| ==> s[i] != s[j]
  }

  /** A directory or page-table page is named by one slot only. */
  ghost predicate Exclusive(vm: Vm)
    requires Shape(vm)
  {
    forall s, t :: At(vm, s).Some? && At(vm, s) == At(vm, t) && !s.PteSlot? ==> s == t
  }

  ghost predicate Counted(vm: Vm)
    requires Shape(vm)
  {
    CountsMatch(vm.ref, Slots(vm), vm.boot)
  }

  /** The system invariant: counts are exact and the free list holds each unreferenced page at most once. */
  ghost predicate Valid(vm: Vm) {
    && Shape(vm)
    && Exclusive(vm)
    && Counted(vm)
    && Distinct(vm.free)
    && (forall p :: p in vm.free ==> vm.ref[p] == 0 && p !in vm.boot)
    && (forall s :: At(vm, s).Some? ==> At(vm, s).value !in vm.boot)
  }

  // ---- pmap.c ----

  /** page_alloc(ALLOC_ZERO). */
  function PageAlloc(vm: Vm): (r: (Vm, Option<nat>))
    requires Shape(vm)
    ensures Shape(r.0) && |r.0.ref| == |vm.ref| && r.0.dir == vm.dir && (r.1.Some? ==> r.1.value < |vm.ref|)
  {
    if vm.free == [] then (vm, None)
    else
      var p := vm.free[0];
      assert p in vm.free;
      assert forall q :: q in vm.free[1..] ==> q in vm.free;
      (vm.(free := vm.free[1..], tab := vm.tab[p := ZeroRow()], mem := vm.mem[p := ZeroPage()]), Some(p))
  }

  function PageFree(vm: Vm, p: nat): (v: Vm)
    requires Shape(vm) && p < |vm.ref|
    ensures Shape(v) && |v.ref| == |vm.ref| && v.dir == vm.dir
  {
    vm.(free := [p] + vm.free)
  }

  function Incref(vm: Vm, p: nat): (v: Vm)
    requires Shape(vm) && p < |vm.ref|
    ensures Shape(v) && |v.ref| == |vm.ref| && v.dir == vm.dir
  {
    vm.(ref := vm.ref[p := Inc16(vm.ref[p])])
  }

  function PageDecref(vm: Vm, p: nat): (v: Vm)
    requires Shape(vm) && p < |vm.ref|
    ensures Shape(v) && |v.ref| == |vm.ref| && v.dir == vm.dir
  {
    var r := Dec16(vm.ref[p]);
    var v := vm.(ref := vm.ref[p := r]);
    if r == 0 then PageFree(v, p) else v
  }

  function SetEntry(vm: Vm, t: nat, i: nat, x: Pte): (v: Vm)
    requires Shape(vm) && t < |vm.ref| && i < NPTE && (x.Entry? ==> x.page < |vm.ref|)
    ensures Shape(v) && |v.ref| == |vm.ref| && v.dir == vm.dir
  {
    vm.(tab := vm.tab[t := vm.tab[t][i := x]])
  }

  const PDEPERM := Perm(true, false, false)

  /** pgdir_walk with create set: the page table for `pn`, allocated if it is missing. */
  function PgdirWalk(vm: Vm, e: EnvId, pn: nat): (r: (Vm, Option<nat>))
    requires Shape(vm) && e in vm.dir && pn < USERPAGES
    ensures Shape(r.0) && |r.0.ref| == |vm.ref| && r.0.dir == vm.dir && (r.1.Some? ==> r.1.value < |vm.ref|)
    ensures r.1.Some? ==> Pde(r.0, e, Pdx(pn)).Entry? && Pde(r.0, e, Pdx(pn)).page == r.1.value
  {
    var pde := Pde(vm, e, Pdx(pn));
    if pde.Entry? then (vm, Some(pde.page))
    else
      var (v, t) := PageAlloc(vm);
      if t.None? then (v, None)
      else (SetEntry(Incref(v, t.value), vm.dir[e], Pdx(pn), Entry(t.value, PDEPERM)), t)
  }

  function PageRemove(vm: Vm, e: EnvId, pn: nat): (v: Vm)
    requires Shape(vm) && e in vm.dir && pn < USERPAGES
    ensures Shape(v) && |v.ref| == |vm.ref| && v.dir == vm.dir
  {
    var x := Xlate(vm, e, pn);
    if x.Zero? then vm
    else SetEntry(PageDecref(vm, x.page), Pde(vm, e, Pdx(pn)).page, Ptx(pn), Zero)
  }

  /** page_insert once the page table exists: keep, replace or add a mapping. */
  function PutPte(vm: Vm, e: EnvId, p: nat, pn: nat, perm: Perm): (v: Vm)
    requires Shape(vm) && e in vm.dir && pn < USERPAGES && p < |vm.ref| && Pde(vm, e, Pdx(pn)).Entry?
    ensures Shape(v) && |v.ref| == |vm.ref| && v.dir == vm.dir
  {
    var t := Pde(vm, e, Pdx(pn)).page;
    var x := Xlate(vm, e, pn);
    if x.Zero? then Incref(SetEntry(vm, t, Ptx(pn), Entry(p, perm)), p)
    else if x.page == p then SetEntry(vm, t, Ptx(pn), Entry(p, perm))
    else SetEntry(Incref(PageRemove(vm, e, pn), p), t, Ptx(pn), Entry(p, perm))
  }

  function PageInsert(vm: Vm, e: EnvId, p: nat, pn: nat, perm: Perm): (r: (Vm, bool))
    requires Shape(vm) && e in vm.dir && pn < USERPAGES && p < |vm.ref|
    ensures Shape(r.0) && |r.0.ref| == |vm.ref| && r.0.dir == vm.dir
  {
    var (v, t) := PgdirWalk(vm, e, pn);
    if t.None? then (v, false) else (PutPte(v, e, p, pn, perm), true)
  }

  // ---- env.c ----

  /** env_setup_vm: an address space with an empty user part. */
  function EnvSetupVm(vm: Vm, e: EnvId): (r: (Vm, bool))
    requires Shape(vm)
    ensures Shape(r.0) && |r.0.ref| == |vm.ref|
  {
    var (v, p) := PageAlloc(vm);
    if p.None? then (v, false) else (Incref(v, p.value).(dir := v.dir[e := p.value]), true)
  }

  function PageNum(i: nat, j: nat): (pn: nat)
    requires i < NPDE && j < NPTE
    ensures pn < USERPAGES && Pdx(pn) == i && Ptx(pn) == j
  {
    i * 1024 + j
  }

  /** The inner loop of env_free from entry `j` on: every mapped page of page table `i` is removed. */
  function FreeEntries(vm: Vm, e: EnvId, i: nat, j: nat): (v: Vm)
    requires Shape(vm) && e in vm.dir && i < NPDE && j <= NPTE
    ensures Shape(v) && |v.ref| == |vm.ref| && v.dir == vm.dir
    decreases NPTE - j, |vm.ref|
  {
    if j == NPTE then vm else FreeEntries(PageRemove(vm, e, PageNum(i, j)), e, i, j + 1)
  }

  /** A round of the outer loop: page table `i`, if there is one, with all it maps. */
  function FreePde(vm: Vm, e: EnvId, i: nat): (v: Vm)
    requires Shape(vm) && e in vm.dir && i < NPDE
    ensures Shape(v) && |v.ref| == |vm.ref| && v.dir == vm.dir
  {
    var x := Pde(vm, e, i);
    if x.Zero? then vm else PageDecref(SetEntry(FreeEntries(vm, e, i, 0), vm.dir[e], i, Zero), x.page)
  }

  function FreePdes(vm: Vm, e: EnvId, i: nat): (v: Vm)
    requires Shape(vm) && e in vm.dir && i <= NPDE
    ensures Shape(v) && |v.ref| == |vm.ref| && v.dir == vm.dir
    decreases NPDE - i, |vm.ref|
  {
    if i == NPDE then vm else FreePdes(FreePde(vm, e, i), e, i + 1)
  }

  /** env_free: every page table with what it maps, then the directory. */
  function EnvFree(vm: Vm, e: EnvId): (v: Vm)
    requires Shape(vm) && e in vm.dir
    ensures Shape(v) && |v.ref| == |vm.ref| && v.dir == vm.dir - {e}
  {
    var w := FreePdes(vm, e, 0);
    PageDecref(w.(dir := w.dir - {e}), w.dir[e])
  }
}
