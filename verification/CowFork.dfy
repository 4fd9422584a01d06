/**
 * Copy-on-write fork as a step system: any number of environments store to memory, fault, fork, allocate,
 * unmap and exit, one system call or one store at a time. Next to it, the machine fork pretends to be:
 * one that copies each page when it is handed to the child.
 */
module CowFork {
  import opened Vm
  import opened EnvFacts
  import opened Syscalls

  /** Page numbers of PFTEMP, UTEXT, USTACKTOP and the exception stack, and NENV. */
  const PFTEMP: nat := 2047
  const UTEXT: nat := 2048
  const USTACKTOP: nat := 977918
  const UXSTACK: nat := 977919
  const NENV: nat := 1024

  const RW := Perm(true, false, false)
  const COW := Perm(false, true, false)
  const RO := Perm(false, false, false)

  predicate Region(pn: nat) {
    UTEXT <= pn < USTACKTOP
  }

  /**
   * Where fork() stands. Next: the loop is about to look at page `pn`. Mark: the child has been given the
   * page and the parent's own mapping is still to be re-marked; `wasW` remembers whether it was writable.
   */
  datatype Fork = NoFork | Next(child: EnvId, pn: nat) | Mark(child: EnvId, pn: nat, wasW: bool)

  /** Where pgfault() stands: the system call, or the copy, it is about to make. */
  datatype Fault = NoFault | FAlloc(pn: nat) | FCopy(pn: nat) | FMap(pn: nat) | FUnmap(pn: nat)

  /** running is false while a child is under construction and after a panic. */
  datatype Proc = Proc(running: bool, fork: Fork, fault: Fault)

  const DEAD := Proc(false, NoFork, NoFault)

  datatype Sys = Sys(vm: Vm, procs: map<EnvId, Proc>)

  predicate WF(s: Sys) {
    Shape(s.vm) && s.procs.Keys == s.vm.dir.Keys
  }

  /** `c` is being built by the fork of `p`. */
  predicate Parent(s: Sys, p: EnvId, c: EnvId) {
    p in s.procs && !s.procs[p].fork.NoFork? && s.procs[p].fork.child == c
  }

  datatype Action =
    | Write(e: EnvId, pn: nat, off: nat, b: Byte)
    | Handle(e: EnvId)
    | ForkStart(e: EnvId, child: EnvId)
    | ForkStep(e: EnvId)
    | Alloc(e: EnvId, pn: nat, w: bool, share: bool)
    | Unmap(e: EnvId, pn: nat)
    | Exit(e: EnvId)

  /** What an action amounts to for the environments' memory. */
  datatype Event =
    | Silent
    | Wrote(e: EnvId, pn: nat, off: nat, b: Byte)
    | Copied(e: EnvId, child: EnvId, pn: nat)
    | Allocated(e: EnvId, pn: nat, w: bool, share: bool, id: nat)
    | Unmapped(e: EnvId, pn: nat)
    | Exited(e: EnvId)

  function SetProc(s: Sys, e: EnvId, p: Proc): Sys {
    s.(procs := s.procs[e := p])
  }

  /** A store: done if the page is writable, a fault if it is copy-on-write, otherwise a panic. */
  function WriteStep(s: Sys, e: EnvId, pn: nat, off: nat, b: Byte): (r: (Sys, Event))
    requires WF(s) && e in s.procs && off < PGSIZE
    ensures WF(r.0)
  {
    var x := Xlate(s.vm, e, pn);
    if x.Entry? && x.perm.w then (s.(vm := StoreByte(s.vm, e, pn, off, b)), Wrote(e, pn, off, b))
    else if x.Entry? && x.perm.cow then (SetProc(s, e, s.procs[e].(fault := FAlloc(pn))), Silent)
    else (SetProc(s, e, DEAD), Silent)
  }

  function CopyPage(vm: Vm, dst: nat, src: nat): (v: Vm)
    requires Shape(vm) && dst < |vm.ref| && src < |vm.ref|
    ensures Shape(v)
  {
    vm.(mem := vm.mem[dst := vm.mem[src]])
  }

  /** pgfault, one call at a time; any failure panics. */
  function HandleStep(s: Sys, e: EnvId): (r: Sys)
    requires WF(s) && e in s.procs
    ensures WF(r)
  {
    var p := s.procs[e];
    match p.fault
    case NoFault => s
    case FAlloc(q) =>
      var (v, c) := SysPageAlloc(s.vm, Some(e), PFTEMP, RW);
      Sys(v, s.procs[e := if c == Ok then p.(fault := FCopy(q)) else DEAD])
    case FCopy(q) =>
      var (x, y) := (Xlate(s.vm, e, PFTEMP), Xlate(s.vm, e, q));
      if x.Entry? && y.Entry? then Sys(CopyPage(s.vm, x.page, y.page), s.procs[e := p.(fault := FMap(q))])
      else SetProc(s, e, DEAD)
    case FMap(q) =>
      var (v, c) := SysPageMap(s.vm, Some(e), PFTEMP, Some(e), q, RW);
      Sys(v, s.procs[e := if c == Ok then p.(fault := FUnmap(q)) else DEAD])
    case FUnmap(q) =>
      Sys(SysPageUnmap(s.vm, Some(e), PFTEMP).0, s.procs[e := p.(fault := NoFault)])
  }

  /** sys_exofork: an empty address space that does not run yet. */
  function ForkStartStep(s: Sys, e: EnvId, c: EnvId): (r: Sys)
    requires WF(s) && e in s.procs && c !in s.procs
    ensures WF(r)
  {
    var (v, ok) := EnvSetupVm(s.vm, c);
    if ok then Sys(v, s.procs[c := DEAD][e := s.procs[e].(fork := Next(c, UTEXT))]) else s
  }

  /** The permissions duppage gives the child. */
  function ChildPerm(perm: Perm): Perm {
    if perm.share then perm else if perm.w || perm.cow then COW else RO
  }

  /** One system call of fork()'s loop, or its last two. A failed call abandons the child. */
  function ForkLoopStep(s: Sys, e: EnvId): (r: (Sys, Event))
    requires WF(s) && e in s.procs && (!s.procs[e].fork.NoFork? ==> s.procs[e].fork.child in s.procs)
    ensures WF(r.0)
  {
    var p := s.procs[e];
    match p.fork
    case NoFork => (s, Silent)
    case Next(c, k) =>
      if k >= USTACKTOP then
        var (v, code) := SysPageAlloc(s.vm, Some(c), UXSTACK, RW);
        (Sys(v, s.procs[e := p.(fork := NoFork)][c := s.procs[c].(running := code == Ok)]), Silent)
      else
        var x := Xlate(s.vm, e, k);
        if x.Zero? then (SetProc(s, e, p.(fork := Next(c, k + 1))), Silent)
        else
          var (v, code) := SysPageMap(s.vm, Some(e), k, Some(c), k, ChildPerm(x.perm));
          if code != Ok then (Sys(v, s.procs[e := p.(fork := NoFork)]), Silent)
          else if ChildPerm(x.perm) == COW then
            (Sys(v, s.procs[e := p.(fork := Mark(c, k, x.perm.w))]), if x.perm.w then Silent else Copied(e, c, k))
          else (Sys(v, s.procs[e := p.(fork := Next(c, k + 1))]), Copied(e, c, k))
    case Mark(c, k, wasW) =>
      var (v, code) := SysPageMap(s.vm, Some(e), k, Some(e), k, COW);
      if code != Ok then (Sys(v, s.procs[e := p.(fork := NoFork)]), Silent)
      else (Sys(v, s.procs[e := p.(fork := Next(c, k + 1))]), if wasW then Copied(e, c, k) else Silent)
  }

  /** An environment runs its own code: not under construction, not panicked, not inside pgfault. */
  predicate Runs(s: Sys, e: EnvId) {
    e in s.procs && s.procs[e].running && s.procs[e].fault.NoFault?
  }

  ghost predicate CanStep(s: Sys, a: Action) {
    match a
    case Write(e, pn, off, _) => Runs(s, e) && Region(pn) && off < PGSIZE
    case Handle(e) => e in s.procs && s.procs[e].running && !s.procs[e].fault.NoFault?
    case ForkStart(e, c) => Runs(s, e) && s.procs[e].fork.NoFork? && c !in s.procs && |s.procs| < NENV
    case ForkStep(e) => Runs(s, e) && !s.procs[e].fork.NoFork? && s.procs[e].fork.child in s.procs
    case Alloc(e, pn, _, _) => Runs(s, e) && s.procs[e].fork.NoFork? && Region(pn)
    case Unmap(e, pn) => Runs(s, e) && s.procs[e].fork.NoFork? && Region(pn)
    case Exit(e) => e in s.procs && (forall p :: p in s.procs ==> !Parent(s, p, e))
  }

  ghost function Step(s: Sys, a: Action): (r: (Sys, Event))
    requires WF(s) && CanStep(s, a)
    ensures WF(r.0)
  {
    match a
    case Write(e, pn, off, b) => WriteStep(s, e, pn, off, b)
    case Handle(e) => (HandleStep(s, e), Silent)
    case ForkStart(e, c) => (ForkStartStep(s, e, c), Silent)
    case ForkStep(e) => ForkLoopStep(s, e)
    case Alloc(e, pn, w, share) =>
      var (v, c) := SysPageAlloc(s.vm, Some(e), pn, Perm(w, false, share));
      (s.(vm := v), if c == Ok && s.vm.free != [] then Allocated(e, pn, w, share, s.vm.free[0]) else Silent)
    case Unmap(e, pn) => (s.(vm := SysPageUnmap(s.vm, Some(e), pn).0), Unmapped(e, pn))
    case Exit(e) => (Sys(EnvFree(s.vm, e), s.procs - {e}), Exited(e))
  }

  // ---- the machine fork pretends to be ----

  /** A page of an address space: its own bytes, or a window on a shared page. */
  datatype Cell = Private(bytes: seq<Byte>, writable: bool) | Shared(id: nat, writable: bool)

  datatype Eager = Eager(cells: map<(EnvId, nat), Cell>, shm: map<nat, seq<Byte>>)

  function SetByte(page: seq<Byte>, off: nat, b: Byte): seq<Byte> {
    if off < |page| then page[off := b] else page
  }

  /** Writes hit the page at once, and handing a page to a child copies it at once. */
  function EagerStep(a: Eager, ev: Event): Eager {
    match ev
    case Silent => a
    case Wrote(e, pn, off, b) =>
      if (e, pn) !in a.cells || !a.cells[(e, pn)].writable then a
      else (match a.cells[(e, pn)]
            case Private(bytes, w) => a.(cells := a.cells[(e, pn) := Private(SetByte(bytes, off, b), w)])
            case Shared(id, _) => if id in a.shm then a.(shm := a.shm[id := SetByte(a.shm[id], off, b)]) else a)
    case Copied(e, c, pn) =>
      if (e, pn) in a.cells then a.(cells := a.cells[(c, pn) := a.cells[(e, pn)]]) else a
    case Allocated(e, pn, w, share, id) =>
      if share then Eager(a.cells[(e, pn) := Shared(id, w)], a.shm[id := ZeroPage()])
      else a.(cells := a.cells[(e, pn) := Private(ZeroPage(), w)])
    case Unmapped(e, pn) => a.(cells := a.cells - {(e, pn)})
    case Exited(e) => a.(cells := map k | k in a.cells && k.0 != e :: a.cells[k])
  }

  // ---- runs ----

  ghost predicate IsRun(s: Sys, acts: seq<Action>)
    requires WF(s)
    decreases |acts|
  {
    acts == [] || (CanStep(s, acts[0]) && IsRun(Step(s, acts[0]).0, acts[1..]))
  }

  ghost function Execute(s: Sys, acts: seq<Action>): (r: Sys)
    requires WF(s) && IsRun(s, acts)
    ensures WF(r)
    decreases |acts|
  {
    if acts == [] then s else Execute(Step(s, acts[0]).0, acts[1..])
  }

  ghost function EagerRun(a: Eager, s: Sys, acts: seq<Action>): Eager
    requires WF(s) && IsRun(s, acts)
    decreases |acts|
  {
    if acts == [] then a
    else EagerRun(EagerStep(a, Step(s, acts[0]).1), Step(s, acts[0]).0, acts[1..])
  }

  /** The bytes environment `e` sees at page `pn`. */
  function View(s: Sys, e: EnvId, pn: nat): Option<seq<Byte>>
    requires WF(s)
  {
    var x := Xlate(s.vm, e, pn);
    if x.Entry? then Some(s.vm.mem[x.page]) else None
  }

  function EagerView(a: Eager, e: EnvId, pn: nat): Option<seq<Byte>> {
    if (e, pn) !in a.cells then None
    else match a.cells[(e, pn)]
         case Private(bytes, _) => Some(bytes)
         case Shared(id, _) => if id in a.shm then Some(a.shm[id]) else None
  }
}
