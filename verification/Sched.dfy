/** The big kernel lock, the scheduler, environment life cycle and IPC, as steps of several CPUs. */
module Sched {
  const NENV: nat := 1024
  const NONE: int := -1

  datatype Status = Free | Dying | Runnable | Running | NotRunnable

  datatype Env = Env(status: Status, id: int, parent: int, recving: bool, from: int, value: int)

  /** The system calls that touch environments; `page` says whether the page part of a send goes through. */
  datatype Call =
    | Yield
    | Destroy(envid: int)
    | Exofork(memory: bool)
    | SetStatus(envid: int, status: int)
    | TrySend(envid: int, value: int, page: bool)
    | Recv(aligned: bool)
    | Other

  /** Why user code enters the kernel. A fault ends in the user's handler or destroys the environment. */
  datatype Trap = Timer | Device | Fault(handled: bool) | Syscall(call: Call)

  /**
   * How a CPU came into the kernel: started up, woken by the timer or a device while halted, or by a trap in user
   * code.
   */
  datatype Entry = Boot | FromHalt(timer: bool) | FromUser(trap: Trap)

  /**
   * Where a CPU is. On its way in, trap() first tests whether the CPU was halted and takes the lock if so, then tests
   * whether the trap came from user code and takes the lock if so. `Leaving` is the stretch after unlock_kernel.
   */
  datatype Pc =
    | User
    | Halted
    | TestHalted(entry: Entry)
    | WantHalted(entry: Entry)
    | TestUser(entry: Entry)
    | WantUser(entry: Entry)
    | Kernel(entry: Entry)
    | Leaving(halt: bool)
    | Monitor

  /**
   * `cur` is curenv, `halted` is cpu_status; the counters record kernel entries and exits and what became of the
   * lock.
   */
  datatype Cpu = Cpu(pc: Pc, cur: int, halted: bool, entries: nat, taken: nat, released: nat, exits: nat)

  /** What happened to an environment's mailbox. */
  datatype Event = Made(e: nat) | Waits(e: nat) | Got(e: nat, from: int, value: int)

  /** `lock` is the holder of the kernel lock; `panicked` records a misuse of it or a failed assertion. */
  datatype Sys = Sys(envs: seq<Env>, cpus: seq<Cpu>, lock: int, freeList: seq<nat>, panicked: bool, log: seq<Event>)

  predicate Shape(s: Sys) {
    && |s.envs| == NENV && (forall c :: 0 <= c < |s.cpus| ==> -1 <= s.cpus[c].cur < NENV)
    && (forall i :: 0 <= i < |s.freeList| ==> s.freeList[i] < NENV)
    && (forall e :: 0 <= e < NENV ==> -0x8000_0000 <= s.envs[e].id < 0x8000_0000)
  }

  // ---- env.c, spinlock.c ----

  function WithStatus(s: Sys, e: nat, st: Status): (r: Sys)
    requires Shape(s) && e < NENV
    ensures Shape(r)
  {
    s.(envs := s.envs[e := s.envs[e].(status := st)])
  }

  function WithCur(s: Sys, c: nat, e: int): (r: Sys)
    requires Shape(s) && c < |s.cpus| && -1 <= e < NENV
    ensures Shape(r)
  {
    s.(cpus := s.cpus[c := s.cpus[c].(cur := e)])
  }

  function WithPc(s: Sys, c: nat, pc: Pc): (r: Sys)
    requires Shape(s) && c < |s.cpus|
    ensures Shape(r)
  {
    s.(cpus := s.cpus[c := s.cpus[c].(pc := pc)])
  }

  /** unlock_kernel on the way out; it panics if another CPU, or none, holds the lock. */
  function Leave(s: Sys, c: nat, halt: bool): (r: Sys)
    requires Shape(s) && c < |s.cpus|
    ensures Shape(r)
  {
    var cpu := s.cpus[c];
    if s.lock != c then s.(panicked := true)
    else s.(lock := NONE, cpus := s.cpus[c := cpu.(pc := Leaving(halt), released := cpu.released + 1)])
  }

  /** One turn of lock_kernel: spins while another CPU holds the lock, panics if this one does. */
  function Acquire(s: Sys, c: nat): (r: Sys)
    requires Shape(s) && c < |s.cpus| && (s.cpus[c].pc.WantHalted? || s.cpus[c].pc.WantUser?)
    ensures Shape(r)
  {
    var cpu := s.cpus[c];
    var next := if cpu.pc.WantHalted? then TestUser(cpu.pc.entry) else Kernel(cpu.pc.entry);
    if s.lock == c then s.(panicked := true)
    else if s.lock != NONE then s
    else s.(lock := c, cpus := s.cpus[c := cpu.(pc := next, taken := cpu.taken + 1)])
  }

  function EnvRun(s: Sys, c: nat, e: nat): (r: Sys)
    requires Shape(s) && c < |s.cpus| && e < NENV
    ensures Shape(r)
  {
    var cur := s.cpus[c].cur;
    var s1 := if cur != NONE && s.envs[cur].status == Running then WithStatus(s, cur, Runnable) else s;
    Leave(WithStatus(WithCur(s1, c, e), e, Running), c, false)
  }

  function EnvFree(s: Sys, e: nat): (r: Sys)
    requires Shape(s) && e < NENV
    ensures Shape(r)
  {
    WithStatus(s, e, Free).(freeList := [e] + s.freeList)
  }

  // ---- sched.c ----

  /** The `i`th slot from `start`, in circular order. */
  function Slot(start: nat, i: nat): (e: nat)
    ensures e < NENV
  {
    (start + i) % 1024
  }

  /** The offset of the first runnable environment from `start`, beginning at `i`, in circular order; NENV if none. */
  function Scan(envs: seq<Env>, start: nat, i: nat): (k: nat)
    requires |envs| == NENV && i <= NENV
    ensures i <= k <= NENV && (k < NENV ==> envs[Slot(start, k)].status == Runnable)
    ensures forall j :: i <= j < k ==> envs[Slot(start, j)].status != Runnable
    decreases NENV - i, |envs|
  {
    if i == NENV then NENV else if envs[Slot(start, i)].status == Runnable then i else Scan(envs, start, i + 1)
  }

  function Start(s: Sys, c: nat): nat
    requires Shape(s) && c < |s.cpus|
  {
    if s.cpus[c].cur == NONE then 0 else (s.envs[s.cpus[c].cur].id % 1024 + 1) % 1024
  }

  function SchedHalt(s: Sys, c: nat): (r: Sys)
    requires Shape(s) && c < |s.cpus|
    ensures Shape(r)
  {
    if forall e ::
      0 <= e < NENV ==> s.envs[e].status != Runnable && s.envs[e].status != Running && s.envs[e].status != Dying
    then WithPc(s, c, Monitor)
    else Leave(s.(cpus := s.cpus[c := s.cpus[c].(cur := NONE, halted := true)]), c, true)
  }

  function SchedYield(s: Sys, c: nat): (r: Sys)
    requires Shape(s) && c < |s.cpus|
    ensures Shape(r)
  {
    var k := Scan(s.envs, Start(s, c), 0);
    var cur := s.cpus[c].cur;
    if k < NENV then EnvRun(s, c, Slot(Start(s, c), k))
    else if cur != NONE && s.envs[cur].status == Running then EnvRun(s, c, cur)
    else SchedHalt(s, c)
  }

  // ---- system calls ----

  /** envid2env. */
  function Lookup(s: Sys, c: nat, envid: int, check: bool): (e: int)
    requires Shape(s) && c < |s.cpus| && s.cpus[c].cur != NONE
    ensures -1 <= e < NENV
  {
    var cur := s.cpus[c].cur;
    var e := envid % 1024;
    if envid == 0 then cur
    else if s.envs[e].status == Free || s.envs[e].id != envid then NONE
    else if check && e != cur && s.envs[e].parent != s.envs[cur].id then NONE
    else e
  }

  /** env_destroy of another environment. */
  function DestroyOther(s: Sys, e: nat): (r: Sys)
    requires Shape(s) && e < NENV
    ensures Shape(r)
  {
    if s.envs[e].status == Running then WithStatus(s, e, Dying) else EnvFree(s, e)
  }

  /** env_destroy of the current environment, which does not return. */
  function DestroySelf(s: Sys, c: nat): (r: Sys)
    requires Shape(s) && c < |s.cpus| && s.cpus[c].cur != NONE
    ensures Shape(r)
  {
    SchedYield(WithCur(EnvFree(s, s.cpus[c].cur), c, NONE), c)
  }

  /** The next id of slot `e`: a new generation, never negative. */
  function NextId(id: int, e: nat): (r: int)
    requires -0x8000_0000 <= id < 0x8000_0000 && e < NENV
    ensures 0 < r < 0x8000_0000 && r % 1024 == e
  {
    var g := (id + 4096) / 1024 * 1024;
    (if g <= 0 || g >= 0x8000_0000 then 4096 else g) + e
  }

  function DoExofork(s: Sys, c: nat, memory: bool): (r: Sys)
    requires Shape(s) && c < |s.cpus| && s.cpus[c].cur != NONE
    ensures Shape(r)
  {
    if s.freeList == [] || !memory then s
    else
      var e := s.freeList[0];
      var child := s.envs[e].(status := NotRunnable, id := NextId(s.envs[e].id, e),
        parent := s.envs[s.cpus[c].cur].id, recving := false);
      s.(envs := s.envs[e := child], freeList := s.freeList[1..], log := s.log + [Made(e)])
  }

  function StatusOf(n: int): Status
    requires 0 <= n <= 4
  {
    match n case 0 => Free case 1 => Dying case 2 => Runnable case 3 => Running case _ => NotRunnable
  }

  function DoSetStatus(s: Sys, c: nat, envid: int, status: int): (r: Sys)
    requires Shape(s) && c < |s.cpus| && s.cpus[c].cur != NONE
    ensures Shape(r)
  {
    var e := Lookup(s, c, envid, true);
    if e == NONE || status < 0 || status > 4 then s else WithStatus(s, e, StatusOf(status))
  }

  predicate CanSend(s: Sys, e: int, page: bool)
    requires Shape(s) && -1 <= e < NENV
  {
    e != NONE && s.envs[e].recving && s.envs[e].from == 0 && page
  }

  function DoTrySend(s: Sys, c: nat, envid: int, value: int, page: bool): (r: Sys)
    requires Shape(s) && c < |s.cpus| && s.cpus[c].cur != NONE
    ensures Shape(r)
  {
    var e := Lookup(s, c, envid, false);
    var me := s.envs[s.cpus[c].cur].id;
    if !CanSend(s, e, page) then s
    else s.(envs := s.envs[e := s.envs[e].(recving := false, from := me, value := value, status := Runnable)],
            log := s.log + [Got(e, me, value)])
  }

  function DoRecv(s: Sys, c: nat): (r: Sys)
    requires Shape(s) && c < |s.cpus| && s.cpus[c].cur != NONE
    ensures Shape(r)
  {
    var e := s.cpus[c].cur;
    s.(envs := s.envs[e := s.envs[e].(recving := true, status := NotRunnable, from := 0)], log := s.log + [Waits(e)])
  }

  // ---- trap.c ----

  /** The end of trap(): back to the current environment if it still runs. */
  function Return(s: Sys, c: nat): (r: Sys)
    requires Shape(s) && c < |s.cpus|
    ensures Shape(r)
  {
    var cur := s.cpus[c].cur;
    if cur != NONE && s.envs[cur].status == Running then EnvRun(s, c, cur) else SchedYield(s, c)
  }

  function DoCall(s: Sys, c: nat, call: Call): (r: Sys)
    requires Shape(s) && c < |s.cpus| && s.cpus[c].cur != NONE
    ensures Shape(r)
  {
    match call
    case Yield => SchedYield(s, c)
    case Destroy(envid) =>
      var e := Lookup(s, c, envid, true);
      if e == NONE then Return(s, c) else if e == s.cpus[c].cur then DestroySelf(s, c)
        else Return(DestroyOther(s, e), c)
    case Exofork(memory) => Return(DoExofork(s, c, memory), c)
    case SetStatus(envid, status) => Return(DoSetStatus(s, c, envid, status), c)
    case TrySend(envid, value, page) => Return(DoTrySend(s, c, envid, value, page), c)
    case Recv(aligned) => if aligned then SchedYield(DoRecv(s, c), c) else Return(s, c)
    case Other => Return(s, c)
  }

  function Dispatch(s: Sys, c: nat, trap: Trap): (r: Sys)
    requires Shape(s) && c < |s.cpus| && s.cpus[c].cur != NONE
    ensures Shape(r)
  {
    match trap
    case Timer => SchedYield(s, c)
    case Device => Return(s, c)
    case Fault(handled) => if handled then EnvRun(s, c, s.cpus[c].cur) else DestroySelf(s, c)
    case Syscall(call) => DoCall(s, c, call)
  }

  /** What trap(), or the start-up code, does between taking the lock and giving it up. */
  function Work(s: Sys, c: nat): (r: Sys)
    requires Shape(s) && c < |s.cpus| && s.cpus[c].pc.Kernel? &&
      (s.cpus[c].pc.entry.FromUser? ==> s.cpus[c].cur != NONE)
    ensures Shape(r)
  {
    match s.cpus[c].pc.entry
    case Boot => SchedYield(s, c)
    case FromHalt(timer) => if timer then SchedYield(s, c) else Return(s, c)
    case FromUser(trap) =>
      var cur := s.cpus[c].cur;
      if s.envs[cur].status == Dying then SchedYield(WithCur(EnvFree(s, cur), c, NONE), c) else Dispatch(s, c, trap)
  }

  // ---- steps ----

  /**
   * A trap in user code, an interrupt while halted, one of the two tests of trap(), a turn of lock_kernel, the work up
   * to unlock_kernel, and the switch back to user mode or into the halt loop.
   */
  datatype Action = Enter(c: nat, trap: Trap) | Wake(c: nat,
    timer: bool) | Test(c: nat) | Lock(c: nat) | Run(c: nat) | Out(c: nat)

  predicate CanStep(s: Sys, a: Action) {
    && Shape(s) && a.c < |s.cpus|
    && match a
       case Enter(c, _) => s.cpus[c].pc.User?
       case Wake(c, _) => s.cpus[c].pc.Halted?
       case Test(c) => s.cpus[c].pc.TestHalted? || s.cpus[c].pc.TestUser?
       case Lock(c) => s.cpus[c].pc.WantHalted? || s.cpus[c].pc.WantUser?
       case Run(c) => s.cpus[c].pc.Kernel? && (s.cpus[c].pc.entry.FromUser? ==> s.cpus[c].cur != NONE)
       case Out(c) => s.cpus[c].pc.Leaving?
  }

  function EnterKernel(s: Sys, c: nat, entry: Entry): (r: Sys)
    requires Shape(s) && c < |s.cpus|
    ensures Shape(r)
  {
    s.(cpus := s.cpus[c := s.cpus[c].(pc := TestHalted(entry), entries := s.cpus[c].entries + 1)])
  }

  /** The two tests: cpu_status, which is set back, and the privilege level of the trap frame. */
  function TestStep(s: Sys, c: nat): (r: Sys)
    requires Shape(s) && c < |s.cpus| && (s.cpus[c].pc.TestHalted? || s.cpus[c].pc.TestUser?)
    ensures Shape(r)
  {
    var cpu := s.cpus[c];
    var entry := cpu.pc.entry;
    if cpu.pc.TestHalted? then
      s.(cpus := s.cpus[c := cpu.(pc := if cpu.halted then WantHalted(entry) else TestUser(entry), halted := false)])
    else if !entry.FromUser? then WithPc(s, c, Kernel(entry))
    else if cpu.cur == NONE then s.(panicked := true)
    else WithPc(s, c, WantUser(entry))
  }

  /** The mode switch of env_pop_tf, or the halt loop with interrupts on. */
  function OutStep(s: Sys, c: nat): (r: Sys)
    requires Shape(s) && c < |s.cpus| && s.cpus[c].pc.Leaving?
    ensures Shape(r)
  {
    var cpu := s.cpus[c];
    s.(cpus := s.cpus[c := cpu.(pc := if cpu.pc.halt then Halted else User, exits := cpu.exits + 1)])
  }

  function Step(s: Sys, a: Action): (r: Sys)
    requires CanStep(s, a)
    ensures Shape(r)
  {
    match a
    case Enter(c, trap) => EnterKernel(s, c, FromUser(trap))
    case Wake(c, timer) => EnterKernel(s, c, FromHalt(timer))
    case Test(c) => TestStep(s, c)
    case Lock(c) => Acquire(s, c)
    case Run(c) => Work(s, c)
    case Out(c) => OutStep(s, c)
  }
}
