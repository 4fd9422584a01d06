/** Whole runs of the multi-CPU kernel: safety, the count of the lock, exactly-once IPC. */
module SchedRuns {
  import opened Sched
  import opened SchedSafety

  // ---- runs ----

  ghost predicate IsRun(s: Sys, acts: seq<Action>)
    decreases |acts|
  {
    acts != [] ==> CanStep(s, acts[0]) && IsRun(Step(s, acts[0]), acts[1..])
  }

  ghost function Execute(s: Sys, acts: seq<Action>): Sys
    requires IsRun(s, acts)
    decreases |acts|
  {
    if acts == [] then s else Execute(Step(s, acts[0]), acts[1..])
  }

  /** No step of the run destroys a dying environment or misuses set_status. */
  ghost predicate SafeRun(s: Sys, acts: seq<Action>)
    requires IsRun(s, acts)
    decreases |acts|
  {
    acts != [] ==> Safe(s, acts[0]) && SafeRun(Step(s, acts[0]), acts[1..])
  }

  /** Every state of the run is in order. */
  ghost predicate InvRun(s: Sys, acts: seq<Action>)
    requires IsRun(s, acts)
    decreases |acts|
  {
    Inv(s) && (acts != [] ==> InvRun(Step(s, acts[0]), acts[1..]))
  }

  /** The kernel stays in order throughout a run exactly if the run is safe. */
  lemma {:induction false} RunInv(s: Sys, acts: seq<Action>)
    requires Inv(s) && IsRun(s, acts)
    ensures InvRun(s, acts) <==> SafeRun(s, acts)
    ensures SafeRun(s, acts) ==> Inv(Execute(s, acts))
    decreases |acts|
  {
    if acts != [] {
      StepInv(s, acts[0]);
      if Safe(s, acts[0]) { RunInv(Step(s, acts[0]), acts[1..]); }
    }
  }

  function BootCpu(c: int): Cpu {
    if c == 0 then Cpu(Kernel(Boot), NONE, false, 1, 1, 0, 0) else Cpu(WantUser(Boot), NONE, false, 1, 0, 0, 0)
  }

  /** Start-up: the boot CPU holds the lock, the others wait for it, environments are free, runnable or not runnable. */
  ghost predicate Booted(s: Sys) {
    && Shape(s) && !s.panicked && |s.cpus| > 0 && s.lock == 0 && s.log == []
    && (forall c {:trigger s.cpus[c]} :: 0 <= c < |s.cpus| ==> s.cpus[c] == BootCpu(c))
    && (forall e {:trigger s.envs[e]} :: 0 <= e < NENV ==> !Active(s.envs[e].status) && !s.envs[e].recving)
    && EnvsOk(s)
  }

  lemma BootedInv(s: Sys)
    requires Booted(s)
    ensures Inv(s)
  {
    forall c | 0 <= c < |s.cpus| ensures LockOk(s, c) && CurOk(s, c) { var cpu := s.cpus[c]; }
  }

  /**
   * On every run: whenever a CPU is in user code or in its halt loop, it has taken the lock once for each time it came
   * into the kernel and released it once for each time it left, and has left as often as it came.
   */
  lemma LockedOnce(s: Sys, acts: seq<Action>, c: nat)
    requires Booted(s) && IsRun(s, acts) && SafeRun(s, acts)
    requires c < |Execute(s, acts).cpus| && var pc := Execute(s, acts).cpus[c].pc; pc.User? || pc.Halted?
    ensures var r := Execute(s, acts); var cpu := r.cpus[c];
      r.lock != c && cpu.taken == cpu.entries && cpu.released == cpu.exits && cpu.exits == cpu.entries
  {
    BootedInv(s);
    RunInv(s, acts);
    assert LockOk(Execute(s, acts), c);
  }

  /** In order means: a running or dying environment is curenv of exactly one CPU in or coming from user code. */
  lemma OneCpuEach(s: Sys, e: nat) returns (c: nat)
    requires Inv(s) && e < NENV && Active(s.envs[e].status)
    ensures c < |s.cpus| && On(s, c) && s.cpus[c].cur == e
    ensures forall d :: 0 <= d < |s.cpus| && On(s, d) && s.cpus[d].cur == e ==> d == c
  {
    assert Hosts(s, e);
    c :| 0 <= c < |s.cpus| && On(s, c) && s.cpus[c].cur == e;
    forall d | 0 <= d < |s.cpus| && On(s, d) && s.cpus[d].cur == e ensures d == c {
      var x, y := s.cpus[c], s.cpus[d];
      assert c < d || d < c || c == d;
    }
  }

  // ---- the calls that must be avoided ----

  /** Two CPUs: environment 0 traps on CPU 0 and holds the lock, its child 1 is in user code on CPU 1. */
  ghost function TwoCpus(child: Status, call: Call): Sys {
    Sys(seq(NENV, e => if e == 0 then Env(Running, 4096, 0, false, 0, 0)
      else if e == 1 then Env(child, 4097, 4096, false, 0, 0)
                       else Env(Free, 0, 0, false, 0, 0)),
        [Cpu(Kernel(FromUser(Syscall(call))), 0, false, 1, 1, 0, 0), Cpu(User, 1, false, 0, 0, 0, 0)],
        0, [], false, [])
  }

  lemma TwoCpusInv(child: Status, call: Call)
    requires Active(child)
    ensures Inv(TwoCpus(child, call)) && CanStep(TwoCpus(child, call), Run(0)) &&
      Lookup(TwoCpus(child, call), 0, 4097, true) == 1
  {
    var s := TwoCpus(child, call);
    assert s.cpus[0].cur == 0 && s.cpus[1].cur == 1 && On(s, 0) && On(s, 1);
    assert LockOk(s, 0) && CurOk(s, 0) && LockOk(s, 1) && CurOk(s, 1);
    assert Hosts(s, 0) && Hosts(s, 1);
  }

  /** A second destroy of an environment that is still in user code frees it under that CPU. */
  lemma SecondDestroyFails()
    ensures var s := TwoCpus(Dying, Destroy(4097)); Inv(s) && CanStep(s, Run(0)) && !Inv(Step(s, Run(0)))
  {
    var s := TwoCpus(Dying, Destroy(4097));
    TwoCpusInv(Dying, Destroy(4097));
    StepInv(s, Run(0));
    assert !SafeCall(s, 0, Destroy(4097));
  }

  /** Making an environment runnable while it runs elsewhere lets two CPUs run it. */
  lemma RestartFails()
    ensures var s := TwoCpus(Running, SetStatus(4097, 2)); Inv(s) && CanStep(s, Run(0)) && !Inv(Step(s, Run(0)))
  {
    var s := TwoCpus(Running, SetStatus(4097, 2));
    TwoCpusInv(Running, SetStatus(4097, 2));
    StepInv(s, Run(0));
    assert HostsOther(s, 1, 0) by { assert On(s, 1) && s.cpus[1].cur == 1; }
    assert !SafeCall(s, 0, SetStatus(4097, 2));
  }

  /** As fork uses it, set_status is safe: it makes a child that is not runnable, and not receiving, runnable. */
  lemma StartChildSafe(s: Sys, c: nat, envid: int)
    requires Inv(s) && c < |s.cpus| && On(s, c) && s.cpus[c].cur != NONE && Lookup(s, c, envid, true) != NONE
    requires var e := Lookup(s, c, envid, true); s.envs[e].status == NotRunnable && !s.envs[e].recving
    ensures SafeCall(s, c, SetStatus(envid, 2))
  {
    var e := Lookup(s, c, envid, true);
    assert !HostsOther(s, e, c) by {
      forall d | 0 <= d < |s.cpus| && d != c && On(s, d) ensures s.cpus[d].cur != e { assert CurOk(s, d); }
    }
  }

  // ---- IPC ----

  /** The last thing that happened to the mailbox of `e`. */
  ghost function Last(log: seq<Event>, e: nat): int
    decreases |log|
  {
    if log == [] then -1 else if log[|log| - 1].e == e then |log| - 1 else Last(log[..|log| - 1], e)
  }

  lemma {:induction false} LastIs(log: seq<Event>, e: nat)
    ensures var k := Last(log, e); -1 <= k < |log| && (k >= 0 ==> log[k].e == e)
    ensures forall i {:trigger log[i]} :: Last(log, e) < i < |log| ==> log[i].e != e
    decreases |log|
  {
    if log != [] && log[|log| - 1].e != e {
      var l := log[..|log| - 1];
      LastIs(l, e);
      forall i | Last(log, e) < i < |log| ensures log[i].e != e { if i < |l| { assert l[i] == log[i]; } }
    }
  }

  lemma LastAppend(log: seq<Event>, x: Event, e: nat)
    ensures Last(log + [x], e) == if x.e == e then |log| else Last(log, e)
  {
    assert (log + [x])[..|log|] == log;
  }

  /** The mailbox fields say what happened last: waiting, or the message of the last send. */
  ghost predicate Mail(env: Env, log: seq<Event>, e: nat) {
    LastIs(log, e);
    var k := Last(log, e);
    if k < 0 || log[k].Made? then !env.recving
    else if log[k].Waits? then env.recving && env.from == 0
    else !env.recving && env.from == log[k].from && env.value == log[k].value
  }

  ghost predicate MailOk(s: Sys)
    requires Shape(s)
  {
    forall e {:trigger s.envs[e]} :: 0 <= e < NENV ==> Mail(s.envs[e], s.log, e)
  }

  /** Between two messages to the same environment it has asked to receive. */
  ghost predicate OnceEach(log: seq<Event>) {
    forall i, j {:trigger log[i], log[j]} ::
      0 <= i < j < |log| && log[i].Got? && log[j].Got? && log[i].e == log[j].e ==>
      exists k {:trigger log[k]} :: i < k < j && log[k] == Waits(log[i].e)
  }

  /** `r` has the mailboxes of `s`. */
  ghost predicate SameMail(s: Sys, r: Sys) {
    && |r.envs| == |s.envs| && r.log == s.log
    && forall e {:trigger r.envs[e]} :: 0 <= e < |s.envs| ==>
         r.envs[e].recving == s.envs[e].recving && r.envs[e].from == s.envs[e].from &&
           r.envs[e].value == s.envs[e].value
  }

  lemma SameMailOk(s: Sys, r: Sys)
    requires Shape(s) && Shape(r) && MailOk(s) && SameMail(s, r)
    ensures MailOk(r)
  {
    forall e | 0 <= e < NENV ensures Mail(r.envs[e], r.log, e) { assert Mail(s.envs[e], s.log, e); }
  }

  lemma EnvRunMail(s: Sys, c: nat, e: nat)
    requires Shape(s) && c < |s.cpus| && e < NENV
    ensures SameMail(s, EnvRun(s, c, e))
  {
  }

  lemma SchedYieldMail(s: Sys, c: nat)
    requires Shape(s) && c < |s.cpus|
    ensures SameMail(s, SchedYield(s, c))
  {
    var k := Scan(s.envs, Start(s, c), 0);
    var cur := s.cpus[c].cur;
    if k < NENV { EnvRunMail(s, c, Slot(Start(s, c), k)); }
      else if cur != NONE && s.envs[cur].status == Running { EnvRunMail(s, c, cur); }
  }

  lemma ReturnMail(s: Sys, c: nat)
    requires Shape(s) && c < |s.cpus|
    ensures SameMail(s, Return(s, c))
  {
    var cur := s.cpus[c].cur;
    if cur != NONE && s.envs[cur].status == Running { EnvRunMail(s, c, cur); } else { SchedYieldMail(s, c); }
  }

  /** One event, and the mailbox it is about. */
  lemma EventMail(s: Sys, r: Sys, x: Event)
    requires Shape(s) && Shape(r) && MailOk(s) && x.e < NENV && r.log == s.log + [x]
    requires forall e :: 0 <= e < NENV && e != x.e ==> r.envs[e] == s.envs[e]
    requires match x
      case Made(e) => !r.envs[e].recving
      case Waits(e) => r.envs[e].recving && r.envs[e].from == 0
      case Got(e, from, value) => !r.envs[e].recving && r.envs[e].from == from && r.envs[e].value == value
    ensures MailOk(r)
  {
    forall e | 0 <= e < NENV ensures Mail(r.envs[e], r.log, e) {
      LastAppend(s.log, x, e);
      LastIs(s.log, e);
      LastIs(r.log, e);
      if e != x.e { assert Mail(s.envs[e], s.log, e); }
    }
  }

  /** A message is accepted only by an environment that waits, so no message was accepted since it began to. */
  lemma GotOnce(s: Sys, e: nat, from: int, value: int)
    requires Shape(s) && MailOk(s) && OnceEach(s.log) && e < NENV && s.envs[e].recving
    ensures OnceEach(s.log + [Got(e, from, value)])
  {
    var log := s.log + [Got(e, from, value)];
    assert Mail(s.envs[e], s.log, e);
    LastIs(s.log, e);
    var w := Last(s.log, e);
    assert w >= 0 && log[w] == Waits(e);
    forall i, j | 0 <= i < j < |log| && log[i].Got? && log[j].Got? && log[i].e == log[j].e
      ensures exists k {:trigger log[k]} :: i < k < j && log[k] == Waits(log[i].e)
    {
      if j == |s.log| {
        assert s.log[i] == log[i] && i < w;
      } else {
        assert s.log[i] == log[i] && s.log[j] == log[j];
        var k :| i < k < j && s.log[k] == Waits(s.log[i].e);
        assert log[k] == Waits(log[i].e);
      }
    }
  }

  lemma OtherOnce(log: seq<Event>, x: Event)
    requires OnceEach(log) && !x.Got?
    ensures OnceEach(log + [x])
  {
    var l := log + [x];
    forall i, j | 0 <= i < j < |l| && l[i].Got? && l[j].Got? && l[i].e == l[j].e
      ensures exists k {:trigger l[k]} :: i < k < j && l[k] == Waits(l[i].e)
    {
      assert log[i] == l[i] && log[j] == l[j];
      var k :| i < k < j && log[k] == Waits(log[i].e);
      assert l[k] == Waits(l[i].e);
    }
  }

  ghost predicate IpcInv(s: Sys) {
    Shape(s) && MailOk(s) && OnceEach(s.log)
  }

  lemma IpcSame(s: Sys, r: Sys)
    requires IpcInv(s) && Shape(r) && SameMail(s, r)
    ensures IpcInv(r)
  {
    SameMailOk(s, r);
  }

  lemma ExoforkIpc(s: Sys, c: nat, memory: bool)
    requires IpcInv(s) && c < |s.cpus| && s.cpus[c].cur != NONE
    ensures IpcInv(DoExofork(s, c, memory))
  {
    if s.freeList != [] && memory {
      EventMail(s, DoExofork(s, c, memory), Made(s.freeList[0]));
      OtherOnce(s.log, Made(s.freeList[0]));
    }
  }

  lemma TrySendIpc(s: Sys, c: nat, envid: int, value: int, page: bool)
    requires IpcInv(s) && c < |s.cpus| && s.cpus[c].cur != NONE
    ensures IpcInv(DoTrySend(s, c, envid, value, page))
  {
    var e := Lookup(s, c, envid, false);
    if CanSend(s, e, page) {
      var me := s.envs[s.cpus[c].cur].id;
      EventMail(s, DoTrySend(s, c, envid, value, page), Got(e, me, value));
      GotOnce(s, e, me, value);
    }
  }

  lemma RecvIpc(s: Sys, c: nat)
    requires IpcInv(s) && c < |s.cpus| && s.cpus[c].cur != NONE
    ensures IpcInv(DoRecv(s, c))
  {
    EventMail(s, DoRecv(s, c), Waits(s.cpus[c].cur));
    OtherOnce(s.log, Waits(s.cpus[c].cur));
  }

  lemma DestroySelfIpc(s: Sys, c: nat)
    requires IpcInv(s) && c < |s.cpus| && s.cpus[c].cur != NONE
    ensures IpcInv(DestroySelf(s, c))
  {
    var s1 := WithCur(EnvFree(s, s.cpus[c].cur), c, NONE);
    IpcSame(s, s1);
    SchedYieldMail(s1, c);
    IpcSame(s1, SchedYield(s1, c));
  }

  lemma ReturnIpc(s: Sys, c: nat)
    requires IpcInv(s) && c < |s.cpus|
    ensures IpcInv(Return(s, c)) && IpcInv(SchedYield(s, c))
  {
    ReturnMail(s, c);
    IpcSame(s, Return(s, c));
    SchedYieldMail(s, c);
    IpcSame(s, SchedYield(s, c));
  }

  lemma CallIpc(s: Sys, c: nat, call: Call)
    requires IpcInv(s) && c < |s.cpus| && s.cpus[c].cur != NONE
    ensures IpcInv(DoCall(s, c, call))
  {
    match call
    case Yield => ReturnIpc(s, c);
    case Destroy(envid) =>
      var e := Lookup(s, c, envid, true);
      if e == NONE {
        ReturnIpc(s, c);
      } else if e == s.cpus[c].cur {
        DestroySelfIpc(s, c);
      } else {
        IpcSame(s, DestroyOther(s, e));
        ReturnIpc(DestroyOther(s, e), c);
      }
    case Exofork(memory) => ExoforkIpc(s, c, memory); ReturnIpc(DoExofork(s, c, memory), c);
    case SetStatus(envid, status) => IpcSame(s,
      DoSetStatus(s, c, envid, status)); ReturnIpc(DoSetStatus(s, c, envid, status), c);
    case TrySend(envid, value, page) => TrySendIpc(s, c, envid, value,
      page); ReturnIpc(DoTrySend(s, c, envid, value, page), c);
    case Recv(aligned) => if aligned { RecvIpc(s, c); ReturnIpc(DoRecv(s, c), c); } else { ReturnIpc(s, c); }
    case Other => ReturnIpc(s, c);
  }

  lemma StepIpc(s: Sys, a: Action)
    requires IpcInv(s) && CanStep(s, a)
    ensures IpcInv(Step(s, a))
  {
    if a.Run? && s.cpus[a.c].pc.entry.FromUser? {
      var trap := s.cpus[a.c].pc.entry.trap;
      var cur := s.cpus[a.c].cur;
      if s.envs[cur].status == Dying {
        DestroySelfIpc(s, a.c);
      } else {
        match trap
        case Timer => ReturnIpc(s, a.c);
        case Device => ReturnIpc(s, a.c);
        case Fault(handled) =>
          if handled { EnvRunMail(s, a.c, cur); IpcSame(s, EnvRun(s, a.c, cur)); } else { DestroySelfIpc(s, a.c); }
        case Syscall(call) => CallIpc(s, a.c, call);
      }
    } else if a.Run? {
      ReturnIpc(s, a.c);
    } else {
      IpcSame(s, Step(s, a));
    }
  }

  /**
   * In every run, whatever destroy and set_status do: between two receives at most one send succeeds, and the
   * sender and value a woken environment finds are those of that send.
   */
  lemma {:induction false} RunIpc(s: Sys, acts: seq<Action>)
    requires IpcInv(s) && IsRun(s, acts)
    ensures IpcInv(Execute(s, acts))
    decreases |acts|
  {
    if acts != [] {
      StepIpc(s, acts[0]);
      RunIpc(Step(s, acts[0]), acts[1..]);
    }
  }

  lemma BootedIpc(s: Sys)
    requires Booted(s)
    ensures IpcInv(s)
  {
    forall e | 0 <= e < NENV ensures Mail(s.envs[e], s.log, e) { var env := s.envs[e]; }
  }

  /** From start-up on, a message is received only by an environment that has asked since its last one. */
  lemma ReceivedOnce(s: Sys, acts: seq<Action>, i: nat, j: nat) returns (k: nat)
    requires Booted(s) && IsRun(s, acts) && var log := Execute(s, acts).log;
      i < j < |log| && log[i].Got? && log[j].Got? && log[i].e == log[j].e
    ensures var log := Execute(s, acts).log; i < k < j && log[k] == Waits(log[i].e)
  {
    BootedIpc(s);
    RunIpc(s, acts);
    var log := Execute(s, acts).log;
    k :| i < k < j && log[k] == Waits(log[i].e);
  }

  /** A send that fails leaves a waiting environment as it was. */
  lemma FailedSendKeeps(s: Sys, c: nat, envid: int, value: int, page: bool, e: nat)
    requires Inv(s) && CanStep(s, Run(c)) && s.cpus[c].pc.entry == FromUser(Syscall(TrySend(envid, value, page)))
    requires s.envs[s.cpus[c].cur].status == Running && e < NENV && s.envs[e].recving && s.envs[e].status == NotRunnable
    requires Lookup(s, c, envid, false) == e ==> !CanSend(s, e, page)
    ensures Step(s, Run(c)).envs[e] == s.envs[e]
  {
    assert LockOk(s, c);
    ReturnOut(DoTrySend(s, c, envid, value, page), c);
  }
}
