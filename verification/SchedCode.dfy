/** sched.c, env.c, syscall.c and trap.c as they run on one CPU, on the shared environment table. */
module SchedCode {
  import opened Sched
  import opened SchedSafety
  import opened SchedRuns
  import opened SchedWaiting
  import Spec = Sched

  const E_BAD_ENV: int := 2
  const E_INVAL: int := 3
  const E_NO_MEM: int := 4
  const E_NO_FREE_ENV: int := 5
  const E_IPC_NOT_RECV: int := 7

  /** Environment `x` is in use, has the id `envid`, and CPU `c`'s environment may touch it: itself or a child. */
  ghost predicate Names(s: Sys, c: nat, x: nat, envid: int, check: bool)
    requires Shape(s) && c < |s.cpus| && s.cpus[c].cur != NONE
  {
    var cur := s.cpus[c].cur;
    x < NENV && s.envs[x].status != Free && s.envs[x].id == envid &&
      (check && x != cur ==> s.envs[x].parent == s.envs[cur].id)
  }

  ghost predicate Known(s: Sys, c: nat, envid: int, check: bool)
    requires Shape(s) && c < |s.cpus| && s.cpus[c].cur != NONE
  {
    envid == 0 || exists x: nat :: Names(s, c, x, envid, check)
  }

  lemma KeepsOrder(s: Sys, a: Action)
    requires CanStep(s, a) && !a.Run?
    ensures Inv(s) && IpcInv(s) ==> Inv(Step(s, a)) && IpcInv(Step(s, a))
  {
    if Inv(s) && IpcInv(s) {
      StepInv(s, a);
      StepIpc(s, a);
    }
  }

  lemma RecvLeaves(s: Sys, c: nat)
    requires Inv(s) && IpcInv(s) && Mid(s, c) && s.cpus[c].cur != NONE && s.envs[s.cpus[c].cur].status == Running
    ensures var r := SchedYield(DoRecv(s, c), c);
      Inv(r) && IpcInv(r) && HasLeft(r, c) && (r.cpus[c].cur != s.cpus[c].cur || r.cpus[c].pc.Monitor?)
    ensures var r := SchedYield(DoRecv(s, c), c);
      r.envs[s.cpus[c].cur] == DoRecv(s, c).envs[s.cpus[c].cur] && r.log == DoRecv(s, c).log
  {
    var s1 := DoRecv(s, c);
    RecvMid(s, c);
    SchedYieldOk(s1, c);
    RecvIpc(s, c);
    ReturnIpc(s1, c);
    SchedYieldMail(s1, c);
    YieldLeaves(s1, c);
    SchedYieldOut(s1, c);
    YieldAway(s1, c);
  }

  /** An environment that neither runs nor is runnable is left. */
  lemma YieldAway(t: Sys, c: nat)
    requires Shape(t) && c < |t.cpus| && t.lock == c && t.cpus[c].cur != NONE &&
      t.envs[t.cpus[c].cur].status == NotRunnable
    ensures var r := SchedYield(t, c); c < |r.cpus| && (r.cpus[c].cur != t.cpus[c].cur || r.cpus[c].pc.Monitor?)
  {
  }

  /** CPU `c` is in the middle of its stay in the kernel and may let `e` run. */
  ghost predicate Startable(s: Sys, c: nat, e: nat) {
    && Mid(s, c) && e < NENV && !HostsOther(s, e, c) && !s.envs[e].recving
    && (s.envs[e].status == Runnable || (e == s.cpus[c].cur && s.envs[e].status == Running))
  }

  class Machine {
    var envs: array<Env>
    var cpus: array<Cpu>
    var lock: int
    var freeList: seq<nat>
    var panicked: bool
    ghost var log: seq<Event>

    ghost function Snap(): Sys
      reads this, envs, cpus
    {
      Sys(envs[..], cpus[..], lock, freeList, panicked, log)
    }

    ghost predicate Valid()
      reads this, envs, cpus
    {
      Shape(Snap())
    }

    /** The machine is in order, and so are its mailboxes. */
    ghost predicate InOrder()
      reads this, envs, cpus
    {
      Inv(Snap()) && IpcInv(Snap())
    }

    /** env_init, and the CPUs on their way into the scheduler. */
    constructor (ncpu: nat)
      requires ncpu > 0
      ensures Booted(Snap()) && InOrder() && fresh(envs) && fresh(cpus) && cpus.Length == ncpu
    {
      envs := new Env[NENV](_ => Env(Free, 0, 0, false, 0, 0));
      cpus := new Cpu[ncpu](c => BootCpu(c));
      lock, panicked, freeList, log := 0, false, seq(NENV, i => i), [];
      new;
      BootedInv(Snap());
      BootedIpc(Snap());
    }

    method PutEnv(e: nat, env: Env)
      requires e < envs.Length
      modifies envs
      ensures Snap() == old(Snap()).(envs := old(Snap()).envs[e := env])
    {
      envs[e] := env;
      assert envs[..] == old(envs[..])[e := env];
    }

    method PutCpu(c: nat, cpu: Cpu)
      requires c < cpus.Length
      modifies cpus
      ensures Snap() == old(Snap()).(cpus := old(Snap()).cpus[c := cpu])
    {
      cpus[c] := cpu;
      assert cpus[..] == old(cpus[..])[c := cpu];
    }

    /** unlock_kernel and the way out. */
    method UnlockKernel(c: nat, halt: bool)
      requires Valid() && c < cpus.Length
      modifies this`lock, this`panicked, cpus
      ensures Snap() == Spec.Leave(old(Snap()), c, halt)
    {
      if lock != c {
        panicked := true;
        return;
      }
      lock := NONE;
      var cpu := cpus[c];
      PutCpu(c, cpu.(pc := Leaving(halt), released := cpu.released + 1));
    }

    /** One turn of spin_lock's loop: the exchange sets the lock and tells whether it was free. */
    method SpinLock(c: nat) returns (got: bool)
      requires CanStep(Snap(), Lock(c))
      modifies this`lock, this`panicked, cpus
      ensures Snap() == Step(old(Snap()), Lock(c)) && (got <==> old(lock) == NONE) &&
        lock == (if got then c else old(lock))
      ensures old(InOrder()) ==> InOrder()
    {
      ghost var s := Snap();
      KeepsOrder(s, Lock(c));
      if lock == c {
        panicked := true;
        return false;
      }
      if lock != NONE {
        return false;
      }
      lock := c;
      var cpu := cpus[c];
      PutCpu(c, cpu.(pc := if cpu.pc.WantHalted? then TestUser(cpu.pc.entry)
        else Kernel(cpu.pc.entry), taken := cpu.taken + 1));
      return true;
    }

    /** A trap in user code, or an interrupt in the halt loop. */
    method Enter(c: nat, entry: Entry)
      requires InOrder() && c < cpus.Length && !entry.Boot?
      requires if entry.FromUser? then cpus[c].pc.User? else cpus[c].pc.Halted?
      modifies cpus
      ensures InOrder() && Snap() == EnterKernel(old(Snap()), c, entry)
    {
      ghost var s := Snap();
      ghost var a := if entry.FromUser? then Action.Enter(c, entry.trap) else Wake(c, entry.timer);
      KeepsOrder(s, a);
      PutCpu(c, cpus[c].(pc := TestHalted(entry), entries := cpus[c].entries + 1));
    }

    /** The two conditionals at the top of trap(): whether this CPU must take the lock here. */
    method Test(c: nat) returns (must: bool)
      requires CanStep(Snap(), Action.Test(c))
      modifies this`panicked, cpus
      ensures Snap() == Step(old(Snap()), Action.Test(c))
      ensures old(InOrder()) ==> InOrder() && (must <==> old(cpus[c].pc.TestUser? <==> cpus[c].pc.entry.FromUser?))
    {
      ghost var s := Snap();
      KeepsOrder(s, Action.Test(c));
      if Inv(s) { assert LockOk(s, c); }
      var cpu := cpus[c];
      if cpu.pc.TestHalted? {
        must := cpu.halted;
        PutCpu(c, cpu.(pc := if must then WantHalted(cpu.pc.entry) else TestUser(cpu.pc.entry), halted := false));
      } else if cpu.pc.entry.FromUser? {
        must := true;
        if cpu.cur == NONE {
          panicked := true;
        } else {
          PutCpu(c, cpu.(pc := WantUser(cpu.pc.entry)));
        }
      } else {
        must := false;
        PutCpu(c, cpu.(pc := Kernel(cpu.pc.entry)));
      }
    }

    /** Back in user mode, or in the halt loop. */
    method Out(c: nat)
      requires InOrder() && CanStep(Snap(), Action.Out(c))
      modifies cpus
      ensures InOrder() && Snap() == Step(old(Snap()), Action.Out(c)) && (cpus[c].pc.User? || cpus[c].pc.Halted?)
    {
      ghost var s := Snap();
      KeepsOrder(s, Action.Out(c));
      PutCpu(c, cpus[c].(pc := if cpus[c].pc.halt then Halted else User, exits := cpus[c].exits + 1));
    }

    /** env_run: the environment runs, the old one is runnable again, and the CPU leaves. */
    method EnvRun(c: nat, e: nat)
      requires Valid() && c < cpus.Length && e < NENV
      modifies this`lock, this`panicked, envs, cpus
      ensures Snap() == Spec.EnvRun(old(Snap()), c, e)
      ensures old(Startable(Snap(), c, e)) ==>
        Inv(Snap()) && cpus[c].cur == e && envs[e].status == Running && lock == NONE
    {
      ghost var s := Snap();
      if Startable(s, c, e) { EnvRunOk(s, c, e); }
      var cur := cpus[c].cur;
      if cur != NONE && envs[cur].status == Running {
        PutEnv(cur, envs[cur].(status := Runnable));
      }
      PutCpu(c, cpus[c].(cur := e));
      PutEnv(e, envs[e].(status := Running));
      UnlockKernel(c, false);
    }

    method SchedHalt(c: nat)
      requires Valid() && c < cpus.Length
      modifies this`lock, this`panicked, cpus
      ensures Snap() == Spec.SchedHalt(old(Snap()), c)
    {
      var i := 0;
      while i < NENV
        invariant 0 <= i <= NENV
        invariant forall e :: 0 <= e < i ==>
          envs[..][e].status != Runnable && envs[..][e].status != Running && envs[..][e].status != Dying
      {
        if envs[i].status == Runnable || envs[i].status == Running || envs[i].status == Dying {
          assert envs[..][i] == envs[i];
          break;
        }
        i := i + 1;
      }
      if i == NENV {
        PutCpu(c, cpus[c].(pc := Monitor));
        return;
      }
      PutCpu(c, cpus[c].(cur := NONE, halted := true));
      UnlockKernel(c, true);
    }

    /** sched_yield: round robin from the slot after the current environment. */
    method SchedYield(c: nat)
      requires Valid() && c < cpus.Length
      modifies this`lock, this`panicked, envs, cpus
      ensures Snap() == Spec.SchedYield(old(Snap()), c)
    {
      ghost var s := Snap();
      var idle := cpus[c].cur;
      var startidx := if idle != NONE then (envs[idle].id % 1024 + 1) % 1024 else 0;
      var i := 0;
      while i < NENV
        invariant 0 <= i <= NENV && Scan(s.envs, startidx, 0) == Scan(s.envs, startidx, i)
      {
        var workidx := Slot(startidx, i);
        assert s.envs[workidx] == envs[workidx];
        if envs[workidx].status == Runnable {
          EnvRun(c, workidx);
          return;
        }
        i := i + 1;
      }
      if idle != NONE && envs[idle].status == Running {
        EnvRun(c, idle);
        return;
      }
      SchedHalt(c);
    }

    method EnvFree(e: nat)
      requires Valid() && e < NENV
      modifies this`freeList, envs
      ensures Snap() == Spec.EnvFree(old(Snap()), e)
    {
      PutEnv(e, envs[e].(status := Free));
      freeList := [e] + freeList;
    }

    /** env_destroy: returns unless the environment was the CPU's own. */
    method EnvDestroy(c: nat, e: nat) returns (returned: bool)
      requires Valid() && c < cpus.Length && e < NENV && cpus[c].cur != NONE
      modifies this`lock, this`panicked, this`freeList, envs, cpus
      ensures returned <==> e != old(cpus[c].cur)
      ensures Snap() == if returned then Spec.DestroyOther(old(Snap()), e) else Spec.DestroySelf(old(Snap()), c)
    {
      if envs[e].status == Running && cpus[c].cur != e {
        PutEnv(e, envs[e].(status := Dying));
        return true;
      }
      EnvFree(e);
      if cpus[c].cur == e {
        PutCpu(c, cpus[c].(cur := NONE));
        SchedYield(c);
        return false;
      }
      return true;
    }

    /** envid2env: the environment in use with this id, if the caller may touch it; ids are unique. */
    method Envid2Env(c: nat, envid: int, check: bool) returns (e: int)
      requires Valid() && IdsOk(Snap()) && c < cpus.Length && cpus[c].cur != NONE
      ensures -1 <= e < NENV && (e != NONE <==> Known(Snap(), c, envid, check))
      ensures envid == 0 ==> e == cpus[c].cur
      ensures envid != 0 ==> forall x: nat :: Names(Snap(), c, x, envid, check) <==> x == e
      ensures e == Lookup(Snap(), c, envid, check)
    {
      ghost var s := Snap();
      forall x: nat | Names(s, c, x, envid, check) ensures x == envid % 1024 { assert s.envs[x].id % 1024 == x; }
      var cur := cpus[c].cur;
      if envid == 0 {
        return cur;
      }
      e := envid % 1024;
      assert envs[e] == s.envs[e] && envs[cur] == s.envs[cur];
      if envs[e].status == Free || envs[e].id != envid {
        return NONE;
      }
      if check && e != cur && envs[e].parent != envs[cur].id {
        return NONE;
      }
      assert Names(s, c, e, envid, check);
    }

    /** sys_exofork: the id of a child that is not runnable yet, or the error of env_alloc. */
    method SysExofork(c: nat, memory: bool) returns (r: int)
      requires Valid() && c < cpus.Length && cpus[c].cur != NONE
      modifies this`freeList, this`log, envs
      ensures Snap() == DoExofork(old(Snap()), c, memory)
      ensures r == -E_NO_FREE_ENV <==> old(freeList) == []
      ensures r == -E_NO_MEM <==> old(freeList) != [] && !memory
      ensures r < 0 ==> Snap() == old(Snap()) && r in {-E_NO_FREE_ENV, -E_NO_MEM}
      ensures r >= 0 ==> r > 0 && var e := r % 1024;
        envs[e].id == r && envs[e].status == NotRunnable && envs[e].parent == old(envs[cpus[c].cur].id) &&
          !envs[e].recving
    {
      if freeList == [] {
        return -E_NO_FREE_ENV;
      }
      if !memory {
        return -E_NO_MEM;
      }
      var e := freeList[0];
      var id := NextId(envs[e].id, e);
      PutEnv(e, envs[e].(status := NotRunnable, id := id, parent := envs[cpus[c].cur].id, recving := false));
      freeList := freeList[1..];
      log := log + [Made(e)];
      assert Snap().envs[e] == envs[e];
      return id;
    }

    /** sys_env_set_status: any status, for the caller or a child of it. */
    method SysEnvSetStatus(c: nat, envid: int, status: int) returns (r: int)
      requires Valid() && IdsOk(Snap()) && c < cpus.Length && cpus[c].cur != NONE
      modifies envs
      ensures r == if !Known(old(Snap()), c, envid, true) then -E_BAD_ENV else if !(0 <= status <= 4) then -E_INVAL
        else 0
      ensures r != 0 ==> Snap() == old(Snap())
      ensures r == 0 ==> exists e: nat {:trigger envs[e]} ::
        && e < NENV && (if envid == 0 then e == cpus[c].cur else Names(old(Snap()), c, e, envid, true))
        && Snap() == old(Snap()).(envs := old(Snap()).envs[e := envs[e]])
        && envs[e] == old(envs[..])[e].(status := StatusOf(status))
      ensures Snap() == DoSetStatus(old(Snap()), c, envid, status)
    {
      var e := Envid2Env(c, envid, true);
      if e == NONE {
        return -E_BAD_ENV;
      }
      if status < 0 || status > 4 {
        return -E_INVAL;
      }
      PutEnv(e, envs[e].(status := StatusOf(status)));
      assert envs[..][e] == envs[e];
      return 0;
    }

    /**
     * sys_ipc_try_send: the target wakes with the value and the sender, exactly if it waits and the page part is
     * done.
     */
    method SysIpcTrySend(c: nat, envid: int, value: int, page: bool) returns (r: int)
      requires Valid() && IdsOk(Snap()) && c < cpus.Length && cpus[c].cur != NONE
      modifies this`log, envs
      ensures Snap() == DoTrySend(old(Snap()), c, envid, value, page)
      ensures r == 0 <==> CanSend(old(Snap()), Lookup(old(Snap()), c, envid, false), page)
      ensures r == -E_BAD_ENV <==> !Known(old(Snap()), c, envid, false)
      ensures r != 0 ==> Snap() == old(Snap())
    {
      var e := Envid2Env(c, envid, false);
      if e == NONE {
        return -E_BAD_ENV;
      }
      if !envs[e].recving || envs[e].from != 0 {
        return -E_IPC_NOT_RECV;
      }
      if !page {
        return -E_INVAL;
      }
      var me := envs[cpus[c].cur].id;
      PutEnv(e, envs[e].(recving := false, from := me, value := value, status := Runnable));
      log := log + [Got(e, me, value)];
      return 0;
    }

    /**
     * sys_ipc_recv: the caller waits with an empty mailbox, its CPU has left for another environment or the halt
     * loop.
     */
    method SysIpcRecv(c: nat)
      requires InOrder() && Mid(Snap(), c) && cpus[c].cur != NONE && envs[cpus[c].cur].status == Running
      modifies this`lock, this`panicked, this`log, envs, cpus
      ensures InOrder() && HasLeft(Snap(), c) && Snap() == Spec.SchedYield(DoRecv(old(Snap()), c), c)
      ensures var e := old(cpus[c].cur); envs[e] == old(envs[..])[e].(recving := true, status := NotRunnable, from := 0)
      ensures log == old(log) + [Waits(old(cpus[c].cur))] && (cpus[c].cur != old(cpus[c].cur) || cpus[c].pc.Monitor?)
    {
      ghost var s := Snap();
      var e := cpus[c].cur;
      assert s.envs[e] == envs[e];
      PutEnv(e, envs[e].(recving := true, status := NotRunnable, from := 0));
      log := log + [Waits(e)];
      RecvLeaves(s, c);
      SchedYield(c);
      assert envs[e] == Snap().envs[e];
    }

    /** The end of trap(). */
    method Return(c: nat)
      requires Valid() && c < cpus.Length
      modifies this`lock, this`panicked, envs, cpus
      ensures Snap() == Spec.Return(old(Snap()), c)
    {
      var cur := cpus[c].cur;
      if cur != NONE && envs[cur].status == Running {
        EnvRun(c, cur);
      } else {
        SchedYield(c);
      }
    }

    method DoSyscall(c: nat, call: Call)
      requires InOrder() && Mid(Snap(), c) && cpus[c].cur != NONE && envs[cpus[c].cur].status == Running
      modifies this`lock, this`panicked, this`freeList, this`log, envs, cpus
      ensures Snap() == Spec.DoCall(old(Snap()), c, call)
    {
      var r;
      match call {
        case Yield =>
          SchedYield(c);
          return;
        case Destroy(envid) =>
          var e := Envid2Env(c, envid, true);
          if e != NONE {
            var returned := EnvDestroy(c, e);
            if !returned {
              return;
            }
          }
        case Exofork(memory) =>
          r := SysExofork(c, memory);
        case SetStatus(envid, status) =>
          r := SysEnvSetStatus(c, envid, status);
        case TrySend(envid, value, page) =>
          r := SysIpcTrySend(c, envid, value, page);
        case Recv(aligned) =>
          if aligned {
            SysIpcRecv(c);
            return;
          }
        case Other =>
      }
      Return(c);
    }

    /**
     * trap() from the moment the lock is held, and the start-up path into the scheduler. The machine stays in order if
     * and only if the trap is safe; the mailboxes stay in order in any case, and so does the lock.
     */
    method Trap(c: nat)
      requires InOrder() && CanStep(Snap(), Run(c))
      modifies this`lock, this`panicked, this`freeList, this`log, envs, cpus
      ensures Inv(Snap()) <==> Safe(old(Snap()), Run(c))
      ensures IpcInv(Snap()) && HasLeft(Snap(), c) && !panicked
      ensures Snap() == Step(old(Snap()), Run(c))
    {
      ghost var s := Snap();
      assert LockOk(s, c);
      StepInv(s, Run(c));
      StepIpc(s, Run(c));
      WorkLeaves(s, c);
      Serve(c);
    }

    method Serve(c: nat)
      requires InOrder() && CanStep(Snap(), Run(c))
      modifies this`lock, this`panicked, this`freeList, this`log, envs, cpus
      ensures Snap() == Spec.Work(old(Snap()), c)
    {
      ghost var s := Snap();
      assert CurOk(s, c);
      match cpus[c].pc.entry
      case Boot => SchedYield(c);
      case FromHalt(timer) => if timer { SchedYield(c); } else { Return(c); }
      case FromUser(trap) =>
        var cur := cpus[c].cur;
        assert s.envs[cur] == envs[cur];
        if envs[cur].status == Dying {
          EnvFree(cur);
          PutCpu(c, cpus[c].(cur := NONE));
          SchedYield(c);
          return;
        }
        InvMid(s, c);
        match trap
        case Timer => SchedYield(c);
        case Device => Return(c);
        case Fault(handled) =>
          if handled {
            EnvRun(c, cur);
          } else {
            var returned := EnvDestroy(c, cur);
          }
        case Syscall(call) => DoSyscall(c, call);
    }
  }
}
