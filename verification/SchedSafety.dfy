/** What every step of every CPU keeps: one holder of the lock, one CPU for each running environment. */
module SchedSafety {
  import opened Sched

  // ---- the invariant ----

  /** CPU `c` is in trap(), or in its start-up code. */
  predicate Inside(pc: Pc) {
    pc.TestHalted? || pc.WantHalted? || pc.TestUser? || pc.WantUser? || pc.Kernel?
  }

  /** CPU `c` runs user code of its curenv, has just left it or is about to return to it. */
  predicate On(s: Sys, c: nat) {
    c < |s.cpus| && var pc := s.cpus[c].pc; pc.User? || pc == Leaving(false) || (Inside(pc) && pc.entry.FromUser?)
  }

  predicate Active(st: Status) {
    st == Running || st == Dying
  }

  /** Where the lock has been taken, and where it has still to be taken. */
  predicate Holding(pc: Pc) {
    pc.Kernel? || pc.Monitor? || (pc.TestUser? && pc.entry.FromHalt?)
  }

  predicate Unlocked(pc: Pc) {
    pc.TestHalted? || pc.WantHalted? || pc.WantUser? || (pc.TestUser? && pc.entry.FromUser?)
  }

  /** Which entries get where. */
  predicate EntryOk(pc: Pc) {
    && (pc.TestHalted? || pc.TestUser? ==> !pc.entry.Boot?)
    && (pc.WantHalted? ==> pc.entry.FromHalt?) && (pc.WantUser? ==> !pc.entry.FromHalt?)
  }

  /** The lock is taken once for each entry and released once for each exit. */
  predicate LockOk(s: Sys, c: nat)
    requires c < |s.cpus|
  {
    var cpu := s.cpus[c];
    && EntryOk(cpu.pc) && (s.lock == c <==> Holding(cpu.pc))
    && cpu.taken == cpu.released + (if s.lock == c then 1 else 0)
    && cpu.entries == cpu.taken + (if Unlocked(cpu.pc) then 1 else 0)
    && cpu.released == cpu.exits + (if cpu.pc.Leaving? then 1 else 0)
    && (cpu.halted <==> cpu.pc.Halted? || cpu.pc == Leaving(true) || (cpu.pc.TestHalted? && cpu.pc.entry.FromHalt?))
  }

  /** A CPU in user code is in an environment that runs or is dying; other CPUs have no environment. */
  predicate CurOk(s: Sys, c: nat)
    requires Shape(s) && c < |s.cpus|
  {
    if On(s, c) then 0 <= s.cpus[c].cur && Active(s.envs[s.cpus[c].cur].status)
    else s.cpus[c].pc.Monitor? || s.cpus[c].cur == NONE
  }

  ghost predicate CpusOk(s: Sys)
    requires Shape(s)
  {
    forall c {:trigger s.cpus[c]} :: 0 <= c < |s.cpus| ==> LockOk(s, c) && CurOk(s, c)
  }

  /** No environment is on two CPUs. */
  ghost predicate Apart(s: Sys) {
    forall c, d {:trigger s.cpus[c], s.cpus[d]} ::
      0 <= c < d < |s.cpus| && On(s, c) && On(s, d) ==> s.cpus[c].cur != s.cpus[d].cur
  }

  ghost predicate Hosts(s: Sys, e: int) {
    exists c {:trigger s.cpus[c]} :: 0 <= c < |s.cpus| && On(s, c) && s.cpus[c].cur == e
  }

  /** Every environment that runs or is dying is on a CPU. */
  ghost predicate Hosted(s: Sys)
    requires Shape(s)
  {
    forall e {:trigger s.envs[e]} :: 0 <= e < NENV && Active(s.envs[e].status) ==> Hosts(s, e)
  }

  /** The id of an environment in use names its slot. */
  ghost predicate IdsOk(s: Sys)
    requires Shape(s)
  {
    forall e {:trigger s.envs[e]} ::
      0 <= e < NENV && s.envs[e].status != Free ==> s.envs[e].id > 0 && s.envs[e].id % 1024 == e
  }

  /** A receiving environment is not runnable; environments on the free list are free, each once. */
  ghost predicate EnvsOk(s: Sys)
    requires Shape(s)
  {
    && IdsOk(s)
    && (forall e {:trigger s.envs[e]} ::
      0 <= e < NENV && s.envs[e].recving ==> s.envs[e].status == NotRunnable || s.envs[e].status == Free)
    && (forall i {:trigger s.freeList[i]} :: 0 <= i < |s.freeList| ==> s.envs[s.freeList[i]].status == Free)
    && (forall i, j {:trigger s.freeList[i], s.freeList[j]} ::
      0 <= i < j < |s.freeList| ==> s.freeList[i] != s.freeList[j])
  }

  ghost predicate Inv(s: Sys) {
    Shape(s) && !s.panicked && -1 <= s.lock < |s.cpus| && CpusOk(s) && Apart(s) && Hosted(s) && EnvsOk(s)
  }

  // ---- inside the kernel ----

  /** In the middle of CPU `c`'s stay in the kernel: everything is in order but for `c`'s own environment. */
  ghost predicate Mid(s: Sys, c: nat) {
    && Shape(s) && !s.panicked && c < |s.cpus| && s.lock == c && s.cpus[c].pc.Kernel? && LockOk(s, c)
    && OthersOk(s, c) && Apart2(s, c) && HostedBut(s, c) && EnvsOk(s)
  }

  ghost predicate OthersOk(s: Sys, c: nat)
    requires Shape(s)
  {
    forall d {:trigger s.cpus[d]} :: 0 <= d < |s.cpus| && d != c ==> LockOk(s, d) && CurOk(s, d)
  }

  /** The other CPUs' environments are distinct, and none is `c`'s. */
  ghost predicate Apart2(s: Sys, c: nat) {
    && (forall d, d' {:trigger s.cpus[d], s.cpus[d']} ::
      0 <= d < d' < |s.cpus| && d != c && d' != c && On(s, d) && On(s, d') ==>
          s.cpus[d].cur != s.cpus[d'].cur)
    && (c < |s.cpus| ==> forall d {:trigger s.cpus[d]} ::
      0 <= d < |s.cpus| && d != c && On(s, d) ==> s.cpus[d].cur != s.cpus[c].cur)
  }

  ghost predicate HostsOther(s: Sys, e: int, c: nat) {
    exists d {:trigger s.cpus[d]} :: 0 <= d < |s.cpus| && d != c && On(s, d) && s.cpus[d].cur == e
  }

  ghost predicate HostedBut(s: Sys, c: nat)
    requires Shape(s)
  {
    forall e {:trigger s.envs[e]} :: 0 <= e < NENV && Active(s.envs[e].status) ==>
      HostsOther(s, e, c) || (c < |s.cpus| && e == s.cpus[c].cur && s.envs[e].status == Running)
  }

  // ---- leaving ----

  /** Starting an environment that is on no other CPU. */
  lemma EnvRunOk(s: Sys, c: nat, e: nat)
    requires Mid(s, c) && e < NENV && !HostsOther(s, e, c) && !s.envs[e].recving
    requires s.envs[e].status == Runnable || (e == s.cpus[c].cur && s.envs[e].status == Running)
    ensures Inv(EnvRun(s, c, e))
  {
    var r := EnvRun(s, c, e);
    assert r.cpus[c].cur == e && On(r, c);
    assert forall d :: 0 <= d < |s.cpus| && d != c ==> r.cpus[d] == s.cpus[d];
    EnvRunCpus(s, c, e);
    assert EnvsOk(r) by { assert forall i :: 0 <= i < |s.freeList| ==> s.envs[s.freeList[i]].status == Free; }
    assert Hosted(r) by {
      forall x | 0 <= x < NENV && Active(r.envs[x].status) ensures Hosts(r, x) {
        if x != e {
          assert Active(s.envs[x].status) && HostsOther(s, x, c);
          var d :| 0 <= d < |s.cpus| && d != c && On(s, d) && s.cpus[d].cur == x;
          assert On(r, d) && r.cpus[d].cur == x;
        } else {
          assert On(r, c) && r.cpus[c].cur == x;
        }
      }
    }
  }

  lemma EnvRunCpus(s: Sys, c: nat, e: nat)
    requires Mid(s, c) && e < NENV && !HostsOther(s, e, c)
    ensures var r := EnvRun(s, c, e); |r.cpus| == |s.cpus| && CpusOk(r) && Apart(r)
  {
    var r := EnvRun(s, c, e);
    assert r.cpus[c].cur == e && On(r, c) && LockOk(r, c);
    assert forall d :: 0 <= d < |s.cpus| && d != c ==> r.cpus[d] == s.cpus[d];
    forall d | 0 <= d < |s.cpus| && d != c ensures LockOk(r, d) && CurOk(r, d) && (On(r, d) ==> r.cpus[d].cur != e) {
      assert LockOk(s, d) && CurOk(s, d);
      if On(s, d) { assert s.cpus[d].cur != s.cpus[c].cur && s.cpus[d].cur != e; }
    }
  }

  lemma SchedHaltOk(s: Sys, c: nat)
    requires Mid(s, c) && (s.cpus[c].cur != NONE ==> s.envs[s.cpus[c].cur].status != Running)
    ensures Inv(SchedHalt(s, c))
  {
    var r := SchedHalt(s, c);
    assert forall d :: 0 <= d < |s.cpus| && d != c ==> r.cpus[d] == s.cpus[d];
    assert r.envs == s.envs && !On(r, c);
    forall d | 0 <= d < |s.cpus| ensures LockOk(r, d) && CurOk(r, d) { }
    forall x | 0 <= x < NENV && Active(r.envs[x].status) ensures Hosts(r, x) {
      assert Active(s.envs[x].status) && HostsOther(s, x, c);
      var d :| 0 <= d < |s.cpus| && d != c && On(s, d) && s.cpus[d].cur == x;
      assert On(r, d) && r.cpus[d].cur == x;
    }
  }

  /** An environment that is on another CPU is not runnable. */
  lemma RunnableAlone(s: Sys, c: nat, e: nat)
    requires Mid(s, c) && e < NENV && !Active(s.envs[e].status)
    ensures !HostsOther(s, e, c)
  {
    forall d | 0 <= d < |s.cpus| && d != c && On(s, d) ensures s.cpus[d].cur != e { assert CurOk(s, d); }
  }

  lemma SchedYieldOk(s: Sys, c: nat)
    requires Mid(s, c)
    ensures Inv(SchedYield(s, c))
  {
    var k := Scan(s.envs, Start(s, c), 0);
    var cur := s.cpus[c].cur;
    if k < NENV {
      var e := Slot(Start(s, c), k);
      RunnableAlone(s, c, e);
      EnvRunOk(s, c, e);
    } else if cur != NONE && s.envs[cur].status == Running {
      EnvRunOk(s, c, cur);
    } else {
      SchedHaltOk(s, c);
    }
  }

  lemma ReturnOk(s: Sys, c: nat)
    requires Mid(s, c)
    ensures Inv(Return(s, c))
  {
    var cur := s.cpus[c].cur;
    if cur != NONE && s.envs[cur].status == Running { EnvRunOk(s, c, cur); } else { SchedYieldOk(s, c); }
  }

  // ---- the work between ----

  /** A CPU that has just taken the lock and whose environment is not dying. */
  lemma InvMid(s: Sys, c: nat)
    requires Inv(s) && c < |s.cpus| && s.cpus[c].pc.Kernel? && (On(s, c) ==> s.envs[s.cpus[c].cur].status == Running)
    ensures Mid(s, c)
  {
    assert LockOk(s, c) && CurOk(s, c);
    forall d | 0 <= d < |s.cpus| && d != c && On(s, d) ensures s.cpus[d].cur != s.cpus[c].cur {
      assert CurOk(s, d);
      if On(s, c) { assert c < d || d < c; }
    }
    forall e | 0 <= e < NENV && Active(s.envs[e].status) && !(e == s.cpus[c].cur && s.envs[e].status == Running)
      ensures HostsOther(s, e, c)
    {
      assert Hosts(s, e);
      var d :| 0 <= d < |s.cpus| && On(s, d) && s.cpus[d].cur == e;
      assert d != c;
    }
    forall d | 0 <= d < |s.cpus| && d != c ensures LockOk(s, d) && CurOk(s, d) { var cpu := s.cpus[d]; }
    assert HostedBut(s, c) && OthersOk(s, c) && Apart2(s, c);
  }

  /** The current environment is freed: a zombie's last trap, or its own destruction. */
  lemma FreeCurMid(s: Sys, c: nat)
    requires Inv(s) && c < |s.cpus| && s.cpus[c].pc.Kernel? && On(s, c)
    ensures Mid(WithCur(EnvFree(s, s.cpus[c].cur), c, NONE), c)
  {
    var cur := s.cpus[c].cur;
    var r := WithCur(EnvFree(s, cur), c, NONE);
    assert LockOk(s, c) && CurOk(s, c);
    assert forall d :: 0 <= d < |s.cpus| && d != c ==> r.cpus[d] == s.cpus[d];
    forall d | 0 <= d < |r.cpus| && d != c ensures LockOk(r, d) && CurOk(r, d) {
      assert LockOk(s, d) && CurOk(s, d);
    }
    FreeEnvsOk(s, cur);
    forall e | 0 <= e < NENV && Active(r.envs[e].status) ensures HostsOther(r, e, c) {
      assert Hosts(s, e);
      var d :| 0 <= d < |s.cpus| && On(s, d) && s.cpus[d].cur == e;
      assert d != c && On(r, d) && r.cpus[d].cur == e;
    }
  }

  lemma FreeEnvsOk(s: Sys, e: nat)
    requires Shape(s) && EnvsOk(s) && e < NENV && s.envs[e].status != Free
    ensures EnvsOk(EnvFree(s, e))
  {
    var r := EnvFree(s, e);
    forall i | 0 <= i < |s.freeList| ensures s.freeList[i] != e { }
    assert forall i :: 0 < i < |r.freeList| ==> r.freeList[i] == s.freeList[i - 1];
  }

  /** Which new status of `e` leaves everything in order while CPU `c` is in the kernel. */
  ghost predicate StatusOk(s: Sys, c: nat, e: nat, st: Status)
    requires Shape(s) && c < |s.cpus| && e < NENV
  {
    && (if HostsOther(s, e, c) then Active(st) else if e == s.cpus[c].cur then st != Dying else !Active(st))
    && (s.envs[e].recving ==> st == NotRunnable || st == Free)
  }

  lemma StatusMid(s: Sys, c: nat, e: nat, st: Status)
    requires Mid(s, c) && e < NENV && s.envs[e].status != Free && StatusOk(s, c, e, st)
    ensures Mid(WithStatus(s, e, st), c)
  {
    var r := WithStatus(s, e, st);
    forall d | 0 <= d < |r.cpus| && d != c ensures LockOk(r, d) && CurOk(r, d) {
      assert LockOk(s, d) && CurOk(s, d);
      if On(s, d) && s.cpus[d].cur == e { assert HostsOther(s, e, c); }
    }
    forall x | 0 <= x < NENV && Active(r.envs[x].status) && !(x == r.cpus[c].cur && r.envs[x].status == Running)
      ensures HostsOther(r, x, c)
    {
      assert HostsOther(s, x, c);
      var d :| 0 <= d < |s.cpus| && d != c && On(s, d) && s.cpus[d].cur == x;
      assert On(r, d) && r.cpus[d].cur == x;
    }
    assert EnvsOk(r) by {
      assert forall i :: 0 <= i < |s.freeList| ==> s.freeList[i] != e;
    }
  }

  lemma DestroyOtherMid(s: Sys, c: nat, e: nat)
    requires Mid(s, c) && e < NENV && e != s.cpus[c].cur && s.envs[e].status != Free && s.envs[e].status != Dying
    ensures Mid(DestroyOther(s, e), c)
  {
    if s.envs[e].status == Running {
      assert HostsOther(s, e, c);
      StatusMid(s, c, e, Dying);
    } else {
      RunnableAlone(s, c, e);
      StatusMid(s, c, e, Free);
      FreeEnvsOk(s, e);
      ListMid(WithStatus(s, e, Free), EnvFree(s, e), c);
    }
  }

  /** The free list does not matter to the CPUs. */
  lemma ListMid(s: Sys, r: Sys, c: nat)
    requires Mid(s, c) && Shape(r) && r == s.(freeList := r.freeList) && EnvsOk(r)
    ensures Mid(r, c)
  {
    forall d | 0 <= d < |r.cpus| && d != c ensures LockOk(r, d) && CurOk(r, d) { assert LockOk(s, d) && CurOk(s, d); }
    forall x | 0 <= x < NENV && Active(r.envs[x].status) && !(x == r.cpus[c].cur && r.envs[x].status == Running)
      ensures HostsOther(r, x, c)
    {
      assert HostsOther(s, x, c);
      var d :| 0 <= d < |s.cpus| && d != c && On(s, d) && s.cpus[d].cur == x;
      assert On(r, d) && r.cpus[d].cur == x;
    }
  }

  /** One environment, off every CPU but perhaps `c`, takes a status in which it needs none. */
  lemma IdleMid(s: Sys, r: Sys, c: nat, e: nat, env: Env)
    requires Mid(s, c) && e < NENV && Shape(r) && !HostsOther(s, e, c) && !Active(env.status)
    requires r == s.(envs := s.envs[e := env], freeList := r.freeList, log := r.log) && EnvsOk(r)
    ensures Mid(r, c)
  {
    forall d | 0 <= d < |r.cpus| && d != c ensures LockOk(r, d) && CurOk(r, d) {
      assert LockOk(s, d) && CurOk(s, d);
      if On(s, d) { assert s.cpus[d].cur != e; }
    }
    forall x | 0 <= x < NENV && Active(r.envs[x].status) && !(x == r.cpus[c].cur && r.envs[x].status == Running)
      ensures HostsOther(r, x, c)
    {
      assert HostsOther(s, x, c);
      var d :| 0 <= d < |s.cpus| && d != c && On(s, d) && s.cpus[d].cur == x;
      assert On(r, d) && r.cpus[d].cur == x;
    }
  }

  lemma ExoforkMid(s: Sys, c: nat, memory: bool)
    requires Mid(s, c) && s.cpus[c].cur != NONE
    ensures Mid(DoExofork(s, c, memory), c)
  {
    if s.freeList != [] && memory {
      var e := s.freeList[0];
      var r := DoExofork(s, c, memory);
      RunnableAlone(s, c, e);
      assert EnvsOk(r) by {
        assert forall i :: 0 <= i < |r.freeList| ==> r.freeList[i] == s.freeList[i + 1];
      }
      IdleMid(s, r, c, e, r.envs[e]);
    }
  }

  lemma TrySendMid(s: Sys, c: nat, envid: int, value: int, page: bool)
    requires Mid(s, c) && s.cpus[c].cur != NONE && s.envs[s.cpus[c].cur].status == Running
    ensures Mid(DoTrySend(s, c, envid, value, page), c)
  {
    var e := Lookup(s, c, envid, false);
    if CanSend(s, e, page) {
      var r := DoTrySend(s, c, envid, value, page);
      assert s.envs[e].status == NotRunnable;
      RunnableAlone(s, c, e);
      assert EnvsOk(r) by { assert forall i :: 0 <= i < |s.freeList| ==> s.freeList[i] != e; }
      IdleMid(s, r, c, e, r.envs[e]);
    }
  }

  lemma RecvMid(s: Sys, c: nat)
    requires Mid(s, c) && s.cpus[c].cur != NONE && s.envs[s.cpus[c].cur].status == Running
    ensures Mid(DoRecv(s, c), c)
  {
    var e := s.cpus[c].cur;
    var r := DoRecv(s, c);
    assert !HostsOther(s, e, c);
    assert EnvsOk(r) by { assert forall i :: 0 <= i < |s.freeList| ==> s.freeList[i] != e; }
    IdleMid(s, r, c, e, r.envs[e]);
  }

  // ---- what breaks it ----

  /** What the way out of the kernel does: it may start one environment `k` and stop the current one. */
  ghost predicate WayOut(s: Sys, c: nat, r: Sys) {
    && Shape(s) && Shape(r) && c < |s.cpus| == |r.cpus|
    && (forall d :: 0 <= d < |s.cpus| && d != c ==> r.cpus[d] == s.cpus[d])
    && var (cur, k) := (s.cpus[c].cur, if On(r, c) then r.cpus[c].cur else NONE);
    && (On(r, c) ==>
      0 <= k && (s.envs[k].status == Runnable || (k == cur && s.envs[k].status == Running)) &&
      r.envs[k] == s.envs[k].(status := Running))
    && (forall e :: 0 <= e < NENV && e != cur && e != k ==> r.envs[e] == s.envs[e])
    && (0 <= cur && cur != k ==>
      r.envs[cur] == s.envs[cur].(status := if s.envs[cur].status == Running then Runnable else s.envs[cur].status))
  }

  lemma EnvRunOut(s: Sys, c: nat, e: nat)
    requires Shape(s) && c < |s.cpus| && s.lock == c && s.cpus[c].pc.Kernel? && e < NENV
    requires s.envs[e].status == Runnable || (e == s.cpus[c].cur && s.envs[e].status == Running)
    ensures WayOut(s, c, EnvRun(s, c, e))
  {
    var r := EnvRun(s, c, e);
    assert On(r, c) && r.cpus[c].cur == e;
  }

  lemma SchedYieldOut(s: Sys, c: nat)
    requires Shape(s) && c < |s.cpus| && s.lock == c && s.cpus[c].pc.Kernel?
    ensures WayOut(s, c, SchedYield(s, c))
  {
    var k := Scan(s.envs, Start(s, c), 0);
    var cur := s.cpus[c].cur;
    if k < NENV {
      EnvRunOut(s, c, Slot(Start(s, c), k));
    } else if cur != NONE && s.envs[cur].status == Running {
      EnvRunOut(s, c, cur);
    } else {
      assert WayOut(s, c, SchedHalt(s, c));
    }
  }

  lemma ReturnOut(s: Sys, c: nat)
    requires Shape(s) && c < |s.cpus| && s.lock == c && s.cpus[c].pc.Kernel?
    ensures WayOut(s, c, Return(s, c))
  {
    var cur := s.cpus[c].cur;
    if cur != NONE && s.envs[cur].status == Running { EnvRunOut(s, c, cur); } else { SchedYieldOut(s, c); }
  }

  /** Another CPU's environment has lost its status: nothing repairs that. */
  lemma StolenBreaks(s: Sys, c: nat, r: Sys, d: nat)
    requires WayOut(s, c, r) && d < |s.cpus| && d != c && On(s, d)
    requires s.cpus[d].cur != NONE && s.cpus[d].cur != s.cpus[c].cur && !Active(s.envs[s.cpus[d].cur].status)
    ensures !Inv(r)
  {
    var e := s.cpus[d].cur;
    assert r.cpus[d] == s.cpus[d] && On(r, d);
    if On(r, c) && r.cpus[c].cur == e {
      assert !Apart(r) by { assert r.cpus[c].cur == r.cpus[d].cur && (c < d || d < c); }
    } else {
      assert !CurOk(r, d);
    }
  }

  /** An environment runs or dies on no CPU: nothing repairs that. */
  lemma LostBreaks(s: Sys, c: nat, r: Sys, e: nat)
    requires WayOut(s, c, r) && e < NENV && Active(s.envs[e].status) && !HostsOther(s, e, c)
    requires !(e == s.cpus[c].cur && s.envs[e].status == Running)
    ensures !Inv(r)
  {
    assert r.envs[e] == s.envs[e];
    forall d | 0 <= d < |r.cpus| && On(r, d) ensures r.cpus[d].cur != e {
      if d != c { assert r.cpus[d] == s.cpus[d] && On(s, d); }
    }
    assert !Hosts(r, e);
  }

  lemma RecvBreaks(s: Sys, c: nat, r: Sys, e: nat)
    requires WayOut(s, c, r) && e < NENV && s.envs[e].recving && s.envs[e].status != NotRunnable &&
      s.envs[e].status != Free
    ensures !Inv(r)
  {
    assert r.envs[e].recving && r.envs[e].status != NotRunnable && r.envs[e].status != Free;
  }

  lemma StatusBreaks(s: Sys, c: nat, e: nat, st: Status)
    requires Mid(s, c) && e < NENV && !StatusOk(s, c, e, st)
    ensures !Inv(Return(WithStatus(s, e, st), c))
  {
    var s1 := WithStatus(s, e, st);
    var r := Return(s1, c);
    ReturnOut(s1, c);
    if s.envs[e].recving && st != NotRunnable && st != Free {
      RecvBreaks(s1, c, r, e);
    } else if HostsOther(s, e, c) {
      var d :| 0 <= d < |s.cpus| && d != c && On(s, d) && s.cpus[d].cur == e;
      assert CurOk(s, d) && s.cpus[d].cur != s.cpus[c].cur;
      StolenBreaks(s1, c, r, d);
    } else {
      LostBreaks(s1, c, r, e);
    }
  }

  /** Freeing an environment that is dying on another CPU. */
  lemma SecondDestroyBreaks(s: Sys, c: nat, e: nat)
    requires Mid(s, c) && e < NENV && e != s.cpus[c].cur && s.envs[e].status == Dying
    ensures !Inv(Return(DestroyOther(s, e), c))
  {
    var s1 := DestroyOther(s, e);
    ReturnOut(s1, c);
    assert HostsOther(s, e, c);
    var d :| 0 <= d < |s.cpus| && d != c && On(s, d) && s.cpus[d].cur == e;
    StolenBreaks(s1, c, Return(s1, c), d);
  }

  // ---- steps and runs ----

  /**
   * Which system calls the kernel survives. destroy: not of an environment that is already dying elsewhere.
   * set_status: an environment on another CPU must stay running or dying, one on no CPU must not become so,
   * the caller must not make itself dying, and a receiver must stay not runnable.
   */
  ghost predicate SafeCall(s: Sys, c: nat, call: Call)
    requires Shape(s) && c < |s.cpus| && s.cpus[c].cur != NONE
  {
    match call
    case Destroy(envid) => var e := Lookup(s, c, envid, true); e != NONE ==> s.envs[e].status != Dying
    case SetStatus(envid, status) =>
      var e := Lookup(s, c, envid, true); e != NONE && 0 <= status <= 4 ==> StatusOk(s, c, e, StatusOf(status))
    case _ => true
  }

  ghost predicate Safe(s: Sys, a: Action)
    requires CanStep(s, a)
  {
    a.Run? && s.cpus[a.c].pc.entry.FromUser? && s.envs[s.cpus[a.c].cur].status != Dying &&
      s.cpus[a.c].pc.entry.trap.Syscall? ==>
      SafeCall(s, a.c, s.cpus[a.c].pc.entry.trap.call)
  }

  lemma CallInv(s: Sys, c: nat, call: Call)
    requires Mid(s, c) && Inv(s) && On(s, c) && s.cpus[c].cur != NONE && s.envs[s.cpus[c].cur].status == Running
    ensures Inv(DoCall(s, c, call)) <==> SafeCall(s, c, call)
  {
    match call
    case Yield => SchedYieldOk(s, c);
    case Destroy(envid) =>
      var e := Lookup(s, c, envid, true);
      if e == NONE {
        ReturnOk(s, c);
      } else if e == s.cpus[c].cur {
        FreeCurMid(s, c);
        SchedYieldOk(WithCur(EnvFree(s, e), c, NONE), c);
      } else if s.envs[e].status == Dying {
        SecondDestroyBreaks(s, c, e);
      } else {
        DestroyOtherMid(s, c, e);
        ReturnOk(DestroyOther(s, e), c);
      }
    case Exofork(memory) => ExoforkMid(s, c, memory); ReturnOk(DoExofork(s, c, memory), c);
    case SetStatus(envid, status) => SetStatusInv(s, c, envid, status);
    case TrySend(envid, value, page) => TrySendMid(s, c, envid, value,
      page); ReturnOk(DoTrySend(s, c, envid, value, page), c);
    case Recv(aligned) => if aligned { RecvMid(s, c); SchedYieldOk(DoRecv(s, c), c); } else { ReturnOk(s, c); }
    case Other => ReturnOk(s, c);
  }

  lemma SetStatusInv(s: Sys, c: nat, envid: int, status: int)
    requires Mid(s, c) && s.cpus[c].cur != NONE && s.envs[s.cpus[c].cur].status == Running
    ensures Inv(Return(DoSetStatus(s, c, envid, status), c)) <==> SafeCall(s, c, SetStatus(envid, status))
  {
    var e := Lookup(s, c, envid, true);
    if e == NONE || status < 0 || status > 4 {
      ReturnOk(s, c);
    } else if StatusOk(s, c, e, StatusOf(status)) {
      StatusMid(s, c, e, StatusOf(status));
      ReturnOk(WithStatus(s, e, StatusOf(status)), c);
    } else {
      StatusBreaks(s, c, e, StatusOf(status));
    }
  }

  lemma WorkInv(s: Sys, c: nat)
    requires Inv(s) && CanStep(s, Run(c))
    ensures Inv(Work(s, c)) <==> Safe(s, Run(c))
  {
    assert LockOk(s, c) && CurOk(s, c);
    match s.cpus[c].pc.entry
    case Boot => InvMid(s, c); SchedYieldOk(s, c);
    case FromHalt(timer) => InvMid(s, c); if timer { SchedYieldOk(s, c); } else { ReturnOk(s, c); }
    case FromUser(trap) =>
      var cur := s.cpus[c].cur;
      if s.envs[cur].status == Dying {
        FreeCurMid(s, c);
        SchedYieldOk(WithCur(EnvFree(s, cur), c, NONE), c);
      } else {
        InvMid(s, c);
        match trap
        case Timer => SchedYieldOk(s, c);
        case Device => ReturnOk(s, c);
        case Fault(handled) =>
          if handled {
            EnvRunOk(s, c, cur);
          } else {
            FreeCurMid(s, c);
            SchedYieldOk(WithCur(EnvFree(s, cur), c, NONE), c);
          }
        case Syscall(call) => CallInv(s, c, call);
      }
  }

  /**
   * Entering the kernel, testing, taking or waiting for the lock and leaving change nothing but the CPU's own state.
   */
  lemma WayInv(s: Sys, a: Action)
    requires Inv(s) && CanStep(s, a) && !a.Run?
    ensures Inv(Step(s, a))
  {
    assert LockOk(s, a.c) && CurOk(s, a.c);
    var r := Step(s, a);
    if r != s { OnlyCpu(s, r, a.c); }
  }

  lemma OnlyCpu(s: Sys, r: Sys, c: nat)
    requires Inv(s) && Shape(r) && c < |s.cpus| == |r.cpus| && r == s.(cpus := s.cpus[c := r.cpus[c]], lock := r.lock)
    requires On(r, c) == On(s, c) && r.cpus[c].cur == s.cpus[c].cur &&
      (s.cpus[c].pc.Monitor? <==> r.cpus[c].pc.Monitor?)
    requires LockOk(r, c) && (r.lock == s.lock || (s.lock == NONE && r.lock == c))
    ensures Inv(r)
  {
    forall d | 0 <= d < |r.cpus| ensures LockOk(r, d) && CurOk(r, d) { assert LockOk(s, d) && CurOk(s, d); }
    forall e | 0 <= e < NENV && Active(r.envs[e].status) ensures Hosts(r, e) {
      assert Hosts(s, e);
      var d :| 0 <= d < |s.cpus| && On(s, d) && s.cpus[d].cur == e;
      assert On(r, d) && r.cpus[d].cur == e;
    }
  }

  /** A step keeps the invariant exactly if it is safe. */
  lemma StepInv(s: Sys, a: Action)
    requires Inv(s) && CanStep(s, a)
    ensures Inv(Step(s, a)) <==> Safe(s, a)
  {
    if a.Run? { WorkInv(s, a.c); } else { WayInv(s, a); }
  }

  // ---- the lock ----

  /** Of the two tests of trap() exactly one finds that the lock must be taken. */
  lemma OneTest(s: Sys, c: nat)
    requires Inv(s) && c < |s.cpus| && s.cpus[c].pc.TestHalted?
    ensures s.cpus[c].halted <==> !s.cpus[c].pc.entry.FromUser?
  {
    assert LockOk(s, c);
  }
}
