/** The scheduler's decisions along a run: whoever holds the lock leaves, and a runnable environment is soon chosen. */
module SchedWaiting {
  import opened Sched
  import opened SchedSafety
  import opened SchedRuns

  // ---- the two halves of a stay in the kernel ----

  /** The state in which a system call is done and the CPU turns to leave. */
  function CallDone(s: Sys, c: nat, call: Call): (r: Sys)
    requires Shape(s) && c < |s.cpus| && s.cpus[c].cur != NONE
    ensures Shape(r)
  {
    match call
    case Destroy(envid) =>
      var e := Lookup(s, c, envid, true);
      if e == NONE then s else if e == s.cpus[c].cur then WithCur(EnvFree(s, e), c, NONE) else DestroyOther(s, e)
    case Exofork(memory) => DoExofork(s, c, memory)
    case SetStatus(envid, status) => DoSetStatus(s, c, envid, status)
    case TrySend(envid, value, page) => DoTrySend(s, c, envid, value, page)
    case Recv(aligned) => if aligned then DoRecv(s, c) else s
    case _ => s
  }

  /** The CPU's own environment ends with this trap: it is dying, destroys itself or faults without a handler. */
  predicate OwnEnds(s: Sys, c: nat)
    requires CanStep(s, Run(c))
  {
    s.cpus[c].pc.entry.FromUser? &&
    (|| s.envs[s.cpus[c].cur].status == Dying || s.cpus[c].pc.entry.trap == Fault(false)
     || (var t := s.cpus[c].pc.entry.trap;
         t.Syscall? && t.call.Destroy? && Lookup(s, c, t.call.envid, true) == s.cpus[c].cur))
  }

  /** The state in which the work of a stay in the kernel is done and the CPU turns to leave. */
  function Done(s: Sys, c: nat): (r: Sys)
    requires CanStep(s, Run(c))
    ensures Shape(r)
  {
    if OwnEnds(s, c) then WithCur(EnvFree(s, s.cpus[c].cur), c, NONE)
    else if s.cpus[c].pc.entry.FromUser? && s.cpus[c].pc.entry.trap.Syscall? then
      CallDone(s, c, s.cpus[c].pc.entry.trap.call)
    else s
  }

  /**
   * The scheduler is asked in so many words: by the timer, yield, receive, the end of the environment or at start-up.
   */
  predicate Asked(s: Sys, c: nat)
    requires CanStep(s, Run(c))
  {
    || OwnEnds(s, c) || s.cpus[c].pc.entry.Boot? || s.cpus[c].pc.entry == FromHalt(true)
    || (s.cpus[c].pc.entry.FromUser? && s.cpus[c].pc.entry.trap in {Timer, Syscall(Yield), Syscall(Recv(true))})
  }

  /** The stay ends with a scheduling decision; otherwise the CPU returns to its environment. */
  predicate Decides(s: Sys, c: nat)
    requires CanStep(s, Run(c))
  {
    var t := Done(s, c);
    Asked(s, c) || t.cpus[c].cur == NONE
    || (s.cpus[c].pc.entry != FromUser(Fault(true)) && t.envs[t.cpus[c].cur].status != Running)
  }

  /** `t` differs from `s` in no CPU but for the curenv of `c`. */
  predicate SameCpus(s: Sys, t: Sys, c: nat) {
    && |t.cpus| == |s.cpus| && t.lock == s.lock && c < |s.cpus| &&
      t.cpus == s.cpus[c := s.cpus[c].(cur := t.cpus[c].cur)]
  }

  lemma CallCpus(s: Sys, c: nat, call: Call)
    requires Shape(s) && c < |s.cpus| && s.cpus[c].cur != NONE
    ensures CallDone(s, c, call).lock == s.lock
    ensures CallDone(s, c, call).cpus == s.cpus || CallDone(s, c, call).cpus == s.cpus[c := s.cpus[c].(cur := NONE)]
    ensures !(call.Destroy? && Lookup(s, c, call.envid, true) == s.cpus[c].cur) ==> CallDone(s, c, call).cpus == s.cpus
  {
  }

  lemma DoneCpus(s: Sys, c: nat)
    requires CanStep(s, Run(c))
    ensures var t := Done(s, c); SameCpus(s, t, c) && t.cpus[c].cur == (if OwnEnds(s, c) then NONE else s.cpus[c].cur)
  {
    var entry := s.cpus[c].pc.entry;
    if !OwnEnds(s, c) {
      assert s.cpus[c := s.cpus[c].(cur := s.cpus[c].cur)] == s.cpus;
      if entry.FromUser? && entry.trap.Syscall? { CallCpus(s, c, entry.trap.call); }
    }
  }

  lemma CallHalves(s: Sys, c: nat, call: Call)
    requires CanStep(s, Run(c)) && s.cpus[c].pc.entry == FromUser(Syscall(call)) &&
      s.envs[s.cpus[c].cur].status != Dying
    ensures DoCall(s, c, call) == if Asked(s, c) then SchedYield(Done(s, c), c) else Return(Done(s, c), c)
  {
  }

  /** What trap() does between taking the lock and giving it up is its work and then the way out. */
  lemma WorkHalves(s: Sys, c: nat)
    requires CanStep(s, Run(c))
    ensures var t := Done(s, c); SameCpus(s, t, c) && t.cpus[c].cur == (if OwnEnds(s, c) then NONE else s.cpus[c].cur)
    ensures var t := Done(s, c); !Decides(s, c) ==> t.cpus[c].cur != NONE
    ensures var t := Done(s, c); Work(s, c) == if Decides(s, c) then SchedYield(t, c) else EnvRun(t, c, t.cpus[c].cur)
  {
    DoneCpus(s, c);
    var entry := s.cpus[c].pc.entry;
    if entry.FromUser? && entry.trap.Syscall? && s.envs[s.cpus[c].cur].status != Dying {
      CallHalves(s, c, entry.trap.call);
    }
  }

  /** CPU `c` has given the lock up, or is in the monitor for good. */
  predicate HasLeft(r: Sys, c: nat) {
    c < |r.cpus| && ((r.cpus[c].pc.Leaving? && r.lock == NONE) || (r.cpus[c].pc.Monitor? && r.lock == c))
  }

  lemma EnvRunLeaves(t: Sys, c: nat, e: nat)
    requires Shape(t) && c < |t.cpus| && t.lock == c && e < NENV
    ensures HasLeft(EnvRun(t, c, e), c) && EnvRun(t, c, e).panicked == t.panicked
  {
  }

  lemma YieldLeaves(t: Sys, c: nat)
    requires Shape(t) && c < |t.cpus| && t.lock == c
    ensures HasLeft(SchedYield(t, c), c) && SchedYield(t, c).panicked == t.panicked
  {
    var k := Scan(t.envs, Start(t, c), 0);
    var cur := t.cpus[c].cur;
    if k < NENV { EnvRunLeaves(t, c, Slot(Start(t, c), k)); } else if cur != NONE { EnvRunLeaves(t, c, cur); }
  }

  /** Whoever holds the lock comes to the end of its work, and does not panic on the way. */
  lemma WorkLeaves(s: Sys, c: nat)
    requires CanStep(s, Run(c)) && s.lock == c
    ensures HasLeft(Step(s, Run(c)), c) && Step(s, Run(c)).panicked == s.panicked
  {
    WorkHalves(s, c);
    var t := Done(s, c);
    if Decides(s, c) { YieldLeaves(t, c); } else { EnvRunLeaves(t, c, t.cpus[c].cur); }
  }

  // ---- bounded waiting ----

  /** How far `e` is from `start` in circular order. */
  function Distance(start: nat, e: nat): (d: nat)
    requires start < NENV && e < NENV
    ensures d < NENV && Slot(start, d) == e
  {
    if e >= start then e - start else e + 1024 - start
  }

  /** The environment a scheduling decision picks while others are runnable. */
  function Chosen(s: Sys, c: nat): (e: nat)
    requires Shape(s) && c < |s.cpus|
    ensures e < NENV
  {
    Slot(Start(s, c), Scan(s.envs, Start(s, c), 0))
  }

  /** If any environment is runnable, sched_yield runs one. */
  lemma ChosenRuns(s: Sys, c: nat, e: nat)
    requires Shape(s) && c < |s.cpus| && s.lock == c && e < NENV && s.envs[e].status == Runnable
    ensures var r := SchedYield(s, c); r == EnvRun(s, c, Chosen(s, c)) && s.envs[Chosen(s, c)].status == Runnable
  {
    ScanReaches(s, c, e);
  }

  lemma ScanReaches(s: Sys, c: nat, e: nat)
    requires Shape(s) && c < |s.cpus| && e < NENV && s.envs[e].status == Runnable
    ensures Start(s, c) < NENV && Scan(s.envs, Start(s, c), 0) <= Distance(Start(s, c), e)
  {
    var start := Start(s, c);
    var d := Distance(start, e);
    assert s.envs[Slot(start, d)].status == Runnable;
  }

  /** From the slot after the one chosen, `e` is nearer. */
  lemma ComesNearer(s: Sys, c: nat, e: nat)
    requires Shape(s) && c < |s.cpus| && e < NENV && s.envs[e].status == Runnable && Chosen(s, c) != e
    ensures Start(s, c) < NENV && Distance((Chosen(s, c) + 1) % 1024, e) < Distance(Start(s, c), e)
  {
    ScanReaches(s, c, e);
    var start, k := Start(s, c), Scan(s.envs, Start(s, c), 0);
    assert k != Distance(start, e);
  }

  /** How far CPU `c`'s next search begins from `e`. */
  ghost function Gap(s: Sys, c: nat, e: nat): nat
    requires Shape(s) && c < |s.cpus| && e < NENV
  {
    Distance(Start(s, c), e)
  }

  /** The number of scheduling decisions CPU `c` makes in a run. */
  ghost function Decisions(s: Sys, acts: seq<Action>, c: nat): nat
    requires IsRun(s, acts)
    decreases |acts|
  {
    if acts == [] then 0
    else (if acts[0] == Run(c) && Decides(s, c) then 1 else 0) + Decisions(Step(s, acts[0]), acts[1..], c)
  }

  /** Environment `e` is runnable in every state of the run. */
  ghost predicate StaysRunnable(s: Sys, acts: seq<Action>, e: nat)
    requires IsRun(s, acts)
    decreases |acts|
  {
    && e < |s.envs| && s.envs[e].status == Runnable
    && (acts != [] ==> StaysRunnable(Step(s, acts[0]), acts[1..], e))
  }

  /** No environment ends while it is CPU `c`'s own. */
  ghost predicate KeepsOwn(s: Sys, acts: seq<Action>, c: nat)
    requires IsRun(s, acts)
    decreases |acts|
  {
    acts != [] ==> (acts[0] == Run(c) ==> !OwnEnds(s, c)) && KeepsOwn(Step(s, acts[0]), acts[1..], c)
  }

  lemma YieldNearer(t: Sys, c: nat, e: nat, r: Sys)
    requires Shape(t) && c < |t.cpus| && t.lock == c && e < NENV && r == SchedYield(t, c) && IdsOk(r)
    requires t.envs[e].status == Runnable && r.envs[e].status == Runnable && e != t.cpus[c].cur
    ensures c < |r.cpus| && Gap(r, c, e) < Gap(t, c, e)
  {
    ChosenRuns(t, c, e);
    var k := Chosen(t, c);
    assert r.cpus[c].cur == k && r.envs[k].status == Running && k != e;
    ComesNearer(t, c, e);
  }

  /** A runnable environment that was not chosen was runnable before. */
  lemma WasRunnable(t: Sys, c: nat, e: nat)
    requires Shape(t) && c < |t.cpus| && t.lock == c && t.cpus[c].pc.Kernel? && e < NENV && e != t.cpus[c].cur
    requires SchedYield(t, c).envs[e].status == Runnable
    ensures t.envs[e].status == Runnable
  {
    SchedYieldOut(t, c);
  }

  /** No call changes the id of its caller. */
  lemma OwnId(s: Sys, c: nat)
    requires Inv(s) && CanStep(s, Run(c)) && !OwnEnds(s, c) && s.cpus[c].cur != NONE
    ensures Done(s, c).envs[s.cpus[c].cur].id == s.envs[s.cpus[c].cur].id
  {
    assert CurOk(s, c);
    assert forall i :: 0 <= i < |s.freeList| ==> s.envs[s.freeList[i]].status == Free;
  }

  /** A decision that passes over `e` brings CPU `c`'s search nearer to it. */
  lemma DecisionNearer(s: Sys, c: nat, e: nat)
    requires Inv(s) && CanStep(s, Run(c)) && Safe(s, Run(c)) && Decides(s, c) && !OwnEnds(s, c)
    requires e < NENV && s.envs[e].status == Runnable && Step(s, Run(c)).envs[e].status == Runnable
    ensures var r := Step(s, Run(c)); c < |r.cpus| && Gap(r, c, e) < Gap(s, c, e)
  {
    WorkHalves(s, c);
    StepInv(s, Run(c));
    var t, r := Done(s, c), Step(s, Run(c));
    assert LockOk(s, c) && CurOk(s, c);
    if s.cpus[c].cur != NONE { OwnId(s, c); }
    assert e != t.cpus[c].cur && IdsOk(r);
    WasRunnable(t, c, e);
    YieldNearer(t, c, e, r);
    assert Start(t, c) == Start(s, c);
  }

  lemma ReturnSame(s: Sys, c: nat)
    requires Inv(s) && CanStep(s, Run(c)) && !Decides(s, c) && !OwnEnds(s, c)
    ensures var r := Step(s, Run(c)); c < |r.cpus| && Start(r, c) == Start(s, c)
  {
    WorkHalves(s, c);
    OwnId(s, c);
    var t := Done(s, c);
    EnvRunOthers(t, c, t.cpus[c].cur);
    assert LockOk(s, c);
  }

  /** Any other step leaves CPU `c`'s search where it is. */
  lemma OtherSame(s: Sys, a: Action, c: nat, e: nat)
    requires Inv(s) && CanStep(s, a) && Safe(s, a) && c < |s.cpus| && e < NENV
    requires a == Run(c) ==> !Decides(s, c) && !OwnEnds(s, c)
    ensures var r := Step(s, a); c < |r.cpus| && Gap(r, c, e) == Gap(s, c, e)
  {
    StepInv(s, a);
    StepOthers(s, a);
    assert LockOk(s, a.c) && LockOk(s, c);
    if a.Run? && a.c != c { SameGap(s, Step(s, a), c); }
    if a == Run(c) { ReturnSame(s, c); }
  }

  /** The way out of the kernel concerns no other CPU. */
  lemma YieldOthers(t: Sys, d: nat)
    requires Shape(t) && d < |t.cpus|
    ensures var r := SchedYield(t, d); |r.cpus| == |t.cpus| && r.cpus == t.cpus[d := r.cpus[d]]
  {
  }

  lemma EnvRunOthers(t: Sys, d: nat, e: nat)
    requires Shape(t) && d < |t.cpus| && e < NENV
    ensures var r := EnvRun(t, d, e); |r.cpus| == |t.cpus| && r.cpus == t.cpus[d := r.cpus[d]]
  {
  }

  lemma StepOthers(s: Sys, a: Action)
    requires CanStep(s, a)
    ensures var r := Step(s, a);
      |r.cpus| == |s.cpus| && forall c :: 0 <= c < |s.cpus| && c != a.c ==> r.cpus[c] == s.cpus[c]
  {
    if a.Run? {
      WorkHalves(s, a.c);
      var t := Done(s, a.c);
      if Decides(s, a.c) { YieldOthers(t, a.c); } else { EnvRunOthers(t, a.c, t.cpus[a.c].cur); }
    }
  }

  lemma SameGap(s: Sys, r: Sys, c: nat)
    requires Inv(s) && Inv(r) && c < |s.cpus| == |r.cpus| && r.cpus[c] == s.cpus[c] && !s.cpus[c].pc.Monitor?
    ensures Start(r, c) == Start(s, c)
  {
    assert CurOk(s, c) && CurOk(r, c);
    var cur := s.cpus[c].cur;
    if On(s, c) { assert s.envs[cur].id % 1024 == cur && r.envs[cur].id % 1024 == cur; }
  }

  /** A runnable environment is passed over by CPU `c` at most as often as it is far. */
  lemma {:induction false} PassedOver(s: Sys, acts: seq<Action>, c: nat, e: nat)
    requires Inv(s) && IsRun(s, acts) && SafeRun(s, acts) && c < |s.cpus| && e < NENV
    requires StaysRunnable(s, acts, e) && KeepsOwn(s, acts, c)
    ensures Decisions(s, acts, c) <= Gap(s, c, e)
    decreases |acts|
  {
    if acts != [] {
      var a := acts[0];
      StepInv(s, a);
      if a == Run(c) && Decides(s, c) { DecisionNearer(s, c, e); } else { OtherSame(s, a, c, e); }
      PassedOver(Step(s, a), acts[1..], c, e);
    }
  }

  /**
   * On every run from start-up, and from whatever point of it on: as long as an environment stays runnable, a CPU whose
   * own environments do not end makes fewer than NENV scheduling decisions, whatever the other CPUs do.
   */
  lemma BoundedWaiting(s: Sys, before: seq<Action>, acts: seq<Action>, c: nat, e: nat)
    requires Booted(s) && IsRun(s, before) && SafeRun(s, before) && c < |s.cpus| && e < NENV
    requires var t := Execute(s, before);
      IsRun(t, acts) && SafeRun(t, acts) && StaysRunnable(t, acts, e) && KeepsOwn(t, acts, c)
    ensures Decisions(Execute(s, before), acts, c) < NENV
  {
    BootedInv(s);
    RunInv(s, before);
    SameNumber(s, before);
    PassedOver(Execute(s, before), acts, c, e);
  }

  lemma {:induction false} SameNumber(s: Sys, acts: seq<Action>)
    requires Inv(s) && IsRun(s, acts) && SafeRun(s, acts)
    ensures |Execute(s, acts).cpus| == |s.cpus|
    decreases |acts|
  {
    if acts != [] {
      var a := acts[0];
      StepInv(s, a);
      StepOthers(s, a);
      SameNumber(Step(s, a), acts[1..]);
    }
  }
}
