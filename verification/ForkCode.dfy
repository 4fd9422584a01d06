/** fork() as the parent executes it, undisturbed: its loop is a run of the copy-on-write step system. */
module ForkCode {
  import opened Vm
  import opened Syscalls
  import opened CowFork
  import opened CowInvariant
  import opened CowForkSteps
  import opened CowTheorem
  import opened Pmap

  lemma {:induction false} RunAppend(s: Sys, acts: seq<Action>, act: Action)
    requires WF(s) && IsRun(s, acts) && CanStep(Execute(s, acts), act)
    ensures IsRun(s, acts + [act]) && Execute(s, acts + [act]) == Step(Execute(s, acts), act).0
    decreases |acts|
  {
    if acts == [] {
      assert acts + [act] == [act];
    } else {
      assert (acts + [act])[1..] == acts[1..] + [act];
      RunAppend(Step(s, acts[0]).0, acts[1..], act);
    }
  }

  /** The kernel `k` is in the state `st`, in which `e` is at `fk` of its fork and the eager machine agrees. */
  ghost predicate At(k: Kernel, st: Sys, a: Eager, e: EnvId, fk: Fork)
    reads k, k.ppRef, k.ppLink, k.tables, k.bytes
  {
    && k.Repr() && st.vm == k.Snap() && Sim(st, a)
    && Runs(st, e) && st.procs[e].fork == fk && !fk.NoFork? && fk.child in st.procs
  }

  ghost predicate Over(t: Sys, e: EnvId) {
    e in t.procs && t.procs[e].fork.NoFork?
  }

  /** The kernel after a fork that gave up: the child does not run. */
  ghost predicate Abandoned(k: Kernel, t: Sys, b: Eager, e: EnvId, c: EnvId)
    reads k, k.ppRef, k.ppLink, k.tables, k.bytes
  {
    k.Repr() && t.vm == k.Snap() && Sim(t, b) && !Running(t.procs, c) && Over(t, e)
  }

  /** All of a run's actions are steps of `e`'s fork. */
  ghost predicate ForkRun(s: Sys, acts: seq<Action>, e: EnvId, t: Sys)
    requires WF(s)
  {
    (forall i :: 0 <= i < |acts| ==> acts[i] == ForkStep(e)) && IsRun(s, acts) && t == Execute(s, acts)
  }

  lemma ForkRunOne(t: Sys, e: EnvId)
    requires WF(t) && CanStep(t, ForkStep(e))
    ensures ForkRun(t, [ForkStep(e)], e, ForkLoopStep(t, e).0)
  {
    RunAppend(t, [], ForkStep(e));
    assert [] + [ForkStep(e)] == [ForkStep(e)];
  }

  lemma {:induction false} ForkRunJoin(s: Sys, acts: seq<Action>, e: EnvId, t: Sys, more: seq<Action>, u: Sys)
    requires WF(s) && ForkRun(s, acts, e, t) && ForkRun(t, more, e, u)
    ensures ForkRun(s, acts + more, e, u)
    decreases |more|
  {
    if more == [] {
      assert acts + more == acts;
    } else {
      RunAppend(s, acts, more[0]);
      assert acts + more == acts + [more[0]] + more[1..];
      ForkRunJoin(s, acts + [more[0]], e, Step(t, more[0]).0, more[1..], u);
    }
  }

  /** The first call of duppage, on all three machines. */
  lemma GiveBoth(st: Sys, a: Eager, e: EnvId, c: EnvId, pn: nat) returns (t: Sys, b: Eager)
    requires Sim(st, a) && Runs(st, e) && st.procs[e].fork == Next(c, pn) && Region(pn) && Xlate(st.vm, e, pn).Entry?
    requires c in st.procs
    ensures ForkRun(st, [ForkStep(e)], e, t) && Sim(t, b)
    ensures var x := Xlate(st.vm, e, pn);
      var (v, code) := SysPageMap(st.vm, Some(e), pn, Some(c), pn, ChildPerm(x.perm));
      t.vm == v && t.procs == st.procs[e := st.procs[e].(fork := if code == Ok then AfterGive(x, c, pn) else NoFork)]
  {
    ForkRunOne(st, e);
    GiveStep(st, e, c, pn);
    ForkGiveSim(st, a, e, c, pn);
    t, b := ForkLoopStep(st, e).0, EagerStep(a, ForkLoopStep(st, e).1);
  }

  lemma MarkStep(st: Sys, e: EnvId, c: EnvId, pn: nat, wasW: bool)
    requires WF(st) && e in st.procs && st.procs[e].fork == Mark(c, pn, wasW) && c in st.procs
    requires SysPageMap(st.vm, Some(e), pn, Some(e), pn, COW).1 == Ok
    ensures var t := ForkLoopStep(st, e).0;
      && t.vm == SysPageMap(st.vm, Some(e), pn, Some(e), pn, COW).0
      && t.procs == st.procs[e := st.procs[e].(fork := Next(c, pn + 1))]
  {
  }

  /** The second call of duppage, which cannot fail. */
  lemma MarkBoth(st: Sys, a: Eager, e: EnvId, c: EnvId, pn: nat, wasW: bool) returns (t: Sys, b: Eager)
    requires Sim(st, a) && Runs(st, e) && st.procs[e].fork == Mark(c, pn, wasW) && c in st.procs
    ensures ForkRun(st, [ForkStep(e)], e, t) && Sim(t, b)
    ensures t.vm == SysPageMap(st.vm, Some(e), pn, Some(e), pn, COW).0
    ensures t.procs == st.procs[e := st.procs[e].(fork := Next(c, pn + 1))]
  {
    ForkRunOne(st, e);
    MarkOnMap(st, e, c, pn, wasW);
    MarkStep(st, e, c, pn, wasW);
    ForkMarkSim(st, a, e, c, pn, wasW);
    t, b := ForkLoopStep(st, e).0, EagerStep(a, ForkLoopStep(st, e).1);
  }

  /** Re-mark the parent's mapping. */
  method MarkPage(k: Kernel, e: EnvId, c: EnvId, pn: nat, wasW: bool, ghost st: Sys, ghost a: Eager)
    returns (ghost t: Sys, ghost b: Eager, ghost acts: seq<Action>)
    requires At(k, st, a, e, Mark(c, pn, wasW))
    modifies k`pageFreeList, k`freeSeq, k.ppRef, k.ppLink, k.tables, k.bytes
    ensures ForkRun(st, acts, e, t) && At(k, t, b, e, Next(c, pn + 1))
  {
    acts := [ForkStep(e)];
    t, b := MarkBoth(st, a, e, c, pn, wasW);
    var code := k.SysPageMap(Some(e), pn, Some(e), pn, COW);
  }

  /** Hand the child its mapping. */
  method GivePage(k: Kernel, e: EnvId, c: EnvId, pn: nat, x: Pte, ghost st: Sys, ghost a: Eager)
    returns (ok: bool, ghost t: Sys, ghost b: Eager, ghost acts: seq<Action>)
    requires At(k, st, a, e, Next(c, pn)) && Region(pn) && x == Xlate(st.vm, e, pn) && x.Entry?
    modifies k`pageFreeList, k`freeSeq, k.ppRef, k.ppLink, k.tables, k.bytes
    ensures ForkRun(st, acts, e, t)
    ensures if ok then At(k, t, b, e, AfterGive(x, c, pn))
            else Abandoned(k, t, b, e, c)
  {
    acts := [ForkStep(e)];
    SimPoised(st, a, e);
    t, b := GiveBoth(st, a, e, c, pn);
    var code := k.SysPageMap(Some(e), pn, Some(c), pn, ChildPerm(x.perm));
    ok := code == Ok;
  }

  /** duppage: one or two system calls, matching one or two steps. */
  method Duppage(k: Kernel, e: EnvId, c: EnvId, pn: nat, x: Pte, ghost st: Sys, ghost a: Eager)
    returns (ok: bool, ghost t: Sys, ghost b: Eager, ghost acts: seq<Action>)
    requires At(k, st, a, e, Next(c, pn)) && Region(pn) && x == Xlate(st.vm, e, pn) && x.Entry?
    modifies k`pageFreeList, k`freeSeq, k.ppRef, k.ppLink, k.tables, k.bytes
    ensures ForkRun(st, acts, e, t)
    ensures if ok then At(k, t, b, e, Next(c, pn + 1))
            else Abandoned(k, t, b, e, c)
  {
    assert AfterGive(x, c, pn) == if ChildPerm(x.perm) == COW then Mark(c, pn, x.perm.w) else Next(c, pn + 1);
    ok, t, b, acts := GivePage(k, e, c, pn, x, st, a);
    if ok && ChildPerm(x.perm) == COW {
      t, b, acts := MarkAfter(k, e, c, pn, x.perm.w, st, acts, t, b);
    }
  }

  /** The second call of duppage, after a run `before` that made the first. */
  method MarkAfter(k: Kernel, e: EnvId, c: EnvId, pn: nat, wasW: bool, ghost s: Sys, ghost before: seq<Action>,
      ghost st: Sys, ghost a: Eager)
    returns (ghost t: Sys, ghost b: Eager, ghost acts: seq<Action>)
    requires WF(s) && ForkRun(s, before, e, st) && At(k, st, a, e, Mark(c, pn, wasW))
    modifies k`pageFreeList, k`freeSeq, k.ppRef, k.ppLink, k.tables, k.bytes
    ensures ForkRun(s, acts, e, t) && At(k, t, b, e, Next(c, pn + 1))
  {
    ghost var more := [];
    t, b, more := MarkPage(k, e, c, pn, wasW, st, a);
    ForkRunJoin(s, before, e, st, more, t);
    acts := before + more;
  }

  /** An unmapped page: the loop only moves on. */
  lemma SkipBoth(st: Sys, a: Eager, e: EnvId, c: EnvId, pn: nat) returns (t: Sys, b: Eager)
    requires Sim(st, a) && Runs(st, e) && st.procs[e].fork == Next(c, pn) && Region(pn) && Xlate(st.vm, e, pn).Zero?
    requires c in st.procs
    ensures ForkRun(st, [ForkStep(e)], e, t) && Sim(t, b)
    ensures t.vm == st.vm && t.procs == st.procs[e := st.procs[e].(fork := Next(c, pn + 1))]
  {
    ForkRunOne(st, e);
    ForkSkipSim(st, a, e, c, pn);
    t, b := ForkLoopStep(st, e).0, EagerStep(a, ForkLoopStep(st, e).1);
  }

  /** The exception stack page and the new status, on both machines. */
  lemma EndBoth(st: Sys, a: Eager, e: EnvId, c: EnvId) returns (t: Sys, b: Eager)
    requires Sim(st, a) && Runs(st, e) && st.procs[e].fork == Next(c, USTACKTOP) && c in st.procs
    ensures ForkRun(st, [ForkStep(e)], e, t) && Sim(t, b) && Over(t, e)
    ensures var (v, code) := SysPageAlloc(st.vm, Some(c), UXSTACK, RW);
      t.vm == v && (Running(t.procs, c) <==> code == Ok)
  {
    ForkRunOne(st, e);
    ForkEndSim(st, a, e, c);
    t, b := ForkLoopStep(st, e).0, EagerStep(a, ForkLoopStep(st, e).1);
  }

  /** One round of fork()'s loop. */
  method ForkPage(k: Kernel, e: EnvId, c: EnvId, pn: nat, ghost st: Sys, ghost a: Eager)
    returns (ok: bool, ghost t: Sys, ghost b: Eager, ghost acts: seq<Action>)
    requires At(k, st, a, e, Next(c, pn)) && Region(pn)
    modifies k`pageFreeList, k`freeSeq, k.ppRef, k.ppLink, k.tables, k.bytes
    ensures ForkRun(st, acts, e, t)
    ensures if ok then At(k, t, b, e, Next(c, pn + 1)) else Abandoned(k, t, b, e, c)
  {
    var x := k.PageLookup(e, pn);
    if x.Entry? {
      ok, t, b, acts := Duppage(k, e, c, pn, x, st, a);
    } else {
      t, b := SkipBoth(st, a, e, c, pn);
      ok, acts := true, [ForkStep(e)];
    }
  }

  /** The loop of fork() over the pages from UTEXT to USTACKTOP. */
  method ForkLoop(k: Kernel, e: EnvId, c: EnvId, ghost st: Sys, ghost a: Eager)
    returns (ok: bool, ghost t: Sys, ghost b: Eager, ghost acts: seq<Action>)
    requires At(k, st, a, e, Next(c, UTEXT))
    modifies k`pageFreeList, k`freeSeq, k.ppRef, k.ppLink, k.tables, k.bytes
    ensures ForkRun(st, acts, e, t)
    ensures if ok then At(k, t, b, e, Next(c, USTACKTOP)) else Abandoned(k, t, b, e, c)
  {
    t, b, acts, ok := st, a, [], true;
    var pn := UTEXT;
    while pn < USTACKTOP
      invariant UTEXT <= pn <= USTACKTOP && ok
      invariant ForkRun(st, acts, e, t)
      invariant At(k, t, b, e, Next(c, pn))
    {
      ghost var t1, more := t, [];
      ok, t, b, more := ForkPage(k, e, c, pn, t1, b);
      ForkRunJoin(st, acts, e, t1, more, t);
      acts := acts + more;
      if !ok {
        return;
      }
      pn := pn + 1;
    }
  }

  /** The kernel after a fork that is over, with or without success. */
  ghost predicate Finished(k: Kernel, t: Sys, b: Eager, e: EnvId, c: EnvId, ok: bool)
    reads k, k.ppRef, k.ppLink, k.tables, k.bytes
  {
    k.Repr() && t.vm == k.Snap() && Sim(t, b) && Over(t, e) && (ok <==> Running(t.procs, c))
  }

  /** The exception stack of the child and its new status. */
  method ForkEnd(k: Kernel, e: EnvId, c: EnvId, ghost st: Sys, ghost a: Eager)
    returns (ok: bool, ghost t: Sys, ghost b: Eager)
    requires At(k, st, a, e, Next(c, USTACKTOP))
    modifies k`pageFreeList, k`freeSeq, k.ppRef, k.ppLink, k.tables, k.bytes
    ensures ForkRun(st, [ForkStep(e)], e, t) && Finished(k, t, b, e, c, ok)
  {
    t, b := EndBoth(st, a, e, c);
    var code := k.SysPageAlloc(Some(c), UXSTACK, RW);
    ok := code == Ok;
  }

  /** What follows the creation of the child: the loop, the exception stack and the new status. */
  method ForkRest(k: Kernel, e: EnvId, c: EnvId, ghost st: Sys, ghost a: Eager)
    returns (ok: bool, ghost t: Sys, ghost b: Eager, ghost acts: seq<Action>)
    requires At(k, st, a, e, Next(c, UTEXT))
    modifies k`pageFreeList, k`freeSeq, k.ppRef, k.ppLink, k.tables, k.bytes
    ensures ForkRun(st, acts, e, t) && Finished(k, t, b, e, c, ok)
  {
    ok, t, b, acts := ForkLoop(k, e, c, st, a);
    if ok {
      ghost var t1 := t;
      ok, t, b := ForkEnd(k, e, c, t1, b);
      ForkRunJoin(st, acts, e, t1, [ForkStep(e)], t);
      acts := acts + [ForkStep(e)];
    }
  }

  /**
   * fork(): create the child, hand over the pages, give it an exception stack and let it run. Every byte the
   * child then sees from UTEXT to USTACKTOP is the parent's byte from before the call. The call is a complete run of
   * fork steps, so it also fails just where that run does.
   */
  method ForkCall(k: Kernel, e: EnvId, c: EnvId, ghost procs: Procs, ghost a: Eager)
    returns (ok: bool, ghost t: Sys, ghost b: Eager, ghost acts: seq<Action>)
    requires k.Repr() && Sim(Sys(k.Snap(), procs), a) && CanStep(Sys(k.Snap(), procs), ForkStart(e, c))
    modifies k`pageFreeList, k`freeSeq, k`envPgdir, k.ppRef, k.ppLink, k.tables, k.bytes
    ensures ForkRun(ForkStartStep(Sys(old(k.Snap()), procs), e, c), acts, e, t) && Finished(k, t, b, e, c, ok)
    ensures ok ==> forall pn: nat :: Region(pn) ==> View(t, c, pn) == View(Sys(old(k.Snap()), procs), e, pn)
  {
    ghost var s := Sys(k.Snap(), procs);
    ForkStartSim(s, a, e, c);
    StartedFork(s, e, c);
    ghost var s1 := ForkStartStep(s, e, c);
    ok := k.EnvSetupVm(c);
    t, b, acts := s1, a, [];
    if ok {
      ok, t, b, acts := ForkRest(k, e, c, s1, a);
      if ok {
        ForkSees(s, a, e, c, acts, t);
      }
    }
  }

  lemma ForkSees(s: Sys, a: Eager, e: EnvId, c: EnvId, acts: seq<Action>, t: Sys)
    requires Sim(s, a) && CanStep(s, ForkStart(e, c)) && ForkRun(ForkStartStep(s, e, c), acts, e, t) &&
      Running(t.procs, c)
    ensures forall pn: nat :: Region(pn) ==> View(t, c, pn) == View(s, e, pn)
  {
    var all := [ForkStart(e, c)] + acts;
    assert all[1..] == acts;
    assert IsRun(s, all) && Execute(s, all) == t;
    forall pn: nat | Region(pn) ensures View(t, c, pn) == View(s, e, pn) {
      ForkAlone(s, a, e, c, acts, pn);
    }
  }
}
