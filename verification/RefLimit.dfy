/** How far sixteen bits reach: a run that maps one page until its reference count wraps. */
module RefLimit {
  import opened Vm
  import opened VmFacts
  import opened EnvFacts
  import opened Syscalls
  import opened Pmap

  const RW := Perm(true, false, false)

  /** page_insert at an unmapped address raises the page's count and takes at most one page. */
  lemma InsertCounts(vm: Vm, e: EnvId, p: nat, pn: nat, perm: Perm)
    requires Valid(vm) && e in vm.dir && pn < USERPAGES && p < |vm.ref| && p !in vm.free && Xlate(vm, e, pn).Zero? &&
      vm.free != []
    ensures var (v, ok) := PageInsert(vm, e, p, pn, perm);
      ok && v.ref[p] == Inc16(vm.ref[p]) && |v.free| >= |vm.free| - 1
  {
    PgdirWalkFacts(vm, e, pn);
    var (w, t) := PgdirWalk(vm, e, pn);
    assert vm.free[0] in vm.free;
    assert Xlate(w, e, pn).Zero? && w.ref[p] == vm.ref[p];
  }

  /** Page `p` has `n` references, all of them mappings of environment `e` below its user page `n`. */
  ghost predicate Many(vm: Vm, e: EnvId, p: nat, n: nat) {
    && Valid(vm) && e in vm.dir && Xlate(vm, e, 0).Entry? && Xlate(vm, e, 0).page == p && p < |vm.ref| && vm.ref[p] == n
    && (forall pn: nat {:trigger Xlate(vm, e, pn)} :: n <= pn ==> Xlate(vm, e, pn).Zero?) && |vm.free| + n >= 65536
  }

  lemma OneMore(vm: Vm, e: EnvId, p: nat, n: nat)
    requires Many(vm, e, p, n) && 0 < n < 65535
    ensures var (v, c) := SysPageMap(vm, Some(e), 0, Some(e), n, RW); c == Ok && Many(v, e, p, n + 1)
  {
    MappedIsData(vm, e, 0);
    InsertCounts(vm, e, p, n, RW);
    SysPageMapFacts(vm, Some(e), 0, Some(e), n, RW);
  }

  lemma {:induction false} RunAppend(vm: Vm, calls: seq<Call>, c: Call)
    requires Shape(vm) && SafeRun(vm, calls) && Enabled(Run(vm, calls), c) && Safe(Run(vm, calls), c)
    ensures SafeRun(vm, calls + [c]) && Run(vm, calls + [c]) == Apply(Run(vm, calls), c)
    decreases |calls|
  {
    if calls == [] {
      assert calls + [c] == [c];
    } else {
      assert (calls + [c])[1..] == calls[1..] + [c];
      RunAppend(Apply(vm, calls[0]), calls[1..], c);
    }
  }

  /** A kernel with 65540 free pages and nothing else. */
  ghost function Empty(): Vm {
    Vm(seq(65540, i => 0), seq(65540, i => i), seq(65540, i => ZeroRow()), seq(65540, i => ZeroPage()), map[], {})
  }

  lemma EmptyValid()
    ensures Valid(Empty()) && |Empty().free| == 65540
  {
    var vm := Empty();
    assert Shape(vm) by { assert forall p :: p in vm.free ==> p < 65540; }
    forall p: nat | p < |vm.ref| ensures p in vm.free { assert vm.free[p] == p; }
    BootValid(vm);
  }

  lemma FirstEnv(v: Vm)
    requires Valid(v) && v.dir == map[] && |v.free| >= 65540
    ensures var w := Apply(v, Create(0));
      Valid(w) && 0 in w.dir && |w.free| >= 65539 && forall pn: nat {:trigger Xlate(w, 0, pn)} :: Xlate(w, 0, pn).Zero?
  {
    EnvSetupVmFacts(v, 0);
    var w := Apply(v, Create(0));
    forall pn: nat ensures Xlate(w, 0, pn).Zero? { assert Xlate(w, 0, pn) == Xlate(v, 0, pn); }
  }

  /** An environment with one page. */
  lemma FirstMapping(v: Vm) returns (calls: seq<Call>, p: nat)
    requires Valid(v) && v.dir == map[] && |v.free| >= 65540
    ensures SafeRun(v, calls) && Many(Run(v, calls), 0, p, 1)
  {
    FirstEnv(v);
    var w := Apply(v, Create(0));
    FirstPage(w);
    calls, p := [Create(0), Alloc(Some(0), 0, RW)], w.free[0];
    RunTwo(v, Create(0), Alloc(Some(0), 0, RW));
  }

  lemma RunTwo(v: Vm, c: Call, d: Call)
    requires Shape(v) && Enabled(v, c) && Safe(v, c) && Enabled(Apply(v, c), d) && Safe(Apply(v, c), d)
    ensures SafeRun(v, [c, d]) && Run(v, [c, d]) == Apply(Apply(v, c), d)
  {
    var w := Apply(v, c);
    RunAppend(w, [], d);
    assert [] + [d] == [d] && [c, d][1..] == [d];
  }

  lemma FirstPage(v: Vm)
    requires Valid(v) && 0 in v.dir && |v.free| >= 65539 && forall pn: nat {:trigger Xlate(v, 0, pn)} ::
      Xlate(v, 0, pn).Zero?
    ensures Many(Apply(v, Alloc(Some(0), 0, RW)), 0, v.free[0], 1)
  {
    SysPageAllocFacts(v, Some(0), 0, RW);
    PageAllocFacts(v);
    var (w, p) := PageAlloc(v);
    InsertCounts(w, 0, p.value, 0, RW);
  }

  lemma {:induction false} ManyMappings(n: nat) returns (calls: seq<Call>, p: nat)
    requires 0 < n < 65536
    ensures Valid(Empty()) && SafeRun(Empty(), calls) && Many(Run(Empty(), calls), 0, p, n)
  {
    if n == 1 {
      EmptyValid();
      calls, p := FirstMapping(Empty());
    } else {
      calls, p := ManyMappings(n - 1);
      var c := Map(Some(0), 0, Some(0), n - 1, RW);
      OneMore(Run(Empty(), calls), 0, p, n - 1);
      RunAppend(Empty(), calls, c);
      calls := calls + [c];
    }
  }

  /**
   * From a booted kernel, 65537 calls of one environment leave a page with 65536 mappings and a count of 0. Up to the
   * last call the counts are exact.
   */
  lemma CountWraps() returns (calls: seq<Call>, p: nat)
    ensures Valid(Empty()) && SafeRun(Empty(), calls)
    ensures var vm := Run(Empty(), calls); var c := Map(Some(0), 0, Some(0), 65535, RW);
      && Valid(vm) && Enabled(vm, c) && p < |vm.ref| && vm.ref[p] == 65535
      && Apply(vm, c).ref[p] == 0 && Xlate(Apply(vm, c), 0, 0) == Xlate(vm, 0, 0) && !Valid(Apply(vm, c))
  {
    calls, p := ManyMappings(65535);
    var vm := Run(Empty(), calls);
    MappedIsData(vm, 0, 0);
    InsertCounts(vm, 0, p, 65535, RW);
    SysPageMapFacts(vm, Some(0), 0, Some(0), 65535, RW);
    PageInsertFacts(vm, 0, p, 65535, RW);
  }
}
