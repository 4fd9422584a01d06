/** The steps of fork itself, allocation, unmapping and exit keep the invariant and the relation. */
module CowForkSteps {
  import opened Vm
  import opened AddressMap
  import opened CowFork
  import opened CowInvariant
  import opened CowSteps

  /** Nobody is the child of two forks, and a child does not fork or run. */
  lemma OneParent(f: Flat, p: EnvId, p2: EnvId, c: EnvId)
    requires Typed(f.tr, f.procs) && Forks(f.tr, f.procs) && Forking(f.procs, p, c) && Forking(f.procs, p2, c)
    ensures p == p2 && c in f.procs && f.procs[c] == DEAD
  {
    assert ForkOk(f.tr, f.procs, p, f.procs[p].fork);
  }

  /** A running environment is nobody's child. */
  ghost predicate NoChild(procs: Procs, e: EnvId) {
    forall p :: !Forking(procs, p, e)
  }

  lemma RunningNoChild(f: Flat, e: EnvId)
    requires Typed(f.tr, f.procs) && Forks(f.tr, f.procs) && Running(f.procs, e)
    ensures NoChild(f.procs, e)
  {
    forall p ensures !Forking(f.procs, p, e) {
      if p in f.procs && !f.procs[p].fork.NoFork? { assert ForkOk(f.tr, f.procs, p, f.procs[p].fork); }
    }
  }

  lemma ChildLives(f: Flat)
    requires Typed(f.tr, f.procs) && Forks(f.tr, f.procs)
    ensures forall p, c :: Forking(f.procs, p, c) ==> c in f.procs
  {
    forall p, c | Forking(f.procs, p, c) ensures c in f.procs { OneParent(f, p, p, c); }
  }

  // ---- giving up ----

  /** The state in which `e` has stopped forking, and perhaps running. */
  ghost function Left(f: Flat, e: EnvId, p: Proc, b': Bytes): Flat {
    Flat(f.tr, b', f.procs[e := p])
  }

  lemma LeavesForks(f: Flat, e: EnvId, p: Proc)
    requires Forks(f.tr, f.procs) && Running(f.procs, e) && p.fork.NoFork?
    ensures Forks(f.tr, f.procs[e := p])
  {
    var q := f.procs[e := p];
    forall p2 | p2 in q && !q[p2].fork.NoFork? ensures ForkOk(f.tr, q, p2, q[p2].fork) {
      var c := f.procs[p2].fork.child;
      assert ForkOk(f.tr, f.procs, p2, f.procs[p2].fork);
      assert forall p3 :: Forking(q, p3, c) ==> Forking(f.procs, p3, c);
    }
  }

  /** When `e` stops forking, what others look at stays as visible as it was. */
  lemma LeavesHidden(f: Flat, e: EnvId, p: Proc)
    requires Typed(f.tr, f.procs) && Forks(f.tr, f.procs) && Running(f.procs, e) && p.fork.NoFork?
    ensures forall x :: Relevant(f.procs[e := p], x) ==> Relevant(f.procs, x)
    ensures forall k: Key :: Relevant(f.procs[e := p], k.0) && Hidden(f.procs, k) ==> Hidden(f.procs[e := p], k)
  {
    var q := f.procs[e := p];
    forall x | Relevant(q, x) ensures Relevant(f.procs, x) {
      if p2 :| Forking(q, p2, x) { assert Forking(f.procs, p2, x); }
    }
    forall k: Key | Relevant(q, k.0) && Hidden(f.procs, k) ensures Hidden(q, k) {
      var p2 :| p2 in f.procs && f.procs[p2].fork == Mark(k.0, k.1, true);
      assert Forking(f.procs, p2, k.0);
      OneParent(f, p2, p2, k.0);
      var p3 :| Forking(q, p3, k.0);
      assert Forking(f.procs, p3, k.0);
      OneParent(f, p2, p3, k.0);
    }
  }

  /** A panic, or a fork abandoned before a page is handed over: the child is never looked at again. */
  lemma LeavesFork(f: Flat, a: Eager, e: EnvId, p: Proc, b': Bytes)
    requires Inv(f) && Rel(f, a) && Running(f.procs, e) && SameBytes(f.tr, f.bytes, b')
    requires p == DEAD || (p == f.procs[e].(fork := NoFork) && !f.procs[e].fork.Mark?)
    ensures Inv(Left(f, e, p, b')) && Rel(Left(f, e, p, b'), a)
  {
    var g := Left(f, e, p, b');
    MapsProcs(f.tr, f.procs, g.procs);
    LeavesForks(f, e, p);
    LeavesHidden(f, e, p);
    assert FaultOk(f.tr, f.bytes, e, f.procs[e].fault);
    FaultsElsewhere(f, g, e);
    RelSame(f, g, a);
  }

  // ---- sys_exofork ----

  ghost function Started(f: Flat, e: EnvId, c: EnvId, b': Bytes): Flat
    requires e in f.procs
  {
    Flat(f.tr, b', f.procs[c := DEAD][e := f.procs[e].(fork := Next(c, UTEXT))])
  }

  lemma StartsForks(f: Flat, e: EnvId, c: EnvId, b': Bytes)
    requires Typed(f.tr, f.procs) && Forks(f.tr, f.procs) && Running(f.procs, e) && f.procs[e].fork.NoFork? &&
      c !in f.procs
    ensures Forks(f.tr, Started(f, e, c, b').procs)
  {
    var q := Started(f, e, c, b').procs;
    ChildLives(f);
    forall p | p in q && !q[p].fork.NoFork? ensures ForkOk(f.tr, q, p, q[p].fork) {
      if p != e {
        var d := f.procs[p].fork.child;
        assert ForkOk(f.tr, f.procs, p, f.procs[p].fork);
        assert forall p3 :: p3 != e ==> Forking(q, p3, d) == Forking(f.procs, p3, d);
      } else {
        assert forall p3 :: p3 != e && Forking(q, p3, c) ==> Forking(f.procs, p3, c);
      }
    }
  }

  lemma StartsRel(f: Flat, a: Eager, e: EnvId, c: EnvId, b': Bytes)
    requires Typed(f.tr, f.procs) && Forks(f.tr, f.procs) && Rel(f, a) && Running(f.procs, e) &&
      f.procs[e].fork.NoFork? && c !in f.procs
    requires SameBytes(f.tr, f.bytes, b')
    ensures Rel(Started(f, e, c, b'), a)
  {
    var g := Started(f, e, c, b');
    forall k: Key | Relevant(g.procs, k.0) && Region(k.1) && !Hidden(g.procs, k) ensures Match(g.tr, g.bytes, a, k) {
      if k.0 != c {
        assert Relevant(f.procs, k.0) by {
          if p2 :| Forking(g.procs, p2, k.0) { assert Forking(f.procs, p2, k.0); }
        }
        assert forall p2 :: p2 in f.procs && f.procs[p2].fork.Mark? ==> g.procs[p2].fork == f.procs[p2].fork;
        assert Match(f.tr, f.bytes, a, k);
      }
    }
  }

  lemma ForkStarts(f: Flat, a: Eager, e: EnvId, c: EnvId, b': Bytes)
    requires Inv(f) && Rel(f, a) && Running(f.procs, e) && f.procs[e].fork.NoFork? && c !in f.procs
    requires SameBytes(f.tr, f.bytes, b')
    ensures Inv(Started(f, e, c, b')) && Rel(Started(f, e, c, b'), a)
  {
    var g := Started(f, e, c, b');
    MapsProcs(f.tr, f.procs, g.procs);
    assert FaultOk(f.tr, f.bytes, e, f.procs[e].fault);
    FaultsElsewhere(f, g, e);
    StartsForks(f, e, c, b');
    StartsRel(f, a, e, c, b');
  }

  // ---- duppage ----

  /** The forking environment is at page `k` of its loop, outside pgfault. */
  ghost predicate AtNext(f: Flat, e: EnvId, c: EnvId, k: nat) {
    Running(f.procs, e) && f.procs[e].fault.NoFault? && f.procs[e].fork == Next(c, k) && Region(k)
  }

  ghost function SetFork(f: Flat, e: EnvId, fk: Fork): Procs
    requires e in f.procs
  {
    f.procs[e := f.procs[e].(fork := fk)]
  }

  /** Moving `e`'s fork on, same child, outside windows: who matters does not change. */
  lemma SameChild(f: Flat, e: EnvId, fk: Fork)
    requires e in f.procs && !f.procs[e].fork.NoFork? && !fk.NoFork? && fk.child == f.procs[e].fork.child
    ensures forall p, x :: Forking(SetFork(f, e, fk), p, x) == Forking(f.procs, p, x)
    ensures forall x :: Relevant(SetFork(f, e, fk), x) == Relevant(f.procs, x)
  {
    var q := SetFork(f, e, fk);
    forall x ensures Relevant(q, x) == Relevant(f.procs, x) {
      if p :| Forking(q, p, x) { assert Forking(f.procs, p, x); }
      if p :| Forking(f.procs, p, x) { assert Forking(q, p, x); }
    }
  }

  /** Windows of forks other than `e`'s are where they were. */
  lemma HiddenElsewhere(f: Flat, e: EnvId, fk: Fork, k: Key)
    requires Typed(f.tr, f.procs) && Forks(f.tr, f.procs) && e in f.procs && !f.procs[e].fork.NoFork? &&
      !fk.NoFork? && fk.child == f.procs[e].fork.child
    requires k.0 != fk.child
    ensures Hidden(SetFork(f, e, fk), k) == Hidden(f.procs, k)
  {
    var q := SetFork(f, e, fk);
    if p :| p in q && q[p].fork == Mark(k.0, k.1, true) { assert f.procs[p].fork == Mark(k.0, k.1, true); }
    if p :| p in f.procs && f.procs[p].fork == Mark(k.0, k.1, true) { assert q[p].fork == Mark(k.0, k.1, true); }
  }

  /** A child's page is hidden exactly when its only parent's fork is in the first window on it. */
  lemma HiddenChild(f: Flat, e: EnvId, fk: Fork, k: Key)
    requires Typed(f.tr, f.procs) && Forks(f.tr, f.procs) && e in f.procs && !f.procs[e].fork.NoFork? &&
      !fk.NoFork? && fk.child == f.procs[e].fork.child
    requires k.0 == fk.child
    ensures Hidden(SetFork(f, e, fk), k) <==> fk == Mark(k.0, k.1, true)
  {
    var q := SetFork(f, e, fk);
    if p :| p in q && q[p].fork == Mark(k.0, k.1, true) {
      assert Forking(f.procs, p, k.0);
      OneParent(f, e, p, k.0);
    }
    assert q[e].fork == fk;
  }

  /** Forks other than `e`'s do not notice a change in the mappings of `e`'s child. */
  lemma ForksChildChange(f: Flat, e: EnvId, c: EnvId, fk: Fork, tr': Trans)
    requires Typed(f.tr, f.procs) && Forks(f.tr, f.procs) && Forking(f.procs, e, c) && !fk.NoFork? && fk.child == c
    requires forall k: Key :: k.0 != c ==> (k in tr' <==> k in f.tr) && (k in f.tr ==> tr'[k] == f.tr[k])
    requires ForkOk(tr', f.procs, e, fk)
    ensures Forks(tr', SetFork(f, e, fk))
  {
    var q := SetFork(f, e, fk);
    SameChild(f, e, fk);
    OneParent(f, e, e, c);
    assert ForkOk(tr', q, e, fk);
    forall p | p in q && p != e && !q[p].fork.NoFork? ensures ForkOk(tr', q, p, q[p].fork) {
      OtherForkKept(f, e, c, p, tr', q);
    }
  }

  /** An unmapped page is skipped. */
  lemma ForkSkips(f: Flat, a: Eager, e: EnvId, c: EnvId, k: nat)
    requires Inv(f) && Rel(f, a) && AtNext(f, e, c, k) && (e, k) !in f.tr
    ensures var g := f.(procs := SetFork(f, e, Next(c, k + 1))); Inv(g) && Rel(g, a)
  {
    var fk := Next(c, k + 1);
    var g := f.(procs := SetFork(f, e, fk));
    assert ForkOk(f.tr, f.procs, e, f.procs[e].fork);
    assert (c, k) !in f.tr;
    assert SamePage(f.tr, e, c, k);
    SameChild(f, e, fk);
    ForksChildChange(f, e, c, fk, f.tr);
    MapsProcs(f.tr, f.procs, g.procs);
    assert FaultOk(f.tr, f.bytes, e, f.procs[e].fault);
    FaultsElsewhere(f, g, e);
    forall x: Key ensures Hidden(g.procs, x) == Hidden(f.procs, x) {
      if x.0 == c {
        HiddenChild(f, e, fk, x);
        HiddenChild(f, e, f.procs[e].fork, x);
        assert SetFork(f, e, f.procs[e].fork) == f.procs;
      } else { HiddenElsewhere(f, e, fk, x); }
    }
    RelSame(f, g, a);
  }

  /** No running environment can store to a page that is only mapped copy-on-write, read-only or shared here. */
  lemma NotWritable(f: Flat, e: EnvId, k: nat, k1: Key)
    requires Maps(f.tr, f.procs) && NoChild(f.procs, e) && Running(f.procs, e) && f.procs[e].fault.NoFault? &&
      (e, k) in f.tr
    requires k1 in f.tr && f.tr[k1].page == f.tr[(e, k)].page && (!f.tr[(e, k)].perm.w || f.tr[(e, k)].perm.share)
    ensures !Writer(f.tr, f.procs, k1)
  {
    assert !Forking(f.procs, k1.0, e);
    assert !Window(f.procs, k1, (e, k));
  }

  /** A page the parent can store to has no other mapping when duppage looks at it. */
  lemma WritableIsPrivate(f: Flat, e: EnvId, c: EnvId, k: nat, k2: Key)
    requires Maps(f.tr, f.procs) && AtNext(f, e, c, k) && (e, k) in f.tr && f.tr[(e, k)].perm.w &&
      !f.tr[(e, k)].perm.share
    requires k2 in f.tr && k2 != (e, k)
    ensures f.tr[k2].page != f.tr[(e, k)].page
  {
    assert Writer(f.tr, f.procs, (e, k));
    assert !Window(f.procs, (e, k), k2);
  }

  /** How the other mappings of the page duppage looks at compare with the child's new one. */
  lemma GivePair(f: Flat, e: EnvId, c: EnvId, k: nat, k1: Key)
    requires Maps(f.tr, f.procs) && NoChild(f.procs, e) && AtNext(f, e, c, k) && (e, k) in f.tr && k1 in f.tr &&
      f.tr[k1].page == f.tr[(e, k)].page
    ensures f.tr[k1].perm.share == ChildPerm(f.tr[(e, k)].perm).share
    ensures Writer(f.tr, f.procs, k1) ==> k1 == (e, k)
  {
    var x := f.tr[(e, k)];
    if k1 != (e, k) {
      if x.perm.w && !x.perm.share { WritableIsPrivate(f, e, c, k, k1); } else { NotWritable(f, e, k, k1); }
    }
  }

  /** Giving the child page `k` with duppage's permissions. */
  lemma MapsGive(f: Flat, e: EnvId, c: EnvId, k: nat, fk: Fork)
    requires Maps(f.tr, f.procs) && NoChild(f.procs, e) && AtNext(f, e, c, k) && (e, k) in f.tr && c in f.procs &&
      !Running(f.procs, c) && (c, k) !in f.tr
    requires fk == Next(c, k + 1) || fk == Mark(c, k, f.tr[(e, k)].perm.w)
    requires f.tr[(e, k)].perm.w && !f.tr[(e, k)].perm.share ==> fk == Mark(c, k, true)
    ensures Maps(f.tr[(c, k) := Entry(f.tr[(e, k)].page, ChildPerm(f.tr[(e, k)].perm))], SetFork(f, e, fk))
  {
    var x := f.tr[(e, k)];
    var t := f.tr[(c, k) := Entry(x.page, ChildPerm(x.perm))];
    var q := SetFork(f, e, fk);
    assert Typed(t, q);
    assert Alias(t, q) by {
      forall k1, k2 | k1 in t && k2 in t && k1 != k2 && t[k1].page == t[k2].page
        ensures t[k1].perm.share == t[k2].perm.share && (Writer(t, q, k1) ==> Window(q, k1, k2))
      {
        if k1 == (c, k) {
          GivePair(f, e, c, k, k2);
        } else if k2 == (c, k) {
          GivePair(f, e, c, k, k1);
        } else if Writer(t, q, k1) {
          assert Window(f.procs, k1, k2);
        }
      }
    }
    assert SamePn(t);
  }

  ghost function Given(f: Flat, e: EnvId, c: EnvId, k: nat, fk: Fork, b': Bytes): Flat
    requires e in f.procs && (e, k) in f.tr && f.tr[(e, k)].Entry?
  {
    Flat(f.tr[(c, k) := Entry(f.tr[(e, k)].page, ChildPerm(f.tr[(e, k)].perm))], b', SetFork(f, e, fk))
  }

  /** What duppage does next: nothing more, or re-mark the parent's mapping. */
  ghost function AfterGive(x: Pte, c: EnvId, k: nat): Fork
    requires x.Entry?
  {
    if ChildPerm(x.perm) == COW then Mark(c, k, x.perm.w) else Next(c, k + 1)
  }

  lemma GivesForks(f: Flat, e: EnvId, c: EnvId, k: nat)
    requires Typed(f.tr, f.procs) && Forks(f.tr, f.procs) && AtNext(f, e, c, k) && (e, k) in f.tr
    ensures var t := f.tr[(c, k) := Entry(f.tr[(e, k)].page, ChildPerm(f.tr[(e, k)].perm))];
      Forks(t, SetFork(f, e, AfterGive(f.tr[(e, k)], c, k)))
  {
    var x := f.tr[(e, k)];
    var fk := AfterGive(x, c, k);
    var t := f.tr[(c, k) := Entry(x.page, ChildPerm(x.perm))];
    assert ForkOk(f.tr, f.procs, e, f.procs[e].fork);
    forall pn: nat | UTEXT <= pn < fk.pn ensures SamePage(t, e, c, pn) {
      if pn < k { assert SamePage(f.tr, e, c, pn); }
    }
    ForksChildChange(f, e, c, fk, t);
  }

  /** Handing a page over is an eager copy, at once unless the parent can still store to it. */
  lemma GivesRel(f: Flat, a: Eager, e: EnvId, c: EnvId, k: nat, b': Bytes)
    requires Typed(f.tr, f.procs) && Backed(f.tr, f.bytes) && Forks(f.tr, f.procs) && Rel(f, a) &&
      AtNext(f, e, c, k) && (e, k) in f.tr && SameBytes(f.tr, f.bytes, b')
    ensures var fk := AfterGive(f.tr[(e, k)], c, k);
      Rel(Given(f, e, c, k, fk, b'), EagerStep(a, if fk == Mark(c, k, true) then Silent else Copied(e, c, k)))
  {
    var fk := AfterGive(f.tr[(e, k)], c, k);
    var g := Given(f, e, c, k, fk, b');
    var a' := EagerStep(a, if fk == Mark(c, k, true) then Silent else Copied(e, c, k));
    assert ForkOk(f.tr, f.procs, e, f.procs[e].fork);
    RunningNotHidden(f, (e, k));
    assert Match(f.tr, f.bytes, a, (e, k));
    SameChild(f, e, fk);
    forall x: Key | Relevant(g.procs, x.0) && Region(x.1) && !Hidden(g.procs, x) ensures Match(g.tr, g.bytes, a', x) {
      if x.0 == c {
        HiddenChild(f, e, fk, x);
        HiddenChild(f, e, f.procs[e].fork, x);
        assert SetFork(f, e, f.procs[e].fork) == f.procs;
      } else {
        HiddenElsewhere(f, e, fk, x);
      }
      assert Match(f.tr, f.bytes, a, x);
    }
  }

  lemma ForkGives(f: Flat, a: Eager, e: EnvId, c: EnvId, k: nat, b': Bytes)
    requires Inv(f) && Rel(f, a) && AtNext(f, e, c, k) && (e, k) in f.tr && SameBytes(f.tr, f.bytes, b')
    ensures var fk := AfterGive(f.tr[(e, k)], c, k); var g := Given(f, e, c, k, fk, b');
      Inv(g) && Rel(g, EagerStep(a, if fk == Mark(c, k, true) then Silent else Copied(e, c, k)))
  {
    var fk := AfterGive(f.tr[(e, k)], c, k);
    var g := Given(f, e, c, k, fk, b');
    assert ForkOk(f.tr, f.procs, e, f.procs[e].fork);
    RunningNoChild(f, e);
    MapsGive(f, e, c, k, fk);
    GivesForks(f, e, c, k);
    assert FaultOk(f.tr, f.bytes, e, f.procs[e].fault);
    FaultsGive(f, g, e, c);
    GivesRel(f, a, e, c, k, b');
  }

  /** A change in the mappings of a child concerns no running environment's fault. */
  lemma FaultsGive(f: Flat, g: Flat, e: EnvId, c: EnvId)
    requires Inv(f) && Backed(g.tr, g.bytes) && Forking(f.procs, e, c)
    requires forall e2 :: Running(g.procs, e2) ==> Running(f.procs, e2) && g.procs[e2].fault == f.procs[e2].fault
    requires forall k: Key :: k.0 != c ==> (k in g.tr <==> k in f.tr) && (k in f.tr ==> g.tr[k] == f.tr[k])
    requires SameBytes(f.tr, f.bytes, g.bytes)
    ensures Faults(g)
  {
    OneParent(f, e, e, c);
    FaultsElsewhere(f, g, c);
  }

  // ---- re-marking the parent's mapping ----

  ghost predicate AtMark(f: Flat, e: EnvId, c: EnvId, k: nat, wasW: bool) {
    Running(f.procs, e) && f.procs[e].fault.NoFault? && f.procs[e].fork == Mark(c, k, wasW)
  }

  ghost function Marked(f: Flat, e: EnvId, c: EnvId, k: nat, b': Bytes): Flat
    requires e in f.procs && (e, k) in f.tr && f.tr[(e, k)].Entry?
  {
    Flat(f.tr[(e, k) := Entry(f.tr[(e, k)].page, COW)], b', SetFork(f, e, Next(c, k + 1)))
  }

  lemma MarkFacts(f: Flat, e: EnvId, c: EnvId, k: nat, wasW: bool)
    requires Forks(f.tr, f.procs) && AtMark(f, e, c, k, wasW)
    ensures (e, k) in f.tr && f.tr[(e, k)].Entry? && Region(k) && !f.tr[(e, k)].perm.share
  {
    assert ForkOk(f.tr, f.procs, e, f.procs[e].fork);
  }

  lemma MapsMark(f: Flat, e: EnvId, c: EnvId, k: nat, wasW: bool, b': Bytes)
    requires Maps(f.tr, f.procs) && AtMark(f, e, c, k, wasW) && (e, k) in f.tr && Region(k) && !f.tr[(e, k)].perm.share
    ensures Maps(Marked(f, e, c, k, b').tr, SetFork(f, e, Next(c, k + 1)))
  {
    var t := Marked(f, e, c, k, b').tr;
    var q := SetFork(f, e, Next(c, k + 1));
    MapsSoften(f.tr, f.procs, (e, k));
    forall k1, k2 | k1 in t && k2 in t && k1 != k2 && t[k1].page == t[k2].page && Writer(t, q, k1)
      ensures Window(q, k1, k2)
    {
      assert Writer(t, f.procs, k1);
      assert Window(f.procs, k1, k2);
    }
  }

  /** Making one private mapping copy-on-write only takes writers away. */
  lemma MapsSoften(tr: Trans, procs: Procs, k: Key)
    requires Maps(tr, procs) && k in tr && Region(k.1) && !tr[k].perm.share
    ensures Maps(tr[k := Entry(tr[k].page, COW)], procs)
  {
    var t := tr[k := Entry(tr[k].page, COW)];
    forall k1, k2 | k1 in t && k2 in t && k1 != k2 && t[k1].page == t[k2].page
      ensures t[k1].perm.share == t[k2].perm.share && (Writer(t, procs, k1) ==> Window(procs, k1, k2))
    {
      assert tr[k1].page == tr[k2].page;
      if Writer(t, procs, k1) { assert Writer(tr, procs, k1); }
    }
  }

  lemma MarksForks(f: Flat, e: EnvId, c: EnvId, k: nat, wasW: bool, b': Bytes)
    requires Typed(f.tr, f.procs) && Forks(f.tr, f.procs) && AtMark(f, e, c, k, wasW)
    ensures (e, k) in f.tr && Forks(Marked(f, e, c, k, b').tr, SetFork(f, e, Next(c, k + 1)))
  {
    assert ForkOk(f.tr, f.procs, e, f.procs[e].fork);
    var fk := Next(c, k + 1);
    var q := SetFork(f, e, fk);
    var t := Marked(f, e, c, k, b').tr;
    SameChild(f, e, fk);
    forall pn2: nat | UTEXT <= pn2 < k + 1 ensures SamePage(t, e, c, pn2) {
      if pn2 < k { assert SamePage(f.tr, e, c, pn2); }
    }
    assert ForkOk(t, q, e, fk);
    forall p | p in q && p != e && !q[p].fork.NoFork? ensures ForkOk(t, q, p, q[p].fork) {
      OtherForkKept(f, e, c, p, t, q);
    }
  }

  /** A fork of `p` does not notice changes to the mappings of a forking environment `e` or of its child. */
  lemma OtherForkKept(f: Flat, e: EnvId, c: EnvId, p: EnvId, t: Trans, q: Procs)
    requires Typed(f.tr, f.procs) && Forks(f.tr, f.procs) && Forking(f.procs, e, c)
    requires p in f.procs && p != e && !f.procs[p].fork.NoFork? && p in q && q[p] == f.procs[p]
    requires forall x, y :: Forking(q, x, y) == Forking(f.procs, x, y)
    requires forall x :: x in f.procs && !f.procs[x].running ==> x in q && q[x] == f.procs[x]
    requires forall x: Key :: x.0 != e && x.0 != c ==> (x in t <==> x in f.tr) && (x in f.tr ==> t[x] == f.tr[x])
    ensures ForkOk(t, q, p, q[p].fork)
  {
    var fk := f.procs[p].fork;
    assert ForkOk(f.tr, f.procs, p, fk) && ForkOk(f.tr, f.procs, e, f.procs[e].fork);
    assert Forking(f.procs, p, fk.child);
    OneParent(f, e, e, c);
    if fk.child == c { OneParent(f, e, p, c); }
    assert fk.child != e && p != c;
    forall pn2: nat | UTEXT <= pn2 < fk.pn ensures SamePage(t, p, fk.child, pn2) {
      assert SamePage(f.tr, p, fk.child, pn2);
    }
  }

  /** Re-marking is the moment a still writable page is copied; otherwise nothing happens. */
  lemma MarksRel(f: Flat, a: Eager, e: EnvId, c: EnvId, k: nat, wasW: bool, b': Bytes)
    requires Typed(f.tr, f.procs) && Backed(f.tr, f.bytes) && Forks(f.tr, f.procs) && Rel(f, a) &&
      AtMark(f, e, c, k, wasW) && SameBytes(f.tr, f.bytes, b')
    ensures (e, k) in f.tr
    ensures Rel(Marked(f, e, c, k, b'), EagerStep(a, if wasW then Copied(e, c, k) else Silent))
  {
    var fk := Next(c, k + 1);
    assert ForkOk(f.tr, f.procs, e, f.procs[e].fork);
    var g := Marked(f, e, c, k, b');
    var a' := EagerStep(a, if wasW then Copied(e, c, k) else Silent);
    RunningNotHidden(f, (e, k));
    assert Match(f.tr, f.bytes, a, (e, k));
    SameChild(f, e, fk);
    forall x: Key | Relevant(g.procs, x.0) && Region(x.1) && !Hidden(g.procs, x) ensures Match(g.tr, g.bytes, a', x) {
      if x.0 == c {
        HiddenChild(f, e, fk, x);
        HiddenChild(f, e, f.procs[e].fork, x);
        assert SetFork(f, e, f.procs[e].fork) == f.procs;
        if x == (c, k) && wasW {
          assert g.tr[x].page == f.tr[(e, k)].page;
        } else {
          assert Match(f.tr, f.bytes, a, x);
        }
      } else {
        HiddenElsewhere(f, e, fk, x);
        assert Match(f.tr, f.bytes, a, x);
      }
    }
  }

  lemma ForkMarks(f: Flat, a: Eager, e: EnvId, c: EnvId, k: nat, wasW: bool, b': Bytes)
    requires Inv(f) && Rel(f, a) && AtMark(f, e, c, k, wasW) && SameBytes(f.tr, f.bytes, b')
    ensures (e, k) in f.tr
    ensures var g := Marked(f, e, c, k, b'); Inv(g) && Rel(g, EagerStep(a, if wasW then Copied(e, c, k) else Silent))
  {
    MarkFacts(f, e, c, k, wasW);
    MapsMark(f, e, c, k, wasW, b');
    MarksForks(f, e, c, k, wasW, b');
    MarksRel(f, a, e, c, k, wasW, b');
    assert FaultOk(f.tr, f.bytes, e, f.procs[e].fault);
    FaultsElsewhere(f, Marked(f, e, c, k, b'), e);
  }

  // ---- the end of fork ----

  ghost function Ended(f: Flat, e: EnvId, c: EnvId, page: nat, b': Bytes): Flat
    requires e in f.procs
  {
    Flat(f.tr[(c, UXSTACK) := Entry(page, RW)], b',
      f.procs[e := f.procs[e].(fork := NoFork)][c := Proc(true, NoFork, NoFault)])
  }

  lemma MapsEnd(f: Flat, e: EnvId, c: EnvId, page: nat, b': Bytes)
    requires Maps(f.tr, f.procs) && Running(f.procs, e) && f.procs[e].fork == Next(c, USTACKTOP) && Fresh(f.tr, page)
    requires c != e && c in f.procs && !f.procs[c].running && ChildOk(f.tr, c, USTACKTOP)
    ensures Maps(Ended(f, e, c, page, b').tr, Ended(f, e, c, page, b').procs)
  {
    MapsAdd(f.tr, f.procs, (c, UXSTACK), page, RW);
    var t := Ended(f, e, c, page, b').tr;
    var q := Ended(f, e, c, page, b').procs;
    forall k1, k2 | k1 in t && k2 in t && k1 != k2 && t[k1].page == t[k2].page && Writer(t, q, k1)
      ensures Window(q, k1, k2)
    {
      assert k1 != (c, UXSTACK) && k1.0 != c;
      assert Writer(t, f.procs, k1);
      assert Window(f.procs, k1, k2);
    }
  }

  lemma EndsForks(f: Flat, e: EnvId, c: EnvId, page: nat, b': Bytes)
    requires Typed(f.tr, f.procs) && Forks(f.tr, f.procs) && Running(f.procs, e) &&
      f.procs[e].fork == Next(c, USTACKTOP)
    ensures Forks(Ended(f, e, c, page, b').tr, Ended(f, e, c, page, b').procs)
  {
    var t := Ended(f, e, c, page, b').tr;
    var q := Ended(f, e, c, page, b').procs;
    assert Forking(f.procs, e, c);
    OneParent(f, e, e, c);
    forall p | p in q && !q[p].fork.NoFork? ensures ForkOk(t, q, p, q[p].fork) {
      var fk2 := f.procs[p].fork;
      assert ForkOk(f.tr, f.procs, p, fk2);
      assert Forking(f.procs, p, fk2.child);
      if fk2.child == c { OneParent(f, e, p, c); }
      assert forall p3 :: Forking(q, p3, fk2.child) ==> Forking(f.procs, p3, fk2.child);
      forall pn2: nat | UTEXT <= pn2 < fk2.pn ensures SamePage(t, p, fk2.child, pn2) {
        assert SamePage(f.tr, p, fk2.child, pn2);
      }
    }
  }

  lemma EndsRel(f: Flat, a: Eager, e: EnvId, c: EnvId, page: nat, b': Bytes)
    requires Typed(f.tr, f.procs) && Forks(f.tr, f.procs) && Rel(f, a) && Running(f.procs, e) &&
      f.procs[e].fork == Next(c, USTACKTOP)
    requires SameBytes(f.tr, f.bytes, b')
    ensures Rel(Ended(f, e, c, page, b'), a)
  {
    var g := Ended(f, e, c, page, b');
    assert Forking(f.procs, e, c);
    OneParent(f, e, e, c);
    forall x | Relevant(g.procs, x) ensures Relevant(f.procs, x) {
      if x != c && !Running(g.procs, x) {
        var p :| Forking(g.procs, p, x);
        assert Forking(f.procs, p, x);
      }
    }
    assert forall p :: p in f.procs && f.procs[p].fork.Mark? ==> g.procs[p].fork == f.procs[p].fork;
    RelSame(f, g, a);
  }

  /** The child starts: it has exactly the parent's pages, equally writable and equally shared. */
  lemma ForkEnds(f: Flat, a: Eager, e: EnvId, c: EnvId, page: nat, b': Bytes)
    requires Inv(f) && Rel(f, a) && Running(f.procs, e) && f.procs[e].fork == Next(c, USTACKTOP)
    requires Fresh(f.tr, page) && page < |b'| && SameBytes(f.tr, f.bytes, b')
    ensures var g := Ended(f, e, c, page, b');
      Inv(g) && Rel(g, a) && forall pn: nat :: Region(pn) ==> SamePage(g.tr, e, c, pn)
  {
    var g := Ended(f, e, c, page, b');
    assert ForkOk(f.tr, f.procs, e, f.procs[e].fork);
    MapsEnd(f, e, c, page, b');
    EndsForks(f, e, c, page, b');
    EndsRel(f, a, e, c, page, b');
    FaultsElsewhere(f, g, c);
    forall pn: nat | Region(pn) ensures SamePage(g.tr, e, c, pn) { assert SamePage(f.tr, e, c, pn); }
  }

  // ---- allocation, unmapping, exit ----

  /** The caller is not forking, so no fork's bookkeeping mentions its mappings. */
  lemma BystanderForks(f: Flat, e: EnvId, tr': Trans)
    requires Typed(f.tr, f.procs) && Forks(f.tr, f.procs) && Running(f.procs, e) && f.procs[e].fork.NoFork?
    requires forall k: Key :: k.0 != e ==> (k in tr' <==> k in f.tr) && (k in f.tr ==> tr'[k] == f.tr[k])
    ensures Forks(tr', f.procs)
  {
    forall p | p in f.procs && !f.procs[p].fork.NoFork? ensures ForkOk(tr', f.procs, p, f.procs[p].fork) {
      var fk := f.procs[p].fork;
      assert ForkOk(f.tr, f.procs, p, fk);
      forall pn: nat | UTEXT <= pn < fk.pn ensures SamePage(tr', p, fk.child, pn) {
        assert SamePage(f.tr, p, fk.child, pn);
      }
    }
  }

  lemma Allocates(f: Flat, a: Eager, e: EnvId, pn: nat, w: bool, share: bool, page: nat, b': Bytes)
    requires Inv(f) && Rel(f, a) && Running(f.procs, e) && f.procs[e].fork.NoFork? && f.procs[e].fault.NoFault? &&
      Region(pn)
    requires Fresh(f.tr, page) && page < |b'| && SameBytes(f.tr, f.bytes, b') && b'[page] == ZeroPage()
    ensures var g := Flat(f.tr[(e, pn) := Entry(page, Perm(w, false, share))], b', f.procs);
      Inv(g) && Rel(g, EagerStep(a, Allocated(e, pn, w, share, page)))
  {
    var g := Flat(f.tr[(e, pn) := Entry(page, Perm(w, false, share))], b', f.procs);
    var a' := EagerStep(a, Allocated(e, pn, w, share, page));
    MapsAdd(f.tr, f.procs, (e, pn), page, Perm(w, false, share));
    BystanderForks(f, e, g.tr);
    assert FaultOk(f.tr, f.bytes, e, f.procs[e].fault);
    FaultsElsewhere(f, g, e);
    AllocatesRel(f, a, e, pn, w, share, page, b');
  }

  lemma AllocatesRel(f: Flat, a: Eager, e: EnvId, pn: nat, w: bool, share: bool, page: nat, b': Bytes)
    requires Rel(f, a) && Running(f.procs, e) && Region(pn)
    requires Fresh(f.tr, page) && page < |b'| && SameBytes(f.tr, f.bytes, b') && b'[page] == ZeroPage()
    ensures Rel(Flat(f.tr[(e, pn) := Entry(page, Perm(w, false, share))], b', f.procs),
      EagerStep(a, Allocated(e, pn, w, share, page)))
  {
    var g := Flat(f.tr[(e, pn) := Entry(page, Perm(w, false, share))], b', f.procs);
    var a' := EagerStep(a, Allocated(e, pn, w, share, page));
    forall k: Key | Relevant(g.procs, k.0) && Region(k.1) && !Hidden(g.procs, k) ensures Match(g.tr, g.bytes, a', k) {
      assert Match(f.tr, f.bytes, a, k);
    }
  }

  lemma Unmaps(f: Flat, a: Eager, e: EnvId, pn: nat, b': Bytes)
    requires Inv(f) && Rel(f, a) && Running(f.procs, e) && f.procs[e].fork.NoFork? && f.procs[e].fault.NoFault? &&
      Region(pn)
    requires SameBytes(f.tr, f.bytes, b')
    ensures var g := Flat(f.tr - {(e, pn)}, b', f.procs);
      Inv(g) && Rel(g, EagerStep(a, CowFork.Event.Unmapped(e, pn)))
  {
    var g := Flat(f.tr - {(e, pn)}, b', f.procs);
    var a' := EagerStep(a, CowFork.Event.Unmapped(e, pn));
    MapsDrop(f.tr, f.procs, (e, pn));
    BystanderForks(f, e, g.tr);
    assert FaultOk(f.tr, f.bytes, e, f.procs[e].fault);
    FaultsElsewhere(f, g, e);
    UnmapsRel(f, a, e, pn, b');
  }

  lemma UnmapsRel(f: Flat, a: Eager, e: EnvId, pn: nat, b': Bytes)
    requires Rel(f, a) && Running(f.procs, e) && Region(pn) && SameBytes(f.tr, f.bytes, b')
    ensures Rel(Flat(f.tr - {(e, pn)}, b', f.procs), EagerStep(a, CowFork.Event.Unmapped(e, pn)))
  {
    var g := Flat(f.tr - {(e, pn)}, b', f.procs);
    var a' := EagerStep(a, CowFork.Event.Unmapped(e, pn));
    forall k: Key | Relevant(g.procs, k.0) && Region(k.1) && !Hidden(g.procs, k) ensures Match(g.tr, g.bytes, a', k) {
      assert Match(f.tr, f.bytes, a, k);
    }
  }

  lemma ExitsForks(f: Flat, e: EnvId)
    requires Typed(f.tr, f.procs) && Forks(f.tr, f.procs) && e in f.procs && forall p :: !Forking(f.procs, p, e)
    ensures Forks(Without(f.tr, e), f.procs - {e})
  {
    var t := Without(f.tr, e);
    var q := f.procs - {e};
    forall p | p in q && !q[p].fork.NoFork? ensures ForkOk(t, q, p, q[p].fork) {
      var fk := f.procs[p].fork;
      assert ForkOk(f.tr, f.procs, p, fk);
      assert Forking(f.procs, p, fk.child);
      assert forall p3 :: Forking(q, p3, fk.child) ==> Forking(f.procs, p3, fk.child);
      forall pn: nat | UTEXT <= pn < fk.pn ensures SamePage(t, p, fk.child, pn) {
        assert SamePage(f.tr, p, fk.child, pn);
      }
    }
  }

  lemma MapsExit(tr: Trans, procs: Procs, e: EnvId)
    requires Maps(tr, procs)
    ensures Maps(Without(tr, e), procs - {e})
  {
    var t := Without(tr, e);
    forall k1, k2 | k1 in t && k2 in t && k1 != k2 && t[k1].page == t[k2].page && Writer(t, procs - {e}, k1)
      ensures Window(procs - {e}, k1, k2)
    {
      assert Writer(tr, procs, k1);
      assert Window(procs, k1, k2);
    }
  }

  lemma ExitsRel(f: Flat, a: Eager, e: EnvId, b': Bytes)
    requires Typed(f.tr, f.procs) && Forks(f.tr, f.procs) && Rel(f, a) && e in f.procs && forall p ::
      !Forking(f.procs, p, e)
    requires SameBytes(f.tr, f.bytes, b')
    ensures Rel(Flat(Without(f.tr, e), b', f.procs - {e}), EagerStep(a, Exited(e)))
  {
    var g := Flat(Without(f.tr, e), b', f.procs - {e});
    var a' := EagerStep(a, Exited(e));
    forall k: Key | Relevant(g.procs, k.0) && Region(k.1) && !Hidden(g.procs, k) ensures Match(g.tr, g.bytes, a', k) {
      ExitKeepsRelevant(f, e, k);
      assert Match(f.tr, f.bytes, a, k);
    }
  }

  lemma Exits(f: Flat, a: Eager, e: EnvId, b': Bytes)
    requires Inv(f) && Rel(f, a) && e in f.procs && forall p :: !Forking(f.procs, p, e)
    requires SameBytes(f.tr, f.bytes, b')
    ensures var g := Flat(Without(f.tr, e), b', f.procs - {e});
      Inv(g) && Rel(g, EagerStep(a, Exited(e)))
  {
    MapsExit(f.tr, f.procs, e);
    ExitsForks(f, e);
    FaultsElsewhere(f, Flat(Without(f.tr, e), b', f.procs - {e}), e);
    ExitsRel(f, a, e, b');
  }

  /** An exit hides nothing that anyone still looks at. */
  lemma ExitKeepsRelevant(f: Flat, e: EnvId, k: Key)
    requires Typed(f.tr, f.procs) && Forks(f.tr, f.procs) && e in f.procs && Relevant(f.procs - {e}, k.0) &&
      !Hidden(f.procs - {e}, k)
    requires forall p :: !Forking(f.procs, p, e)
    ensures k.0 != e && Relevant(f.procs, k.0) && !Hidden(f.procs, k)
  {
    var q := f.procs - {e};
    if Running(q, k.0) {
      RunningNotHidden(f, k);
    } else {
      var p :| Forking(q, p, k.0);
      assert Forking(f.procs, p, k.0);
      OneParent(f, p, p, k.0);
      forall p2 | p2 in f.procs ensures f.procs[p2].fork != Mark(k.0, k.1, true) {
        if Forking(f.procs, p2, k.0) { OneParent(f, p, p2, k.0); }
      }
    }
  }
}
