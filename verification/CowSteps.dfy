/** Each kind of step keeps the copy-on-write invariant and the relation to the eager machine. */
module CowSteps {
  import opened Vm
  import opened AddressMap
  import opened CowFork
  import opened CowInvariant

  /** Pages mapped in `tr` have the same contents in both memories. */
  ghost predicate SameBytes(tr: Trans, b: Bytes, b': Bytes) {
    && |b'| == |b|
    && (forall p :: 0 <= p < |b'| ==> |b'[p]| == PGSIZE)
    && (forall k :: k in tr && tr[k].Entry? && tr[k].page < |b| ==> b'[tr[k].page] == b[tr[k].page])
  }

  /** `page` is mapped nowhere. */
  ghost predicate Fresh(tr: Trans, page: nat) {
    forall k :: k in tr && tr[k].Entry? ==> tr[k].page != page
  }

  /** Same fork progress everywhere: the same children, windows and relevant environments. */
  ghost predicate SameForks(p: Procs, q: Procs) {
    && p.Keys == q.Keys
    && (forall e :: e in p ==> q[e].fork == p[e].fork && q[e].running == p[e].running)
  }

  lemma SameForksRelevant(p: Procs, q: Procs)
    requires SameForks(p, q)
    ensures forall e, c :: Forking(q, e, c) == Forking(p, e, c)
    ensures forall e :: Relevant(q, e) == Relevant(p, e)
    ensures forall k: Key :: Hidden(q, k) == Hidden(p, k)
  {
    forall e ensures Relevant(q, e) == Relevant(p, e) {
      if c :| Forking(q, c, e) { assert Forking(p, c, e); }
      if c :| Forking(p, c, e) { assert Forking(q, c, e); }
    }
    forall k: Key ensures Hidden(q, k) == Hidden(p, k) {
      if c :| c in q && q[c].fork == Mark(k.0, k.1, true) { assert p[c].fork == Mark(k.0, k.1, true); }
      if c :| c in p && p[c].fork == Mark(k.0, k.1, true) { assert q[c].fork == Mark(k.0, k.1, true); }
    }
  }

  /** A change of fault progress only: forks carry over. */
  lemma SameForksForks(tr: Trans, p: Procs, q: Procs)
    requires SameForks(p, q) && Forks(tr, p)
    requires forall e :: e in p && !p[e].running ==> q[e] == p[e]
    ensures Forks(tr, q)
  {
    SameForksRelevant(p, q);
    forall e | e in q && !q[e].fork.NoFork? ensures ForkOk(tr, q, e, q[e].fork) {
      assert ForkOk(tr, p, e, p[e].fork);
    }
  }

  // ---- one part of the invariant at a time ----

  ghost predicate Maps(tr: Trans, procs: Procs) {
    Typed(tr, procs) && Alias(tr, procs) && SamePn(tr)
  }

  /** Progress may move on as long as no running environment leaves a window it is in. */
  lemma MapsProcs(tr: Trans, p: Procs, q: Procs)
    requires Maps(tr, p) && p.Keys <= q.Keys
    requires forall e :: Running(q, e) && e in p ==> p[e].running
    requires forall e :: Running(q, e) && e in p && p[e].fork.Mark? ==> q[e].fork == p[e].fork
    requires forall e :: Running(q, e) && e in p && p[e].fault.FUnmap? ==> q[e].fault == p[e].fault
    ensures Maps(tr, q)
  {
    forall k1, k2 | k1 in tr && k2 in tr && k1 != k2 && tr[k1].page == tr[k2].page && Writer(tr, q, k1)
      ensures Window(q, k1, k2)
    {
      assert Writer(tr, p, k1);
      assert Window(p, k1, k2);
    }
  }

  lemma MapsAdd(tr: Trans, procs: Procs, k: Key, page: nat, perm: Perm)
    requires Maps(tr, procs) && Fresh(tr, page) && k.0 in procs
    requires Region(k.1) || k.1 == PFTEMP || k.1 == UXSTACK
    requires (perm.cow ==> perm == COW) && (!Region(k.1) ==> perm == RW)
    ensures Maps(tr[k := Entry(page, perm)], procs)
  {
    var t := tr[k := Entry(page, perm)];
    forall k1, k2 | k1 in t && k2 in t && k1 != k2 && t[k1].page == t[k2].page && Writer(t, procs, k1)
      ensures Window(procs, k1, k2)
    {
      assert k1 != k && k2 != k;
      assert Writer(tr, procs, k1);
    }
  }

  lemma MapsDrop(tr: Trans, procs: Procs, k: Key)
    requires Maps(tr, procs)
    ensures Maps(tr - {k}, procs)
  {
    var t := tr - {k};
    forall k1, k2 | k1 in t && k2 in t && k1 != k2 && t[k1].page == t[k2].page && Writer(t, procs, k1)
      ensures Window(procs, k1, k2)
    {
      assert Writer(tr, procs, k1);
    }
  }

  /** Only `e` had its PFTEMP, its faulting page or its progress changed: everybody else's fault is unaffected. */
  lemma FaultsElsewhere(f: Flat, g: Flat, e: EnvId)
    requires Backed(f.tr, f.bytes) && Faults(f) && Backed(g.tr, g.bytes)
    requires forall e2 ::
      e2 != e && Running(g.procs, e2) ==> Running(f.procs, e2) && g.procs[e2].fault == f.procs[e2].fault
    requires forall k: Key :: k.0 != e ==> (k in g.tr <==> k in f.tr) && (k in f.tr ==> g.tr[k] == f.tr[k])
    requires forall k: Key ::
      k in f.tr && k.0 != e ==> f.tr[k].page < |g.bytes| && g.bytes[f.tr[k].page] == f.bytes[f.tr[k].page]
    requires Running(g.procs, e) ==> FaultOk(g.tr, g.bytes, e, g.procs[e].fault)
    ensures Faults(g)
  {
    forall e2 | Running(g.procs, e2) ensures FaultOk(g.tr, g.bytes, e2, g.procs[e2].fault) {
      if e2 != e { assert FaultOk(f.tr, f.bytes, e2, f.procs[e2].fault); }
    }
  }

  /** Region mappings, their contents and who looks at them are unchanged. */
  lemma RelSame(f: Flat, g: Flat, a: Eager)
    requires Rel(f, a) && f.procs.Keys <= g.procs.Keys
    requires forall e :: Relevant(g.procs, e) ==> Relevant(f.procs, e)
    requires forall k: Key :: Relevant(g.procs, k.0) && Hidden(f.procs, k) ==> Hidden(g.procs, k)
    requires forall k: Key :: Region(k.1) ==> (k in g.tr <==> k in f.tr) && (k in f.tr ==> g.tr[k] == f.tr[k])
    requires |g.bytes| == |f.bytes|
    requires forall k: Key :: k in f.tr && f.tr[k].Entry? && f.tr[k].page < |f.bytes| && Region(k.1) ==>
      g.bytes[f.tr[k].page] == f.bytes[f.tr[k].page]
    ensures Rel(g, a)
  {
    forall k: Key | Relevant(g.procs, k.0) && Region(k.1) && !Hidden(g.procs, k) ensures Match(g.tr, g.bytes, a, k) {
      assert Match(f.tr, f.bytes, a, k);
    }
  }

  // ---- page faults ----

  lemma FaultStarts(f: Flat, a: Eager, e: EnvId, q: nat)
    requires Inv(f) && Rel(f, a) && Running(f.procs, e) && f.procs[e].fault.NoFault? && CowAt(f.tr, (e, q))
    ensures var g := f.(procs := f.procs[e := f.procs[e].(fault := FAlloc(q))]); Inv(g) && Rel(g, a)
  {
    var g := f.(procs := f.procs[e := f.procs[e].(fault := FAlloc(q))]);
    assert FaultOk(f.tr, f.bytes, e, f.procs[e].fault);
    SameForksRelevant(f.procs, g.procs);
    SameForksForks(f.tr, f.procs, g.procs);
    MapsProcs(f.tr, f.procs, g.procs);
    FaultsElsewhere(f, g, e);
    RelSame(f, g, a);
  }

  /** sys_page_alloc at PFTEMP. */
  lemma FaultAllocates(f: Flat, a: Eager, e: EnvId, q: nat, page: nat, b': Bytes)
    requires Inv(f) && Rel(f, a) && Running(f.procs, e) && f.procs[e].fault == FAlloc(q)
    requires Fresh(f.tr, page) && page < |b'| && SameBytes(f.tr, f.bytes, b')
    ensures var g := Flat(f.tr[(e, PFTEMP) := Entry(page, RW)], b', f.procs[e := f.procs[e].(fault := FCopy(q))]);
      Inv(g) && Rel(g, a)
  {
    var g := Flat(f.tr[(e, PFTEMP) := Entry(page, RW)], b', f.procs[e := f.procs[e].(fault := FCopy(q))]);
    assert FaultOk(f.tr, f.bytes, e, f.procs[e].fault);
    SameForksRelevant(f.procs, g.procs);
    MapsAdd(f.tr, f.procs, (e, PFTEMP), page, RW);
    MapsProcs(g.tr, f.procs, g.procs);
    OutsideRegionForks(f, g, e, PFTEMP);
    FaultsElsewhere(f, g, e);
    RelSame(f, g, a);
  }

  /** Mappings outside the region, of environments that are nobody's child, do not concern forks. */
  lemma OutsideRegionForks(f: Flat, g: Flat, e: EnvId, pn: nat)
    requires Forks(f.tr, f.procs) && Running(f.procs, e) && !Region(pn) && SameForks(f.procs, g.procs)
    requires forall e2 :: e2 in f.procs && !f.procs[e2].running ==> g.procs[e2] == f.procs[e2]
    requires forall k: Key :: k != (e, pn) ==> (k in g.tr <==> k in f.tr) && (k in f.tr ==> g.tr[k] == f.tr[k])
    ensures Forks(g.tr, g.procs)
  {
    SameForksRelevant(f.procs, g.procs);
    forall p | p in g.procs && !g.procs[p].fork.NoFork? ensures ForkOk(g.tr, g.procs, p, g.procs[p].fork) {
      var fk := f.procs[p].fork;
      assert ForkOk(f.tr, f.procs, p, fk);
      forall pn2: nat | UTEXT <= pn2 < fk.pn ensures SamePage(g.tr, p, fk.child, pn2) {
        assert SamePage(f.tr, p, fk.child, pn2);
      }
    }
  }

  /** Before it is moved into place, the page at PFTEMP has no other mapping. */
  lemma TempIsPrivate(f: Flat, e: EnvId)
    requires Inv(f) && Running(f.procs, e) && (f.procs[e].fault.FCopy? || f.procs[e].fault.FMap?)
    ensures (e, PFTEMP) in f.tr
    ensures forall k :: k in f.tr && k != (e, PFTEMP) ==> f.tr[k].page != f.tr[(e, PFTEMP)].page
  {
    assert FaultOk(f.tr, f.bytes, e, f.procs[e].fault);
    assert Writer(f.tr, f.procs, (e, PFTEMP));
    if f.procs[e].fork.Mark? { assert ForkOk(f.tr, f.procs, e, f.procs[e].fork); }
    assert forall k: Key :: !Window(f.procs, (e, PFTEMP), k);
  }

  /** memmove from the faulting page to PFTEMP. */
  lemma FaultCopies(f: Flat, a: Eager, e: EnvId, q: nat)
    requires Inv(f) && Rel(f, a) && Running(f.procs, e) && f.procs[e].fault == FCopy(q)
    ensures (e, PFTEMP) in f.tr && (e, q) in f.tr
    ensures var (d, s) := (f.tr[(e, PFTEMP)].page, f.tr[(e, q)].page);
      var g := Flat(f.tr, f.bytes[d := f.bytes[s]], f.procs[e := f.procs[e].(fault := FMap(q))]);
      Inv(g) && Rel(g, a)
  {
    assert FaultOk(f.tr, f.bytes, e, f.procs[e].fault);
    var (d, s) := (f.tr[(e, PFTEMP)].page, f.tr[(e, q)].page);
    var g := Flat(f.tr, f.bytes[d := f.bytes[s]], f.procs[e := f.procs[e].(fault := FMap(q))]);
    SameForksRelevant(f.procs, g.procs);
    SameForksForks(f.tr, f.procs, g.procs);
    MapsProcs(f.tr, f.procs, g.procs);
    TempIsPrivate(f, e);
    FaultsElsewhere(f, g, e);
    RelSame(f, g, a);
  }

  /** Moving the private page at PFTEMP onto a page of the region. */
  lemma MapsMove(f: Flat, e: EnvId, q: nat)
    requires Inv(f) && Running(f.procs, e) && f.procs[e].fault == FMap(q)
    ensures (e, PFTEMP) in f.tr
    ensures Maps(f.tr[(e, q) := Entry(f.tr[(e, PFTEMP)].page, RW)], f.procs[e := f.procs[e].(fault := FUnmap(q))])
  {
    assert FaultOk(f.tr, f.bytes, e, f.procs[e].fault);
    TempIsPrivate(f, e);
    var d := f.tr[(e, PFTEMP)].page;
    var t := f.tr[(e, q) := Entry(d, RW)];
    var procs := f.procs[e := f.procs[e].(fault := FUnmap(q))];
    forall k1, k2 | k1 in t && k2 in t && k1 != k2 && t[k1].page == t[k2].page && Writer(t, procs, k1)
      ensures Window(procs, k1, k2)
    {
      if k1 != (e, q) && k2 != (e, q) {
        assert Writer(f.tr, f.procs, k1);
        assert Window(f.procs, k1, k2);
      }
    }
  }

  /** sys_page_map from PFTEMP to the faulting page. */
  lemma FaultMaps(f: Flat, a: Eager, e: EnvId, q: nat, b': Bytes)
    requires Inv(f) && Rel(f, a) && Running(f.procs, e) && f.procs[e].fault == FMap(q)
    requires SameBytes(f.tr, f.bytes, b')
    ensures (e, PFTEMP) in f.tr
    ensures var g := Flat(f.tr[(e, q) := Entry(f.tr[(e, PFTEMP)].page, RW)], b',
      f.procs[e := f.procs[e].(fault := FUnmap(q))]);
      Inv(g) && Rel(g, a)
  {
    assert FaultOk(f.tr, f.bytes, e, f.procs[e].fault);
    MapsMove(f, e, q);
    var d := f.tr[(e, PFTEMP)].page;
    var g := Flat(f.tr[(e, q) := Entry(d, RW)], b', f.procs[e := f.procs[e].(fault := FUnmap(q))]);
    SameForksRelevant(f.procs, g.procs);
    FaultMapsForks(f, g, e, q);
    FaultsElsewhere(f, g, e);
    forall k: Key | Relevant(g.procs, k.0) && Region(k.1) && !Hidden(g.procs, k) ensures Match(g.tr, g.bytes, a, k) {
      assert Match(f.tr, f.bytes, a, k);
    }
  }

  /** Turning a copy-on-write mapping into a writable one leaves the page equally writable for every fork. */
  lemma FaultMapsForks(f: Flat, g: Flat, e: EnvId, q: nat)
    requires Forks(f.tr, f.procs) && Running(f.procs, e) && CowAt(f.tr, (e, q)) && SameForks(f.procs, g.procs)
    requires forall e2 :: e2 in f.procs && !f.procs[e2].running ==> g.procs[e2] == f.procs[e2]
    requires RwAt(g.tr, (e, q))
    requires forall k: Key :: k != (e, q) ==> (k in g.tr <==> k in f.tr) && (k in f.tr ==> g.tr[k] == f.tr[k])
    ensures Forks(g.tr, g.procs)
  {
    SameForksRelevant(f.procs, g.procs);
    forall p | p in g.procs && !g.procs[p].fork.NoFork? ensures ForkOk(g.tr, g.procs, p, g.procs[p].fork) {
      var fk := f.procs[p].fork;
      assert ForkOk(f.tr, f.procs, p, fk);
      forall pn2: nat | UTEXT <= pn2 < fk.pn ensures SamePage(g.tr, p, fk.child, pn2) {
        assert SamePage(f.tr, p, fk.child, pn2);
      }
    }
  }

  /** Leaving pgfault's window once PFTEMP is gone. */
  lemma MapsUnmapTemp(f: Flat, e: EnvId, q: nat)
    requires Inv(f) && Running(f.procs, e) && f.procs[e].fault == FUnmap(q)
    ensures Maps(f.tr - {(e, PFTEMP)}, f.procs[e := f.procs[e].(fault := NoFault)])
  {
    var t := f.tr - {(e, PFTEMP)};
    var procs := f.procs[e := f.procs[e].(fault := NoFault)];
    forall k1, k2 | k1 in t && k2 in t && k1 != k2 && t[k1].page == t[k2].page && Writer(t, procs, k1)
      ensures Window(procs, k1, k2)
    {
      assert Writer(f.tr, f.procs, k1);
      assert Window(f.procs, k1, k2);
    }
  }

  /** sys_page_unmap of PFTEMP: the fault is over and the page is writable. */
  lemma FaultEnds(f: Flat, a: Eager, e: EnvId, q: nat, b': Bytes)
    requires Inv(f) && Rel(f, a) && Running(f.procs, e) && f.procs[e].fault == FUnmap(q)
    requires SameBytes(f.tr, f.bytes, b')
    ensures var g := Flat(f.tr - {(e, PFTEMP)}, b', f.procs[e := f.procs[e].(fault := NoFault)]);
      Inv(g) && Rel(g, a) && RwAt(g.tr, (e, q))
  {
    assert FaultOk(f.tr, f.bytes, e, f.procs[e].fault);
    var g := Flat(f.tr - {(e, PFTEMP)}, b', f.procs[e := f.procs[e].(fault := NoFault)]);
    SameForksRelevant(f.procs, g.procs);
    MapsUnmapTemp(f, e, q);
    OutsideRegionForks(f, g, e, PFTEMP);
    FaultsElsewhere(f, g, e);
    RelSame(f, g, a);
  }
}
