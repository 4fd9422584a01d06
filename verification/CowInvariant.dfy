/** What every step of copy-on-write fork keeps, stated on the address map instead of the page tables. */
module CowInvariant {
  import opened Vm
  import opened AddressMap
  import opened CowFork

  type Trans = map<Key, Pte>
  type Procs = map<EnvId, Proc>
  type Bytes = seq<seq<Byte>>

  /** tr: the address map. bytes: page contents. procs: where each environment stands. */
  datatype Flat = Flat(tr: Trans, bytes: Bytes, procs: Procs)

  ghost predicate Running(procs: Procs, e: EnvId) {
    e in procs && procs[e].running
  }

  /** `p` is in the middle of a fork whose child is `c`. */
  ghost predicate Forking(procs: Procs, p: EnvId, c: EnvId) {
    p in procs && !procs[p].fork.NoFork? && procs[p].fork.child == c
  }

  /** Entries are present, in range of the memory and of the three areas, and carry one of fork's permissions. */
  ghost predicate Typed(tr: Trans, procs: Procs) {
    && (forall k :: k in tr ==> tr[k].Entry? && k.0 in procs)
    && (forall k :: k in tr ==> Region(k.1) || k.1 == PFTEMP || k.1 == UXSTACK)
    && (forall k :: k in tr && tr[k].perm.cow ==> tr[k].perm == COW)
    && (forall k :: k in tr && !Region(k.1) ==> tr[k].perm == RW)
  }

  ghost predicate Backed(tr: Trans, bytes: Bytes) {
    && (forall k :: k in tr ==> tr[k].Entry? && tr[k].page < |bytes|)
    && (forall p :: 0 <= p < |bytes| ==> |bytes[p]| == PGSIZE)
  }

  /** Some environment may store through this private mapping. */
  ghost predicate Writer(tr: Trans, procs: Procs, k: Key)
    requires k in tr && tr[k].Entry?
  {
    tr[k].perm.w && !tr[k].perm.share && Running(procs, k.0)
  }

  /**
   * The two moments at which a writable private page has a second mapping: the child has it and the parent's
   * mapping is about to be re-marked, or pgfault has moved it and PFTEMP is about to be unmapped.
   */
  ghost predicate Window(procs: Procs, k1: Key, k2: Key)
    requires k1.0 in procs
  {
    var p := procs[k1.0];
    || (k1.1 == k2.1 && p.fork == Mark(k2.0, k1.1, true))
    || (k1.0 == k2.0 && p.fault.FUnmap? && ((k1.1 == PFTEMP && k2.1 == p.fault.pn) ||
      (k1.1 == p.fault.pn && k2.1 == PFTEMP)))
  }

  /** Two mappings of one page agree on sharing, and outside the two windows neither can be stored through. */
  ghost predicate Alias(tr: Trans, procs: Procs)
    requires Typed(tr, procs)
  {
    forall k1, k2 :: k1 in tr && k2 in tr && k1 != k2 && tr[k1].page == tr[k2].page ==>
      tr[k1].perm.share == tr[k2].perm.share && (Writer(tr, procs, k1) ==> Window(procs, k1, k2))
  }

  /** All mappings of one page outside PFTEMP are at one page number. */
  ghost predicate SamePn(tr: Trans)
    requires forall k :: k in tr ==> tr[k].Entry?
  {
    forall k1, k2 :: k1 in tr && k2 in tr && tr[k1].page == tr[k2].page ==>
      k1.1 == k2.1 || k1.1 == PFTEMP || k2.1 == PFTEMP
  }

  ghost predicate CowAt(tr: Trans, k: Key) {
    Region(k.1) && k in tr && tr[k].Entry? && tr[k].perm == COW
  }

  ghost predicate RwAt(tr: Trans, k: Key) {
    k in tr && tr[k].Entry? && tr[k].perm == RW
  }

  /** pgfault's progress: PFTEMP is mapped exactly while it is needed, and holds the copy once it is made. */
  ghost predicate FaultOk(tr: Trans, bytes: Bytes, e: EnvId, fault: Fault)
    requires Backed(tr, bytes)
  {
    match fault
    case NoFault => (e, PFTEMP) !in tr
    case FAlloc(q) => (e, PFTEMP) !in tr && CowAt(tr, (e, q))
    case FCopy(q) => RwAt(tr, (e, PFTEMP)) && CowAt(tr, (e, q))
    case FMap(q) => RwAt(tr, (e, PFTEMP)) && CowAt(tr, (e, q)) && bytes[tr[(e, PFTEMP)].page] == bytes[tr[(e, q)].page]
    case FUnmap(q) => RwAt(tr, (e, PFTEMP)) && RwAt(tr, (e, q)) && Region(q) && tr[(e, PFTEMP)].page == tr[(e, q)].page
  }

  ghost predicate Faults(f: Flat)
    requires Backed(f.tr, f.bytes)
  {
    forall e :: Running(f.procs, e) ==> FaultOk(f.tr, f.bytes, e, f.procs[e].fault)
  }

  /** The child has page `pn` exactly when the parent has, equally shared and equally writable. */
  ghost predicate SamePage(tr: Trans, p: EnvId, c: EnvId, pn: nat) {
    && ((p, pn) in tr <==> (c, pn) in tr)
    && ((p, pn) in tr ==>
        var (x, y) := (tr[(p, pn)], tr[(c, pn)]);
        x.Entry? && y.Entry? && x.perm.share == y.perm.share && (x.perm.w || x.perm.cow) == (y.perm.w || y.perm.cow))
  }

  /** The child's mappings so far: below `limit`, never privately writable. */
  ghost predicate ChildOk(tr: Trans, c: EnvId, limit: nat) {
    forall k ::
      k in tr && k.0 == c ==> tr[k].Entry? && Region(k.1) && k.1 < limit && (tr[k].perm.w ==> tr[k].perm.share)
  }

  /**
   * The page being handed over: the child has it, and the parent's mapping is private and writable or copy-on-write.
   */
  ghost predicate MarkOk(tr: Trans, p: EnvId, c: EnvId, k: nat, wasW: bool) {
    && CowAt(tr, (c, k)) && (p, k) in tr && tr[(p, k)].Entry?
    && (tr[(p, k)].perm == COW || (tr[(p, k)].perm.w && !tr[(p, k)].perm.share))
    && (wasW ==> tr[(p, k)].perm.w && tr[(p, k)].page == tr[(c, k)].page)
  }

  ghost predicate ForkOk(tr: Trans, procs: Procs, p: EnvId, fk: Fork)
    requires !fk.NoFork?
  {
    var c := fk.child;
    && Running(procs, p) && c != p && c in procs && procs[c] == DEAD
    && (forall p2 :: Forking(procs, p2, c) ==> p2 == p)
    && UTEXT <= fk.pn <= USTACKTOP
    && (forall pn: nat :: UTEXT <= pn < fk.pn ==> SamePage(tr, p, c, pn))
    && match fk
       case Next(_, k) => ChildOk(tr, c, k)
       case Mark(_, k, wasW) => ChildOk(tr, c, k + 1) && MarkOk(tr, p, c, k, wasW)
  }

  ghost predicate Forks(tr: Trans, procs: Procs) {
    forall p :: p in procs && !procs[p].fork.NoFork? ==> ForkOk(tr, procs, p, procs[p].fork)
  }

  ghost predicate Inv(f: Flat) {
    && Typed(f.tr, f.procs) && Backed(f.tr, f.bytes)
    && Alias(f.tr, f.procs) && SamePn(f.tr) && Faults(f) && Forks(f.tr, f.procs)
  }

  // ---- the relation to the eager machine ----

  /** Environments whose memory matters: those that run, and children still under construction. */
  ghost predicate Relevant(procs: Procs, e: EnvId) {
    Running(procs, e) || exists p :: Forking(procs, p, e)
  }

  /** The child's page in the first window: not handed over yet. */
  ghost predicate Hidden(procs: Procs, k: Key) {
    exists p :: p in procs && procs[p].fork == Mark(k.0, k.1, true)
  }

  ghost predicate Match(tr: Trans, bytes: Bytes, a: Eager, k: Key) {
    if k !in tr then k !in a.cells
    else
      var x := tr[k];
      && x.Entry? && x.page < |bytes| && k in a.cells
      && (if x.perm.share then a.cells[k] == Shared(x.page, x.perm.w) && x.page in a.shm &&
        a.shm[x.page] == bytes[x.page]
          else a.cells[k] == Private(bytes[x.page], x.perm.w || x.perm.cow))
  }

  ghost predicate Rel(f: Flat, a: Eager) {
    && (forall k: Key :: Relevant(f.procs, k.0) && Region(k.1) && !Hidden(f.procs, k) ==> Match(f.tr, f.bytes, a, k))
    && (forall k :: k in a.cells ==> k.0 in f.procs)
  }

  // ---- stores ----

  /** A page an environment stores to privately has no other mapping that anyone looks at. */
  lemma StoreIsPrivate(f: Flat, k: Key, k2: Key)
    requires Inv(f) && k in f.tr && k2 in f.tr && k != k2 && Writer(f.tr, f.procs, k) && f.procs[k.0].fault.NoFault?
    requires f.tr[k].page == f.tr[k2].page
    ensures Hidden(f.procs, k2) && !Running(f.procs, k2.0)
  {
    assert Window(f.procs, k, k2);
    assert f.procs[k.0].fork == Mark(k2.0, k2.1, true);
    assert ForkOk(f.tr, f.procs, k.0, f.procs[k.0].fork);
  }

  ghost function Stored(f: Flat, k: Key, off: nat, b: Byte): Flat
    requires Backed(f.tr, f.bytes) && k in f.tr
  {
    f.(bytes := f.bytes[f.tr[k].page := SetByte(f.bytes[f.tr[k].page], off, b)])
  }

  /** `k` is a mapping its environment may store through right now. */
  ghost predicate Storable(f: Flat, k: Key) {
    k in f.tr && f.tr[k].Entry? && Region(k.1) && f.tr[k].perm.w && Running(f.procs, k.0) && f.procs[k.0].fault.NoFault?
  }

  lemma WriteKeepsInv(f: Flat, k: Key, off: nat, b: Byte)
    requires Inv(f) && Storable(f, k)
    ensures Inv(Stored(f, k, off, b))
  {
    var g := Stored(f, k, off, b);
    forall e | Running(g.procs, e) ensures FaultOk(g.tr, g.bytes, e, g.procs[e].fault) {
      assert FaultOk(f.tr, f.bytes, e, f.procs[e].fault);
      if f.procs[e].fault.FMap? {
        var q := f.procs[e].fault.pn;
        if f.tr[(e, q)].page == f.tr[k].page && !f.tr[k].perm.share { StoreIsPrivate(f, k, (e, q)); }
        if f.tr[(e, PFTEMP)].page == f.tr[k].page && !f.tr[k].perm.share { StoreIsPrivate(f, k, (e, PFTEMP)); }
      }
    }
  }

  lemma WriteKeepsRel(f: Flat, a: Eager, k: Key, off: nat, b: Byte)
    requires Inv(f) && Rel(f, a) && Storable(f, k)
    ensures Rel(Stored(f, k, off, b), EagerStep(a, Wrote(k.0, k.1, off, b)))
  {
    var g := Stored(f, k, off, b);
    var a' := EagerStep(a, Wrote(k.0, k.1, off, b));
    RunningNotHidden(f, k);
    assert k == (k.0, k.1);
    assert Match(f.tr, f.bytes, a, k);
    forall k2: Key | Relevant(g.procs, k2.0) && Region(k2.1) && !Hidden(g.procs, k2)
      ensures Match(g.tr, g.bytes, a', k2) {
      assert Match(f.tr, f.bytes, a, k2);
      if k2 != k && k2 in f.tr && f.tr[k2].page == f.tr[k].page && !f.tr[k].perm.share {
        StoreIsPrivate(f, k, k2);
      }
    }
  }

  lemma RunningNotHidden(f: Flat, k: Key)
    requires Forks(f.tr, f.procs) && Running(f.procs, k.0)
    ensures !Hidden(f.procs, k)
  {
    forall p | p in f.procs ensures f.procs[p].fork != Mark(k.0, k.1, true) {
      if !f.procs[p].fork.NoFork? { assert ForkOk(f.tr, f.procs, p, f.procs[p].fork); }
    }
  }
}
