/** The two-level tables refine a finite map from (environment, user page) to (page, permissions). */
module AddressMap {
  import opened Counting
  import opened Vm
  import opened VmFacts
  import opened EnvFacts
  import opened Syscalls

  type Key = (EnvId, nat)

  ghost function Pairs(envs: set<EnvId>): set<Key> {
    set e, pn: nat | e in envs && pn < USERPAGES :: (e, pn)
  }

  ghost function Translations(vm: Vm): map<Key, Pte>
    requires Shape(vm)
  {
    map k | k in Pairs(vm.dir.Keys) && Xlate(vm, k.0, k.1).Entry? :: Xlate(vm, k.0, k.1)
  }

  lemma TranslationsExact(vm: Vm)
    requires Shape(vm)
    ensures forall e: EnvId, pn: nat :: (e, pn) in Translations(vm) <==> Xlate(vm, e, pn).Entry?
    ensures forall e: EnvId, pn: nat :: Xlate(vm, e, pn).Entry? ==> Translations(vm)[(e, pn)] == Xlate(vm, e, pn)
  {
    forall e: EnvId, pn: nat | Xlate(vm, e, pn).Entry? ensures (e, pn) in Pairs(vm.dir.Keys) {}
  }

  /** The map after one key is given the entry `x`. */
  ghost function Put(m: map<Key, Pte>, e: EnvId, pn: nat, x: Pte): map<Key, Pte> {
    if x.Zero? then m - {(e, pn)} else m[(e, pn) := x]
  }

  lemma RemappedKey(vm: Vm, v: Vm, e: EnvId, pn: nat, x: Pte, k: Key)
    requires Shape(vm) && Shape(v) && Xlate(v, e, pn) == x
    requires k != (e, pn) ==> Xlate(v, k.0, k.1) == Xlate(vm, k.0, k.1)
    ensures k in Translations(v) <==> k in Put(Translations(vm), e, pn, x)
    ensures k in Translations(v) ==> Translations(v)[k] == Put(Translations(vm), e, pn, x)[k]
  {
    TranslationsExact(vm);
    TranslationsExact(v);
    assert k == (k.0, k.1);
  }

  lemma RemappedMap(vm: Vm, v: Vm, e: EnvId, pn: nat, x: Pte)
    requires Remapped(vm, v, e, pn, x)
    ensures Translations(v) == Put(Translations(vm), e, pn, x)
  {
    RemappedKeys(vm, v, e, pn, x);
  }

  lemma RemappedKeys(vm: Vm, v: Vm, e: EnvId, pn: nat, x: Pte)
    requires Shape(vm) && Shape(v) && Xlate(v, e, pn) == x
    requires forall e2: EnvId, pn2: nat :: e2 != e || pn2 != pn ==> Xlate(v, e2, pn2) == Xlate(vm, e2, pn2)
    ensures Translations(v) == Put(Translations(vm), e, pn, x)
  {
    var (m, w) := (Translations(v), Put(Translations(vm), e, pn, x));
    forall k: Key ensures k in m <==> k in w { RemappedKey(vm, v, e, pn, x, k); }
    forall k: Key | k in m ensures m[k] == w[k] { RemappedKey(vm, v, e, pn, x, k); }
    assert m == w;
  }

  lemma UnmovedMap(vm: Vm, v: Vm)
    requires Shape(vm) && Shape(v)
    requires forall e: EnvId, pn: nat :: Xlate(v, e, pn) == Xlate(vm, e, pn)
    ensures Translations(v) == Translations(vm)
  {
    TranslationsExact(vm);
    TranslationsExact(v);
    forall k: Key ensures k in Translations(v) <==> k in Translations(vm) { assert k == (k.0, k.1); }
    forall k: Key | k in Translations(v) ensures Translations(v)[k] == Translations(vm)[k] { assert k == (k.0, k.1); }
  }

  /**
   * page_insert is a map update, whatever the counts are, or a failure that leaves the whole state alone. The state it
   * leaves is valid if and only if the page was mapped there already or its count does not wrap.
   */
  lemma PageInsertRefines(vm: Vm, e: EnvId, p: nat, pn: nat, perm: Perm)
    requires Valid(vm) && e in vm.dir && pn < USERPAGES && IsData(vm, p)
    ensures var (v, ok) := PageInsert(vm, e, p, pn, perm);
      if ok then Translations(v) == Translations(vm)[(e, pn) := Entry(p, perm)] else v == vm
    ensures var (v, ok) := PageInsert(vm, e, p, pn, perm);
      Valid(v) <==> !ok || At(vm, PteSlot(e, pn)) == Some(p) || vm.ref[p] + 1 < REFLIM
  {
    PageInsertFacts(vm, e, p, pn, perm);
    var (v, ok) := PageInsert(vm, e, p, pn, perm);
    if ok { RemappedKeys(vm, v, e, pn, Entry(p, perm)); }
  }

  /** page_remove is a map deletion. */
  lemma PageRemoveRefines(vm: Vm, e: EnvId, pn: nat)
    requires Valid(vm) && e in vm.dir && pn < USERPAGES
    ensures Valid(PageRemove(vm, e, pn))
    ensures Translations(PageRemove(vm, e, pn)) == Translations(vm) - {(e, pn)}
  {
    PageRemoveFacts(vm, e, pn);
    RemappedMap(vm, PageRemove(vm, e, pn), e, pn, Zero);
  }

  /** Creating a page table changes no translation. */
  lemma PgdirWalkRefines(vm: Vm, e: EnvId, pn: nat)
    requires Valid(vm) && e in vm.dir && pn < USERPAGES
    ensures Valid(PgdirWalk(vm, e, pn).0)
    ensures Translations(PgdirWalk(vm, e, pn).0) == Translations(vm)
  {
    PgdirWalkFacts(vm, e, pn);
    UnmovedMap(vm, PgdirWalk(vm, e, pn).0);
  }

  /** The map without the keys of one environment. */
  ghost function Without(m: map<Key, Pte>, e: EnvId): map<Key, Pte> {
    map k | k in m && k.0 != e :: m[k]
  }

  lemma RestrictedKey(vm: Vm, v: Vm, e: EnvId, k: Key)
    requires Shape(vm) && Shape(v) && e !in v.dir
    requires k.0 != e ==> Xlate(v, k.0, k.1) == Xlate(vm, k.0, k.1)
    ensures k in Translations(v) <==> k in Without(Translations(vm), e)
    ensures k in Translations(v) ==> Translations(v)[k] == Without(Translations(vm), e)[k]
  {
    TranslationsExact(vm);
    TranslationsExact(v);
    assert k == (k.0, k.1);
  }

  lemma RestrictedMap(vm: Vm, v: Vm, e: EnvId)
    requires Shape(vm) && Shape(v) && e !in v.dir
    requires forall e2: EnvId, pn: nat :: e2 != e ==> Xlate(v, e2, pn) == Xlate(vm, e2, pn)
    ensures Translations(v) == Without(Translations(vm), e)
  {
    var (m, w) := (Translations(v), Without(Translations(vm), e));
    forall k: Key ensures k in m <==> k in w { RestrictedKey(vm, v, e, k); }
    forall k: Key | k in m ensures m[k] == w[k] { RestrictedKey(vm, v, e, k); }
    assert m == w;
  }

  /** env_free deletes exactly the keys of its environment. */
  lemma EnvFreeRefines(vm: Vm, e: EnvId)
    requires Valid(vm) && e in vm.dir
    ensures Valid(EnvFree(vm, e)) && Translations(EnvFree(vm, e)) == Without(Translations(vm), e)
  {
    EnvFreeFacts(vm, e);
    RestrictedMap(vm, EnvFree(vm, e), e);
  }
}
