/** What each change to the disk does to ownership and to the files' bytes. */
module FsFacts {
  import opened Blocks
  import opened FsModel

  /** No file's bytes differ but those of block `bno` of `f`. */
  ghost predicate OthersKept(s: Fs, s': Fs, f: FileId, bno: nat)
    requires Shape(s) && Shape(s')
  {
    forall g, c :: !(g == f && c == bno) ==> DataAt(s', g, c) == DataAt(s, g, c)
  }

  ghost predicate AllKept(s: Fs, s': Fs)
    requires Shape(s) && Shape(s')
  {
    forall g, c :: DataAt(s', g, c) == DataAt(s, g, c)
  }

  /** A file that may store a block number in entry `bno`. */
  ghost predicate Entry(s: Fs, f: FileId, bno: nat) {
    Shape(s) && f in s.files && bno < MAXBLOCKS && (bno >= NDIRECT ==> s.files[f].indirect != 0)
  }

  lemma SetPtrDiffers(s: Fs, f: FileId, bno: nat, p: nat)
    requires Entry(s, f, bno) && Single(s) && p < WORD
    ensures DiffersAt(s, SetPtr(s, f, bno, p), Data(f, bno)) && At(SetPtr(s, f, bno, p), Data(f, bno)) == p
  {
    var s' := SetPtr(s, f, bno, p);
    assert Shape(s');
    if bno >= NDIRECT {
      var t := s.files[f].indirect;
      assert At(s, Table(f)) == t;
      WordStored(s.blocks[t], bno - NDIRECT, p, bno - NDIRECT);
      forall y | y != Data(f, bno) ensures At(s', y) == At(s, y) {
        if y.Data? && y.f in s.files && NDIRECT <= y.bno < MAXBLOCKS && s.files[y.f].indirect == t {
          assert At(s, Table(y.f)) == t;
          WordStored(s.blocks[t], bno - NDIRECT, p, y.bno - NDIRECT);
        }
      }
    }
  }

  /** Writing a block number touches no data block. */
  lemma SetPtrKeeps(s: Fs, f: FileId, bno: nat, p: nat)
    requires Entry(s, f, bno) && Single(s) && p < WORD
    ensures Shape(SetPtr(s, f, bno, p)) && OthersKept(s, SetPtr(s, f, bno, p), f, bno)
  {
    var s' := SetPtr(s, f, bno, p);
    SetPtrDiffers(s, f, bno, p);
    forall g, c | !(g == f && c == bno) ensures DataAt(s', g, c) == DataAt(s, g, c) {
      assert At(s', Data(g, c)) == At(s, Data(g, c));
      assert At(s, Table(f)) == s.files[f].indirect;
    }
  }

  /** file_get_block's new data block. */
  lemma ClaimOk(s: Fs, f: FileId, bno: nat, p: nat)
    requires FsOk(s) && Entry(s, f, bno) && Ptr(s, f, bno) == 0
    requires 0 < p < |s.free| && s.free[p]
    ensures var s' := Claim(s, f, bno, p);
      && DiffersAt(s, s', Data(f, bno)) && OthersKept(s, s', f, bno) && At(s', Data(f, bno)) == p
      && (FsOk(s') <==> s.files[f].size > bno * 4096)
  {
    var t := SetPtr(s, f, bno, p);
    var s' := Claim(s, f, bno, p);
    SetPtrDiffers(s, f, bno, p);
    SetPtrKeeps(s, f, bno, p);
    SameTables(t, s');
    AddOwner(s, s', Data(f, bno), p);
  }

  /** The bitmap does not say what a slot holds. */
  lemma SameTables(t: Fs, s': Fs)
    requires Shape(t) && |s'.free| == |t.free| && s' == t.(free := s'.free)
    ensures Shape(s') && (forall x :: At(s', x) == At(t, x)) && AllKept(t, s')
  {
    assert forall x :: At(s', x) == At(t, x);
  }

  /** file_block_walk's new indirect block. */
  lemma ClaimTableOk(s: Fs, f: FileId, p: nat)
    requires FsOk(s) && f in s.files && s.files[f].indirect == 0
    requires 0 < p < |s.free| && s.free[p]
    ensures var s' := ClaimTable(s, f, p);
      && DiffersAt(s, s', Table(f)) && AllKept(s, s') && At(s', Table(f)) == p
      && (FsOk(s') <==> s.files[f].size > 36864)
  {
    var s' := ClaimTable(s, f, p);
    ClaimTableDiffers(s, f, p);
    AddOwner(s, s', Table(f), p);
    forall g, c ensures DataAt(s', g, c) == DataAt(s, g, c) {
      assert At(s', Data(g, c)) == At(s, Data(g, c));
    }
  }

  lemma ClaimTableDiffers(s: Fs, f: FileId, p: nat)
    requires Shape(s) && InUse(s) && f in s.files && s.files[f].indirect == 0 && 0 < p < |s.free| && s.free[p]
    ensures DiffersAt(s, ClaimTable(s, f, p), Table(f)) && At(ClaimTable(s, f, p), Table(f)) == p
  {
    var s' := ClaimTable(s, f, p);
    assert Shape(s');
    forall y | y != Table(f) ensures At(s', y) == At(s, y) {
      if y.f in s.files {
        assert At(s, Table(y.f)) == s.files[y.f].indirect;
        if y.Data? && y.f == f && NDIRECT <= y.bno < MAXBLOCKS { ZeroWords(y.bno - NDIRECT); }
      }
    }
  }

  /** file_free_block on a block that is there. */
  lemma ReleaseOk(s: Fs, f: FileId, bno: nat)
    requires FsOk(s) && Entry(s, f, bno) && Ptr(s, f, bno) != 0
    ensures Ptr(s, f, bno) < |s.free|
    ensures var s' := Release(s, f, bno); FsOk(s') && OthersKept(s, s', f, bno) && At(s', Data(f, bno)) == 0
  {
    assert At(s, Data(f, bno)) == Ptr(s, f, bno);
    var s' := Release(s, f, bno);
    SetPtrDiffers(s, f, bno, 0);
    SetPtrKeeps(s, f, bno, 0);
    SameTables(SetPtr(s, f, bno, 0), s');
    DropOwner(s, s', Data(f, bno));
  }

  /** Freeing an indirect block that names no block. */
  lemma ReleaseTableOk(s: Fs, f: FileId)
    requires FsOk(s) && f in s.files && s.files[f].indirect != 0
    requires forall c :: NDIRECT <= c < MAXBLOCKS ==> Ptr(s, f, c) == 0
    ensures var s' := ReleaseTable(s, f); FsOk(s') && AllKept(s, s') && At(s', Table(f)) == 0
  {
    var s' := ReleaseTable(s, f);
    assert Shape(s');
    assert At(s, Table(f)) == s.files[f].indirect;
    forall y | y != Table(f) ensures At(s', y) == At(s, y) {
      if y.Data? && y.f == f && NDIRECT <= y.bno < MAXBLOCKS { assert Ptr(s, f, y.bno) == 0; }
    }
    DropOwner(s, s', Table(f));
  }

  /** Storing bytes in a file's block changes no pointer and no other byte. */
  lemma StoreOk(s: Fs, f: FileId, bno: nat, off: nat, data: seq<Byte>)
    requires FsOk(s) && f in s.files && Ptr(s, f, bno) != 0 && off + |data| <= BLKSIZE
    ensures Ptr(s, f, bno) < |s.blocks|
    ensures var s' := Store(s, Ptr(s, f, bno), off, data);
      && FsOk(s') && OthersKept(s, s', f, bno) && Ptr(s', f, bno) == Ptr(s, f, bno)
      && DataAt(s', f, bno) == Overlay(s.blocks[Ptr(s, f, bno)], off, data)
  {
    var p := Ptr(s, f, bno);
    assert At(s, Data(f, bno)) == p;
    var s' := Store(s, p, off, data);
    assert Shape(s');
    forall y ensures At(s', y) == At(s, y) {
      if y.f in s.files { assert At(s, Table(y.f)) == s.files[y.f].indirect; }
    }
    SameOwners(s, s');
  }

  lemma SameOwners(s: Fs, s': Fs)
    requires FsOk(s) && Shape(s') && s'.free == s.free && s'.reserved == s.reserved && s'.files == s.files
    requires forall y :: At(s', y) == At(s, y)
    ensures FsOk(s')
  {
    forall q {:trigger s'.free[q]} | 0 < q < |s'.free| && !s'.free[q] && q !in s'.reserved ensures Owned(s', q) {
      assert Owned(s, q);
      var y :| At(s, y) == q;
      assert At(s', y) == q;
    }
  }

  /** The file owns nothing that a size of `n` has no use for. */
  ghost predicate Covers(s: Fs, f: FileId, n: int)
    requires Shape(s)
  {
    forall x: Slot :: x.f == f && At(s, x) != 0 ==> Needs(n, x)
  }

  /** A new size is right exactly when the file owns nothing beyond it. */
  lemma SetSizeOk(s: Fs, f: FileId, n: int)
    requires FsOk(s) && f in s.files
    ensures var s' := SetSize(s, f, n); Shape(s') && AllKept(s, s')
    ensures FsOk(SetSize(s, f, n)) <==> 0 <= n <= MAXSIZE && Covers(s, f, n)
  {
    var s' := SetSize(s, f, n);
    assert Shape(s') && forall y :: At(s', y) == At(s, y);
    assert s'.files[f].size == n;
    SetSizeSized(s, f, n);
    assert NoLeak(s') by {
      forall q {:trigger s'.free[q]} | 0 < q < |s'.free| && !s'.free[q] && q !in s'.reserved ensures Owned(s', q) {
        assert s.free[q] == s'.free[q] && Owned(s, q);
        var y :| At(s, y) == q;
        assert At(s', y) == q;
      }
    }
  }

  lemma SetSizeSized(s: Fs, f: FileId, n: int)
    requires Shape(s) && Sized(s) && f in s.files && Shape(SetSize(s, f, n))
    ensures Sized(SetSize(s, f, n)) <==> Covers(s, f, n)
  {
    var s' := SetSize(s, f, n);
    assert forall y :: At(s', y) == At(s, y);
    if Sized(s') {
      forall x: Slot | x.f == f && At(s, x) != 0 ensures Needs(n, x) { assert At(s', x) != 0; }
    }
    if Covers(s, f, n) {
      forall x | At(s', x) != 0 ensures x.f in s'.files && Needs(s'.files[x.f].size, x) { assert At(s, x) != 0; }
    }
  }
}
