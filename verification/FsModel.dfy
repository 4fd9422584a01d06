/** The file server's disk: bitmap, blocks and inodes, and who owns which block. */
module FsModel {
  import opened Blocks

  type FileId = nat

  datatype File = File(size: int, direct: seq<nat>, indirect: nat)

  /** `free` is the bitmap; `reserved` are block 0, the super block and the bitmap blocks. */
  datatype Fs = Fs(free: seq<bool>, blocks: seq<Block>, files: map<FileId, File>, reserved: set<nat>)

  /** The places that hold a block number: a file's entry for its block `bno`, or its indirect pointer. */
  datatype Slot = Data(f: FileId, bno: nat) | Table(f: FileId)

  /** NDIRECT + NINDIRECT, and the bytes so many blocks hold. */
  const MAXBLOCKS: nat := 1034
  const MAXFILESIZE: nat := 4235264

  ghost predicate Shape(s: Fs) {
    && |s.blocks| == |s.free| < WORD
    && (forall f :: f in s.files ==> |s.files[f].direct| == NDIRECT)
    && (forall f :: f in s.files ==> s.files[f].indirect < |s.free|)
  }

  /** Entry `bno` of file `f`; 0 is the null block number. */
  function Ptr(s: Fs, f: FileId, bno: nat): nat
    requires f in s.files && |s.files[f].direct| == NDIRECT && s.files[f].indirect < |s.blocks|
  {
    if bno < NDIRECT then s.files[f].direct[bno]
    else if bno >= MAXBLOCKS || s.files[f].indirect == 0 then 0
    else GetWord(s.blocks[s.files[f].indirect], bno - NDIRECT)
  }

  ghost function At(s: Fs, x: Slot): nat
    requires Shape(s)
  {
    if x.f !in s.files then 0 else if x.Table? then s.files[x.f].indirect else Ptr(s, x.f, x.bno)
  }

  /** The file is long enough to own what the slot names; the formatter gives a file of ten blocks an indirect block. */
  ghost predicate Needs(size: int, x: Slot) {
    if x.Table? then size > 36864 else size > x.bno * 4096
  }

  /** Every block named by a slot is in use, unreserved and within its file's size. */
  ghost predicate InUse(s: Fs)
    requires Shape(s)
  {
    forall x {:trigger At(s, x)} ::
      At(s, x) != 0 ==> At(s, x) < |s.free| && !s.free[At(s, x)] && At(s, x) !in s.reserved
  }

  ghost predicate Sized(s: Fs)
    requires Shape(s)
  {
    forall x {:trigger At(s, x)} :: At(s, x) != 0 ==> x.f in s.files && Needs(s.files[x.f].size, x)
  }

  /** No block has two owners. */
  ghost predicate Single(s: Fs)
    requires Shape(s)
  {
    forall x, y {:trigger At(s, x), At(s, y)} :: At(s, x) != 0 && At(s, x) == At(s, y) ==> x == y
  }

  ghost predicate Owned(s: Fs, p: nat)
    requires Shape(s)
  {
    exists x :: At(s, x) == p
  }

  /** No block is in use without an owner. */
  ghost predicate NoLeak(s: Fs)
    requires Shape(s)
  {
    forall p {:trigger s.free[p]} :: 0 < p < |s.free| && !s.free[p] && p !in s.reserved ==> Owned(s, p)
  }

  /** The sizes whose round-up to blocks stays within off_t. */
  const MAXSIZE: int := 0x7FFF_F000

  ghost predicate SizesOk(s: Fs) {
    forall f :: f in s.files ==> 0 <= s.files[f].size <= MAXSIZE
  }

  ghost predicate FsOk(s: Fs) {
    && Shape(s) && InUse(s) && Sized(s) && Single(s) && NoLeak(s) && SizesOk(s)
    && 0 in s.reserved && (forall p :: p in s.reserved && p < |s.free| ==> !s.free[p])
  }

  /** The block behind a slot, if there is one. */
  ghost function DataAt(s: Fs, f: FileId, bno: nat): (b: seq<Byte>)
    requires Shape(s)
  {
    var p := At(s, Data(f, bno));
    if p == 0 || p >= |s.blocks| then [] else s.blocks[p]
  }

  // ---- the four ways the server changes the disk ----

  /** Store a block number in entry `bno` of `f`. */
  function SetPtr(s: Fs, f: FileId, bno: nat, p: nat): Fs
    requires f in s.files && |s.files[f].direct| == NDIRECT && s.files[f].indirect < |s.blocks| && bno < MAXBLOCKS &&
      p < WORD
  {
    var file := s.files[f];
    if bno < NDIRECT then s.(files := s.files[f := file.(direct := file.direct[bno := p])])
    else s.(blocks := s.blocks[file.indirect := SetWord(s.blocks[file.indirect], bno - NDIRECT, p)])
  }

  /** Take block `p` for a file's data: its bytes are left as they were. */
  function Claim(s: Fs, f: FileId, bno: nat, p: nat): Fs
    requires f in s.files && |s.files[f].direct| == NDIRECT && s.files[f].indirect < |s.blocks| && bno < MAXBLOCKS
    requires p < |s.free| < WORD
  {
    SetPtr(s, f, bno, p).(free := s.free[p := false])
  }

  /** Take block `p` as a file's indirect block, cleared. */
  function ClaimTable(s: Fs, f: FileId, p: nat): Fs
    requires f in s.files && p < |s.free| && p < |s.blocks|
  {
    Fs(s.free[p := false], s.blocks[p := ZeroBlock()], s.files[f := s.files[f].(indirect := p)], s.reserved)
  }

  /** Give back a data block. */
  function Release(s: Fs, f: FileId, bno: nat): Fs
    requires f in s.files && |s.files[f].direct| == NDIRECT && s.files[f].indirect < |s.blocks| && bno < MAXBLOCKS
    requires Ptr(s, f, bno) < |s.free|
  {
    SetPtr(s, f, bno, 0).(free := s.free[Ptr(s, f, bno) := true])
  }

  /** Give back the indirect block. */
  function ReleaseTable(s: Fs, f: FileId): Fs
    requires f in s.files && s.files[f].indirect < |s.free|
  {
    s.(free := s.free[s.files[f].indirect := true], files := s.files[f := s.files[f].(indirect := 0)])
  }

  /** Store bytes in block `p`. */
  function Store(s: Fs, p: nat, off: nat, data: seq<Byte>): Fs
    requires p < |s.blocks| && off + |data| <= BLKSIZE
  {
    s.(blocks := s.blocks[p := Overlay(s.blocks[p], off, data)])
  }

  function SetSize(s: Fs, f: FileId, n: int): Fs
    requires f in s.files
  {
    s.(files := s.files[f := s.files[f].(size := n)])
  }

  // ---- ownership ----

  /** `s'` differs from `s` in slot `x` only. */
  ghost predicate DiffersAt(s: Fs, s': Fs, x: Slot) {
    && Shape(s) && Shape(s') && |s'.free| == |s.free| && s'.reserved == s.reserved
    && s'.files.Keys == s.files.Keys && (forall f :: f in s.files ==> s'.files[f].size == s.files[f].size)
    && forall y :: y != x ==> At(s', y) == At(s, y)
  }

  /** A free block given to an empty slot. */
  lemma AddOwner(s: Fs, s': Fs, x: Slot, p: nat)
    requires FsOk(s) && DiffersAt(s, s', x) && 0 < p < |s.free| && s.free[p]
    requires s'.free == s.free[p := false] && At(s, x) == 0 && At(s', x) == p
    requires x.f in s.files
    ensures FsOk(s') <==> Needs(s.files[x.f].size, x)
  {
    assert p !in s.reserved && s'.files[x.f].size == s.files[x.f].size;
    AddSingle(s, s', x, p);
    AddNoLeak(s, s', x, p);
  }

  lemma AddSingle(s: Fs, s': Fs, x: Slot, p: nat)
    requires Shape(s) && InUse(s) && Single(s) && DiffersAt(s, s', x) && p < |s.free| && s.free[p] && At(s', x) == p
    ensures Single(s')
  {
    forall y, z | At(s', y) != 0 && At(s', y) == At(s', z) ensures y == z {
      if y != x { assert At(s', y) == At(s, y); }
      if z != x { assert At(s', z) == At(s, z); }
    }
  }

  lemma AddNoLeak(s: Fs, s': Fs, x: Slot, p: nat)
    requires Shape(s) && NoLeak(s) && DiffersAt(s, s', x) && p < |s.free| && At(s, x) == 0 && At(s', x) == p
    requires s'.free == s.free[p := false]
    ensures NoLeak(s')
  {
    forall q {:trigger s'.free[q]} | 0 < q < |s'.free| && !s'.free[q] && q !in s'.reserved ensures Owned(s', q) {
      if q == p {
        assert At(s', x) == q;
      } else {
        assert !s.free[q] && Owned(s, q);
        var y :| At(s, y) == q;
        assert At(s', y) == q;
      }
    }
  }

  /** An owned block freed and its slot cleared. */
  lemma DropOwner(s: Fs, s': Fs, x: Slot)
    requires FsOk(s) && DiffersAt(s, s', x) && 0 < At(s, x) < |s.free|
    requires s'.free == s.free[At(s, x) := true] && At(s', x) == 0
    ensures FsOk(s')
  {
    DropInUse(s, s', x);
    DropNoLeak(s, s', x);
  }

  lemma DropInUse(s: Fs, s': Fs, x: Slot)
    requires FsOk(s) && DiffersAt(s, s', x) && 0 < At(s, x) < |s.free|
    requires s'.free == s.free[At(s, x) := true] && At(s', x) == 0
    ensures InUse(s') && Single(s') && At(s, x) !in s.reserved
  {
    forall y | At(s', y) != 0 ensures At(s', y) < |s'.free| && !s'.free[At(s', y)] && At(s', y) !in s'.reserved {
      assert y != x && At(s', y) == At(s, y) && At(s, y) != At(s, x);
    }
  }

  lemma DropNoLeak(s: Fs, s': Fs, x: Slot)
    requires Shape(s) && NoLeak(s) && DiffersAt(s, s', x) && At(s, x) < |s.free|
    requires s'.free == s.free[At(s, x) := true]
    ensures NoLeak(s')
  {
    forall q {:trigger s'.free[q]} | 0 < q < |s'.free| && !s'.free[q] && q !in s'.reserved ensures Owned(s', q) {
      assert !s.free[q] && Owned(s, q);
      var y :| At(s, y) == q;
      assert At(s', y) == q;
    }
  }
}
