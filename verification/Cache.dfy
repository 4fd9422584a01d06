/** bc.c: the write-back block cache, fs_sync and file_flush. */
module Cache {
  import opened Blocks
  import opened FsModel
  import opened FileServer

  /** Blocks on disk, blocks in memory, and the blocks in memory whose PTE_D bit is set. */
  datatype Cache = Cache(disk: seq<Block>, mem: map<nat, Block>, dirty: set<nat>)

  /** What the server sees: memory where a block is mapped, the disk elsewhere. */
  ghost function View(c: Cache): (v: seq<Block>)
    ensures |v| == |c.disk|
  {
    seq(|c.disk|, i requires 0 <= i < |c.disk| => if i in c.mem then c.mem[i] else c.disk[i])
  }

  /** Block 0 is never mapped, only mapped blocks are dirty, and a clean mapped block is what the disk holds. */
  ghost predicate CacheOk(c: Cache) {
    && (forall b :: b in c.mem ==> 0 < b < |c.disk|)
    && (forall b :: b in c.dirty ==> b in c.mem)
    && (forall b :: b in c.mem && b !in c.dirty ==> c.mem[b] == c.disk[b])
  }

  // ---- what the server and the hardware do ----

  /** bc_pgfault. */
  function Fault(c: Cache, b: nat): Cache
    requires b < |c.disk|
  {
    if b in c.mem then c else c.(mem := c.mem[b := c.disk[b]])
  }

  /** A store to a mapped block sets its dirty bit. */
  function Touch(c: Cache, b: nat, off: nat, data: seq<Byte>): Cache
    requires b in c.mem && off + |data| <= BLKSIZE
  {
    c.(mem := c.mem[b := Overlay(c.mem[b], off, data)], dirty := c.dirty + {b})
  }

  /** flush_block. */
  function Flush(c: Cache, b: nat): Cache
    requires b < |c.disk|
  {
    if b !in c.mem || b !in c.dirty then c else c.(disk := c.disk[b := c.mem[b]], dirty := c.dirty - {b})
  }

  /** sys_page_unmap of a clean block. */
  function Evict(c: Cache, b: nat): Cache {
    if b in c.dirty then c else c.(mem := c.mem - {b})
  }

  /** The cache is lost. */
  function Crash(c: Cache): Cache {
    c.(mem := map[], dirty := {})
  }

  datatype Op = Load(b: nat) | Save(b: nat, off: nat, data: seq<Byte>) | Write(b: nat) | Unmap(b: nat)

  ghost predicate CanDo(n: nat, op: Op) {
    0 < op.b < n && (op.Save? ==> op.off + |op.data| <= BLKSIZE)
  }

  ghost function Step(c: Cache, op: Op): Cache
    requires CanDo(|c.disk|, op)
  {
    match op
    case Load(b) => Fault(c, b)
    case Save(b, off, data) => Touch(Fault(c, b), b, off, data)
    case Write(b) => Flush(c, b)
    case Unmap(b) => Evict(c, b)
  }

  /** The same operation on a disk without a cache. */
  ghost function Direct(v: seq<Block>, op: Op): seq<Block>
    requires CanDo(|v|, op)
  {
    if op.Save? then v[op.b := Overlay(v[op.b], op.off, op.data)] else v
  }

  /** Faults, flushes and evictions cannot be seen; a store is seen as a store. */
  lemma StepTransparent(c: Cache, op: Op)
    requires CacheOk(c) && CanDo(|c.disk|, op)
    ensures |Step(c, op).disk| == |c.disk| && CacheOk(Step(c, op)) && View(Step(c, op)) == Direct(View(c), op)
  {
    var c' := Step(c, op);
    assert |c'.disk| == |c.disk|;
    forall i | 0 <= i < |c.disk| ensures View(c')[i] == Direct(View(c), op)[i] {
    }
  }

  ghost predicate CanDoAll(n: nat, ops: seq<Op>) {
    forall i :: 0 <= i < |ops| ==> CanDo(n, ops[i])
  }

  ghost function Run(c: Cache, ops: seq<Op>): Cache
    requires CacheOk(c) && CanDoAll(|c.disk|, ops)
    decreases |ops|
  {
    if ops == [] then c else StepTransparent(c, ops[0]); Run(Step(c, ops[0]), ops[1..])
  }

  ghost function DirectRun(v: seq<Block>, ops: seq<Op>): seq<Block>
    requires CanDoAll(|v|, ops)
    decreases |ops|
  {
    if ops == [] then v else DirectRun(Direct(v, ops[0]), ops[1..])
  }

  /** In every run the server sees what it would see without a cache. */
  lemma {:induction false} RunTransparent(c: Cache, ops: seq<Op>)
    requires CacheOk(c) && CanDoAll(|c.disk|, ops)
    ensures var d := Run(c, ops); CacheOk(d) && |d.disk| == |c.disk| && View(d) == DirectRun(View(c), ops)
    decreases |ops|
  {
    if ops != [] {
      StepTransparent(c, ops[0]);
      RunTransparent(Step(c, ops[0]), ops[1..]);
    }
  }

  /** Block `b` would survive losing the cache. */
  ghost predicate Durable(c: Cache, b: nat) {
    b < |c.disk| && c.disk[b] == View(c)[b]
  }

  lemma FlushDurable(c: Cache, b: nat)
    requires CacheOk(c) && b < |c.disk|
    ensures var c' := Flush(c, b); |c'.disk| == |c.disk| && CacheOk(c') && View(c') == View(c) && Durable(c', b)
    ensures forall p: nat :: Durable(c, p) ==> Durable(Flush(c, b), p)
  {
    var c' := Flush(c, b);
    assert View(c') == View(c);
  }

  lemma FaultSame(c: Cache, b: nat)
    requires CacheOk(c) && 0 < b < |c.disk|
    ensures var c' := Fault(c, b);
      CacheOk(c') && c'.disk == c.disk && View(c') == View(c) && b in c'.mem && c'.mem[b] == View(c)[b]
  {
    assert View(Fault(c, b)) == View(c);
  }

  /** If every block is durable, losing the cache loses nothing. */
  lemma CrashLosesNothing(c: Cache)
    requires forall b: nat :: b < |c.disk| ==> Durable(c, b)
    ensures View(Crash(c)) == View(c) && CacheOk(Crash(c))
  {
    forall i | 0 <= i < |c.disk| ensures View(Crash(c))[i] == View(c)[i] { assert Durable(c, i); }
  }

  lemma DurableKept(c: Cache, c': Cache)
    requires c'.disk == c.disk && View(c') == View(c)
    ensures forall p: nat :: Durable(c, p) ==> Durable(c', p)
  {
  }

  // ---- in place ----

  class BlockCache {
    const disk: array<Block>
    const page: array<Block>
    const mapped: array<bool>
    const dirty: array<bool>
    /** The bitmap, consulted when a block is read in. */
    const free: array<bool>

    ghost predicate Repr() {
      && page.Length == disk.Length && mapped.Length == disk.Length && dirty.Length == disk.Length
      && page != disk && mapped != dirty && mapped != free && dirty != free
    }

    ghost function Snap(): Cache
      requires Repr()
      reads disk, page, mapped, dirty
    {
      Cache(disk[..], map b | 0 <= b < disk.Length && mapped[b] :: page[b], set b | 0 <= b < disk.Length && dirty[b])
    }

    ghost predicate Valid()
      reads disk, page, mapped, dirty
    {
      Repr() && CacheOk(Snap())
    }

    /** bc_pgfault: reads the block in, then insists that it is in use. */
    method PageFault(b: nat) returns (c: Code)
      requires Valid() && (b < disk.Length ==> b != 0 && !mapped[b])
      modifies page, mapped, dirty
      ensures c == if b >= disk.Length || (b < free.Length && free[b]) then Panic else Ok
      ensures Valid() && Snap() == if b >= disk.Length then old(Snap()) else Fault(old(Snap()), b)
    {
      ghost var s := Snap();
      if b >= disk.Length {
        return Panic;
      }
      page[b] := disk[b];
      mapped[b] := true;
      dirty[b] := false;
      assert Snap().mem == s.mem[b := s.disk[b]];
      assert b !in s.dirty;
      assert Snap().dirty == s.dirty;
      if b < free.Length && free[b] {
        return Panic;
      }
      return Ok;
    }

    /** flush_block. */
    method FlushBlock(b: nat)
      requires Valid() && b < disk.Length
      modifies disk, dirty
      ensures Valid() && Snap() == Flush(old(Snap()), b)
    {
      ghost var s := Snap();
      if !mapped[b] || !dirty[b] {
        return;
      }
      disk[b] := page[b];
      dirty[b] := false;
      FlushDurable(s, b);
      assert Snap().disk == s.disk[b := s.mem[b]];
      assert Snap().mem == s.mem;
      assert Snap().dirty == s.dirty - {b};
    }

    /** fs_sync: nothing changes to the eye, and nothing is lost with the cache any more. */
    method FsSync()
      requires Valid()
      modifies disk, dirty
      ensures Valid() && View(Snap()) == View(old(Snap())) && View(Crash(Snap())) == View(old(Snap()))
    {
      ghost var s := Snap();
      var i := 1;
      while i < disk.Length
        invariant 1 <= i && Valid() && View(Snap()) == View(s)
        invariant forall b: nat :: b < i && b < disk.Length ==> Durable(Snap(), b)
      {
        ghost var t := Snap();
        FlushDurable(t, i);
        FlushBlock(i);
        i := i + 1;
      }
      CrashLosesNothing(Snap());
    }

    /** Reading an indirect block, which may have to be fetched. */
    method ReadTable(t: nat, i: nat) returns (p: nat)
      requires Valid() && 0 < t < disk.Length && i < NINDIRECT && (t < free.Length ==> !free[t])
      modifies page, mapped, dirty
      ensures Valid() && Snap() == Fault(old(Snap()), t) && p == GetWord(View(old(Snap()))[t], i)
    {
      ghost var s := Snap();
      FaultSame(s, t);
      if !mapped[t] {
        var c := PageFault(t);
      }
      assert Snap() == Fault(s, t);
      assert page[t] == Snap().mem[t];
      return GetWord(page[t], i);
    }

    /** The walk of file_flush: entry `bno`, 0 where there is none. */
    method Entry(file: File, bno: nat, ghost fs: Fs, ghost f: FileId) returns (p: nat)
      requires Valid() && FsOk(fs) && fs.blocks == View(Snap()) && fs.free == free[..] && f in fs.files &&
        file == fs.files[f]
      modifies page, mapped, dirty
      ensures Valid() && View(Snap()) == fs.blocks && Snap().disk == old(Snap()).disk &&
        p == Ptr(fs, f, bno) < disk.Length
    {
      assert At(fs, Data(f, bno)) == Ptr(fs, f, bno) && At(fs, Table(f)) == file.indirect;
      if bno < NDIRECT {
        return file.direct[bno];
      }
      if bno >= MAXBLOCKS || file.indirect == 0 {
        return 0;
      }
      FaultSame(Snap(), file.indirect);
      p := ReadTable(file.indirect, bno - NDIRECT);
    }

    /**
     * file_flush: every block of the file, its indirect block and the block `home` that holds its inode
     * would survive losing the cache.
     */
    method FileFlush(file: File, home: nat, ghost fs: Fs, ghost f: FileId)
      requires Valid() && FsOk(fs) && fs.blocks == View(Snap()) && fs.free == free[..] && f in fs.files &&
        file == fs.files[f]
      requires home < disk.Length
      modifies disk, page, mapped, dirty
      ensures Valid() && View(Snap()) == View(old(Snap())) && Durable(Snap(), home)
      ensures forall x: Slot :: x.f == f && FsModel.At(fs, x) != 0 ==> Durable(Snap(), FsModel.At(fs, x))
    {
      var i := 0;
      while i < NBlocks(file.size)
        invariant Valid() && View(Snap()) == fs.blocks
        invariant forall j: nat :: j < i && Ptr(fs, f, j) != 0 ==> Durable(Snap(), Ptr(fs, f, j))
      {
        ghost var c0 := Snap();
        var p := Entry(file, i, fs, f);
        ghost var c1 := Snap();
        DurableKept(c0, c1);
        if p != 0 {
          FlushDurable(c1, p);
          FlushBlock(p);
        }
        i := i + 1;
      }
      FlushDurable(Snap(), home);
      FlushBlock(home);
      if file.indirect != 0 {
        FlushDurable(Snap(), file.indirect);
        FlushBlock(file.indirect);
      }
      forall j: nat | j >= NBlocks(file.size) ensures FsModel.At(fs, Data(f, j)) == 0 {
        NothingBeyond(fs, f, j);
      }
      forall x: Slot | x.f == f && FsModel.At(fs, x) != 0 ensures Durable(Snap(), FsModel.At(fs, x)) {
        if x.Data? { assert FsModel.At(fs, x) == Ptr(fs, f, x.bno); }
      }
    }
  }
}
