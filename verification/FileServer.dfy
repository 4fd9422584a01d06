/** fs.c: the bitmap, the block maps, reading, writing and truncating, in place. */
module FileServer {
  import opened Blocks
  import opened FsModel
  import opened FsFacts

  /** What an operation returns; `Panic` is a server that has stopped. */
  datatype Code = Ok | Inval | NotFound | NoDisk | Panic

  const NONE: int := -1

  ghost predicate HasFree(s: Fs) {
    exists p :: 0 < p < |s.free| && s.free[p]
  }

  /** The block alloc_block takes. */
  ghost predicate LowestFree(s: Fs, p: int) {
    0 < p < |s.free| && s.free[p] && forall q :: 0 < q < p ==> !s.free[q]
  }

  /** The file must be given an indirect block before entry `bno` can be reached. */
  ghost predicate NeedsTable(s: Fs, f: FileId, bno: nat) {
    NDIRECT <= bno < MAXBLOCKS && f in s.files && s.files[f].indirect == 0
  }

  /** The error of alloc_block read as a block number, which lies beyond every disk. */
  const NO_DISK_WORD: nat := 0x1_0000_0000 - 9

  /** Where the server stops: no block was free and the error has been taken for the file's indirect block. */
  ghost predicate Stuck(s: Fs, f: FileId) {
    f in s.files && s.files[f].indirect == NO_DISK_WORD && !HasFree(s)
  }

  ghost predicate SameSizes(s: Fs, s': Fs) {
    s'.files.Keys == s.files.Keys && forall g :: g in s.files ==> s'.files[g].size == s.files[g].size
  }

  /** Bytes that are there stay what they are. */
  ghost predicate BytesKept(s: Fs, s': Fs)
    requires Shape(s) && Shape(s')
  {
    forall g, c :: DataAt(s, g, c) != [] ==> DataAt(s', g, c) == DataAt(s, g, c)
  }

  /** No other file's bytes change, and none appear. */
  ghost predicate OtherFilesKept(s: Fs, s': Fs, f: FileId)
    requires Shape(s) && Shape(s')
  {
    forall g, c :: g != f ==> DataAt(s', g, c) == DataAt(s, g, c)
  }

  /** What file_get_block leaves: entry `bno` of `f` is backed, every byte that was there still is. */
  ghost predicate Got(s: Fs, s': Fs, f: FileId, bno: nat) {
    && FsOk(s) && FsOk(s') && SameSizes(s, s') && BytesKept(s, s') && OthersKept(s, s', f, bno)
  }

  // ---- what a write costs ----

  ghost function FreeBlocks(s: Fs): set<nat> {
    set p: nat | p < |s.free| && p > 0 && s.free[p]
  }

  /** Blocks to be taken for entry `bno`: its own, and the indirect block. */
  ghost function Need(s: Fs, f: FileId, bno: nat): nat
    requires Shape(s)
  {
    (if DataAt(s, f, bno) == [] then 1 else 0) + (if NeedsTable(s, f, bno) then 1 else 0)
  }

  ghost function Holes(s: Fs, f: FileId, lo: nat, hi: nat): nat
    requires Shape(s)
    decreases hi - lo
  {
    if lo >= hi then 0 else (if DataAt(s, f, lo) == [] then 1 else 0) + Holes(s, f, lo + 1, hi)
  }

  /** Blocks to be taken before entries `lo` to `hi` are all there. */
  ghost function Cost(s: Fs, f: FileId, lo: nat, hi: nat): nat
    requires Shape(s)
  {
    if lo >= hi then 0 else Holes(s, f, lo, hi) + if hi > NDIRECT && f in s.files && s.files[f].indirect == 0 then 1
      else 0
  }

  /** Entry `bno` has been given what it needed, and no other entry anything. */
  ghost predicate Took(s: Fs, s': Fs, f: FileId, bno: nat) {
    && Shape(s) && Shape(s') && f in s.files && f in s'.files && |FreeBlocks(s')| + Need(s, f, bno) == |FreeBlocks(s)|
    && OthersKept(s, s', f, bno) && DataAt(s', f, bno) != []
    && (s'.files[f].indirect == 0 <==> s.files[f].indirect == 0 && bno < NDIRECT)
  }

  /** Only bytes of block `bno` differ, which is there. */
  ghost predicate Filled(s: Fs, s': Fs, f: FileId, bno: nat) {
    && Shape(s) && Shape(s') && s'.free == s.free && s'.files == s.files && OthersKept(s, s', f, bno) &&
      DataAt(s', f, bno) != []
  }

  /** The next `n` bytes from `pos` on, up to the end of the block or of all. */
  predicate OnePiece(pos: nat, n: nat, end: nat) {
    pos + n <= end && pos + n <= (pos / 4096 + 1) * 4096 && (pos + n == end || pos + n == (pos / 4096 + 1) * 4096)
  }

  /** The number of blocks before `end`. */
  function BlocksUpTo(end: nat): nat {
    (end + 4095) / 4096
  }

  /** One round of the loop: what it took is what the rest needs less. */
  lemma RoundCost(s: Fs, s': Fs, f: FileId, pos: nat, n: nat, end: nat)
    requires Took(s, s', f, pos / 4096) && OnePiece(pos, n, end) && pos < end && pos / 4096 < MAXBLOCKS &&
      BlocksUpTo(end) <= MAXBLOCKS
    ensures |FreeBlocks(s')| + Cost(s, f, pos / 4096, BlocksUpTo(end)) == |FreeBlocks(s)| + Cost(s', f,
      (pos + n) / 4096, BlocksUpTo(end))
  {
    var bno := pos / 4096;
    CostStep(s, s', f, bno, BlocksUpTo(end));
    assert (pos + n) / 4096 == bno || (pos + n) / 4096 == bno + 1;
  }

  /** At the end nothing is needed any more. */
  lemma EndCost(s: Fs, s': Fs, f: FileId, pos: nat, n: nat, end: nat)
    requires Took(s, s', f, pos / 4096) && OnePiece(pos, n, end) && pos < end == pos + n && BlocksUpTo(end) <= MAXBLOCKS
    ensures Cost(s', f, end / 4096, BlocksUpTo(end)) == 0
  {
    var bno := pos / 4096;
    assert BlocksUpTo(end) == bno + 1;
    CostStep(s, s', f, bno, bno + 1);
    assert end / 4096 == bno || end / 4096 == bno + 1;
  }

  /** A write of `n` bytes at `offset` finds all the blocks it needs, and the file can be that long. */
  ghost predicate Affordable(s: Fs, f: FileId, offset: nat, n: nat)
    requires Shape(s)
  {
    n == 0 || (offset + n <= MAXFILESIZE && Cost(s, f, offset / 4096, BlocksUpTo(offset + n)) <= |FreeBlocks(s)|)
  }

  /**
   * How the loop of file_write stands at entry `b`, of those from `lo` to `hi`: what it has taken is what it needs
   * less. `fits` says that the file can be that long, `over` that the loop is.
   */
  ghost predicate Paying(s0: Fs, s: Fs, f: FileId, lo: nat, b: nat, hi: nat, fits: bool, over: bool) {
    && Shape(s0) && Shape(s) && f in s.files
    && (fits ==>
      |FreeBlocks(s)| + Cost(s0, f, lo, hi) == |FreeBlocks(s0)| + Cost(s, f, b, hi) &&
      (over ==> Cost(s, f, b, hi) == 0))
  }

  lemma PayingMore(s0: Fs, s: Fs, s': Fs, f: FileId, lo: nat, pos: nat, n: nat, end: nat)
    requires Paying(s0, s, f, lo, pos / 4096, BlocksUpTo(end), end <= MAXFILESIZE, false)
    requires Took(s, s', f, pos / 4096) && OnePiece(pos, n, end) && pos < end && pos / 4096 < MAXBLOCKS
    ensures Paying(s0, s', f, lo, (pos + n) / 4096, BlocksUpTo(end), end <= MAXFILESIZE, pos + n == end) &&
      pos + n <= MAXFILESIZE
  {
    if end <= MAXFILESIZE {
      RoundCost(s, s', f, pos, n, end);
      if pos + n == end { EndCost(s, s', f, pos, n, end); }
    }
  }

  lemma CannotPay(s0: Fs, s: Fs, f: FileId, offset: nat, pos: nat, end: nat)
    requires Paying(s0, s, f, offset / 4096, pos / 4096, BlocksUpTo(end), end <= MAXFILESIZE, false) &&
      offset <= pos < end
    requires pos / 4096 >= MAXBLOCKS || Need(s, f, pos / 4096) > |FreeBlocks(s)|
    ensures !Affordable(s0, f, offset, end - offset)
  {
    if end <= MAXFILESIZE {
      assert pos / 4096 < BlocksUpTo(end) <= MAXBLOCKS;
      NeedCost(s, f, pos / 4096, BlocksUpTo(end));
    }
  }

  lemma PayingStart(s: Fs, f: FileId, lo: nat, hi: nat, fits: bool)
    requires Shape(s) && f in s.files
    ensures Paying(s, s, f, lo, lo, hi, fits, false)
  {
  }

  lemma PaidAll(s0: Fs, s: Fs, f: FileId, offset: nat, b: nat, end: nat)
    requires offset <= end && (offset < end ==> end <= MAXFILESIZE)
    requires Paying(s0, s, f, offset / 4096, b, BlocksUpTo(end), end <= MAXFILESIZE, offset < end)
    ensures Affordable(s0, f, offset, end - offset)
  {
  }

  lemma AffordableSame(s: Fs, s': Fs, f: FileId, offset: nat, n: nat)
    requires Shape(s) && Shape(s') && f in s.files && f in s'.files && s'.files[f].indirect == s.files[f].indirect &&
      s'.free == s.free
    requires forall k: nat :: DataAt(s', f, k) == DataAt(s, f, k)
    ensures Affordable(s', f, offset, n) <==> Affordable(s, f, offset, n)
  {
    CostSame(s, s', f, offset / 4096, BlocksUpTo(offset + n));
    assert FreeBlocks(s') == FreeBlocks(s);
  }

  /** The first entry of a range costs what it needs, or less than the range does. */
  lemma NeedCost(s: Fs, f: FileId, lo: nat, hi: nat)
    requires Shape(s) && f in s.files && lo < hi <= MAXBLOCKS
    ensures Need(s, f, lo) <= Cost(s, f, lo, hi)
  {
  }

  lemma TookFilled(s: Fs, s1: Fs, s2: Fs, f: FileId, bno: nat)
    requires Took(s, s1, f, bno) && Filled(s1, s2, f, bno)
    ensures Took(s, s2, f, bno)
  {
    assert FreeBlocks(s2) == FreeBlocks(s1);
  }

  lemma {:induction false} HolesSame(s: Fs, s': Fs, f: FileId, lo: nat, hi: nat)
    requires Shape(s) && Shape(s') && forall k: nat :: lo <= k < hi ==> DataAt(s', f, k) == DataAt(s, f, k)
    ensures Holes(s', f, lo, hi) == Holes(s, f, lo, hi)
    decreases hi - lo
  {
    if lo < hi { HolesSame(s, s', f, lo + 1, hi); }
  }

  /** What an entry took is what the rest of the write needs less. */
  lemma CostStep(s: Fs, s': Fs, f: FileId, lo: nat, hi: nat)
    requires Took(s, s', f, lo) && lo < hi <= MAXBLOCKS
    ensures Cost(s, f, lo, hi) == Need(s, f, lo) + Cost(s', f, lo + 1, hi) &&
      Cost(s', f, lo, hi) == Cost(s', f, lo + 1, hi)
  {
    HolesSame(s, s', f, lo + 1, hi);
  }

  lemma CostSame(s: Fs, s': Fs, f: FileId, lo: nat, hi: nat)
    requires Shape(s) && Shape(s') && f in s.files && f in s'.files && s'.files[f].indirect == s.files[f].indirect
    requires forall k: nat :: DataAt(s', f, k) == DataAt(s, f, k)
    ensures Cost(s', f, lo, hi) == Cost(s, f, lo, hi)
  {
    HolesSame(s, s', f, lo, hi);
  }

  lemma TakenOne(s: Fs, s': Fs, p: nat)
    requires 0 < p < |s.free| && s.free[p] && s'.free == s.free[p := false]
    ensures |FreeBlocks(s)| == |FreeBlocks(s')| + 1
  {
    assert FreeBlocks(s') == FreeBlocks(s) - {p};
  }

  lemma NoneFree(s: Fs)
    ensures !HasFree(s) <==> |FreeBlocks(s)| == 0
  {
    if HasFree(s) { var p :| 0 < p < |s.free| && s.free[p]; assert p in FreeBlocks(s); }
    if FreeBlocks(s) != {} { var p :| p in FreeBlocks(s); assert s.free[p]; }
  }

  // ---- bytes of a file ----

  datatype Cell = Hole | Has(byte: Byte)

  ghost function ByteAt(s: Fs, f: FileId, pos: nat): Cell
    requires Shape(s)
  {
    var d := DataAt(s, f, pos / 4096);
    if |d| != BLKSIZE then Hole else Has(d[pos % 4096])
  }

  /** The file is the old file with `data` laid over it at `offset`; nothing else changed. */
  ghost predicate Overlaid(s: Fs, s': Fs, f: FileId, offset: nat, data: seq<Byte>)
    requires Shape(s) && Shape(s')
  {
    && OtherFilesKept(s, s', f)
    && (forall q: nat {:trigger ByteAt(s', f, q)} ::
      offset <= q < offset + |data| ==> ByteAt(s', f, q) == Has(data[q - offset]))
    && (forall q: nat {:trigger ByteAt(s', f, q)} :: !(offset <= q < offset + |data|) && ByteAt(s, f, q) != Hole ==>
          ByteAt(s', f, q) == ByteAt(s, f, q))
  }

  lemma BackedSize(s: Fs, f: FileId, bno: nat)
    requires FsOk(s)
    ensures DataAt(s, f, bno) == [] <==> At(s, Data(f, bno)) == 0
    ensures DataAt(s, f, bno) != [] ==> |DataAt(s, f, bno)| == BLKSIZE
  {
  }

  lemma GotByte(s: Fs, s': Fs, f: FileId, bno: nat, q: nat)
    requires Got(s, s', f, bno) && ByteAt(s, f, q) != Hole
    ensures ByteAt(s', f, q) == ByteAt(s, f, q)
  {
    BackedSize(s, f, q / 4096);
  }

  /** Where a position lies. */
  ghost predicate InBlock(pos: nat, bno: nat, off: nat) {
    pos == bno * 4096 + off && off < 4096
  }

  lemma ByteIn(s: Fs, f: FileId, q: nat, bno: nat, off: nat)
    requires Shape(s) && InBlock(q, bno, off)
    ensures ByteAt(s, f, q) == if |DataAt(s, f, bno)| != BLKSIZE then Hole else Has(DataAt(s, f, bno)[off])
  {
    assert q / 4096 == bno && q % 4096 == off;
  }

  /** One round of file_write's loop, seen at one position. */
  lemma StoredByte(s: Fs, s': Fs, f: FileId, pos: nat, bno: nat, off: nat, chunk: seq<Byte>, q: nat)
    requires Shape(s) && Shape(s') && InBlock(pos, bno, off) && off + |chunk| <= BLKSIZE && OthersKept(s, s', f, bno)
    requires |DataAt(s, f, bno)| == BLKSIZE && DataAt(s', f, bno) == Overlay(DataAt(s, f, bno), off, chunk)
    ensures ByteAt(s', f, q) == if pos <= q < pos + |chunk| then Has(chunk[q - pos]) else ByteAt(s, f, q)
  {
    var c, o := q / 4096, q % 4096;
    assert InBlock(q, c, o);
    ByteIn(s, f, q, c, o);
    ByteIn(s', f, q, c, o);
    if c == bno {
      var d := DataAt(s, f, bno);
      assert Overlay(d, off, chunk)[o] == if off <= o < off + |chunk| then chunk[o - off] else d[o];
    }
  }

  /** One round of file_write's loop. */
  lemma OverlaidMore(s0: Fs, s: Fs, s1: Fs, s2: Fs, f: FileId, offset: nat, done: seq<Byte>, chunk: seq<Byte>,
      bno: nat, off: nat)
    requires Shape(s0) && FsOk(s) && Overlaid(s0, s, f, offset, done) && InBlock(offset + |done|, bno, off)
    requires Got(s, s1, f, bno) && Shape(s2) && off + |chunk| <= BLKSIZE && OthersKept(s1, s2, f, bno)
    requires |DataAt(s1, f, bno)| == BLKSIZE && DataAt(s2, f, bno) == Overlay(DataAt(s1, f, bno), off, chunk)
    ensures Overlaid(s0, s2, f, offset, done + chunk)
  {
    var pos := offset + |done|;
    var data := done + chunk;
    forall q: nat {:trigger ByteAt(s2, f, q)} | offset <= q < offset + |data|
      ensures ByteAt(s2, f, q) == Has(data[q - offset]) {
      StoredByte(s1, s2, f, pos, bno, off, chunk, q);
      if q < pos {
        assert ByteAt(s, f, q) == Has(done[q - offset]);
        GotByte(s, s1, f, bno, q);
      }
    }
    forall q: nat {:trigger ByteAt(s2, f, q)} | !(offset <= q < offset + |data|) && ByteAt(s0, f, q) != Hole
      ensures ByteAt(s2, f, q) == ByteAt(s0, f, q)
    {
      StoredByte(s1, s2, f, pos, bno, off, chunk, q);
      assert ByteAt(s, f, q) == ByteAt(s0, f, q);
      GotByte(s, s1, f, bno, q);
    }
    forall g, c | g != f ensures DataAt(s2, g, c) == DataAt(s0, g, c) {
      assert DataAt(s2, g, c) == DataAt(s1, g, c) && DataAt(s1, g, c) == DataAt(s, g, c);
    }
  }

  lemma OverlaidUpTo(s0: Fs, s: Fs, s1: Fs, s2: Fs, f: FileId, offset: nat, data: seq<Byte>, n: nat, bn: nat,
      bno: nat, off: nat)
    requires n + bn <= |data| && Shape(s0) && FsOk(s) && Overlaid(s0, s, f, offset, data[..n]) &&
      InBlock(offset + n, bno, off)
    requires Got(s, s1, f, bno) && Shape(s2) && off + bn <= BLKSIZE && OthersKept(s1, s2, f, bno)
    requires |DataAt(s1, f, bno)| == BLKSIZE && DataAt(s2, f, bno) == Overlay(DataAt(s1, f, bno), off, data[n..n + bn])
    ensures Overlaid(s0, s2, f, offset, data[..n + bn])
  {
    OverlaidMore(s0, s, s1, s2, f, offset, data[..n], data[n..n + bn], bno, off);
    assert data[..n] + data[n..n + bn] == data[..n + bn];
  }

  lemma OverlaidNothing(s: Fs, s': Fs, f: FileId, offset: nat)
    requires Shape(s) && Shape(s') && AllKept(s, s')
    ensures Overlaid(s, s', f, offset, [])
  {
    forall q: nat ensures ByteAt(s', f, q) == ByteAt(s, f,
      q) { assert DataAt(s', f, q / 4096) == DataAt(s, f, q / 4096); }
  }

  lemma GotTwice(s: Fs, s1: Fs, s2: Fs, f: FileId, bno: nat)
    requires Read(s, s1, f) && Got(s1, s2, f, bno)
    ensures Read(s, s2, f)
  {
    forall g, c | DataAt(s, g, c) != [] ensures DataAt(s2, g, c) == DataAt(s, g, c) {
      assert DataAt(s1, g, c) == DataAt(s, g, c);
    }
    forall g, c | g != f ensures DataAt(s2, g, c) == DataAt(s, g, c) {
      assert DataAt(s1, g, c) == DataAt(s, g, c);
    }
  }

  lemma SetPtrReads(s: Fs, f: FileId, bno: nat, p: nat)
    requires Entry(s, f, bno) && p < WORD
    ensures Entry(SetPtr(s, f, bno, p), f, bno) && Ptr(SetPtr(s, f, bno, p), f, bno) == p
  {
    if bno >= NDIRECT { WordStored(s.blocks[s.files[f].indirect], bno - NDIRECT, p, bno - NDIRECT); }
  }

  /** The state after file_block_walk(f, bno, 1) has succeeded. */
  ghost predicate Walked(s: Fs, s1: Fs, f: FileId, bno: nat, t: int) {
    if NeedsTable(s, f, bno) then LowestFree(s, t) && t < |s.blocks| && s1 == ClaimTable(s, f, t)
      else s1 == s && bno < MAXBLOCKS
  }

  lemma WalkedOk(s: Fs, s1: Fs, f: FileId, bno: nat, t: int)
    requires FsOk(s) && f in s.files && Walked(s, s1, f, bno, t)
    ensures Entry(s1, f, bno) && Ptr(s1, f, bno) == Ptr(s, f, bno) && Ptr(s, f, bno) < |s.free| == |s1.free|
    ensures s.files[f].size > bno * 4096 ==> Got(s, s1, f, bno) && AllKept(s, s1)
  {
    assert At(s, Data(f, bno)) == Ptr(s, f, bno);
    if NeedsTable(s, f, bno) {
      ClaimTableOk(s, f, t);
      ClaimTableDiffers(s, f, t);
      assert At(s1, Data(f, bno)) == Ptr(s1, f, bno);
    }
  }

  lemma ClaimedOk(s: Fs, s1: Fs, f: FileId, bno: nat, t: int, p: nat)
    requires FsOk(s) && f in s.files && Walked(s, s1, f, bno, t) && Entry(s1, f, bno) && Ptr(s1, f, bno) == 0
    requires LowestFree(s1, p)
    ensures var s2 := Claim(s1, f, bno, p); Entry(s2, f, bno) && Ptr(s2, f, bno) == p
    ensures s.files[f].size > bno * 4096 ==> Got(s, Claim(s1, f, bno, p), f, bno)
  {
    WalkedOk(s, s1, f, bno, t);
    SetPtrReads(s1, f, bno, p);
    var s2 := Claim(s1, f, bno, p);
    SameTables(SetPtr(s1, f, bno, p), s2);
    if s.files[f].size > bno * 4096 {
      ClaimOk(s1, f, bno, p);
      assert DataAt(s1, f, bno) == [] by { assert At(s1, Data(f, bno)) == 0; }
      GotCompose(s, s1, s2, f, bno);
    }
  }

  lemma HoleIff(s: Fs, f: FileId, bno: nat)
    requires FsOk(s) && f in s.files
    ensures DataAt(s, f, bno) == [] <==> Ptr(s, f, bno) == 0
  {
    assert At(s, Data(f, bno)) == Ptr(s, f, bno);
  }

  /** What file_block_walk takes. */
  lemma WalkedTook(s: Fs, s1: Fs, f: FileId, bno: nat, t: int)
    requires FsOk(s) && f in s.files && Walked(s, s1, f, bno, t)
    ensures f in s1.files && |FreeBlocks(s1)| + (if NeedsTable(s, f, bno) then 1 else 0) == |FreeBlocks(s)|
    ensures s1.files[f].indirect == 0 <==> s.files[f].indirect == 0 && bno < NDIRECT
  {
    if NeedsTable(s, f, bno) { TakenOne(s, s1, t); }
  }

  /** What file_get_block takes: nothing more than the walk if the block is there, one block more if it is not. */
  lemma KeptTook(s: Fs, s1: Fs, f: FileId, bno: nat, t: int)
    requires FsOk(s) && f in s.files && Walked(s, s1, f, bno, t) && s.files[f].size > bno * 4096 && Ptr(s, f, bno) != 0
    ensures Took(s, s1, f, bno)
  {
    WalkedOk(s, s1, f, bno, t);
    WalkedTook(s, s1, f, bno, t);
    HoleIff(s, f, bno);
    HoleIff(s1, f, bno);
  }

  lemma ClaimedTook(s: Fs, s1: Fs, s2: Fs, f: FileId, bno: nat, t: int, p: nat)
    requires FsOk(s) && f in s.files && Walked(s, s1, f, bno, t) && Entry(s1, f, bno) && Ptr(s1, f, bno) == 0 &&
      LowestFree(s1, p)
    requires s.files[f].size > bno * 4096 && s2 == Claim(s1, f, bno, p)
    ensures Took(s, s2, f, bno)
  {
    WalkedOk(s, s1, f, bno, t);
    WalkedTook(s, s1, f, bno, t);
    ClaimedOk(s, s1, f, bno, t, p);
    TakenOne(s1, s2, p);
    HoleIff(s, f, bno);
    HoleIff(s2, f, bno);
  }

  /** When there are too few blocks for an entry. */
  lemma TooFew(s: Fs, s1: Fs, f: FileId, bno: nat, t: int)
    requires FsOk(s) && f in s.files && Walked(s, s1, f, bno, t) && Ptr(s, f, bno) == 0
    ensures HasFree(s1) <==> Need(s, f, bno) <= |FreeBlocks(s)|
  {
    WalkedTook(s, s1, f, bno, t);
    HoleIff(s, f, bno);
    NoneFree(s1);
  }

  lemma Enough(s: Fs, f: FileId, bno: nat)
    requires FsOk(s) && f in s.files
    ensures Ptr(s, f, bno) != 0 ==> Need(s, f, bno) == 0
    ensures NeedsTable(s, f, bno) && !HasFree(s) ==> Need(s, f, bno) > |FreeBlocks(s)|
  {
    HoleIff(s, f, bno);
    NoneFree(s);
  }

  lemma GotCompose(s: Fs, s1: Fs, s2: Fs, f: FileId, bno: nat)
    requires FsOk(s) && FsOk(s1) && FsOk(s2) && AllKept(s, s1) && OthersKept(s1, s2, f, bno) && DataAt(s1, f, bno) == []
    requires SameSizes(s, s1) && SameSizes(s1, s2)
    ensures Got(s, s2, f, bno)
  {
  }

  // ---- reading ----

  /** How many bytes file_read returns. */
  function ReadLength(size: int, count: nat, offset: nat): nat {
    if offset >= size then 0 else if count < size - offset then count else size - offset
  }

  /** `buf` is what the file holds from `offset`. */
  ghost predicate Reads(s: Fs, f: FileId, offset: nat, buf: seq<Byte>)
    requires Shape(s)
  {
    forall i {:trigger buf[i]} :: 0 <= i < |buf| ==> ByteAt(s, f, offset + i) == Has(buf[i])
  }

  /** What reading may do to the disk: give blocks to holes of the file. */
  ghost predicate Read(s: Fs, s': Fs, f: FileId) {
    FsOk(s) && FsOk(s') && SameSizes(s, s') && BytesKept(s, s') && OtherFilesKept(s, s', f)
  }

  /** There is a byte at each of `n` positions from `offset`. */
  ghost predicate Backed(s: Fs, f: FileId, offset: nat, n: nat)
    requires Shape(s)
  {
    forall q: nat {:trigger ByteAt(s, f, q)} :: offset <= q < offset + n ==> ByteAt(s, f, q) != Hole
  }

  lemma BackedBlock(s: Fs, f: FileId, offset: nat, n: nat, q: nat, bno: nat, off: nat)
    requires FsOk(s) && f in s.files && Backed(s, f, offset, n) && offset <= q < offset + n && InBlock(q, bno, off)
    ensures Ptr(s, f, bno) != 0
  {
    assert ByteAt(s, f, q) != Hole;
    ByteIn(s, f, q, bno, off);
    assert At(s, Data(f, bno)) == Ptr(s, f, bno);
  }

  /** One round of file_read's loop. */
  lemma {:induction false} BackedHoles(s: Fs, f: FileId, offset: nat, n: nat, lo: nat)
    requires FsOk(s) && f in s.files && Backed(s, f, offset, n) && n > 0 && offset / 4096 <= lo
    ensures Holes(s, f, lo, BlocksUpTo(offset + n)) == 0
    decreases BlocksUpTo(offset + n) - lo
  {
    if lo < BlocksUpTo(offset + n) {
      var q := if lo * 4096 < offset then offset else lo * 4096;
      assert InBlock(q, lo, q - lo * 4096);
      BackedBlock(s, f, offset, n, q, lo, q - lo * 4096);
      HoleIff(s, f, lo);
      BackedHoles(s, f, offset, n, lo + 1);
    }
  }

  /** A range that is there costs nothing. */
  lemma BackedAffordable(s: Fs, f: FileId, offset: nat, n: nat)
    requires FsOk(s) && f in s.files && Backed(s, f, offset, n)
    ensures Affordable(s, f, offset, n)
  {
    if n > 0 {
      BackedHoles(s, f, offset, n, offset / 4096);
      var q := offset + n - 1;
      assert InBlock(q, q / 4096, q % 4096);
      BackedBlock(s, f, offset, n, q, q / 4096, q % 4096);
      assert BlocksUpTo(offset + n) == q / 4096 + 1;
    }
  }

  lemma ReadsMore(s: Fs, s': Fs, f: FileId, offset: nat, buf: seq<Byte>, chunk: seq<Byte>, bno: nat, off: nat)
    requires FsOk(s) && Reads(s, f, offset, buf) && InBlock(offset + |buf|, bno, off) && Got(s, s', f, bno)
    requires off + |chunk| <= BLKSIZE == |DataAt(s', f, bno)| && chunk == DataAt(s', f, bno)[off..off + |chunk|]
    ensures Reads(s', f, offset, buf + chunk)
  {
    forall i | 0 <= i < |buf + chunk| ensures ByteAt(s', f, offset + i) == Has((buf + chunk)[i]) {
      if i < |buf| {
        assert ByteAt(s, f, offset + i) == Has(buf[i]);
        GotByte(s, s', f, bno, offset + i);
      } else {
        ByteIn(s', f, offset + i, bno, off + (i - |buf|));
      }
    }
  }

  lemma ReadsOld(s0: Fs, s: Fs, f: FileId, offset: nat, buf: seq<Byte>)
    requires FsOk(s0) && FsOk(s) && BytesKept(s0, s) && Reads(s, f, offset, buf)
    ensures forall i {:trigger buf[i]} ::
      0 <= i < |buf| && ByteAt(s0, f, offset + i) != Hole ==> ByteAt(s0, f, offset + i) == Has(buf[i])
  {
    forall i | 0 <= i < |buf| && ByteAt(s0, f, offset + i) != Hole ensures ByteAt(s0, f, offset + i) == Has(buf[i]) {
      assert ByteAt(s, f, offset + i) == Has(buf[i]);
      BackedSize(s0, f, (offset + i) / 4096);
    }
  }

  lemma OverlaidGot(s0: Fs, s: Fs, s': Fs, f: FileId, offset: nat, data: seq<Byte>, bno: nat)
    requires Shape(s0) && FsOk(s) && Overlaid(s0, s, f, offset, data) && Got(s, s', f, bno)
    ensures Overlaid(s0, s', f, offset, data)
  {
    forall q: nat {:trigger ByteAt(s', f, q)} | offset <= q < offset + |data|
      ensures ByteAt(s', f, q) == Has(data[q - offset]) {
      assert ByteAt(s, f, q) == Has(data[q - offset]);
      GotByte(s, s', f, bno, q);
    }
    forall q: nat {:trigger ByteAt(s', f, q)} | !(offset <= q < offset + |data|) && ByteAt(s0, f, q) != Hole
      ensures ByteAt(s', f, q) == ByteAt(s0, f, q)
    {
      assert ByteAt(s, f, q) == ByteAt(s0, f, q);
      GotByte(s, s', f, bno, q);
    }
  }

  lemma OverlaidFrom(s0: Fs, s1: Fs, s: Fs, f: FileId, offset: nat, data: seq<Byte>)
    requires Shape(s0) && Shape(s1) && Shape(s) && AllKept(s0, s1) && Overlaid(s1, s, f, offset, data)
    ensures Overlaid(s0, s, f, offset, data)
  {
    forall q: nat ensures ByteAt(s1, f, q) == ByteAt(s0, f,
      q) { assert DataAt(s1, f, q / 4096) == DataAt(s0, f, q / 4096); }
  }

  // ---- sizes ----

  /** C's division of signed numbers. */
  function Quot(a: int): int {
    if a >= 0 then a / 4096 else -((-a) / 4096)
  }

  /** The block count of file_truncate_blocks, an unsigned number. */
  function NBlocks(n: int): nat
    requires -0x8000_0000 <= n <= MAXSIZE
  {
    var q := Quot(n + 4095);
    if q >= 0 then q else q + WORD
  }

  lemma NBlocksMeans(n: int, c: nat)
    requires 0 <= n <= MAXSIZE
    ensures c < NBlocks(n) <==> c * 4096 < n
    ensures NBlocks(n) <= NDIRECT <==> n <= 40960
  {
  }

  /** Blocks from `lo` up to `hi` of file `f` are gone; everything else is as before. */
  ghost predicate Cut(s: Fs, s': Fs, f: FileId, lo: nat, hi: nat) {
    && FsOk(s) && FsOk(s') && SameSizes(s, s') && OtherFilesKept(s, s', f)
    && (forall c: nat :: c < lo || c >= hi ==> DataAt(s', f, c) == DataAt(s, f, c))
    && (forall c: nat :: lo <= c < hi ==> DataAt(s', f, c) == [])
  }

  lemma CutMore(s: Fs, s1: Fs, s2: Fs, f: FileId, lo: nat, bno: nat)
    requires Cut(s, s1, f, lo, bno) && lo <= bno && FsOk(s2) && SameSizes(s1, s2)
    requires OthersKept(s1, s2, f, bno) && DataAt(s2, f, bno) == []
    ensures Cut(s, s2, f, lo, bno + 1)
  {
  }

  /** Beyond its size a file has no bytes. */
  lemma NothingBeyond(s: Fs, f: FileId, c: nat)
    requires FsOk(s) && f in s.files && c >= NBlocks(s.files[f].size)
    ensures At(s, Data(f, c)) == 0 && DataAt(s, f, c) == []
  {
    NBlocksMeans(s.files[f].size, c);
    assert At(s, Data(f, c)) != 0 ==> Needs(s.files[f].size, Data(f, c));
  }

  /** After the loop of file_truncate_blocks no block from `lo` on is left. */
  lemma CutAll(s: Fs, s': Fs, f: FileId, lo: nat, hi: nat)
    requires Cut(s, s', f, lo, hi) && f in s.files && lo <= hi && hi >= NBlocks(s.files[f].size)
    ensures forall c: nat :: c >= lo ==> DataAt(s', f, c) == []
    ensures Cut(s, s', f, lo, NBlocks(s.files[f].size))
  {
    forall c: nat | c >= NBlocks(s.files[f].size) ensures DataAt(s, f, c) == [] { NothingBeyond(s, f, c); }
  }

  lemma NoEntries(s: Fs, f: FileId, lo: nat)
    requires FsOk(s) && f in s.files && lo <= NDIRECT && forall c: nat :: c >= lo ==> DataAt(s, f, c) == []
    ensures forall c :: NDIRECT <= c < MAXBLOCKS ==> Ptr(s, f, c) == 0
  {
    forall c | NDIRECT <= c < MAXBLOCKS ensures Ptr(s, f, c) == 0 {
      assert DataAt(s, f, c) == [] && At(s, Data(f, c)) == Ptr(s, f, c);
      BackedSize(s, f, c);
    }
  }

  /** What is left fits the new size. */
  lemma CutCovers(s: Fs, f: FileId, n: int)
    requires FsOk(s) && f in s.files && 0 <= n <= MAXSIZE
    requires forall c: nat :: c >= NBlocks(n) ==> DataAt(s, f, c) == []
    requires NBlocks(n) <= NDIRECT ==> At(s, Table(f)) == 0
    ensures Covers(s, f, n)
  {
    forall x: Slot | x.f == f && At(s, x) != 0 ensures Needs(n, x) {
      if x.Data? {
        BackedSize(s, f, x.bno);
        NBlocksMeans(n, x.bno);
      } else {
        NBlocksMeans(n, 0);
      }
    }
  }

  class Server {
    var free: array<bool>
    var blocks: array<Block>
    var files: map<FileId, File>
    ghost const reserved: set<nat>

    ghost function Snap(): Fs
      reads this, free, blocks
    {
      Fs(free[..], blocks[..], files, reserved)
    }

    ghost predicate Valid()
      reads this, free, blocks
    {
      FsOk(Snap())
    }

    constructor (free: array<bool>, blocks: array<Block>, files: map<FileId, File>, ghost reserved: set<nat>)
      ensures this.free == free && this.blocks == blocks && this.files == files && this.reserved == reserved
    {
      this.free := free;
      this.blocks := blocks;
      this.files := files;
      this.reserved := reserved;
    }

    // ---- the bitmap ----

    /** block_is_free. */
    method BlockIsFree(b: nat) returns (r: bool)
      ensures r <==> b < free.Length && free[b]
    {
      if b >= free.Length {
        return false;
      }
      return free[b];
    }

    /** free_block. */
    method FreeBlock(b: nat) returns (c: Code)
      requires b < free.Length
      modifies free
      ensures c == if b == 0 then Panic else Ok
      ensures free[..] == if b == 0 then old(free[..]) else old(free[..])[b := true]
    {
      if b == 0 {
        return Panic;
      }
      free[b] := true;
      return Ok;
    }

    /** alloc_block: the lowest free block, or NONE. */
    method AllocBlock() returns (p: int)
      requires blocks.Length == free.Length
      modifies free
      ensures p == NONE <==> !HasFree(old(Snap()))
      ensures p != NONE ==> LowestFree(old(Snap()), p)
      ensures Snap() == if p == NONE then old(Snap()) else old(Snap()).(free := old(Snap()).free[p := false])
    {
      ghost var s := Snap();
      var i := 1;
      while i < free.Length
        invariant 1 <= i && Snap() == s
        invariant forall q :: 0 < q < i && q < free.Length ==> !s.free[q]
      {
        var found := BlockIsFree(i);
        if found {
          assert s.free[i];
          free[i] := false;
          assert free[..] == s.free[i := false];
          return i;
        }
        i := i + 1;
      }
      return NONE;
    }

    // ---- the block map ----

    /** file_block_walk: makes entry `bno` reachable; `t` is the indirect block it took, if any. */
    method FileBlockWalk(f: FileId, bno: nat, alloc: bool) returns (c: Code, ghost t: int)
      requires Valid() && f in files
      modifies this`files, free, blocks
      ensures c == if bno < NDIRECT then Ok else if bno >= MAXBLOCKS then Inval
                   else if !NeedsTable(old(Snap()), f, bno) then Ok else if !alloc then NotFound
                   else if HasFree(old(Snap())) then Ok else Panic
      ensures c == Ok ==> Walked(old(Snap()), Snap(), f, bno, t)
      ensures !NeedsTable(old(Snap()), f, bno) || c == NotFound ==> Snap() == old(Snap())
      ensures c == Panic ==> Stuck(Snap(), f)
    {
      t := NONE;
      if bno < NDIRECT {
        return Ok, NONE;
      }
      if bno >= MAXBLOCKS {
        return Inval, NONE;
      }
      if files[f].indirect == 0 {
        if !alloc {
          return NotFound, NONE;
        }
        ghost var s := Snap();
        var p := AllocBlock();
        if p == NONE {
          files := files[f := files[f].(indirect := NO_DISK_WORD)];
          return Panic, NONE;
        }
        files := files[f := files[f].(indirect := p)];
        blocks[p] := ZeroBlock();
        assert blocks[..] == s.blocks[p := ZeroBlock()];
        t := p;
      }
      return Ok, t;
    }

    /** *ppdiskbno: the entry found by file_block_walk. */
    method ReadPtr(f: FileId, bno: nat) returns (p: nat)
      requires Entry(Snap(), f, bno)
      ensures p == Ptr(Snap(), f, bno)
    {
      if bno < NDIRECT {
        return files[f].direct[bno];
      }
      return GetWord(blocks[files[f].indirect], bno - NDIRECT);
    }

    method WritePtr(f: FileId, bno: nat, p: nat)
      requires Entry(Snap(), f, bno) && p < WORD
      modifies this`files, blocks
      ensures Snap() == SetPtr(old(Snap()), f, bno, p)
    {
      if bno < NDIRECT {
        files := files[f := files[f].(direct := files[f].direct[bno := p])];
      } else {
        var t := files[f].indirect;
        blocks[t] := SetWord(blocks[t], bno - NDIRECT, p);
        assert blocks[..] == old(blocks[..])[t := SetWord(old(blocks[t]), bno - NDIRECT, p)];
      }
    }

    /**
     * file_get_block: the block behind entry `bno`, taken from the free blocks if there is none.
     * A file with no room for its indirect block stops the server.
     */
    method FileGetBlock(f: FileId, bno: nat) returns (c: Code, blk: nat)
      requires Valid() && f in files
      modifies this`files, free, blocks
      ensures c == Inval <==> bno >= MAXBLOCKS
      ensures c == Panic <==> NeedsTable(old(Snap()), f, bno) && !HasFree(old(Snap()))
      ensures c == Panic ==> Stuck(Snap(), f)
      ensures c != NotFound && (c == NoDisk ==> Ptr(old(Snap()), f, bno) == 0 && Shape(Snap()) && !HasFree(Snap()))
      ensures Ptr(old(Snap()), f, bno) != 0 && c == Ok ==> Snap() == old(Snap())
      ensures c == Ok ==> Shape(Snap()) && f in files && blk == Ptr(Snap(), f, bno) && 0 < blk < |Snap().blocks|
      ensures old(files[f].size) > bno * 4096 && c != Panic ==> Got(old(Snap()), Snap(), f, bno)
      ensures c == Ok <==> bno < MAXBLOCKS && Need(old(Snap()), f, bno) <= |FreeBlocks(old(Snap()))|
      ensures old(files[f].size) > bno * 4096 && c == Ok ==> Took(old(Snap()), Snap(), f, bno)
    {
      ghost var s := Snap();
      blk := 0;
      ghost var t;
      Enough(s, f, bno);
      c, t := FileBlockWalk(f, bno, true);
      if c != Ok {
        return;
      }
      ghost var s1 := Snap();
      WalkedOk(s, s1, f, bno, t);
      blk := ReadPtr(f, bno);
      assert Snap() == s1;
      if blk == 0 {
        TooFew(s, s1, f, bno, t);
        var p := AllocBlock();
        if p == NONE {
          return NoDisk, 0;
        }
        WritePtr(f, bno, p);
        blk := p;
        assert Snap() == Claim(s1, f, bno, p);
        ClaimedOk(s, s1, f, bno, t, p);
        if s.files[f].size > bno * 4096 { ClaimedTook(s, s1, Snap(), f, bno, t, p); }
      } else if s.files[f].size > bno * 4096 {
        KeptTook(s, s1, f, bno, t);
      }
    }

    // ---- reading and writing ----

    /**
     * file_read: the bytes from `offset`, no further than the end of the file. Holes on the way are given blocks,
     * whose bytes are whatever the block held.
     */
    method FileRead(f: FileId, count: nat, offset: nat) returns (c: Code, buf: seq<Byte>)
      requires Valid() && f in files
      modifies this`files, free, blocks
      ensures c != Panic ==> Valid() && Read(old(Snap()), Snap(), f)
      ensures c == Ok ==>
        |buf| == ReadLength(old(files[f].size), count, offset) && Valid() && Reads(Snap(), f, offset, buf)
      ensures c == Ok ==> forall i {:trigger buf[i]} :: 0 <= i < |buf| && ByteAt(old(Snap()), f, offset + i) != Hole ==>
        ByteAt(old(Snap()), f, offset + i) == Has(buf[i])
      ensures Backed(old(Snap()), f, offset, ReadLength(old(files[f].size), count, offset)) ==>
        c == Ok && Snap() == old(Snap())
    {
      buf := [];
      ghost var s0 := Snap();
      if offset >= files[f].size {
        return Ok, [];
      }
      var n := if count < files[f].size - offset then count else files[f].size - offset;
      var pos := offset;
      while pos < offset + n
        invariant offset <= pos <= offset + n && |buf| == pos - offset && offset + n <= s0.files[f].size
        invariant Valid() && f in files && Read(s0, Snap(), f) && Reads(Snap(), f, offset, buf)
        invariant Backed(s0, f, offset, n) ==> Snap() == s0
        decreases offset + n - pos
      {
        c, buf := ReadRound(f, buf, n, offset, s0);
        if c != Ok {
          return;
        }
        pos := offset + |buf|;
      }
      c := Ok;
      ReadsOld(s0, Snap(), f, offset, buf);
    }

    /** One round of the loop: the rest of what is wanted, or of the block, whichever is shorter. */
    method ReadRound(f: FileId, buf: seq<Byte>, n: nat, offset: nat, ghost s0: Fs) returns (c: Code, buf': seq<Byte>)
      requires Valid() && f in files && |buf| < n && offset + n <= files[f].size
      requires Read(s0, Snap(), f) && Reads(Snap(), f, offset, buf) && (Backed(s0, f, offset, n) ==> Snap() == s0)
      modifies this`files, free, blocks
      ensures c != Panic ==> Valid() && Read(s0, Snap(), f) && f in files
      ensures c == Ok ==> |buf| < |buf'| <= n && Reads(Snap(), f, offset, buf')
      ensures Backed(s0, f, offset, n) ==> c == Ok && Snap() == s0
    {
      ghost var s := Snap();
      var pos := offset + |buf|;
      var blk;
      var bno, off := pos / 4096, pos % 4096;
      buf' := buf;
      assert InBlock(pos, bno, off);
      if Backed(s0, f, offset, n) { BackedBlock(s0, f, offset, n, pos, bno, off); }
      c, blk := FileGetBlock(f, bno);
      if c == Panic {
        return;
      }
      GotTwice(s0, s, Snap(), f, bno);
      if c != Ok {
        return;
      }
      var bn := if 4096 - off < n - |buf| then 4096 - off else n - |buf|;
      var chunk := blocks[blk][off..off + bn];
      ReadsMore(s, Snap(), f, offset, buf, chunk, bno, off);
      buf' := buf + chunk;
    }

    /**
     * file_write: lays `data` over the file at `offset`, growing it if need be. When blocks run out, or the file
     * would outgrow its block map, the first `done` bytes have been written.
     */
    method FileWrite(f: FileId, data: seq<Byte>, offset: nat) returns (c: Code, ghost done: nat)
      requires Valid() && f in files && offset + |data| <= MAXSIZE
      modifies this`files, free, blocks
      ensures c == Ok ==> done == |data|
      ensures c != Panic ==> Valid() && done <= |data| && Overlaid(old(Snap()), Snap(), f, offset, data[..done])
      ensures c != Panic ==>
        files.Keys == old(files).Keys && (forall g :: g in files && g != f ==> files[g].size == old(files)[g].size)
      ensures c != Panic ==>
        files[f].size == if offset + |data| > old(files[f].size) then offset + |data| else old(files[f].size)
      ensures c == Inval ==> offset + |data| > MAXFILESIZE
      ensures c == NoDisk ==> !HasFree(Snap())
      ensures c == Panic ==> Stuck(Snap(), f) && offset + |data| > 40960
      ensures c != NotFound
      ensures Backed(old(Snap()), f, offset, |data|) ==> c == Ok
      ensures c == Ok <==> Affordable(old(Snap()), f, offset, |data|)
    {
      ghost var s0 := Snap();
      if offset + |data| > files[f].size {
        FileSetSize(f, offset + |data|);
      }
      OverlaidNothing(s0, Snap(), f, offset);
      ghost var s1 := Snap();
      if Backed(s0, f, offset, |data|) { BackedAffordable(s0, f, offset, |data|); }
      AffordableSame(s0, s1, f, offset, |data|);
      c, done := WriteLoop(f, data, offset);
      if c != Panic { OverlaidFrom(s0, s1, Snap(), f, offset, data[..done]); }
    }

    method WriteLoop(f: FileId, data: seq<Byte>, offset: nat) returns (c: Code, ghost done: nat)
      requires Valid() && f in files && offset + |data| <= files[f].size
      modifies this`files, free, blocks
      ensures c == Ok ==> done == |data|
      ensures c != Panic ==> Valid() && done <= |data| && Overlaid(old(Snap()), Snap(), f, offset, data[..done])
      ensures c != Panic ==> SameSizes(old(Snap()), Snap())
      ensures c == Inval ==> offset + |data| > MAXFILESIZE
      ensures c == NoDisk ==> !HasFree(Snap())
      ensures c == Panic ==> Stuck(Snap(), f) && offset + |data| > 40960
      ensures c != NotFound
      ensures c == Ok <==> Affordable(old(Snap()), f, offset, |data|)
    {
      ghost var s0 := Snap();
      var pos := offset;
      OverlaidNothing(s0, s0, f, offset);
      assert data[..0] == [];
      ghost var (lo, hi, fits) := (offset / 4096, BlocksUpTo(offset + |data|), offset + |data| <= MAXFILESIZE);
      ghost var b := lo;
      PayingStart(s0, f, lo, hi, fits);
      while pos < offset + |data|
        invariant offset <= pos <= offset + |data| && (offset < pos ==> pos <= MAXFILESIZE) && b == pos / 4096
        invariant Valid() && f in files && SameSizes(s0, Snap()) &&
          Overlaid(s0, Snap(), f, offset, data[..pos - offset])
        invariant Paying(s0, Snap(), f, lo, b, hi, fits, offset < pos == offset + |data|)
        decreases offset + |data| - pos
      {
        done := pos - offset;
        var bn;
        c, bn, b := PaidRound(f, data, offset, pos, s0, lo, b, hi, fits);
        if c != Ok {
          return;
        }
        pos := pos + bn;
      }
      PaidAll(s0, Snap(), f, offset, b, pos);
      done := |data|;
      assert data[..done] == data;
      return Ok, |data|;
    }

    /** One round of the loop, and what it means for the rest. */
    method PaidRound(f: FileId, data: seq<Byte>, offset: nat, pos: nat, ghost s0: Fs, ghost lo: nat, ghost b: nat,
        ghost hi: nat, ghost fits: bool)
      returns (c: Code, bn: nat, ghost b': nat)
      requires Valid() && f in files && offset <= pos < offset + |data| <= files[f].size
      requires Shape(s0) && SameSizes(s0, Snap()) && Overlaid(s0, Snap(), f, offset, data[..pos - offset])
      requires lo == offset / 4096 && hi == BlocksUpTo(offset + |data|) &&
        (fits <==> offset + |data| <= MAXFILESIZE) && b == pos / 4096
      requires Paying(s0, Snap(), f, lo, b, hi, fits, false)
      modifies this`files, free, blocks
      ensures bn <= offset + |data| - pos && (c == Ok ==> 0 < bn)
      ensures c != Panic ==> Valid() && f in files && SameSizes(s0, Snap())
      ensures c != Panic ==> (c == Ok || bn == 0) && Overlaid(s0, Snap(), f, offset, data[..pos - offset + bn])
      ensures c == Inval ==> offset + |data| > MAXFILESIZE
      ensures c == NoDisk ==> !HasFree(Snap())
      ensures c == Panic ==> Stuck(Snap(), f) && offset + |data| > 40960
      ensures c != NotFound
      ensures c == Ok ==> Paying(s0, Snap(), f, lo, b', hi, fits, pos + bn == offset + |data|)
      ensures c == Ok ==> b' == (pos + bn) / 4096 && pos + bn <= MAXFILESIZE
      ensures c != Ok ==> !Affordable(s0, f, offset, |data|)
    {
      ghost var s := Snap();
      c, bn := WriteRound(f, data, offset, pos, s0);
      b' := (pos + bn) / 4096;
      if c == Ok {
        PayingMore(s0, s, Snap(), f, lo, pos, bn, offset + |data|);
      } else {
        CannotPay(s0, s, f, offset, pos, offset + |data|);
      }
    }

    /** One round of the loop: the rest of the buffer, or of the block, whichever is shorter. */
    method WriteRound(f: FileId, data: seq<Byte>, offset: nat, pos: nat, ghost s0: Fs) returns (c: Code, bn: nat)
      requires Valid() && f in files && offset <= pos < offset + |data| <= files[f].size
      requires Shape(s0) && SameSizes(s0, Snap()) && Overlaid(s0, Snap(), f, offset, data[..pos - offset])
      modifies this`files, free, blocks
      ensures bn <= offset + |data| - pos && (c == Ok ==> 0 < bn)
      ensures c != Panic ==> Valid() && f in files && SameSizes(s0, Snap())
      ensures c != Panic ==> (c == Ok || bn == 0) && Overlaid(s0, Snap(), f, offset, data[..pos - offset + bn])
      ensures c == Inval ==> offset + |data| > MAXFILESIZE
      ensures c == NoDisk ==> !HasFree(Snap())
      ensures c == Panic ==> Stuck(Snap(), f) && offset + |data| > 40960
      ensures c != NotFound
      ensures c == Ok <==> pos / 4096 < MAXBLOCKS && Need(old(Snap()), f, pos / 4096) <= |FreeBlocks(old(Snap()))|
      ensures c == Ok ==> Took(old(Snap()), Snap(), f, pos / 4096) && OnePiece(pos, bn, offset + |data|)
    {
      ghost var s := Snap();
      var blk;
      var bno, off := pos / 4096, pos % 4096;
      assert InBlock(pos, bno, off);
      c, blk := FileGetBlock(f, bno);
      bn := 0;
      ghost var s1 := Snap();
      if c == Panic {
        return;
      }
      assert Got(s, s1, f, bno);
      if c != Ok {
        OverlaidGot(s0, s, s1, f, offset, data[..pos - offset], bno);
        return;
      }
      bn := if 4096 - off < offset + |data| - pos then 4096 - off else offset + |data| - pos;
      CopyOver(f, bno, blk, off, data, offset, pos - offset, bn, s0, s);
      TookFilled(s, s1, Snap(), f, bno);
    }

    /** Bytes n .. n + bn of `data` go into the block just found for them. */
    method CopyOver(f: FileId, bno: nat, blk: nat, off: nat, data: seq<Byte>, ghost offset: nat, n: nat, bn: nat,
        ghost s0: Fs, ghost s: Fs)
      requires Valid() && f in files && blk == Ptr(Snap(), f, bno) && blk != 0
      requires n + bn <= |data| && off + bn <= BLKSIZE && InBlock(offset + n, bno, off)
      requires Shape(s0) && FsOk(s) && Overlaid(s0, s, f, offset, data[..n]) && Got(s, Snap(), f, bno)
      modifies blocks
      ensures Valid() && Overlaid(s0, Snap(), f, offset, data[..n + bn]) && Filled(old(Snap()), Snap(), f, bno)
    {
      ghost var s1 := Snap();
      CopyIn(f, bno, blk, off, data[n..n + bn]);
      OverlaidUpTo(s0, s, s1, Snap(), f, offset, data, n, bn, bno, off);
    }

    /** memmove into a block of the file. */
    method CopyIn(f: FileId, bno: nat, blk: nat, off: nat, chunk: seq<Byte>)
      requires Valid() && f in files && blk == Ptr(Snap(), f, bno) && blk != 0 && off + |chunk| <= BLKSIZE
      modifies blocks
      ensures Valid() && OthersKept(old(Snap()), Snap(), f, bno) && |DataAt(old(Snap()), f, bno)| == BLKSIZE
      ensures DataAt(Snap(), f, bno) == Overlay(DataAt(old(Snap()), f, bno), off, chunk) &&
        Filled(old(Snap()), Snap(), f, bno)
    {
      ghost var s := Snap();
      StoreOk(s, f, bno, off, chunk);
      blocks[blk] := Overlay(blocks[blk], off, chunk);
      assert blocks[..] == s.blocks[blk := Overlay(s.blocks[blk], off, chunk)];
      assert Snap() == Store(s, blk, off, chunk);
      assert At(s, Data(f, bno)) == blk;
    }

    // ---- truncating ----

    /** file_free_block: nothing to do if the block, or the table that would name it, is not there. */
    method FileFreeBlock(f: FileId, bno: nat) returns (c: Code)
      requires Valid() && f in files
      modifies this`files, free, blocks
      ensures Valid() && SameSizes(old(Snap()), Snap()) && OthersKept(old(Snap()), Snap(), f, bno) &&
        DataAt(Snap(), f, bno) == []
      ensures c == if bno < NDIRECT then Ok else if bno >= MAXBLOCKS then Inval
                   else if old(files[f].indirect) == 0 then NotFound else Ok
    {
      ghost var s := Snap();
      ghost var t;
      c, t := FileBlockWalk(f, bno, false);
      assert Snap() == s;
      assert At(s, Data(f, bno)) == Ptr(s, f, bno);
      if c != Ok {
        return;
      }
      var p := ReadPtr(f, bno);
      if p != 0 {
        ReleaseOk(s, f, bno);
        var r := FreeBlock(p);
        WritePtr(f, bno, 0);
        assert Snap() == Release(s, f, bno);
      }
    }

    /** file_truncate_blocks: gives back what a file of `newsize` bytes has no use for. */
    method FileTruncateBlocks(f: FileId, newsize: int)
      requires Valid() && f in files && -0x8000_0000 <= newsize < files[f].size
      modifies this`files, free, blocks
      ensures f in files && Cut(old(Snap()), Snap(), f, NBlocks(newsize), NBlocks(old(files[f].size)))
      ensures Covers(Snap(), f, newsize) || newsize < 0
      ensures NBlocks(newsize) >= WORD / 2 ==> Snap() == old(Snap())
    {
      ghost var s0 := Snap();
      var oldBlocks := NBlocks(files[f].size);
      var newBlocks := NBlocks(newsize);
      var bno := newBlocks;
      while bno < oldBlocks
        invariant newBlocks <= bno && (bno <= oldBlocks || bno == newBlocks)
        invariant f in files && Cut(s0, Snap(), f, newBlocks, bno)
        invariant bno == newBlocks ==> Snap() == s0
      {
        ghost var s := Snap();
        var c := FileFreeBlock(f, bno);
        CutMore(s0, s, Snap(), f, newBlocks, bno);
        bno := bno + 1;
      }
      ghost var s1 := Snap();
      CutAll(s0, s1, f, newBlocks, bno);
      if newBlocks <= NDIRECT && files[f].indirect != 0 {
        NoEntries(s1, f, newBlocks);
        ReleaseTableOk(s1, f);
        var r := FreeBlock(files[f].indirect);
        files := files[f := files[f].(indirect := 0)];
        assert Snap() == ReleaseTable(s1, f);
        assert At(Snap(), Table(f)) == 0;
      }
      if newsize >= 0 { CutCovers(Snap(), f, newsize); }
    }

    /**
     * file_set_size, which takes any size; right are those that are not negative and whose block count fits in an
     * off_t.
     */
    method FileSetSize(f: FileId, newsize: int)
      requires Valid() && f in files && -0x8000_0000 <= newsize < 0x8000_0000
      modifies this`files, free, blocks
      ensures Valid() <==> 0 <= newsize <= MAXSIZE
      ensures Shape(Snap()) && files.Keys == old(files).Keys && files[f].size == newsize
      ensures forall g :: g in files && g != f ==> files[g].size == old(files)[g].size
      ensures OtherFilesKept(old(Snap()), Snap(), f)
      ensures forall k: nat ::
        DataAt(Snap(), f, k) == if newsize >= old(files[f].size) || newsize > MAXSIZE ||
          k < NBlocks(newsize) then DataAt(old(Snap()), f, k) else []
      ensures newsize >= old(files[f].size) ==> Snap() == SetSize(old(Snap()), f, newsize)
    {
      ghost var s0 := Snap();
      if files[f].size > newsize {
        FileTruncateBlocks(f, newsize);
      }
      ghost var s1 := Snap();
      files := files[f := files[f].(size := newsize)];
      SetSizeOk(s1, f, newsize);
    }
  }
}
