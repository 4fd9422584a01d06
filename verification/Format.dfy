/** fsformat.c: the image builder, and its agreement with the server that reads the image. */
module Format {
  import opened Blocks
  import opened FsModel
  import opened FsFacts
  import opened FileServer

  const MAX_DIR_ENTS: nat := 128
  /** The root directory's inode, in the super block. */
  const ROOT: FileId := 0

  /** ROUNDUP(n, BLKSIZE) on a 32-bit unsigned number. */
  function RoundUp(n: nat): nat
    requires n < WORD
  {
    var m := if n == 0 then WORD - 1 else n - 1;
    (m + 4096 - m % 4096) % WORD
  }

  /** ROUNDUP(n, BLKSIZE) on a signed number. */
  function RoundUpSigned(n: int): int
    requires 0 <= n
  {
    if n == 0 then -1 + 4096 + 1 else n - 1 + 4096 - (n - 1) % 4096
  }

  /** The blocks `n` bytes take. */
  function BlocksOf(n: nat): nat {
    (n + 4095) / 4096
  }

  lemma RoundUpBlocks(n: nat)
    requires n <= MAXSIZE
    ensures RoundUp(n) == 4096 * BlocksOf(n)
    ensures RoundUpSigned(n) == if n == 0 then 4096 else 4096 * BlocksOf(n)
  {
  }

  lemma BlocksOfMeans(n: nat, i: nat)
    ensures i < BlocksOf(n) <==> i * 4096 < n
  {
  }

  /** The blocks a file takes in the image: its data, and an indirect block from ten blocks on. */
  function Footprint(n: nat): nat {
    BlocksOf(n) + if BlocksOf(n) >= NDIRECT then 1 else 0
  }

  function Total(inputs: seq<seq<Byte>>): nat {
    if inputs == [] then 0 else Total(inputs[..|inputs| - 1]) + Footprint(|inputs[|inputs| - 1]|)
  }

  lemma {:induction false} TotalPrefix(inputs: seq<seq<Byte>>, n: nat)
    requires n <= |inputs|
    ensures Total(inputs[..n]) <= Total(inputs)
    decreases |inputs|
  {
    if n == |inputs| {
      assert inputs[..n] == inputs;
    } else {
      TotalPrefix(inputs[..|inputs| - 1], n);
      assert inputs[..|inputs| - 1][..n] == inputs[..n];
    }
  }

  /** When fsformat builds an image rather than stopping with an error. */
  ghost predicate FitsOn(inputs: seq<seq<Byte>>, nblocks: nat) {
    && |inputs| <= MAX_DIR_ENTS && (forall i :: 0 <= i < |inputs| ==> |inputs[i]| < MAXFILESIZE)
    && 3 + Total(inputs) + BlocksOf(256 * |inputs|) < nblocks
  }

  /** The bytes of a block that begins at byte `at` of `data`; the image starts out as zeros. */
  function Chunk(data: seq<Byte>, at: nat): Block
    requires at < |data|
  {
    var end := if at + 4096 < |data| then at + 4096 else |data|;
    data[at..end] + seq(4096 - (end - at), i => 0)
  }

  /** Blocks that nobody owns may be written without anyone noticing. */
  lemma ScribbleFree(s: Fs, s': Fs)
    requires FsOk(s) && |s'.blocks| == |s.blocks| && s' == s.(blocks := s'.blocks)
    requires forall b :: 0 <= b < |s.free| && !s.free[b] ==> s'.blocks[b] == s.blocks[b]
    ensures FsOk(s') && AllKept(s, s') && forall x :: At(s', x) == At(s, x)
  {
    assert Shape(s');
    forall x ensures At(s', x) == At(s, x) {
      if x.f in s.files { assert At(s, Table(x.f)) == s.files[x.f].indirect; }
    }
    SameOwners(s, s');
    forall g, c ensures DataAt(s', g, c) == DataAt(s, g, c) { assert At(s, Data(g, c)) == At(s', Data(g, c)); }
  }

  function EmptyFile(): File {
    File(0, seq(10, i => 0), 0)
  }

  lemma AddFile(s: Fs, f: FileId)
    requires FsOk(s) && f !in s.files && |s.free| > 0
    ensures var s' := s.(files := s.files[f := EmptyFile()]);
      FsOk(s') && AllKept(s, s') && forall c: nat :: Ptr(s', f, c) == 0
  {
    var s' := s.(files := s.files[f := EmptyFile()]);
    assert Shape(s');
    assert forall x :: At(s', x) == At(s, x);
    assert NoLeak(s') by {
      forall q {:trigger s'.free[q]} | 0 < q < |s'.free| && !s'.free[q] && q !in s'.reserved ensures Owned(s', q) {
        assert s.free[q] == s'.free[q] && Owned(s, q);
        var y :| At(s, y) == q;
        assert At(s', y) == q;
      }
    }
    assert Sized(s') by {
      forall x | At(s', x) != 0 ensures x.f in s'.files && Needs(s'.files[x.f].size, x) { assert At(s, x) != 0; }
    }
  }

  /** The file's blocks are the run of `n` blocks from `start`. */
  ghost predicate Laid(s: Fs, f: FileId, start: nat, n: nat)
    requires Shape(s)
  {
    forall k: nat {:trigger At(s, Data(f, k))} :: At(s, Data(f, k)) == if k < n then start + k else 0
  }

  lemma LaidMore(s: Fs, s': Fs, f: FileId, start: nat, n: nat)
    requires DiffersAt(s, s', Data(f, n)) && Laid(s, f, start, n) && At(s', Data(f, n)) == start + n
    ensures Laid(s', f, start, n + 1)
  {
    forall k: nat {:trigger At(s', Data(f, k))} ensures At(s', Data(f, k)) == if k < n + 1 then start + k else 0 {
      if k != n { assert At(s', Data(f, k)) == At(s, Data(f, k)); }
    }
  }

  /** Blocks `start` on hold `data`. */
  ghost predicate Holds(blocks: seq<Block>, start: nat, data: seq<Byte>, n: nat) {
    n <= BlocksOf(|data|) && start + n <= |blocks| && forall k: nat ::
      k < n ==> 4096 * k < |data| && blocks[start + k] == Chunk(data, 4096 * k)
  }

  lemma HoldsKept(blocks: seq<Block>, blocks': seq<Block>, start: nat, data: seq<Byte>, n: nat)
    requires Holds(blocks, start, data, n) && |blocks'| == |blocks|
    requires forall b :: 0 <= b < start + n ==> blocks'[b] == blocks[b]
    ensures Holds(blocks', start, data, n)
  {
  }

  /** The reader finds what the builder laid out. */
  lemma LaidReads(s: Fs, f: FileId, start: nat, data: seq<Byte>)
    requires Shape(s) && start > 0 && Laid(s, f, start, BlocksOf(|data|)) &&
      Holds(s.blocks, start, data, BlocksOf(|data|))
    ensures Reads(s, f, 0, data)
  {
    forall i | 0 <= i < |data| ensures ByteAt(s, f, 0 + i) == Has(data[i]) {
      var k, o := i / 4096, i % 4096;
      assert InBlock(i, k, o);
      BlocksOfMeans(|data|, k);
      assert At(s, Data(f, k)) == start + k;
      assert s.blocks[start + k] == Chunk(data, 4096 * k);
      ByteIn(s, f, i, k, o);
    }
  }

  lemma ReadsKept(s: Fs, s': Fs, f: FileId, g: FileId, data: seq<Byte>)
    requires Shape(s) && Shape(s') && OtherFilesKept(s, s', f) && g != f && Reads(s, g, 0, data)
    ensures Reads(s', g, 0, data)
  {
    forall i | 0 <= i < |data| ensures ByteAt(s', g, 0 + i) == Has(data[i]) {
      assert ByteAt(s, g, 0 + i) == Has(data[i]);
      assert DataAt(s', g, (0 + i) / 4096) == DataAt(s, g, (0 + i) / 4096);
    }
  }

  /** Only the inode of `f` differs. */
  ghost predicate Touches(files: map<FileId, File>, files': map<FileId, File>, f: FileId) {
    f in files' && files' == files[f := files'[f]]
  }

  class Image {
    const nblocks: nat
    var blocks: array<Block>
    var free: array<bool>
    /** diskpos, in blocks. */
    var pos: nat
    var files: map<FileId, File>
    /** The bitmap as it will have to be for what has been built so far. */
    ghost var marks: seq<bool>

    ghost function Snap(): Fs
      reads this, blocks
    {
      Fs(marks, blocks[..], files, {0, 1, 2})
    }

    /** Well-formed so far: the blocks from `top` on are untouched and unclaimed. */
    ghost predicate Built(top: nat)
      reads this, blocks
    {
      && 3 <= top <= nblocks <= 1024 && blocks.Length == nblocks && |marks| == nblocks && FsOk(Snap())
      && (forall b :: 0 <= b < nblocks ==> (marks[b] <==> b >= top))
    }

    ghost predicate Blank(top: nat)
      reads this, blocks
    {
      forall b :: top <= b < blocks.Length ==> blocks[b] == ZeroBlock()
    }

    /** alloc: moves diskpos; the image must stay short of its last block. */
    method Alloc(bytes: nat) returns (c: Code, start: nat)
      requires bytes <= MAXSIZE
      modifies this`pos
      ensures start == old(pos) && pos == old(pos) + BlocksOf(bytes) && c == if pos >= nblocks then Panic else Ok
    {
      RoundUpBlocks(bytes);
      start := pos;
      pos := pos + RoundUp(bytes) / 4096;
      c := if pos >= nblocks then Panic else Ok;
    }

    constructor (nblocks: nat)
      ensures this.nblocks == nblocks && blocks.Length == nblocks && free.Length == nblocks && fresh(blocks) &&
        fresh(free)
      ensures pos == 0 && files == map[ROOT := EmptyFile()] && Blank(0)
    {
      this.nblocks := nblocks;
      blocks := new Block[nblocks](i => ZeroBlock());
      free := new bool[nblocks](i => false);
      pos := 0;
      files := map[ROOT := EmptyFile()];
      marks := [];
    }

    /** opendisk: block 0, the super block, and a bitmap that calls every block free. */
    method OpenDisk() returns (c: Code)
      requires nblocks <= 1024 && blocks.Length == nblocks && free.Length == nblocks && pos == 0
      requires files == map[ROOT := EmptyFile()] && Blank(0)
      modifies this`pos, this`marks, free
      ensures c == if nblocks > 3 then Ok else Panic
      ensures c == Ok ==> pos == 3 && Built(3) && Blank(3) && forall b :: 0 <= b < nblocks ==> free[b]
    {
      var start;
      c, start := Alloc(BLKSIZE);
      if c != Ok {
        return;
      }
      c, start := Alloc(BLKSIZE);
      if c != Ok {
        return;
      }
      c, start := Alloc(BLKSIZE);
      if c != Ok {
        return;
      }
      forall b | 0 <= b < nblocks {
        free[b] := true;
      }
      marks := seq(nblocks, b => b >= 3);
      assert forall x :: At(Snap(), x) == 0;
    }

    /** readn into the image. */
    method PutBytes(start: nat, data: seq<Byte>)
      requires Built(start) && Blank(start) && start + BlocksOf(|data|) <= nblocks
      modifies blocks
      ensures Built(start) && Blank(start + BlocksOf(|data|)) && Holds(blocks[..], start, data, BlocksOf(|data|))
      ensures AllKept(old(Snap()), Snap()) && forall x :: At(Snap(), x) == At(old(Snap()), x)
    {
      ghost var s := Snap();
      var k := 0;
      while k < BlocksOf(|data|)
        invariant k <= BlocksOf(|data|) && Holds(blocks[..], start, data, k) && Blank(start + BlocksOf(|data|))
        invariant forall b :: 0 <= b < start ==> blocks[b] == s.blocks[b]
      {
        BlocksOfMeans(|data|, k);
        blocks[start + k] := Chunk(data, 4096 * k);
        k := k + 1;
      }
      ScribbleFree(s, Snap());
    }

    // ---- finishfile ----

    /** The first loop: direct entries. */
    method LayDirect(f: FileId, start: nat, len: nat) returns (i: nat)
      requires Built(start) && f in files && files[f].size == len < MAXFILESIZE && files[f].indirect == 0
      requires Laid(Snap(), f, start, 0) && start + BlocksOf(len) <= nblocks
      modifies this`files, this`marks
      ensures i == if BlocksOf(len) < NDIRECT then BlocksOf(len) else NDIRECT
      ensures Built(start + i) && Laid(Snap(), f, start, i) && Touches(old(files), files, f) && files[f].indirect == 0
      ensures files[f].size == len && OtherFilesKept(old(Snap()), Snap(), f)
    {
      ghost var s0 := Snap();
      i := 0;
      while i < BlocksOf(len) && i < NDIRECT
        invariant i <= BlocksOf(len) && i <= NDIRECT && Touches(old(files), files, f) && files[f].indirect == 0 &&
          files[f].size == len
        invariant Built(start + i) && Laid(Snap(), f, start, i) && OtherFilesKept(s0, Snap(), f)
      {
        LayOne(f, start, len, i);
        i := i + 1;
      }
    }

    method LayOne(f: FileId, start: nat, len: nat, i: nat)
      requires Built(start + i) && 0 < start && f in files && files[f].size == len && files[f].indirect == 0
      requires i < NDIRECT && i < BlocksOf(len) && start + i < nblocks && Laid(Snap(), f, start, i)
      modifies this`files, this`marks
      ensures Built(start + i + 1) && Touches(old(files), files, f) && files[f].indirect == 0 &&
        Laid(Snap(), f, start, i + 1)
      ensures files[f].size == len && OtherFilesKept(old(Snap()), Snap(), f)
    {
      ghost var s := Snap();
      assert At(s, Data(f, i)) == 0;
      BlocksOfMeans(len, i);
      ClaimOk(s, f, i, start + i);
      files := files[f := files[f].(direct := files[f].direct[i := start + i])];
      marks := marks[start + i := false];
      assert Snap() == Claim(s, f, i, start + i);
      LaidMore(s, Snap(), f, start, i);
    }

    /** The second loop: entries in the indirect block `t`, which has just been taken. */
    method LayTable(f: FileId, start: nat, len: nat, t: nat)
      requires Built(start + NDIRECT) && Blank(t) && f in files && files[f].size == len < MAXFILESIZE &&
        files[f].indirect == 0
      requires start > 0 && BlocksOf(len) >= NDIRECT && Laid(Snap(), f, start, NDIRECT) &&
        t == start + BlocksOf(len) < nblocks
      modifies this`files, this`marks, blocks
      ensures Built(t + 1) && Laid(Snap(), f, start, BlocksOf(len)) && Blank(t + 1) && Touches(old(files), files, f)
      ensures files[f].size == len && OtherFilesKept(old(Snap()), Snap(), f)
      ensures forall b :: 0 <= b < blocks.Length && b != t ==> blocks[b] == old(blocks[b])
    {
      ghost var s0 := Snap();
      BlocksOfMeans(len, 9);
      ClaimTableOk(s0, f, t);
      files := files[f := files[f].(indirect := t)];
      marks := marks[t := false];
      assert blocks[..] == blocks[..][t := ZeroBlock()];
      assert Snap() == ClaimTable(s0, f, t);
      var i := NDIRECT;
      while i < BlocksOf(len)
        invariant NDIRECT <= i <= BlocksOf(len) && Touches(old(files), files, f) && files[f].indirect == t &&
          files[f].size == len
        invariant blocks.Length == nblocks && |marks| == nblocks && FsOk(Snap())
        invariant forall b :: 0 <= b < nblocks ==> (marks[b] <==> b >= start + i && b != t)
        invariant Laid(Snap(), f, start, i) && OtherFilesKept(s0, Snap(), f)
        invariant forall b :: 0 <= b < blocks.Length && b != t ==> blocks[b] == s0.blocks[b]
      {
        LayEntry(f, start, len, t, i);
        i := i + 1;
      }
    }

    method LayEntry(f: FileId, start: nat, len: nat, t: nat, i: nat)
      requires NDIRECT <= i < BlocksOf(len) && start + i < t < nblocks == blocks.Length == |marks|
      requires f in files && files[f].indirect == t && files[f].size == len < MAXFILESIZE && FsOk(Snap())
      requires start > 0 && marks[start + i] && Laid(Snap(), f, start, i)
      modifies this`marks, blocks
      ensures |marks| == nblocks && FsOk(Snap()) && Laid(Snap(), f, start, i + 1) &&
        OtherFilesKept(old(Snap()), Snap(), f)
      ensures marks == old(marks)[start + i := false]
      ensures forall b :: 0 <= b < blocks.Length && b != t ==> blocks[b] == old(blocks[b])
    {
      ghost var s := Snap();
      assert At(s, Data(f, i)) == 0;
      BlocksOfMeans(len, i);
      ClaimOk(s, f, i, start + i);
      blocks[t] := SetWord(blocks[t], i - NDIRECT, start + i);
      marks := marks[start + i := false];
      assert blocks[..] == s.blocks[t := SetWord(s.blocks[t], i - NDIRECT, start + i)];
      assert Snap() == Claim(s, f, i, start + i);
      LaidMore(s, Snap(), f, start, i);
    }

    /** finishfile: the inode of a file whose blocks are the run from `start`. */
    method FinishFile(f: FileId, start: nat, len: nat) returns (c: Code)
      requires Built(start) && f in files && files[f] == EmptyFile() && len < MAXFILESIZE
      requires start + BlocksOf(len) <= nblocks && Blank(start + BlocksOf(len))
      requires BlocksOf(len) >= NDIRECT ==> pos == start + BlocksOf(len) < nblocks
      modifies this`files, this`marks, this`pos, blocks
      ensures c == if BlocksOf(len) >= NDIRECT && old(pos) + 1 >= nblocks then Panic else Ok
      ensures pos == old(pos) + if BlocksOf(len) >= NDIRECT then 1 else 0
      ensures c == Ok ==>
        Built(start + Footprint(len)) && Blank(start + Footprint(len)) && Laid(Snap(), f, start, BlocksOf(len))
      ensures c == Ok ==> Touches(old(files), files, f) && files[f].size == len
      ensures c == Ok ==> OtherFilesKept(old(Snap()), Snap(), f)
      ensures c == Ok ==> forall b :: 0 <= b < start + BlocksOf(len) ==> blocks[b] == old(blocks[b])
    {
      ghost var s0 := Snap();
      StartFile(f, start, len);
      var i := LayDirect(f, start, len);
      c := Ok;
      if i == NDIRECT {
        var t;
        c, t := Alloc(BLKSIZE);
        if c != Ok {
          return;
        }
        LayTable(f, start, len, t);
      }
    }

    method StartFile(f: FileId, start: nat, len: nat)
      requires Built(start) && f in files && files[f] == EmptyFile() && len < MAXFILESIZE
      modifies this`files
      ensures Built(start) && files == old(files)[f := EmptyFile().(size := len)]
      ensures Laid(Snap(), f, start, 0) && AllKept(old(Snap()), Snap())
    {
      ghost var s := Snap();
      assert forall x: Slot :: x.f == f ==> At(s, x) == 0;
      SetSizeOk(s, f, len);
      files := files[f := files[f].(size := len)];
      assert Snap() == SetSize(s, f, len);
    }

    // ---- files, directory, bitmap ----

    /** writefile: file number `f` of the image, with the bytes `data`. */
    method WriteFile(f: FileId, data: seq<Byte>) returns (c: Code)
      requires Built(pos) && Blank(pos) && f !in files
      modifies this`files, this`marks, this`pos, blocks
      ensures c == if |data| >= MAXFILESIZE || f > MAX_DIR_ENTS || old(pos) + Footprint(|data|) >= nblocks then Panic
        else Ok
      ensures c == Ok ==> pos == old(pos) + Footprint(|data|) && Built(pos) && Blank(pos)
      ensures c == Ok ==> Touches(old(files), files, f) && files[f].size == |data| && Reads(Snap(), f, 0, data)
      ensures c == Ok ==> OtherFilesKept(old(Snap()), Snap(), f)
    {
      ghost var s0 := Snap();
      if |data| >= MAXFILESIZE || f > MAX_DIR_ENTS {
        return Panic;
      }
      AddFile(s0, f);
      files := files[f := EmptyFile()];
      var start;
      c, start := Alloc(|data|);
      if c != Ok {
        return;
      }
      PutBytes(start, data);
      ghost var s1 := Snap();
      c := FinishFile(f, start, |data|);
      if c == Ok {
        HoldsKept(s1.blocks, blocks[..], start, data, BlocksOf(|data|));
        LaidReads(Snap(), f, start, data);
      }
    }

    /** finishdir: the directory's own blocks. An empty directory is still given a size of one block. */
    method FinishDir(dir: seq<Byte>) returns (c: Code)
      requires Built(pos) && Blank(pos) && pos < nblocks && ROOT in files && files[ROOT] == EmptyFile() &&
        |dir| <= 256 * MAX_DIR_ENTS
      modifies this`files, this`marks, this`pos, blocks
      ensures c == if old(pos) + BlocksOf(|dir|) >= nblocks then Panic else Ok
      ensures c == Ok ==> pos == old(pos) + BlocksOf(|dir|) && Built(if dir == [] then pos + 1 else pos)
      ensures c == Ok ==> Touches(old(files), files, ROOT)
      ensures c == Ok ==> OtherFilesKept(old(Snap()), Snap(), ROOT)
      ensures c == Ok && dir == [] ==> At(Snap(), Data(ROOT, 0)) == pos
    {
      var start;
      c, start := Alloc(|dir|);
      if c != Ok {
        return;
      }
      PutBytes(start, dir);
      RoundUpBlocks(|dir|);
      c := FinishFile(ROOT, start, RoundUpSigned(|dir|));
    }

    /** finishdisk: every block below diskpos is in use. */
    method FinishDisk()
      requires pos <= free.Length && forall b :: 0 <= b < free.Length ==> free[b]
      modifies free
      ensures forall b :: 0 <= b < free.Length ==> (free[b] <==> b >= pos)
    {
      var i := 0;
      while i < pos
        invariant i <= pos && forall b :: 0 <= b < free.Length ==> (free[b] <==> b >= i)
      {
        free[i] := false;
        i := i + 1;
      }
    }

    /** The finished image. */
    ghost function Disk(): Fs
      reads this, free, blocks
    {
      Fs(free[..], blocks[..], files, {0, 1, 2})
    }

    /** What main has written after the first `n` files. */
    ghost predicate Written(inputs: seq<seq<Byte>>, n: nat, s: Fs) {
      && n <= |inputs| && Shape(s) && (forall g: nat :: g in s.files <==> g <= n)
      && forall j {:trigger inputs[j]} ::
        0 <= j < n ==> s.files[j + 1].size == |inputs[j]| && Reads(s, j + 1, 0, inputs[j])
    }

    lemma WrittenMore(inputs: seq<seq<Byte>>, n: nat, s: Fs, s': Fs)
      requires Written(inputs, n, s) && n < |inputs| && Shape(s') && Touches(s.files, s'.files, n + 1)
      requires OtherFilesKept(s, s', n + 1)
      requires s'.files[n + 1].size == |inputs[n]| && Reads(s', n + 1, 0, inputs[n])
      ensures Written(inputs, n + 1, s')
    {
      forall j | 0 <= j < n + 1 ensures s'.files[j + 1].size == |inputs[j]| && Reads(s', j + 1, 0, inputs[j]) {
        if j < n { ReadsKept(s, s', n + 1, j + 1, inputs[j]); }
      }
    }

    lemma WrittenStill(inputs: seq<seq<Byte>>, n: nat, s: Fs, s': Fs)
      requires Written(inputs, n, s) && Shape(s') && Touches(s.files, s'.files, ROOT) && OtherFilesKept(s, s', ROOT)
      ensures Written(inputs, n, s')
    {
      forall j | 0 <= j < n ensures s'.files[j + 1].size == |inputs[j]| && Reads(s', j + 1, 0, inputs[j]) {
        ReadsKept(s, s', ROOT, j + 1, inputs[j]);
      }
    }

    /**
     * main: builds the image from the files' bytes and the directory's entries. It succeeds exactly if everything
     * fits. The image is then one the server can use, exactly if there was a file to put on it.
     */
    method Build(inputs: seq<seq<Byte>>, dir: seq<Byte>) returns (c: Code)
      requires 2 <= nblocks <= 1024 && blocks.Length == nblocks && free.Length == nblocks && pos == 0
      requires files == map[ROOT := EmptyFile()] && Blank(0) && |dir| == 256 * |inputs|
      modifies this`files, this`marks, this`pos, blocks, free
      ensures c == if FitsOn(inputs, nblocks) then Ok else Panic
      ensures c == Ok ==> free.Length == nblocks && pos == 3 + Total(inputs) + BlocksOf(|dir|)
      ensures c == Ok ==> forall b :: 0 <= b < nblocks ==> (free[b] <==> b >= pos)
      ensures c == Ok ==> Written(inputs, |inputs|, Disk())
      ensures c == Ok ==> (FsOk(Disk()) <==> inputs != [])
    {
      c := OpenDisk();
      if c != Ok {
        return;
      }
      c := WriteAll(inputs);
      if c != Ok {
        return;
      }
      ghost var s := Snap();
      c := FinishDir(dir);
      if c != Ok {
        return;
      }
      WrittenStill(inputs, |inputs|, s, Snap());
      FinishDisk();
      SameTables(Snap(), Disk());
      WrittenMarks(inputs, |inputs|, Snap(), Disk());
      if inputs == [] {
        assert At(Disk(), Data(ROOT, 0)) == pos && free[pos];
      } else {
        assert free[..] == marks;
      }
    }

    lemma WrittenMarks(inputs: seq<seq<Byte>>, n: nat, s: Fs, s': Fs)
      requires Written(inputs, n, s) && Shape(s') && s'.files == s.files && AllKept(s, s')
      ensures Written(inputs, n, s')
    {
      forall j | 0 <= j < n ensures s'.files[j + 1].size == |inputs[j]| && Reads(s', j + 1, 0, inputs[j]) {
        ReadsKept(s, s', ROOT, j + 1, inputs[j]);
      }
    }

    /** The loop of main. */
    method WriteAll(inputs: seq<seq<Byte>>) returns (c: Code)
      requires Built(pos) && Blank(pos) && pos == 3 < nblocks && files == map[ROOT := EmptyFile()]
      modifies this`files, this`marks, this`pos, blocks
      ensures c == Ok || c == Panic
      ensures c == Panic ==> !FitsOn(inputs, nblocks)
      ensures c == Ok ==> |inputs| <= MAX_DIR_ENTS && forall i :: 0 <= i < |inputs| ==> |inputs[i]| < MAXFILESIZE
      ensures c == Ok ==> pos == 3 + Total(inputs) < nblocks && Built(pos) && Blank(pos)
      ensures c == Ok ==> Written(inputs, |inputs|, Snap()) && files[ROOT] == EmptyFile()
    {
      var n := 0;
      while n < |inputs|
        invariant n <= |inputs| && n <= MAX_DIR_ENTS && forall i :: 0 <= i < n ==> |inputs[i]| < MAXFILESIZE
        invariant pos == 3 + Total(inputs[..n]) < nblocks && Built(pos) && Blank(pos)
        invariant Written(inputs, n, Snap()) && files[ROOT] == EmptyFile()
      {
        ghost var s := Snap();
        c := WriteFile(n + 1, inputs[n]);
        assert inputs[..n + 1][..n] == inputs[..n] && inputs[..n + 1][n] == inputs[n];
        if c != Ok {
          TotalPrefix(inputs, n + 1);
          return;
        }
        WrittenMore(inputs, n, s, Snap());
        n := n + 1;
      }
      assert inputs[..n] == inputs;
      c := Ok;
    }
  }

  /** What fsformat puts on the disk is what the server's file_read returns. */
  method FormatThenRead(nblocks: nat, inputs: seq<seq<Byte>>, dir: seq<Byte>, j: nat) returns (c: Code, buf: seq<Byte>)
    requires 2 <= nblocks <= 1024 && |dir| == 256 * |inputs| && FitsOn(inputs, nblocks) && j < |inputs|
    ensures c == Ok && buf == inputs[j]
  {
    var image := new Image(nblocks);
    c := image.Build(inputs, dir);
    var server := new Server(image.free, image.blocks, image.files, {0, 1, 2});
    assert server.Snap() == image.Disk();
    ReadsBacked(server.Snap(), j + 1, inputs[j]);
    c, buf := server.FileRead(j + 1, |inputs[j]|, 0);
    ReadsEqual(server.Snap(), j + 1, inputs[j], buf);
  }

  lemma ReadsBacked(s: Fs, f: FileId, data: seq<Byte>)
    requires Shape(s) && Reads(s, f, 0, data)
    ensures Backed(s, f, 0, |data|)
  {
    forall q: nat {:trigger ByteAt(s, f, q)} | 0 <= q < 0 + |data| ensures ByteAt(s, f, q) != Hole {
      assert ByteAt(s, f, 0 + q) == Has(data[q]);
    }
  }

  lemma ReadsEqual(s: Fs, f: FileId, a: seq<Byte>, b: seq<Byte>)
    requires Shape(s) && Reads(s, f, 0, a) && Reads(s, f, 0, b) && |a| == |b|
    ensures a == b
  {
    forall i | 0 <= i < |a| ensures a[i] == b[i] {
      assert ByteAt(s, f, 0 + i) == Has(a[i]) && ByteAt(s, f, 0 + i) == Has(b[i]);
    }
  }
}
