/** Disk blocks as bytes, and the 32-bit little-endian block numbers an indirect block holds. */
module Blocks {
  newtype Byte = x: int | 0 <= x < 256

  const BLKSIZE: nat := 4096
  const NDIRECT: nat := 10
  const NINDIRECT: nat := 1024
  const WORD: nat := 0x1_0000_0000

  type Block = b: seq<Byte> | |b| == BLKSIZE witness seq(BLKSIZE, i => 0)

  function ZeroBlock(): (b: Block) {
    seq(BLKSIZE, i => 0)
  }

  /** `data` stored at `off`. */
  function Overlay(b: Block, off: nat, data: seq<Byte>): Block
    requires off + |data| <= BLKSIZE
  {
    b[..off] + data + b[off + |data|..]
  }

  // ---- block numbers ----

  function LittleEndian(s: seq<Byte>): nat {
    if s == [] then 0 else s[0] as int + 256 * LittleEndian(s[1..])
  }

  /** The low `n` bytes of a number. */
  function Bytes(v: nat, n: nat): (s: seq<Byte>)
    ensures |s| == n
    decreases n, v
  {
    if n == 0 then [] else [(v % 256) as Byte] + Bytes(v / 256, n - 1)
  }

  function Power(n: nat): nat {
    if n == 0 then 1 else 256 * Power(n - 1)
  }

  lemma {:induction false} LittleEndianBound(s: seq<Byte>)
    ensures LittleEndian(s) < Power(|s|)
  {
    if s != [] { LittleEndianBound(s[1..]); }
  }

  lemma {:induction false} LittleEndianBytes(v: nat, n: nat)
    requires v < Power(n)
    ensures LittleEndian(Bytes(v, n)) == v
    decreases n
  {
    if n > 0 {
      LittleEndianBytes(v / 256, n - 1);
      assert Bytes(v, n)[1..] == Bytes(v / 256, n - 1);
    }
  }

  lemma {:induction false} LittleEndianZero(s: seq<Byte>)
    requires forall i :: 0 <= i < |s| ==> s[i] == 0
    ensures LittleEndian(s) == 0
  {
    if s != [] { LittleEndianZero(s[1..]); }
  }

  /** Block number `i` of an indirect block. */
  function GetWord(b: Block, i: nat): (v: nat)
    requires i < NINDIRECT
    ensures v < WORD
  {
    LittleEndianBound(b[4 * i..4 * i + 4]);
    LittleEndian(b[4 * i..4 * i + 4])
  }

  function SetWord(b: Block, i: nat, v: nat): Block
    requires i < NINDIRECT && v < WORD
  {
    Overlay(b, 4 * i, Bytes(v, 4))
  }

  /** Storing a number changes that number only. */
  lemma WordStored(b: Block, i: nat, v: nat, j: nat)
    requires i < NINDIRECT && j < NINDIRECT && v < WORD
    ensures GetWord(SetWord(b, i, v), j) == if i == j then v else GetWord(b, j)
  {
    var c := SetWord(b, i, v);
    if i == j {
      assert c[4 * i..4 * i + 4] == Bytes(v, 4);
      assert Power(4) == WORD;
      LittleEndianBytes(v, 4);
    } else {
      assert c[4 * j..4 * j + 4] == b[4 * j..4 * j + 4];
    }
  }

  lemma ZeroWords(i: nat)
    requires i < NINDIRECT
    ensures GetWord(ZeroBlock(), i) == 0
  {
    LittleEndianZero(ZeroBlock()[4 * i..4 * i + 4]);
  }
}
