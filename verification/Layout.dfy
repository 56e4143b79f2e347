/** On-disk layout of mini_ext2: block geometry, little-endian words, bitmaps
    and the byte splice that every memcpy into a block buffer performs. */
module Layout {
  const BLK_SUPER: nat := 1
  const BLK_GDESC: nat := 2
  const BLK_BMAP: nat := 3
  const BLK_IMAP: nat := 4
  const BLK_ITBL_START: nat := 5
  const BLK_DATA_START: nat := 69
  const MAX_INODES: nat := 256
  const NDIRECT: nat := 10
  const NINDIRECT: nat := 128
  // Bits in a bitmap block.
  const BITS: nat := 4096

  const FS_OK: int := 0
  const FS_ERR: int := -1
  const FS_ENOENT: int := -2
  const FS_EEXIST: int := -3
  const FS_ENOSPC: int := -4
  const FS_ENOTDIR: int := -5
  const FS_EPERM: int := -7
  const FS_EBADF: int := -8

  type Byte = x: int | 0 <= x < 256
  type U16 = x: int | 0 <= x < 0x1_0000
  type U32 = x: int | 0 <= x < 0x1_0000_0000
  type Block = b: seq<Byte> | |b| == 512 witness seq(512, _ => 0)

  function ZeroBlock(): (b: Block)
    ensures forall i :: 0 <= i < 512 ==> b[i] == 0
  {
    seq(512, _ => 0)
  }

  // ---- memcpy into a buffer

  function Splice(b: seq<Byte>, off: nat, s: seq<Byte>): (r: seq<Byte>)
    requires off + |s| <= |b|
    ensures |r| == |b|
    ensures forall i :: 0 <= i < |b| ==> r[i] == if off <= i < off + |s| then s[i - off] else b[i]
  {
    b[..off] + s + b[off + |s|..]
  }

  // What fits in a buffer of n bytes and a NUL.
  function Clip(s: seq<Byte>, n: nat): (r: seq<Byte>)
    ensures |r| <= n
  {
    if |s| <= n then s else s[..n]
  }

  // ---- little-endian 32-bit words

  function Word(b: seq<Byte>, off: nat): (w: U32)
    requires off + 4 <= |b|
  {
    (b[off] as int) + 0x100 * (b[off + 1] as int) + 0x1_0000 * (b[off + 2] as int) + 0x100_0000 * (b[off + 3] as int)
  }

  lemma WordParts(w: U32)
    ensures w == w % 0x100 + 0x100 * (w / 0x100 % 0x100) + 0x1_0000 * (w / 0x1_0000 % 0x100)
      + 0x100_0000 * (w / 0x100_0000)
    ensures w / 0x100_0000 < 0x100
  {
    var p := w / 0x100;
    var q := p / 0x100;
    assert w / 0x1_0000 == q;
    assert w / 0x100_0000 == q / 0x100;
  }

  function WordBytes(w: U32): (s: seq<Byte>)
    ensures |s| == 4
    ensures Word(s, 0) == w
  {
    WordParts(w);
    [w % 0x100, w / 0x100 % 0x100, w / 0x1_0000 % 0x100, w / 0x100_0000]
  }

  // A buffer whose bytes from 4w on are those of a word holds that word there.
  lemma WordFrom(s: seq<Byte>, w: nat, v: U32)
    requires 4 * w + 4 <= |s|
    requires forall i: nat {:trigger s[i]} :: i / 4 == w ==> s[i] == WordBytes(v)[i % 4]
    ensures Word(s, 4 * w) == v
  {
  }

  // ---- single-indirect tables: 128 words in a block

  function Ptr(b: Block, i: nat): U32
    requires i < NINDIRECT
  {
    Word(b, 4 * i)
  }

  function SetPtr(b: Block, i: nat, v: U32): Block
    requires i < NINDIRECT
  {
    Splice(b, 4 * i, WordBytes(v))
  }

  lemma PtrSetPtr(b: Block, i: nat, v: U32)
    requires i < NINDIRECT
    ensures forall j: nat :: j < NINDIRECT ==> Ptr(SetPtr(b, i, v), j) == if j == i then v else Ptr(b, j)
  {
  }

  lemma PtrZero(i: nat)
    requires i < NINDIRECT
    ensures Ptr(ZeroBlock(), i) == 0
  {
  }

  // ---- bitmaps: bit k of a byte, bit i of a block

  // (x >> k) & 1
  predicate ByteBit(x: nat, k: nat) {
    if k == 0 then x % 2 == 1 else ByteBit(x / 2, k - 1)
  }

  // x | (1 << k) when val holds, x & ~(1 << k) otherwise.
  function ByteSet(x: nat, k: nat, val: bool): nat {
    if k == 0 then x / 2 * 2 + (if val then 1 else 0)
    else 2 * ByteSet(x / 2, k - 1, val) + x % 2
  }

  function Exp2(m: nat): nat {
    if m == 0 then 1 else 2 * Exp2(m - 1)
  }

  lemma {:induction false} ByteSetBound(x: nat, k: nat, val: bool, m: nat)
    requires k < m && x < Exp2(m)
    ensures ByteSet(x, k, val) < Exp2(m)
  {
    if k > 0 {
      ByteSetBound(x / 2, k - 1, val, m - 1);
    }
  }

  lemma {:induction false} ByteSetBit(x: nat, k: nat, val: bool, j: nat)
    ensures ByteBit(ByteSet(x, k, val), j) == if j == k then val else ByteBit(x, j)
  {
    if k > 0 && j > 0 {
      assert ByteSet(x, k, val) / 2 == ByteSet(x / 2, k - 1, val);
      ByteSetBit(x / 2, k - 1, val, j - 1);
    }
  }

  predicate BitAt(b: Block, i: nat)
    requires i < BITS
  {
    ByteBit(b[i / 8], i % 8)
  }

  function SetBit(b: Block, i: nat, val: bool): Block
    requires i < BITS
  {
    assert Exp2(8) == 256;
    ByteSetBound(b[i / 8], i % 8, val, 8);
    b[i / 8 := ByteSet(b[i / 8], i % 8, val)]
  }

  lemma BitSetBit(b: Block, i: nat, val: bool)
    requires i < BITS
    ensures forall j: nat :: j < BITS ==> BitAt(SetBit(b, i, val), j) == if j == i then val else BitAt(b, j)
  {
    forall j: nat | j < BITS
      ensures BitAt(SetBit(b, i, val), j) == if j == i then val else BitAt(b, j)
    {
      ByteSetBit(b[i / 8], i % 8, val, j % 8);
    }
  }
}
