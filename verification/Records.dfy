/** The packed records of mini_ext2: 128-byte inodes, four to a block, and
    64-byte directory entries, eight to a block. */
module Records {
  import opened Layout

  const MODE_FILE: U16 := 33188  // 0100644
  const MODE_DIR: U16 := 16877   // 0040755
  const FT_REG: Byte := 1
  const FT_DIR: Byte := 2

  type Pointers = s: seq<U32> | |s| == 10 witness seq(10, _ => 0)

  datatype Inode = Inode(mode: U16, uid: U16, size: U32, atime: U32, mtime: U32, ctime: U32,
                         gid: U16, links: U16, blocks: U32, direct: Pointers, ind: U32)

  const NO_POINTERS: Pointers := [0, 0, 0, 0, 0, 0, 0, 0, 0, 0]
  const ZERO_INODE: Inode := Inode(0, 0, 0, 0, 0, 0, 0, 0, 0, NO_POINTERS, 0)

  // (mode & 0170000) == 0040000
  predicate IsDir(x: Inode) {
    x.mode / 4096 == 4
  }

  // The eighteen 32-bit words of the record; the 56 bytes after them are reserved and zero.
  function InodeWord(x: Inode, w: nat): U32
    requires w < 18
  {
    if w == 0 then x.mode + 0x1_0000 * (x.uid as int)
    else if w == 1 then x.size
    else if w == 2 then x.atime
    else if w == 3 then x.mtime
    else if w == 4 then x.ctime
    else if w == 5 then x.gid + 0x1_0000 * (x.links as int)
    else if w == 6 then x.blocks
    else if w < 17 then x.direct[w - 7]
    else x.ind
  }

  function EncodeInode(x: Inode): (s: seq<Byte>)
    ensures |s| == 128
  {
    seq(128, i requires 0 <= i < 128 => if i < 72 then WordBytes(InodeWord(x, i / 4))[i % 4] else 0)
  }

  function DecodeInode(r: seq<Byte>): Inode
    requires |r| == 128
  {
    Inode(Word(r, 0) % 0x1_0000, Word(r, 0) / 0x1_0000, Word(r, 4),
          Word(r, 8), Word(r, 12), Word(r, 16),
          Word(r, 20) % 0x1_0000, Word(r, 20) / 0x1_0000, Word(r, 24),
          [Word(r, 28), Word(r, 32), Word(r, 36), Word(r, 40), Word(r, 44),
           Word(r, 48), Word(r, 52), Word(r, 56), Word(r, 60), Word(r, 64)],
          Word(r, 68))
  }

  // inode_pos: record k of a table block starts at byte 128k.
  function InodeAt(b: Block, k: nat): Inode
    requires k < 4
  {
    DecodeInode(b[128 * k..128 * k + 128])
  }

  function PutInode(b: Block, k: nat, x: Inode): Block
    requires k < 4
  {
    Splice(b, 128 * k, EncodeInode(x))
  }

  lemma EncodedWord(x: Inode, w: nat)
    requires w < 18
    ensures Word(EncodeInode(x), 4 * w) == InodeWord(x, w)
  {
    WordFrom(EncodeInode(x), w, InodeWord(x, w));
  }

  lemma DecodeWords(r: seq<Byte>, x: Inode)
    requires |r| == 128
    requires forall w: nat :: w < 18 ==> Word(r, 4 * w) == InodeWord(x, w)
    ensures DecodeInode(r) == x
  {
    hide Word;
    assert Word(r, 4 * 0) == InodeWord(x, 0) && Word(r, 4 * 1) == InodeWord(x, 1) && Word(r, 4 * 2) == InodeWord(x, 2);
    assert Word(r, 4 * 3) == InodeWord(x, 3) && Word(r, 4 * 4) == InodeWord(x, 4) && Word(r, 4 * 5) == InodeWord(x, 5);
    assert Word(r, 4 * 6) == InodeWord(x, 6) && Word(r, 4 * 7) == x.direct[0] && Word(r, 4 * 8) == x.direct[1];
    assert Word(r, 4 * 9) == x.direct[2] && Word(r, 4 * 10) == x.direct[3] && Word(r, 4 * 11) == x.direct[4];
    assert Word(r, 4 * 12) == x.direct[5] && Word(r, 4 * 13) == x.direct[6] && Word(r, 4 * 14) == x.direct[7];
    assert Word(r, 4 * 15) == x.direct[8] && Word(r, 4 * 16) == x.direct[9] && Word(r, 4 * 17) == x.ind;
  }

  // A record read back is the record written.
  lemma DecodeEncodeInode(x: Inode)
    ensures DecodeInode(EncodeInode(x)) == x
  {
    var r := EncodeInode(x);
    forall w: nat | w < 18
      ensures Word(r, 4 * w) == InodeWord(x, w)
    {
      EncodedWord(x, w);
    }
    DecodeWords(r, x);
  }

  // Writing one record of a table block leaves its three neighbours as they were.
  lemma InodeAtPutInode(b: Block, k: nat, x: Inode)
    requires k < 4
    ensures forall j: nat :: j < 4 ==> InodeAt(PutInode(b, k, x), j) == if j == k then x else InodeAt(b, j)
  {
    var c := PutInode(b, k, x);
    forall j: nat | j < 4
      ensures InodeAt(c, j) == if j == k then x else InodeAt(b, j)
    {
      if j == k {
        assert c[128 * k..128 * k + 128] == EncodeInode(x);
        DecodeEncodeInode(x);
      } else {
        assert c[128 * j..128 * j + 128] == b[128 * j..128 * j + 128];
      }
    }
  }

  lemma DecodeZero(k: nat)
    requires k < 4
    ensures InodeAt(ZeroBlock(), k) == ZERO_INODE
  {
    var r := ZeroBlock()[128 * k..128 * k + 128];
    forall w: nat | w < 18
      ensures Word(r, 4 * w) == InodeWord(ZERO_INODE, w)
    {
    }
    DecodeWords(r, ZERO_INODE);
  }

  // The record that inode_truncate writes back.
  function Emptied(x: Inode, now: U32): Inode {
    Inode(x.mode, x.uid, 0, x.atime, now, now, x.gid, x.links, 0, NO_POINTERS, 0)
  }

  // ---- directory entries

  // A name as the source holds it: the bytes before the terminating NUL.
  type Name = s: seq<Byte> | 0 !in s witness []

  // 32-bit ino, 16-bit reclen, 8-bit type, 56 bytes of name, one byte of padding.
  type RawName = s: seq<Byte> | |s| == 56 witness seq(56, _ => 0)

  datatype Dirent = Dirent(ino: U32, ftype: Byte, raw: RawName)

  function DecodeDirent(r: seq<Byte>): Dirent
    requires |r| == 64
  {
    Dirent(Word(r, 0), r[6], r[7..63])
  }

  function DirentAt(b: Block, k: nat): Dirent
    requires k < 8
  {
    DecodeDirent(b[64 * k..64 * k + 64])
  }

  // What strncpy(de.name, name, 55) leaves in a zeroed entry.
  function Padded(name: Name): RawName {
    seq(56, i requires 0 <= i < 56 => if i < 55 && i < |name| then name[i] else 0)
  }

  function EncodeDirent(ino: U32, ftype: Byte, name: Name): (s: seq<Byte>)
    ensures |s| == 64
  {
    WordBytes(ino) + [64, 0, ftype] + Padded(name) + [0]
  }

  function PutDirent(b: Block, k: nat, ino: U32, ftype: Byte, name: Name): Block
    requires k < 8
  {
    Splice(b, 64 * k, EncodeDirent(ino, ftype, name))
  }

  // memset(blk + off, 0, 64)
  function ClearDirent(b: Block, k: nat): Block
    requires k < 8
  {
    Splice(b, 64 * k, seq(64, _ => 0))
  }

  lemma DirentAtPutDirent(b: Block, k: nat, ino: U32, ftype: Byte, name: Name)
    requires k < 8
    ensures forall j: nat :: j < 8 ==>
      DirentAt(PutDirent(b, k, ino, ftype, name), j) ==
        if j == k then Dirent(ino, ftype, Padded(name)) else DirentAt(b, j)
  {
    var c := PutDirent(b, k, ino, ftype, name);
    forall j: nat | j < 8
      ensures DirentAt(c, j) == if j == k then Dirent(ino, ftype, Padded(name)) else DirentAt(b, j)
    {
      if j == k {
        assert c[64 * k..64 * k + 64] == EncodeDirent(ino, ftype, name);
        assert EncodeDirent(ino, ftype, name)[7..63] == Padded(name);
      } else {
        assert c[64 * j..64 * j + 64] == b[64 * j..64 * j + 64];
      }
    }
  }

  lemma DirentAtClear(b: Block, k: nat)
    requires k < 8
    ensures forall j: nat :: j < 8 && j != k ==> DirentAt(ClearDirent(b, k), j) == DirentAt(b, j)
    ensures DirentAt(ClearDirent(b, k), k).ino == 0
  {
    forall j: nat | j < 8 && j != k
      ensures DirentAt(ClearDirent(b, k), j) == DirentAt(b, j)
    {
      assert ClearDirent(b, k)[64 * j..64 * j + 64] == b[64 * j..64 * j + 64];
    }
  }

  // ---- name comparison

  // The C string in a buffer: its bytes before the first NUL, all of them when there is none.
  function CStr(s: seq<Byte>): (n: Name)
    ensures |n| <= |s| && n == s[..|n|]
    ensures |n| < |s| ==> s[|n|] == 0
  {
    if |s| == 0 || s[0] == 0 then [] else [s[0]] + CStr(s[1..])
  }

  // A part of a name is a name.
  lemma ClipName(name: Name, i: nat, n: nat)
    requires i <= |name|
    ensures 0 !in name[i..] && 0 !in Clip(name[i..], n)
  {
    assert forall k :: i <= k < |name| ==> name[k] in name;
  }

  // strncmp(raw, name, 56) == 0
  predicate NameIs(raw: RawName, name: Name) {
    CStr(raw) == Clip(name, 56)
  }

  lemma CStrOf(s: seq<Byte>, p: Name)
    requires |p| < |s| && s[..|p|] == p && s[|p|] == 0
    ensures CStr(s) == p
  {
  }

  // dir_add keeps the first 55 bytes of a name, and these are what dir_lookup compares.
  lemma PaddedName(name: Name)
    ensures CStr(Padded(name)) == Clip(name, 55)
  {
    CStrOf(Padded(name), Clip(name, 55));
  }
}
