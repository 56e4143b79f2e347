/** The device byte by byte: where the superblock says that things are, and how records lie there. */
module Geometry {
  import opened Layout
  import opened Records
  import opened Device

  // The words of the superblock: magic number, block size, blocks, inodes, free blocks and inodes,
  // first data block, inode table, block bitmap, inode bitmap, root directory.
  lemma SuperWords(total: U32, c: Counters)
    ensures
      var b := SuperBlock(total, c);
      && Word(b, 0) == 0xEF53 && Word(b, 4) == 512 && Word(b, 8) == total && Word(b, 12) == 256
      && Word(b, 16) == c.freeBlocks && Word(b, 20) == c.freeInodes && Word(b, 24) == 69 && Word(b, 28) == 5
      && Word(b, 32) == 3 && Word(b, 36) == 4 && Word(b, 40) == 1
  {
    hide Word, SuperBlock;
    SuperWordAt(total, c, 0);
    SuperWordAt(total, c, 1);
    SuperWordAt(total, c, 2);
    SuperWordAt(total, c, 3);
    SuperWordAt(total, c, 4);
    SuperWordAt(total, c, 5);
    SuperWordAt(total, c, 6);
    SuperWordAt(total, c, 7);
    SuperWordAt(total, c, 8);
    SuperWordAt(total, c, 9);
    SuperWordAt(total, c, 10);
  }

  // The words of the group descriptor: both bitmaps, the inode table, and the counters.
  lemma GroupWords(c: Counters)
    ensures
      var b := GroupBlock(c);
      && Word(b, 0) == 3 && Word(b, 4) == 4 && Word(b, 8) == 5
      && Word(b, 12) == c.freeBlocks && Word(b, 16) == c.freeInodes
  {
    hide Word, GroupBlock;
    GroupWordAt(c, 0);
    GroupWordAt(c, 1);
    GroupWordAt(c, 2);
    GroupWordAt(c, 3);
    GroupWordAt(c, 4);
  }

  // Whoever follows the superblock, as fs_mount and the bitmap functions do, finds the bitmaps, the
  // inode records and the data blocks there, and the blocks before the data reserved.
  lemma Located(d: Disk)
    requires d.Ok()
    ensures
      var s := d.dev[1];
      && Word(s, 0) == 0xEF53 && Word(s, 8) == d.total && Word(s, 32) < d.total && Word(s, 36) < d.total
      && (forall b: nat {:trigger d.vol.bb[b]} :: b < 4096 ==> d.vol.bb[b] == BitAt(d.dev[Word(s, 32)], b))
      && (forall i: nat {:trigger d.vol.ib[i]} :: i < 4096 ==> d.vol.ib[i] == BitAt(d.dev[Word(s, 36)], i))
    ensures
      var s := d.dev[1];
      && Word(s, 28) + 64 == Word(s, 24) <= d.total
      && (forall ino: nat {:trigger d.vol.inodes[ino]} :: 1 <= ino <= 256 ==>
            d.vol.inodes[ino] == InodeAt(d.dev[Word(s, 28) + (ino - 1) / 4], (ino - 1) % 4))
      && (forall b: nat {:trigger d.vol.data[b]} :: Word(s, 24) <= b < d.total ==> d.vol.data[b] == d.dev[b])
      && (forall b: nat {:trigger d.vol.bb[b]} :: b < Word(s, 24) ==> d.vol.bb[b])
  {
    hide Word, BitAt, InodeAt;
    SuperWords(d.total, d.sb);
    var dev, v := d.dev, d.vol;
    assert forall b: nat {:trigger v.bb[b]} :: b < 4096 ==> v.bb[b] == BitAt(dev[3], b);
    assert forall i: nat {:trigger v.ib[i]} :: i < 4096 ==> v.ib[i] == BitAt(dev[4], i);
    forall ino: nat {:trigger v.inodes[ino]} | 1 <= ino <= 256
      ensures v.inodes[ino] == InodeAt(dev[5 + (ino - 1) / 4], (ino - 1) % 4)
    {
      assert InodeAt(dev[5 + (ino - 1) / 4], (ino - 1) % 4) == v.inodes[ino];
    }
  }

  // Bit i of a bitmap block: byte i / 8, the lowest bit first.
  lemma BitIs(b: Block, i: nat)
    requires i < 4096
    ensures BitAt(b, i) <==> b[i / 8] / [1, 2, 4, 8, 16, 32, 64, 128][i % 8] % 2 == 1
  {
    ShiftedBit(b[i / 8], i % 8);
    PowersOfTwo();
  }

  lemma PowersOfTwo()
    ensures forall k :: 0 <= k < 8 ==> [1, 2, 4, 8, 16, 32, 64, 128][k] == Exp2(k)
  {
    assert Exp2(0) == 1 && Exp2(1) == 2 && Exp2(2) == 4 && Exp2(3) == 8;
    assert Exp2(4) == 2 * Exp2(3) && Exp2(5) == 2 * Exp2(4) && Exp2(6) == 2 * Exp2(5) && Exp2(7) == 2 * Exp2(6);
  }

  lemma {:induction false} Exp2Positive(k: nat)
    ensures Exp2(k) > 0
  {
    if k > 0 {
      Exp2Positive(k - 1);
    }
  }

  lemma {:induction false} ShiftedBit(x: nat, k: nat)
    ensures Exp2(k) > 0 && (ByteBit(x, k) <==> x / Exp2(k) % 2 == 1)
  {
    Exp2Positive(k);
    if k > 0 {
      ShiftedBit(x / 2, k - 1);
      HalfTwice(x, Exp2(k - 1));
    }
  }

  lemma HalfTwice(x: nat, m: nat)
    requires m > 0
    ensures x / (2 * m) == x / 2 / m
  {
    var q := x / 2 / m;
    var r := x / 2 % m;
    assert x / 2 == m * q + r;
    assert x == 2 * m * q + (2 * r + x % 2);
    DivIs(x, 2 * m, q, 2 * r + x % 2);
  }

  lemma DivIs(x: nat, d: nat, q: nat, r: nat)
    requires r < d && x == d * q + r
    ensures x / d == q
  {
    var p := x / d;
    assert x == d * p + x % d;
    Multiples(d, p, q);
    Multiples(d, q, p);
  }

  lemma Multiples(d: nat, p: nat, q: nat)
    ensures p < q ==> d * p + d <= d * q
  {
    if p < q {
      assert d * (p + 1) <= d * q;
      assert d * (p + 1) == d * p + d;
    }
  }

  // The fields of an inode record by their offsets.
  lemma InodeFields(x: Inode)
    ensures
      var r := EncodeInode(x);
      && r[0] + 256 * (r[1] as int) == x.mode && r[2] + 256 * (r[3] as int) == x.uid && Word(r, 4) == x.size
      && Word(r, 8) == x.atime && Word(r, 12) == x.mtime && Word(r, 16) == x.ctime
      && r[20] + 256 * (r[21] as int) == x.gid && r[22] + 256 * (r[23] as int) == x.links && Word(r, 24) == x.blocks
      && (forall k: nat {:trigger x.direct[k]} :: k < 10 ==> Word(r, 28 + 4 * k) == x.direct[k]) && Word(r, 68) == x.ind
  {
    hide Word, EncodeInode;
    EncodedWord(x, 1);
    EncodedWord(x, 2);
    EncodedWord(x, 3);
    EncodedWord(x, 4);
    EncodedWord(x, 6);
    EncodedWord(x, 17);
    forall k: nat | k < 10
      ensures Word(EncodeInode(x), 28 + 4 * k) == x.direct[k]
    {
      EncodedWord(x, 7 + k);
    }
    EncodedWord(x, 0);
    Halves(EncodeInode(x), 0, x.mode, x.uid);
    EncodedWord(x, 5);
    Halves(EncodeInode(x), 20, x.gid, x.links);
  }

  lemma Halves(r: seq<Byte>, o: nat, a: U16, b: U16)
    requires o + 4 <= |r| && Word(r, o) == a + 0x1_0000 * (b as int)
    ensures r[o] + 256 * (r[o + 1] as int) == a && r[o + 2] + 256 * (r[o + 3] as int) == b
  {
  }

  // The fields of a directory entry: inode, length 64, type, name.
  lemma DirentFields(ino: U32, ftype: Byte, name: Name)
    ensures
      var r := EncodeDirent(ino, ftype, name);
      && Word(r, 0) == ino && r[4] + 256 * (r[5] as int) == 64 && r[6] == ftype
      && r[7..63] == Padded(name) && r[63] == 0
  {
    var r := EncodeDirent(ino, ftype, name);
    assert r[..4] == WordBytes(ino);
  }
}
