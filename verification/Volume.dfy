/** The typed reading of a disk image, and what its block pointers must satisfy. */
module Volume {
  import opened Layout
  import opened Records

  // bb and ib are the two bitmaps, inodes[1..] the inode table (entry 0 is unused),
  // data the data blocks (the entries below BLK_DATA_START are unused).
  datatype RawVol = RawVol(bb: seq<bool>, ib: seq<bool>, inodes: seq<Inode>, data: seq<Block>)

  ghost predicate Shape(v: RawVol) {
    |v.bb| == 4096 && |v.ib| == 4096 && |v.inodes| == 257 && 69 < |v.data| <= 4096
  }

  type Vol = v: RawVol | Shape(v)
    ghost witness
      RawVol(seq(4096, _ => false), seq(4096, _ => false), seq(257, _ => ZERO_INODE), seq(70, _ => ZeroBlock()))

  // A disk image is read as v.
  ghost predicate Decodes(dev: seq<Block>, v: Vol) {
    && |dev| == |v.data|
    && (forall i: nat {:trigger BitAt(dev[3], i)} :: i < 4096 ==> BitAt(dev[3], i) == v.bb[i])
    && (forall i: nat {:trigger BitAt(dev[4], i)} :: i < 4096 ==> BitAt(dev[4], i) == v.ib[i])
    && (forall ino: nat {:trigger InodeAt(dev[5 + (ino - 1) / 4], (ino - 1) % 4)} ::
          1 <= ino <= 256 ==> InodeAt(dev[5 + (ino - 1) / 4], (ino - 1) % 4) == v.inodes[ino])
    && (forall b: nat {:trigger dev[b]} :: 69 <= b < |dev| ==> dev[b] == v.data[b])
  }

  // Every image of enough blocks has a reading.
  ghost function View(dev: seq<Block>): (v: Vol)
    requires 69 < |dev| <= 4096
    ensures |v.data| == |dev|
  {
    RawVol(seq(4096, i requires 0 <= i < 4096 => BitAt(dev[3], i)),
           seq(4096, i requires 0 <= i < 4096 => BitAt(dev[4], i)),
           seq(257, i requires 0 <= i < 257 =>
             if i == 0 then ZERO_INODE else InodeAt(dev[5 + (i - 1) / 4], (i - 1) % 4)),
           dev)
  }

  lemma ViewDecodes(dev: seq<Block>)
    requires 69 < |dev| <= 4096
    ensures Decodes(dev, View(dev))
  {
    hide BitAt, InodeAt;
  }

  // ---- pointers

  // The block that holds logical block bn of x, 0 where there is none.
  function MapBn(data: seq<Block>, x: Inode, bn: nat): U32 {
    if bn < 10 then x.direct[bn]
    else if bn < 138 && 69 <= x.ind < |data| then Ptr(data[x.ind], bn - 10)
    else 0
  }

  // Every place of an inode that can hold a pointer: 138 logical blocks and, at 138, the table.
  function SlotOf(data: seq<Block>, x: Inode, k: nat): U32 {
    if k == 138 then x.ind else MapBn(data, x, k)
  }

  ghost function Slot(v: Vol, ino: nat, k: nat): U32
    requires 1 <= ino <= 256
  {
    SlotOf(v.data, v.inodes[ino], k)
  }

  ghost predicate InData(v: Vol, b: nat) {
    69 <= b < |v.data|
  }

  // No pointer anywhere on the volume targets b.
  ghost predicate Unowned(v: Vol, b: nat) {
    forall ino: nat, k: nat {:trigger Slot(v, ino, k)} :: 1 <= ino <= 256 && k < 139 ==> Slot(v, ino, k) != b
  }

  ghost predicate Targets(v: Vol) {
    forall ino: nat, k: nat {:trigger Slot(v, ino, k)} :: 1 <= ino <= 256 && k < 139 && Slot(v, ino, k) != 0 ==>
      InData(v, Slot(v, ino, k)) && v.bb[Slot(v, ino, k)]
  }

  ghost predicate Unshared(v: Vol) {
    forall i: nat, k: nat, j: nat, l: nat {:trigger Slot(v, i, k), Slot(v, j, l)} ::
      1 <= i <= 256 && 1 <= j <= 256 && k < 139 && l < 139 && (i != j || k != l) && Slot(v, i, k) != 0 ==>
        Slot(v, i, k) != Slot(v, j, l)
  }

  ghost predicate Reserved(v: Vol) {
    forall b: nat :: b < 69 ==> v.bb[b]
  }

  // Every pointer on the volume lies in the data area, has its bit set, and equals no other pointer.
  ghost predicate Sound(v: Vol) {
    Reserved(v) && Targets(v) && Unshared(v)
  }

  ghost function With(v: Vol, ino: nat, x: Inode): Vol
    requires 1 <= ino <= 256
  {
    v.(inodes := v.inodes[ino := x])
  }

  ghost function SetData(v: Vol, b: nat, blk: Block): Vol
    requires b < |v.data|
  {
    v.(data := v.data[b := blk])
  }

  ghost function SetBlockBit(v: Vol, b: nat, val: bool): Vol
    requires b < 4096
  {
    v.(bb := v.bb[b := val])
  }

  ghost function SetInodeBit(v: Vol, i: nat, val: bool): Vol
    requires i < 4096
  {
    v.(ib := v.ib[i := val])
  }

  // x differs from w only by pointers that w has and x lacks.
  ghost predicate Extends(x: Inode, w: Inode) {
    && (forall k: nat :: k < 10 ==> x.direct[k] == 0 || x.direct[k] == w.direct[k])
    && (x.ind == 0 || x.ind == w.ind)
  }

  // Nothing that belongs to an inode other than ino differs between v and w, and ino keeps its mode.
  ghost predicate Frame(v: Vol, w: Vol, ino: nat) {
    && |v.data| == |w.data|
    && v.ib == w.ib
    && (1 <= ino <= 256 ==> w.inodes[ino].mode == v.inodes[ino].mode)
    && (forall o: nat {:trigger w.inodes[o]} :: 1 <= o <= 256 && o != ino ==> w.inodes[o] == v.inodes[o])
    && (forall o: nat, k: nat {:trigger Slot(v, o, k)} ::
          1 <= o <= 256 && o != ino && k < 139 && InData(v, Slot(v, o, k)) ==>
          w.data[Slot(v, o, k)] == v.data[Slot(v, o, k)])
  }

  lemma FrameSlots(v: Vol, w: Vol, ino: nat, o: nat, k: nat)
    requires Frame(v, w, ino) && 1 <= o <= 256 && o != ino && k < 139
    ensures Slot(w, o, k) == Slot(v, o, k)
  {
    assert Slot(v, o, 138) == v.inodes[o].ind;
  }

  lemma FrameTrans(u: Vol, v: Vol, w: Vol, ino: nat)
    requires Frame(u, v, ino) && Frame(v, w, ino)
    ensures Frame(u, w, ino)
  {
    forall o: nat, k: nat | 1 <= o <= 256 && o != ino && k < 139
      ensures Slot(v, o, k) == Slot(u, o, k)
    {
      FrameSlots(u, v, ino, o, k);
    }
  }

  // The image after one inode record is written.
  lemma DecodesInode(dev: seq<Block>, v: Vol, ino: nat, x: Inode)
    requires Decodes(dev, v) && 1 <= ino <= 256
    ensures Decodes(dev[5 + (ino - 1) / 4 := PutInode(dev[5 + (ino - 1) / 4], (ino - 1) % 4, x)], With(v, ino, x))
  {
    hide DecodeInode, EncodeInode;
    var b, k := 5 + (ino - 1) / 4, (ino - 1) % 4;
    var c := PutInode(dev[b], k, x);
    InodeAtPutInode(dev[b], k, x);
    var dev1 := dev[b := c];
    forall o: nat | 1 <= o <= 256
      ensures InodeAt(dev1[5 + (o - 1) / 4], (o - 1) % 4) == With(v, ino, x).inodes[o]
    {
      assert InodeAt(dev[5 + (o - 1) / 4], (o - 1) % 4) == v.inodes[o];
      if 5 + (o - 1) / 4 == b {
        assert InodeAt(c, (o - 1) % 4) == if (o - 1) % 4 == k then x else InodeAt(dev[b], (o - 1) % 4);
      }
    }
  }

  // ---- what keeps the pointers sound

  lemma AllocBitSound(v: Vol, b: nat)
    requires Sound(v) && b < 4096 && !v.bb[b]
    ensures b >= 69 && Unowned(v, b)
    ensures Sound(SetBlockBit(v, b, true)) && Unowned(SetBlockBit(v, b, true), b)
    ensures forall ino :: Frame(v, SetBlockBit(v, b, true), ino)
  {
    var w := SetBlockBit(v, b, true);
    forall ino: nat, k: nat | 1 <= ino <= 256 && k < 139
      ensures Slot(w, ino, k) == Slot(v, ino, k)
    {
    }
  }

  lemma UnownedDataSlots(v: Vol, b: nat, blk: Block)
    requires InData(v, b)
    requires forall o: nat :: 1 <= o <= 256 ==> Slot(v, o, 138) != b
    ensures forall ino: nat, k: nat :: 1 <= ino <= 256 ==> Slot(SetData(v, b, blk), ino, k) == Slot(v, ino, k)
  {
    var w := SetData(v, b, blk);
    forall ino: nat, k: nat | 1 <= ino <= 256
      ensures Slot(w, ino, k) == Slot(v, ino, k)
    {
      assert Slot(v, ino, 138) == v.inodes[ino].ind;
    }
  }

  // Filling a block that nothing points to changes no pointer and no file.
  lemma UnownedDataSound(v: Vol, b: nat, blk: Block)
    requires Sound(v) && InData(v, b) && Unowned(v, b)
    ensures Sound(SetData(v, b, blk)) && Unowned(SetData(v, b, blk), b)
    ensures forall ino :: Frame(v, SetData(v, b, blk), ino)
  {
    UnownedDataSlots(v, b, blk);
  }

  // Writing a data block of file ino changes no pointer and no other file.
  lemma OwnedDataSound(v: Vol, ino: nat, bn: nat, blk: Block)
    requires Sound(v) && 1 <= ino <= 256 && bn < 138 && Slot(v, ino, bn) != 0
    ensures InData(v, Slot(v, ino, bn))
    ensures Sound(SetData(v, Slot(v, ino, bn), blk))
    ensures Frame(v, SetData(v, Slot(v, ino, bn), blk), ino)
    ensures forall o: nat, k: nat :: 1 <= o <= 256 ==> Slot(SetData(v, Slot(v, ino, bn), blk), o, k) == Slot(v, o, k)
  {
    var b := Slot(v, ino, bn);
    UnownedDataSlots(v, b, blk);
  }

  // One pointer more, to an allocated block that nothing pointed to.
  lemma AddSlotSound(v: Vol, w: Vol, ino: nat, k: nat, b: nat)
    requires Sound(v) && InData(v, b) && Unowned(v, b) && v.bb[b]
    requires w.bb == v.bb && |w.data| == |v.data|
    requires 1 <= ino <= 256 && k < 139
    requires forall o: nat, l: nat {:trigger Slot(w, o, l)} :: 1 <= o <= 256 && l < 139 ==>
      Slot(w, o, l) == if o == ino && l == k then b else Slot(v, o, l)
    ensures Sound(w)
  {
  }

  // The volume is sound with the record in memory, x, as with the one on disk behind it.
  ghost predicate InCore(v: Vol, ino: nat, x: Inode) {
    1 <= ino <= 256 && Sound(With(v, ino, x)) && Extends(v.inodes[ino], x)
  }

  // The record on disk stays sound while the copy in memory runs ahead of it.
  lemma BehindSound(v: Vol, ino: nat, x: Inode)
    requires InCore(v, ino, x)
    ensures Sound(v)
  {
    var w := With(v, ino, x);
    forall o: nat, k: nat | 1 <= o <= 256 && k < 139
      ensures Slot(v, o, k) == Slot(w, o, k) || (Slot(v, o, k) == 0)
    {
    }
    forall i: nat, k: nat, j: nat, l: nat
      | 1 <= i <= 256 && 1 <= j <= 256 && k < 139 && l < 139 && (i != j || k != l) && Slot(v, i, k) != 0
      ensures Slot(v, i, k) != Slot(v, j, l)
    {
      assert Slot(w, i, k) == Slot(v, i, k);
      assert Slot(w, j, l) == Slot(v, j, l) || Slot(v, j, l) == 0;
    }
  }

  // The trace s goes on from r with images that are sound and differ from v only in what
  // belongs to inode ino.
  ghost predicate Grew(r: seq<Vol>, s: seq<Vol>, v: Vol, ino: nat) {
    r <= s && forall i {:trigger s[i]} :: |r| <= i < |s| ==> Sound(s[i]) && Frame(v, s[i], ino)
  }

  // Every image from the end of r on is sound.
  ghost predicate AllSound(r: seq<Vol>, s: seq<Vol>) {
    r <= s && forall i {:trigger s[i]} :: |r| <= i < |s| ==> Sound(s[i])
  }

  lemma AllSoundRefl(r: seq<Vol>)
    ensures AllSound(r, r)
  {
  }

  lemma AllSoundPair(r: seq<Vol>, a: Vol, b: Vol)
    requires Sound(a) && Sound(b)
    ensures AllSound(r, r + [a] + [b])
  {
    hide Sound;
    assert r <= r + [a] + [b];
  }

  lemma AllSoundTrans(r: seq<Vol>, s: seq<Vol>, q: seq<Vol>)
    requires AllSound(r, s) && AllSound(s, q)
    ensures AllSound(r, q)
  {
    hide Sound;
    forall i | |r| <= i < |q|
      ensures Sound(q[i])
    {
      if i < |s| {
        assert q[i] == s[i];
      }
    }
  }

  lemma GrewSound(r: seq<Vol>, s: seq<Vol>, v: Vol, ino: nat)
    requires Grew(r, s, v, ino)
    ensures AllSound(r, s)
  {
  }

  lemma SamePointers(v: Vol, ino: nat, x: Inode, y: Inode)
    requires InCore(v, ino, x) && x.direct == y.direct && x.ind == y.ind
    ensures InCore(v, ino, y)
    ensures forall k: nat :: SlotOf(v.data, y, k) == SlotOf(v.data, x, k)
    ensures forall k: nat :: MapBn(v.data, y, k) == MapBn(v.data, x, k)
  {
    forall o: nat, k: nat | 1 <= o <= 256 && k < 139
      ensures Slot(With(v, ino, y), o, k) == Slot(With(v, ino, x), o, k)
    {
    }
  }

  lemma GrewTrans(r: seq<Vol>, s: seq<Vol>, t: seq<Vol>, u: Vol, v: Vol, ino: nat)
    requires Grew(r, s, u, ino) && Grew(s, t, v, ino) && Frame(u, v, ino)
    ensures Grew(r, t, u, ino)
  {
    forall i | |r| <= i < |t|
      ensures Sound(t[i]) && Frame(u, t[i], ino)
    {
      if i < |s| {
        assert t[i] == s[i];
      } else {
        FrameTrans(u, v, t[i], ino);
      }
    }
  }

  // A pointer in the table of x, in memory, is set to b.
  lemma TableSlots(v: Vol, ino: nat, x: Inode, idx: nat, b: U32)
    requires InCore(v, ino, x) && x.ind != 0 && idx < 128
    ensures InData(v, x.ind)
    ensures
      var w := SetData(v, x.ind, SetPtr(v.data[x.ind], idx, b));
      && Frame(v, w, ino)
      && forall o: nat, k: nat {:trigger Slot(With(w, ino, x), o, k)} :: 1 <= o <= 256 && k < 139 ==>
        Slot(With(w, ino, x), o, k) == if o == ino && k == 10 + idx then b else Slot(With(v, ino, x), o, k)
  {
    hide Ptr, SetPtr;
    var u := With(v, ino, x);
    assert Slot(u, ino, 138) == x.ind;
    PtrSetPtr(v.data[x.ind], idx, b);
    var w := SetData(v, x.ind, SetPtr(v.data[x.ind], idx, b));
    forall o: nat, k: nat | 1 <= o <= 256 && o != ino && k < 139
      ensures Slot(v, o, k) != x.ind
    {
      assert Slot(v, o, k) == Slot(u, o, k);
    }
    forall o: nat, k: nat | 1 <= o <= 256 && k < 139
      ensures Slot(With(w, ino, x), o, k) == if o == ino && k == 10 + idx then b else Slot(u, o, k)
    {
      assert o != ino ==> Slot(v, o, 138) != x.ind;
    }
  }

  // ---- the blocks of one inode

  // The blocks that the first n pointers of inode ino target.
  ghost function OwnedBelow(v: Vol, ino: nat, n: nat): set<nat>
    requires 1 <= ino <= 256
  {
    set k: nat | k < n && Slot(v, ino, k) != 0 :: Slot(v, ino, k)
  }

  // All blocks of inode ino: its data blocks and its table.
  ghost function Owned(v: Vol, ino: nat): set<nat>
    requires 1 <= ino <= 256
  {
    OwnedBelow(v, ino, 139)
  }

  lemma OwnedNext(v: Vol, ino: nat, n: nat)
    requires Sound(v) && 1 <= ino <= 256 && n < 139
    ensures Slot(v, ino, n) == 0 ==> OwnedBelow(v, ino, n + 1) == OwnedBelow(v, ino, n)
    ensures Slot(v, ino, n) != 0 ==> OwnedBelow(v, ino, n + 1) == OwnedBelow(v, ino, n) + {Slot(v, ino, n)}
    ensures Slot(v, ino, n) != 0 ==> Slot(v, ino, n) !in OwnedBelow(v, ino, n)
  {
  }

  // The blocks of an inode: those its map leads to, and the table.
  lemma OwnedIs(v: Vol, ino: nat, b: nat)
    requires 1 <= ino <= 256
    ensures
      var x := v.inodes[ino];
      b in Owned(v, ino) <==> b != 0 && (b == x.ind || exists k: nat :: k < 138 && MapBn(v.data, x, k) == b)
  {
    hide MapBn;
    var x := v.inodes[ino];
    assert Slot(v, ino, 138) == x.ind;
    assert forall k: nat :: k < 138 ==> Slot(v, ino, k) == MapBn(v.data, x, k);
  }

  predicate NoPointers(x: Inode) {
    x.ind == 0 && forall k: nat :: k < 10 ==> x.direct[k] == 0
  }

  // Dropping all pointers of one inode and clearing the bits of its blocks.
  lemma DropSound(v: Vol, w: Vol, ino: nat)
    requires Sound(v) && 1 <= ino <= 256
    requires w.data == v.data && NoPointers(w.inodes[ino])
    requires forall o: nat :: 1 <= o <= 256 && o != ino ==> w.inodes[o] == v.inodes[o]
    requires forall b: nat :: b < 4096 ==> w.bb[b] == (v.bb[b] && b !in Owned(v, ino))
    ensures Sound(w)
  {
    forall o: nat, k: nat | 1 <= o <= 256 && k < 139
      ensures Slot(w, o, k) == if o == ino then 0 else Slot(v, o, k)
    {
    }
    forall o: nat, k: nat | 1 <= o <= 256 && k < 139 && Slot(w, o, k) != 0
      ensures InData(w, Slot(w, o, k)) && w.bb[Slot(w, o, k)]
    {
      assert Slot(v, o, k) !in Owned(v, ino);
    }
  }

  // A record without pointers takes the place of another: pointers only go away.
  lemma BlankSound(v: Vol, ino: nat, x: Inode)
    requires Sound(v) && 1 <= ino <= 256 && NoPointers(x)
    ensures Sound(With(v, ino, x))
  {
    var w := With(v, ino, x);
    forall o: nat, k: nat | 1 <= o <= 256 && k < 139
      ensures Slot(w, o, k) == if o == ino then 0 else Slot(v, o, k)
    {
    }
  }

  // The inode bitmap has no part in the soundness of pointers.
  lemma InodeBitSound(v: Vol, i: nat, val: bool)
    requires Sound(v) && i < 4096
    ensures Sound(SetInodeBit(v, i, val))
    ensures forall o: nat, k: nat {:trigger Slot(SetInodeBit(v, i, val), o, k)} :: 1 <= o <= 256 ==>
      Slot(SetInodeBit(v, i, val), o, k) == Slot(v, o, k)
  {
    var w := SetInodeBit(v, i, val);
    forall o: nat, k: nat | 1 <= o <= 256
      ensures Slot(w, o, k) == Slot(v, o, k)
    {
    }
  }

  // ---- contents

  // Byte i of a file, reading holes as zero.
  function ByteAt(data: seq<Block>, x: Inode, i: nat): Byte {
    var p := MapBn(data, x, i / 512);
    if 69 <= p < |data| then data[p][i % 512] else 0
  }

  ghost function Content(data: seq<Block>, x: Inode): (s: seq<Byte>)
    ensures |s| == x.size
  {
    seq(x.size, i requires 0 <= i < x.size => ByteAt(data, x, i))
  }

  // Every block below the size is present.
  ghost predicate HoleFree(data: seq<Block>, x: Inode) {
    forall bn: nat {:trigger MapBn(data, x, bn)} :: bn * 512 < x.size ==> MapBn(data, x, bn) != 0
  }
}
