/** file.c: mapping logical blocks, reading and writing at any offset. */
module FileIo {
  import opened Layout
  import opened Records
  import opened Volume
  import opened Device
  import opened Bitmap
  import opened InodeTable

  // Blocks that writing to logical block bn has to allocate.
  ghost function Missing(data: seq<Block>, x: Inode, bn: nat): nat {
    if MapBn(data, x, bn) != 0 then 0
    else if bn >= 10 && x.ind == 0 then 2
    else 1
  }

  // Two records that differ in pointers, the block count and ctime only.
  predicate SameFile(x: Inode, y: Inode) {
    x.mode == y.mode && x.uid == y.uid && x.size == y.size && x.gid == y.gid && x.links == y.links
    && x.atime == y.atime && x.mtime == y.mtime
  }

  // alloc_block, then a zeroed block on the device.
  method NewBlock(d: Disk, ghost ino: nat, ghost x: Inode) returns (b: int)
    requires d.Valid() && d.Counted() && InCore(d.vol, ino, x)
    modifies d`dev, d`vol, d`images, d`trace, d`sb, d`gd
    ensures d.Valid() && d.Counted() && InCore(d.vol, ino, x)
    ensures old(d.sb.freeBlocks) == 0 <==> b == FS_ENOSPC
    ensures b == FS_ENOSPC ==> d.vol == old(d.vol) && d.trace == old(d.trace) && d.sb == old(d.sb)
    ensures b != FS_ENOSPC ==>
      && 69 <= b < d.total && Unowned(With(old(d.vol), ino, x), b)
      && d.vol == SetData(SetBlockBit(old(d.vol), b, true), b, ZeroBlock())
      && Unowned(With(d.vol, ino, x), b)
      && d.sb == old(d.sb).(freeBlocks := old(d.sb.freeBlocks) - 1)
      && (var s := SetBlockBit(old(d.vol), b, true); d.trace == old(d.trace) + [s, s, s, d.vol])
    ensures Grew(old(d.trace), d.trace, old(d.vol), ino)
    ensures Frame(old(d.vol), d.vol, ino)
  {
    ghost var v := d.vol;
    b := AllocBlock(d);
    if b < 0 {
      return;
    }
    AllocBitSound(With(v, ino, x), b);
    ghost var w := d.vol;
    assert With(w, ino, x) == SetBlockBit(With(v, ino, x), b, true);
    BehindSound(w, ino, x);
    UnownedDataSound(With(w, ino, x), b, ZeroBlock());
    var e := d.DevWriteData(ZeroBlock(), b);
    assert With(d.vol, ino, x) == SetData(With(w, ino, x), b, ZeroBlock());
    BehindSound(d.vol, ino, x);
    BehindSound(v, ino, x);
    AllocBitSound(v, b);
    UnownedDataSound(w, b, ZeroBlock());
    FrameTrans(v, w, d.vol, ino);
  }

  // A pointer of x, in memory, is set to a new block.
  lemma NewPointer(v: Vol, ino: nat, x: Inode, y: Inode, k: nat, b: nat)
    requires InCore(v, ino, x) && InData(v, b) && v.bb[b] && Unowned(With(v, ino, x), b) && k < 139
    requires SlotOf(v.data, x, k) == 0
    requires forall l: nat :: l < 139 ==> SlotOf(v.data, y, l) == if l == k then b else SlotOf(v.data, x, l)
    ensures InCore(v, ino, y)
  {
    AddSlotSound(With(v, ino, x), With(v, ino, y), ino, k, b);
    forall l: nat | l < 10
      ensures v.inodes[ino].direct[l] == 0 || v.inodes[ino].direct[l] == y.direct[l]
    {
      assert SlotOf(v.data, y, l) == if l == k then b else SlotOf(v.data, x, l);
    }
    assert SlotOf(v.data, y, 138) == if 138 == k then b else SlotOf(v.data, x, 138);
  }

  // The table of x, in memory, gets an entry for a new block.
  method SetTableEntry(d: Disk, x: Inode, idx: nat, b: U32, tbl: Block, ghost ino: nat) returns (e: int)
    requires d.Valid() && InCore(d.vol, ino, x) && x.ind != 0 && idx < 128 && InData(d.vol, x.ind)
    requires tbl == d.vol.data[x.ind] && Ptr(tbl, idx) == 0
    requires InData(d.vol, b) && d.vol.bb[b] && Unowned(With(d.vol, ino, x), b)
    modifies d`dev, d`vol, d`images, d`trace
    ensures d.Valid() && InCore(d.vol, ino, x) && e == FS_OK
    ensures d.vol == SetData(old(d.vol), x.ind, SetPtr(tbl, idx, b))
    ensures Frame(old(d.vol), d.vol, ino)
    ensures d.trace == old(d.trace) + [d.vol]
    ensures d.dev[1] == old(d.dev[1]) && d.dev[2] == old(d.dev[2])
    ensures forall k: nat :: k < 139 ==>
      SlotOf(d.vol.data, x, k) == if k == 10 + idx then b else SlotOf(old(d.vol).data, x, k)
  {
    ghost var v := d.vol;
    TableSlots(v, ino, x, idx, b);
    e := d.DevWriteData(SetPtr(tbl, idx, b), x.ind);
    AddSlotSound(With(v, ino, x), With(d.vol, ino, x), ino, 10 + idx, b);
    forall k: nat | k < 139
      ensures SlotOf(d.vol.data, x, k) == if k == 10 + idx then b else SlotOf(v.data, x, k)
    {
      assert Slot(With(d.vol, ino, x), ino, k) == if k == 10 + idx then b else Slot(With(v, ino, x), ino, k);
    }
  }

  // What the write path promises of the mapping it returns.
  ghost predicate Mapped(v: Vol, w: Vol, x: Inode, y: Inode, bn: nat, r: int) {
    && |v.data| == |w.data| && SameFile(x, y)
    && (forall k: nat {:trigger MapBn(w.data, y, k)} :: k < 138 && (k != bn || r < 0) ==>
          MapBn(w.data, y, k) == MapBn(v.data, x, k))
    && (forall k: nat {:trigger MapBn(v.data, x, k)} :: k < 138 && InData(v, MapBn(v.data, x, k)) ==>
          w.data[MapBn(v.data, x, k)] == v.data[MapBn(v.data, x, k)])
    && (r >= 0 ==>
          && bn < 138 && r == MapBn(w.data, y, bn) && InData(w, r)
          && (MapBn(v.data, x, bn) != 0 ==> r == MapBn(v.data, x, bn))
          && (MapBn(v.data, x, bn) == 0 ==> w.data[r] == ZeroBlock()))
  }

  // A new block disturbs no pointer of the file.
  lemma NewBlockSlots(v: Vol, w: Vol, ino: nat, x: Inode, b: nat)
    requires InCore(v, ino, x) && InData(v, b) && Unowned(With(v, ino, x), b)
    requires w == SetData(SetBlockBit(v, b, true), b, ZeroBlock())
    ensures forall k: nat :: k < 139 ==> SlotOf(w.data, x, k) == SlotOf(v.data, x, k)
    ensures forall k: nat :: k < 138 && InData(v, MapBn(v.data, x, k)) ==>
      w.data[MapBn(v.data, x, k)] == v.data[MapBn(v.data, x, k)]
  {
    forall k: nat | k < 139
      ensures SlotOf(w.data, x, k) == SlotOf(v.data, x, k) != b
    {
      assert Slot(With(v, ino, x), ino, 138) != b;
      assert Slot(With(v, ino, x), ino, k) != b;
    }
    forall k: nat | k < 138
      ensures MapBn(v.data, x, k) != b
    {
      assert SlotOf(v.data, x, k) != b;
    }
  }

  method MapDirect(d: Disk, x: Inode, bn: nat, ghost ino: nat) returns (r: int, y: Inode)
    requires d.Valid() && d.Counted() && InCore(d.vol, ino, x) && bn < 10
    modifies d`dev, d`vol, d`images, d`trace, d`sb, d`gd
    ensures d.Valid() && d.Counted() && InCore(d.vol, ino, y)
    ensures Frame(old(d.vol), d.vol, ino) && d.vol.inodes == old(d.vol.inodes)
    ensures Grew(old(d.trace), d.trace, old(d.vol), ino)
    ensures Mapped(old(d.vol), d.vol, x, y, bn, r)
    ensures r < 0 <==> old(d.sb.freeBlocks) < Missing(old(d.vol.data), x, bn)
    ensures r < 0 ==> r == FS_ENOSPC
    ensures r >= 0 ==> d.sb.freeBlocks == old(d.sb.freeBlocks) - Missing(old(d.vol.data), x, bn)
    ensures d.sb.freeInodes == old(d.sb.freeInodes) && y.ind == x.ind
  {
    y := x;
    ghost var v := d.vol;
    assert forall k: nat :: k < 138 ==> Slot(With(v, ino, x), ino, k) == MapBn(v.data, x, k);
    if x.direct[bn] == 0 {
      var b := NewBlock(d, ino, x);
      if b < 0 {
        return b, y;
      }
      y := x.(direct := x.direct[bn := b], blocks := (x.blocks + 1) % 0x1_0000_0000, ctime := d.clock);
      NewBlockSlots(v, d.vol, ino, x, b);
      NewPointer(d.vol, ino, x, y, bn, b);
    }
    r := y.direct[bn];
  }

  // The indirect table of the file, allocated when it has none.
  method EnsureTable(d: Disk, x: Inode, ghost ino: nat) returns (r: int, y: Inode)
    requires d.Valid() && d.Counted() && InCore(d.vol, ino, x)
    modifies d`dev, d`vol, d`images, d`trace, d`sb, d`gd
    ensures d.Valid() && d.Counted() && InCore(d.vol, ino, y)
    ensures Frame(old(d.vol), d.vol, ino) && d.vol.inodes == old(d.vol.inodes)
    ensures Grew(old(d.trace), d.trace, old(d.vol), ino)
    ensures SameFile(x, y) && r <= 0
    ensures r < 0 <==> x.ind == 0 && old(d.sb.freeBlocks) == 0
    ensures r < 0 ==> r == FS_ENOSPC && d.vol == old(d.vol) && y == x
    ensures r == 0 ==> y.ind != 0 && InData(d.vol, y.ind)
    ensures r == 0 ==> d.sb.freeBlocks == old(d.sb.freeBlocks) - if x.ind == 0 then 1 else 0
    ensures d.sb.freeInodes == old(d.sb.freeInodes)
    ensures forall k: nat {:trigger MapBn(d.vol.data, y, k)} :: k < 138 ==>
      MapBn(d.vol.data, y, k) == MapBn(old(d.vol).data, x, k)
    ensures forall k: nat :: k < 138 && InData(old(d.vol), MapBn(old(d.vol).data, x, k)) ==>
      d.vol.data[MapBn(old(d.vol).data, x, k)] == old(d.vol).data[MapBn(old(d.vol).data, x, k)]
  {
    y := x;
    r := FS_OK;
    ghost var v := d.vol;
    if x.ind == 0 {
      var b := NewBlock(d, ino, x);
      if b < 0 {
        return b, y;
      }
      y := x.(ind := b, ctime := d.clock);
      NewBlockSlots(v, d.vol, ino, x, b);
      forall k: nat | k < 138
        ensures MapBn(d.vol.data, y, k) == MapBn(v.data, x, k)
      {
        if k >= 10 {
          PtrZero(k - 10);
        }
      }
      NewPointer(d.vol, ino, x, y, 138, b);
    }
    assert Slot(With(d.vol, ino, y), ino, 138) == y.ind;
  }

  // The entry of an existing table, with a new block where it was empty.
  method MapEntry(d: Disk, x: Inode, bn: nat, ghost ino: nat) returns (r: int, y: Inode)
    requires d.Valid() && d.Counted() && InCore(d.vol, ino, x) && 10 <= bn < 138 && x.ind != 0
    modifies d`dev, d`vol, d`images, d`trace, d`sb, d`gd
    ensures d.Valid() && d.Counted() && InCore(d.vol, ino, y)
    ensures Frame(old(d.vol), d.vol, ino) && d.vol.inodes == old(d.vol.inodes)
    ensures Grew(old(d.trace), d.trace, old(d.vol), ino)
    ensures Mapped(old(d.vol), d.vol, x, y, bn, r)
    ensures r < 0 <==> old(d.sb.freeBlocks) < Missing(old(d.vol.data), x, bn)
    ensures r < 0 ==> r == FS_ENOSPC
    ensures r >= 0 ==> d.sb.freeBlocks == old(d.sb.freeBlocks) - Missing(old(d.vol.data), x, bn)
    ensures d.sb.freeInodes == old(d.sb.freeInodes)
  {
    var idx := bn - 10;
    ghost var v, m := d.vol, d.trace;
    y := x;
    assert Slot(With(v, ino, x), ino, 138) == x.ind;
    var e, tbl := d.DevReadBlock(x.ind);
    assert MapBn(v.data, x, bn) == Ptr(tbl, idx) == Slot(With(v, ino, x), ino, bn);
    r := Ptr(tbl, idx);
    if r == 0 {
      var b := NewBlock(d, ino, x);
      if b < 0 {
        r := b;
        return;
      }
      ghost var w := d.vol;
      NewBlockSlots(v, w, ino, x, b);
      assert Slot(With(v, ino, x), ino, 138) != b;
      e := SetTableEntry(d, x, idx, b, tbl, ino);
      BehindSound(d.vol, ino, x);
      FrameTrans(v, w, d.vol, ino);
      y := x.(blocks := (x.blocks + 1) % 0x1_0000_0000, ctime := d.clock);
      SamePointers(d.vol, ino, x, y);
      EntryMapped(v, w, d.vol, ino, x, y, bn, b);
      r := b;
    }
  }

  lemma EntryMapped(v: Vol, w: Vol, z: Vol, ino: nat, x: Inode, y: Inode, bn: nat, b: nat)
    requires InCore(v, ino, x) && InData(v, b) && Unowned(With(v, ino, x), b) && 10 <= bn < 138
    requires MapBn(v.data, x, bn) == 0 && InData(v, x.ind)
    requires w == SetData(SetBlockBit(v, b, true), b, ZeroBlock()) && x.ind != b
    requires z == SetData(w, x.ind, SetPtr(w.data[x.ind], bn - 10, b))
    requires SameFile(x, y) && x.direct == y.direct && x.ind == y.ind
    requires forall k: nat :: k < 139 ==> SlotOf(z.data, x, k) == if k == bn then b else SlotOf(w.data, x, k)
    ensures Mapped(v, z, x, y, bn, b)
  {
    hide Ptr, SetPtr;
    NewBlockSlots(v, w, ino, x, b);
    forall k: nat | k < 138
      ensures MapBn(z.data, y, k) == if k == bn then b else MapBn(v.data, x, k)
    {
      assert SlotOf(z.data, x, k) == if k == bn then b else SlotOf(w.data, x, k);
      assert SlotOf(w.data, x, k) == SlotOf(v.data, x, k);
    }
    forall k: nat | k < 138 && InData(v, MapBn(v.data, x, k))
      ensures MapBn(v.data, x, k) != x.ind
    {
      assert Slot(With(v, ino, x), ino, k) == MapBn(v.data, x, k);
      assert Slot(With(v, ino, x), ino, 138) == x.ind;
    }
  }

  method MapTable(d: Disk, x: Inode, bn: nat, ghost ino: nat) returns (r: int, y: Inode)
    requires d.Valid() && d.Counted() && InCore(d.vol, ino, x) && 10 <= bn < 138
    modifies d`dev, d`vol, d`images, d`trace, d`sb, d`gd
    ensures d.Valid() && d.Counted() && InCore(d.vol, ino, y)
    ensures Frame(old(d.vol), d.vol, ino) && d.vol.inodes == old(d.vol.inodes)
    ensures Grew(old(d.trace), d.trace, old(d.vol), ino)
    ensures Mapped(old(d.vol), d.vol, x, y, bn, r)
    ensures r < 0 <==> old(d.sb.freeBlocks) < Missing(old(d.vol.data), x, bn)
    ensures r < 0 ==> r == FS_ENOSPC
    ensures r >= 0 ==> d.sb.freeBlocks == old(d.sb.freeBlocks) - Missing(old(d.vol.data), x, bn)
    ensures d.sb.freeInodes == old(d.sb.freeInodes) && (r >= 0 ==> y.ind != 0)
  {
    ghost var u := d.vol;
    r, y := EnsureTable(d, x, ino);
    if r < 0 {
      return;
    }
    ghost var v, m, y0 := d.vol, d.trace, y;
    r, y := MapEntry(d, y, bn, ino);
    FrameTrans(u, v, d.vol, ino);
    GrewTrans(old(d.trace), m, d.trace, u, v, ino);
    forall k: nat | k < 138 && InData(u, MapBn(u.data, x, k))
      ensures d.vol.data[MapBn(u.data, x, k)] == u.data[MapBn(u.data, x, k)]
    {
      assert MapBn(v.data, y0, k) == MapBn(u.data, x, k);
    }
  }

  // map_bn_for_write: the physical block of logical block bn, allocating what is missing; it
  // succeeds exactly when bn is in range and the missing blocks are there.
  method MapBnForWrite(d: Disk, x: Inode, bn: nat, ghost ino: nat) returns (r: int, y: Inode)
    requires d.Valid() && d.Counted() && InCore(d.vol, ino, x)
    modifies d`dev, d`vol, d`images, d`trace, d`sb, d`gd
    ensures d.Valid() && d.Counted() && InCore(d.vol, ino, y)
    ensures Frame(old(d.vol), d.vol, ino) && d.vol.inodes == old(d.vol.inodes)
    ensures Grew(old(d.trace), d.trace, old(d.vol), ino)
    ensures Mapped(old(d.vol), d.vol, x, y, bn, r)
    ensures r < 0 <==> bn >= 138 || old(d.sb.freeBlocks) < Missing(old(d.vol.data), x, bn)
    ensures r < 0 ==> r == FS_ENOSPC
    ensures r >= 0 ==> d.sb.freeBlocks == old(d.sb.freeBlocks) - Missing(old(d.vol.data), x, bn)
    ensures d.sb.freeInodes == old(d.sb.freeInodes) && (bn < 10 ==> y.ind == x.ind)
    ensures (r >= 0 && bn >= 10 ==> y.ind != 0)
  {
    if bn < NDIRECT {
      r, y := MapDirect(d, x, bn, ino);
    } else if bn - NDIRECT >= NINDIRECT {
      r, y := FS_ENOSPC, x;
      BehindSound(d.vol, ino, x);
    } else {
      r, y := MapTable(d, x, bn, ino);
    }
  }

  // map_bn_for_read: as MapBn, with an error in place of 0.
  method MapBnForRead(d: Disk, x: Inode, bn: nat) returns (r: int)
    requires d.Valid() && (x.ind != 0 ==> InData(d.vol, x.ind))
    ensures r == if MapBn(d.vol.data, x, bn) != 0 then MapBn(d.vol.data, x, bn) else FS_ERR
  {
    if bn < NDIRECT {
      return if x.direct[bn] != 0 then x.direct[bn] else FS_ERR;
    }
    if x.ind == 0 {
      return FS_ERR;
    }
    var idx := bn - NDIRECT;
    if idx >= NINDIRECT {
      return FS_ERR;
    }
    var e, tbl := d.DevReadBlock(x.ind);
    r := if Ptr(tbl, idx) != 0 then Ptr(tbl, idx) else FS_ERR;
  }

  // ---- permissions

  // mode & 0400 and the like: one bit of the mode.
  predicate ModeBit(x: Inode, mask: nat)
    requires mask > 0
  {
    x.mode / mask % 2 == 1
  }

  // Root may do everything, the owner what the owner bits say, the others what theirs say.
  predicate PermCanRead(x: Inode, uid: int) {
    if uid == 0 then true
    else if x.uid == uid % 0x1_0000 then ModeBit(x, 0x100)
    else ModeBit(x, 4)
  }

  predicate PermCanWrite(x: Inode, uid: int) {
    if uid == 0 then true
    else if x.uid == uid % 0x1_0000 then ModeBit(x, 0x80)
    else ModeBit(x, 2)
  }

  predicate OpenFd(ofile: seq<OpenFile>, fd: int) {
    0 <= fd < |ofile| && ofile[fd].used
  }

  method FsClose(d: Disk, fd: int) returns (r: int)
    requires d.Valid()
    modifies d`ofile
    ensures d.Valid()
    ensures r == if OpenFd(old(d.ofile), fd) then FS_OK else FS_EBADF
    ensures d.ofile == if r == FS_OK then old(d.ofile)[fd := old(d.ofile)[fd].(used := false)] else old(d.ofile)
  {
    if !OpenFd(d.ofile, fd) {
      return FS_EBADF;
    }
    d.ofile := d.ofile[fd := d.ofile[fd].(used := false)];
    r := FS_OK;
  }

  method FsSeek(d: Disk, fd: int, off: int) returns (r: int)
    requires d.Valid() && -0x8000_0000 <= off < 0x8000_0000
    modifies d`ofile
    ensures d.Valid()
    ensures r == if OpenFd(old(d.ofile), fd) then FS_OK else FS_EBADF
    ensures r != FS_OK ==> d.ofile == old(d.ofile)
    ensures r == FS_OK ==> d.ofile == old(d.ofile)[fd := old(d.ofile)[fd].(offset := if off < 0 then 0 else off)]
  {
    if !OpenFd(d.ofile, fd) {
      return FS_EBADF;
    }
    d.ofile := d.ofile[fd := d.ofile[fd].(offset := if off < 0 then 0 else off)];
    r := FS_OK;
  }

  // ---- reading

  // The simple form of a read: byte by byte, up to m bytes, until a byte of an absent block.
  function ReadBytes(data: seq<Block>, x: Inode, pos: nat, m: nat): (s: seq<Byte>)
    ensures |s| <= m
    decreases m
  {
    if m == 0 || MapBn(data, x, pos / 512) == 0 then []
    else [ByteAt(data, x, pos)] + ReadBytes(data, x, pos + 1, m - 1)
  }

  // What one fs_read of len bytes at pos returns.
  function ReadAt(data: seq<Block>, x: Inode, pos: nat, len: nat): (s: seq<Byte>)
    ensures |s| <= len
  {
    if pos >= x.size then []
    else ReadBytes(data, x, pos, if len > x.size - pos then x.size - pos else len)
  }

  // A read yields the bytes of the file in order and stops short only at an absent block.
  lemma {:induction false} ReadBytesAt(data: seq<Block>, x: Inode, pos: nat, m: nat)
    ensures
      var s := ReadBytes(data, x, pos, m);
      && (forall i :: 0 <= i < |s| ==> s[i] == ByteAt(data, x, pos + i))
      && (|s| < m ==> MapBn(data, x, (pos + |s|) / 512) == 0)
    decreases m
  {
    hide MapBn, ByteAt;
    if m > 0 && MapBn(data, x, pos / 512) != 0 {
      ReadBytesAt(data, x, pos + 1, m - 1);
      var s, t := ReadBytes(data, x, pos, m), ReadBytes(data, x, pos + 1, m - 1);
      forall i | 0 < i < |s|
        ensures s[i] == ByteAt(data, x, pos + i)
      {
        assert s[i] == t[i - 1] == ByteAt(data, x, pos + 1 + (i - 1));
        assert pos + 1 + (i - 1) == pos + i;
      }
      assert pos + 1 + |t| == pos + |s|;
    }
  }

  lemma {:induction false} ReadBytesSplit(data: seq<Block>, x: Inode, pos: nat, a: nat, b: nat)
    ensures
      var s := ReadBytes(data, x, pos, a);
      ReadBytes(data, x, pos, a + b) == s + ReadBytes(data, x, pos + |s|, if |s| < a then 0 else b)
    decreases a
  {
    hide MapBn, ByteAt;
    if a > 0 && MapBn(data, x, pos / 512) != 0 {
      var h, s := [ByteAt(data, x, pos)], ReadBytes(data, x, pos + 1, a - 1);
      assert ReadBytes(data, x, pos, a) == h + s;
      ReadBytesSplit(data, x, pos + 1, a - 1, b);
      assert ReadBytes(data, x, pos, a + b) == h + ReadBytes(data, x, pos + 1, a - 1 + b);
      assert pos + |h + s| == pos + 1 + |s|;
      var rest := ReadBytes(data, x, pos + 1 + |s|, if |s| < a - 1 then 0 else b);
      assert h + (s + rest) == (h + s) + rest;
    }
  }

  // Reading a bytes and then b bytes is reading a + b bytes, on any file, holes included.
  lemma ReadAtSplit(data: seq<Block>, x: Inode, pos: nat, a: nat, b: nat)
    ensures
      var s := ReadAt(data, x, pos, a);
      ReadAt(data, x, pos, a + b) == s + ReadAt(data, x, pos + |s|, b)
  {
    hide MapBn, ByteAt;
    if pos < x.size {
      var m := if a > x.size - pos then x.size - pos else a;
      var n := if a + b > x.size - pos then x.size - pos else a + b;
      ReadBytesSplit(data, x, pos, m, n - m);
      ReadBytesAt(data, x, pos, m);
    }
  }

  // A hole-free file is read in full.
  lemma ReadAtHoleFree(data: seq<Block>, x: Inode, pos: nat, len: nat)
    requires HoleFree(data, x) && pos <= x.size
    ensures ReadAt(data, x, pos, len) == Content(data, x)[pos..if len > x.size - pos then x.size else pos + len]
  {
    hide MapBn, ByteAt;
    if pos < x.size {
      ReadBytesAt(data, x, pos, if len > x.size - pos then x.size - pos else len);
    }
  }

  lemma ReadFirst(data: seq<Block>, x: Inode, pos: nat, m: nat)
    requires m > 0 && 69 <= MapBn(data, x, pos / 512) < |data|
    ensures ReadBytes(data, x, pos, m)
      == [data[MapBn(data, x, pos / 512)][pos % 512]] + ReadBytes(data, x, pos + 1, m - 1)
  {
  }

  // The bytes of one block, copied at once, are those read one by one.
  lemma {:induction false} ReadChunk(data: seq<Block>, x: Inode, pos: nat, m: nat, can: nat)
    requires can <= m && pos % 512 + can <= 512
    requires 69 <= MapBn(data, x, pos / 512) < |data|
    ensures ReadBytes(data, x, pos, m)
      == data[MapBn(data, x, pos / 512)][pos % 512..pos % 512 + can] + ReadBytes(data, x, pos + can, m - can)
    decreases can
  {
    hide MapBn, ReadBytes;
    if can > 0 {
      var blk, o := data[MapBn(data, x, pos / 512)], pos % 512;
      ReadFirst(data, x, pos, m);
      if can == 1 {
        assert blk[o..o + 1] == [blk[o]];
      } else {
        assert (pos + 1) / 512 == pos / 512 && (pos + 1) % 512 == o + 1;
        ReadChunk(data, x, pos + 1, m - 1, can - 1);
        ConsSlice(blk, o, can, ReadBytes(data, x, pos + can, m - can));
      }
    }
  }

  lemma ConsSlice(b: seq<Byte>, o: nat, n: nat, r: seq<Byte>)
    requires 0 < n && o + n <= |b|
    ensures [b[o]] + (b[o + 1..o + n] + r) == b[o..o + n] + r
  {
  }

  lemma ReadStep(data: seq<Block>, x: Inode, pos0: nat, len: nat, out: seq<Byte>, pos: nat, can: nat)
    requires |out| + can <= len && pos % 512 + can <= 512 && 69 <= MapBn(data, x, pos / 512) < |data|
    requires ReadBytes(data, x, pos0, len) == out + ReadBytes(data, x, pos, len - |out|)
    ensures
      var chunk := data[MapBn(data, x, pos / 512)][pos % 512..pos % 512 + can];
      ReadBytes(data, x, pos0, len) == (out + chunk) + ReadBytes(data, x, pos + can, len - |out| - can)
  {
    hide MapBn, ReadBytes;
    ReadChunk(data, x, pos, len - |out|, can);
  }

  lemma MappedInData(v: Vol, ino: nat)
    requires Sound(v) && 1 <= ino <= 256
    ensures forall bn: nat {:trigger MapBn(v.data, v.inodes[ino], bn)} ::
      MapBn(v.data, v.inodes[ino], bn) != 0 ==> InData(v, MapBn(v.data, v.inodes[ino], bn))
    ensures v.inodes[ino].ind != 0 ==> InData(v, v.inodes[ino].ind)
  {
    forall bn: nat | MapBn(v.data, v.inodes[ino], bn) != 0
      ensures InData(v, MapBn(v.data, v.inodes[ino], bn))
    {
      assert Slot(v, ino, bn) == MapBn(v.data, v.inodes[ino], bn);
    }
    assert Slot(v, ino, 138) == v.inodes[ino].ind;
  }

  // The copying loop of fs_read.
  method ReadLoop(d: Disk, x: Inode, pos0: nat, len: nat, ghost ino: nat) returns (out: seq<Byte>)
    requires d.Ok() && 1 <= ino <= 256 && x == d.vol.inodes[ino]
    ensures out == ReadBytes(d.vol.data, x, pos0, len)
  {
    hide MapBn, ByteAt, Decodes, Sound;
    MappedInData(d.vol, ino);
    var pos := pos0;
    out := [];
    while |out| < len
      invariant |out| <= len && pos == pos0 + |out|
      invariant ReadBytes(d.vol.data, x, pos0, len) == out + ReadBytes(d.vol.data, x, pos, len - |out|)
    {
      var phys := MapBnForRead(d, x, pos / 512);
      if phys < 0 {
        return;
      }
      var e, blk := d.DevReadBlock(phys);
      var boff := pos % 512;
      var can := if 512 - boff > len - |out| then len - |out| else 512 - boff;
      ReadStep(d.vol.data, x, pos0, len, out, pos, can);
      out := out + blk[boff..boff + can];
      pos := pos + can;
    }
  }

  // The record that fs_read leaves: the access time is set unless the read was at the end.
  function Touched(x: Inode, pos: nat, now: U32): Inode {
    if pos >= x.size then x else x.(atime := now)
  }

  method FsRead(d: Disk, fd: int, len: U32) returns (r: int, out: seq<Byte>)
    requires d.Ok()
    modifies d`dev, d`vol, d`images, d`trace, d`ofile
    ensures d.Ok() && (r < 0 ==> out == [] && r in {FS_EBADF, FS_ERR, FS_EPERM})
    ensures !OpenFd(d.ofile, fd) <==> r == FS_EBADF
    ensures OpenFd(d.ofile, fd) && !(1 <= d.ofile[fd].ino <= 256) <==> r == FS_ERR
    ensures r == FS_EPERM
      <==> OpenFd(d.ofile, fd) && 1 <= d.ofile[fd].ino <= 256
           && !PermCanRead(old(d.vol).inodes[d.ofile[fd].ino], d.uid)
    ensures r < 0 ==> d.vol == old(d.vol) && d.ofile == old(d.ofile)
    ensures d.trace == old(d.trace) || d.trace == old(d.trace) + [d.vol]
    ensures r >= 0 ==>
      var f := old(d.ofile)[fd];
      && 1 <= f.ino <= 256
      && var x := old(d.vol).inodes[f.ino];
      && r == |out| && out == ReadAt(old(d.vol).data, x, f.offset, len)
      && d.ofile == old(d.ofile)[fd := f.(offset := f.offset + r)]
      && d.vol == With(old(d.vol), f.ino, Touched(x, f.offset, d.clock))
      && d.vol.inodes[f.ino].atime == if f.offset < x.size then d.clock else x.atime
  {
    if !OpenFd(d.ofile, fd) {
      return FS_EBADF, [];
    }
    var f := d.ofile[fd];
    var e, x := ReadInode(d, f.ino);
    if e != FS_OK {
      return FS_ERR, [];
    }
    if !PermCanRead(x, d.uid) {
      return FS_EPERM, [];
    }
    if f.offset >= x.size {
      assert d.vol == With(d.vol, f.ino, x);
      assert d.ofile == d.ofile[fd := f];
      return 0, [];
    }
    var n := if len > x.size - f.offset then x.size - f.offset else len;
    out := ReadLoop(d, x, f.offset, n, f.ino);
    ghost var v := d.vol;
    d.ofile := d.ofile[fd := f.(offset := f.offset + |out|)];
    e := WriteInode(d, f.ino, x.(atime := d.clock));
    assert InCore(v, f.ino, x) by {
      assert With(v, f.ino, x) == v;
    }
    SamePointers(v, f.ino, x, x.(atime := d.clock));
    r := |out|;
  }

  // ---- writing

  // The bytes of y are those of x with buf laid over them at pos.
  ghost predicate Overlaid(data: seq<Block>, x: Inode, data': seq<Block>, y: Inode, pos: nat, buf: seq<Byte>) {
    forall i: nat {:trigger ByteAt(data', y, i)} ::
      ByteAt(data', y, i) == if pos <= i < pos + |buf| then buf[i - pos] else ByteAt(data, x, i)
  }

  // Blocks lo to hi of y are present; elsewhere y has the blocks that x has, at the same place.
  ghost predicate Filled(data: seq<Block>, x: Inode, data': seq<Block>, y: Inode, lo: nat, hi: nat) {
    && (forall k: nat {:trigger MapBn(data', y, k)} :: lo <= k < hi ==> MapBn(data', y, k) != 0)
    && (forall k: nat {:trigger MapBn(data', y, k)} :: !(lo <= k < hi) || MapBn(data, x, k) != 0 ==>
          MapBn(data', y, k) == MapBn(data, x, k))
  }

  lemma MappedInCore(v: Vol, ino: nat, x: Inode)
    requires InCore(v, ino, x)
    ensures forall bn: nat {:trigger MapBn(v.data, x, bn)} :: MapBn(v.data, x, bn) != 0 ==>
      InData(v, MapBn(v.data, x, bn))
  {
    MappedInData(With(v, ino, x), ino);
  }

  // What a mapping adds to the bytes of the file: nothing, a new block reads as the hole did.
  lemma MappedBytes(v: Vol, w: Vol, x: Inode, y: Inode, bn: nat, r: int)
    requires Mapped(v, w, x, y, bn, r)
    requires forall k: nat {:trigger MapBn(v.data, x, k)} :: k < 138 && MapBn(v.data, x, k) != 0 ==>
      InData(v, MapBn(v.data, x, k))
    ensures Overlaid(v.data, x, w.data, y, 0, [])
    ensures r >= 0 ==> Filled(v.data, x, w.data, y, bn, bn + 1)
    ensures r < 0 ==> Filled(v.data, x, w.data, y, 0, 0)
  {
  }

  // The bytes of one block replaced from boff on.
  lemma PatchBytes(v: Vol, ino: nat, x: Inode, bn: nat, boff: nat, s: seq<Byte>)
    requires InCore(v, ino, x) && bn < 138 && MapBn(v.data, x, bn) != 0 && boff + |s| <= 512
    ensures InData(v, MapBn(v.data, x, bn))
    ensures
      var p := MapBn(v.data, x, bn);
      var w := SetData(v, p, Splice(v.data[p], boff, s));
      && InCore(w, ino, x) && Frame(v, w, ino)
      && Overlaid(v.data, x, w.data, x, 512 * bn + boff, s)
      && Filled(v.data, x, w.data, x, 0, 0)
  {
    var u, p := With(v, ino, x), MapBn(v.data, x, bn);
    assert Slot(u, ino, bn) == p;
    var blk := Splice(v.data[p], boff, s);
    OwnedDataSound(u, ino, bn, blk);
    var w := SetData(v, p, blk);
    assert With(w, ino, x) == SetData(u, p, blk);
    forall k: nat
      ensures MapBn(w.data, x, k) == MapBn(v.data, x, k)
    {
      assert k < 138 ==> Slot(With(w, ino, x), ino, k) == Slot(u, ino, k);
    }
    forall o: nat, k: nat | 1 <= o <= 256 && o != ino && k < 139
      ensures Slot(v, o, k) != p
    {
      assert Slot(u, o, k) == Slot(v, o, k);
    }
    forall k: nat | k < 138 && k != bn
      ensures MapBn(v.data, x, k) != p
    {
      assert Slot(u, ino, k) == MapBn(v.data, x, k);
    }
    hide MapBn;
    forall i: nat
      ensures ByteAt(w.data, x, i)
        == if 512 * bn + boff <= i < 512 * bn + boff + |s| then s[i - (512 * bn + boff)] else ByteAt(v.data, x, i)
    {
      PatchedByte(v.data, w.data, x, bn, boff, s, i);
    }
  }

  lemma PatchedByte(data: seq<Block>, data': seq<Block>, x: Inode, bn: nat, boff: nat, s: seq<Byte>, i: nat)
    requires boff + |s| <= 512 && 69 <= MapBn(data, x, bn) < |data|
    requires data' == data[MapBn(data, x, bn) := Splice(data[MapBn(data, x, bn)], boff, s)]
    requires MapBn(data', x, i / 512) == MapBn(data, x, i / 512)
    requires i / 512 != bn ==> MapBn(data, x, i / 512) != MapBn(data, x, bn)
    ensures ByteAt(data', x, i)
      == if 512 * bn + boff <= i < 512 * bn + boff + |s| then s[i - (512 * bn + boff)] else ByteAt(data, x, i)
  {
  }

  // One pass of the writing loop: can bytes into logical block bn.
  method WriteChunk(d: Disk, x: Inode, bn: nat, boff: nat, s: seq<Byte>, ghost ino: nat) returns (r: int, y: Inode)
    requires d.Valid() && d.Counted() && InCore(d.vol, ino, x) && boff + |s| <= 512
    modifies d`dev, d`vol, d`images, d`trace, d`sb, d`gd
    ensures d.Valid() && d.Counted() && InCore(d.vol, ino, y)
    ensures Frame(old(d.vol), d.vol, ino) && d.vol.inodes == old(d.vol.inodes)
    ensures Grew(old(d.trace), d.trace, old(d.vol), ino)
    ensures SameFile(x, y) && d.sb.freeInodes == old(d.sb.freeInodes)
    ensures r < 0 <==> bn >= 138 || old(d.sb.freeBlocks) < Missing(old(d.vol.data), x, bn)
    ensures r < 0 ==> r == FS_ENOSPC
    ensures r < 0 ==> Overlaid(old(d.vol.data), x, d.vol.data, y, 0, []) && Filled(old(d.vol.data), x, d.vol.data,
      y, 0, 0)
    ensures r >= 0 ==> d.sb.freeBlocks == old(d.sb.freeBlocks) - Missing(old(d.vol.data), x, bn)
    ensures r >= 0 ==> Overlaid(old(d.vol.data), x, d.vol.data, y, 512 * bn + boff, s)
    ensures r >= 0 ==> Filled(old(d.vol.data), x, d.vol.data, y, bn, bn + 1)
    ensures r >= 0 ==> if bn < 10 then y.ind == x.ind else y.ind != 0
  {
    hide MapBn, ByteAt, Decodes, Sound, Frame;
    ghost var v := d.vol;
    MappedInCore(v, ino, x);
    r, y := MapBnForWrite(d, x, bn, ino);
    MappedBytes(v, d.vol, x, y, bn, r);
    if r < 0 {
      return;
    }
    ghost var w := d.vol;
    var e, blk := d.DevReadBlock(r);
    PatchBytes(w, ino, y, bn, boff, s);
    e := d.DevWriteData(Splice(blk, boff, s), r);
    BehindSound(d.vol, ino, y);
    FrameTrans(v, w, d.vol, ino);
  }

  // The absent blocks among lo to hi.
  ghost function Holes(data: seq<Block>, x: Inode, lo: nat, hi: nat): nat
    decreases hi - lo
  {
    if lo >= hi then 0 else (if MapBn(data, x, lo) == 0 then 1 else 0) + Holes(data, x, lo + 1, hi)
  }

  // Blocks that writing to logical blocks lo to hi allocates in all, the table included.
  ghost function Needed(data: seq<Block>, x: Inode, lo: nat, hi: nat): nat {
    Holes(data, x, lo, hi) + if x.ind == 0 && lo < hi && hi > 10 then 1 else 0
  }

  // The logical block after the last one that len bytes at pos reach.
  function EndBlock(pos: nat, len: nat): nat {
    (pos + len + 511) / 512
  }

  // Writing len bytes at pos fits in the addressable range and in the free blocks.
  ghost predicate Fits(data: seq<Block>, x: Inode, pos: nat, len: nat, free: nat) {
    len == 0 || (pos + len <= 138 * 512 && free >= Needed(data, x, pos / 512, EndBlock(pos, len)))
  }

  // The logical blocks from lo to hi that the file does not have.
  ghost function Absent(data: seq<Block>, x: Inode, lo: nat, hi: nat): set<nat> {
    set k: nat | lo <= k < hi && MapBn(data, x, k) == 0
  }

  lemma {:induction false} HolesCount(data: seq<Block>, x: Inode, lo: nat, hi: nat)
    ensures Holes(data, x, lo, hi) == |Absent(data, x, lo, hi)|
    decreases hi - lo
  {
    hide MapBn;
    if lo < hi {
      HolesCount(data, x, lo + 1, hi);
      var a, b := Absent(data, x, lo, hi), Absent(data, x, lo + 1, hi);
      assert a == b + if MapBn(data, x, lo) == 0 then {lo} else {};
    } else {
      assert Absent(data, x, lo, hi) == {};
    }
  }

  // The limits of a file in plain terms: 10 direct blocks and the 128 of the table, and the blocks
  // that are not there yet, the table counted when the write goes beyond the direct ones.
  lemma FitsIs(data: seq<Block>, x: Inode, pos: nat, len: nat, free: nat)
    requires len > 0
    ensures Fits(data, x, pos, len, free)
      <==> pos + len <= (10 + 128) * 512
           && free >= |Absent(data, x, pos / 512, (pos + len - 1) / 512 + 1)|
                        + if x.ind == 0 && pos + len > 10 * 512 then 1 else 0
  {
    hide Absent;
    assert EndBlock(pos, len) == (pos + len - 1) / 512 + 1;
    HolesCount(data, x, pos / 512, EndBlock(pos, len));
  }

  // So a write within the range fits when there is a free block for each block it touches and one
  // for the table, and fits without a free block where the file has all of them.
  lemma FitsPlenty(data: seq<Block>, x: Inode, pos: nat, len: nat, free: nat)
    requires len > 0 && pos + len <= 70656
    ensures free >= (pos + len - 1) / 512 - pos / 512 + 2 ==> Fits(data, x, pos, len, free)
    ensures (forall k :: pos / 512 <= k <= (pos + len - 1) / 512 ==> MapBn(data, x, k) != 0) ==>
      Fits(data, x, pos, len, free)
  {
    hide MapBn;
    FitsIs(data, x, pos, len, free);
    var lo, hi := pos / 512, (pos + len - 1) / 512 + 1;
    HolesBound(data, x, lo, hi);
    HolesCount(data, x, lo, hi);
    if forall k :: lo <= k <= hi - 1 ==> MapBn(data, x, k) != 0 {
      assert Absent(data, x, lo, hi) == {};
      HasTable(data, x, hi - 1);
    }
  }

  lemma HasTable(data: seq<Block>, x: Inode, k: nat)
    requires MapBn(data, x, k) != 0
    ensures k >= 10 ==> x.ind != 0
  {
  }

  lemma {:induction false} HolesBound(data: seq<Block>, x: Inode, lo: nat, hi: nat)
    requires lo <= hi
    ensures Holes(data, x, lo, hi) <= hi - lo
    decreases hi - lo
  {
    hide MapBn;
    if lo < hi {
      HolesBound(data, x, lo + 1, hi);
    }
  }

  lemma {:induction false} HolesSame(data: seq<Block>, x: Inode, data': seq<Block>, y: Inode, lo: nat, hi: nat)
    requires forall k: nat {:trigger MapBn(data', y, k)} :: lo <= k < hi ==> MapBn(data', y, k) == MapBn(data, x, k)
    ensures Holes(data', y, lo, hi) == Holes(data, x, lo, hi)
    decreases hi - lo
  {
    if lo < hi {
      HolesSame(data, x, data', y, lo + 1, hi);
    }
  }

  // The blocks still needed shrink by the blocks that one mapping took.
  lemma NeededStep(data: seq<Block>, x: Inode, data': seq<Block>, y: Inode, lo: nat, hi: nat)
    requires lo < hi && Filled(data, x, data', y, lo, lo + 1)
    requires if lo < 10 then y.ind == x.ind else y.ind != 0
    ensures Needed(data, x, lo, hi) == Missing(data, x, lo) + Needed(data', y, lo + 1, hi)
  {
    HolesSame(data, x, data', y, lo + 1, hi);
    if lo >= 10 && x.ind == 0 {
      assert MapBn(data, x, lo) == 0;
    }
  }

  lemma NeededAtLeast(data: seq<Block>, x: Inode, lo: nat, hi: nat)
    requires lo < hi
    ensures Missing(data, x, lo) <= Needed(data, x, lo, hi)
  {
  }

  lemma NeededNone(data: seq<Block>, x: Inode, lo: nat)
    ensures Needed(data, x, lo, lo) == 0
  {
  }

  lemma OverlaidTrans(a: seq<Block>, x: Inode, b: seq<Block>, y: Inode, c: seq<Block>, z: Inode,
                      pos: nat, s: seq<Byte>, t: seq<Byte>)
    requires Overlaid(a, x, b, y, pos, s)
    requires (Overlaid(b, y, c, z, pos + |s|, t) || (t == [] && Overlaid(b, y, c, z, 0, t)))
    ensures Overlaid(a, x, c, z, pos, s + t)
  {
  }

  lemma FilledTrans(a: seq<Block>, x: Inode, b: seq<Block>, y: Inode, c: seq<Block>, z: Inode, lo: nat, m: nat, hi: nat)
    requires lo <= m && Filled(a, x, b, y, lo, m)
    requires (m <= hi && Filled(b, y, c, z, m, hi)) || (hi == m && Filled(b, y, c, z, 0, 0))
    ensures Filled(a, x, c, z, lo, hi)
  {
  }

  lemma Unwritten(v: Vol, ino: nat, x: Inode, pos: nat, trace: seq<Vol>)
    requires Sound(v) && 1 <= ino <= 256 && x == v.inodes[ino]
    ensures InCore(v, ino, x) && Frame(v, v, ino) && Grew(trace, trace, v, ino)
    ensures Overlaid(v.data, x, v.data, x, pos, [])
    ensures Filled(v.data, x, v.data, x, pos / 512, pos / 512)
  {
    assert With(v, ino, x) == v;
  }

  // The copying loop of fs_write.
  method WriteLoop(d: Disk, x0: Inode, pos0: nat, buf: seq<Byte>, ghost ino: nat)
    returns (r: int, x: Inode, ghost done: nat, ghost lo: nat)
    requires d.Ok() && 1 <= ino <= 256 && x0 == d.vol.inodes[ino]
    modifies d`dev, d`vol, d`images, d`trace, d`sb, d`gd
    ensures d.Ok() && InCore(d.vol, ino, x)
    ensures Frame(old(d.vol), d.vol, ino) && d.vol.inodes == old(d.vol.inodes)
    ensures Grew(old(d.trace), d.trace, old(d.vol), ino)
    ensures SameFile(x0, x) && d.sb.freeInodes == old(d.sb.freeInodes)
    ensures r == FS_OK || r == FS_ENOSPC
    ensures r == FS_OK <==> Fits(old(d.vol.data), x0, pos0, |buf|, old(d.sb.freeBlocks))
    ensures done <= |buf| && (r == FS_OK ==> done == |buf|)
    ensures Overlaid(old(d.vol.data), x0, d.vol.data, x, pos0, buf[..done])
    ensures Filled(old(d.vol.data), x0, d.vol.data, x, pos0 / 512, lo)
    ensures r == FS_OK ==> lo == if |buf| == 0 then pos0 / 512 else EndBlock(pos0, |buf|)
    ensures r == FS_OK && (lo <= 10 || |buf| == 0) ==> x.ind == x0.ind
    ensures r == FS_OK ==>
      d.sb.freeBlocks == old(d.sb.freeBlocks) - if |buf| == 0 then 0 else Needed(old(d.vol.data), x0, pos0 / 512, lo)
  {
    hide MapBn, ByteAt, Decodes, Sound, Overlaid, Filled, Grew, Frame, Needed, InCore, Missing;
    ghost var v := d.vol;
    Unwritten(v, ino, x0, pos0, d.trace);
    x := x0;
    var pos, n := pos0, 0;
    lo := pos0 / 512;
    ghost var hi := EndBlock(pos0, |buf|);
    while n < |buf|
      invariant d.Valid() && d.Counted() && InCore(d.vol, ino, x)
      invariant Frame(v, d.vol, ino) && d.vol.inodes == v.inodes
      invariant Grew(old(d.trace), d.trace, v, ino)
      invariant SameFile(x0, x) && d.sb.freeInodes == old(d.sb.freeInodes)
      invariant n <= |buf| && pos == pos0 + n
      invariant Overlaid(v.data, x0, d.vol.data, x, pos0, buf[..n])
      invariant pos0 / 512 <= lo && (if n < |buf| then lo == pos / 512 else lo == hi || |buf| == 0)
      invariant if n > 0 then pos <= 138 * 512 else lo == pos0 / 512
      invariant Filled(v.data, x0, d.vol.data, x, pos0 / 512, lo)
      invariant |buf| == 0 ==> d.sb == old(d.sb)
      invariant lo <= 10 || |buf| == 0 ==> x.ind == x0.ind
      invariant |buf| > 0 ==>
        d.sb.freeBlocks - Needed(d.vol.data, x, lo, hi) == old(d.sb.freeBlocks) - Needed(v.data, x0, pos0 / 512, hi)
    {
      var bn, boff := pos / 512, pos % 512;
      var can := if 512 - boff > |buf| - n then |buf| - n else 512 - boff;
      ghost var w, y, m := d.vol, x, d.trace;
      var s := buf[n..n + can];
      r, x := WriteChunk(d, x, bn, boff, s, ino);
      FrameTrans(v, w, d.vol, ino);
      GrewTrans(old(d.trace), m, d.trace, v, w, ino);
      if r < 0 {
        NeededAtLeast(w.data, y, lo, hi);
        OverlaidTrans(v.data, x0, w.data, y, d.vol.data, x, pos0, buf[..n], []);
        assert buf[..n] + [] == buf[..n];
        FilledTrans(v.data, x0, w.data, y, d.vol.data, x, pos0 / 512, lo, lo);
        BehindSound(d.vol, ino, x);
        done := n;
        return;
      }
      OverlaidTrans(v.data, x0, w.data, y, d.vol.data, x, pos0, buf[..n], s);
      assert buf[..n] + s == buf[..n + can];
      FilledTrans(v.data, x0, w.data, y, d.vol.data, x, pos0 / 512, lo, lo + 1);
      NeededStep(w.data, y, d.vol.data, x, lo, hi);
      n := n + can;
      pos := pos + can;
      lo := lo + 1;
    }
    BehindSound(d.vol, ino, x);
    assert buf[..n] == buf;
    NeededNone(d.vol.data, x, hi);
    r, done := FS_OK, n;
  }

  function Max(a: int, b: int): int {
    if a > b then a else b
  }

  // The bytes that the record still on disk gives after a write stopped half way.
  lemma BehindBytes(v: Vol, w: Vol, ino: nat, x: Inode, pos: nat, s: seq<Byte>, lo: nat, hi: nat)
    requires 1 <= ino <= 256 && w.inodes == v.inodes && InCore(w, ino, x) && Sound(v) && |v.data| == |w.data|
    requires Overlaid(v.data, v.inodes[ino], w.data, x, pos, s)
    requires Filled(v.data, v.inodes[ino], w.data, x, lo, hi)
    ensures forall i: nat :: !(pos <= i < pos + |s|) ==>
      ByteAt(w.data, w.inodes[ino], i) == ByteAt(v.data, v.inodes[ino], i)
    ensures forall k: nat {:trigger MapBn(w.data, v.inodes[ino], k)} ::
      MapBn(v.data, v.inodes[ino], k) != 0 ==> MapBn(w.data, v.inodes[ino], k) == MapBn(v.data, v.inodes[ino], k)
  {
    var x0 := v.inodes[ino];
    forall k: nat | MapBn(v.data, x0, k) != 0
      ensures MapBn(w.data, x0, k) == MapBn(v.data, x0, k)
    {
      assert MapBn(w.data, x, k) == MapBn(v.data, x0, k);
      BehindMap(v.data, w.data, x0, x, k);
    }
    BehindSound(w, ino, x);
    MappedInData(w, ino);
    forall i: nat | !(pos <= i < pos + |s|)
      ensures ByteAt(w.data, x0, i) == ByteAt(v.data, x0, i)
    {
      var k := i / 512;
      assert ByteAt(w.data, x, i) == ByteAt(v.data, x0, i);
      BehindMap(v.data, w.data, x0, x, k);
    }
  }

  lemma BehindMap(data: seq<Block>, data': seq<Block>, x0: Inode, x: Inode, k: nat)
    requires Extends(x0, x)
    requires MapBn(data, x0, k) != 0 ==> MapBn(data', x, k) == MapBn(data, x0, k)
    ensures MapBn(data', x0, k) == MapBn(data', x, k) || (MapBn(data', x0, k) == 0 && (|data| == |data'| ==>
      MapBn(data, x0, k) == 0))
  {
  }

  // fs_write
  method FsWrite(d: Disk, fd: int, buf: seq<Byte>) returns (r: int)
    requires d.Ok() && |buf| < 0x1_0000_0000
    modifies d`dev, d`vol, d`images, d`trace, d`sb, d`gd, d`ofile
    ensures d.Ok() && d.sb.freeInodes == old(d.sb.freeInodes)
    // The range of a file is 70656 bytes; with a free block for each block that is touched, and one
    // for the table, a write within it succeeds.
    ensures
      OpenFd(old(d.ofile), fd) && old(d.ofile)[fd].writable && 1 <= old(d.ofile)[fd].ino <= 256 && |buf| > 0
      && PermCanWrite(old(d.vol).inodes[old(d.ofile)[fd].ino], d.uid) ==>
        var pos := old(d.ofile)[fd].offset;
        && (pos + |buf| > 70656 ==> r == FS_ENOSPC)
        && (pos + |buf| <= 70656 && old(d.sb.freeBlocks) >= (pos + |buf| - 1) / 512 - pos / 512 + 2 ==> r == |buf|)
    // The errors before anything is written.
    ensures !OpenFd(old(d.ofile), fd) ==> r == FS_EBADF
    ensures OpenFd(old(d.ofile), fd) && !old(d.ofile)[fd].writable ==> r == FS_EPERM
    ensures OpenFd(old(d.ofile), fd) && old(d.ofile)[fd].writable && !(1 <= old(d.ofile)[fd].ino <= 256) ==> r == FS_ERR
    ensures r != |buf| && r != FS_ENOSPC ==> d.vol == old(d.vol) && d.trace == old(d.trace) && d.sb == old(d.sb)
    ensures r < 0 ==> d.ofile == old(d.ofile)
    ensures OpenFd(old(d.ofile), fd) && old(d.ofile)[fd].writable && 1 <= old(d.ofile)[fd].ino <= 256 ==>
      var f := old(d.ofile)[fd];
      var v := old(d.vol);
      var x := v.inodes[f.ino];
      if !PermCanWrite(x, d.uid) then r == FS_EPERM
      else
        // It succeeds exactly when the bytes fit.
        && r == (if Fits(v.data, x, f.offset, |buf|, old(d.sb.freeBlocks)) then |buf| else FS_ENOSPC)
        // Every block write keeps the volume sound and the other files as they were.
        && Grew(old(d.trace), d.trace, v, f.ino) && Frame(v, d.vol, f.ino)
        && (r >= 0 ==>
              var y := d.vol.inodes[f.ino];
              && SameFile(x.(size := y.size, mtime := y.mtime), y) && Extends(x, y)
              && y.size == Max(x.size, f.offset + |buf|) && y.mtime == d.clock
              && (|buf| == 0 || EndBlock(f.offset, |buf|) <= 10 ==> y.ind == x.ind)
              && Overlaid(v.data, x, d.vol.data, y, f.offset, buf)
              && Filled(v.data, x, d.vol.data, y, f.offset / 512,
                        if |buf| == 0 then f.offset / 512 else EndBlock(f.offset, |buf|))
              && d.ofile == old(d.ofile)[fd := f.(offset := f.offset + |buf|)]
              && d.sb.freeBlocks == old(d.sb.freeBlocks)
                   - if |buf| == 0 then 0 else Needed(v.data, x, f.offset / 512, EndBlock(f.offset, |buf|)))
        && (r < 0 ==>
              && d.vol.inodes == v.inodes
              && (forall k: nat {:trigger MapBn(d.vol.data, x, k)} :: MapBn(v.data, x, k) != 0 ==>
                   MapBn(d.vol.data, x, k) == MapBn(v.data, x, k))
              && forall i: nat :: !(f.offset <= i < f.offset + |buf|) ==>
                   ByteAt(d.vol.data, x, i) == ByteAt(v.data, x, i))
  {
    hide MapBn, ByteAt, Decodes, Sound, Overlaid, Filled, Grew, Frame, Needed, Fits, Absent;
    if !OpenFd(d.ofile, fd) {
      return FS_EBADF;
    }
    var f := d.ofile[fd];
    if !f.writable {
      return FS_EPERM;
    }
    var e, x := ReadInode(d, f.ino);
    if e != FS_OK {
      return FS_ERR;
    }
    if !PermCanWrite(x, d.uid) {
      return FS_EPERM;
    }
    ghost var v := d.vol;
    if |buf| > 0 {
      FitsIs(v.data, x, f.offset, |buf|, d.sb.freeBlocks);
      if f.offset + |buf| <= 70656 {
        FitsPlenty(v.data, x, f.offset, |buf|, d.sb.freeBlocks);
      }
    }
    ghost var done, lo;
    var y;
    r, y, done, lo := WriteLoop(d, x, f.offset, buf, f.ino);
    if r < 0 {
      BehindBytes(v, d.vol, f.ino, y, f.offset, buf[..done], f.offset / 512, lo);
      return;
    }
    var pos := f.offset + |buf|;
    assert buf[..done] == buf;
    ghost var w, m := d.vol, d.trace;
    var z := y.(size := if pos > y.size then pos else y.size, mtime := d.clock);
    e := WriteInode(d, f.ino, z);
    Written(v, w, d.vol, f.ino, x, y, z, f.offset, buf, old(d.trace), m, d.trace);
    d.ofile := d.ofile[fd := f.(offset := pos)];
    r := |buf|;
  }

  // The record in memory reaches the disk with a new size and time.
  lemma Written(v: Vol, w: Vol, z: Vol, ino: nat, x0: Inode, x: Inode, y: Inode, pos: nat, buf: seq<Byte>,
                r: seq<Vol>, s: seq<Vol>, t: seq<Vol>)
    requires InCore(w, ino, x) && z == With(w, ino, y) && x.direct == y.direct && x.ind == y.ind
    requires y.mode == w.inodes[ino].mode
    requires Frame(v, w, ino) && Grew(r, s, v, ino) && t == s + [z]
    ensures Sound(z) && Frame(v, z, ino) && Grew(r, t, v, ino) && Extends(w.inodes[ino], y)
    ensures forall lo, hi :: Filled(v.data, x0, w.data, x, lo, hi) ==> Filled(v.data, x0, z.data, y, lo, hi)
    ensures Overlaid(v.data, x0, w.data, x, pos, buf) ==> Overlaid(v.data, x0, z.data, y, pos, buf)
  {
    SamePointers(w, ino, x, y);
    assert z == With(w, ino, y);
    assert forall i: nat :: ByteAt(z.data, y, i) == ByteAt(w.data, x, i);
    assert forall o: nat, k: nat :: 1 <= o <= 256 && o != ino ==> Slot(z, o, k) == Slot(w, o, k);
    FrameTrans(v, w, z, ino);
  }
}
