/** inode.c: the packed inode table, and truncation. */
module InodeTable {
  import opened Layout
  import opened Records
  import opened Volume
  import opened Device
  import opened Bitmap

  method ReadInode(d: Disk, ino: nat) returns (r: int, x: Inode)
    requires d.Valid()
    ensures r == if 1 <= ino <= 256 then FS_OK else FS_ERR
    ensures 1 <= ino <= 256 ==> x == d.vol.inodes[ino]
  {
    if ino == 0 || ino > MAX_INODES {
      return FS_ERR, ZERO_INODE;
    }
    var e, buf := d.DevReadBlock(BLK_ITBL_START + (ino - 1) / 4);
    return FS_OK, InodeAt(buf, (ino - 1) % 4);
  }

  method WriteInode(d: Disk, ino: nat, x: Inode) returns (r: int)
    requires d.Valid()
    modifies d`dev, d`vol, d`images, d`trace
    ensures d.Valid()
    ensures d.dev[1] == old(d.dev[1]) && d.dev[2] == old(d.dev[2])
    ensures r == if 1 <= ino <= 256 then FS_OK else FS_ERR
    ensures 1 <= ino <= 256 ==> d.vol == With(old(d.vol), ino, x) && d.trace == old(d.trace) + [d.vol]
    ensures !(1 <= ino <= 256) ==> d.vol == old(d.vol) && d.trace == old(d.trace)
  {
    if ino == 0 || ino > MAX_INODES {
      return FS_ERR;
    }
    var b, k := BLK_ITBL_START + (ino - 1) / 4, (ino - 1) % 4;
    var e, buf := d.DevReadBlock(b);
    var c := PutInode(buf, k, x);
    DecodesInode(d.dev, d.vol, ino, x);
    r := d.DevWriteBlock(c, b, With(d.vol, ino, x));
  }

  // The first n blocks of inode ino are free, everything else is as in v.
  ghost predicate FreedBelow(v: Vol, w: Vol, ino: nat, n: nat)
    requires 1 <= ino <= 256
  {
    && w == v.(bb := w.bb)
    && forall b: nat :: b < 4096 ==> w.bb[b] == (v.bb[b] && b !in OwnedBelow(v, ino, n))
  }

  // One step of the truncation: pointer k, where there is one, gives its block back.
  method FreeSlot(d: Disk, b: U32, ghost v: Vol, ghost ino: nat, ghost k: nat)
    requires d.Valid() && d.Counted() && Sound(v) && 1 <= ino <= 256 && k < 139 && Slot(v, ino, k) == b
    requires FreedBelow(v, d.vol, ino, k)
    modifies d`dev, d`vol, d`images, d`trace, d`sb, d`gd
    ensures d.Valid() && d.Counted() && FreedBelow(v, d.vol, ino, k + 1)
    ensures d.sb.freeBlocks - old(d.sb.freeBlocks) == |OwnedBelow(v, ino, k + 1)| - |OwnedBelow(v, ino, k)|
    ensures d.sb.freeInodes == old(d.sb.freeInodes) && old(d.trace) <= d.trace
  {
    OwnedNext(v, ino, k);
    if b != 0 {
      FreeBlock(d, b);
    }
  }

  method FreeDirect(d: Disk, p: Pointers, ghost ino: nat) returns (q: Pointers)
    requires d.Valid() && d.Counted() && Sound(d.vol) && 1 <= ino <= 256 && d.vol.inodes[ino].direct == p
    modifies d`dev, d`vol, d`images, d`trace, d`sb, d`gd
    ensures d.Valid() && d.Counted() && FreedBelow(old(d.vol), d.vol, ino, 10)
    ensures d.sb.freeBlocks == old(d.sb.freeBlocks) + |OwnedBelow(old(d.vol), ino, 10)|
    ensures d.sb.freeInodes == old(d.sb.freeInodes) && old(d.trace) <= d.trace
    ensures q == NO_POINTERS
  {
    ghost var v := d.vol;
    q := p;
    for i := 0 to 10
      invariant d.Valid() && d.Counted() && FreedBelow(v, d.vol, ino, i)
      invariant d.sb.freeBlocks == old(d.sb.freeBlocks) + |OwnedBelow(v, ino, i)|
      invariant d.sb.freeInodes == old(d.sb.freeInodes) && old(d.trace) <= d.trace
      invariant forall k: nat :: k < 10 ==> q[k] == if k < i then 0 else p[k]
    {
      assert Slot(v, ino, i) == q[i];
      FreeSlot(d, q[i], v, ino, i);
      q := q[i := 0];
    }
    assert q == NO_POINTERS;
  }

  // The entries of the indirect table are the pointers from 10 on.
  lemma TableEntries(v: Vol, ino: nat)
    requires Sound(v) && 1 <= ino <= 256 && v.inodes[ino].ind != 0
    ensures InData(v, v.inodes[ino].ind)
    ensures forall k: nat :: 10 <= k < 138 ==> Slot(v, ino, k) == Ptr(v.data[v.inodes[ino].ind], k - 10)
  {
    assert Slot(v, ino, 138) == v.inodes[ino].ind;
  }

  // The loop over the entries of the table.
  method FreeEntries(d: Disk, tbl: Block, ghost v: Vol, ghost ino: nat)
    requires d.Valid() && d.Counted() && Sound(v) && 1 <= ino <= 256 && FreedBelow(v, d.vol, ino, 10)
    requires forall k: nat :: 10 <= k < 138 ==> Slot(v, ino, k) == Ptr(tbl, k - 10)
    modifies d`dev, d`vol, d`images, d`trace, d`sb, d`gd
    ensures d.Valid() && d.Counted() && FreedBelow(v, d.vol, ino, 138)
    ensures d.sb.freeBlocks - old(d.sb.freeBlocks) == |OwnedBelow(v, ino, 138)| - |OwnedBelow(v, ino, 10)|
    ensures d.sb.freeInodes == old(d.sb.freeInodes) && old(d.trace) <= d.trace
  {
    hide Recorded, Decodes, Sound, Slot, FreedBelow, OwnedBelow;
    for k := 10 to 138
      invariant d.Valid() && d.Counted() && FreedBelow(v, d.vol, ino, k)
      invariant d.sb.freeBlocks - old(d.sb.freeBlocks) == |OwnedBelow(v, ino, k)| - |OwnedBelow(v, ino, 10)|
      invariant d.sb.freeInodes == old(d.sb.freeInodes) && old(d.trace) <= d.trace
    {
      FreeSlot(d, Ptr(tbl, k - 10), v, ino, k);
    }
  }

  method FreeTable(d: Disk, ind: U32, ghost v: Vol, ghost ino: nat)
    requires d.Valid() && d.Counted() && Sound(v) && 1 <= ino <= 256 && v.inodes[ino].ind == ind
    requires FreedBelow(v, d.vol, ino, 10)
    modifies d`dev, d`vol, d`images, d`trace, d`sb, d`gd
    ensures d.Valid() && d.Counted() && FreedBelow(v, d.vol, ino, 139)
    ensures d.sb.freeBlocks - old(d.sb.freeBlocks) == |OwnedBelow(v, ino, 139)| - |OwnedBelow(v, ino, 10)|
    ensures d.sb.freeInodes == old(d.sb.freeInodes) && old(d.trace) <= d.trace
  {
    assert Slot(v, ino, 138) == ind;
    if ind == 0 {
      assert OwnedBelow(v, ino, 139) == OwnedBelow(v, ino, 10);
      return;
    }
    TableEntries(v, ino);
    var e, tbl := d.DevReadBlock(ind);
    assert tbl == v.data[ind];
    hide Recorded, Decodes, Sound, Slot, FreedBelow, OwnedBelow;
    FreeEntries(d, tbl, v, ino);
    FreeSlot(d, ind, v, ino, 138);
  }

  // inode_truncate clears exactly the bits of the blocks the inode owned, returns exactly
  // that many blocks to the free counters, and leaves an empty record.
  method InodeTruncate(d: Disk, ino: nat) returns (r: int)
    requires d.Valid() && d.Counted() && Sound(d.vol)
    modifies d`dev, d`vol, d`images, d`trace, d`sb, d`gd
    ensures d.Valid() && d.Counted() && Sound(d.vol) && old(d.trace) <= d.trace
    ensures r == if 1 <= ino <= 256 then FS_OK else FS_ERR
    ensures !(1 <= ino <= 256) ==> d.vol == old(d.vol) && d.sb == old(d.sb)
    ensures 1 <= ino <= 256 ==>
      && d.vol.data == old(d.vol.data) && d.vol.ib == old(d.vol.ib)
      && d.vol.inodes == old(d.vol).inodes[ino := Emptied(old(d.vol).inodes[ino], d.clock)]
      && (forall b: nat :: b < 4096 ==> d.vol.bb[b] == (old(d.vol).bb[b] && b !in Owned(old(d.vol), ino)))
      && d.sb.freeBlocks == old(d.sb.freeBlocks) + |Owned(old(d.vol), ino)|
      && d.sb.freeInodes == old(d.sb.freeInodes)
  {
    ghost var v := d.vol;
    var e, x := ReadInode(d, ino);
    if e != FS_OK {
      return FS_ERR;
    }
    var direct := FreeDirect(d, x.direct, ino);
    FreeTable(d, x.ind, v, ino);
    x := Emptied(x, d.clock);
    r := WriteInode(d, ino, x);
    DropSound(v, d.vol, ino);
  }
}
