/** bitmap.c: the two bitmaps and the counters of free blocks and inodes. */
module Bitmap {
  import opened Layout
  import opened Records
  import opened Volume
  import opened Device

  // The bitmap of v that the flag is_block selects.
  ghost function Bits(v: Vol, isBlock: bool): seq<bool> {
    if isBlock then v.bb else v.ib
  }

  ghost function SetBits(v: Vol, isBlock: bool, i: nat, val: bool): Vol
    requires i < BITS
  {
    if isBlock then SetBlockBit(v, i, val) else SetInodeBit(v, i, val)
  }

  method BmapTest(d: Disk, i: nat, isBlock: bool) returns (r: bool)
    requires d.Valid() && i < BITS
    ensures r == Bits(d.vol, isBlock)[i]
  {
    var e, buf := d.DevReadBlock(if isBlock then BLK_BMAP else BLK_IMAP);
    r := BitAt(buf, i);
  }

  method WriteBitmap(d: Disk, bm: Block, i: nat, isBlock: bool, val: bool) returns (r: int)
    requires d.Valid() && i < BITS
    requires bm == SetBit(d.dev[if isBlock then BLK_BMAP else BLK_IMAP], i, val)
    modifies d`dev, d`vol, d`images, d`trace
    ensures d.Valid() && r == FS_OK
    ensures d.vol == SetBits(old(d.vol), isBlock, i, val)
    ensures d.trace == old(d.trace) + [d.vol]
    ensures d.dev[1] == old(d.dev[1]) && d.dev[2] == old(d.dev[2])
  {
    hide DecodeInode;
    BitSetBit(d.dev[if isBlock then BLK_BMAP else BLK_IMAP], i, val);
    r := d.DevWriteBlock(bm, if isBlock then BLK_BMAP else BLK_IMAP, SetBits(d.vol, isBlock, i, val));
  }

  method BmapSet(d: Disk, i: nat, isBlock: bool, val: bool) returns (r: int)
    requires d.Valid() && i < BITS
    modifies d`dev, d`vol, d`images, d`trace
    ensures d.Valid() && r == FS_OK
    ensures d.vol == SetBits(old(d.vol), isBlock, i, val)
    ensures d.trace == old(d.trace) + [d.vol]
    ensures d.dev[1] == old(d.dev[1]) && d.dev[2] == old(d.dev[2])
  {
    var e, buf := d.DevReadBlock(if isBlock then BLK_BMAP else BLK_IMAP);
    r := WriteBitmap(d, SetBit(buf, i, val), i, isBlock, val);
  }

  // The first clear bit of the data area, or no space.
  method AllocBlock(d: Disk) returns (r: int)
    requires d.Valid() && d.Counted() && Reserved(d.vol)
    modifies d`dev, d`vol, d`images, d`trace, d`sb, d`gd
    ensures d.Valid() && d.Counted()
    ensures old(d.sb.freeBlocks) == 0 <==> r == FS_ENOSPC
    ensures r == FS_ENOSPC ==> d.vol == old(d.vol) && d.trace == old(d.trace) && d.sb == old(d.sb)
    ensures r != FS_ENOSPC ==> 69 <= r < d.total && !old(d.vol).bb[r] && forall i :: 69 <= i < r ==> old(d.vol).bb[i]
    ensures r != FS_ENOSPC ==> d.vol == SetBlockBit(old(d.vol), r, true)
    ensures r != FS_ENOSPC ==> d.sb == old(d.sb).(freeBlocks := old(d.sb.freeBlocks) - 1)
    ensures r != FS_ENOSPC ==> d.trace == old(d.trace) + [d.vol, d.vol, d.vol]
  {
    var e, bm := d.DevReadBlock(BLK_BMAP);
    for i := 69 to d.total
      invariant d.vol == old(d.vol) && d.trace == old(d.trace) && d.sb == old(d.sb)
      invariant d.Valid() && d.Counted() && bm == d.dev[3]
      invariant forall j :: 69 <= j < i ==> d.vol.bb[j]
    {
      if !BitAt(bm, i) {
        CountClearSet(d.vol.bb, 0, d.total, i, true);
        CountClearZero(d.vol.bb, 0, d.total);
        e := WriteBitmap(d, SetBit(bm, i, true), i, true, true);
        d.sb := d.sb.(freeBlocks := d.sb.freeBlocks - 1);
        d.WriteSuper();
        d.gd := d.gd.(freeBlocks := d.gd.freeBlocks - 1);
        d.WriteGroup();
        return i;
      }
    }
    CountClearZero(d.vol.bb, 0, d.total);
    return FS_ENOSPC;
  }

  // Clears the bit of a data block; a block outside the area, or already free, is left alone.
  method FreeBlock(d: Disk, b: nat)
    requires d.Valid() && d.Counted()
    modifies d`dev, d`vol, d`images, d`trace, d`sb, d`gd
    ensures d.Valid() && d.Counted()
    ensures d.vol == if InData(old(d.vol), b) then SetBlockBit(old(d.vol), b, false) else old(d.vol)
    ensures d.sb.freeInodes == old(d.sb.freeInodes) && old(d.trace) <= d.trace
    ensures d.sb.freeBlocks == old(d.sb.freeBlocks) + if InData(old(d.vol), b) && old(d.vol).bb[b] then 1 else 0
  {
    if b < BLK_DATA_START || b >= d.total {
      return;
    }
    var t := BmapTest(d, b, true);
    if !t {
      assert d.vol == SetBlockBit(d.vol, b, false);
      return;
    }
    CountClearSet(d.vol.bb, 0, d.total, b, false);
    CountClearZero(SetBlockBit(d.vol, b, false).bb, 0, d.total);
    var e := BmapSet(d, b, true, false);
    d.sb := d.sb.(freeBlocks := d.sb.freeBlocks + 1);
    d.WriteSuper();
    d.gd := d.gd.(freeBlocks := d.gd.freeBlocks + 1);
    d.WriteGroup();
  }

  // The first clear bit among inodes 1 to 256, or no space.
  method AllocInode(d: Disk) returns (r: int)
    requires d.Valid() && d.Counted()
    modifies d`dev, d`vol, d`images, d`trace, d`sb, d`gd
    ensures d.Valid() && d.Counted()
    ensures old(d.sb.freeInodes) == 0 <==> r == FS_ENOSPC
    ensures r == FS_ENOSPC ==> d.vol == old(d.vol) && d.trace == old(d.trace) && d.sb == old(d.sb)
    ensures r != FS_ENOSPC ==> 1 <= r <= 256 && !old(d.vol).ib[r] && forall i :: 1 <= i < r ==> old(d.vol).ib[i]
    ensures r != FS_ENOSPC ==> d.vol == SetInodeBit(old(d.vol), r, true)
    ensures r != FS_ENOSPC ==> d.sb == old(d.sb).(freeInodes := old(d.sb.freeInodes) - 1)
    ensures r != FS_ENOSPC ==> d.trace == old(d.trace) + [d.vol, d.vol, d.vol]
  {
    var e, bm := d.DevReadBlock(BLK_IMAP);
    for i := 1 to 257
      invariant d.vol == old(d.vol) && d.trace == old(d.trace) && d.sb == old(d.sb)
      invariant d.Valid() && d.Counted() && bm == d.dev[4]
      invariant forall j :: 1 <= j < i ==> d.vol.ib[j]
    {
      if !BitAt(bm, i) {
        CountClearSet(d.vol.ib, 1, 257, i, true);
        CountClearZero(d.vol.ib, 1, 257);
        e := WriteBitmap(d, SetBit(bm, i, true), i, false, true);
        d.sb := d.sb.(freeInodes := d.sb.freeInodes - 1);
        d.WriteSuper();
        d.gd := d.gd.(freeInodes := d.gd.freeInodes - 1);
        d.WriteGroup();
        return i;
      }
    }
    CountClearZero(d.vol.ib, 1, 257);
    return FS_ENOSPC;
  }

  method FreeInode(d: Disk, ino: nat)
    requires d.Valid() && d.Counted()
    modifies d`dev, d`vol, d`images, d`trace, d`sb, d`gd
    ensures d.Valid() && d.Counted()
    ensures d.vol == if 1 <= ino <= 256 then SetInodeBit(old(d.vol), ino, false) else old(d.vol)
    ensures d.sb.freeBlocks == old(d.sb.freeBlocks) && old(d.trace) <= d.trace
    ensures d.sb.freeInodes == old(d.sb.freeInodes) + if 1 <= ino <= 256 && old(d.vol).ib[ino] then 1 else 0
  {
    if ino == 0 || ino > MAX_INODES {
      return;
    }
    var t := BmapTest(d, ino, false);
    if !t {
      assert d.vol == SetInodeBit(d.vol, ino, false);
      return;
    }
    CountClearSet(d.vol.ib, 1, 257, ino, false);
    CountClearZero(SetInodeBit(d.vol, ino, false).ib, 1, 257);
    var e := BmapSet(d, ino, false, false);
    d.sb := d.sb.(freeInodes := d.sb.freeInodes + 1);
    d.WriteSuper();
    d.gd := d.gd.(freeInodes := d.gd.freeInodes + 1);
    d.WriteGroup();
  }
}
