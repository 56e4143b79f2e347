/** fs_format of fs.c: from any device contents to a sound volume with an empty root directory. */
module Format {
  import opened Layout
  import opened Records
  import opened Volume
  import opened Device
  import opened Bitmap
  import opened InodeTable
  import opened Directory
  import opened Namespace
  import opened Files

  lemma {:induction false} ByteBitZero(k: nat)
    ensures !ByteBit(0, k)
  {
    if k > 0 {
      ByteBitZero(k - 1);
    }
  }

  // A zeroed device has empty bitmaps and empty inode records.
  lemma ZeroVolume(dev: seq<Block>, v: Vol)
    requires Decodes(dev, v) && forall b :: 0 <= b < |dev| ==> dev[b] == ZeroBlock()
    ensures forall i: nat :: i < 4096 ==> !v.bb[i] && !v.ib[i]
    ensures forall ino: nat :: 1 <= ino <= 256 ==> v.inodes[ino] == ZERO_INODE
  {
    forall i: nat | i < 4096
      ensures !v.bb[i] && !v.ib[i]
    {
      ByteBitZero(i % 8);
      assert !BitAt(dev[3], i) && !BitAt(dev[4], i);
    }
    hide DecodeInode;
    forall ino: nat | 1 <= ino <= 256
      ensures v.inodes[ino] == ZERO_INODE
    {
      DecodeZero((ino - 1) % 4);
      assert InodeAt(dev[5 + (ino - 1) / 4], (ino - 1) % 4) == v.inodes[ino];
    }
  }

  lemma {:induction false} CountPrefix(bits: seq<bool>, lo: nat, hi: nat, n: nat)
    requires lo <= n <= hi <= |bits| && forall i :: lo <= i < hi ==> bits[i] == (i < n)
    ensures CountClear(bits, lo, hi) == hi - n
  {
    if n < hi {
      CountPrefix(bits, lo, hi - 1, n);
    } else {
      CountClearZero(bits, lo, hi);
    }
  }

  // No record holds a pointer.
  lemma EmptySound(v: Vol)
    requires Reserved(v) && forall ino: nat :: 1 <= ino <= 256 ==> NoPointers(v.inodes[ino])
    ensures Sound(v)
  {
  }

  method ZeroDevice(d: Disk)
    requires d.Valid()
    modifies d`dev, d`vol, d`images, d`trace
    ensures d.Valid() && forall b :: 0 <= b < d.total ==> d.dev[b] == ZeroBlock()
  {
    hide Recorded, Decodes;
    for i := 0 to d.total
      invariant d.Valid() && forall b :: 0 <= b < i ==> d.dev[b] == ZeroBlock()
    {
      ViewDecodes(d.dev[i := ZeroBlock()]);
      var e := d.DevWriteBlock(ZeroBlock(), i, View(d.dev[i := ZeroBlock()]));
    }
  }

  // The bits of the metadata blocks.
  method ReserveMeta(d: Disk)
    requires d.Valid() && forall i: nat :: i < 4096 ==> !d.vol.bb[i]
    modifies d`dev, d`vol, d`images, d`trace
    ensures d.Valid() && d.vol == old(d.vol).(bb := d.vol.bb)
    ensures forall i: nat :: i < 4096 ==> d.vol.bb[i] == (i < 69)
    ensures d.dev[1] == old(d.dev[1]) && d.dev[2] == old(d.dev[2])
  {
    hide Recorded, Decodes;
    for i := 0 to 69
      invariant d.Valid() && d.vol == old(d.vol).(bb := d.vol.bb)
      invariant forall j: nat :: j < 4096 ==> d.vol.bb[j] == (j < i)
      invariant d.dev[1] == old(d.dev[1]) && d.dev[2] == old(d.dev[2])
    {
      var e := BmapSet(d, i, true, true);
    }
  }

  // The root directory with its two dots in its first block.
  ghost predicate FreshRoot(v: Vol) {
    v.ib[1] && IsDir(v.inodes[1]) && FreshDir(v, 1, 1) && v.inodes[1].size == 128 && v.inodes[1].direct[0] != 0
  }

  function RootTree(): Tree {
    Tree(map[1 := 1], map[1 := 0])
  }

  lemma RootTreeOk(v: Vol)
    requires IsDir(v.inodes[1]) && v.ib[1] && FreshDir(v, 1, 1)
    ensures NameTree(v, RootTree())
  {
  }

  // Both copies of both counters on the device.
  method WriteCounters(d: Disk, freeBlocks: U32, freeInodes: U32)
    requires d.Valid()
    modifies d`dev, d`vol, d`images, d`trace, d`sb, d`gd
    ensures d.Valid() && d.vol == old(d.vol) && d.sb == d.gd == Counters(freeBlocks, freeInodes)
    ensures d.dev == old(d.dev)[1 := SuperBlock(d.total, d.sb)][2 := GroupBlock(d.gd)]
  {
    hide Recorded, Decodes;
    d.sb, d.gd := Counters(freeBlocks, freeInodes), Counters(freeBlocks, freeInodes);
    d.WriteSuper();
    d.WriteGroup();
  }

  // The counters, and the bits of the metadata and of the root inode.
  method InitCounters(d: Disk)
    requires d.Valid() && forall b :: 0 <= b < d.total ==> d.dev[b] == ZeroBlock()
    modifies d`dev, d`vol, d`images, d`trace, d`sb, d`gd
    ensures d.Valid() && d.Counted() && Reserved(d.vol)
    ensures d.sb == Counters(d.total - 69, 255)
    ensures forall ino: nat :: 1 <= ino <= 256 ==> d.vol.inodes[ino] == ZERO_INODE
    ensures forall i: nat :: 1 <= i < 4096 ==> d.vol.ib[i] == (i == 1)
  {
    ZeroVolume(d.dev, d.vol);
    hide Recorded, Decodes, SuperBlock, GroupBlock, CountClear;
    WriteCounters(d, d.total, 256);
    ReserveMeta(d);
    WriteCounters(d, d.total - 69, 256);
    var e := BmapSet(d, 1, false, true);
    WriteCounters(d, d.total - 69, 255);
    CountPrefix(d.vol.bb, 0, d.total, 69);
    CountPrefix(d.vol.ib, 1, 257, 2);
  }

  // Everything up to the root directory; the users file is written by FsFormat.
  method FormatVolume(d: Disk)
    requires d.Valid()
    modifies d`dev, d`vol, d`images, d`trace, d`sb, d`gd
    ensures d.Ok() && NameTree(d.vol, RootTree()) && FreshRoot(d.vol)
    ensures d.sb == Counters(d.total - 70, 255)
    ensures forall i: nat :: 1 <= i < 4096 ==> d.vol.ib[i] == (i == 1)
  {
    hide Recorded, Decodes, Sound, NameTree, List, IsDir;
    ZeroDevice(d);
    InitCounters(d);
    var e := WriteInode(d, 1, NewRecord(MODE_DIR, 2, 0, d.clock));
    EmptySound(d.vol);
    FileType(0, d.clock);
    ghost var u := d.vol;
    AddDots(d, 1, 1, RootTree(), false, d.trace);
    ModeType(u, d.vol, 1);
    RootTreeOk(d.vol);
  }
}
