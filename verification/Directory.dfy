/** dir.c: a directory as a sequence of 64-byte slots, searched for the first match. */
module Directory {
  import opened Layout
  import opened Records
  import opened Volume
  import opened Device
  import opened InodeTable
  import opened FileIo

  datatype Found = Found(ino: U32) | NotFound(err: int)

  function EmptyDirent(): (e: Dirent)
    ensures e.ino == 0 && e.ftype == 0 && forall i :: 0 <= i < 56 ==> e.raw[i] == 0
  {
    Dirent(0, 0, seq(56, _ => 0))
  }

  // Slot i of a directory; a slot of an absent block reads as empty.
  function Entry(data: seq<Block>, x: Inode, i: nat): Dirent {
    if i / 8 < 10 && 69 <= x.direct[i / 8] < |data| then DirentAt(data[x.direct[i / 8]], i % 8)
    else EmptyDirent()
  }

  // The slots that the size covers.
  function Slots(x: Inode): nat {
    x.size / 64
  }

  // The directory as a sequence of slots.
  ghost function Listing(data: seq<Block>, x: Inode): (l: seq<Dirent>)
    ensures |l| == Slots(x)
  {
    seq(Slots(x), i requires 0 <= i < Slots(x) => Entry(data, x, i))
  }

  ghost function List(v: Vol, d: nat): seq<Dirent>
    requires 1 <= d <= 256
  {
    Listing(v.data, v.inodes[d])
  }

  predicate Matches(e: Dirent, name: Name) {
    e.ino != 0 && NameIs(e.raw, name)
  }

  // The first slot that matches, |l| when there is none.
  function FirstMatch(l: seq<Dirent>, name: Name): (j: nat)
    ensures j <= |l|
    ensures j < |l| ==> Matches(l[j], name)
    ensures forall k :: 0 <= k < j ==> !Matches(l[k], name)
  {
    if l == [] || Matches(l[0], name) then 0 else 1 + FirstMatch(l[1..], name)
  }

  function LookupIn(l: seq<Dirent>, name: Name): Found {
    var j := FirstMatch(l, name);
    if j == |l| then NotFound(FS_ENOENT) else Found(l[j].ino)
  }

  ghost function Lookup(v: Vol, dir: nat, name: Name): Found {
    if !(1 <= dir <= 256) then NotFound(FS_ERR)
    else if !IsDir(v.inodes[dir]) then NotFound(FS_ENOTDIR)
    else LookupIn(List(v, dir), name)
  }

  lemma FirstMatchIs(l: seq<Dirent>, name: Name, j: nat)
    requires j <= |l| && (forall k :: 0 <= k < j ==> !Matches(l[k], name))
    requires j < |l| ==> Matches(l[j], name)
    ensures FirstMatch(l, name) == j
  {
  }

  // One step of the searching loops: the slot as the block on the device holds it.
  method ReadSlot(d: Disk, x: Inode, i: nat, ghost dir: nat) returns (ok: bool, e: Dirent, blk: Block)
    requires d.Ok() && 1 <= dir <= 256 && x == d.vol.inodes[dir]
    ensures ok <==> i / 8 < 10 && x.direct[i / 8] != 0
    ensures e == Entry(d.vol.data, x, i)
    ensures ok ==> InData(d.vol, x.direct[i / 8]) && blk == d.vol.data[x.direct[i / 8]]
  {
    hide Recorded, Decodes, DirentAt;
    var bn := i / 8;
    if bn >= NDIRECT || x.direct[bn] == 0 {
      return false, EmptyDirent(), ZeroBlock();
    }
    assert Slot(d.vol, dir, bn) == x.direct[bn];
    var r;
    r, blk := d.DevReadBlock(x.direct[bn]);
    ok, e := true, DirentAt(blk, i % 8);
  }

  method DirLookup(d: Disk, dir: nat, name: Name) returns (r: int, ino: U32)
    requires d.Ok()
    ensures r == FS_OK ==> Lookup(d.vol, dir, name) == Found(ino)
    ensures r != FS_OK ==> Lookup(d.vol, dir, name) == NotFound(r)
  {
    hide Recorded, Decodes, Sound, Entry, NameIs;
    ghost var l := if 1 <= dir <= 256 then List(d.vol, dir) else [];
    var e, x := ReadInode(d, dir);
    if e != FS_OK {
      return FS_ERR, 0;
    }
    if !IsDir(x) {
      return FS_ENOTDIR, 0;
    }
    for i := 0 to Slots(x)
      invariant forall k :: 0 <= k < i ==> !Matches(l[k], name)
    {
      var ok, de, blk := ReadSlot(d, x, i, dir);
      if ok && Matches(de, name) {
        FirstMatchIs(l, name, i);
        return FS_OK, de.ino;
      }
      AbsentSlot(d.vol.data, x, i);
    }
    FirstMatchIs(l, name, |l|);
    return FS_ENOENT, 0;
  }

  lemma AbsentSlot(data: seq<Block>, x: Inode, i: nat)
    ensures !(i / 8 < 10 && x.direct[i / 8] != 0) ==> Entry(data, x, i).ino == 0
  {
  }

  // ---- changing a slot

  lemma DirentZero(k: nat)
    requires k < 8
    ensures DirentAt(ZeroBlock(), k) == EmptyDirent()
  {
    var r := ZeroBlock()[64 * k..64 * k + 64];
    assert forall i :: 0 <= i < 64 ==> r[i] == 0;
    assert DecodeDirent(r).raw == EmptyDirent().raw;
  }

  // The block of slot i of x, in memory, is rewritten so that only that slot changes, to e.
  lemma SetSlot(v: Vol, dir: nat, x: Inode, i: nat, blk: Block, e: Dirent)
    requires InCore(v, dir, x) && i / 8 < 10 && x.direct[i / 8] != 0
    requires InData(v, x.direct[i / 8]) ==>
      forall k: nat :: k < 8 && k != i % 8 ==> DirentAt(blk, k) == DirentAt(v.data[x.direct[i / 8]], k)
    requires DirentAt(blk, i % 8) == e
    ensures InData(v, x.direct[i / 8])
    ensures
      var w := SetData(v, x.direct[i / 8], blk);
      && InCore(w, dir, x) && Frame(v, w, dir)
      && (forall j: nat {:trigger Entry(w.data, x, j)} ::
           Entry(w.data, x, j) == if j == i then e else Entry(v.data, x, j))
  {
    hide DirentAt;
    var u, p := With(v, dir, x), x.direct[i / 8];
    assert Slot(u, dir, i / 8) == p;
    OwnedDataSound(u, dir, i / 8, blk);
    var w := SetData(v, p, blk);
    assert With(w, dir, x) == SetData(u, p, blk);
    forall o: nat, k: nat | 1 <= o <= 256 && o != dir && k < 139
      ensures Slot(v, o, k) != p
    {
      assert Slot(u, o, k) == Slot(v, o, k);
    }
    forall j: nat
      ensures Entry(w.data, x, j) == if j == i then e else Entry(v.data, x, j)
    {
      if j / 8 < 10 && j / 8 != i / 8 {
        assert Slot(u, dir, j / 8) == x.direct[j / 8];
      }
    }
  }

  // An image between v and the end of a directory change: the record is still the old one and
  // lists the slots it did.
  ghost predicate Between(v: Vol, t: Vol, dir: nat) {
    && 1 <= dir <= 256 && Sound(t) && Frame(v, t, dir) && t.inodes == v.inodes
    && List(t, dir) == List(v, dir)
  }

  ghost predicate AllBetween(r: seq<Vol>, s: seq<Vol>, v: Vol, dir: nat) {
    r <= s && forall i {:trigger s[i]} :: |r| <= i < |s| ==> Between(v, s[i], dir)
  }

  // One slot is appended, and nothing else.
  ghost predicate Added(v: Vol, w: Vol, dir: nat, name: Name, ftype: Byte, child: U32) {
    && 1 <= dir <= 256 && Frame(v, w, dir)
    && w.inodes[dir].mode == v.inodes[dir].mode && w.inodes[dir].uid == v.inodes[dir].uid
    && w.inodes[dir].size == v.inodes[dir].size + 64
    && List(w, dir) == List(v, dir) + [Dirent(child, ftype, Padded(name))]
    && Slots(v.inodes[dir]) / 8 < 10 && w.inodes[dir].direct[Slots(v.inodes[dir]) / 8] != 0
  }

  // ensure_dir_block
  method EnsureDirBlock(d: Disk, x: Inode, bn: nat, ghost dir: nat) returns (r: int, y: Inode, blk: Block)
    requires d.Ok() && 1 <= dir <= 256 && x == d.vol.inodes[dir]
    modifies d`dev, d`vol, d`images, d`trace, d`sb, d`gd
    ensures d.Ok() && InCore(d.vol, dir, y) && d.sb.freeInodes == old(d.sb.freeInodes)
    ensures r == if bn < 10 && (x.direct[bn] != 0 || old(d.sb.freeBlocks) > 0) then FS_OK else FS_ENOSPC
    ensures r == FS_ENOSPC ==> d.vol == old(d.vol) && d.trace == old(d.trace) && d.sb == old(d.sb) && y == x
    ensures r == FS_OK ==> d.sb.freeBlocks == old(d.sb.freeBlocks) - if x.direct[bn] == 0 then 1 else 0
    ensures r == FS_OK ==>
      && y.direct[bn] != 0 && SameFile(x, y)
      && (forall k: nat :: k < 10 && x.direct[k] != 0 ==> y.direct[k] == x.direct[k])
      && InData(d.vol, y.direct[bn]) && blk == d.vol.data[y.direct[bn]]
    ensures AllBetween(old(d.trace), d.trace, old(d.vol), dir) && Frame(old(d.vol), d.vol, dir)
    ensures d.vol.inodes == old(d.vol).inodes
    ensures forall j: nat {:trigger Entry(d.vol.data, y, j)} :: Entry(d.vol.data, y, j) == Entry(old(d.vol).data, x, j)
  {
    ghost var v := d.vol;
    y, blk := x, ZeroBlock();
    Unwritten(v, dir, x, 0, d.trace);
    if bn >= NDIRECT {
      return FS_ENOSPC, y, blk;
    }
    if x.direct[bn] == 0 {
      var b := NewBlock(d, dir, x);
      if b < 0 {
        return FS_ENOSPC, y, blk;
      }
      y := x.(direct := x.direct[bn := b], blocks := (x.blocks + 1) % 0x1_0000_0000, ctime := d.clock);
      NewBlockSlots(v, d.vol, dir, x, b);
      NewPointer(d.vol, dir, x, y, bn, b);
      BehindSound(d.vol, dir, y);
      NewBlockEntries(v, d.vol, dir, x, y, bn, b);
      assert Sound(d.trace[|d.trace| - 2]) && Sound(d.trace[|d.trace| - 1]);
      assert Frame(v, d.trace[|d.trace| - 2], dir);
      NewBlockBetween(v, SetBlockBit(v, b, true), d.vol, dir, y, bn, b);
    } else {
      assert Slot(With(v, dir, x), dir, bn) == x.direct[bn];
      var e;
      e, blk := d.DevReadBlock(x.direct[bn]);
    }
    r := FS_OK;
  }

  // A zeroed block adds empty slots only.
  lemma NewBlockEntries(v: Vol, w: Vol, dir: nat, x: Inode, y: Inode, bn: nat, b: nat)
    requires InCore(v, dir, x) && InData(v, b) && Unowned(With(v, dir, x), b)
    requires w == SetData(SetBlockBit(v, b, true), b, ZeroBlock())
    requires bn < 10 && x.direct[bn] == 0 && y.direct == x.direct[bn := b]
    ensures forall j: nat {:trigger Entry(w.data, y, j)} :: Entry(w.data, y, j) == Entry(v.data, x, j)
  {
    forall j: nat
      ensures Entry(w.data, y, j) == Entry(v.data, x, j)
    {
      DirentZero(j % 8);
      if j / 8 < 10 {
        assert Slot(With(v, dir, x), dir, j / 8) == x.direct[j / 8] != b;
      }
    }
  }

  // The copy of the directory record on disk reads old slots as the copy in memory does.
  lemma BehindEntries(v: Vol, w: Vol, dir: nat, y: Inode, i: nat, e: Dirent)
    requires w.inodes == v.inodes && |w.data| == |v.data| && InCore(w, dir, y)
    requires forall j: nat {:trigger Entry(w.data, y, j)} ::
      Entry(w.data, y, j) == if j == i then e else Entry(v.data, v.inodes[dir], j)
    requires forall k: nat :: k < 10 && v.inodes[dir].direct[k] != 0 ==> y.direct[k] == v.inodes[dir].direct[k]
    ensures forall j: nat {:trigger Entry(w.data, v.inodes[dir], j)} :: j != i ==>
      Entry(w.data, v.inodes[dir], j) == Entry(v.data, v.inodes[dir], j)
  {
    hide DirentAt;
    forall j: nat | j != i
      ensures Entry(w.data, v.inodes[dir], j) == Entry(v.data, v.inodes[dir], j)
    {
      assert Entry(w.data, y, j) == Entry(v.data, v.inodes[dir], j);
    }
  }

  // The images of allocating a directory block.
  lemma NewBlockBetween(v: Vol, s: Vol, w: Vol, dir: nat, y: Inode, bn: nat, b: nat)
    requires 1 <= dir <= 256 && InCore(v, dir, v.inodes[dir]) && InData(v, b) && Unowned(With(v, dir, v.inodes[dir]), b)
    requires bn < 10 && v.inodes[dir].direct[bn] == 0 && y.direct == v.inodes[dir].direct[bn := b]
    requires y.ind == v.inodes[dir].ind
    requires s == SetBlockBit(v, b, true) && w == SetData(s, b, ZeroBlock())
    requires Sound(s) && Sound(w) && Frame(v, s, dir) && Frame(v, w, dir)
    ensures Between(v, s, dir) && Between(v, w, dir)
  {
    hide DirentAt, Sound, Frame;
    NewBlockEntries(v, w, dir, v.inodes[dir], y, bn, b);
    forall j: nat
      ensures Entry(s.data, v.inodes[dir], j) == Entry(v.data, v.inodes[dir], j)
      ensures Entry(w.data, v.inodes[dir], j) == Entry(v.data, v.inodes[dir], j)
    {
      assert Entry(w.data, y, j) == Entry(v.data, v.inodes[dir], j);
      if j / 8 == bn {
        assert Entry(w.data, v.inodes[dir], j) == EmptyDirent();
      }
    }
  }

  // The last image of the trace is the volume itself, the others lie between.
  ghost predicate Ends(r: seq<Vol>, s: seq<Vol>, v: Vol, dir: nat, z: Vol) {
    |r| < |s| && s[|s| - 1] == z && AllBetween(r, s[..|s| - 1], v, dir)
  }

  lemma EndsSound(r: seq<Vol>, s: seq<Vol>, v: Vol, dir: nat, z: Vol)
    requires Ends(r, s, v, dir, z) && Sound(z)
    ensures AllSound(r, s)
  {
    hide Sound;
    forall i | |r| <= i < |s|
      ensures Sound(s[i])
    {
      if i < |s| - 1 {
        assert s[..|s| - 1][i] == s[i];
      }
    }
    assert r <= s[..|s| - 1] <= s;
  }

  // There is room for one more slot.
  ghost predicate HasRoom(v: Vol, dir: nat, free: nat)
    requires 1 <= dir <= 256
  {
    var bn := Slots(v.inodes[dir]) / 8;
    bn < 10 && (v.inodes[dir].direct[bn] != 0 || free > 0)
  }

  // The limit of a directory in plain terms: 80 slots of 64 bytes in ten blocks, and a free block
  // where the next slot begins a block that is not there.
  lemma HasRoomIs(v: Vol, dir: nat, free: nat)
    requires 1 <= dir <= 256
    ensures HasRoom(v, dir, free)
      <==> v.inodes[dir].size < 80 * 64 && (free > 0 || v.inodes[dir].direct[v.inodes[dir].size / 512] != 0)
  {
  }

  lemma ListAppended(data: seq<Block>, x: Inode, data': seq<Block>, y: Inode, e: Dirent)
    requires y.size == x.size + 64
    requires forall j: nat {:trigger Entry(data', y, j)} ::
      Entry(data', y, j) == if j == Slots(x) then e else Entry(data, x, j)
    ensures Listing(data', y) == Listing(data, x) + [e]
  {
  }

  lemma ListSame(data: seq<Block>, data': seq<Block>, x: Inode)
    requires forall j: nat {:trigger Entry(data', x, j)} :: j != Slots(x) ==> Entry(data', x, j) == Entry(data, x, j)
    ensures Listing(data', x) == Listing(data, x)
  {
  }

  method DirAdd(d: Disk, dir: nat, name: Name, ftype: Byte, child: U32) returns (r: int)
    requires d.Ok()
    modifies d`dev, d`vol, d`images, d`trace, d`sb, d`gd
    ensures d.Ok() && d.sb.freeInodes == old(d.sb.freeInodes)
    ensures !(1 <= dir <= 256) ==> r == FS_ERR
    ensures 1 <= dir <= 256 && !IsDir(old(d.vol).inodes[dir]) ==> r == FS_ENOTDIR
    ensures 1 <= dir <= 256 && IsDir(old(d.vol).inodes[dir]) ==>
      r == if HasRoom(old(d.vol), dir, old(d.sb.freeBlocks)) then FS_OK else FS_ENOSPC
    // A directory has up to 80 slots.
    ensures 1 <= dir <= 256 && IsDir(old(d.vol).inodes[dir]) ==>
      && (old(d.vol).inodes[dir].size >= 80 * 64 ==> r == FS_ENOSPC)
      && (old(d.vol).inodes[dir].size < 80 * 64 && old(d.sb.freeBlocks) > 0 ==> r == FS_OK)
    ensures r != FS_OK ==> d.vol == old(d.vol) && d.trace == old(d.trace) && d.sb == old(d.sb)
    ensures r == FS_OK ==> Added(old(d.vol), d.vol, dir, name, ftype, child)
    ensures r == FS_OK ==>
      d.sb.freeBlocks == old(d.sb.freeBlocks)
        - if old(d.vol).inodes[dir].direct[Slots(old(d.vol).inodes[dir]) / 8] == 0 then 1 else 0
    ensures r == FS_OK ==> Ends(old(d.trace), d.trace, old(d.vol), dir, d.vol)
  {
    hide Recorded, Decodes, Sound, Frame, DirentAt, Entry, Listing, IsDir, Padded, InCore;
    var e, x := ReadInode(d, dir);
    if e != FS_OK {
      return FS_ERR;
    }
    if !IsDir(x) {
      return FS_ENOTDIR;
    }
    var idx := Slots(x);
    var bn := idx / 8;
    var y, blk;
    ghost var v := d.vol;
    r, y, blk := EnsureDirBlock(d, x, bn, dir);
    if r != FS_OK {
      return;
    }
    ghost var w, s := d.vol, d.trace;
    var de := PutDirent(blk, idx % 8, child, ftype, name);
    DirentAtPutDirent(blk, idx % 8, child, ftype, name);
    SetSlot(w, dir, y, idx, de, Dirent(child, ftype, Padded(name)));
    e := d.DevWriteData(de, y.direct[bn]);
    ghost var t := d.vol;
    BehindSound(t, dir, y);
    FrameTrans(v, w, t, dir);
    BehindEntries(v, t, dir, y, idx, Dirent(child, ftype, Padded(name)));
    ListSame(v.data, t.data, x);
    var z := y.(size := y.size + 64, mtime := d.clock);
    r := WriteInode(d, dir, z);
    assert d.trace[..|d.trace| - 1] == s + [t];
    Unwritten(v, dir, x, 0, []);
    Written(v, t, d.vol, dir, x, y, z, 0, [], d.trace, d.trace, d.trace + [d.vol]);
    SameEntries(d.vol.data, y, z);
    ListAppended(v.data, x, d.vol.data, z, Dirent(child, ftype, Padded(name)));
  }

  lemma SameEntries(data: seq<Block>, x: Inode, y: Inode)
    requires x.direct == y.direct
    ensures forall j: nat {:trigger Entry(data, y, j)} :: Entry(data, y, j) == Entry(data, x, j)
  {
  }

  // Slot i is emptied, and nothing else.
  ghost predicate Removed(v: Vol, w: Vol, dir: nat, i: nat) {
    && 1 <= dir <= 256 && Frame(v, w, dir) && w.bb == v.bb
    && (exists now: U32 :: w.inodes[dir] == v.inodes[dir].(mtime := now))
    && i < |List(v, dir)| == |List(w, dir)|
    && (forall j :: 0 <= j < |List(v, dir)| && j != i ==> List(w, dir)[j] == List(v, dir)[j])
    && List(w, dir)[i].ino == 0
  }

  method DirRemove(d: Disk, dir: nat, name: Name) returns (r: int)
    requires d.Ok()
    modifies d`dev, d`vol, d`images, d`trace
    ensures d.Ok()
    ensures !(1 <= dir <= 256) ==> r == FS_ERR
    ensures 1 <= dir <= 256 ==>
      var l := List(old(d.vol), dir);
      var i := FirstMatch(l, name);
      && r == (if i == |l| then FS_ENOENT else FS_OK)
      && (r == FS_OK ==> Removed(old(d.vol), d.vol, dir, i))
    ensures r != FS_OK ==> d.vol == old(d.vol) && d.trace == old(d.trace)
    ensures AllSound(old(d.trace), d.trace)
  {
    AllSoundRefl(d.trace);
    hide Recorded, Decodes, Sound, AllSound, Frame, DirentAt, Entry, NameIs, Removed, FirstMatch;
    var e, x := ReadInode(d, dir);
    if e != FS_OK {
      return FS_ERR;
    }
    var i, blk := FindSlot(d, x, name, dir);
    if i == Slots(x) {
      return FS_ENOENT;
    }
    ClearSlot(d, x, i, blk, dir);
    return FS_OK;
  }

  // The loop of dir_remove: the first slot that matches, with its block.
  method FindSlot(d: Disk, x: Inode, name: Name, ghost dir: nat) returns (i: nat, blk: Block)
    requires d.Ok() && 1 <= dir <= 256 && x == d.vol.inodes[dir]
    ensures i == FirstMatch(List(d.vol, dir), name) && i <= Slots(x) == |List(d.vol, dir)|
    ensures i < Slots(x) ==>
      && i / 8 < 10 && x.direct[i / 8] != 0
      && InData(d.vol, x.direct[i / 8]) && blk == d.vol.data[x.direct[i / 8]]
  {
    hide Recorded, Decodes, Sound, Frame, DirentAt, Entry, NameIs;
    ghost var l := List(d.vol, dir);
    i := 0;
    while i < Slots(x)
      invariant i <= Slots(x) && forall k :: 0 <= k < i ==> !Matches(l[k], name)
    {
      var ok, de;
      ok, de, blk := ReadSlot(d, x, i, dir);
      if ok && Matches(de, name) {
        FirstMatchIs(l, name, i);
        return;
      }
      AbsentSlot(d.vol.data, x, i);
      i := i + 1;
    }
    FirstMatchIs(l, name, |l|);
    blk := ZeroBlock();
  }

  method ClearSlot(d: Disk, x: Inode, i: nat, blk: Block, dir: nat)
    requires d.Ok() && 1 <= dir <= 256 && x == d.vol.inodes[dir] && i / 8 < 10 && x.direct[i / 8] != 0
    requires InData(d.vol, x.direct[i / 8]) && blk == d.vol.data[x.direct[i / 8]] && i < Slots(x)
    modifies d`dev, d`vol, d`images, d`trace
    ensures d.Ok() && Removed(old(d.vol), d.vol, dir, i) && AllSound(old(d.trace), d.trace)
  {
    hide Recorded, Decodes, Sound, Frame, DirentAt, Entry;
    ghost var v := d.vol;
    Unwritten(v, dir, x, 0, []);
    var c := ClearDirent(blk, i % 8);
    DirentAtClear(blk, i % 8);
    SetSlot(v, dir, x, i, c, DirentAt(c, i % 8));
    var e := d.DevWriteData(c, x.direct[i / 8]);
    ghost var t := d.vol;
    var z := x.(mtime := d.clock);
    e := WriteInode(d, dir, z);
    Written(v, t, d.vol, dir, x, x, z, 0, [], [], [], [d.vol]);
    BehindSound(t, dir, x);
    AllSoundPair(old(d.trace), t, d.vol);
    SameEntries(d.vol.data, x, z);
  }


  // ---- what adding and removing does to lookups

  // A name that was absent is found after it is added, as its first 55 bytes; no other lookup changes.
  lemma AddLookup(l: seq<Dirent>, name: Name, ftype: Byte, child: U32, q: Name)
    requires child != 0
    ensures LookupIn(l + [Dirent(child, ftype, Padded(name))], q)
      == if LookupIn(l, q).NotFound? && Clip(q, 56) == Clip(name, 55) then Found(child) else LookupIn(l, q)
  {
    hide NameIs, Padded;
    var e := Dirent(child, ftype, Padded(name));
    AddedMatch(name, child, ftype, q);
    var j := FirstMatch(l, q);
    if j == |l| && !Matches(e, q) {
      FirstMatchIs(l + [e], q, j + 1);
    } else {
      FirstMatchIs(l + [e], q, j);
    }
  }

  lemma AddedMatch(name: Name, child: U32, ftype: Byte, q: Name)
    ensures Matches(Dirent(child, ftype, Padded(name)), q) <==> child != 0 && Clip(q, 56) == Clip(name, 55)
  {
    PaddedName(name);
  }

  // Removing the first match of a name changes no other name's lookup.
  // Clearing a slot changes the lookups that ended there only.
  lemma ClearedLookup(l: seq<Dirent>, m: seq<Dirent>, i: nat, q: Name)
    requires i < |l| == |m| && m[i].ino == 0 && forall j :: 0 <= j < |l| && j != i ==> m[j] == l[j]
    ensures LookupIn(m, q) == LookupIn(l, q) || LookupIn(l, q) == Found(l[i].ino)
  {
    var j := FirstMatch(l, q);
    hide Clip, NameIs;
    if j != i {
      FirstMatchIs(m, q, j);
    }
  }

  lemma RemoveLookup(l: seq<Dirent>, m: seq<Dirent>, name: Name, q: Name)
    requires Clip(q, 56) != Clip(name, 56) && |m| == |l| && FirstMatch(l, name) < |l|
    requires forall j :: 0 <= j < |l| && j != FirstMatch(l, name) ==> m[j] == l[j]
    requires m[FirstMatch(l, name)].ino == 0
    ensures LookupIn(m, q) == LookupIn(l, q)
  {
    var i, j := FirstMatch(l, name), FirstMatch(l, q);
    if Matches(l[i], q) {
      OneName(l[i], name, q);
    }
    hide Clip, NameIs;
    FirstMatchIs(m, q, j);
  }

  // An entry matches names with the same first 56 bytes only.
  lemma OneName(e: Dirent, a: Name, b: Name)
    requires Matches(e, a) && Matches(e, b)
    ensures Clip(a, 56) == Clip(b, 56)
  {
  }

  // The removed name itself is then found where it matches next, if anywhere.
  lemma RemovedName(l: seq<Dirent>, m: seq<Dirent>, name: Name)
    requires |m| == |l| && FirstMatch(l, name) < |l|
    requires forall j :: 0 <= j < |l| && j != FirstMatch(l, name) ==> m[j] == l[j]
    requires m[FirstMatch(l, name)].ino == 0
    ensures LookupIn(m, name) == LookupIn(l[FirstMatch(l, name) + 1..], name)
  {
  }

  // The slots of a directory that a change to another inode leaves alone.
  lemma FrameList(v: Vol, w: Vol, ino: nat, o: nat)
    requires Frame(v, w, ino) && Sound(v) && 1 <= o <= 256 && o != ino
    ensures w.inodes[o] == v.inodes[o] && List(w, o) == List(v, o)
  {
    hide DirentAt;
    forall j: nat
      ensures Entry(w.data, w.inodes[o], j) == Entry(v.data, v.inodes[o], j)
    {
      if j / 8 < 10 {
        assert Slot(v, o, j / 8) == v.inodes[o].direct[j / 8];
      }
    }
  }
}
