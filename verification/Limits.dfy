/** How much the file system holds: what a file takes and gives back, the largest file, the fullest
    directory. */
module Limits {
  import opened Layout
  import opened Records
  import opened Volume
  import opened Device
  import opened FileIo
  import opened FileContent
  import opened Directory
  import opened Paths
  import opened Namespace
  import opened Files
  import opened Store
  import opened Accounts
  import opened Sessions
  import opened Deviations

  // ---- what a file takes

  lemma {:induction false} OwnedBelowCount(v: Vol, ino: nat, n: nat)
    requires Sound(v) && 1 <= ino <= 256 && n <= 138
    ensures |OwnedBelow(v, ino, n)| + |Absent(v.data, v.inodes[ino], 0, n)| == n
  {
    hide MapBn, Sound;
    if n > 0 {
      OwnedBelowCount(v, ino, n - 1);
      hide OwnedBelow;
      OwnedNext(v, ino, n - 1);
      AbsentNext(v.data, v.inodes[ino], n - 1);
      assert Slot(v, ino, n - 1) == MapBn(v.data, v.inodes[ino], n - 1);
    } else {
      assert OwnedBelow(v, ino, 0) == {};
      assert Absent(v.data, v.inodes[ino], 0, 0) == {};
    }
  }

  lemma AbsentNext(data: seq<Block>, x: Inode, n: nat)
    ensures |Absent(data, x, 0, n + 1)| == |Absent(data, x, 0, n)| + if MapBn(data, x, n) == 0 then 1 else 0
  {
    hide MapBn;
    var a, b := Absent(data, x, 0, n + 1), Absent(data, x, 0, n);
    assert a == b + if MapBn(data, x, n) == 0 then {n} else {};
  }

  // An inode owns one block for each logical block that it has, and its table.
  lemma OwnedCount(v: Vol, ino: nat)
    requires Sound(v) && 1 <= ino <= 256
    ensures
      var x := v.inodes[ino];
      |Owned(v, ino)| + |Absent(v.data, x, 0, 138)| == 138 + if x.ind != 0 then 1 else 0
  {
    hide Sound, MapBn, Absent;
    OwnedBelowCount(v, ino, 138);
    OwnedNext(v, ino, 138);
    assert Slot(v, ino, 138) == v.inodes[ino].ind;
  }

  // A file written from its start owns what the write needed.
  lemma WrittenOwns(v: Vol, w: Vol, ino: nat, len: nat)
    requires Sound(w) && 1 <= ino <= 256 && NoPointers(v.inodes[ino]) && 0 < len <= 70656
    requires Filled(v.data, v.inodes[ino], w.data, w.inodes[ino], 0, EndBlock(0, len))
    requires EndBlock(0, len) <= 10 ==> w.inodes[ino].ind == 0
    ensures |Owned(w, ino)| == Needed(v.data, v.inodes[ino], 0, EndBlock(0, len))
  {
    hide Sound;
    var x, y, n := v.inodes[ino], w.inodes[ino], EndBlock(0, len);
    OwnedCount(w, ino);
    HolesCount(w.data, y, 0, 138);
    HolesSplit(w.data, y, 0, n, 138);
    HolesNone(w.data, y, 0, n);
    assert forall k: nat :: MapBn(v.data, x, k) == 0;
    assert forall k: nat :: n <= k ==> MapBn(w.data, y, k) == MapBn(v.data, x, k);
    HolesAll(w.data, y, n, 138);
    HolesAll(v.data, x, 0, n);
    if n > 10 {
      HasTable(w.data, y, n - 1);
    }
  }

  lemma {:induction false} HolesNone(data: seq<Block>, x: Inode, lo: nat, hi: nat)
    requires forall k: nat :: lo <= k < hi ==> MapBn(data, x, k) != 0
    ensures Holes(data, x, lo, hi) == 0
    decreases hi - lo
  {
    hide MapBn;
    if lo < hi {
      HolesNone(data, x, lo + 1, hi);
    }
  }

  lemma {:induction false} HolesAll(data: seq<Block>, x: Inode, lo: nat, hi: nat)
    requires lo <= hi && forall k: nat :: lo <= k < hi ==> MapBn(data, x, k) == 0
    ensures Holes(data, x, lo, hi) == hi - lo
    decreases hi - lo
  {
    hide MapBn;
    if lo < hi {
      HolesAll(data, x, lo + 1, hi);
    }
  }

  // Creating a file, writing it and deleting it gives back every block and the inode; the directory
  // keeps the block that its entry may have taken.
  method CreateWriteDelete(d: Disk, path: Name, buf: seq<Byte>, ghost t: Tree)
    returns (fd: int, r: int, e: int)
    requires d.Ok() && NameTree(d.vol, t) && AtMember(t, d.cwd, path) && !AllUsed(d.ofile)
    requires Namei(d.vol, d.cwd, path).NotFound? && CanEnter(d.vol, d.cwd, path, d.sb)
    requires path != [] && 0 < |buf| <= 70656
    modifies d`dev, d`vol, d`images, d`trace, d`sb, d`gd, d`ofile
    ensures d.Ok() && fd >= 0 && e == FS_OK && d.sb.freeInodes == old(d.sb.freeInodes)
    ensures r == |buf| || r == FS_ENOSPC
    ensures r == |buf| ==>
      d.sb.freeBlocks == old(d.sb.freeBlocks) - EntryCost(old(d.vol), NameiParent(old(d.vol), d.cwd, path).ino)
  {
    hide Recorded, Decodes, Sound, AllSound, NameTree, Namei, NameiParent, Leaf, RawLeaf, AtMember, Entered, Discarded;
    hide CanEnter, Removed, List, Owned, Needed, Filled, Fits, Overlaid, MapBn, ByteAt, Steps, EntryCost, Absent;
    hide ParentAllocated, Segments, IsDir;
    ghost var v, x := d.vol, NewRecord(MODE_FILE, 1, d.uid, d.clock);
    ShortParent(v, d.cwd, path, d.sb);
    OwnerWrites(d.uid, d.clock);
    ghost var t', made;
    fd, t', made := FsOpen(d, path, [W], t);
    ghost var w := d.vol;
    CreatedNew(v, w, t, t', d.cwd, path, made, d.uid, d.clock);
    r := FsWrite(d, fd, buf);
    ghost var u := d.vol;
    WrittenNames(w, u, t', d.cwd, path, made);
    if r == |buf| {
      WrittenOwns(w, u, made, |buf|);
    }
    ghost var gone, y, p;
    e, gone, y, p := CmdDelete(d, path);
  }

  lemma ShortParent(v: Vol, cwd: U32, path: Name, c: Counters)
    requires CanEnter(v, cwd, path, c)
    ensures LastSlash(path) < 256 && NameiParent(v, cwd, path).Found?
  {
  }

  // The new file is there, empty, and its path may be deleted.
  lemma CreatedNew(v: Vol, w: Vol, t: Tree, t': Tree, cwd: U32, path: Name, ino: nat, uid: int, now: U32)
    requires NameTree(v, t) && Sound(v) && AtMember(t, cwd, path) && Namei(v, cwd, path).NotFound?
    requires NameiParent(v, cwd, path).Found? && path != []
    requires Entered(v, w, NameiParent(v, cwd, path).ino, Leaf(path), ino, NewRecord(MODE_FILE, 1, uid, now))
    requires t' == Grown(t, NameiParent(v, cwd, path).ino, ino) && NameTree(w, t')
    ensures 1 <= ino <= 256 && w.inodes[ino] == NewRecord(MODE_FILE, 1, uid, now) && !IsDir(w.inodes[ino]) && w.ib[ino]
    ensures Namei(w, cwd, path) == Found(ino) && AtMember(t', cwd, path)
    ensures NoPointers(w.inodes[ino])
  {
    hide NameTree, Sound, Namei, NameiParent, Leaf, List;
    FileType(uid, now);
    CreateResolves(v, w, t, cwd, path, ino, NewRecord(MODE_FILE, 1, uid, now));
  }

  // Writing the file leaves its path.
  lemma WrittenNames(v: Vol, w: Vol, t: Tree, cwd: U32, path: Name, ino: nat)
    requires NameTree(v, t) && Sound(v) && AtMember(t, cwd, path) && Frame(v, w, ino) && 1 <= ino <= 256
    requires !IsDir(v.inodes[ino])
    ensures NameTree(w, t) && Namei(w, cwd, path) == Namei(v, cwd, path) && w.ib[ino] == v.ib[ino]
    ensures !IsDir(w.inodes[ino])
  {
    hide List, Segments, IsDir, NameTree;
    ModeType(v, w, ino);
    FileStepTree(v, w, ino, t);
    MembersOf(v, t);
    forall c | c in t.parent && 1 <= c <= 256 && c != ino
      ensures w.inodes[c] == v.inodes[c] && List(w, c) == List(v, c)
    {
      FrameList(v, w, ino, c);
    }
    SameMembersLookups(v, w, t);
    WalkSame(v, w, t, Start(cwd, path), Segments(path));
  }

  // ---- the largest file

  // On a formatted volume of at least 211 blocks a new file takes any content of up to 70656 bytes,
  // across the border at 5120 bytes from the direct blocks to the table, and reads it back; one byte
  // more is refused.
  method LargestFile(d: Disk, buf: seq<Byte>) returns (fd: int, r: int, out: seq<Byte>)
    requires d.Valid() && d.total >= 211 && d.cwd == 1 && !AllUsed(d.ofile) && 0 < |buf| < 0x8000_0000
    modifies d`dev, d`vol, d`images, d`trace, d`sb, d`gd, d`ofile
    ensures d.Ok() && fd >= 0
    ensures if |buf| <= 70656 then r == |buf| && out == buf else r == FS_ENOSPC && out == []
  {
    hide Decodes, Recorded, Sound, AllSound, NameTree, Stored, StoredOrAbsent, HasRoom, EntryCost, List, OneBlock;
    hide IsDir, Steps, Lookup, OnlyUsers, Namei, NameiParent, Leaf, CanEnter, AtMember, Entered, Fits, CanMkdir;
    ghost var before := d.ofile;
    ghost var t, ino, s := FsFormat(d);
    ghost var v := d.vol;
    FormattedTree(v, t, ino, s);
    RoomInRoot(v, ino);
    NotYet(v, t, ino, d.sb);
    SameOpenAll(before, d.ofile, d.ofile);
    ghost var t', made;
    fd, t', made := FsOpen(d, D, [W], t);
    CreatedNew(v, d.vol, t, t', 1, D, made, d.uid, d.clock);
    OwnerWrites(d.uid, d.clock);
    OwnerMay(d.vol.inodes[made], d.uid);
    FitsIs(d.vol.data, d.vol.inodes[made], 0, |buf|, d.sb.freeBlocks);
    if |buf| <= 70656 {
      FitsPlenty(d.vol.data, d.vol.inodes[made], 0, |buf|, d.sb.freeBlocks);
    }
    r, out := WriteSeekRead(d, fd, buf);
  }

  lemma OwnerMay(x: Inode, uid: int)
    requires x.mode == MODE_FILE
    ensures PermCanRead(x, uid)
  {
  }

  // ---- the fullest directory

  // The name of the file number k.
  function NameOf(k: nat): Name
    requires k < 78
  {
    [128 + k]
  }

  // The root directory holds the dots, the users file and k files.
  ghost predicate FilledRoot(v: Vol, k: nat) {
    && k <= 77 && v.ib[1] && IsDir(v.inodes[1]) && |List(v, 1)| == 3 + k
    && EntryIs(List(v, 1)[0], 1, DOT) && EntryIs(List(v, 1)[1], 1, DOTDOT) && List(v, 1)[2].raw == Padded(USERS_LEAF)
    && forall j :: 0 <= j < k ==> List(v, 1)[3 + j].raw == Padded(NameOf(j))
  }

  lemma FilledStart(v: Vol, ino: nat)
    requires OnlyUsers(v, ino)
    ensures FilledRoot(v, 0)
  {
  }

  // The next name is not there.
  lemma NextAbsent(v: Vol, t: Tree, k: nat)
    requires FilledRoot(v, k) && NameTree(v, t)
    ensures
      var path := Below(NameOf(k));
      && Namei(v, 1, path).NotFound? && NameiParent(v, 1, path) == Found(1) && Leaf(path) == NameOf(k)
      && AtMember(t, 1, path) && ParentAllocated(v, 1, path) && LastSlash(path) == 0 && path != []
  {
    hide NameTree, List, HasRoom, Walk, Padded;
    var q, l := NameOf(k), List(v, 1);
    var path := Below(q);
    BelowRoot(v, t, 1, path, Counters(0, 0));
    NameiLeaf(v, 1, path);
    RootMember(v, t);
    DotsDiffer(l[0], l[1], q, 1, 1);
    forall j | 2 <= j < |l|
      ensures !Matches(l[j], q)
    {
      if j == 2 {
        OtherRaw(l[2], USERS_LEAF, q);
      } else {
        OtherRaw(l[j], NameOf(j - 3), q);
      }
    }
    FirstMatchIs(l, q, |l|);
  }

  lemma OtherRaw(e: Dirent, name: Name, q: Name)
    requires e.raw == Padded(name) && name != q && |name| <= 55 && |q| <= 55
    ensures !Matches(e, q)
  {
    PaddedName(name);
  }

  lemma FilledNext(v: Vol, w: Vol, k: nat, ino: nat, x: Inode)
    requires FilledRoot(v, k) && k < 77 && Entered(v, w, 1, NameOf(k), ino, x)
    ensures FilledRoot(w, k + 1)
  {
    hide List, Padded, CStr;
    EnteredList(v, w, 1, NameOf(k), ino, x);
    EnteredDir(v, w, 1, NameOf(k), ino, x);
  }

  lemma EnteredDir(v: Vol, w: Vol, dir: nat, leaf: Name, ino: nat, x: Inode)
    requires Entered(v, w, dir, leaf, ino, x) && v.ib[dir] && IsDir(v.inodes[dir])
    ensures w.ib[dir] && IsDir(w.inodes[dir])
  {
  }

  lemma FilledSize(v: Vol, k: nat)
    requires FilledRoot(v, k)
    ensures v.inodes[1].size / 64 == 3 + k && IsDir(v.inodes[1]) && v.ib[1]
  {
  }

  // On a formatted volume with blocks enough exactly 77 files can be created in the root directory
  // beside the three entries that it has: each of them is opened, and the next one is refused.
  method FullDirectory(d: Disk) returns (last: int)
    requires d.Valid() && d.total >= 149 && d.cwd == 1 && !AllUsed(d.ofile)
    modifies d`dev, d`vol, d`images, d`trace, d`sb, d`gd, d`ofile
    ensures d.Ok() && last == FS_ERR && |List(d.vol, 1)| == 80
    ensures forall j :: 0 <= j < 77 ==> List(d.vol, 1)[3 + j].raw == Padded(NameOf(j))
  {
    hide Decodes, Recorded, Sound, AllSound, NameTree, Stored, StoredOrAbsent, HasRoom, EntryCost, List, OneBlock;
    hide IsDir, Steps, OnlyUsers, Namei, NameiParent, Leaf, CanEnter, AtMember, Entered, FilledRoot, ParentAllocated;
    hide Below, Leaked;
    ghost var before := d.ofile;
    ghost var t, ino, s := FsFormat(d);
    FormattedTree(d.vol, t, ino, s);
    FilledStart(d.vol, ino);
    SameOpenAll(before, d.ofile, d.ofile);
    var k := 0;
    while k < 77
      invariant k <= 77 && d.Ok() && d.cwd == 1 && !AllUsed(d.ofile)
      invariant NameTree(d.vol, t) && FilledRoot(d.vol, k)
      invariant d.sb.freeInodes == 254 - k && d.sb.freeBlocks >= 78 - k
    {
      ghost var v, mid := d.vol, d.ofile;
      NextAbsent(v, t, k);
      FilledSize(v, k);
      CostAtMostOne(v, 1);
      CanEnterIs(v, 1, Below(NameOf(k)), d.sb);
      var fd;
      ghost var made;
      fd, t, made := FsOpen(d, Below(NameOf(k)), [W], t);
      FilledNext(v, d.vol, k, made, NewRecord(MODE_FILE, 1, d.uid, d.clock));
      var e := FsClose(d, fd);
      k := k + 1;
    }
    ghost var v := d.vol;
    NextAbsent(v, t, 77);
    FilledSize(v, 77);
    ghost var made;
    last, t, made := FsOpen(d, Below(NameOf(77)), [W], t);
    FullStays(v, d.vol, NewRecord(MODE_FILE, 1, d.uid, d.clock));
  }

  lemma CostAtMostOne(v: Vol, dir: nat)
    ensures EntryCost(v, dir) <= 1
  {
  }

  lemma FullStays(v: Vol, w: Vol, x: Inode)
    requires FilledRoot(v, 77) && Leaked(v, w, x)
    ensures |List(w, 1)| == 80 && forall j :: 0 <= j < 77 ==> List(w, 1)[3 + j].raw == Padded(NameOf(j))
  {
    assert w.inodes[1] == v.inodes[1] && w.data == v.data;
    hide List, Padded;
    assert List(w, 1) == List(v, 1);
  }
}
