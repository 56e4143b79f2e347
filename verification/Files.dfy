/** fs_open of file.c, cmd_mkdir and cmd_delete of cli.c: the operations on names. */
module Files {
  import opened Layout
  import opened Records
  import opened Volume
  import opened Device
  import opened Bitmap
  import opened InodeTable
  import opened FileIo
  import opened Directory
  import opened Paths
  import opened Namespace

  // The record that a new file or directory starts with.
  function NewRecord(mode: U16, links: U16, uid: int, now: U32): Inode {
    Inode(mode, uid % 0x1_0000, 0, now, now, now, 0, links, 0, NO_POINTERS, 0)
  }

  // Inode i is taken and gets the record x.
  ghost function WithNew(v: Vol, i: nat, x: Inode): Vol
    requires 1 <= i <= 256
  {
    With(SetInodeBit(v, i, true), i, x)
  }

  lemma WithNewTree(v: Vol, i: nat, x: Inode, t: Tree)
    requires Sound(v) && 1 <= i <= 256 && !v.ib[i] && NoPointers(x)
    ensures Sound(SetInodeBit(v, i, true)) && Sound(WithNew(v, i, x))
    ensures NameTree(v, t) ==>
      && i !in t.parent && SameMembers(v, WithNew(v, i, x), t)
      && NameTree(SetInodeBit(v, i, true), t) && NameTree(WithNew(v, i, x), t)
  {
    hide Entry, Sound;
    InodeBitSound(v, i, true);
    var w := SetInodeBit(v, i, true);
    BlankSound(w, i, x);
    if NameTree(v, t) {
      assert SameMembers(v, w, t) && SameMembers(v, WithNew(v, i, x), t);
      SameMembersTree(v, w, t);
      SameMembersTree(v, WithNew(v, i, x), t);
    }
  }

  // The images from the end of r on are sound and keep the tree t.
  ghost predicate AllSteps(r: seq<Vol>, s: seq<Vol>, t: Tree) {
    r <= s && forall i {:trigger s[i]} :: |r| <= i < |s| ==> Sound(s[i]) && NameTree(s[i], t)
  }

  // The images from the end of r on are sound and keep the tree t, unless they are the volume w
  // that the operation ends with.
  ghost predicate Steps(r: seq<Vol>, s: seq<Vol>, t: Tree, w: Vol) {
    r <= s && forall i {:trigger s[i]} :: |r| <= i < |s| ==> Sound(s[i]) && (NameTree(s[i], t) || s[i] == w)
  }

  // alloc_inode and write_inode of a new record.
  method NewInode(d: Disk, x: Inode, ghost t: Tree) returns (r: int)
    requires d.Ok() && NoPointers(x)
    modifies d`dev, d`vol, d`images, d`trace, d`sb, d`gd
    ensures d.Ok() && d.sb.freeBlocks == old(d.sb.freeBlocks) && AllSound(old(d.trace), d.trace)
    ensures r == FS_ENOSPC <==> old(d.sb.freeInodes) == 0
    ensures r != FS_ENOSPC ==> d.sb.freeInodes == old(d.sb.freeInodes) - 1
    ensures r == FS_ENOSPC ==> d.vol == old(d.vol) && d.trace == old(d.trace) && d.sb == old(d.sb)
    ensures r != FS_ENOSPC ==> 1 <= r <= 256 && !old(d.vol).ib[r] && d.vol == WithNew(old(d.vol), r, x)
    ensures r != FS_ENOSPC && NameTree(old(d.vol), t) ==>
      r !in t.parent && SameMembers(old(d.vol), d.vol, t) && NameTree(d.vol, t)
    ensures NameTree(old(d.vol), t) ==> AllSteps(old(d.trace), d.trace, t)
  {
    hide Recorded, Decodes, Sound, NameTree;
    ghost var v := d.vol;
    r := AllocInode(d);
    if r < 0 {
      return;
    }
    var e := WriteInode(d, r, x);
    WithNewTree(v, r, x, t);
  }

  ghost predicate AtMember(t: Tree, cwd: U32, path: Name) {
    Start(cwd, path) in t.parent
  }

  // A new inode is entered in a directory, under the first 55 bytes of the leaf.
  ghost predicate Entered(v: Vol, w: Vol, dir: nat, leaf: Name, ino: nat, x: Inode) {
    && 1 <= dir <= 256 && 1 <= ino <= 256 && !v.ib[ino] && IsDir(WithNew(v, ino, x).inodes[dir])
    && Added(WithNew(v, ino, x), w, dir, leaf, TypeOf(x), ino)
  }

  // The images of dir_add, after those of a new inode.
  lemma StepsEnd(r: seq<Vol>, s: seq<Vol>, q: seq<Vol>, v: Vol, w: Vol, dir: nat, t: Tree)
    requires AllSteps(r, s, t) && Ends(s, q, v, dir, w) && Sound(v) && Sound(w) && NameTree(v, t)
    ensures Steps(r, q, t, w)
    ensures NameTree(w, t) ==> AllSteps(r, q, t)
  {
    hide NameTree;
    assert s <= q[..|q| - 1] <= q;
    forall i | |r| <= i < |q|
      ensures Sound(q[i]) && (NameTree(q[i], t) || q[i] == w)
    {
      if i < |s| {
        assert q[i] == s[i];
      } else if i < |q| - 1 {
        assert q[..|q| - 1][i] == q[i];
        BetweenTree(v, q[i], dir, t);
      }
    }
  }

  // At most an inode was taken, and given the record x.
  ghost predicate Leaked(v: Vol, w: Vol, x: Inode) {
    w == v || exists i: nat {:trigger v.ib[i]} :: 1 <= i <= 256 && !v.ib[i] && w == WithNew(v, i, x)
  }

  // The parent part of the path resolves to an allocated directory with room, and an inode is free.
  ghost predicate CanEnter(v: Vol, cwd: U32, path: Name, c: Counters) {
    var p := NameiParent(v, cwd, path);
    && LastSlash(path) < 256 && c.freeInodes > 0
    && p.Found? && 1 <= p.ino <= 256 && v.ib[p.ino] && IsDir(v.inodes[p.ino]) && HasRoom(v, p.ino, c.freeBlocks)
  }

  // The directory that the parent part names is an allocated inode, as any in a tree of names is.
  ghost predicate ParentAllocated(v: Vol, cwd: U32, path: Name) {
    var p := NameiParent(v, cwd, path);
    p.Found? && 1 <= p.ino <= 256 && v.ib[p.ino]
  }

  // When a creation can succeed, in plain terms.
  lemma CanEnterIs(v: Vol, cwd: U32, path: Name, c: Counters)
    requires ParentAllocated(v, cwd, path)
    ensures
      var x := v.inodes[NameiParent(v, cwd, path).ino];
      var room := x.size < 80 * 64 && (c.freeBlocks > 0 || x.direct[x.size / 512] != 0);
      CanEnter(v, cwd, path, c) <==> LastSlash(path) <= 255 && c.freeInodes > 0 && IsDir(x) && room
  {
    HasRoomIs(v, NameiParent(v, cwd, path).ino, c.freeBlocks);
  }

  // What fs_open answers when it creates nothing.
  ghost function CreateError(v: Vol, cwd: U32, path: Name, c: Counters): int {
    if LastSlash(path) < 256 && NameiParent(v, cwd, path).Found? && c.freeInodes == 0 then FS_ENOSPC else FS_ERR
  }

  // Blocks that one more entry takes.
  ghost function EntryCost(v: Vol, dir: nat): nat {
    if 1 <= dir <= 256 && Slots(v.inodes[dir]) / 8 < 10 && v.inodes[dir].direct[Slots(v.inodes[dir]) / 8] == 0 then 1
    else 0
  }

  // The part of fs_open that creates: resolves the parent, takes an inode, enters the leaf.
  method CreateFile(d: Disk, path: Name, ghost t: Tree) returns (r: int, ghost s: Tree)
    requires d.Ok()
    modifies d`dev, d`vol, d`images, d`trace, d`sb, d`gd
    ensures d.Ok() && r != 0 && r <= 256
    ensures r > 0 ==>
      var p := NameiParent(old(d.vol), d.cwd, path);
      p.Found? && Entered(old(d.vol), d.vol, p.ino, Leaf(path), r, NewRecord(MODE_FILE, 1, d.uid, d.clock))
    ensures CanEnter(old(d.vol), d.cwd, path, old(d.sb)) ==>
      && r > 0 && d.sb.freeInodes == old(d.sb.freeInodes) - 1
      && d.sb.freeBlocks == old(d.sb.freeBlocks) - EntryCost(old(d.vol), NameiParent(old(d.vol), d.cwd, path).ino)
    ensures r > 0 && ParentAllocated(old(d.vol), d.cwd, path) ==> CanEnter(old(d.vol), d.cwd, path, old(d.sb))
    ensures r < 0 ==> r == CreateError(old(d.vol), d.cwd, path, old(d.sb))
    ensures AllSound(old(d.trace), d.trace)
    ensures NameTree(old(d.vol), t) ==> Steps(old(d.trace), d.trace, t, d.vol)
    ensures NameTree(old(d.vol), t) && AtMember(t, d.cwd, path) ==>
      NameTree(d.vol, s) && s == if r > 0 then Grown(t, NameiParent(old(d.vol), d.cwd, path).ino, r) else t
    ensures r < 0 ==> Leaked(old(d.vol), d.vol, NewRecord(MODE_FILE, 1, d.uid, d.clock)) && s == t
  {
    hide Recorded, Decodes, Sound, AllSound, NameTree, Added, Ends, Leaf, Walk, Segments, List, IsDir;
    AllSoundRefl(d.trace);
    s := t;
    ghost var v := d.vol;
    var n := LastSlash(path);
    var dir := d.cwd;
    SameMembersRefl(v, t);
    if n >= 0 {
      if n >= 256 {
        return FS_ERR, s;
      }
      var e;
      e, dir := FsNamei(d, ParentPath(path));
      if e != FS_OK {
        return FS_ERR, s;
      }
    }
    var x := NewRecord(MODE_FILE, 1, d.uid, d.clock);
    assert TypeOf(x) == FT_REG && !IsDir(x) by {
      FileType(d.uid, d.clock);
    }
    r := NewInode(d, x, t);
    if r < 0 {
      return r, s;
    }
    ghost var u, m := d.vol, d.trace;
    var e := DirAdd(d, dir, Leaf(path), FT_REG, r);
    if e != FS_OK {
      return FS_ERR, s;
    }
    EndsSound(m, d.trace, u, dir, d.vol);
    AllSoundTrans(old(d.trace), m, d.trace);
    if NameTree(v, t) {
      StepsEnd(old(d.trace), m, d.trace, u, d.vol, dir, t);
      if AtMember(t, d.cwd, path) {
        ParentMember(v, t, d.cwd, path);
        AddedTree(u, d.vol, t, dir, Leaf(path), r);
        s := Grown(t, dir, r);
      }
    }
  }

  lemma FileType(uid: int, now: U32)
    ensures !IsDir(NewRecord(MODE_FILE, 1, uid, now)) && TypeOf(NewRecord(MODE_FILE, 1, uid, now)) == FT_REG
    ensures IsDir(NewRecord(MODE_DIR, 2, uid, now)) && TypeOf(NewRecord(MODE_DIR, 2, uid, now)) == FT_DIR
  {
  }

  lemma StepsRefl(r: seq<Vol>, t: Tree, w: Vol)
    ensures Steps(r, r, t, w)
  {
  }

  lemma SameMembersRefl(v: Vol, t: Tree)
    ensures SameMembers(v, v, t)
  {
  }

  // The directory that the parent part of a path names is a member.
  lemma ParentMember(v: Vol, t: Tree, cwd: U32, path: Name)
    requires NameTree(v, t) && AtMember(t, cwd, path) && NameiParent(v, cwd, path).Found?
    ensures NameiParent(v, cwd, path).ino in t.parent
  {
    hide Lookup, NameTree, Segments;
    if LastSlash(path) >= 0 {
      assert Start(cwd, ParentPath(path)) == Start(cwd, path);
      WalkMember(v, t, Start(cwd, path), Segments(ParentPath(path)));
    }
  }

  const W: Byte := 119

  // What fs_open answers for a path that resolves to ino.
  ghost predicate OpenedExisting(v: Vol, uid: int, before: seq<OpenFile>, after: seq<OpenFile>, ino: nat,
                                 writable: bool, r: int) {
    if !(1 <= ino <= 256) then r == FS_ERR && after == before
    else if !(if writable then PermCanWrite(v.inodes[ino], uid) else PermCanRead(v.inodes[ino], uid)) then
      r == FS_EPERM && after == before
    else TookFd(before, after, ino, writable, r)
  }

  ghost predicate TookFd(before: seq<OpenFile>, after: seq<OpenFile>, ino: nat, writable: bool, r: int) {
    if forall i :: 0 <= i < |before| ==> before[i].used then r == FS_ERR && after == before
    else
      && 0 <= r < |before| && !before[r].used && ino < 0x1_0000_0000
      && (forall i :: 0 <= i < r ==> before[i].used)
      && after == before[r := OpenFile(true, ino, 0, writable)]
  }

  // The first free slot of the open-file table.
  method TakeFd(d: Disk, ino: U32, writable: bool) returns (fd: int)
    requires d.Valid()
    modifies d`ofile
    ensures d.Valid() && TookFd(old(d.ofile), d.ofile, ino, writable, fd)
  {
    hide Recorded, Decodes;
    for i := 0 to MAX_OPEN
      invariant d.ofile == old(d.ofile) && forall j :: 0 <= j < i ==> d.ofile[j].used
    {
      if !d.ofile[i].used {
        d.ofile := d.ofile[i := OpenFile(true, ino, 0, writable)];
        return i;
      }
    }
    fd := FS_ERR;
  }

  method OpenExisting(d: Disk, ino: U32, writable: bool) returns (r: int)
    requires d.Ok()
    modifies d`ofile
    ensures d.Ok() && OpenedExisting(d.vol, d.uid, old(d.ofile), d.ofile, ino, writable, r)
  {
    hide Recorded, Decodes, Sound, PermCanRead, PermCanWrite;
    var e, x := ReadInode(d, ino);
    if e != FS_OK {
      return FS_ERR;
    }
    if !(if writable then PermCanWrite(x, d.uid) else PermCanRead(x, d.uid)) {
      return FS_EPERM;
    }
    r := TakeFd(d, ino, writable);
  }

  // fs_open: an existing path is opened after a check of permissions, an absent one is created
  // when the mode asks for writing. made is the inode created, 0 when there is none.
  method FsOpen(d: Disk, path: Name, mode: seq<Byte>, ghost t: Tree) returns (r: int, ghost s: Tree, ghost made: nat)
    requires d.Ok()
    modifies d`dev, d`vol, d`images, d`trace, d`sb, d`gd, d`ofile
    ensures d.Ok()
    ensures var f := Namei(old(d.vol), d.cwd, path);
      && (f.Found? || W !in mode ==>
            d.vol == old(d.vol) && d.trace == old(d.trace) && d.sb == old(d.sb) && made == 0 && s == t)
      && (f.Found? ==> OpenedExisting(old(d.vol), d.uid, old(d.ofile), d.ofile, f.ino, W in mode, r))
      && (f.NotFound? && W !in mode ==> r == f.err && d.ofile == old(d.ofile))
    ensures CanEnter(old(d.vol), d.cwd, path, old(d.sb)) && Namei(old(d.vol), d.cwd, path).NotFound? && W in mode ==>
      TookFd(old(d.ofile), d.ofile, made, true, r)
    ensures CanEnter(old(d.vol), d.cwd, path, old(d.sb)) && Namei(old(d.vol), d.cwd, path).NotFound? && W in mode ==>
      && made != 0 && d.sb.freeInodes == old(d.sb.freeInodes) - 1
      && d.sb.freeBlocks == old(d.sb.freeBlocks) - EntryCost(old(d.vol), NameiParent(old(d.vol), d.cwd, path).ino)
    ensures made != 0 && ParentAllocated(old(d.vol), d.cwd, path) ==> CanEnter(old(d.vol), d.cwd, path, old(d.sb))
    // Into an allocated directory of less than 80 slots a file can be created as long as an inode and
    // a block are free; into one of 80 slots none.
    ensures
      ParentAllocated(old(d.vol), d.cwd, path) && Namei(old(d.vol), d.cwd, path).NotFound? && W in mode ==>
        var x := old(d.vol).inodes[NameiParent(old(d.vol), d.cwd, path).ino];
        var enough := old(d.sb.freeInodes) > 0 && old(d.sb.freeBlocks) > 0;
        && (x.size >= 80 * 64 ==> made == 0)
        && (IsDir(x) && x.size < 80 * 64 && LastSlash(path) <= 255 && enough ==> made != 0)
    ensures AllSound(old(d.trace), d.trace)
    ensures made != 0 ==>
      var p := NameiParent(old(d.vol), d.cwd, path);
      && Namei(old(d.vol), d.cwd, path).NotFound? && W in mode && p.Found?
      && Entered(old(d.vol), d.vol, p.ino, Leaf(path), made, NewRecord(MODE_FILE, 1, d.uid, d.clock))
      && TookFd(old(d.ofile), d.ofile, made, true, r)
    ensures Namei(old(d.vol), d.cwd, path).NotFound? && made == 0 ==>
      && (W in mode ==> r == CreateError(old(d.vol), d.cwd, path, old(d.sb)))
      && r < 0 && d.ofile == old(d.ofile) && s == t
      && Leaked(old(d.vol), d.vol, NewRecord(MODE_FILE, 1, d.uid, d.clock))
    ensures NameTree(old(d.vol), t) ==> Steps(old(d.trace), d.trace, t, d.vol)
    ensures NameTree(old(d.vol), t) && AtMember(t, d.cwd, path) ==>
      NameTree(d.vol, s) && s == if made != 0 then Grown(t, NameiParent(old(d.vol), d.cwd, path).ino, made) else t
  {
    hide Recorded, Decodes, Sound, AllSound, NameTree, Entered, Namei, NameiParent, OpenedExisting, Steps, TookFd;
    hide AtMember, SameMembers;
    StepsRefl(d.trace, t, d.vol);
    AllSoundRefl(d.trace);
    ghost var v := d.vol;
    s, made := t, 0;
    var writable := W in mode;
    var e, ino := FsNamei(d, path);
    if e != FS_OK {
      NameiError(v, d.cwd, path);
      if !writable {
        return e, s, made;
      }
      var nino;
      nino, s := CreateFile(d, path, t);
      if nino < 0 {
        return nino, s, made;
      }
      made := nino;
      r := TakeFd(d, nino, true);
    } else {
      r := OpenExisting(d, ino, writable);
    }
  }

  // The errors of namei are negative.
  lemma NameiError(v: Vol, cwd: U32, path: Name)
    requires Namei(v, cwd, path).NotFound?
    ensures Namei(v, cwd, path).err < 0
  {
    hide Lookup;
    if path != [] {
      WalkError(v, Start(cwd, path), Segments(path));
    }
  }

  lemma {:induction false} WalkError(v: Vol, cur: nat, segs: seq<Name>)
    requires cur < 0x1_0000_0000 && Walk(v, cur, segs).NotFound?
    ensures Walk(v, cur, segs).err < 0
    decreases |segs|
  {
    hide List;
    if Lookup(v, cur, segs[0]).Found? {
      WalkError(v, Lookup(v, cur, segs[0]).ino, segs[1..]);
    }
  }

  // ---- what creating a name does to the other names

  // One name, cut to 55 bytes, is looked up in the current directory, and behind a slash in the root.
  lemma NameiOne(v: Vol, cwd: U32, name: Name)
    requires name != [] && 47 !in name
    ensures Namei(v, cwd, name) == Lookup(v, cwd, Clip(name, 55))
    ensures Namei(v, cwd, [47] + name) == Lookup(v, 1, Clip(name, 55))
  {
    hide Lookup, Segments;
    LeafSegment(name);
    assert name[0] in name;
    WalkOne(v, cwd, Clip(name, 55));
    SegmentsEnd();
    SegmentsSplit([], name);
    assert [] + [SLASH] + name == [47] + name;
    assert Segments([]) + Segments(name) == Segments(name);
    WalkOne(v, 1, Clip(name, 55));
  }

  // A path to a directory, followed by "/.", leads to the directory, and by "/.." to the one that
  // holds it.
  lemma NameiDots(v: Vol, t: Tree, cwd: U32, path: Name, d: U32)
    requires NameTree(v, t) && AtMember(t, cwd, path) && path != [] && Namei(v, cwd, path) == Found(d)
    requires 1 <= d <= 256 && IsDir(v.inodes[d])
    ensures Namei(v, cwd, path + [SLASH] + DOT) == Found(d)
    ensures Namei(v, cwd, path + [SLASH] + DOTDOT).Found? && Namei(v, cwd, path + [SLASH] + DOTDOT).ino == Up(t, d)
  {
    hide Lookup, Segments, NameTree;
    var c := Start(cwd, path);
    NameiMember(v, t, cwd, path);
    Dots(v, t, d);
    LeafSegment(DOT);
    LeafSegment(DOTDOT);
    assert Clip(DOT, 55) == DOT && Clip(DOTDOT, 55) == DOTDOT;
    SegmentsSplit(path, DOT);
    SegmentsSplit(path, DOTDOT);
    WalkSplit(v, c, Segments(path), [DOT]);
    WalkSplit(v, c, Segments(path), [DOTDOT]);
    WalkOne(v, d, DOT);
    WalkOne(v, d, DOTDOT);
    assert Start(cwd, path + [SLASH] + DOT) == c && Start(cwd, path + [SLASH] + DOTDOT) == c;
  }

  // A path with an empty leaf resolves as its parent part does.
  lemma EmptyLeaf(v: Vol, cwd: U32, path: Name)
    requires path != [] && Leaf(path) == []
    ensures LastSlash(path) >= 0 && Namei(v, cwd, path) == NameiParent(v, cwd, path)
  {
    hide Lookup;
    var n := LastSlash(path);
    assert path[n + 1..] == [];
    assert n == |path| - 1;
    var a := path[..n];
    assert path == a + [SLASH] + [];
    SegmentsSplit(a, []);
    SegmentsEnd();
    assert Segments([SLASH]) == [] by {
      assert [SLASH][1..] == [];
    }
    assert Segments(a) + [] == Segments(a);
    assert Segments(ParentPath(path)) == Segments(a);
  }

  // Entering a new inode changes no lookup that succeeded in a member.
  lemma EnteredLookups(v: Vol, w: Vol, t: Tree, dir: nat, leaf: Name, ino: nat, x: Inode)
    requires NameTree(v, t) && Sound(v) && NoPointers(x) && Entered(v, w, dir, leaf, ino, x)
    ensures LookupsKept(v, w, t)
  {
    hide List, Sound, Added;
    WithNewTree(v, ino, x, t);
    var u := WithNew(v, ino, x);
    SameMembersLookups(v, u, t);
    AddedLookups(u, w, t, dir, leaf, TypeOf(x), ino);
    hide Lookup;
    forall d: nat, q: Name | d in t.parent && Lookup(v, d, q).Found?
      ensures Lookup(w, d, q) == Lookup(v, d, q)
    {
      assert Lookup(u, d, q) == Lookup(v, d, q);
    }
  }

  lemma NameiKept(v: Vol, w: Vol, t: Tree, cwd: U32, path: Name)
    requires NameTree(v, t) && LookupsKept(v, w, t) && AtMember(t, cwd, path) && Namei(v, cwd, path).Found?
    ensures Namei(w, cwd, path) == Namei(v, cwd, path)
  {
    hide Lookup, Segments;
    WalkKept(v, w, t, Start(cwd, path), Segments(path));
  }

  // After fs_open creates a file, namei of the path gives the new inode exactly when the path is
  // not empty (an empty path is rejected by namei but created, under an empty name, by fs_open);
  // every path that resolved resolves to the same inode; and the name was not there before.
  lemma CreateResolves(v: Vol, w: Vol, t: Tree, cwd: U32, path: Name, ino: nat, x: Inode)
    requires NameTree(v, t) && Sound(v) && AtMember(t, cwd, path) && NoPointers(x)
    requires Namei(v, cwd, path).NotFound? && NameiParent(v, cwd, path).Found?
    requires Entered(v, w, NameiParent(v, cwd, path).ino, Leaf(path), ino, x)
    ensures Namei(w, cwd, path) == Found(ino) <==> path != []
    ensures forall p: Name :: AtMember(t, cwd, p) && Namei(v, cwd, p).Found? ==> Namei(w, cwd, p) == Namei(v, cwd, p)
    ensures path != [] ==> Lookup(v, NameiParent(v, cwd, path).ino, Leaf(path)) == NotFound(FS_ENOENT)
  {
    hide Segments, Leaf, LookupsKept;
    var dir := NameiParent(v, cwd, path).ino;
    EnteredLookups(v, w, t, dir, Leaf(path), ino, x);
    forall p: Name | AtMember(t, cwd, p) && Namei(v, cwd, p).Found?
      ensures Namei(w, cwd, p) == Namei(v, cwd, p)
    {
      NameiKept(v, w, t, cwd, p);
    }
    if path != [] {
      if Leaf(path) == [] {
        EmptyLeaf(v, cwd, path);
        assert false;
      }
      NameiLeaf(v, cwd, path);
      NameiLeaf(w, cwd, path);
      ParentMember(v, t, cwd, path);
      assert NameiParent(w, cwd, path) == Found(dir);
      EnteredLeaf(v, w, t, dir, Leaf(path), ino, x);
    }
  }

  lemma EnteredLeaf(v: Vol, w: Vol, t: Tree, dir: nat, leaf: Name, ino: nat, x: Inode)
    requires NameTree(v, t) && Sound(v) && NoPointers(x) && Entered(v, w, dir, leaf, ino, x)
    requires dir in t.parent && |leaf| <= 55 && Lookup(v, dir, leaf).NotFound?
    ensures Lookup(v, dir, leaf) == NotFound(FS_ENOENT) && Lookup(w, dir, leaf) == Found(ino)
  {
    hide Sound, Matches, Padded;
    WithNewTree(v, ino, x, t);
    var u := WithNew(v, ino, x);
    assert List(u, dir) == List(v, dir) && IsDir(v.inodes[dir]);
    AddLookup(List(u, dir), leaf, TypeOf(x), ino, leaf);
  }

  // ---- mkdir

  // The two dots in a new directory: they are written exactly when a block is free.
  method AddDots(d: Disk, ino: U32, parent: U32, ghost t: Tree, ghost named: bool, ghost r0: seq<Vol>)
    requires d.Ok() && 1 <= ino <= 256 && IsDir(d.vol.inodes[ino]) && d.vol.inodes[ino].size == 0
    requires d.vol.inodes[ino].direct == NO_POINTERS
    requires named ==> NameTree(d.vol, t) && ino !in t.parent && AllSteps(r0, d.trace, t)
    modifies d`dev, d`vol, d`images, d`trace, d`sb, d`gd
    ensures d.Ok() && Frame(old(d.vol), d.vol, ino) && d.vol.inodes[ino].mode == old(d.vol).inodes[ino].mode
    ensures if old(d.sb.freeBlocks) > 0 then FreshDir(d.vol, ino, parent) else d.vol == old(d.vol) && d.sb == old(d.sb)
    ensures old(d.sb.freeBlocks) > 0 ==> d.sb == old(d.sb).(freeBlocks := old(d.sb.freeBlocks) - 1)
    ensures old(d.sb.freeBlocks) > 0 ==> d.vol.inodes[ino].size == 128 && d.vol.inodes[ino].direct[0] != 0
    ensures named ==> NameTree(d.vol, t) && AllSteps(r0, d.trace, t)
    ensures AllSound(old(d.trace), d.trace)
  {
    hide Recorded, Decodes, Sound, AllSound, NameTree, Entry, IsDir, Ends, CStr;
    AllSoundRefl(d.trace);
    ghost var u, m := d.vol, d.trace;
    FrameRefl(u, ino);
    var e := DirAdd(d, ino, DOT, FT_DIR, ino);
    ghost var u1, m1 := d.vol, d.trace;
    if e == FS_OK {
      EndsSound(m, m1, u, ino, u1);
      if named {
        FileStepTree(u, u1, ino, t);
        StepsEnd(r0, m, m1, u, u1, ino, t);
      }
      assert List(u1, ino) == [Dirent(ino, FT_DIR, Padded(DOT))];
    }
    ModeType(u, u1, ino);
    e := DirAdd(d, ino, DOTDOT, FT_DIR, parent);
    if e == FS_OK {
      FrameTrans(u, u1, d.vol, ino);
      EndsSound(m1, d.trace, u1, ino, d.vol);
      AllSoundTrans(m, m1, d.trace);
      if named {
        FileStepTree(u1, d.vol, ino, t);
        StepsEnd(r0, m1, d.trace, u1, d.vol, ino, t);
      }
      PaddedName(DOT);
      PaddedName(DOTDOT);
    }
  }

  lemma FrameRefl(v: Vol, ino: nat)
    ensures Frame(v, v, ino)
  {
  }

  lemma ModeType(v: Vol, w: Vol, ino: nat)
    requires 1 <= ino <= 256 && v.inodes[ino].mode == w.inodes[ino].mode
    ensures IsDir(v.inodes[ino]) == IsDir(w.inodes[ino])
  {
  }

  // What entering a directory does: u is the volume with the new inode ino, outside the tree t,
  // as mkdir filled it, and w has its entry.
  ghost predicate Linked(v: Vol, u: Vol, w: Vol, t: Tree, dir: nat, leaf: Name, ino: nat) {
    && 1 <= dir <= 256 && 1 <= ino <= 256 && IsDir(u.inodes[ino]) && IsDir(u.inodes[dir]) && u.ib[ino]
    && Sound(u) && Added(u, w, dir, leaf, FT_DIR, ino)
    && (NameTree(v, t) ==> NameTree(u, t) && ino !in t.parent && SameMembers(v, u, t))
  }

  // Free blocks once a new directory has its dots, if it can have them.
  function AfterDots(free: nat): nat {
    if free > 0 then free - 1 else 0
  }

  ghost predicate CanMkdir(v: Vol, cwd: U32, path: Name, c: Counters) {
    CanEnter(v, cwd, path, c.(freeBlocks := AfterDots(c.freeBlocks)))
  }

  // When mkdir can succeed, in plain terms: the dots of the new directory take a block before the
  // entry may need one.
  lemma CanMkdirIs(v: Vol, cwd: U32, path: Name, c: Counters)
    requires ParentAllocated(v, cwd, path)
    ensures
      var x := v.inodes[NameiParent(v, cwd, path).ino];
      var room := x.size < 80 * 64 && (c.freeBlocks > 1 || x.direct[x.size / 512] != 0);
      CanMkdir(v, cwd, path, c) <==> LastSlash(path) <= 255 && c.freeInodes > 0 && IsDir(x) && room
  {
    CanEnterIs(v, cwd, path, c.(freeBlocks := AfterDots(c.freeBlocks)));
  }

  lemma MadeParts(v: Vol, w: Vol, t: Tree, ino: nat, x: Inode, parent: nat, free: nat)
    requires Made(v, w, t, ino, x, parent, free)
    ensures 1 <= ino <= 256 && !v.ib[ino] && Frame(WithNew(v, ino, x), w, ino) && IsDir(w.inodes[ino]) && w.ib[ino]
    ensures NameTree(v, t) ==> NameTree(w, t) && ino !in t.parent && SameMembers(v, w, t)
  {
  }

  lemma MkdirParent(v: Vol, cwd: U32, path: Name, c: Counters)
    ensures CanMkdir(v, cwd, path, c) ==> LastSlash(path) < 256 && c.freeInodes > 0 && ParentAllocated(v, cwd, path)
  {
  }

  // Neither the new inode nor its dots change the room in an allocated parent.
  lemma MkdirRoom(v: Vol, u: Vol, x: Inode, cwd: U32, path: Name, ino: nat, c: Counters)
    requires 1 <= ino <= 256 && !v.ib[ino] && Frame(WithNew(v, ino, x), u, ino) && ParentAllocated(v, cwd, path)
    ensures
      var p := NameiParent(v, cwd, path).ino;
      && (CanMkdir(v, cwd, path, c) <==>
            LastSlash(path) < 256 && c.freeInodes > 0 && IsDir(u.inodes[p]) && HasRoom(u, p, AfterDots(c.freeBlocks)))
      && (HasRoom(u, p, AfterDots(c.freeBlocks)) ==>
            EntryCost(v, p) == if u.inodes[p].direct[Slots(u.inodes[p]) / 8] == 0 then 1 else 0)
  {
    assert u.inodes[NameiParent(v, cwd, path).ino] == v.inodes[NameiParent(v, cwd, path).ino];
  }

  // The new inode ino of w is a directory as mkdir leaves it before it is entered.
  ghost predicate Made(v: Vol, w: Vol, t: Tree, ino: nat, x: Inode, parent: nat, free: nat) {
    && 1 <= ino <= 256 && !v.ib[ino] && Frame(WithNew(v, ino, x), w, ino) && IsDir(w.inodes[ino])
    && (if free > 0 then FreshDir(w, ino, parent) else List(w, ino) == [])
    && w.inodes[ino].size == (if free > 0 then 128 else 0)
    && (NameTree(v, t) ==> NameTree(w, t) && ino !in t.parent && SameMembers(v, w, t))
  }

  // At most a new directory was made, and entered nowhere.
  ghost predicate LeftBehind(v: Vol, w: Vol, t: Tree, x: Inode, free: nat) {
    w == v || exists ino: nat, parent: nat :: Made(v, w, t, ino, x, parent, free)
  }

  // The inode of a new directory and its dots.
  method MakeDir(d: Disk, parent: U32, ghost t: Tree) returns (ino: int)
    requires d.Ok()
    modifies d`dev, d`vol, d`images, d`trace, d`sb, d`gd
    ensures d.Ok() && AllSound(old(d.trace), d.trace)
    ensures NameTree(old(d.vol), t) ==> AllSteps(old(d.trace), d.trace, t)
    ensures ino == FS_ENOSPC <==> old(d.sb.freeInodes) == 0
    ensures ino == FS_ENOSPC ==> d.vol == old(d.vol)
    ensures ino != FS_ENOSPC ==>
      && 1 <= ino
      && Made(old(d.vol), d.vol, t, ino, NewRecord(MODE_DIR, 2, d.uid, d.clock), parent, old(d.sb.freeBlocks))
      && d.sb.freeInodes == old(d.sb.freeInodes) - 1 && d.sb.freeBlocks == AfterDots(old(d.sb.freeBlocks))
  {
    hide Recorded, Decodes, Sound, AllSound, NameTree, List, IsDir, Entry;
    ghost var v := d.vol;
    FileType(d.uid, d.clock);
    ino := NewInode(d, NewRecord(MODE_DIR, 2, d.uid, d.clock), t);
    if ino < 0 {
      return;
    }
    ghost var u, m := d.vol, d.trace;
    AddDots(d, ino, parent, t, NameTree(v, t), old(d.trace));
    AllSoundTrans(old(d.trace), m, d.trace);
    DotsMembers(v, u, d.vol, ino, t);
    EmptyList(d.vol, ino);
    ModeType(u, d.vol, ino);
  }

  // cmd_mkdir. The directory is entered under its parent even when the dots could not be written.
  // made is the inode entered, 0 when there is none; u the volume before the entry.
  method CmdMkdir(d: Disk, path: Name, ghost t: Tree) returns (r: int, ghost made: nat, ghost u: Vol)
    requires d.Ok()
    modifies d`dev, d`vol, d`images, d`trace, d`sb, d`gd
    ensures d.Ok() && (r == FS_OK <==> made != 0) && AllSound(old(d.trace), d.trace)
    // It succeeds exactly when the directory can be entered after its dots took their block.
    ensures CanMkdir(old(d.vol), d.cwd, path, old(d.sb)) ==>
      && made != 0 && d.sb.freeInodes == old(d.sb.freeInodes) - 1
      && d.sb.freeBlocks == AfterDots(old(d.sb.freeBlocks))
           - EntryCost(old(d.vol), NameiParent(old(d.vol), d.cwd, path).ino)
    ensures made != 0 && ParentAllocated(old(d.vol), d.cwd, path) ==> CanMkdir(old(d.vol), d.cwd, path, old(d.sb))
    ensures made == 0 && NameTree(old(d.vol), t) ==>
      NameTree(d.vol, t) && SameMembers(old(d.vol), d.vol, t) && AllSteps(old(d.trace), d.trace, t)
    ensures made != 0 ==>
      var p := NameiParent(old(d.vol), d.cwd, path);
      && p.Found? && Linked(old(d.vol), u, d.vol, t, p.ino, Leaf(path), made)
      && Made(old(d.vol), u, t, made, NewRecord(MODE_DIR, 2, d.uid, d.clock), p.ino, old(d.sb.freeBlocks))
    ensures made == 0 ==>
      LeftBehind(old(d.vol), d.vol, t, NewRecord(MODE_DIR, 2, d.uid, d.clock), old(d.sb.freeBlocks))
    ensures made != 0 && NameTree(old(d.vol), t) ==> Steps(old(d.trace), d.trace, t, d.vol)
  {
    hide Recorded, Decodes, Sound, AllSound, NameTree, Added, Ends, Leaf, Walk, Segments, List, IsDir, Entry;
    hide CanMkdir, HasRoom, EntryCost, Made;
    MkdirParent(d.vol, d.cwd, path, d.sb);
    AllSoundRefl(d.trace);
    ghost var v := d.vol;
    made, u := 0, v;
    SameMembersRefl(v, t);
    var n := LastSlash(path);
    var dir := d.cwd;
    if n >= 0 {
      if n >= 256 {
        return FS_ERR, made, u;
      }
      var e;
      e, dir := FsNamei(d, ParentPath(path));
      if e != FS_OK {
        return FS_ERR, made, u;
      }
    }
    var ino := MakeDir(d, dir, t);
    if ino < 0 {
      return ino, made, u;
    }
    u := d.vol;
    ghost var m, x := d.trace, NewRecord(MODE_DIR, 2, d.uid, d.clock);
    MadeParts(v, u, t, ino, x, dir, old(d.sb.freeBlocks));
    if ParentAllocated(v, d.cwd, path) {
      MkdirRoom(v, u, x, d.cwd, path, ino, old(d.sb));
    }
    r := DirAdd(d, dir, Leaf(path), FT_DIR, ino);
    if r != FS_OK {
      return r, made, u;
    }
    made := ino;
    EndsSound(m, d.trace, u, dir, d.vol);
    AllSoundTrans(old(d.trace), m, d.trace);
    if NameTree(v, t) {
      StepsEnd(old(d.trace), m, d.trace, u, d.vol, dir, t);
    }
  }

  lemma EmptyList(v: Vol, ino: nat)
    requires 1 <= ino <= 256
    ensures v.inodes[ino].size == 0 ==> List(v, ino) == []
  {
  }

  lemma DotsMembers(v: Vol, u0: Vol, u: Vol, ino: nat, t: Tree)
    requires NameTree(v, t) ==> NameTree(u0, t) && ino !in t.parent && SameMembers(v, u0, t)
    requires Frame(u0, u, ino) && Sound(u0)
    ensures NameTree(v, t) ==> SameMembers(v, u, t)
  {
    hide List, Sound, NameTree, Frame;
    if NameTree(v, t) {
      forall c | c in t.parent && 1 <= c <= 256
        ensures u.ib[c] == v.ib[c] && IsDir(u.inodes[c]) == IsDir(v.inodes[c])
        ensures (IsDir(v.inodes[c]) ==> List(u, c) == List(v, c))
      {
        FrameList(u0, u, ino, c);
        FrameIb(u0, u, ino);
      }
    }
  }

  lemma FrameIb(v: Vol, w: Vol, ino: nat)
    requires Frame(v, w, ino)
    ensures w.ib == v.ib
  {
  }

  // The names after mkdir: every path that resolved still does, and the tree is kept, with one
  // member more, exactly when a block was free for the dots.
  lemma MkdirNames(v: Vol, u: Vol, w: Vol, t: Tree, cwd: U32, path: Name, ino: nat, free: bool)
    requires NameTree(v, t) && Sound(v) && AtMember(t, cwd, path) && NameiParent(v, cwd, path).Found?
    requires Linked(v, u, w, t, NameiParent(v, cwd, path).ino, Leaf(path), ino)
    requires if free then FreshDir(u, ino, NameiParent(v, cwd, path).ino) else List(u, ino) == []
    ensures forall p: Name :: AtMember(t, cwd, p) && Namei(v, cwd, p).Found? ==> Namei(w, cwd, p) == Namei(v, cwd, p)
    ensures Namei(w, cwd, path) == Found(ino) <==> Leaf(path) != [] && Namei(v, cwd, path).NotFound?
    ensures free ==> NameTree(w, Grown(t, NameiParent(v, cwd, path).ino, ino))
    ensures !free ==> forall y :: AtMember(y, cwd, path) ==> !NameTree(w, y)
  {
    hide Segments, Leaf, List, Sound, Added, IsDir, CStr, LookupsKept;
    var dir := NameiParent(v, cwd, path).ino;
    ParentMember(v, t, cwd, path);
    LinkedLookups(v, u, w, t, dir, Leaf(path), ino);
    forall p: Name | AtMember(t, cwd, p) && Namei(v, cwd, p).Found?
      ensures Namei(w, cwd, p) == Namei(v, cwd, p)
    {
      NameiKept(v, w, t, cwd, p);
    }
    assert NameiParent(w, cwd, path) == Found(dir);
    if Namei(v, cwd, path).Found? {
      NameiMember(v, t, cwd, path);
    } else if Leaf(path) != [] {
      NameiLeaf(v, cwd, path);
      NameiLeaf(w, cwd, path);
      LinkedLeaf(v, u, w, t, dir, Leaf(path), ino);
    } else if path != [] {
      EmptyLeaf(v, cwd, path);
    }
    if free {
      AddedTree(u, w, t, dir, Leaf(path), ino);
    } else {
      forall y | AtMember(y, cwd, path)
        ensures !NameTree(w, y)
      {
        if NameTree(w, y) {
          ParentMember(w, y, cwd, path);
          NoDots(u, w, t, y, dir, Leaf(path), ino);
        }
      }
    }
  }

  lemma NameiMember(v: Vol, t: Tree, cwd: U32, path: Name)
    requires NameTree(v, t) && AtMember(t, cwd, path) && Namei(v, cwd, path).Found?
    ensures Namei(v, cwd, path).ino in t.parent
  {
    hide Lookup, Segments, NameTree;
    WalkMember(v, t, Start(cwd, path), Segments(path));
  }

  lemma LinkedLookups(v: Vol, u: Vol, w: Vol, t: Tree, dir: nat, leaf: Name, ino: nat)
    requires NameTree(v, t) && Linked(v, u, w, t, dir, leaf, ino)
    ensures LookupsKept(v, w, t)
  {
    hide Sound, Added, List;
    SameMembersLookups(v, u, t);
    AddedLookups(u, w, t, dir, leaf, FT_DIR, ino);
    hide Lookup;
    forall d: nat, q: Name | d in t.parent && Lookup(v, d, q).Found?
      ensures Lookup(w, d, q) == Lookup(v, d, q)
    {
      assert Lookup(u, d, q) == Lookup(v, d, q);
    }
  }

  lemma LinkedLeaf(v: Vol, u: Vol, w: Vol, t: Tree, dir: nat, leaf: Name, ino: nat)
    requires NameTree(v, t) && Linked(v, u, w, t, dir, leaf, ino) && dir in t.parent && |leaf| <= 55
    requires Lookup(v, dir, leaf).NotFound?
    ensures Lookup(w, dir, leaf) == Found(ino)
  {
    hide Sound, Matches, Padded, NameTree;
    SameMembersLookups(v, u, t) by {
      MembersOf(v, t);
    }
    assert Lookup(u, dir, leaf) == Lookup(v, dir, leaf);
    AddLookup(List(u, dir), leaf, FT_DIR, ino, leaf);
  }

  lemma MembersOf(v: Vol, t: Tree)
    requires NameTree(v, t)
    ensures Members(v, t)
  {
  }

  lemma MemberDots(w: Vol, y: Tree, c: nat)
    requires NameTree(w, y) && c in y.parent && 1 <= c <= 256 && IsDir(w.inodes[c])
    ensures |List(w, c)| >= 2
  {
    assert DirOk(w, y, c);
  }

  // A directory without dots fits in no tree.
  lemma NoDots(u: Vol, w: Vol, t: Tree, y: Tree, dir: nat, leaf: Name, ino: nat)
    requires NameTree(u, t) && dir in t.parent && dir in y.parent && ino !in t.parent
    requires 1 <= dir <= 256 && 1 <= ino <= 256 && IsDir(u.inodes[ino]) && IsDir(u.inodes[dir]) && List(u, ino) == []
    requires Sound(u) && Added(u, w, dir, leaf, FT_DIR, ino)
    ensures !NameTree(w, y)
  {
    hide List, Sound, IsDir, CStr;
    FrameList(u, w, dir, ino);
    AddedType(u, w, dir);
    MemberDots(u, t, dir);
    if NameTree(w, y) {
      assert DirOk(w, y, dir);
      assert ChildOk(w, y, dir, List(w, dir)[|List(u, dir)|]);
      MemberDots(w, y, ino);
    }
  }

  // ---- delete

  // The bytes after the last slash, as cmd_delete passes them on, uncut.
  function RawLeaf(path: Name): Name {
    path[LastSlash(path) + 1..]
  }

  // The volume after the inode's blocks and the inode itself are given back.
  ghost predicate Discarded(v: Vol, w: Vol, ino: nat) {
    && 1 <= ino <= 256 && Sound(w) && w.data == v.data
    && w.ib == v.ib[ino := false]
    && (exists now: U32 :: w.inodes == v.inodes[ino := Emptied(v.inodes[ino], now)])
    && (forall b: nat :: b < 4096 ==> w.bb[b] == (v.bb[b] && b !in Owned(v, ino)))
  }

  method Discard(d: Disk, ino: nat)
    requires d.Ok()
    modifies d`dev, d`vol, d`images, d`trace, d`sb, d`gd
    ensures d.Ok() && old(d.trace) <= d.trace
    ensures !(1 <= ino <= 256) ==> d.vol == old(d.vol)
    ensures 1 <= ino <= 256 ==> Discarded(old(d.vol), d.vol, ino)
    ensures 1 <= ino <= 256 ==> d.sb.freeBlocks == old(d.sb.freeBlocks) + |Owned(old(d.vol), ino)|
    ensures 1 <= ino <= 256 ==> d.sb.freeInodes == old(d.sb.freeInodes) + if old(d.vol).ib[ino] then 1 else 0
  {
    hide Recorded, Decodes, Owned, Sound;
    var e := InodeTruncate(d, ino);
    if 1 <= ino <= 256 {
      InodeBitSound(d.vol, ino, false);
    }
    FreeInode(d, ino);
  }

  // The end of cmd_delete: the entry is looked for in the parent, or in the directory with an unset
  // number when the parent does not resolve.
  method RemoveLeaf(d: Disk, path: Name) returns (ghost p: nat)
    requires d.Ok() && LastSlash(path) < 256
    modifies d`dev, d`vol, d`images, d`trace
    ensures d.Ok() && old(d.trace) <= d.trace
    ensures NameiParent(old(d.vol), d.cwd, path).Found? ==> p == NameiParent(old(d.vol), d.cwd, path).ino
    ensures !(1 <= p <= 256) ==> d.vol == old(d.vol)
    ensures 1 <= p <= 256 ==>
      var l := List(old(d.vol), p);
      var i := FirstMatch(l, RawLeaf(path));
      if i == |l| then d.vol == old(d.vol) else Removed(old(d.vol), d.vol, p, i)
  {
    hide Recorded, Decodes, Sound, Walk, Segments, List, Removed, IsDir, FirstMatch;
    var q: U32 :| q >= 0;
    if LastSlash(path) >= 0 {
      var e, f := FsNamei(d, ParentPath(path));
      if e == FS_OK {
        q := f;
      }
    } else {
      q := d.cwd;
    }
    p := q;
    var e := DirRemove(d, q, RawLeaf(path));
  }

  // cmd_delete. A path whose parent part is 256 bytes or more overruns the buffer of the
  // original. When the parent no longer resolves after the truncation the original goes on with
  // an unset directory number, here any number. gone is the inode given back, 0 when there is
  // none; u the volume before the entry is removed, p the directory it is removed from.
  method CmdDelete(d: Disk, path: Name) returns (r: int, ghost gone: nat, ghost u: Vol, ghost p: nat)
    requires d.Ok() && LastSlash(path) < 256
    modifies d`dev, d`vol, d`images, d`trace, d`sb, d`gd
    ensures d.Ok() && old(d.trace) <= d.trace
    ensures var f := Namei(old(d.vol), d.cwd, path);
      if f.NotFound? then r == FS_ENOENT && gone == 0
      else if !(1 <= f.ino <= 256) then gone == 0
      else if IsDir(old(d.vol).inodes[f.ino]) && old(d.vol).inodes[f.ino].size > 128 then r == FS_ERR && gone == 0
      else r == FS_OK && gone == f.ino
    ensures r != FS_OK ==> gone == 0 && d.vol == old(d.vol) && d.sb == old(d.sb) && d.trace == old(d.trace)
    ensures r == FS_OK || r == FS_ENOENT || r == FS_ERR
    ensures gone != 0 ==>
      && 1 <= gone <= 256 && d.sb.freeBlocks == old(d.sb.freeBlocks) + |Owned(old(d.vol), gone)|
      && d.sb.freeInodes == old(d.sb.freeInodes) + if old(d.vol).ib[gone] then 1 else 0
    ensures r == FS_OK ==>
      && (if gone != 0 then Discarded(old(d.vol), u, gone) else u == old(d.vol))
      && (NameiParent(u, d.cwd, path).Found? ==> p == NameiParent(u, d.cwd, path).ino)
      && (!(1 <= p <= 256) ==> d.vol == u)
      && (1 <= p <= 256 ==>
            var l := List(u, p);
            var i := FirstMatch(l, RawLeaf(path));
            if i == |l| then d.vol == u else Removed(u, d.vol, p, i))
  {
    hide Recorded, Decodes, Sound, Walk, Segments, List, Discarded, Removed, IsDir, FirstMatch, LastSlash, RawLeaf;
    hide NameiParent, Owned;
    gone, u, p := 0, d.vol, 0;
    var e, ino := FsNamei(d, path);
    if e != FS_OK {
      return FS_ENOENT, gone, u, p;
    }
    var x;
    e, x := ReadInode(d, ino);
    if IsDir(x) && x.size > 128 {
      return FS_ERR, gone, u, p;
    }
    Discard(d, ino);
    u := d.vol;
    gone := if 1 <= ino <= 256 then ino else 0;
    p := RemoveLeaf(d, path);
    r := FS_OK;
  }

  // The path resolves and its leaf is a proper name.
  ghost predicate ProperLeaf(v: Vol, t: Tree, cwd: U32, path: Name) {
    && NameTree(v, t) && AtMember(t, cwd, path) && Namei(v, cwd, path).Found?
    && RawLeaf(path) != [] && RawLeaf(path) != DOT && RawLeaf(path) != DOTDOT
  }

  // What is asked of the path: beyond a proper leaf, that the way to the parent does not lead
  // through the inode itself, as it would in "d/../d".
  ghost predicate Deletable(v: Vol, t: Tree, cwd: U32, path: Name) {
    && ProperLeaf(v, t, cwd, path)
    && (LastSlash(path) >= 0 ==>
          !Visits(v, Start(cwd, path), Segments(ParentPath(path)), Namei(v, cwd, path).ino))
  }

  // The entry that the path names: where it is and what it says.
  lemma DeletedEntry(v: Vol, t: Tree, cwd: U32, path: Name)
    requires ProperLeaf(v, t, cwd, path)
    ensures
      var c, p := Namei(v, cwd, path).ino, NameiParent(v, cwd, path);
      && p.Found? && p.ino in t.parent && 1 <= p.ino <= 256 && IsDir(v.inodes[p.ino])
      && var l := List(v, p.ino); var i := FirstMatch(l, Leaf(path));
      && 2 <= i < |l| && l[i].ino == c && c in t.parent && c != 1 && c != p.ino && Up(t, c) == p.ino
  {
    hide List, Segments, NameTree, Lookup, FirstMatch, Visits, Walk;
    NameiLeaf(v, cwd, path);
    ParentMember(v, t, cwd, path);
    ChildEntry(v, t, NameiParent(v, cwd, path).ino, Leaf(path));
  }

  // A path without ".." never leads through the inode it ends at.
  lemma PlainDeletable(v: Vol, t: Tree, cwd: U32, path: Name)
    requires ProperLeaf(v, t, cwd, path) && DOTDOT !in Segments(ParentPath(path))
    ensures Deletable(v, t, cwd, path)
  {
    hide List, Segments, NameTree, Lookup, FirstMatch, Visits, Walk;
    if LastSlash(path) >= 0 {
      DeletedEntry(v, t, cwd, path);
      assert Start(cwd, ParentPath(path)) == Start(cwd, path);
      ParentWalkAvoids(v, t, Start(cwd, path), Segments(ParentPath(path)), Namei(v, cwd, path).ino);
    }
  }

  // A lookup of a proper name that succeeds finds a child.
  lemma ChildEntry(v: Vol, t: Tree, p: nat, q: Name)
    requires NameTree(v, t) && p in t.parent && q != [] && q != DOT && q != DOTDOT && |q| <= 55
    requires Lookup(v, p, q).Found?
    ensures 1 <= p <= 256 && IsDir(v.inodes[p])
    ensures
      var l := List(v, p); var i := FirstMatch(l, q); var c := Lookup(v, p, q).ino;
      2 <= i < |l| && l[i].ino == c && c in t.parent && c != 1 && c != p && Up(t, c) == p
  {
    hide List, Matches, CStr, IsDir;
    MembersOf(v, t);
    assert DirOk(v, t, p);
    var l := List(v, p);
    var i := FirstMatch(l, q);
    DotsDiffer(l[0], l[1], q, p, Up(t, p));
    assert l[i].ino != 0 by {
      MatchLive(l[i], q);
    }
    assert ChildOk(v, t, p, l[i]);
    HeldAt(v, t, l[i].ino);
  }

  lemma MatchLive(e: Dirent, q: Name)
    requires Matches(e, q)
    ensures e.ino != 0
  {
  }

  lemma DotsDiffer(e: Dirent, f: Dirent, q: Name, p: nat, up: nat)
    requires EntryIs(e, p, DOT) && EntryIs(f, up, DOTDOT) && q != DOT && q != DOTDOT && |q| <= 55
    ensures !Matches(e, q) && !Matches(f, q)
  {
  }

  // Giving the inode back disturbs no other member.
  lemma DiscardedOthers(v: Vol, u: Vol, t: Tree, ino: nat)
    requires NameTree(v, t) && Discarded(v, u, ino)
    ensures forall o {:trigger o in t.parent} :: o in t.parent && o != ino && 1 <= o <= 256 ==>
      u.inodes[o] == v.inodes[o] && u.ib[o] == v.ib[o] && List(u, o) == List(v, o)
    ensures forall d: nat, q: Name {:trigger Lookup(u, d, q)} :: d in t.parent && d != ino ==>
      Lookup(u, d, q) == Lookup(v, d, q)
  {
  }

  lemma ParentStays(v: Vol, u: Vol, t: Tree, cwd: U32, path: Name)
    requires Deletable(v, t, cwd, path) && Discarded(v, u, Namei(v, cwd, path).ino)
    ensures NameiParent(u, cwd, path) == NameiParent(v, cwd, path)
  {
    hide Lookup, Segments, NameTree;
    DiscardedOthers(v, u, t, Namei(v, cwd, path).ino);
    if LastSlash(path) >= 0 {
      assert Start(cwd, ParentPath(path)) == Start(cwd, path);
      WalkAvoids(v, u, t, Start(cwd, path), Segments(ParentPath(path)), Namei(v, cwd, path).ino);
    }
  }

  // After the inode is emptied the parent part of the path resolves exactly when its way does not
  // lead through that inode; otherwise cmd_delete goes on with an unset directory number.
  lemma ParentResolves(v: Vol, u: Vol, t: Tree, cwd: U32, path: Name)
    requires ProperLeaf(v, t, cwd, path) && Discarded(v, u, Namei(v, cwd, path).ino)
    ensures NameiParent(u, cwd, path).Found? <==> Deletable(v, t, cwd, path)
  {
    hide Segments, NameTree, List, Walk;
    var c := Namei(v, cwd, path).ino;
    DeletedEntry(v, t, cwd, path);
    if Deletable(v, t, cwd, path) {
      ParentStays(v, u, t, cwd, path);
    } else {
      DiscardedOthers(v, u, t, c);
      EmptiedLookups(v, u, c);
      hide Lookup;
      assert Start(cwd, ParentPath(path)) == Start(cwd, path);
      WalkThrough(v, u, t, Start(cwd, path), Segments(ParentPath(path)), c);
    }
  }

  // Nothing is found in an emptied inode.
  lemma EmptiedLookups(v: Vol, u: Vol, c: nat)
    requires Discarded(v, u, c)
    ensures forall q: Name :: Lookup(u, c, q).NotFound?
  {
    assert u.inodes[c].size == 0;
    assert List(u, c) == [];
  }

  // No lookup of a member other than the inode changes, but those that found it.
  lemma DeletedLookups(v: Vol, u: Vol, w: Vol, t: Tree, ino: nat, p: nat, i: nat)
    requires NameTree(v, t) && Discarded(v, u, ino) && p in t.parent && 1 <= p <= 256 && p != ino
    requires w == u || (Removed(u, w, p, i) && i < |List(v, p)| && List(v, p)[i].ino == ino)
    ensures forall d: nat, q: Name {:trigger Lookup(w, d, q)} :: d in t.parent && d != ino ==>
      Lookup(w, d, q) == Lookup(v, d, q) || (Lookup(v, d, q).Found? && Lookup(v, d, q).ino == ino)
  {
    hide List, Owned, IsDir, Matches, Sound, LookupIn;
    DiscardedOthers(v, u, t, ino);
    if w != u {
      RemovedCut(v, u, w, t, p, i, ino);
      forall d: nat, q: Name | d in t.parent && d != ino
        ensures Lookup(w, d, q) == Lookup(v, d, q) || (Lookup(v, d, q).Found? && Lookup(v, d, q).ino == ino)
      {
        if d == p {
          ClearedLookup(List(v, p), List(w, p), i, q);
        } else if 1 <= d <= 256 && IsDir(v.inodes[d]) {
          assert List(w, d) == List(v, d);
        }
      }
    }
  }

  // cmd_delete of such a path leaves a tree without the inode, hence no dangling entry, exactly
  // when the leaf has at most 55 bytes; a longer one finds the cut name but does not remove it.
  // Every path whose way avoids the inode leads where it led.
  lemma DeleteNames(v: Vol, u: Vol, w: Vol, t: Tree, cwd: U32, path: Name, ino: nat, p: nat)
    requires Deletable(v, t, cwd, path) && ino == Namei(v, cwd, path).ino && 1 <= ino <= 256
    requires IsDir(v.inodes[ino]) ==> v.inodes[ino].size <= 128
    requires Discarded(v, u, ino)
    requires NameiParent(u, cwd, path).Found? ==> p == NameiParent(u, cwd, path).ino
    requires 1 <= p <= 256 ==>
      var i := FirstMatch(List(u, p), RawLeaf(path));
      if i == |List(u, p)| then w == u else Removed(u, w, p, i)
    ensures |RawLeaf(path)| <= 55 ==> NameTree(w, Pruned(t, ino)) && !w.ib[ino] && ino !in Pruned(t, ino).parent
    ensures |RawLeaf(path)| > 55 ==> forall y :: AtMember(y, cwd, path) ==> !NameTree(w, y)
    ensures forall q: Name :: AtMember(t, cwd, q) && !Visits(v, Start(cwd, q), Segments(q), ino) ==>
      Namei(w, cwd, q) == Namei(v, cwd, q)
    ensures |RawLeaf(path)| <= 55 ==>
      forall q: Name :: AtMember(Pruned(t, ino), cwd, q) ==> Namei(w, cwd, q) != Found(ino)
  {
    hide List, Sound, Owned, NameTree, Segments, Walk, Removed, IsDir, Lookup, Visits;
    ParentStays(v, u, t, cwd, path);
    DeletedEntry(v, t, cwd, path);
    DiscardedOthers(v, u, t, ino);
    MembersOf(v, t);
    assert p == NameiParent(v, cwd, path).ino;
    if |RawLeaf(path)| > 55 {
      LongLeaf(v, t, p, RawLeaf(path));
    }
    DeletedLookups(v, u, w, t, ino, p, FirstMatch(List(v, p), Leaf(path)));
    forall q: Name | AtMember(t, cwd, q) && !Visits(v, Start(cwd, q), Segments(q), ino)
      ensures Namei(w, cwd, q) == Namei(v, cwd, q)
    {
      WalkAvoids(v, w, t, Start(cwd, q), Segments(q), ino);
    }
    if |RawLeaf(path)| <= 55 {
      assert RawLeaf(path) == Leaf(path);
      RemovedCut(v, u, w, t, p, FirstMatch(List(v, p), Leaf(path)), ino);
      SmallDir(v, ino);
      CutTree(v, w, t, p, FirstMatch(List(v, p), Leaf(path)));
      RemovedIb(u, w, p, FirstMatch(List(v, p), Leaf(path)));
      forall q: Name | AtMember(Pruned(t, ino), cwd, q) && Namei(w, cwd, q).Found?
        ensures Namei(w, cwd, q).ino in Pruned(t, ino).parent
      {
        NameiMember(w, Pruned(t, ino), cwd, q);
      }
    } else {
      forall y | AtMember(y, cwd, path)
        ensures !NameTree(w, y)
      {
        if NameTree(w, y) {
          ParentMember(w, y, cwd, path);
          NotDangling(w, y, p, FirstMatch(List(v, p), Leaf(path)));
        }
      }
    }
  }

  lemma SmallDir(v: Vol, d: nat)
    requires 1 <= d <= 256
    ensures v.inodes[d].size <= 128 ==> |List(v, d)| <= 2
  {
  }

  lemma RemovedIb(u: Vol, w: Vol, p: nat, i: nat)
    requires Removed(u, w, p, i)
    ensures w.ib == u.ib
  {
  }

  lemma RemovedCut(v: Vol, u: Vol, w: Vol, t: Tree, p: nat, i: nat, ino: nat)
    requires NameTree(v, t) && Discarded(v, u, ino) && Removed(u, w, p, i) && p in t.parent && p != ino
    requires i < |List(v, p)| && List(v, p)[i].ino == ino
    ensures Cut(v, w, t, p, i)
  {
    hide List, Owned, IsDir;
    DiscardedOthers(v, u, t, ino);
    forall o | o in t.parent && 1 <= o <= 256 && o != ino && o != p
      ensures w.inodes[o] == v.inodes[o] && List(w, o) == List(v, o)
    {
      FrameList(u, w, p, o);
    }
    ModeType(u, w, p);
  }

  // No entry of a member has a name longer than 55 bytes.
  lemma LongLeaf(v: Vol, t: Tree, p: nat, q: Name)
    requires NameTree(v, t) && p in t.parent && 1 <= p <= 256 && IsDir(v.inodes[p]) && |q| > 55
    ensures FirstMatch(List(v, p), q) == |List(v, p)|
  {
    hide List, CStr;
    var l := List(v, p);
    assert DirOk(v, t, p);
    forall k | 0 <= k < |l|
      ensures !Matches(l[k], q)
    {
      if k >= 2 && l[k].ino != 0 {
        assert ChildOk(v, t, p, l[k]);
      }
    }
    FirstMatchIs(l, q, |l|);
  }

  // In a tree every entry after the dots names an allocated inode.
  lemma NotDangling(w: Vol, y: Tree, p: nat, i: nat)
    requires NameTree(w, y) && p in y.parent && 1 <= p <= 256 && IsDir(w.inodes[p])
    requires 2 <= i < |List(w, p)| && 1 <= List(w, p)[i].ino <= 256
    ensures w.ib[List(w, p)[i].ino]
  {
    hide List;
    assert DirOk(w, y, p);
    assert ChildOk(w, y, p, List(w, p)[i]);
  }
}
