/** Inputs on a freshly formatted volume at which the program does not do what it is for. */
module Deviations {
  import opened Layout
  import opened Records
  import opened Volume
  import opened Device
  import opened Directory
  import opened Paths
  import opened Namespace
  import opened Files
  import opened Format
  import opened Store
  import opened FileIo
  import opened Text
  import opened Accounts
  import opened Sessions
  import opened Logins

  // The root directory of a formatted volume has room without a new block.
  lemma RoomInRoot(v: Vol, ino: nat)
    requires OnlyUsers(v, ino)
    ensures forall free: nat :: HasRoom(v, 1, free)
    ensures EntryCost(v, 1) == 0
  {
  }

  lemma FormattedTree(v: Vol, t: Tree, ino: nat, s: seq<Byte>)
    requires Stored(v, t, USERS, ino, s) && t == Grown(RootTree(), 1, ino)
    ensures NameTree(v, t) && 1 in t.parent && v.ib[1] && IsDir(v.inodes[1])
  {
  }

  // ---- open("", "w")

  // The entry gets an inode and the empty name, and namei goes on rejecting the path.
  method OpenEmptyPath(d: Disk) returns (fd: int, ghost made: nat)
    requires d.Valid() && d.cwd == 1 && !AllUsed(d.ofile)
    modifies d`dev, d`vol, d`images, d`trace, d`sb, d`gd, d`ofile
    ensures d.Ok() && fd >= 0 && made != 0
    ensures |List(d.vol, 1)| == 4 && List(d.vol, 1)[3].ino == made && CStr(List(d.vol, 1)[3].raw) == []
    ensures Namei(d.vol, d.cwd, []).NotFound?
  {
    hide Decodes, Recorded, Sound, AllSound, NameTree, Stored, StoredOrAbsent, HasRoom, EntryCost, List;
    hide IsDir, Steps, OnlyUsers, ParentAllocated, Leaked, Segments, Walk;
    ghost var before := d.ofile;
    ghost var t, ino, s := FsFormat(d);
    ghost var v := d.vol;
    FormattedTree(v, t, ino, s);
    RoomInRoot(v, ino);
    ThreeEntries(v, ino);
    SameOpenAll(before, d.ofile, d.ofile);
    assert LastSlash([]) == -1;
    FileType(d.uid, d.clock);
    ghost var t';
    fd, t', made := FsOpen(d, [], [W], t);
    EnteredList(v, d.vol, 1, Leaf([]), made, NewRecord(MODE_FILE, 1, d.uid, d.clock));
    PaddedName([]);
  }

  lemma ThreeEntries(v: Vol, ino: nat)
    requires OnlyUsers(v, ino)
    ensures |List(v, 1)| == 3
  {
  }

  lemma EnteredList(v: Vol, w: Vol, dir: nat, leaf: Name, ino: nat, x: Inode)
    requires Entered(v, w, dir, leaf, ino, x) && v.ib[dir]
    ensures List(w, dir) == List(v, dir) + [Dirent(ino, TypeOf(x), Padded(leaf))]
  {
    assert WithNew(v, ino, x).inodes[dir] == v.inodes[dir];
  }

  // ---- mkdir("/d") with no free block

  // "/d"
  const D: Name := [47, 100]

  lemma PathD()
    ensures |D| > 1 && D[0] == SLASH && SLASH !in D[1..] && Clip(D[1..], 55) == D[1..] == [100]
  {
  }

  // A volume of 71 blocks is full when it is formatted. The directory is made without dots, and no
  // tree fits the names any more.
  method MkdirOnFullVolume(d: Disk) returns (r: int, ghost made: nat)
    requires d.Valid() && d.total == 71 && d.cwd == 1 && !AllUsed(d.ofile)
    modifies d`dev, d`vol, d`images, d`trace, d`sb, d`gd, d`ofile
    ensures d.Ok() && r == FS_OK && 1 <= made <= 256 && Namei(d.vol, 1, D) == Found(made)
    ensures IsDir(d.vol.inodes[made]) && List(d.vol, made) == []
    ensures forall y :: AtMember(y, 1, D) ==> !NameTree(d.vol, y)
  {
    hide Decodes, Recorded, Sound, AllSound, NameTree, Stored, StoredOrAbsent, HasRoom, EntryCost, List;
    hide IsDir, Steps, Lookup;
    hide OnlyUsers, Namei, NameiParent, Linked, Leaf, CanEnter, CanMkdir, AtMember;
    ghost var t, ino, s := FsFormat(d);
    ghost var v := d.vol;
    FormattedTree(v, t, ino, s);
    RoomInRoot(v, ino);
    PathD();
    NotYet(v, t, ino, d.sb);
    ghost var u;
    r, made, u := CmdMkdir(d, D, t);
    MkdirNames(v, u, d.vol, t, 1, D, made, false);
    LinkedKeeps(v, u, d.vol, t, 1, Leaf(D), made);
  }

  // On a formatted volume "/d" is absent and can be made.
  lemma NotYet(v: Vol, t: Tree, ino: nat, c: Counters)
    requires OnlyUsers(v, ino) && NameTree(v, t) && 1 in t.parent && c.freeInodes > 0
    ensures Namei(v, 1, D).NotFound? && NameiParent(v, 1, D) == Found(1) && Leaf(D) == [100] && AtMember(t, 1, D)
    ensures CanMkdir(v, 1, D, c) && CanEnter(v, 1, D, c) && ParentAllocated(v, 1, D)
  {
    hide NameTree, Lookup, OnlyUsers, Walk, HasRoom;
    PathD();
    RoomInRoot(v, ino);
    BelowRoot(v, t, 1, D, c);
    BelowRoot(v, t, 1, D, c.(freeBlocks := AfterDots(c.freeBlocks)));
    OnlyThree(v, ino, [100]);
    NameiLeaf(v, 1, D);
  }

  // Entering a directory leaves the directory itself as it was.
  lemma LinkedKeeps(v: Vol, u: Vol, w: Vol, t: Tree, dir: nat, leaf: Name, ino: nat)
    requires Linked(v, u, w, t, dir, leaf, ino) && NameTree(v, t) && dir in t.parent
    ensures 1 <= ino <= 256 && w.inodes[ino] == u.inodes[ino] && List(w, ino) == List(u, ino) && IsDir(w.inodes[ino])
  {
    hide NameTree, Sound;
    FrameList(u, w, dir, ino);
  }

  // ---- delete of a leaf of more than 55 bytes

  // The path of a leaf right below the root.
  function Below(leaf: Name): (p: Name)
    ensures p == [SLASH] + leaf && p[1..] == leaf
  {
    assert forall i :: 0 <= i < |leaf| ==> leaf[i] in leaf;
    [SLASH] + leaf
  }

  // The file is created and deleted under the same path; its inode is free afterwards and the entry
  // still names it.
  method DeleteLongLeaf(d: Disk, leaf: Name) returns (fd: int, r: int, ghost made: nat)
    requires d.Valid() && d.cwd == 1 && !AllUsed(d.ofile) && |leaf| > 55 && SLASH !in leaf
    modifies d`dev, d`vol, d`images, d`trace, d`sb, d`gd, d`ofile
    ensures d.Ok() && fd >= 0 && r == FS_OK && 1 <= made <= 256 && !d.vol.ib[made]
    ensures |List(d.vol, 1)| == 4 && List(d.vol, 1)[3].ino == made
    ensures forall y :: AtMember(y, 1, Below(leaf)) ==> !NameTree(d.vol, y)
  {
    hide Decodes, Recorded, Sound, AllSound, NameTree, Stored, StoredOrAbsent, HasRoom, EntryCost, List;
    hide IsDir, Steps, Lookup;
    hide OnlyUsers, Namei, NameiParent, Leaf, CanEnter, AtMember, Entered, Discarded, Removed, FirstMatch;
    hide RawLeaf, LastSlash;
    ghost var before := d.ofile;
    ghost var t, ino, s := FsFormat(d);
    ghost var v := d.vol;
    FormattedTree(v, t, ino, s);
    ThreeEntries(v, ino);
    SameOpenAll(before, d.ofile, d.ofile);
    LongAbsent(v, t, ino, d.sb, leaf);
    ghost var t';
    fd, t', made := FsOpen(d, Below(leaf), [W], t);
    ghost var w, x := d.vol, NewRecord(MODE_FILE, 1, d.uid, d.clock);
    FileType(d.uid, d.clock);
    LongEntered(v, w, t, made, x, leaf);
    ghost var gone, u, p;
    r, gone, u, p := CmdDelete(d, Below(leaf));
    LongParent(u, leaf);
    LongMember(t, t', made, leaf);
    LongDeleted(w, u, d.vol, t', made, leaf);
  }

  // The leaf, cut, is no name of the formatted root directory.
  lemma LongAbsent(v: Vol, t: Tree, ino: nat, c: Counters, leaf: Name)
    requires OnlyUsers(v, ino) && NameTree(v, t) && 1 in t.parent && c.freeInodes > 0 && |leaf| > 55 && SLASH !in leaf
    ensures
      var path := Below(leaf);
      && Namei(v, 1, path).NotFound? && NameiParent(v, 1, path) == Found(1) && AtMember(t, 1, path)
      && CanEnter(v, 1, path, c) && LastSlash(path) == 0 && RawLeaf(path) == leaf
  {
    hide NameTree, Lookup, OnlyUsers, Walk, HasRoom, List;
    var path := Below(leaf);
    RoomInRoot(v, ino);
    BelowRoot(v, t, 1, path, c);
    assert |Leaf(path)| == 55;
    OnlyThree(v, ino, Leaf(path));
    NameiLeaf(v, 1, path);
  }

  lemma LongEntered(v: Vol, w: Vol, t: Tree, ino: nat, x: Inode, leaf: Name)
    requires NameTree(v, t) && Sound(v) && AtMember(t, 1, Below(leaf)) && NoPointers(x) && !IsDir(x) && v.ib[1]
    requires Namei(v, 1, Below(leaf)).NotFound? && NameiParent(v, 1, Below(leaf)) == Found(1) && |List(v, 1)| == 3
    requires Entered(v, w, 1, Leaf(Below(leaf)), ino, x)
    ensures 1 < ino <= 256 && Namei(w, 1, Below(leaf)) == Found(ino) && w.inodes[ino] == x && w.ib[ino]
    ensures |List(w, 1)| == 4 && List(w, 1)[3].ino == ino
  {
    hide NameTree, Sound, Namei, NameiParent, Leaf, List, AtMember, IsDir;
    CreateResolves(v, w, t, 1, Below(leaf), ino, x);
    EnteredList(v, w, 1, Leaf(Below(leaf)), ino, x);
  }

  // The parent part of such a path is the root on any volume.
  lemma LongParent(v: Vol, leaf: Name)
    requires leaf != [] && SLASH !in leaf
    ensures LastSlash(Below(leaf)) == 0 && RawLeaf(Below(leaf)) == leaf && ParentPath(Below(leaf)) == [SLASH]
    ensures Segments([SLASH]) == [] && NameiParent(v, 1, Below(leaf)) == Found(1)
  {
    hide Lookup;
    RootSlash(Below(leaf));
    assert [SLASH][1..] == [];
    SegmentsEnd();
  }

  lemma {:induction false} LongDeleted(w: Vol, u: Vol, z: Vol, t: Tree, ino: nat, leaf: Name)
    requires NameTree(w, t) && AtMember(t, 1, Below(leaf)) && 1 < ino <= 256 && Namei(w, 1, Below(leaf)) == Found(ino)
    requires |leaf| > 55 && SLASH !in leaf && !IsDir(w.inodes[ino]) && Discarded(w, u, ino)
    requires
      var i := FirstMatch(List(u, 1), leaf);
      if i == |List(u, 1)| then z == u else Removed(u, z, 1, i)
    ensures List(z, 1) == List(w, 1) && !z.ib[ino]
    ensures forall y :: AtMember(y, 1, Below(leaf)) ==> !NameTree(z, y)
  {
    hide NameTree, List, IsDir, Discarded, Removed, Lookup, Owned, Below, AtMember, Namei;
    LongParent(u, leaf);
    LongProper(w, t, leaf, ino);
    RootMember(w, t);
    DiscardedOthers(w, u, t, ino);
    LongLeaf(w, t, 1, leaf);
    DiscardedBit(w, u, ino);
    DeleteNames(w, u, z, t, 1, Below(leaf), ino, 1);
  }

  lemma LongProper(w: Vol, t: Tree, leaf: Name, ino: nat)
    requires NameTree(w, t) && AtMember(t, 1, Below(leaf)) && 1 < ino && ino < 0x1_0000_0000
    requires Namei(w, 1, Below(leaf)) == Found(ino)
    requires |leaf| > 55 && SLASH !in leaf
    ensures Deletable(w, t, 1, Below(leaf))
  {
    hide NameTree, List, Lookup, Namei;
    LongParent(w, leaf);
  }

  lemma LongMember(t: Tree, t': Tree, c: nat, leaf: Name)
    requires 1 in t.parent && t' == Grown(t, 1, c)
    ensures AtMember(t', 1, Below(leaf))
  {
  }

  lemma RootMember(v: Vol, t: Tree)
    requires NameTree(v, t)
    ensures 1 in t.parent && IsDir(v.inodes[1])
  {
  }

  lemma DiscardedBit(w: Vol, u: Vol, ino: nat)
    requires Discarded(w, u, ino)
    ensures !u.ib[ino]
  {
  }

  // ---- delete("/d/../d")

  // "/d/../d"
  const BACK: Name := [47, 100, 47, 46, 46, 47, 100]

  // "/d/..", its parent part
  const UP: Name := [47, 100, 47, 46, 46]

  lemma PathBack()
    ensures LastSlash(BACK) == 5 && RawLeaf(BACK) == [100] && ParentPath(BACK) == UP
    ensures Segments(D) == [[100]] && Segments(UP) == [[100], DOTDOT] && Segments(BACK) == [[100], DOTDOT, [100]]
  {
    hide SegLen, Segments;
    assert LastSlashBelow(BACK, 7) == 5 by {
      assert BACK[6] != SLASH && BACK[5] == SLASH;
    }
    assert BACK[..5] == UP;
    hide LastSlashBelow;
    ShortSegments();
    assert UP == D + [SLASH] + DOTDOT && BACK == UP + [SLASH] + [100];
    SegmentsSplit(D, DOTDOT);
    SegmentsSplit(UP, [100]);
  }

  lemma ShortSegments()
    ensures Segments([100]) == [[100]] && Segments(DOTDOT) == [DOTDOT] && Segments(D) == [[100]]
  {
    hide SegLen, Segments;
    assert D == [] + [SLASH] + [100];
    assert Clip([100], 55) == [100] && Clip(DOTDOT, 55) == DOTDOT;
    LeafSegment([100]);
    LeafSegment(DOTDOT);
    SegmentsEnd();
    SegmentsSplit([], [100]);
  }

  // The directory and its blocks are given back, and only then the parent is looked for, through
  // the directory just emptied: it does not resolve, and the directory number stays unset.
  method DeleteThroughItself(d: Disk) returns (r1: int, r2: int, ghost made: nat, ghost u: Vol)
    requires d.Valid() && d.total > 71 && d.cwd == 1 && !AllUsed(d.ofile)
    modifies d`dev, d`vol, d`images, d`trace, d`sb, d`gd, d`ofile
    ensures d.Ok() && r1 == FS_OK && r2 == FS_OK && 1 <= made <= 256 && !u.ib[made]
    ensures NameiParent(u, 1, BACK).NotFound?
  {
    hide Decodes, Recorded, Sound, AllSound, NameTree, Stored, StoredOrAbsent, HasRoom, EntryCost, List;
    hide IsDir, Steps, Lookup;
    hide OnlyUsers, Namei, NameiParent, Linked, Leaf, CanEnter, CanMkdir, AtMember, Discarded, Removed;
    hide FirstMatch, FreshDir;
    ghost var t, ino, s := FsFormat(d);
    ghost var v := d.vol;
    FormattedTree(v, t, ino, s);
    NotYet(v, t, ino, d.sb);
    PathD();
    r1, made, u := CmdMkdir(d, D, t);
    ghost var w, t' := d.vol, Grown(t, 1, made);
    MkdirNames(v, u, w, t, 1, D, made, true);
    LinkedKeeps(v, u, w, t, 1, Leaf(D), made);
    GrownUp(v, t, u, w, 1, Leaf(D), made);
    LoopBack(w, t', made);
    PathBack();
    ghost var gone, p;
    r2, gone, u, p := CmdDelete(d, BACK);
    DiscardedBit(w, u, made);
    ParentResolves(w, u, t', 1, BACK);
  }

  lemma GrownUp(v: Vol, t: Tree, u: Vol, w: Vol, dir: nat, leaf: Name, ino: nat)
    requires Linked(v, u, w, t, dir, leaf, ino) && NameTree(v, t) && 1 in t.parent
    ensures ino != 1 && ino in Grown(t, dir, ino).parent && Up(Grown(t, dir, ino), ino) == dir
  {
    hide NameTree, Sound, List;
  }

  // The path leads down, up and down again.
  lemma LoopBack(w: Vol, t: Tree, c: nat)
    requires 1 < c <= 256 && NameTree(w, t) && Namei(w, 1, D) == Found(c) && c in t.parent && Up(t, c) == 1
    requires IsDir(w.inodes[c])
    ensures ProperLeaf(w, t, 1, BACK) && Namei(w, 1, BACK) == Found(c) && !Deletable(w, t, 1, BACK)
  {
    PathBack();
    hide NameTree, Segments, Lookup;
    RootMember(w, t);
    assert Lookup(w, 1, [100]) == Found(c) by {
      assert [[100]][1..] == [];
      assert Walk(w, 1, [[100]]) == Found(c);
    }
    Dots(w, t, c);
    assert Lookup(w, c, DOTDOT) == Found(1);
    assert Segments(BACK)[1..] == [DOTDOT, [100]] && [DOTDOT, [100]][1..] == [[100]] && [[100]][1..] == [];
    assert Segments(ParentPath(BACK))[1..] == [DOTDOT] && [DOTDOT][1..] == [];
    assert RawLeaf(BACK)[0] == 100 && DOT[0] != 100 && DOTDOT[0] != 100;
    assert AtMember(t, 1, BACK);
    assert Walk(w, c, [DOTDOT, [100]]) == Walk(w, 1, [[100]]) == Found(c);
    assert Segments(BACK)[0] == [100] && Walk(w, 1, Segments(BACK)) == Walk(w, c, Segments(BACK)[1..]);
    assert Namei(w, 1, BACK) == Found(c);
    assert ProperLeaf(w, t, 1, BACK);
    assert Visits(w, c, [DOTDOT], c);
    assert Visits(w, 1, Segments(ParentPath(BACK)), c);
  }

  // ---- logins on a formatted volume

  // "root"
  const ROOT: Str := [114, 111, 111, 116]

  // Formatting and users_add of one more user, by root.
  method FormatAndAdd(d: Disk, name: Name, pass: Name) returns (ghost t: Tree, ghost ino: nat, ghost s: seq<Byte>)
    requires d.Valid() && d.total > 71 && d.uid == 0 && !AllUsed(d.ofile)
    requires Plain(name) && Plain(pass) && name != ROOT
    modifies d`dev, d`vol, d`images, d`trace, d`sb, d`gd, d`ofile
    ensures d.Ok() && !AllUsed(d.ofile) && SavedNew(d.vol, d.ofile, d.sb) == FS_OK
    ensures Stored(d.vol, t, USERS, ino, s) && StoredOrAbsent(d.vol, t, SESSION, 0, [])
    ensures 1 <= ino <= 256 && d.vol.inodes[ino].mode == MODE_FILE && d.vol.inodes[ino].uid == 0
    ensures Login(Users(TextOf(s)), ROOT, ROOT) == Parsed(RootUser())
    ensures Login(Users(TextOf(s)), name, pass) == Parsed(User(name, pass, 1))
  {
    hide Decodes, Recorded, Sound, NameTree, Stored, StoredOrAbsent, HasRoom, EntryCost, OnlyUsers, OneBlock;
    hide Users, TextOf, Login, Plain, Line, Fits, Consumed, Frame, OnlyFile, AllUsed, SameOpen, Named, MaxUid;
    ghost var before := d.ofile;
    t, ino, s := FsFormat(d);
    ghost var v, mid, free := d.vol, d.ofile, d.sb.freeBlocks;
    SameOpenAll(before, mid, mid);
    OneMore(name, pass);
    ghost var line := Line(User(name, pass, 1));
    FirstBlock(v, t, ino, s, |line|);
    RootMay(v.inodes[ino]);
    var r := UsersAdd(d, name, pass, t, ino, s);
    s := s + line;
    SameOpenAll(mid, d.ofile, d.ofile);
    OnlyFileOther(v, d.vol, t, ino, SESSION, 0, []);
    OnlyFileOwner(v, d.vol, t, ino);
    ConsumedFirst(v, d.vol, ino, |ROOT_LINE|, |line|, free, d.sb.freeBlocks);
    RoomStays(v, d.vol, ino);
  }

  // The file of root with a second user.
  lemma OneMore(name: Name, pass: Name)
    requires Plain(name) && Plain(pass) && name != ROOT
    ensures
      var u := User(name, pass, 1);
      var s := ROOT_LINE + Line(u);
      && Users(TextOf(ROOT_LINE)) == [RootUser()] && MaxUid([RootUser()]) == 0 && !Named([RootUser()], name)
      && 0 < |Line(u)| <= 44 && Clip(Line(u), 255) == Line(u)
      && Login(Users(TextOf(s)), name, pass) == Parsed(u) && Login(Users(TextOf(s)), ROOT, ROOT) == Parsed(RootUser())
  {
    hide Line, Users, TextOf, Plain;
    RootLine();
    RootClean();
    var us, u := [RootUser()], User(name, pass, 1);
    assert MaxUid(us) == 0 by {
      assert us[1..] == [];
    }
    LineFits(u);
    ShortLine(u);
    AddThenLogin(us, name, pass);
    assert (us + [u])[0] == RootUser();
  }

  lemma ShortLine(u: User)
    requires Valid(u)
    ensures 0 < |Line(u)| <= 44
  {
    BodyLine(u);
  }

  // A write behind the end of a stored file, within its first block, takes no block.
  lemma FirstBlock(v: Vol, t: Tree, ino: nat, s: seq<Byte>, len: nat)
    requires Stored(v, t, USERS, ino, s) && s != [] && 0 < len && |s| + len <= 512
    ensures 1 <= ino <= 256 && Needed(v.data, v.inodes[ino], |s| / 512, EndBlock(|s|, len)) == 0
    ensures forall free: nat :: Fits(v.data, v.inodes[ino], |s|, len, free)
  {
    hide NameTree, Namei;
    var x := v.inodes[ino];
    assert MapBn(v.data, x, 0) != 0;
    assert |s| / 512 == 0 && EndBlock(|s|, len) == 1;
    assert Holes(v.data, x, 1, 1) == 0;
  }

  lemma ConsumedFirst(v: Vol, w: Vol, ino: nat, pos: nat, len: nat, free: nat, free': int)
    requires Consumed(v, w, ino, pos, len, free, free') && 0 < len
    requires 1 <= ino <= 256 && Needed(v.data, v.inodes[ino], pos / 512, EndBlock(pos, len)) == 0
    ensures free' == free
  {
  }

  lemma OnlyFileOwner(v: Vol, w: Vol, t: Tree, ino: nat)
    requires 1 <= ino <= 256 && OnlyFile(v, w, t, ino)
    ensures w.inodes[ino].mode == v.inodes[ino].mode && w.inodes[ino].uid == v.inodes[ino].uid
  {
  }

  lemma RoomStays(v: Vol, w: Vol, ino: nat)
    requires OnlyUsers(v, ino) && Frame(v, w, ino) && ino != 1
    ensures forall free: nat :: HasRoom(w, 1, free)
    ensures EntryCost(w, 1) == 0
  {
    assert w.inodes[1] == v.inodes[1];
  }

  // The users file belongs to root and so does the session file: the login of the other user after
  // that of root is not saved, and session_load makes the caller root.
  method LoginNotSaved(d: Disk, name: Name, pass: Name) returns (r1: int, r2: int, ghost saved: int, r3: int)
    requires d.Valid() && d.total > 71 && d.uid == 0 && !AllUsed(d.ofile)
    requires Plain(name) && Plain(pass) && name != ROOT
    modifies d`dev, d`vol, d`images, d`trace, d`sb, d`gd, d`ofile, d`uid, d`user
    ensures d.Ok() && r1 == FS_OK && r2 == FS_OK && saved == FS_EPERM
    ensures r3 == FS_OK && d.uid == 0 && d.user == ROOT
  {
    hide Decodes, Recorded, Sound, Stored, StoredOrAbsent, SavedNew, Users, TextOf, Login, Plain, AllUsed;
    ghost var t, ino, s := FormatAndAdd(d, name, pass);
    RootMay(d.vol.inodes[ino]);
    PlainRoot();
    ghost var saved1;
    r1, r2, saved1, saved, r3 := LoginAfterRoot(d, ROOT, ROOT, name, pass, t, ino, s);
  }

  lemma PlainRoot()
    ensures Plain(ROOT) && ROOT != []
  {
  }

  // The user logs in, and may not change his own password.
  method OwnPasswordRefused(d: Disk, name: Name, pass: Name, next: Name) returns (r: int, changed: int)
    requires d.Valid() && d.total > 71 && d.uid == 0 && !AllUsed(d.ofile)
    requires Plain(name) && Plain(pass) && name != ROOT
    modifies d`dev, d`vol, d`images, d`trace, d`sb, d`gd, d`ofile, d`uid, d`user
    ensures d.Ok() && r == FS_OK && d.user == name && changed == FS_EPERM
  {
    hide Decodes, Recorded, Sound, Stored, StoredOrAbsent, SavedNew, Users, TextOf, Login, Plain, AllUsed;
    ghost var t, ino, s := FormatAndAdd(d, name, pass);
    RootMay(d.vol.inodes[ino]);
    r, changed := OwnPassword(d, name, pass, next, t, ino, s, 0, []);
  }


  // "a:b"
  const AB: Str := [97, 58, 98]

  // users_add of the name "a:b" with the password "c": afterwards the name "a", which nobody added,
  // logs in with the password "b".
  method OtherName(d: Disk) returns (added: int, r: int)
    requires d.Valid() && d.total > 71 && d.uid == 0 && !AllUsed(d.ofile)
    modifies d`dev, d`vol, d`images, d`trace, d`sb, d`gd, d`ofile, d`uid, d`user
    ensures d.Ok() && added == FS_OK && r == FS_OK && d.user == [97]
  {
    hide Decodes, Recorded, Sound, NameTree, Stored, StoredOrAbsent, OnlyUsers, OneBlock, Users, TextOf, Login;
    hide Line, Fits, AllUsed, SameOpen, Named, MaxUid, PrintAll, AllValid, Plain;
    ghost var before := d.ofile;
    ghost var t, ino, s := FsFormat(d);
    SameOpenAll(before, d.ofile, d.ofile);
    RootFirst();
    ColonLine();
    FirstBlock(d.vol, t, ino, s, |Clip(Line(User(AB, [99], 1)), 255)|);
    added, r := AddLogin(d, AB, [99], [97], [98], [RootUser()], t, ino, 0, []);
  }

  lemma RootFirst()
    ensures PrintAll([RootUser()]) == ROOT_LINE && AllValid([RootUser()]) && MaxUid([RootUser()]) == 0
    ensures !Named([RootUser()], AB)
  {
    hide PrintAll;
    RootLine();
    RootClean();
    assert [RootUser()][1..] == [];
  }

  // "a:b:c:1" is a record of "a" with the password "b".
  lemma ColonLine()
    ensures Login(Users(Clip(Line(User(AB, [99], 1)), 255)), [97], [98]).Parsed?
    ensures 0 < |Clip(Line(User(AB, [99], 1)), 255)| <= 44
  {
    hide Atoi, Users;
    assert PrintInt(1) == [49];
    assert AB == [97] + [58] + [98];
    ColonName([97], [98], [99], 1);
  }

  // ---- users_change_password on a full volume

  // The user number k added by users_add: a name and a password of one byte each.
  function Filler(k: nat): User
    requires 1 <= k <= 100
  {
    User([127 + k], [112], k)
  }

  ghost predicate Fillers(us: seq<User>) {
    && 0 < |us| <= 100 && us[0] == RootUser()
    && forall i :: 1 <= i < |us| ==> us[i] == Filler(i)
  }

  lemma {:induction false} FillersValid(us: seq<User>)
    requires Fillers(us)
    ensures AllValid(us) && DistinctUids(us) && DistinctNames(us) && MaxUid(us) == |us| - 1
    ensures |us| <= 100 ==> !Named(us, [127 + |us|])
  {
    RootClean();
    assert us[|us| - 1].uid == |us| - 1;
    MaxUidBound(us, |us| - 1);
  }

  lemma {:induction false} MaxUidBound(us: seq<User>, b: nat)
    requires forall i :: 0 <= i < |us| ==> us[i].uid <= b
    ensures MaxUid(us) <= b
  {
    if us != [] {
      MaxUidBound(us[1..], b);
    }
  }

  lemma FillerLine(k: nat)
    requires 1 <= k <= 100
    ensures 6 <= |Line(Filler(k))| <= 8 && Plain([127 + k]) && Plain([112])
    ensures Clip(Line(Filler(k)), 255) == Line(Filler(k))
  {
    assert Pow10(3) == 1000;
    DigitsLength(k, 3);
  }

  // One more filler.
  lemma FillerNext(us: seq<User>)
    requires Fillers(us) && |us| < 100
    ensures
      var u := Filler(|us|);
      && Fillers(us + [u]) && Users(TextOf(PrintAll(us))) == us && MaxUid(us) + 1 == u.uid && !Named(us, u.name)
      && PrintAll(us) + Line(u) == PrintAll(us + [u]) && 6 <= |Line(u)| <= 8 && Clip(Line(u), 255) == Line(u)
  {
    hide Line, Users, TextOf;
    FillersValid(us);
    UsersBack(us);
    FillerLine(|us|);
    PrintAllAppend(us, Filler(|us|));
  }

  // Users are added, by root, as long as they certainly fit into the first block.
  method FillUsers(d: Disk, ghost t: Tree, ghost ino: nat) returns (us: seq<User>)
    requires d.Ok() && d.uid == 0 && !AllUsed(d.ofile) && d.sb.freeBlocks == 0
    requires Stored(d.vol, t, USERS, ino, ROOT_LINE) && OneBlock(d.vol, ino)
    modifies d`dev, d`vol, d`images, d`trace, d`sb, d`gd, d`ofile
    ensures d.Ok() && !AllUsed(d.ofile) && d.sb.freeBlocks == 0
    ensures Stored(d.vol, t, USERS, ino, PrintAll(us)) && OneBlock(d.vol, ino)
    ensures Fillers(us) && 504 < |PrintAll(us)| <= 512
  {
    hide Decodes, Recorded, Sound, Stored, OneBlock, Users, TextOf, Line, Fits, Consumed, Frame, OnlyFile, AllUsed;
    hide SameOpen, Named, MaxUid, PrintAll, Fillers, Filler;
    us := [RootUser()];
    FirstFiller();
    while |PrintAll(us)| <= 504
      invariant d.Ok() && d.uid == 0 && !AllUsed(d.ofile) && d.sb.freeBlocks == 0
      invariant Stored(d.vol, t, USERS, ino, PrintAll(us)) && OneBlock(d.vol, ino)
      invariant Fillers(us) && 6 * |us| <= |PrintAll(us)| <= 512
      decreases 512 - |PrintAll(us)|
    {
      ghost var v, before, s := d.vol, d.ofile, PrintAll(us);
      FillersSize(us);
      FillerNext(us);
      var u := Filler(|us|);
      FirstBlock(v, t, ino, s, |Line(u)|);
      RootMay(v.inodes[ino]);
      FillerParts(|us|);
      var r := UsersAdd(d, u.name, u.pass, t, ino, s);
      ConsumedFirst(v, d.vol, ino, |s|, |Line(u)|, 0, d.sb.freeBlocks);
      OneBlockKept(v, d.vol, ino, |s|, |Line(u)|, 0, d.sb.freeBlocks);
      SameOpenAll(before, d.ofile, d.ofile);
      us := us + [u];
    }
  }

  lemma FirstFiller()
    ensures Fillers([RootUser()]) && PrintAll([RootUser()]) == ROOT_LINE && |ROOT_LINE| == 12
  {
    RootLine();
  }

  lemma FillersSize(us: seq<User>)
    requires Fillers(us) && 6 * |us| <= 504
    ensures 0 < |us| < 100
  {
  }

  lemma FillerParts(k: nat)
    requires 1 <= k <= 100
    ensures Filler(k) == User([127 + k], [112], k)
  {
  }

  // The longer password of root makes the file longer by 11 bytes.
  lemma LongerFile(us: seq<User>, next: Name)
    requires Fillers(us) && Plain(next) && |next| == 15
    ensures
      var r := Repass(us, ROOT, next);
      |PrintAll(r)| == |PrintAll(us)| + 11
  {
    FillersValid(us);
    var r := Repass(us, ROOT, next);
    assert us[0].name == ROOT;
    assert forall i :: 1 <= i < |us| ==> us[i].name == [127 + i] && us[i].name[0] != ROOT[0];
    assert r[1..] == us[1..];
    assert r[0] == User(ROOT, next, 0);
    assert |Line(r[0])| == |Line(us[0])| + 11;
  }

  // A file of one block does not get a second one on a full volume.
  lemma NoSecondBlock(v: Vol, ino: nat, n: nat)
    requires OneBlock(v, ino) && 512 < n <= 1024
    ensures 1 <= ino <= 256 && !Fits(v.data, v.inodes[ino], 0, n, 0)
  {
    var x := v.inodes[ino];
    assert EndBlock(0, n) == 2;
    assert MapBn(v.data, x, 1) == 0;
    assert Holes(v.data, x, 1, 2) == 1 + Holes(v.data, x, 2, 2);
  }

  // A volume of 71 blocks is full when it is formatted. Once the first block of the users file is
  // full too, a longer password for root is answered with FS_OK, and a user is gone from the file.
  method RecordLost(d: Disk, next: Name)
    returns (r: int, ghost t: Tree, ghost ino: nat, us: seq<User>, ghost kept: seq<User>, ghost name: Str)
    requires d.Valid() && d.total == 71 && d.uid == 0 && !AllUsed(d.ofile) && Plain(next) && |next| == 15
    modifies d`dev, d`vol, d`images, d`trace, d`sb, d`gd, d`ofile
    ensures d.Ok() && r == FS_OK && Stored(d.vol, t, USERS, ino, PrintAll(kept)) && AllValid(kept)
    ensures Named(us, name) && !Named(kept, name)
    ensures Fillers(us) && 504 < |PrintAll(us)| <= 512
  {
    hide Decodes, Recorded, Sound, Stored, StoredOrAbsent, OneBlock, Line, Fits, AllUsed, SameOpen, Named, PrintAll;
    hide Fillers, OnlyUsers, Repass, AllValid, DistinctNames;
    ghost var before, s := d.ofile, [];
    t, ino, s := FsFormat(d);
    SameOpenAll(before, d.ofile, d.ofile);
    us := FillUsers(d, t, ino);
    FillersValid(us);
    LongerFile(us, next);
    NoSecondBlock(d.vol, ino, |PrintAll(us)| + 11);
    r, kept, name := ChangeLoses(d, ROOT, next, us, t, ino);
  }
}
