/** The session file of security.c, logging in, and fs_format with the users file. */
module Sessions {
  import opened Layout
  import opened Records
  import opened Volume
  import opened Device
  import opened FileIo
  import opened FileContent
  import opened Directory
  import opened Paths
  import opened Namespace
  import opened Files
  import opened Store
  import opened Text
  import opened Accounts
  import opened Format

  // A file just created is stored, with no bytes.
  lemma CreatedStored(v: Vol, w: Vol, t: Tree, cwd: U32, path: Name, ino: nat, uid: int, now: U32)
    requires NameTree(v, t) && Sound(v) && path != [] && path[0] == SLASH
    requires Namei(v, cwd, path).NotFound? && NameiParent(v, cwd, path).Found?
    requires Entered(v, w, NameiParent(v, cwd, path).ino, Leaf(path), ino, NewRecord(MODE_FILE, 1, uid, now))
    requires NameTree(w, Grown(t, NameiParent(v, cwd, path).ino, ino))
    ensures Stored(w, Grown(t, NameiParent(v, cwd, path).ino, ino), path, ino, [])
    ensures 1 <= ino <= 256 && w.inodes[ino] == NewRecord(MODE_FILE, 1, uid, now)
  {
    hide NameTree, Segments, Leaf, Walk, List, IsDir;
    var x := NewRecord(MODE_FILE, 1, uid, now);
    FileType(uid, now);
    AtRoot(v, t, cwd, path);
    CreateResolves(v, w, t, cwd, path, ino, x);
    assert w.inodes[ino] == x;
    assert Content(w.data, x) == [];
    AbsoluteNamei(w, cwd, path);
  }

  lemma AtRoot(v: Vol, t: Tree, cwd: U32, path: Name)
    requires NameTree(v, t) && path != [] && path[0] == SLASH
    ensures AtMember(t, cwd, path)
  {
  }

  // The other stored files are as they were.
  lemma CreatedOther(v: Vol, w: Vol, t: Tree, dir: nat, leaf: Name, ino: nat, x: Inode, path: Name, o: nat,
                     s: seq<Byte>)
    requires Stored(v, t, path, o, s) && Sound(v) && NoPointers(x) && !IsDir(x)
    requires Entered(v, w, dir, leaf, ino, x) && NameTree(w, Grown(t, dir, ino))
    ensures Stored(w, Grown(t, dir, ino), path, o, s) && w.inodes[o] == v.inodes[o]
  {
    hide NameTree, Segments, Walk, List, IsDir, Sound, Added, MapBn, ByteAt;
    var u := WithNew(v, ino, x);
    WithNewTree(v, ino, x, t);
    EnteredLookups(v, w, t, dir, leaf, ino, x);
    AtRoot(v, t, 1, path);
    NameiKept(v, w, t, 1, path);
    StoredMember(v, t, path, o, s);
    assert u.inodes[o] == v.inodes[o] && u.data == v.data;
    AddedFrame(u, w, dir, leaf, ino, x);
    OtherFile(u, w, dir, o);
  }

  // A creation that failed touches no stored file and no path.
  lemma LeakedNames(v: Vol, w: Vol, x: Inode, t: Tree)
    requires NameTree(v, t) && Sound(v) && NoPointers(x) && Leaked(v, w, x)
    ensures NameTree(w, t) && w.data == v.data
    ensures forall c {:trigger c in t.parent} :: c in t.parent && 1 <= c <= 256 ==> w.inodes[c] == v.inodes[c]
    ensures forall c: nat, q: Name {:trigger Lookup(w, c, q)} :: c in t.parent ==> Lookup(w, c, q) == Lookup(v, c, q)
  {
    hide Sound, List;
    MembersOf(v, t);
    SameMembersRefl(v, t);
    if w != v {
      var i: nat :| 1 <= i <= 256 && !v.ib[i] && w == WithNew(v, i, x);
      WithNewTree(v, i, x, t);
    }
    SameMembersLookups(v, w, t);
  }

  lemma LeakedStored(v: Vol, w: Vol, x: Inode, t: Tree, path: Name, o: nat, s: seq<Byte>)
    requires StoredOrAbsent(v, t, path, o, s) && Sound(v) && NoPointers(x) && Leaked(v, w, x)
    ensures StoredOrAbsent(w, t, path, o, s) && (1 <= o <= 256 ==> w.inodes[o] == v.inodes[o])
  {
    hide Sound, Lookup, Segments, NameTree, Leaked, MapBn, ByteAt;
    LeakedNames(v, w, x, t);
    AtRoot(v, t, 1, path);
    WalkSame(v, w, t, 1, Segments(path));
    if o != 0 {
      StoredMember(v, t, path, o, s);
    }
  }

  lemma AddedFrame(u: Vol, w: Vol, dir: nat, leaf: Name, ino: nat, x: Inode)
    requires 1 <= ino <= 256 && Added(u, w, dir, leaf, TypeOf(x), ino)
    ensures Frame(u, w, dir)
  {
  }

  lemma StoredMember(v: Vol, t: Tree, path: Name, o: nat, s: seq<Byte>)
    requires Stored(v, t, path, o, s)
    ensures o in t.parent && v.ib[o]
  {
    hide Walk, Segments, Lookup;
    WalkMember(v, t, 1, Segments(path));
  }

  // A directory in a tree of names is allocated.
  lemma TreeParent(v: Vol, t: Tree, cwd: U32, path: Name)
    requires NameTree(v, t) && AtMember(t, cwd, path) && NameiParent(v, cwd, path).Found?
    ensures ParentAllocated(v, cwd, path)
  {
    hide NameiParent;
    ParentMember(v, t, cwd, path);
  }

  // Opens a stored file for writing, or creates it, which it does exactly when it can be entered.
  method OpenOrCreate(d: Disk, path: Name, ghost t: Tree, ghost ino: nat, ghost s: seq<Byte>)
    returns (fd: int, ghost t': Tree, ghost ino': nat)
    requires d.Ok() && StoredOrAbsent(d.vol, t, path, ino, s)
    modifies d`dev, d`vol, d`images, d`trace, d`sb, d`gd, d`ofile
    ensures d.Ok() && StoredOrAbsent(d.vol, t', path, ino', s)
    ensures fd < 0 ==> d.ofile == old(d.ofile)
    ensures fd >= 0 ==>
      && fd < |old(d.ofile)| && !old(d.ofile)[fd].used && 1 <= ino' <= 256
      && d.ofile == old(d.ofile)[fd := OpenFile(true, ino', 0, true)]
    ensures ino != 0 ==> t' == t && ino' == ino && d.vol == old(d.vol) && d.sb == old(d.sb)
    ensures ino != 0 ==>
      if 1 <= ino <= 256 && !PermCanWrite(d.vol.inodes[ino], d.uid) then fd == FS_EPERM
      else if AllUsed(old(d.ofile)) then fd == FS_ERR else fd >= 0
    ensures ino == 0 ==> (ino' != 0 <==> CanEnter(old(d.vol), d.cwd, path, old(d.sb)))
    ensures ino == 0 && ino' == 0 ==> fd == CreateError(old(d.vol), d.cwd, path, old(d.sb))
    ensures ino == 0 && ino' != 0 ==>
      var p := NameiParent(old(d.vol), d.cwd, path);
      && 1 <= ino' <= 256 && d.vol.inodes[ino'] == NewRecord(MODE_FILE, 1, d.uid, d.clock)
      && (if AllUsed(old(d.ofile)) then fd == FS_ERR else fd >= 0)
      && p.Found? && t' == Grown(t, p.ino, ino')
      && Entered(old(d.vol), d.vol, p.ino, Leaf(path), ino', d.vol.inodes[ino'])
      && d.sb.freeInodes == old(d.sb.freeInodes) - 1
      && d.sb.freeBlocks == old(d.sb.freeBlocks) - EntryCost(old(d.vol), p.ino)
    ensures OthersKept(old(d.vol), t, d.vol, t', ino, ino')
  {
    hide Recorded, Decodes, Sound, AllSound, Stored, Namei, PermCanWrite, NameTree, Entered, Steps, CanEnter;
    hide NameiParent;
    hide HasRoom, Leaked, OthersKept, CreateError, ParentAllocated, EntryCost;
    ghost var v, x := d.vol, NewRecord(MODE_FILE, 1, d.uid, d.clock);
    t', ino' := t, ino;
    KeptRefl(v, t, ino);
    if ino != 0 {
      StoredRead(v, t, path, ino, s, d.cwd);
      StoredRange(v, t, path, ino, s);
    } else {
      AbsoluteNamei(v, d.cwd, path);
      AtRoot(v, t, d.cwd, path);
    }
    ghost var made;
    fd, t', made := FsOpen(d, path, [W], t);
    if ino == 0 {
      FileType(d.uid, d.clock);
      if made != 0 {
        ino' := made;
        TreeParent(v, t, d.cwd, path);
        CreatedStored(v, d.vol, t, d.cwd, path, made, d.uid, d.clock);
        OthersCreated(v, d.vol, t, t', NameiParent(v, d.cwd, path).ino, Leaf(path), made, x);
      } else {
        LeakedStored(v, d.vol, x, t, path, 0, s);
        OthersLeaked(v, d.vol, x, t);
      }
    }
  }

  lemma OthersCreated(v: Vol, w: Vol, t: Tree, t': Tree, dir: nat, leaf: Name, ino: nat, x: Inode)
    requires Sound(v) && NoPointers(x) && !IsDir(x) && Entered(v, w, dir, leaf, ino, x)
    requires t' == Grown(t, dir, ino) && NameTree(w, t')
    ensures OthersKept(v, t, w, t', 0, ino)
  {
    hide Stored, Sound, NameTree, Added;
    forall p: Name, o: nat, s: seq<Byte> | Stored(v, t, p, o, s)
      ensures Stored(w, t', p, o, s) && o != ino && 1 <= o <= 256 && w.inodes[o] == v.inodes[o]
    {
      CreatedOther(v, w, t, dir, leaf, ino, x, p, o, s);
      StoredMember(v, t, p, o, s);
      StoredRange(v, t, p, o, s);
    }
  }

  lemma OthersLeaked(v: Vol, w: Vol, x: Inode, t: Tree)
    requires Sound(v) && NoPointers(x) && Leaked(v, w, x)
    ensures OthersKept(v, t, w, t, 0, 0)
  {
    hide Stored, Sound, NameTree, Leaked;
    forall p: Name, o: nat, s: seq<Byte> | Stored(v, t, p, o, s)
      ensures Stored(w, t, p, o, s) && o != 0 && o <= 256 && w.inodes[o] == v.inodes[o]
    {
      StoredRange(v, t, p, o, s);
      LeakedStored(v, w, x, t, p, o, s);
    }
  }

  lemma StoredFile(v: Vol, t: Tree, path: Name, ino: nat, s: seq<Byte>)
    requires Stored(v, t, path, ino, s)
    ensures 1 <= ino <= 256 && !IsDir(v.inodes[ino])
  {
  }

  // What session_save answers on a file that exists.
  ghost predicate Saved(v: Vol, ino: nat, uid: int, f: seq<OpenFile>, free: nat, line: Str, r: int)
    requires 1 <= ino <= 256
  {
    r == if !PermCanWrite(v.inodes[ino], uid) then FS_EPERM
         else if AllUsed(f) then FS_ERR
         else if Fits(v.data, v.inodes[ino], 0, |line|, free) then FS_OK
         else FS_ENOSPC
  }

  // What it answers when there is no file yet, which it makes under the root directory.
  ghost function SavedNew(v: Vol, f: seq<OpenFile>, c: Counters): int {
    if c.freeInodes == 0 then FS_ENOSPC
    else if !HasRoom(v, 1, c.freeBlocks) || AllUsed(f) then FS_ERR
    else if c.freeBlocks > EntryCost(v, 1) then FS_OK
    else FS_ENOSPC
  }

  // Truncating and writing an open stored file.
  method WriteWhole(d: Disk, fd: int, line: Str, ghost t: Tree, ghost path: Name, ghost ino: nat, ghost s: seq<Byte>)
    returns (r: int)
    requires d.Ok() && Stored(d.vol, t, path, ino, s) && 1 <= ino <= 256 && |line| < 0x1_0000_0000
    requires OpenFd(d.ofile, fd) && d.ofile[fd].writable && d.ofile[fd].ino == ino
    modifies d`dev, d`vol, d`images, d`trace, d`sb, d`gd, d`ofile
    ensures d.Ok() && OpenFd(d.ofile, fd) && d.ofile == old(d.ofile)[fd := d.ofile[fd]]
    ensures
      var x := old(d.vol).inodes[ino];
      r == if !PermCanWrite(x, d.uid) then FS_EPERM
           else if Fits(old(d.vol).data, x, 0, |line|, old(d.sb.freeBlocks)) then |line| else FS_ENOSPC
    ensures Stored(d.vol, t, path, ino, if r >= 0 then line else [])
    ensures OnlyFile(old(d.vol), d.vol, t, ino)
  {
    hide Recorded, Decodes, Sound, Stored, Fits, PermCanWrite, IsDir, Frame, OnlyFile;
    ghost var v := d.vol;
    StoredFile(v, t, path, ino, s);
    var e := CutToZero(d, fd, t, path, ino, s);
    ghost var w := d.vol;
    SamePerm(v.inodes[ino], w.inodes[ino], d.uid);
    FitsTouched(v.data, v.inodes[ino], w.inodes[ino]);
    r := WriteEnd(d, fd, line, t, path, ino, []);
    assert [] + line == line;
    FrameTrans(v, w, d.vol, ino);
    StoredOnly(v, d.vol, t, path, ino, s);
  }

  // The parent part of a path right below the root is the root.
  lemma BelowRoot(v: Vol, t: Tree, cwd: U32, path: Name, c: Counters)
    requires NameTree(v, t) && |path| > 1 && path[0] == SLASH && SLASH !in path[1..]
    ensures LastSlash(path) == 0 && NameiParent(v, cwd, path) == Found(1) && Leaf(path) == Clip(path[1..], 55)
    ensures CanEnter(v, cwd, path, c) <==> c.freeInodes > 0 && HasRoom(v, 1, c.freeBlocks)
  {
    RootSlash(path);
    hide List, HasRoom, LastSlash;
    assert [SLASH][1..] == [];
    SegmentsEnd();
    assert ParentPath(path) == [SLASH];
  }

  lemma RootSlash(path: Name)
    requires |path| > 1 && path[0] == SLASH && SLASH !in path[1..]
    ensures LastSlash(path) == 0
  {
    var m := LastSlash(path);
    assert forall i :: 1 <= i < |path| ==> path[i] == path[1..][i - 1] && path[i] != SLASH;
  }

  // session_save; the buffers of the program hold a user of at most 15 bytes.
  method SessionSave(d: Disk, uid: int, user: Str, ghost t: Tree, ghost ino: nat, ghost s: seq<Byte>)
    returns (r: int, ghost t': Tree, ghost ino': nat, ghost s': seq<Byte>)
    requires d.Ok() && StoredOrAbsent(d.vol, t, SESSION, ino, s)
    requires IsInt(uid) && |user| <= 15
    modifies d`dev, d`vol, d`images, d`trace, d`sb, d`gd, d`ofile
    ensures d.Ok() && SameOpen(old(d.ofile), d.ofile) && StoredOrAbsent(d.vol, t', SESSION, ino', s')
    ensures r == FS_OK ==> ino' != 0 && s' == SessionText(uid, user)
    ensures 1 <= ino <= 256 ==>
      && t' == t && ino' == ino
      && Saved(old(d.vol), ino, d.uid, old(d.ofile), old(d.sb.freeBlocks), SessionText(uid, user), r)
      && d.vol.inodes[ino].mode == old(d.vol).inodes[ino].mode && d.vol.inodes[ino].uid == old(d.vol).inodes[ino].uid
    ensures 1 <= ino <= 256 && !PermCanWrite(old(d.vol).inodes[ino], d.uid) ==> s' == s
    ensures ino == 0 ==> r == SavedNew(old(d.vol), old(d.ofile), old(d.sb))
    ensures ino == 0 && ino' != 0 ==>
      1 <= ino' <= 256 && d.vol.inodes[ino'].mode == MODE_FILE && d.vol.inodes[ino'].uid == d.uid % 0x1_0000
    ensures OthersKept(old(d.vol), t, d.vol, t', ino, ino')
  {
    hide Recorded, Decodes, Sound, Stored, Fits, PermCanWrite, PrintInt, SessionText, OthersKept, PathsKept, CanEnter;
    hide HasRoom, EntryCost, NameiParent, Entered, NameTree, Namei;
    IntPlain(uid);
    SessionLength(uid, user);
    ghost var v := d.vol;
    SessionPath();
    if ino == 0 {
      BelowRoot(v, t, d.cwd, SESSION, d.sb);
    }
    var fd;
    fd, t', ino' := OpenOrCreate(d, SESSION, t, ino, s);
    s' := s;
    if fd < 0 {
      return fd, t', ino', s';
    }
    var line := SessionText(uid, user);
    ghost var u := d.vol;
    OwnerWrites(d.uid, d.clock);
    NewFits(u.data, u.inodes[ino'], |line|, d.sb.freeBlocks);
    r := WriteWhole(d, fd, line, t', SESSION, ino', s);
    s' := if r >= 0 then line else [];
    OthersTrans(v, t, u, t', d.vol, t', ino, ino', ino');
    var e := FsClose(d, fd);
    if r >= 0 {
      r := FS_OK;
    }
  }

  lemma SessionPath()
    ensures |SESSION| > 1 && SESSION[0] == SLASH && SLASH !in SESSION[1..]
    ensures |USERS| > 1 && USERS[0] == SLASH && SLASH !in USERS_LEAF && USERS[1..] == USERS_LEAF
  {
  }

  lemma OwnerWrites(uid: int, now: U32)
    ensures PermCanWrite(NewRecord(MODE_FILE, 1, uid, now), uid)
    ensures NoPointers(NewRecord(MODE_FILE, 1, uid, now))
  {
  }

  // The first block of a file without pointers needs one free block.
  lemma NewFits(data: seq<Block>, x: Inode, n: nat, free: nat)
    requires 0 < n <= 512
    ensures NoPointers(x) ==> (Fits(data, x, 0, n, free) <==> free > 0)
  {
    assert EndBlock(0, n) == 1;
    assert Holes(data, x, 0, 1) == (if MapBn(data, x, 0) == 0 then 1 else 0) + Holes(data, x, 1, 1);
  }

  lemma SessionLength(uid: int, user: Str)
    requires |PrintInt(uid)| <= 11 && |user| <= 15
    ensures 0 < |SessionText(uid, user)| <= 127
  {
  }

  // session_load: the buffer of 128 bytes holds at most 127 bytes of the file and a NUL.
  method SessionLoad(d: Disk, ghost t: Tree, ghost ino: nat, ghost s: seq<Byte>) returns (r: int)
    requires d.Ok() && StoredOrAbsent(d.vol, t, SESSION, ino, s)
    modifies d`dev, d`vol, d`images, d`trace, d`sb, d`gd, d`ofile, d`uid, d`user
    ensures d.Ok() && SameOpen(old(d.ofile), d.ofile) && StoredOrAbsent(d.vol, t, SESSION, ino, s) && d.sb == old(d.sb)
    ensures ino == 0 ==> r == FS_ERR
    ensures 1 <= ino <= 256 ==>
      var found := ParseSession(TextOf(Clip(s, 127)));
      && r == (if !PermCanRead(old(d.vol).inodes[ino], old(d.uid)) then FS_EPERM
               else if AllUsed(old(d.ofile)) || s == [] || found.user == [] then FS_ERR
               else FS_OK)
      && (r == FS_OK ==> d.uid == found.uid && d.user == found.user)
    ensures r != FS_OK ==> d.uid == old(d.uid) && d.user == old(d.user)
    ensures OthersKept(old(d.vol), t, d.vol, t, ino, ino) && PathsKept(old(d.vol), d.vol, t)
  {
    hide Recorded, Decodes, Sound, Stored, PermCanRead, ParseSession, TextOf, Namei, ReadAt, IsDir, Frame;
    hide OthersKept, PathsKept;
    ghost var v := d.vol;
    KeptRefl(v, t, ino);
    AbsoluteNamei(v, d.cwd, SESSION);
    if ino != 0 {
      StoredRead(v, t, SESSION, ino, s, d.cwd);
      StoredFile(v, t, SESSION, ino, s);
    } else {
      AbsentSession(v, t);
    }
    var e, f := FsNamei(d, SESSION);
    if e != FS_OK {
      return FS_ERR;
    }
    var fd := OpenStored(d, SESSION, [114], t, ino, s);
    if fd < 0 {
      return fd;
    }
    var out;
    r, out := FsRead(d, fd, 127);
    StoredHead(v, t, SESSION, ino, s);
    ghost var w := d.vol;
    OnlyReadRefl(v, ino);
    OnlyReadNext(v, v, ino, 0, d.clock);
    StoredOnlyRead(v, w, t, SESSION, ino, s);
    OnlyReadKeeps(v, w, ino);
    FileStepKept(v, w, t, ino);
    e := FsClose(d, fd);
    if r <= 0 {
      return FS_ERR;
    }
    var found := ParseSession(TextOf(out));
    if found.user == [] {
      return FS_ERR;
    }
    d.uid, d.user := found.uid, found.user;
    r := FS_OK;
  }

  lemma AbsentSession(v: Vol, t: Tree)
    requires StoredOrAbsent(v, t, SESSION, 0, [])
    ensures Namei(v, 1, SESSION).NotFound?
  {
  }

  lemma StoredHead(v: Vol, t: Tree, path: Name, ino: nat, s: seq<Byte>)
    requires Stored(v, t, path, ino, s)
    ensures 1 <= ino <= 256 && ReadAt(v.data, v.inodes[ino], 0, 127) == Clip(s, 127)
  {
    hide NameTree, Namei, HoleFree, ReadAt, Content;
    ReadAtHoleFree(v.data, v.inodes[ino], 0, 127);
  }

  // A session that was saved loads as the same uid and user, whatever the file held before.
  lemma SaveThenLoad(uid: int, user: Str)
    requires Plain(user) && IsInt(uid)
    ensures ParseSession(TextOf(Clip(SessionText(uid, user), 127))) == Session(uid, user)
    ensures SessionText(uid, user) != []
  {
    hide ParseSession, Plain, TextOf;
    SessionRoundTrip(uid, user);
    assert 0 !in SessionText(uid, user) by {
      hide PrintInt;
      IntClean(uid);
      PlainClean(user);
    }
    CleanText(SessionText(uid, user));
  }

  lemma PlainClean(s: Str)
    requires Plain(s)
    ensures 0 !in s
  {
  }

  lemma {:induction false} LoginInt(us: seq<User>, name: Str, pass: Str)
    requires Login(us, name, pass).Parsed? && forall i :: 0 <= i < |us| ==> IsInt(us[i].uid)
    ensures IsInt(Login(us, name, pass).user.uid)
  {
    hide IsInt;
    if us[0].name != name || us[0].pass != pass {
      LoginInt(us[1..], name, pass);
    }
  }

  // Whatever the users file holds, a uid read from it is an int.
  lemma UsersInt(text: Str, name: Str, pass: Str)
    requires Login(Users(text), name, pass).Parsed?
    ensures IsInt(Login(Users(text), name, pass).user.uid)
  {
    hide Lines, ParseAll, Login, IsInt;
    ParseAllInt(Lines(text));
    LoginInt(Users(text), name, pass);
  }

  // users_login. The session is saved as the user just logged in, and a failure to save it is
  // not looked at; saved is what session_save answered.
  method UsersLogin(d: Disk, name: Name, pass: Name, ghost t: Tree, ghost users: nat, ghost us: seq<Byte>,
                    ghost session: nat, ghost s: seq<Byte>)
    returns (r: int, ghost saved: int, ghost t': Tree, ghost session': nat, ghost s': seq<Byte>)
    requires d.Ok() && Stored(d.vol, t, USERS, users, us) && StoredOrAbsent(d.vol, t, SESSION, session, s)
    requires users != session
    modifies d`dev, d`vol, d`images, d`trace, d`sb, d`gd, d`ofile, d`uid, d`user
    ensures d.Ok() && Stored(d.vol, t', USERS, users, us) && StoredOrAbsent(d.vol, t', SESSION, session', s')
    ensures SameOpen(old(d.ofile), d.ofile) && users != session'
    ensures 1 <= users <= 256
    ensures
      var u := Login(Users(TextOf(us)), name, pass);
      && r == (if PermCanRead(old(d.vol).inodes[users], old(d.uid)) && !AllUsed(old(d.ofile)) && u.Parsed?
           then FS_OK else FS_ERR)
      && (r == FS_OK ==> d.uid == u.user.uid && d.user == Clip(name, 15))
    ensures r != FS_OK ==> d.uid == old(d.uid) && d.user == old(d.user) && s' == s && session' == session
    // Whether the session is saved, as the user who has just logged in.
    ensures r == FS_OK && 1 <= session <= 256 ==>
      && session' == session
      && Saved(old(d.vol), session, d.uid, old(d.ofile), old(d.sb.freeBlocks), SessionText(d.uid, d.user), saved)
    ensures r == FS_OK && session == 0 ==> saved == SavedNew(old(d.vol), old(d.ofile), old(d.sb))
    ensures r == FS_OK && saved == FS_OK ==> session' != 0 && s' == SessionText(d.uid, d.user)
    ensures r == FS_OK && 1 <= session <= 256 && !PermCanWrite(old(d.vol).inodes[session], d.uid) ==> s' == s
    // Whom the files belong to.
    ensures
      && d.vol.inodes[users].mode == old(d.vol).inodes[users].mode
      && d.vol.inodes[users].uid == old(d.vol).inodes[users].uid
    ensures 1 <= session <= 256 ==>
      && d.vol.inodes[session].mode == old(d.vol).inodes[session].mode
      && d.vol.inodes[session].uid == old(d.vol).inodes[session].uid
    ensures session == 0 && session' != 0 ==>
      1 <= session' <= 256 && d.vol.inodes[session'].mode == MODE_FILE && d.vol.inodes[session'].uid == d.uid % 0x1_0000
  {
    hide Recorded, Decodes, Sound, Stored, PermCanRead, PermCanWrite, Users, TextOf, Fits, SessionText, Frame;
    hide IsDir, OnlyRead;
    hide StoredOrAbsent, Login, SameOpen, AllUsed, HasRoom, EntryCost, NameTree, OthersKept, PathsKept;
    ghost var v, before := d.vol, d.ofile;
    saved, t', session', s' := FS_ERR, t, session, s;
    StoredFile(v, t, USERS, users, us);
    RootFile(v, t, USERS, users, us);
    var e, out := ReadStored(d, USERS, t, users, us);
    ghost var w := d.vol;
    OnlyReadKeeps(v, w, users);
    FileStepKept(v, w, t, users);
    KeptOther(v, w, t, users, SESSION, session, s);
    StoredOrAbsentRange(v, t, SESSION, session, s);
    if e != FS_OK {
      return FS_ERR, saved, t', session', s';
    }
    var ok, uid := ScanLogin(TextOf(out), name, pass);
    if !ok {
      return FS_ERR, saved, t', session', s';
    }
    UsersInt(TextOf(us), name, pass);
    d.uid, d.user := uid, Clip(name, 15);
    ghost var open := d.ofile;
    saved, t', session', s' := SessionSave(d, d.uid, d.user, t, session, s);
    SameOpenAll(before, open, d.ofile);
    SameRoot(v, w, users);
    KeptStored(w, t, d.vol, t', session, session', USERS, users, us);
    r := FS_OK;
  }

  lemma StoredOrAbsentRange(v: Vol, t: Tree, path: Name, ino: nat, s: seq<Byte>)
    requires StoredOrAbsent(v, t, path, ino, s)
    ensures ino <= 256
  {
  }

  // A stored file is not the root directory.
  lemma RootFile(v: Vol, t: Tree, path: Name, ino: nat, s: seq<Byte>)
    requires Stored(v, t, path, ino, s)
    ensures ino != 1
  {
  }

  lemma KeptStored(v: Vol, t: Tree, w: Vol, t': Tree, ino: nat, ino': nat, path: Name, o: nat, s: seq<Byte>)
    requires OthersKept(v, t, w, t', ino, ino') && Stored(v, t, path, o, s) && o != ino && 1 <= o <= 256
    ensures Stored(w, t', path, o, s) && o != ino' && w.inodes[o] == v.inodes[o]
  {
    hide Stored;
  }

  lemma SameOpenAll(f: seq<OpenFile>, g: seq<OpenFile>, h: seq<OpenFile>)
    requires SameOpen(f, g)
    ensures AllUsed(g) == AllUsed(f)
    ensures SameOpen(g, h) ==> SameOpen(f, h)
  {
  }

  // Reading a file leaves the room in the root directory.
  lemma SameRoot(v: Vol, w: Vol, ino: nat)
    requires OnlyRead(v, w, ino) && ino != 1
    ensures forall free: nat :: HasRoom(w, 1, free) == HasRoom(v, 1, free)
    ensures EntryCost(w, 1) == EntryCost(v, 1)
  {
    assert w.inodes[1] == v.inodes[1];
  }

  // So a user who logs in after root has saved a session does not get his own saved: the file
  // belongs to root and its mode lets others read it only.
  lemma RootSessionStays(x: Inode, uid: int)
    requires x.mode == MODE_FILE && x.uid == 0
    ensures PermCanWrite(x, uid) <==> uid == 0 || uid % 0x1_0000 == 0
    ensures PermCanRead(x, uid)
  {
  }

  // "root:root:0\n"
  const ROOT_LINE: Str := [114, 111, 111, 116, 58, 114, 111, 111, 116, 58, 48, 10]

  function RootUser(): User {
    User([114, 111, 111, 116], [114, 111, 111, 116], 0)
  }

  lemma RootLineIs()
    ensures Line(RootUser()) == ROOT_LINE
  {
  }

  lemma RootClean()
    ensures 0 !in ROOT_LINE && Valid(RootUser())
  {
  }

  // The users file that a new volume gets holds root alone, with uid 0.
  lemma RootLine()
    ensures Users(TextOf(ROOT_LINE)) == [RootUser()] && PrintAll([RootUser()]) == ROOT_LINE
  {
    hide Line, Users, TextOf, RootUser;
    RootLineIs();
    RootClean();
    assert [RootUser()][1..] == [];
    assert PrintAll([RootUser()]) == Line(RootUser()) + PrintAll([]);
    assert ROOT_LINE + [] == ROOT_LINE;
    CleanText(ROOT_LINE);
    UsersPrintAll([RootUser()]);
  }

  // What users_bootstrap leaves when it made the users file: u is the volume before the line.
  ghost predicate Bootstrapped(v: Vol, u: Vol, w: Vol, t: Tree, t': Tree, ino: nat, uid: int, now: U32) {
    && 1 <= ino <= 256 && t' == Grown(t, 1, ino) && Sound(u)
    && Entered(v, u, 1, USERS_LEAF, ino, NewRecord(MODE_FILE, 1, uid, now)) && Frame(u, w, ino)
    && w.inodes[ino].mode == MODE_FILE && w.inodes[ino].uid == uid % 0x1_0000
  }

  // The file has no block behind its first one.
  ghost predicate OneBlock(v: Vol, ino: nat) {
    1 <= ino <= 256 && forall k: nat {:trigger MapBn(v.data, v.inodes[ino], k)} ::
      k >= 1 ==> MapBn(v.data, v.inodes[ino], k) == 0
  }

  // A write that ends in the first block leaves it at that.
  lemma OneBlockKept(v: Vol, w: Vol, ino: nat, pos: nat, len: nat, free: nat, free': int)
    requires 1 <= ino <= 256 && Consumed(v, w, ino, pos, len, free, free') && pos + len <= 512
    requires OneBlock(v, ino) || NoPointers(v.inodes[ino])
    ensures OneBlock(w, ino)
  {
  }

  // The new users file gets its line.
  method WriteRoot(d: Disk, fd: int, ghost t: Tree, ghost ino: nat) returns (r: int)
    requires d.Ok() && Stored(d.vol, t, USERS, ino, []) && WriteFd(d.ofile, fd, ino, 0)
    requires 1 <= ino <= 256 && d.vol.inodes[ino] == NewRecord(MODE_FILE, 1, d.uid, d.clock)
    modifies d`dev, d`vol, d`images, d`trace, d`sb, d`gd, d`ofile
    ensures d.Ok() && d.sb.freeInodes == old(d.sb.freeInodes)
    ensures r == if old(d.sb.freeBlocks) > 0 then FS_OK else FS_ENOSPC
    ensures Stored(d.vol, t, USERS, ino, if r == FS_OK then ROOT_LINE else [])
    ensures Frame(old(d.vol), d.vol, ino) && d.vol.inodes[ino].uid == old(d.vol).inodes[ino].uid
    ensures OthersKept(old(d.vol), t, d.vol, t, ino, ino)
    ensures r == FS_OK ==> d.sb.freeBlocks == old(d.sb.freeBlocks) - 1 && OneBlock(d.vol, ino)
    ensures OpenFd(d.ofile, fd) && d.ofile == old(d.ofile)[fd := d.ofile[fd]]
  {
    hide Recorded, Decodes, Sound, Stored, Fits, PermCanWrite, Frame, Consumed, OthersKept, PathsKept, OneBlock;
    ghost var u, free := d.vol, d.sb.freeBlocks;
    OwnerWrites(d.uid, d.clock);
    NewFits(u.data, u.inodes[ino], 12, d.sb.freeBlocks);
    NewNeeds(u.data, u.inodes[ino], 12);
    r := WriteEnd(d, fd, ROOT_LINE, t, USERS, ino, []);
    assert [] + ROOT_LINE == ROOT_LINE;
    StoredOnly(u, d.vol, t, USERS, ino, []);
    ConsumedBlocks(u, d.vol, ino, 0, 12, d.sb.freeBlocks);
    if r >= 0 {
      OneBlockKept(u, d.vol, ino, 0, 12, free, d.sb.freeBlocks);
      r := FS_OK;
    }
  }

  // users_bootstrap. u is the volume before the line is written to a new file.
  method UsersBootstrap(d: Disk, ghost t: Tree, ghost ino: nat, ghost s: seq<Byte>)
    returns (r: int, ghost t': Tree, ghost ino': nat, ghost s': seq<Byte>, ghost u: Vol)
    requires d.Ok() && StoredOrAbsent(d.vol, t, USERS, ino, s)
    modifies d`dev, d`vol, d`images, d`trace, d`sb, d`gd, d`ofile
    ensures d.Ok() && SameOpen(old(d.ofile), d.ofile) && StoredOrAbsent(d.vol, t', USERS, ino', s')
    ensures ino != 0 ==> r == FS_OK && t' == t && ino' == ino && s' == s && d.vol == old(d.vol) && d.sb == old(d.sb)
    ensures ino == 0 ==> r == SavedNew(old(d.vol), old(d.ofile), old(d.sb))
    ensures ino == 0 ==> (ino' != 0 <==> old(d.sb.freeInodes) > 0 && HasRoom(old(d.vol), 1, old(d.sb.freeBlocks)))
    ensures ino == 0 && ino' != 0 ==>
      && Bootstrapped(old(d.vol), u, d.vol, t, t', ino', d.uid, d.clock)
      && s' == (if r == FS_OK then ROOT_LINE else [])
      && d.sb.freeInodes == old(d.sb.freeInodes) - 1
    ensures ino == 0 && r == FS_OK ==>
      OneBlock(d.vol, ino') && d.sb.freeBlocks == old(d.sb.freeBlocks) - EntryCost(old(d.vol), 1) - 1
    ensures OthersKept(old(d.vol), t, d.vol, t', ino, ino')
  {
    hide Recorded, Decodes, Sound, Stored, PermCanWrite, Namei, CanEnter, EntryCost, HasRoom, NameTree, IsDir, Frame;
    hide Entered, OthersKept, PathsKept, NameiParent, Leaf, OneBlock;
    ghost var v := d.vol;
    u := v;
    t', ino', s' := t, ino, s;
    AbsoluteNamei(v, d.cwd, USERS);
    KeptRefl(v, t, ino);
    SessionPath();
    if ino != 0 {
      StoredRead(v, t, USERS, ino, s, d.cwd);
    } else {
      BelowRoot(v, t, d.cwd, USERS, d.sb);
      assert Clip(USERS_LEAF, 55) == USERS_LEAF;
    }
    var e, f := FsNamei(d, USERS);
    if e == FS_OK {
      return FS_OK, t', ino', s', u;
    }
    var fd;
    fd, t', ino' := OpenOrCreate(d, USERS, t, ino, s);
    u := d.vol;
    FrameRefl(u, ino');
    if fd < 0 {
      return fd, t', ino', s', u;
    }
    r := WriteRoot(d, fd, t', ino');
    s' := if r == FS_OK then ROOT_LINE else s;
    FrameMode(u, d.vol, ino');
    OthersTrans(v, t, u, t', d.vol, t', ino, ino', ino');
    e := FsClose(d, fd);
  }

  lemma NewNeeds(data: seq<Block>, x: Inode, n: nat)
    requires 0 < n <= 512
    ensures NoPointers(x) ==> Needed(data, x, 0, EndBlock(0, n)) == 1
  {
    assert EndBlock(0, n) == 1;
    assert Holes(data, x, 0, 1) == (if MapBn(data, x, 0) == 0 then 1 else 0) + Holes(data, x, 1, 1);
  }

  lemma ConsumedBlocks(v: Vol, w: Vol, ino: nat, pos: nat, len: nat, free': int)
    requires 1 <= ino <= 256
    ensures forall free: nat :: Consumed(v, w, ino, pos, len, free, free') && len > 0 ==>
      free' == free - Needed(v.data, v.inodes[ino], pos / 512, EndBlock(pos, len))
  {
  }

  // The root directory after formatting: the dots and the users file.
  ghost predicate OnlyUsers(v: Vol, ino: nat) {
    && 1 <= ino <= 256 && v.ib[1] && IsDir(v.inodes[1]) && v.inodes[1].size == 192 && v.inodes[1].direct[0] != 0
    && |List(v, 1)| == 3 && EntryIs(List(v, 1)[0], 1, DOT) && EntryIs(List(v, 1)[1], 1, DOTDOT)
    && List(v, 1)[2] == Dirent(ino, FT_REG, Padded(USERS_LEAF))
  }

  // fs_format: whatever the device held, the volume is sound, its names form a tree, the root
  // directory holds the users file alone, which belongs to the user, and no session file. Given one
  // block for it, the users file holds root.
  method FsFormat(d: Disk) returns (ghost t: Tree, ghost ino: nat, ghost s: seq<Byte>)
    requires d.Valid() && !AllUsed(d.ofile)
    modifies d`dev, d`vol, d`images, d`trace, d`sb, d`gd, d`ofile
    ensures d.Ok() && SameOpen(old(d.ofile), d.ofile) && Stored(d.vol, t, USERS, ino, s)
    ensures 1 < ino <= 256 && t == Grown(RootTree(), 1, ino) && OnlyUsers(d.vol, ino)
    ensures s == if d.total > 70 then ROOT_LINE else []
    ensures d.vol.inodes[ino].mode == MODE_FILE && d.vol.inodes[ino].uid == d.uid % 0x1_0000
    ensures d.sb.freeInodes == 254 && (d.total > 70 ==> d.sb.freeBlocks == d.total - 71 && OneBlock(d.vol, ino))
    ensures StoredOrAbsent(d.vol, t, SESSION, 0, [])
  {
    hide Recorded, Decodes, Sound, NameTree, Stored, Frame, Entered, Namei, List, IsDir, FreshRoot, OthersKept;
    hide OneBlock;
    FormatVolume(d);
    ghost var v := d.vol;
    EmptyRoot(v);
    var r;
    ghost var u;
    r, t, ino, s, u := UsersBootstrap(d, RootTree(), 0, []);
    FormattedRoot(v, u, d.vol, ino, NewRecord(MODE_FILE, 1, d.uid, d.clock), d.uid, d.clock);
    RootFile(d.vol, t, USERS, ino, s);
    StoredTree(d.vol, t, USERS, ino, s);
    NoSession(d.vol, t, ino);
  }

  lemma StoredTree(v: Vol, t: Tree, path: Name, ino: nat, s: seq<Byte>)
    requires Stored(v, t, path, ino, s)
    ensures NameTree(v, t)
  {
  }

  lemma FormattedRoot(v: Vol, u: Vol, w: Vol, ino: nat, x: Inode, uid: int, now: U32)
    requires FreshRoot(v) && Entered(v, u, 1, USERS_LEAF, ino, x) && Frame(u, w, ino) && Sound(u)
    requires x == NewRecord(MODE_FILE, 1, uid, now)
    ensures OnlyUsers(w, ino)
  {
    FileType(uid, now);
    hide Sound, CStr, Padded;
    FrameList(u, w, ino, 1);
  }

  // No name but the three of the root directory is found in it.
  lemma OnlyThree(v: Vol, ino: nat, q: Name)
    requires OnlyUsers(v, ino) && q != DOT && q != DOTDOT && q != USERS_LEAF && |q| <= 55
    ensures Lookup(v, 1, q) == NotFound(FS_ENOENT)
  {
    var l := List(v, 1);
    hide List, NameIs, Padded;
    DotsDiffer(l[0], l[1], q, 1, 1);
    assert Clip(q, 56) == q && Clip(USERS_LEAF, 55) == USERS_LEAF;
    AddedMatch(USERS_LEAF, ino, FT_REG, q);
    FirstMatchIs(l, q, 3);
  }

  lemma NoSession(v: Vol, t: Tree, ino: nat)
    requires NameTree(v, t) && OnlyUsers(v, ino)
    ensures StoredOrAbsent(v, t, SESSION, 0, [])
  {
    hide NameTree, OnlyUsers, Lookup;
    SessionPath();
    BelowRoot(v, t, 1, SESSION, Counters(0, 0));
    assert Clip(SESSION[1..], 55) == SESSION[1..];
    NameiLeaf(v, 1, SESSION);
    OnlyThree(v, ino, SESSION[1..]);
  }

  lemma EmptyRoot(v: Vol)
    requires FreshRoot(v) && NameTree(v, RootTree())
    ensures StoredOrAbsent(v, RootTree(), USERS, 0, [])
    ensures forall free: nat :: HasRoom(v, 1, free)
    ensures EntryCost(v, 1) == 0
  {
    hide NameTree;
    SessionPath();
    BelowRoot(v, RootTree(), 1, USERS, Counters(0, 0));
    assert Clip(USERS_LEAF, 55) == USERS_LEAF;
    NameiLeaf(v, 1, USERS);
    NotInFresh(v);
  }

  lemma NotInFresh(v: Vol)
    requires FreshRoot(v)
    ensures Lookup(v, 1, USERS_LEAF).NotFound?
  {
    hide NameIs, Entry, List, Padded;
    DotsDiffer(List(v, 1)[0], List(v, 1)[1], USERS_LEAF, 1, 1);
    FirstMatchIs(List(v, 1), USERS_LEAF, 2);
  }
}
