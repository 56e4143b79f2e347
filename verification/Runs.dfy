/** Whole runs: any sequence of commands on a formatted volume. */
module Runs {
  import opened Layout
  import opened Records
  import opened Volume
  import opened Device
  import opened InodeTable
  import opened FileIo
  import opened Directory
  import opened Paths
  import opened Namespace
  import opened Files
  import opened Store
  import opened Sessions

  type Data = s: seq<Byte> | |s| < 0x1_0000_0000 witness []
  type Int32 = x: int | -0x8000_0000 <= x < 0x8000_0000

  // The commands of the program and, below them, the operations that they are made of; those of
  // security.c are made of opening, reading, cutting the size, seeking, writing and closing, and of
  // becoming another user.
  datatype Command =
    | Open(path: Name, mode: seq<Byte>)
    | Mkdir(path: Name)
    | Delete(path: Name)
    | Write(fd: int, buf: Data)
    | Read(fd: int, len: U32)
    | Seek(fd: int, off: Int32)
    | Close(fd: int)
    | Cd(path: Name)
    | Become(uid: int, user: seq<Byte>)
    | CutSize(ino: U32)
    | Truncate(ino: U32)
    | AddEntry(dir: U32, name: Name, ftype: Byte, child: U32)
    | RemoveEntry(dir: U32, name: Name)

  // What a command returns, with the bytes of a read.
  datatype Answer = Answer(r: int, out: seq<Byte>)

  // The parent part of the path fits the buffer of cmd_delete.
  predicate Callable(c: Command) {
    c.Delete? ==> LastSlash(c.path) < 256
  }

  // What the names ask of a command, all of it known before the command: a free block for the
  // dots of a new directory, a proper path to delete, and no writing into a directory.
  ghost predicate Proper(v: Vol, t: Tree, cwd: U32, f: seq<OpenFile>, free: nat, c: Command) {
    match c
    case Mkdir(_) => free > 0
    case Delete(path) => Refused(v, cwd, path) ||
      (Deletable(v, t, cwd, path) && |RawLeaf(path)| <= 55 && Namei(v, cwd, path).ino != cwd)
    case Write(fd, _) => OpenFd(f, fd) ==> NoDirectory(v, t, f[fd].ino)
    case CutSize(ino) => NoDirectory(v, t, ino)
    case Truncate(_) => false
    case AddEntry(_, _, _, _) => false
    case RemoveEntry(_, _) => false
    case _ => true
  }

  ghost predicate NoDirectory(v: Vol, t: Tree, ino: nat) {
    1 <= ino <= 256 && ino in t.parent ==> !IsDir(v.inodes[ino])
  }

  // cmd_delete finds nothing, or a directory that has had an entry.
  ghost predicate Refused(v: Vol, cwd: U32, path: Name) {
    var f := Namei(v, cwd, path);
    f.NotFound? || (1 <= f.ino <= 256 && IsDir(v.inodes[f.ino]) && v.inodes[f.ino].size > 128)
  }

  // The commands whose block writes are in an order that a crash may cut short: all but those that
  // give blocks back.
  predicate Ordered(c: Command) {
    !c.Delete? && !c.Truncate?
  }

  // The commands whose every block write keeps the names a tree, when they are proper.
  predicate Steady(c: Command) {
    c.Open? || c.Mkdir? || c.Write? || c.Read? || c.Seek? || c.Close? || c.Cd? || c.Become? || c.CutSize?
  }

  lemma ReadTree(v: Vol, w: Vol, ino: nat, t: Tree)
    requires NameTree(v, t) && OnlyRead(v, w, ino)
    ensures NameTree(w, t)
  {
    hide Entry;
    forall c | c in t.parent && 1 <= c <= 256
      ensures w.ib[c] == v.ib[c] && IsDir(w.inodes[c]) == IsDir(v.inodes[c]) && List(w, c) == List(v, c)
    {
      TouchedList(v, w, ino, c);
    }
    SameMembersTree(v, w, t);
  }

  lemma TouchedList(v: Vol, w: Vol, ino: nat, c: nat)
    requires OnlyRead(v, w, ino) && 1 <= c <= 256
    ensures w.ib[c] == v.ib[c] && IsDir(w.inodes[c]) == IsDir(v.inodes[c]) && List(w, c) == List(v, c)
  {
  }

  // A write to a regular file, or to an inode outside the tree.
  lemma WriteTree(r: seq<Vol>, s: seq<Vol>, v: Vol, w: Vol, ino: nat, t: Tree)
    requires NameTree(v, t) && Sound(v) && 1 <= ino <= 256 && Frame(v, w, ino) && Grew(r, s, v, ino)
    requires ino in t.parent ==> !IsDir(v.inodes[ino])
    ensures NameTree(w, t) && Steps(r, s, t, w)
  {
    hide Sound, NameTree, IsDir;
    ModeType(v, w, ino);
    FileStepTree(v, w, ino, t);
    forall i | |r| <= i < |s|
      ensures NameTree(s[i], t)
    {
      ModeType(v, s[i], ino);
      FileStepTree(v, s[i], ino, t);
    }
  }

  method CmdCd(d: Disk, path: Name) returns (r: int)
    requires d.Ok()
    modifies d`cwd
    ensures d.Ok()
    ensures var f := Namei(d.vol, old(d.cwd), path);
      if f.Found? then r == FS_OK && d.cwd == f.ino else r == f.err && d.cwd == old(d.cwd)
  {
    hide Recorded, Decodes, Sound, Namei;
    var ino;
    ghost var f := Namei(d.vol, d.cwd, path);
    if f.NotFound? {
      NameiError(d.vol, d.cwd, path);
    }
    r, ino := FsNamei(d, path);
    if r == FS_OK {
      d.cwd := ino;
    }
  }

  // ---- what the commands do

  // The state before a command, with the images written so far and the tree that its names are
  // meant to form.
  datatype Snap = Snap(
    vol: Vol, trace: seq<Vol>, sb: Counters, gd: Counters, ofile: seq<OpenFile>,
    cwd: U32, uid: int, user: seq<Byte>, clock: U32, tree: Tree)

  ghost function Now(d: Disk, t: Tree): (s: Snap)
    reads d
  {
    Snap(d.vol, d.trace, d.sb, d.gd, d.ofile, d.cwd, d.uid, d.user, d.clock, t)
  }

  // The device is as before.
  ghost predicate SameDisk(s: Snap, t: Snap) {
    t.vol == s.vol && t.trace == s.trace && t.sb == s.sb
  }

  // fs_open; made is the inode created, 0 when there is none.
  ghost predicate DidOpen(s: Snap, t: Snap, path: Name, mode: seq<Byte>, r: int, made: nat) {
    var f, p, x := Namei(s.vol, s.cwd, path), NameiParent(s.vol, s.cwd, path), NewRecord(MODE_FILE, 1, s.uid, s.clock);
    if f.Found? then
      SameDisk(s, t) && OpenedExisting(s.vol, s.uid, s.ofile, t.ofile, f.ino, W in mode, r)
    else if W !in mode then
      SameDisk(s, t) && t.ofile == s.ofile && r == f.err
    else if made == 0 then
      && !CanEnter(s.vol, s.cwd, path, s.sb) && r == CreateError(s.vol, s.cwd, path, s.sb)
      && t.ofile == s.ofile && Leaked(s.vol, t.vol, x)
    else
      && p.Found? && Entered(s.vol, t.vol, p.ino, Leaf(path), made, x) && TookFd(s.ofile, t.ofile, made, true, r)
      && (ParentAllocated(s.vol, s.cwd, path) ==> CanEnter(s.vol, s.cwd, path, s.sb))
  }

  // cmd_mkdir; made is the inode entered, 0 when there is none, and u the volume before the entry.
  ghost predicate DidMkdir(s: Snap, t: Snap, path: Name, r: int, made: nat, u: Vol) {
    var p, x := NameiParent(s.vol, s.cwd, path), NewRecord(MODE_DIR, 2, s.uid, s.clock);
    if made == 0 then
      r != FS_OK && !CanMkdir(s.vol, s.cwd, path, s.sb) && LeftBehind(s.vol, t.vol, s.tree, x, s.sb.freeBlocks)
    else
      && r == FS_OK && p.Found? && Made(s.vol, u, s.tree, made, x, p.ino, s.sb.freeBlocks)
      && Linked(s.vol, u, t.vol, s.tree, p.ino, Leaf(path), made)
      && (ParentAllocated(s.vol, s.cwd, path) ==> CanMkdir(s.vol, s.cwd, path, s.sb))
  }

  // cmd_delete; gone is the inode given back, u the volume before the entry is removed from p.
  ghost predicate DidDelete(s: Snap, t: Snap, path: Name, r: int, gone: nat, u: Vol, p: nat) {
    var f := Namei(s.vol, s.cwd, path);
    && (r == FS_OK || (gone == 0 && SameDisk(s, t) && (r == FS_ENOENT || r == FS_ERR)))
    && (if f.NotFound? then r == FS_ENOENT
        else if !(1 <= f.ino <= 256) then gone == 0
        else if IsDir(s.vol.inodes[f.ino]) && s.vol.inodes[f.ino].size > 128 then r == FS_ERR
        else r == FS_OK && gone == f.ino)
    && (r == FS_OK ==>
          && (if gone != 0 then Discarded(s.vol, u, gone) else u == s.vol)
          && (NameiParent(u, s.cwd, path).Found? ==> p == NameiParent(u, s.cwd, path).ino)
          && (!(1 <= p <= 256) ==> t.vol == u)
          && (1 <= p <= 256 ==>
                var i := FirstMatch(List(u, p), RawLeaf(path));
                if i == |List(u, p)| then t.vol == u else Removed(u, t.vol, p, i)))
  }

  // fs_write
  ghost predicate DidWrite(s: Snap, t: Snap, fd: int, buf: Data, r: int) {
    if !OpenFd(s.ofile, fd) then r == FS_EBADF && SameDisk(s, t) && t.ofile == s.ofile
    else if !s.ofile[fd].writable then r == FS_EPERM && SameDisk(s, t) && t.ofile == s.ofile
    else if !(1 <= s.ofile[fd].ino <= 256) then r == FS_ERR && SameDisk(s, t) && t.ofile == s.ofile
    else
      var f := s.ofile[fd];
      var x, y := s.vol.inodes[f.ino], t.vol.inodes[f.ino];
      if !PermCanWrite(x, s.uid) then r == FS_EPERM && SameDisk(s, t) && t.ofile == s.ofile
      else
        && Frame(s.vol, t.vol, f.ino)
        && if Fits(s.vol.data, x, f.offset, |buf|, s.sb.freeBlocks) then
             && r == |buf| && t.ofile == s.ofile[fd := f.(offset := f.offset + |buf|)]
             && y.size == Max(x.size, f.offset + |buf|) && Overlaid(s.vol.data, x, t.vol.data, y, f.offset, buf)
           else
             && r == FS_ENOSPC && t.ofile == s.ofile && y == x
             && forall i: nat :: !(f.offset <= i < f.offset + |buf|) ==>
                  ByteAt(t.vol.data, x, i) == ByteAt(s.vol.data, x, i)
  }

  // fs_read
  ghost predicate DidRead(s: Snap, t: Snap, fd: int, len: U32, a: Answer) {
    && t.sb == s.sb
    && if !OpenFd(s.ofile, fd) then a == Answer(FS_EBADF, []) && t.vol == s.vol && t.ofile == s.ofile
       else
         var f := s.ofile[fd];
         if !(1 <= f.ino <= 256) then a == Answer(FS_ERR, []) && t.vol == s.vol && t.ofile == s.ofile
         else
           var x := s.vol.inodes[f.ino];
           if !PermCanRead(x, s.uid) then a == Answer(FS_EPERM, []) && t.vol == s.vol && t.ofile == s.ofile
           else
             && a.out == ReadAt(s.vol.data, x, f.offset, len) && a.r == |a.out|
             && t.ofile == s.ofile[fd := f.(offset := f.offset + a.r)]
             && t.vol == With(s.vol, f.ino, Touched(x, f.offset, s.clock))
  }

  // fs_seek, fs_close, cmd_cd
  ghost predicate DidTurn(s: Snap, t: Snap, c: Command, r: int) {
    match c
    case Seek(fd, off) =>
      if OpenFd(s.ofile, fd) then
        r == FS_OK && t.ofile == s.ofile[fd := s.ofile[fd].(offset := if off < 0 then 0 else off)]
      else r == FS_EBADF && t.ofile == s.ofile
    case Close(fd) =>
      if OpenFd(s.ofile, fd) then r == FS_OK && t.ofile == s.ofile[fd := s.ofile[fd].(used := false)]
      else r == FS_EBADF && t.ofile == s.ofile
    case Cd(path) =>
      var f := Namei(s.vol, s.cwd, path);
      if f.Found? then r == FS_OK && t.cwd == f.ino else r == f.err && t.cwd == s.cwd
    case Become(uid, user) => r == FS_OK && t.uid == uid && t.user == user
    case _ => false
  }

  // Cutting the size, inode_truncate, dir_add, dir_remove
  ghost predicate DidRaw(s: Snap, t: Snap, c: Command, r: int) {
    match c
    case CutSize(ino) =>
      if 1 <= ino <= 256 then r == FS_OK && t.vol == With(s.vol, ino, s.vol.inodes[ino].(size := 0))
      else r == FS_ERR && SameDisk(s, t)
    case Truncate(ino) =>
      if 1 <= ino <= 256 then
        && r == FS_OK && t.vol.data == s.vol.data && t.vol.ib == s.vol.ib
        && t.vol.inodes == s.vol.inodes[ino := Emptied(s.vol.inodes[ino], s.clock)]
        && forall b: nat :: b < 4096 ==> t.vol.bb[b] == (s.vol.bb[b] && b !in Owned(s.vol, ino))
      else r == FS_ERR && t.vol == s.vol
    case AddEntry(dir, name, ftype, child) =>
      if !(1 <= dir <= 256) then r == FS_ERR && SameDisk(s, t)
      else if !IsDir(s.vol.inodes[dir]) then r == FS_ENOTDIR && SameDisk(s, t)
      else if !HasRoom(s.vol, dir, s.sb.freeBlocks) then r == FS_ENOSPC && SameDisk(s, t)
      else r == FS_OK && Added(s.vol, t.vol, dir, name, ftype, child)
    case RemoveEntry(dir, name) =>
      if !(1 <= dir <= 256) then r == FS_ERR && SameDisk(s, t)
      else
        var i := FirstMatch(List(s.vol, dir), name);
        if i == |List(s.vol, dir)| then r == FS_ENOENT && SameDisk(s, t)
        else r == FS_OK && Removed(s.vol, t.vol, dir, i)
    case _ => false
  }

  // The command leads from s to t and answers a.
  ghost predicate Did(s: Snap, t: Snap, c: Command, a: Answer) {
    && t.clock == s.clock
    && (c.Become? || (t.uid == s.uid && t.user == s.user))
    && (c.Cd? || t.cwd == s.cwd)
    && (c.Open? || c.Write? || c.Read? || c.Seek? || c.Close? || t.ofile == s.ofile)
    && (c.Seek? || c.Close? || c.Cd? || c.Become? ==> SameDisk(s, t))
    && (c.Read? || a.out == [])
    && match c
       case Open(path, mode) => exists made: nat :: DidOpen(s, t, path, mode, a.r, made)
       case Mkdir(path) => exists made: nat, u: Vol :: DidMkdir(s, t, path, a.r, made, u)
       case Delete(path) => exists gone: nat, u: Vol, p: nat :: DidDelete(s, t, path, a.r, gone, u, p)
       case Write(fd, buf) => DidWrite(s, t, fd, buf, a.r)
       case Read(fd, len) => DidRead(s, t, fd, len, a)
       case Seek(_, _) => DidTurn(s, t, c, a.r)
       case Close(_) => DidTurn(s, t, c, a.r)
       case Cd(_) => DidTurn(s, t, c, a.r)
       case Become(_, _) => DidTurn(s, t, c, a.r)
       case _ => DidRaw(s, t, c, a.r)
  }

  // ---- what they keep

  ghost predicate GoodNames(s: Snap) {
    NameTree(s.vol, s.tree) && s.cwd in s.tree.parent
  }

  ghost predicate ProperAt(s: Snap, c: Command) {
    Proper(s.vol, s.tree, s.cwd, s.ofile, s.sb.freeBlocks, c)
  }

  // What every command keeps, from s to t. The images are added to those before. If the command is
  // ordered, each of them is sound, whatever the names; if it is steady and proper, the names of
  // each of them form a tree as well.
  ghost predicate SafeStep(s: Snap, t: Snap, c: Command) {
    && s.trace <= t.trace
    && (Ordered(c) ==> AllSound(s.trace, t.trace))
    && (GoodNames(s) && ProperAt(s, c) ==> GoodNames(t) && (Steady(c) ==> SafeSince(s.trace, t.trace)))
  }

  // The names form some tree.
  ghost predicate HasTree(v: Vol) {
    exists t :: NameTree(v, t)
  }

  // Every image from the end of r on is sound and its names form a tree.
  ghost predicate SafeSince(r: seq<Vol>, s: seq<Vol>) {
    r <= s && forall i {:trigger s[i]} :: |r| <= i < |s| ==> Sound(s[i]) && HasTree(s[i])
  }

  // The images of a steady command keep its first tree or have its last one.
  lemma StepSafe(s: Snap, t: Snap, c: Command)
    requires s.trace <= t.trace && (Ordered(c) ==> AllSound(s.trace, t.trace))
    requires GoodNames(s) && ProperAt(s, c) ==> GoodNames(t) && (Steady(c) ==> Steps(s.trace, t.trace, s.tree, t.vol))
    ensures SafeStep(s, t, c)
  {
    hide Sound, NameTree, Proper;
    if GoodNames(s) && ProperAt(s, c) && Steady(c) {
      forall i | |s.trace| <= i < |t.trace|
        ensures Sound(t.trace[i]) && HasTree(t.trace[i])
      {
        assert NameTree(t.trace[i], s.tree) || NameTree(t.trace[i], t.tree);
      }
    }
  }

  lemma SoundPrefix(r: seq<Vol>, s: seq<Vol>)
    requires AllSound(r, s)
    ensures r <= s
  {
  }

  lemma OpenDone(s: Snap, t: Snap, path: Name, mode: seq<Byte>, r: int, made: nat)
    requires DidOpen(s, t, path, mode, r, made)
    requires t.clock == s.clock && t.uid == s.uid && t.user == s.user && t.cwd == s.cwd
    ensures Did(s, t, Open(path, mode), Answer(r, []))
  {
    hide DidOpen;
  }

  method ExecOpen(d: Disk, path: Name, mode: seq<Byte>, ghost t: Tree) returns (r: int, ghost t': Tree)
    requires d.Ok()
    modifies d`dev, d`vol, d`images, d`trace, d`sb, d`gd, d`ofile
    ensures d.Ok() && Did(old(Now(d, t)), Now(d, t'), Open(path, mode), Answer(r, []))
    ensures SafeStep(old(Now(d, t)), Now(d, t'), Open(path, mode))
  {
    hide Recorded, Decodes, Sound, AllSound, NameTree, Entered, Namei, NameiParent, CanEnter, OpenedExisting;
    hide TookFd, Leaked, CreateError, ParentAllocated, Steps, SafeStep, Did;
    ghost var s := Now(d, t);
    ghost var made;
    StartMember(s, path);
    r, t', made := FsOpen(d, path, mode, t);
    OpenDone(s, Now(d, t'), path, mode, r, made);
    SoundPrefix(s.trace, d.trace);
    GrownMember(t, NameiParent(s.vol, d.cwd, path), made, d.cwd);
    StepSafe(s, Now(d, t'), Open(path, mode));
  }

  lemma StartMember(s: Snap, path: Name)
    ensures GoodNames(s) ==> AtMember(s.tree, s.cwd, path)
  {
  }

  lemma GrownMember(t: Tree, p: Found, c: nat, cwd: nat)
    ensures p.Found? && cwd in t.parent ==> cwd in Grown(t, p.ino, c).parent
  {
  }

  lemma MkdirDone(s: Snap, t: Snap, path: Name, r: int, made: nat, u: Vol)
    requires DidMkdir(s, t, path, r, made, u) && t.ofile == s.ofile
    requires t.clock == s.clock && t.uid == s.uid && t.user == s.user && t.cwd == s.cwd
    ensures Did(s, t, Mkdir(path), Answer(r, []))
  {
    hide DidMkdir;
  }

  method ExecMkdir(d: Disk, path: Name, ghost t: Tree) returns (r: int, ghost t': Tree)
    requires d.Ok()
    modifies d`dev, d`vol, d`images, d`trace, d`sb, d`gd
    ensures d.Ok() && Did(old(Now(d, t)), Now(d, t'), Mkdir(path), Answer(r, []))
    ensures SafeStep(old(Now(d, t)), Now(d, t'), Mkdir(path))
  {
    hide Recorded, Decodes, Sound, AllSound, NameTree, CanMkdir, ParentAllocated, EntryCost, Linked;
    hide NameiParent, Namei, FreshDir, List, SameMembers, LeftBehind, Steps, AllSteps, SafeStep, Did;
    ghost var s := Now(d, t);
    ghost var made, u;
    r, made, u := CmdMkdir(d, path, t);
    t' := t;
    if GoodNames(s) && s.sb.freeBlocks > 0 {
      StartMember(s, path);
      if made != 0 {
        t' := Grown(t, NameiParent(s.vol, d.cwd, path).ino, made);
        assert NameTree(d.vol, t') by {
          MkdirNames(s.vol, u, d.vol, t, d.cwd, path, made, true);
        }
        GrownMember(t, NameiParent(s.vol, d.cwd, path), made, d.cwd);
      } else {
        AllStepsSteps(s.trace, d.trace, t, d.vol);
      }
    }
    MkdirDone(s, Now(d, t'), path, r, made, u);
    SoundPrefix(s.trace, d.trace);
    StepSafe(s, Now(d, t'), Mkdir(path));
  }

  lemma AllStepsSteps(r: seq<Vol>, s: seq<Vol>, t: Tree, w: Vol)
    requires AllSteps(r, s, t)
    ensures Steps(r, s, t, w)
  {
  }

  lemma DeleteDone(s: Snap, t: Snap, path: Name, r: int, gone: nat, u: Vol, p: nat)
    requires DidDelete(s, t, path, r, gone, u, p) && t.ofile == s.ofile
    requires t.clock == s.clock && t.uid == s.uid && t.user == s.user && t.cwd == s.cwd
    ensures Did(s, t, Delete(path), Answer(r, []))
  {
    hide DidDelete;
  }

  lemma PrunedMember(t: Tree, c: nat, cwd: nat)
    requires cwd in t.parent && cwd != c
    ensures cwd in Pruned(t, c).parent
  {
  }

  method ExecDelete(d: Disk, path: Name, ghost t: Tree) returns (r: int, ghost t': Tree)
    requires d.Ok() && LastSlash(path) < 256
    modifies d`dev, d`vol, d`images, d`trace, d`sb, d`gd
    ensures d.Ok() && Did(old(Now(d, t)), Now(d, t'), Delete(path), Answer(r, []))
    ensures SafeStep(old(Now(d, t)), Now(d, t'), Delete(path))
  {
    hide Recorded, Decodes, Sound, NameTree, Namei, NameiParent, Discarded, Removed, List, Deletable, IsDir, SafeStep;
    hide Did, FirstMatch, Pruned, Visits;
    ghost var v, s := d.vol, Now(d, t);
    ghost var gone, u, p;
    r, gone, u, p := CmdDelete(d, path);
    t' := t;
    CdMember(s, path);
    DeletableFound(v, t, d.cwd, path);
    if GoodNames(s) && ProperAt(s, Delete(path)) && gone != 0 {
      t' := Pruned(t, gone);
      assert NameTree(d.vol, t') by {
        DeleteNames(v, u, d.vol, t, d.cwd, path, gone, p);
      }
      PrunedMember(t, gone, d.cwd);
    }
    DeleteDone(s, Now(d, t'), path, r, gone, u, p);
    StepSafe(s, Now(d, t'), Delete(path));
  }

  lemma DeletableFound(v: Vol, t: Tree, cwd: U32, path: Name)
    ensures Deletable(v, t, cwd, path) ==>
      NameTree(v, t) && Namei(v, cwd, path).Found? && (Namei(v, cwd, path).ino in t.parent ==>
        1 <= Namei(v, cwd, path).ino <= 256)
  {
  }

  method ExecWrite(d: Disk, fd: int, buf: Data, ghost t: Tree) returns (r: int)
    requires d.Ok()
    modifies d`dev, d`vol, d`images, d`trace, d`sb, d`gd, d`ofile
    ensures d.Ok() && Did(old(Now(d, t)), Now(d, t), Write(fd, buf), Answer(r, []))
    ensures SafeStep(old(Now(d, t)), Now(d, t), Write(fd, buf))
  {
    hide AllSound, Recorded, Decodes, Sound, NameTree, Fits, Overlaid, Filled, Grew, Frame, PermCanWrite;
    hide ByteAt, MapBn, IsDir, Steps, SafeStep;
    ghost var s := Now(d, t);
    AllSoundRefl(d.trace);
    StepsRefl(d.trace, t, d.vol);
    r := FsWrite(d, fd, buf);
    if r == |buf| || r == FS_ENOSPC {
      GrewSound(s.trace, d.trace, s.vol, s.ofile[fd].ino);
      if GoodNames(s) && ProperAt(s, Write(fd, buf)) {
        WriteTree(s.trace, d.trace, s.vol, d.vol, s.ofile[fd].ino, t);
      }
    }
    SoundPrefix(s.trace, d.trace);
    StepSafe(s, Now(d, t), Write(fd, buf));
  }

  lemma ReadDone(s: Snap, t: Snap, fd: int, len: U32, a: Answer)
    requires DidRead(s, t, fd, len, a)
    requires t.clock == s.clock && t.uid == s.uid && t.user == s.user && t.cwd == s.cwd
    ensures Did(s, t, Read(fd, len), a)
  {
  }

  method ExecRead(d: Disk, fd: int, len: U32, ghost t: Tree) returns (a: Answer)
    requires d.Ok()
    modifies d`dev, d`vol, d`images, d`trace, d`ofile
    ensures d.Ok() && Did(old(Now(d, t)), Now(d, t), Read(fd, len), a)
    ensures SafeStep(old(Now(d, t)), Now(d, t), Read(fd, len))
  {
    AllSoundRefl(d.trace);
    StepsRefl(d.trace, t, d.vol);
    assert Sound(d.vol);
    hide Recorded, Decodes, Sound, NameTree, ReadAt, PermCanRead, OnlyRead, SafeStep, Did;
    ghost var v, f, s := d.vol, d.ofile, Now(d, t);
    var r, out := FsRead(d, fd, len);
    a := Answer(r, out);
    ReadDone(s, Now(d, t), fd, len, a);
    if r >= 0 {
      var ino := f[fd].ino;
      OnlyReadRefl(v, ino);
      OnlyReadNext(v, v, ino, f[fd].offset, d.clock);
      if NameTree(v, t) {
        ReadTree(v, d.vol, ino, t);
      }
    }
    StepSafe(s, Now(d, t), Read(fd, len));
  }

  lemma CutDone(s: Snap, t: Snap, ino: U32, r: int)
    requires DidRaw(s, t, Command.CutSize(ino), r) && t.ofile == s.ofile
    requires t.clock == s.clock && t.uid == s.uid && t.user == s.user && t.cwd == s.cwd
    ensures Did(s, t, Command.CutSize(ino), Answer(r, []))
  {
    hide DidRaw;
  }

  method ExecCut(d: Disk, ino: U32, ghost t: Tree) returns (r: int)
    requires d.Ok()
    modifies d`dev, d`vol, d`images, d`trace
    ensures d.Ok() && Did(old(Now(d, t)), Now(d, t), Command.CutSize(ino), Answer(r, []))
    ensures SafeStep(old(Now(d, t)), Now(d, t), Command.CutSize(ino))
  {
    AllSoundRefl(d.trace);
    StepsRefl(d.trace, t, d.vol);
    assert Sound(d.vol);
    hide Recorded, Decodes, Sound, NameTree, Frame, IsDir, SafeStep, Did;
    ghost var v, s := d.vol, Now(d, t);
    r := Store.CutSize(d, ino);
    CutDone(s, Now(d, t), ino, r);
    if r == FS_OK && NameTree(v, t) && NoDirectory(v, t, ino) {
      ModeType(v, d.vol, ino);
      FileStepTree(v, d.vol, ino, t);
    }
    StepSafe(s, Now(d, t), Command.CutSize(ino));
  }

  // The commands that leave the device alone.
  method ExecTurn(d: Disk, c: Command, ghost t: Tree) returns (r: int)
    requires d.Ok() && (c.Seek? || c.Close? || c.Cd? || c.Become?)
    modifies d`ofile, d`cwd, d`uid, d`user
    ensures d.Ok() && Did(old(Now(d, t)), Now(d, t), c, Answer(r, []))
    ensures SafeStep(old(Now(d, t)), Now(d, t), c)
  {
    hide Recorded, Decodes, Sound, AllSound, NameTree, Namei, SafeStep, Steps;
    AllSoundRefl(d.trace);
    StepsRefl(d.trace, t, d.vol);
    ghost var s := Now(d, t);
    match c {
      case Seek(fd, off) => r := FsSeek(d, fd, off);
      case Close(fd) => r := FsClose(d, fd);
      case Cd(path) =>
        CdMember(s, path);
        r := CmdCd(d, path);
      case Become(uid, user) =>
        d.uid, d.user := uid, user;
        r := FS_OK;
    }
    StepSafe(s, Now(d, t), c);
  }

  lemma CdMember(s: Snap, path: Name)
    ensures GoodNames(s) && Namei(s.vol, s.cwd, path).Found? ==> Namei(s.vol, s.cwd, path).ino in s.tree.parent
  {
    hide Walk, Segments;
    if GoodNames(s) && Namei(s.vol, s.cwd, path).Found? {
      WalkMember(s.vol, s.tree, Start(s.cwd, path), Segments(path));
    }
  }

  // The operations below the commands, applied to any inode: the pointers stay sound.
  method ExecTruncate(d: Disk, ino: U32, ghost t: Tree) returns (r: int)
    requires d.Ok()
    modifies d`dev, d`vol, d`images, d`trace, d`sb, d`gd
    ensures d.Ok() && Did(old(Now(d, t)), Now(d, t), Truncate(ino), Answer(r, []))
    ensures SafeStep(old(Now(d, t)), Now(d, t), Truncate(ino))
  {
    hide Recorded, Decodes, Sound, Owned, SafeStep, NameTree;
    ghost var s := Now(d, t);
    r := InodeTruncate(d, ino);
    StepSafe(s, Now(d, t), Truncate(ino));
  }

  method ExecAdd(d: Disk, dir: U32, name: Name, ftype: Byte, child: U32, ghost t: Tree) returns (r: int)
    requires d.Ok()
    modifies d`dev, d`vol, d`images, d`trace, d`sb, d`gd
    ensures d.Ok() && Did(old(Now(d, t)), Now(d, t), AddEntry(dir, name, ftype, child), Answer(r, []))
    ensures SafeStep(old(Now(d, t)), Now(d, t), AddEntry(dir, name, ftype, child))
  {
    hide Recorded, Decodes, Sound, AllSound, Added, Ends, HasRoom, IsDir, SafeStep, NameTree;
    ghost var s := Now(d, t);
    AllSoundRefl(d.trace);
    r := DirAdd(d, dir, name, ftype, child);
    if r == FS_OK {
      EndsSound(s.trace, d.trace, s.vol, dir, d.vol);
    }
    SoundPrefix(s.trace, d.trace);
    StepSafe(s, Now(d, t), AddEntry(dir, name, ftype, child));
  }

  method ExecRemove(d: Disk, dir: U32, name: Name, ghost t: Tree) returns (r: int)
    requires d.Ok()
    modifies d`dev, d`vol, d`images, d`trace
    ensures d.Ok() && Did(old(Now(d, t)), Now(d, t), RemoveEntry(dir, name), Answer(r, []))
    ensures SafeStep(old(Now(d, t)), Now(d, t), RemoveEntry(dir, name))
  {
    hide Recorded, Decodes, Sound, AllSound, Removed, List, FirstMatch, SafeStep, NameTree;
    ghost var s := Now(d, t);
    r := DirRemove(d, dir, name);
    SoundPrefix(s.trace, d.trace);
    StepSafe(s, Now(d, t), RemoveEntry(dir, name));
  }

  // One command is carried out.
  method Exec(d: Disk, c: Command, ghost t: Tree) returns (a: Answer, ghost t': Tree)
    requires d.Ok() && Callable(c)
    modifies d`dev, d`vol, d`images, d`trace, d`sb, d`gd, d`ofile, d`cwd, d`uid, d`user
    ensures d.Ok() && Did(old(Now(d, t)), Now(d, t'), c, a)
    ensures SafeStep(old(Now(d, t)), Now(d, t'), c)
  {
    hide Recorded, Decodes, Sound, Did, SafeStep;
    t' := t;
    var r, out := FS_OK, [];
    match c {
      case Open(path, mode) => r, t' := ExecOpen(d, path, mode, t);
      case Mkdir(path) => r, t' := ExecMkdir(d, path, t);
      case Delete(path) => r, t' := ExecDelete(d, path, t);
      case Write(fd, buf) => r := ExecWrite(d, fd, buf, t);
      case Read(fd, len) =>
        a := ExecRead(d, fd, len, t);
        r, out := a.r, a.out;
      case CutSize(ino) => r := ExecCut(d, ino, t);
      case Truncate(ino) => r := ExecTruncate(d, ino, t);
      case AddEntry(dir, name, ftype, child) => r := ExecAdd(d, dir, name, ftype, child, t);
      case RemoveEntry(dir, name) => r := ExecRemove(d, dir, name, t);
      case _ => r := ExecTurn(d, c, t);
    }
    a := Answer(r, out);
  }

  // The pointers are sound and the counters true.
  ghost predicate GoodVolume(s: Snap) {
    && Sound(s.vol) && s.sb == s.gd
    && s.sb.freeBlocks == CountClear(s.vol.bb, 0, |s.vol.data|)
    && s.sb.freeInodes == CountClear(s.vol.ib, 1, 257)
  }

  // Every command is proper in the state in which it is given.
  ghost predicate AllProper(hist: seq<Snap>, cs: seq<Command>) {
    |hist| > |cs| && forall i :: 0 <= i < |cs| ==> ProperAt(hist[i], cs[i])
  }

  // A run passes through the states of hist: each command is carried out and answered.
  ghost predicate SafeRun(hist: seq<Snap>, cs: seq<Command>, answers: seq<Answer>) {
    && |hist| == |cs| + 1 && |answers| == |cs|
    && (forall i :: 0 <= i < |hist| ==> GoodVolume(hist[i]))
    && (forall i :: 0 <= i < |cs| ==> Did(hist[i], hist[i + 1], cs[i], answers[i]))
    && (forall i :: 0 <= i < |cs| ==> SafeStep(hist[i], hist[i + 1], cs[i]))
  }

  // Any sequence of commands, failing ones included: every command is carried out, every state on
  // the way is good, and every step safe in the sense above. The image after any block write of an
  // ordered command could be the last one before a crash.
  method Run(d: Disk, cs: seq<Command>, ghost t: Tree) returns (answers: seq<Answer>, ghost hist: seq<Snap>)
    requires d.Ok() && forall i :: 0 <= i < |cs| ==> Callable(cs[i])
    modifies d`dev, d`vol, d`images, d`trace, d`sb, d`gd, d`ofile, d`cwd, d`uid, d`user
    ensures d.Ok() && SafeRun(hist, cs, answers)
    ensures hist[0] == old(Now(d, t)) && hist[|cs|] == Now(d, hist[|cs|].tree)
  {
    hide Recorded, Decodes, Sound, NameTree, Proper, SafeStep, Did;
    ghost var t' := t;
    answers, hist := [], [Now(d, t)];
    for i := 0 to |cs|
      invariant d.Ok() && SafeRun(hist, cs[..i], answers) && hist[0] == old(Now(d, t)) && hist[i] == Now(d, t')
    {
      var a;
      a, t' := Exec(d, cs[i], t');
      answers, hist := answers + [a], hist + [Now(d, t')];
    }
    assert cs[..|cs|] == cs;
  }

  // As long as every command is proper the names form a tree.
  lemma {:induction false} RunNames(hist: seq<Snap>, cs: seq<Command>, answers: seq<Answer>, n: nat)
    requires SafeRun(hist, cs, answers) && AllProper(hist, cs) && GoodNames(hist[0]) && n <= |cs|
    ensures GoodNames(hist[n])
  {
    hide GoodNames, ProperAt, GoodVolume, AllSound, Did;
    if n > 0 {
      RunNames(hist, cs, answers, n - 1);
      assert SafeStep(hist[n - 1], hist[n], cs[n - 1]);
    }
  }

  lemma RunLength(hist: seq<Snap>, cs: seq<Command>, answers: seq<Answer>)
    requires SafeRun(hist, cs, answers)
    ensures |hist| == |cs| + 1
  {
  }

  // From fs_format on: whatever the device held and whatever commands follow.
  method FormatAndRun(d: Disk, cs: seq<Command>)
    returns (answers: seq<Answer>, ghost hist: seq<Snap>, ghost ino: nat)
    requires d.Valid() && !AllUsed(d.ofile) && d.cwd == 1 && forall i :: 0 <= i < |cs| ==> Callable(cs[i])
    modifies d`dev, d`vol, d`images, d`trace, d`sb, d`gd, d`ofile, d`cwd, d`uid, d`user
    ensures d.Ok() && SafeRun(hist, cs, answers) && hist[|cs|] == Now(d, hist[|cs|].tree)
    ensures GoodNames(hist[0]) && OnlyUsers(hist[0].vol, ino)
    ensures AllProper(hist, cs) ==> forall i :: 0 <= i < |hist| ==> GoodNames(hist[i])
  {
    hide Recorded, Decodes, Sound, NameTree, Proper, Stored, StoredOrAbsent, OnlyUsers, SafeStep, GoodVolume, AllProper;
    hide Did;
    ghost var t, s;
    t, ino, s := FsFormat(d);
    FormattedTree(d.vol, t, ino, s);
    answers, hist := Run(d, cs, t);
    RunLength(hist, cs, answers);
    hide SafeRun, GoodNames;
    if AllProper(hist, cs) {
      forall i | 0 <= i <= |cs|
        ensures GoodNames(hist[i])
      {
        RunNames(hist, cs, answers, i);
      }
    }
  }

  lemma FormattedTree(v: Vol, t: Tree, ino: nat, s: seq<Byte>)
    requires Stored(v, t, Accounts.USERS, ino, s)
    ensures NameTree(v, t) && 1 in t.parent
  {
  }
}
