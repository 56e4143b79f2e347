/** Whole files under fixed names, as security.c uses them: read in full, appended to, rewritten. */
module Store {
  import opened Layout
  import opened Records
  import opened Volume
  import opened Device
  import opened InodeTable
  import opened FileIo
  import opened FileContent
  import opened Directory
  import opened Paths
  import opened Namespace
  import opened Files

  // The absolute path names the regular file ino, which holds exactly the bytes s.
  ghost predicate Stored(v: Vol, t: Tree, path: Name, ino: nat, s: seq<Byte>) {
    && 1 <= ino <= 256
    && NameTree(v, t) && path != [] && path[0] == SLASH && Namei(v, 1, path) == Found(ino)
    && !IsDir(v.inodes[ino])
    && HoleFree(v.data, v.inodes[ino]) && Content(v.data, v.inodes[ino]) == s
  }

  // The absolute path names a stored file, or, with ino 0, nothing yet.
  ghost predicate StoredOrAbsent(v: Vol, t: Tree, path: Name, ino: nat, s: seq<Byte>) {
    if ino == 0 then NameTree(v, t) && path != [] && path[0] == SLASH && Namei(v, 1, path).NotFound? && s == []
    else Stored(v, t, path, ino, s)
  }

  // Every stored file other than ino stays, with its record, and is not the new ino'.
  ghost predicate OthersKept(v: Vol, t: Tree, w: Vol, t': Tree, ino: nat, ino': nat) {
    forall p: Name, o: nat, s: seq<Byte> :: Stored(v, t, p, o, s) && o != ino ==>
      Stored(w, t', p, o, s) && o != ino' && w.inodes[o] == v.inodes[o]
  }

  // What users_add and users_change_password leave alone: the owner and mode of the users file,
  // every other stored file, every path.
  ghost predicate OnlyFile(v: Vol, w: Vol, t: Tree, ino: nat)
    requires 1 <= ino <= 256
  {
    && w.inodes[ino].mode == v.inodes[ino].mode && w.inodes[ino].uid == v.inodes[ino].uid
    && OthersKept(v, t, w, t, ino, ino) && PathsKept(v, w, t)
  }

  // The names form the same tree and every absolute path leads where it led, or nowhere as before.
  ghost predicate PathsKept(v: Vol, w: Vol, t: Tree) {
    NameTree(v, t) ==> NameTree(w, t) && forall p: Name :: p != [] && p[0] == SLASH ==> Namei(w, 1, p) == Namei(v, 1, p)
  }

  lemma KeptRefl(v: Vol, t: Tree, ino: nat)
    ensures OthersKept(v, t, v, t, ino, ino) && PathsKept(v, v, t)
  {
    hide NameTree, Namei, HoleFree, Content;
  }

  lemma OthersTrans(v: Vol, t: Tree, w: Vol, t': Tree, u: Vol, t'': Tree, ino: nat, ino': nat, ino'': nat)
    requires OthersKept(v, t, w, t', ino, ino') && OthersKept(w, t', u, t'', ino', ino'')
    ensures OthersKept(v, t, u, t'', ino, ino'')
  {
    hide Stored;
    forall p: Name, o: nat, s: seq<Byte> | Stored(v, t, p, o, s) && o != ino
      ensures Stored(u, t'', p, o, s) && o != ino'' && 1 <= o <= 256 && u.inodes[o] == v.inodes[o]
    {
      StoredRange(v, t, p, o, s);
      assert Stored(w, t', p, o, s);
    }
  }

  // What was stored, or absent, under a path other than that of ino still is.
  lemma KeptOther(v: Vol, w: Vol, t: Tree, ino: nat, path: Name, o: nat, s: seq<Byte>)
    requires OthersKept(v, t, w, t, ino, ino) && PathsKept(v, w, t) && StoredOrAbsent(v, t, path, o, s) && o != ino
    ensures StoredOrAbsent(w, t, path, o, s) && (1 <= o <= 256 ==> w.inodes[o] == v.inodes[o])
  {
    hide Stored, NameTree, Namei;
    if o != 0 {
      assert Stored(v, t, path, o, s);
    }
  }

  // A change to a regular file leaves every path and every other stored file as it was.
  lemma FileStepKept(v: Vol, w: Vol, t: Tree, ino: nat)
    requires Sound(v) && Frame(v, w, ino) && 1 <= ino <= 256 && !IsDir(v.inodes[ino])
    ensures OthersKept(v, t, w, t, ino, ino) && PathsKept(v, w, t)
  {
    hide Stored, Sound, NameTree, Namei, IsDir;
    ModeType(v, w, ino);
    forall p: Name, o: nat, s: seq<Byte> | Stored(v, t, p, o, s) && o != ino
      ensures Stored(w, t, p, o, s) && 1 <= o <= 256 && w.inodes[o] == v.inodes[o]
    {
      StoredRange(v, t, p, o, s);
      StoredOther(v, w, t, p, o, s, ino);
    }
    if NameTree(v, t) {
      forall p: Name | p != [] && p[0] == SLASH
        ensures NameTree(w, t) && Namei(w, 1, p) == Namei(v, 1, p)
      {
        FileStepNamei(v, w, ino, t, p);
      }
      FileStepNamei(v, w, ino, t, [SLASH]);
    }
  }

  lemma StoredOnly(v: Vol, w: Vol, t: Tree, path: Name, ino: nat, s: seq<Byte>)
    requires Sound(v) && Stored(v, t, path, ino, s) && Frame(v, w, ino) && w.inodes[ino].uid == v.inodes[ino].uid
    ensures 1 <= ino <= 256 && OnlyFile(v, w, t, ino)
  {
    hide Sound, NameTree, Namei, HoleFree, Content;
    FileStepKept(v, w, t, ino);
  }

  lemma AbsoluteNamei(v: Vol, cwd: U32, path: Name)
    requires path != [] && path[0] == SLASH
    ensures Namei(v, cwd, path) == Namei(v, 1, path)
  {
  }

  // A change to a regular file leaves every path where it was.
  lemma FileStepNamei(v: Vol, w: Vol, ino: nat, t: Tree, path: Name)
    requires NameTree(v, t) && Sound(v) && Frame(v, w, ino) && 1 <= ino <= 256
    requires !IsDir(v.inodes[ino]) && !IsDir(w.inodes[ino])
    ensures NameTree(w, t) && Namei(w, 1, path) == Namei(v, 1, path)
  {
    hide List, Segments, IsDir;
    FileStepTree(v, w, ino, t);
    MembersOf(v, t);
    forall c | c in t.parent && 1 <= c <= 256 && c != ino
      ensures w.inodes[c] == v.inodes[c] && List(w, c) == List(v, c)
    {
      FrameList(v, w, ino, c);
    }
    SameMembersLookups(v, w, t);
    assert AtMember(t, 1, path);
    WalkSame(v, w, t, 1, Segments(path));
  }

  // The file gets new contents; the files under other inodes keep theirs.
  lemma StoredStep(v: Vol, w: Vol, t: Tree, path: Name, ino: nat, s: seq<Byte>, s': seq<Byte>)
    requires Stored(v, t, path, ino, s) && Sound(v) && Frame(v, w, ino) && w.inodes[ino].mode == v.inodes[ino].mode
    requires HoleFree(w.data, w.inodes[ino]) && Content(w.data, w.inodes[ino]) == s'
    ensures Stored(w, t, path, ino, s')
  {
    hide HoleFree, Content, Namei, NameTree;
    FileStepNamei(v, w, ino, t, path);
  }

  lemma StoredOther(v: Vol, w: Vol, t: Tree, path: Name, o: nat, s: seq<Byte>, ino: nat)
    requires Stored(v, t, path, o, s) && Sound(v) && Frame(v, w, ino) && 1 <= ino <= 256 && ino != o
    requires !IsDir(v.inodes[ino]) && w.inodes[ino].mode == v.inodes[ino].mode
    ensures Stored(w, t, path, o, s)
  {
    hide Content, Namei, NameTree, MapBn;
    FileStepNamei(v, w, ino, t, path);
    OtherFile(v, w, ino, o);
  }

  // ---- reading a file in full

  lemma {:induction false} ReadBytesBound(data: seq<Block>, x: Inode, pos: nat, m: nat)
    ensures pos + |ReadBytes(data, x, pos, m)| <= 138 * 512 || ReadBytes(data, x, pos, m) == []
    decreases m
  {
    hide Ptr;
    if m > 0 && MapBn(data, x, pos / 512) != 0 {
      ReadBytesBound(data, x, pos + 1, m - 1);
    }
  }

  // Once a read returns nothing, so does every other read there.
  lemma ReadEnd(data: seq<Block>, x: Inode, n: nat)
    requires ReadAt(data, x, |ReadAt(data, x, 0, n)|, 4096) == []
    ensures ReadAt(data, x, 0, n) == ReadAt(data, x, 0, x.size)
  {
    hide MapBn, ByteAt;
    var s := ReadAt(data, x, 0, n);
    if x.size > n {
      ReadAtSplit(data, x, 0, n, x.size - n);
      assert ReadAt(data, x, |s|, x.size - n) == [];
    }
  }

  ghost predicate AllUsed(f: seq<OpenFile>) {
    forall i :: 0 <= i < |f| ==> f[i].used
  }

  // The same files are open; what a closed slot still holds does not matter.
  ghost predicate SameOpen(f: seq<OpenFile>, g: seq<OpenFile>) {
    |f| == |g| && forall i :: 0 <= i < |f| ==> f[i].used == g[i].used && (f[i].used ==> f[i] == g[i])
  }

  // w differs from v by the access time of inode ino only.
  ghost predicate OnlyRead(v: Vol, w: Vol, ino: nat) {
    1 <= ino <= 256 && exists a: U32 :: w == With(v, ino, v.inodes[ino].(atime := a))
  }

  lemma OnlyReadRefl(v: Vol, ino: nat)
    requires 1 <= ino <= 256
    ensures OnlyRead(v, v, ino)
  {
    assert v == With(v, ino, v.inodes[ino].(atime := v.inodes[ino].atime));
  }

  lemma OnlyReadNext(v: Vol, w: Vol, ino: nat, pos: nat, now: U32)
    requires OnlyRead(v, w, ino)
    ensures OnlyRead(v, With(w, ino, Touched(w.inodes[ino], pos, now)), ino)
  {
  }

  // What reading leaves alone, for the file as well.
  lemma OnlyReadKeeps(v: Vol, w: Vol, ino: nat)
    requires OnlyRead(v, w, ino) && Sound(v)
    ensures Frame(v, w, ino) && w.data == v.data && w.inodes[ino].mode == v.inodes[ino].mode
    ensures w.inodes[ino] == v.inodes[ino].(atime := w.inodes[ino].atime)
    ensures Content(w.data, w.inodes[ino]) == Content(v.data, v.inodes[ino])
    ensures HoleFree(v.data, v.inodes[ino]) ==> HoleFree(w.data, w.inodes[ino])
  {
    var x, y := v.inodes[ino], w.inodes[ino];
    assert forall k: nat :: MapBn(w.data, y, k) == MapBn(v.data, x, k);
    hide MapBn;
    assert forall i: nat :: ByteAt(w.data, y, i) == ByteAt(v.data, x, i);
  }

  lemma ReadAtBound(data: seq<Block>, x: Inode, n: nat)
    ensures |ReadAt(data, x, 0, n)| <= 138 * 512
  {
    hide MapBn;
    ReadBytesBound(data, x, 0, if n > x.size then x.size else n);
  }

  // The loop of read_whole_file: reads of 4096 bytes into a buffer that doubles before it gets
  // short, until one returns nothing; it ends with what one read of the whole size returns, and
  // no read reaches beyond the buffer.
  method ReadAll(d: Disk, fd: int, ghost v: Vol, ghost x: Inode, ghost ino: nat) returns (r: int, out: seq<Byte>)
    requires d.Ok() && d.vol == v && OpenFd(d.ofile, fd) && d.ofile[fd].ino == ino && d.ofile[fd].offset == 0
    requires 1 <= ino <= 256 && x == v.inodes[ino] && PermCanRead(x, d.uid)
    modifies d`dev, d`vol, d`images, d`trace, d`ofile
    ensures d.Ok() && r == FS_OK && out == ReadAt(v.data, x, 0, x.size) && OnlyRead(v, d.vol, ino)
    ensures OpenFd(d.ofile, fd) && d.ofile == old(d.ofile)[fd := d.ofile[fd]]
  {
    hide Recorded, Decodes, Sound, ReadAt, OnlyRead;
    out := [];
    var cap := 0;
    ghost var n := 0;
    OnlyReadRefl(v, ino);
    assert ReadAt(v.data, x, 0, 0) == [] by {
      ReadNothing(v.data, x);
    }
    while true
      invariant d.Ok() && OnlyRead(v, d.vol, ino) && |out| <= cap <= 0x4_0000 && (cap == 0 || cap >= 4096)
      invariant OpenFd(d.ofile, fd) && d.ofile[fd].ino == ino && d.ofile[fd].offset == |out|
      invariant d.ofile == old(d.ofile)[fd := d.ofile[fd]]
      invariant out == ReadAt(v.data, x, 0, n) && |out| <= 138 * 512
      decreases 138 * 512 - |out|
    {
      if cap - |out| < 4096 {
        cap := if cap != 0 then cap * 2 else 4096;
      }
      assert |out| + 4096 <= cap;
      ghost var w := d.vol;
      OnlyReadKeeps(v, w, ino) by {
        assert Sound(v);
      }
      SamePerm(x, w.inodes[ino], d.uid);
      var chunk;
      r, chunk := FsRead(d, fd, 4096);
      TouchedReads(v.data, x, w.inodes[ino], |out|, 4096);
      OnlyReadNext(v, w, ino, |out|, d.clock);
      if r == 0 {
        ReadEnd(v.data, x, n);
        r := FS_OK;
        return;
      }
      ReadAtSplit(v.data, x, 0, n, 4096);
      ReadAtBound(v.data, x, n + 4096);
      out := out + chunk;
      n := n + 4096;
    }
  }

  lemma SamePerm(x: Inode, y: Inode, uid: int)
    requires x.mode == y.mode && x.uid == y.uid
    ensures PermCanRead(x, uid) == PermCanRead(y, uid) && PermCanWrite(x, uid) == PermCanWrite(y, uid)
  {
  }

  lemma ReadNothing(data: seq<Block>, x: Inode)
    ensures ReadAt(data, x, 0, 0) == []
  {
  }

  // read_whole_file, on any path and any file.
  method ReadWholeFile(d: Disk, path: Name) returns (r: int, out: seq<Byte>)
    requires d.Ok()
    modifies d`dev, d`vol, d`images, d`trace, d`sb, d`gd, d`ofile
    ensures d.Ok() && SameOpen(old(d.ofile), d.ofile) && d.sb == old(d.sb)
    ensures var f := Namei(old(d.vol), d.cwd, path);
      if f.NotFound? then r == f.err && d.vol == old(d.vol)
      else if !(1 <= f.ino <= 256) then r == FS_ERR && d.vol == old(d.vol)
      else
        var x := old(d.vol).inodes[f.ino];
        && r == (if !PermCanRead(x, d.uid) then FS_EPERM else if AllUsed(old(d.ofile)) then FS_ERR else FS_OK)
        && (r == FS_OK ==> out == ReadAt(old(d.vol).data, x, 0, x.size))
        && OnlyRead(old(d.vol), d.vol, f.ino)
  {
    hide Recorded, Decodes, Sound, Namei, PermCanRead, ReadAt, OnlyRead, NameTree;
    ghost var v, before := d.vol, d.ofile;
    ghost var f := Namei(v, d.cwd, path);
    if f.NotFound? {
      NameiError(v, d.cwd, path);
    } else if 1 <= f.ino <= 256 {
      OnlyReadRefl(v, f.ino);
    }
    var fd;
    ghost var t, made;
    fd, t, made := FsOpen(d, path, [114], Tree(map[], map[]));
    out := [];
    if fd < 0 {
      return fd, out;
    }
    r, out := ReadAll(d, fd, v, v.inodes[f.ino], f.ino);
    var e := FsClose(d, fd);
  }

  // A stored file is read in full and stays as it is.
  lemma StoredRead(v: Vol, t: Tree, path: Name, ino: nat, s: seq<Byte>, cwd: U32)
    requires Stored(v, t, path, ino, s)
    ensures Namei(v, cwd, path) == Found(ino)
    ensures ReadAt(v.data, v.inodes[ino], 0, v.inodes[ino].size) == s
  {
    hide NameTree, Segments, Walk, ReadAt, HoleFree;
    ReadAtHoleFree(v.data, v.inodes[ino], 0, v.inodes[ino].size);
    assert Content(v.data, v.inodes[ino])[0..|s|] == s;
  }

  lemma StoredOnlyRead(v: Vol, w: Vol, t: Tree, path: Name, ino: nat, s: seq<Byte>)
    requires Stored(v, t, path, ino, s) && Sound(v) && OnlyRead(v, w, ino)
    ensures Stored(w, t, path, ino, s)
  {
    hide NameTree, Namei, HoleFree, Content;
    OnlyReadKeeps(v, w, ino);
    StoredStep(v, w, t, path, ino, s, s);
  }

  lemma StoredRange(v: Vol, t: Tree, path: Name, ino: nat, s: seq<Byte>)
    requires Stored(v, t, path, ino, s)
    ensures 1 <= ino <= 256
  {
  }

  // What a write needs depends on the pointers of the record only.
  lemma FitsTouched(data: seq<Block>, x: Inode, y: Inode)
    requires y.direct == x.direct && y.ind == x.ind
    ensures forall pos: nat, len: nat, free: nat :: Fits(data, y, pos, len, free) == Fits(data, x, pos, len, free)
  {
    assert forall k: nat :: MapBn(data, y, k) == MapBn(data, x, k);
    forall lo: nat, hi: nat
      ensures Holes(data, y, lo, hi) == Holes(data, x, lo, hi)
    {
      HolesSame(data, x, data, y, lo, hi);
    }
  }

  // read_whole_file on a stored file.
  method ReadStored(d: Disk, path: Name, ghost t: Tree, ghost ino: nat, ghost s: seq<Byte>)
    returns (r: int, out: seq<Byte>)
    requires d.Ok() && Stored(d.vol, t, path, ino, s) && 1 <= ino <= 256
    modifies d`dev, d`vol, d`images, d`trace, d`sb, d`gd, d`ofile
    ensures d.Ok() && Stored(d.vol, t, path, ino, s) && SameOpen(old(d.ofile), d.ofile) && d.sb == old(d.sb)
    ensures r == if !PermCanRead(old(d.vol).inodes[ino], d.uid) then FS_EPERM
      else if AllUsed(old(d.ofile)) then FS_ERR else FS_OK
    ensures r == FS_OK ==> out == s
    ensures OnlyRead(old(d.vol), d.vol, ino)
    ensures
      var x, y := old(d.vol).inodes[ino], d.vol.inodes[ino];
      && y == x.(atime := y.atime)
      && PermCanRead(y, d.uid) == PermCanRead(x, d.uid) && PermCanWrite(y, d.uid) == PermCanWrite(x, d.uid)
      && forall pos: nat, n: nat, free: nat ::
           Fits(d.vol.data, y, pos, n, free) == Fits(old(d.vol).data, x, pos, n, free)
  {
    hide Recorded, Decodes, Sound, Stored, PermCanRead, PermCanWrite, Fits, ReadAt, OnlyRead, Namei;
    ghost var v := d.vol;
    StoredRead(v, t, path, ino, s, d.cwd);
    r, out := ReadWholeFile(d, path);
    StoredOnlyRead(v, d.vol, t, path, ino, s);
    OnlyReadKeeps(v, d.vol, ino);
    SamePerm(v.inodes[ino], d.vol.inodes[ino], d.uid);
    FitsTouched(v.data, v.inodes[ino], d.vol.inodes[ino]);
  }

  // ---- writing

  // fd is open for writing on inode ino at offset off.
  ghost predicate WriteFd(f: seq<OpenFile>, fd: int, ino: nat, off: nat) {
    OpenFd(f, fd) && f[fd].writable && f[fd].ino == ino && f[fd].offset == off
  }

  // The blocks that a write of len bytes at pos took are in place and out of the free ones.
  ghost predicate Consumed(v: Vol, w: Vol, ino: nat, pos: nat, len: nat, free: nat, free': int) {
    && 1 <= ino <= 256 && Extends(v.inodes[ino], w.inodes[ino])
    && (len == 0 || EndBlock(pos, len) <= 10 ==> w.inodes[ino].ind == v.inodes[ino].ind)
    && Filled(v.data, v.inodes[ino], w.data, w.inodes[ino], pos / 512, if len == 0 then pos / 512
         else EndBlock(pos, len))
    && free' == free - if len == 0 then 0 else Needed(v.data, v.inodes[ino], pos / 512, EndBlock(pos, len))
  }

  // One write at the end of a stored file.
  method WriteEnd(d: Disk, fd: int, line: seq<Byte>, ghost t: Tree, ghost path: Name, ghost ino: nat,
                  ghost s: seq<Byte>)
    returns (r: int)
    requires d.Ok() && Stored(d.vol, t, path, ino, s) && WriteFd(d.ofile, fd, ino, |s|) && |line| < 0x1_0000_0000
    modifies d`dev, d`vol, d`images, d`trace, d`sb, d`gd, d`ofile
    ensures d.Ok() && d.sb.freeInodes == old(d.sb.freeInodes)
    ensures
      var x := old(d.vol).inodes[ino];
      r == if !PermCanWrite(x, d.uid) then FS_EPERM
           else if Fits(old(d.vol).data, x, |s|, |line|, old(d.sb.freeBlocks)) then |line| else FS_ENOSPC
    ensures Stored(d.vol, t, path, ino, if r >= 0 then s + line else s)
    ensures WriteFd(d.ofile, fd, ino, if r >= 0 then |s| + |line| else |s|)
    ensures d.ofile == old(d.ofile)[fd := d.ofile[fd]]
    ensures Frame(old(d.vol), d.vol, ino) && d.vol.inodes[ino].uid == old(d.vol).inodes[ino].uid
    ensures r >= 0 ==> Consumed(old(d.vol), d.vol, ino, |s|, |line|, old(d.sb.freeBlocks), d.sb.freeBlocks)
  {
    hide Recorded, Decodes, Sound, NameTree, Namei, HoleFree, Content, Frame, Fits, Overlaid, Filled, MapBn;
    hide ByteAt, PermCanWrite, Grew, IsDir;
    ghost var v := d.vol;
    FrameRefl(v, ino);
    r := FsWrite(d, fd, line);
    if r >= 0 {
      EndSplice(v.data, v.inodes[ino], d.vol.data, d.vol.inodes[ino], s, line);
      StoredStep(v, d.vol, t, path, ino, s, s + line);
    } else if r == FS_ENOSPC {
      FailedContent(v.data, d.vol.data, v.inodes[ino], s, line);
      StoredStep(v, d.vol, t, path, ino, s, s);
    }
  }

  lemma EndSplice(data: seq<Block>, x: Inode, data': seq<Block>, y: Inode, s: seq<Byte>, line: seq<Byte>)
    requires HoleFree(data, x) && Content(data, x) == s && y.size == Max(x.size, |s| + |line|)
    requires Overlaid(data, x, data', y, |s|, line)
    requires Filled(data, x, data', y, |s| / 512, if |line| == 0 then |s| / 512 else EndBlock(|s|, |line|))
    ensures HoleFree(data', y) && Content(data', y) == s + line
  {
  }

  lemma FailedContent(data: seq<Block>, data': seq<Block>, x: Inode, s: seq<Byte>, line: seq<Byte>)
    requires HoleFree(data, x) && Content(data, x) == s
    requires forall k: nat {:trigger MapBn(data', x, k)} :: MapBn(data, x, k) != 0 ==>
      MapBn(data', x, k) == MapBn(data, x, k)
    requires forall i: nat :: !(|s| <= i < |s| + |line|) ==> ByteAt(data', x, i) == ByteAt(data, x, i)
    ensures HoleFree(data', x) && Content(data', x) == s
  {
  }

  // fs_open on a stored file.
  method OpenStored(d: Disk, path: Name, mode: seq<Byte>, ghost t: Tree, ghost ino: nat, ghost s: seq<Byte>)
    returns (fd: int)
    requires d.Ok() && Stored(d.vol, t, path, ino, s) && 1 <= ino <= 256
    modifies d`dev, d`vol, d`images, d`trace, d`sb, d`gd, d`ofile
    ensures d.Ok() && d.vol == old(d.vol) && d.sb == old(d.sb)
    ensures
      var x := d.vol.inodes[ino];
      if !(if W in mode then PermCanWrite(x, d.uid) else PermCanRead(x, d.uid)) then
        fd == FS_EPERM && d.ofile == old(d.ofile)
      else if AllUsed(old(d.ofile)) then fd == FS_ERR && d.ofile == old(d.ofile)
      else
        && 0 <= fd < |old(d.ofile)| && !old(d.ofile)[fd].used
        && d.ofile == old(d.ofile)[fd := OpenFile(true, ino, 0, W in mode)]
  {
    hide Recorded, Decodes, Sound, NameTree, Namei, PermCanWrite, PermCanRead, Entered, CanEnter, Steps, NameiParent;
    StoredRead(d.vol, t, path, ino, s, d.cwd);
    ghost var t', made;
    fd, t', made := FsOpen(d, path, mode, t);
  }

  // append_line
  method AppendLine(d: Disk, path: Name, line: seq<Byte>, ghost t: Tree, ghost ino: nat, ghost s: seq<Byte>)
    returns (r: int)
    requires d.Ok() && Stored(d.vol, t, path, ino, s) && |line| < 0x1_0000_0000
    modifies d`dev, d`vol, d`images, d`trace, d`sb, d`gd, d`ofile
    ensures d.Ok() && SameOpen(old(d.ofile), d.ofile)
    ensures
      var x := old(d.vol).inodes[ino];
      r == if !PermCanWrite(x, d.uid) then FS_EPERM
           else if AllUsed(old(d.ofile)) then FS_ERR
           else if Fits(old(d.vol).data, x, |s|, |line|, old(d.sb.freeBlocks)) then FS_OK else FS_ENOSPC
    ensures Stored(d.vol, t, path, ino, if r == FS_OK then s + line else s)
    ensures Frame(old(d.vol), d.vol, ino) && d.vol.inodes[ino].uid == old(d.vol).inodes[ino].uid
    ensures d.sb.freeInodes == old(d.sb.freeInodes)
    ensures r == FS_OK ==> Consumed(old(d.vol), d.vol, ino, |s|, |line|, old(d.sb.freeBlocks), d.sb.freeBlocks)
  {
    hide Recorded, Decodes, Sound, NameTree, Namei, HoleFree, Content, Frame, Fits, PermCanWrite, IsDir, Entered;
    hide Consumed;
    ghost var v := d.vol;
    FrameRefl(v, ino);
    StoredSize(v, t, path, ino, s);
    var fd := OpenStored(d, path, [W], t, ino, s);
    if fd < 0 {
      return fd;
    }
    var e, x := ReadInode(d, d.ofile[fd].ino);
    e := FsSeek(d, fd, x.size);
    r := WriteEnd(d, fd, line, t, path, ino, s);
    e := FsClose(d, fd);
    if r >= 0 {
      r := FS_OK;
    }
  }

  // Reading before a write does not change what the write takes.
  lemma ConsumedRead(v: Vol, w: Vol, z: Vol, ino: nat, pos: nat, len: nat, free: nat, free': int)
    requires OnlyRead(v, w, ino) && w.data == v.data && Consumed(w, z, ino, pos, len, free, free')
    ensures Consumed(v, z, ino, pos, len, free, free')
  {
    hide MapBn, Holes;
    var x, y := v.inodes[ino], w.inodes[ino];
    FitsTouched(v.data, x, y);
    if len > 0 {
      HolesSame(v.data, x, v.data, y, pos / 512, EndBlock(pos, len)) by {
        SamePointersMap(v.data, x, y);
      }
    }
    SamePointersMap(v.data, x, y);
  }

  lemma SamePointersMap(data: seq<Block>, x: Inode, y: Inode)
    requires y.direct == x.direct && y.ind == x.ind
    ensures forall k: nat :: MapBn(data, y, k) == MapBn(data, x, k)
  {
  }

  lemma StoredSize(v: Vol, t: Tree, path: Name, ino: nat, s: seq<Byte>)
    requires Stored(v, t, path, ino, s)
    ensures v.inodes[ino].size == |s| <= 138 * 512
  {
    HoleFreeSize(v.data, v.inodes[ino]);
  }

  // The size of an inode is set to 0, its blocks stay.
  method CutSize(d: Disk, ino: nat) returns (r: int)
    requires d.Ok()
    modifies d`dev, d`vol, d`images, d`trace
    ensures d.Ok() && r == if 1 <= ino <= 256 then FS_OK else FS_ERR
    ensures r == FS_OK ==>
      && d.vol == With(old(d.vol), ino, old(d.vol).inodes[ino].(size := 0)) && Frame(old(d.vol), d.vol, ino)
      && d.trace == old(d.trace) + [d.vol]
    ensures r != FS_OK ==> d.vol == old(d.vol) && d.trace == old(d.trace)
  {
    hide Recorded, Decodes;
    ghost var v := d.vol;
    var e, x := ReadInode(d, ino);
    if e != FS_OK {
      return FS_ERR;
    }
    Unwritten(v, ino, x, 0, []);
    SamePointers(v, ino, x, x.(size := 0));
    r := WriteInode(d, ino, x.(size := 0));
  }

  // The truncation of session_save and users_change_password: the size is set to 0, the blocks stay.
  method CutToZero(d: Disk, fd: int, ghost t: Tree, ghost path: Name, ghost ino: nat, ghost s: seq<Byte>)
    returns (r: int)
    requires d.Ok() && Stored(d.vol, t, path, ino, s) && OpenFd(d.ofile, fd) && d.ofile[fd].ino == ino
    modifies d`dev, d`vol, d`images, d`trace, d`ofile
    ensures d.Ok() && r == FS_OK && Stored(d.vol, t, path, ino, [])
    ensures d.ofile == old(d.ofile)[fd := old(d.ofile)[fd].(offset := 0)]
    ensures d.vol == With(old(d.vol), ino, old(d.vol).inodes[ino].(size := 0)) && Frame(old(d.vol), d.vol, ino)
  {
    hide Recorded, Decodes, Sound, NameTree, Namei, IsDir;
    ghost var v := d.vol;
    r := CutSize(d, d.ofile[fd].ino);
    assert Content(d.vol.data, v.inodes[ino].(size := 0)) == [];
    StoredStep(v, d.vol, t, path, ino, s, []);
    var e := FsSeek(d, fd, 0);
  }

  // ---- writing in pieces

  lemma {:induction false} HolesSplit(data: seq<Block>, x: Inode, lo: nat, m: nat, hi: nat)
    requires lo <= m <= hi
    ensures Holes(data, x, lo, hi) == Holes(data, x, lo, m) + Holes(data, x, m, hi)
    decreases hi - lo
  {
    hide MapBn;
    if lo < m {
      HolesSplit(data, x, lo + 1, m, hi);
    }
  }

  // What fits as a whole fits piece by piece.
  lemma FitsPiece(data: seq<Block>, x: Inode, data': seq<Block>, y: Inode, pos: nat, a: nat, n: nat, free: nat)
    requires a <= n && Fits(data, x, pos, n, free)
    ensures Fits(data, x, pos, a, free)
    ensures Filled(data, x, data', y, pos / 512, if a == 0 then pos / 512 else EndBlock(pos, a)) && Extends(x, y) ==>
      Fits(data', y, pos + a, n - a, free - if a == 0 then 0 else Needed(data, x, pos / 512, EndBlock(pos, a)))
  {
    if a > 0 {
      var lo, m, hi := pos / 512, EndBlock(pos, a), EndBlock(pos, n);
      HolesSplit(data, x, lo, m, hi);
      if Filled(data, x, data', y, lo, m) && Extends(x, y) && a < n {
        HolesSame(data, x, data', y, m, hi);
        assert m > 10 ==> MapBn(data', y, m - 1) != 0;
        assert (pos + a) / 512 == m || (pos + a) / 512 == m - 1;
        if (pos + a) / 512 == m - 1 {
          HolesSplit(data', y, m - 1, m, hi);
          assert MapBn(data', y, m - 1) != 0;
          assert Holes(data', y, m - 1, m) == 0;
        }
      }
    } else {
      FitsSame(data, x, data', y, pos, n, free);
    }
  }

  // Conversely, what fits in two pieces, one after the other, fits as a whole.
  lemma FitsWhole(data: seq<Block>, x: Inode, data': seq<Block>, y: Inode, pos: nat, a: nat, n: nat, free: nat)
    requires 0 < a <= n && Fits(data, x, pos, a, free) && Extends(x, y) && (EndBlock(pos, a) <= 10 ==> y.ind == x.ind)
    requires Filled(data, x, data', y, pos / 512, EndBlock(pos, a))
    requires Fits(data', y, pos + a, n - a, free - Needed(data, x, pos / 512, EndBlock(pos, a)))
    ensures Fits(data, x, pos, n, free)
  {
    if a < n {
      var lo, m, hi := pos / 512, EndBlock(pos, a), EndBlock(pos, n);
      HolesSplit(data, x, lo, m, hi);
      HolesSame(data, x, data', y, m, hi);
      assert (pos + a) / 512 == m || (pos + a) / 512 == m - 1;
      if (pos + a) / 512 == m - 1 {
        HolesSplit(data', y, m - 1, m, hi);
      }
    }
  }

  lemma FitsSame(data: seq<Block>, x: Inode, data': seq<Block>, y: Inode, pos: nat, n: nat, free: nat)
    requires Fits(data, x, pos, n, free)
    ensures Filled(data, x, data', y, pos / 512, pos / 512) && Extends(x, y) ==> Fits(data', y, pos, n, free)
  {
    if Filled(data, x, data', y, pos / 512, pos / 512) && Extends(x, y) {
      HolesSame(data, x, data', y, pos / 512, EndBlock(pos, n));
    }
  }
}
