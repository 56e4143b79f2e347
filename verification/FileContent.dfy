/** What fs_write and fs_read promise about the bytes of a file. */
module FileContent {
  import opened Layout
  import opened Records
  import opened Volume
  import opened FileIo
  import opened Device

  // The blocks that a write of len bytes at pos fills.
  ghost predicate FilledBy(data: seq<Block>, x: Inode, data': seq<Block>, y: Inode, pos: nat, len: nat) {
    Filled(data, x, data', y, pos / 512, if len == 0 then pos / 512 else EndBlock(pos, len))
  }

  // A write at or below the size replaces exactly its own range of the byte sequence, across
  // block boundaries and the border between direct and indirect blocks.
  lemma WriteIsSplice(data: seq<Block>, x: Inode, data': seq<Block>, y: Inode, pos: nat, buf: seq<Byte>)
    requires Overlaid(data, x, data', y, pos, buf) && pos <= x.size && y.size == Max(x.size, pos + |buf|)
    ensures Content(data', y)
      == Content(data, x)[..pos] + buf + if pos + |buf| <= x.size then Content(data, x)[pos + |buf|..] else []
  {
  }

  // A hole-free file stays hole-free, so its size stays within the addressable range.
  lemma WriteKeepsHoleFree(data: seq<Block>, x: Inode, data': seq<Block>, y: Inode, pos: nat, len: nat)
    requires FilledBy(data, x, data', y, pos, len) && HoleFree(data, x)
    requires pos <= x.size && y.size == Max(x.size, pos + len)
    ensures HoleFree(data', y) && y.size <= 138 * 512
  {
    HoleFreeSize(data, x);
    forall bn: nat | bn * 512 < y.size
      ensures MapBn(data', y, bn) != 0
    {
      if bn * 512 < x.size {
        assert MapBn(data, x, bn) != 0;
      }
    }
    HoleFreeSize(data', y);
  }

  lemma HoleFreeSize(data: seq<Block>, x: Inode)
    requires HoleFree(data, x)
    ensures x.size <= 138 * 512
  {
    assert MapBn(data, x, 138) == 0;
  }

  // Reading at the place that was written gives the bytes that were written, on any file.
  lemma ReadBack(data: seq<Block>, x: Inode, data': seq<Block>, y: Inode, pos: nat, buf: seq<Byte>)
    requires Overlaid(data, x, data', y, pos, buf) && FilledBy(data, x, data', y, pos, |buf|)
    requires y.size >= pos + |buf|
    ensures ReadAt(data', y, pos, |buf|) == buf
  {
    hide MapBn, ByteAt;
    if |buf| > 0 {
      var s := ReadBytes(data', y, pos, |buf|);
      ReadBytesAt(data', y, pos, |buf|);
      forall i | 0 <= i < |s|
        ensures s[i] == buf[i]
      {
        assert s[i] == ByteAt(data', y, pos + i);
      }
    }
  }

  // The bytes and blocks of a file depend only on its own record and blocks.
  lemma OtherFile(v: Vol, w: Vol, ino: nat, o: nat)
    requires Frame(v, w, ino) && Sound(v) && 1 <= o <= 256 && o != ino
    ensures w.inodes[o] == v.inodes[o]
    ensures Content(w.data, w.inodes[o]) == Content(v.data, v.inodes[o])
    ensures forall bn: nat :: MapBn(w.data, w.inodes[o], bn) == MapBn(v.data, v.inodes[o], bn)
    ensures forall i: nat :: ByteAt(w.data, w.inodes[o], i) == ByteAt(v.data, v.inodes[o], i)
  {
    forall bn: nat
      ensures MapBn(w.data, w.inodes[o], bn) == MapBn(v.data, v.inodes[o], bn)
    {
      if bn < 138 {
        FrameSlots(v, w, ino, o, bn);
      }
    }
    forall i: nat
      ensures ByteAt(w.data, w.inodes[o], i) == ByteAt(v.data, v.inodes[o], i)
    {
      assert i / 512 < 138 ==> Slot(v, o, i / 512) == MapBn(v.data, v.inodes[o], i / 512);
    }
  }

  // A record that differs only in its times reads the same.
  lemma TouchedReads(data: seq<Block>, x: Inode, y: Inode, pos: nat, len: nat)
    requires y == x.(atime := y.atime)
    ensures ReadAt(data, y, pos, len) == ReadAt(data, x, pos, len)
  {
    if pos < x.size {
      TouchedBytes(data, x, y, pos, if len > x.size - pos then x.size - pos else len);
    }
  }

  lemma {:induction false} TouchedBytes(data: seq<Block>, x: Inode, y: Inode, pos: nat, m: nat)
    requires y == x.(atime := y.atime)
    ensures ReadBytes(data, y, pos, m) == ReadBytes(data, x, pos, m)
    decreases m
  {
    if m > 0 {
      TouchedBytes(data, x, y, pos + 1, m - 1);
    }
  }

  // Writing, seeking back and reading as many bytes returns what was written, on any file, with
  // or without holes.
  method WriteSeekRead(d: Disk, fd: int, buf: seq<Byte>) returns (r: int, out: seq<Byte>)
    requires d.Ok() && |buf| < 0x8000_0000 && OpenFd(d.ofile, fd) && 1 <= d.ofile[fd].ino <= 256
    requires d.ofile[fd].offset < 0x8000_0000
    requires PermCanRead(d.vol.inodes[d.ofile[fd].ino], d.uid)
    modifies d`dev, d`vol, d`images, d`trace, d`sb, d`gd, d`ofile
    ensures
      var f, x := old(d.ofile)[fd], old(d.vol).inodes[old(d.ofile)[fd].ino];
      r == if !f.writable || !PermCanWrite(x, d.uid) then FS_EPERM
           else if Fits(old(d.vol).data, x, f.offset, |buf|, old(d.sb.freeBlocks)) then |buf| else FS_ENOSPC
    ensures d.Ok() && (r < 0 ==> out == [] && d.ofile == old(d.ofile))
    ensures r >= 0 ==>
      var f := old(d.ofile)[fd];
      r == |buf| && out == buf && d.ofile == old(d.ofile)[fd := f.(offset := f.offset + r)]
  {
    hide MapBn, ByteAt, Sound, Decodes, Overlaid, Filled, Grew, Frame, Needed, Fits;
    out := [];
    ghost var v, f := d.vol, d.ofile[fd];
    var off := d.ofile[fd].offset;
    r := FsWrite(d, fd, buf);
    if r < 0 {
      return;
    }
    ghost var w := d.vol;
    var e := FsSeek(d, fd, off);
    e, out := FsRead(d, fd, |buf|);
    ReadBack(v.data, v.inodes[f.ino], w.data, w.inodes[f.ino], off, buf);
  }

  // Two reads in a row return together what one read of both lengths returns, and leave the
  // offset where that read leaves it.
  method ReadTwice(d: Disk, fd: int, a: U32, b: U32) returns (r: int, s: seq<Byte>, t: seq<Byte>)
    requires d.Ok() && a + b < 0x8000_0000
    modifies d`dev, d`vol, d`images, d`trace, d`ofile
    ensures d.Ok()
    ensures r >= 0 <==>
      && OpenFd(old(d.ofile), fd) && 1 <= old(d.ofile)[fd].ino <= 256
      && PermCanRead(old(d.vol).inodes[old(d.ofile)[fd].ino], d.uid)
    ensures r >= 0 ==>
      && OpenFd(old(d.ofile), fd) && 1 <= old(d.ofile)[fd].ino <= 256
      && var f := old(d.ofile)[fd];
      var one := ReadAt(old(d.vol).data, old(d.vol).inodes[f.ino], f.offset, a + b);
      && s + t == one && r == |one| && d.ofile == old(d.ofile)[fd := f.(offset := f.offset + |one|)]
    ensures r < 0 ==> d.ofile == old(d.ofile) && s == t == []
  {
    hide MapBn, ByteAt, Sound, Decodes, ReadAt;
    t := [];
    r, s := FsRead(d, fd, a);
    if r < 0 {
      return;
    }
    ghost var v, f, w := old(d.vol), old(d.ofile)[fd], d.vol;
    var e;
    e, t := FsRead(d, fd, b);
    ReadAtSplit(v.data, v.inodes[f.ino], f.offset, a, b);
    TouchedReads(v.data, v.inodes[f.ino], w.inodes[f.ino], f.offset + |s|, b);
    r := |s| + |t|;
  }
}
