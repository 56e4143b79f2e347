/** namei of dir.c: a path is split at slashes, its segments are cut to 55 bytes and looked
    up one after the other. */
module Paths {
  import opened Layout
  import opened Records
  import opened Volume
  import opened Device
  import opened Directory

  const SLASH: Byte := 47

  // The bytes before the first slash.
  function SegLen(p: Name): (k: nat)
    ensures k <= |p| && SLASH !in p[..k] && (k < |p| ==> p[k] == SLASH)
  {
    if p == [] || p[0] == SLASH then 0 else 1 + SegLen(p[1..])
  }

  function Segments(p: Name): (s: seq<Name>)
    decreases |p|
  {
    if p == [] then []
    else if p[0] == SLASH then Segments(p[1..])
    else [Clip(p[..SegLen(p)], 55)] + Segments(p[SegLen(p)..])
  }

  ghost function Walk(v: Vol, cur: nat, segs: seq<Name>): Found
    requires cur < 0x1_0000_0000
    decreases |segs|
  {
    if segs == [] then Found(cur)
    else
      var f := Lookup(v, cur, segs[0]);
      if f.NotFound? then f else Walk(v, f.ino, segs[1..])
  }

  function Start(cwd: U32, path: Name): U32 {
    if |path| > 0 && path[0] == SLASH then 1 else cwd
  }

  ghost function Namei(v: Vol, cwd: U32, path: Name): Found {
    if path == [] then NotFound(FS_ERR) else Walk(v, Start(cwd, path), Segments(path))
  }

  lemma SegLenUnique(p: Name, k: nat)
    requires k <= |p| && SLASH !in p[..k] && (k < |p| ==> p[k] == SLASH)
    ensures SegLen(p) == k
  {
  }

  // The inner loop of namei: skips one segment and keeps its first 55 bytes.
  method ReadSegment(path: Name, start: nat) returns (p: nat, seg: Name)
    requires start <= |path|
    ensures p == start + SegLen(path[start..]) && p <= |path|
    ensures start < |path| && path[start] != SLASH ==> p > start
    ensures seg == Clip(path[start..p], 55)
  {
    p, seg := start, [];
    while p < |path| && path[p] != SLASH
      invariant start <= p <= |path| && SLASH !in path[start..p]
      invariant seg == Clip(path[start..p], 55)
    {
      ghost var before := path[start..p];
      if |seg| < 55 {
        seg := seg + [path[p]];
      }
      p := p + 1;
      assert path[start..p] == before + [path[p - 1]];
    }
    assert path[start..][..p - start] == path[start..p];
    SegLenUnique(path[start..], p - start);
  }

  lemma SegmentsEnd()
    ensures Segments([]) == []
  {
  }

  lemma SegmentsSlash(path: Name, p: nat)
    requires p < |path| && path[p] == SLASH
    ensures Segments(path[p..]) == Segments(path[p + 1..])
  {
  }

  lemma SegmentsTake(path: Name, p: nat, q: nat)
    requires p < q <= |path| && q == p + SegLen(path[p..])
    ensures Segments(path[p..]) == [Clip(path[p..q], 55)] + Segments(path[q..])
    ensures q < |path| ==> path[q] == SLASH
  {
    assert path[p..][..q - p] == path[p..q] && path[p..][q - p..] == path[q..];
    assert path[p..][0] == path[p..][..q - p][0];
  }

  method FsNamei(d: Disk, path: Name) returns (r: int, ino: U32)
    requires d.Ok()
    ensures r == FS_OK ==> Namei(d.vol, d.cwd, path) == Found(ino)
    ensures r != FS_OK ==> Namei(d.vol, d.cwd, path) == NotFound(r)
  {
    hide Lookup, Decodes, Sound, Segments, SegLen;
    if path == [] {
      return FS_ERR, 0;
    }
    var cur: U32 := if path[0] == SLASH then 1 else d.cwd;
    var p := if path[0] == SLASH then 1 else 0;
    assert path[0..] == path;
    if p == 1 {
      SegmentsSlash(path, 0);
    }
    while p < |path|
      invariant p <= |path|
      invariant Namei(d.vol, d.cwd, path) == Walk(d.vol, cur, Segments(path[p..]))
      decreases |path| - p
    {
      var q, seg := ReadSegment(path, p);
      if q == p {
        SegmentsSlash(path, p);
        p := p + 1;
      } else {
        SegmentsTake(path, p, q);
        assert ([seg] + Segments(path[q..]))[1..] == Segments(path[q..]);
        var e, next := DirLookup(d, cur, seg);
        if e != FS_OK {
          return e, 0;
        }
        cur, p := next, q;
        if p < |path| {
          SegmentsSlash(path, p);
          p := p + 1;
        }
      }
    }
    SegmentsEnd();
    assert path[p..] == [];
    r, ino := FS_OK, cur;
  }

  // ---- splitting a path

  lemma {:induction false} SegmentsSplit(a: Name, b: Name)
    ensures Segments(a + [SLASH] + b) == Segments(a) + Segments(b)
    decreases |a|
  {
    hide Segments, SegLen, Clip;
    var p := a + [SLASH] + b;
    SegmentsUnfold(a);
    SegmentsUnfold(p);
    if a == [] {
      assert p[1..] == b;
    } else if a[0] == SLASH {
      assert p[1..] == a[1..] + [SLASH] + b;
      SegmentsSplit(a[1..], b);
    } else {
      SegmentsHead(a, b);
      var rest := a[SegLen(a)..];
      SegmentsSplit(rest, b);
      assert Segments(p) == [Clip(a[..SegLen(a)], 55)] + (Segments(rest) + Segments(b));
    }
  }

  lemma SegmentsUnfold(p: Name)
    ensures Segments(p) ==
      if p == [] then []
      else if p[0] == SLASH then Segments(p[1..])
      else [Clip(p[..SegLen(p)], 55)] + Segments(p[SegLen(p)..])
  {
  }

  // The first segment is the same when more follows.
  lemma SegmentsHead(a: Name, b: Name)
    requires a != [] && a[0] != SLASH
    ensures 0 < SegLen(a) <= |a|
    ensures Segments(a + [SLASH] + b) == [Clip(a[..SegLen(a)], 55)] + Segments(a[SegLen(a)..] + [SLASH] + b)
  {
    var p, k := a + [SLASH] + b, SegLen(a);
    assert p[..k] == a[..k];
    assert p[k..] == a[k..] + [SLASH] + b;
    assert p[k] == p[k..][0] == SLASH;
    SegLenUnique(p, k);
  }

  // A leaf without slashes is one segment.
  lemma LeafSegment(leaf: Name)
    requires SLASH !in leaf
    ensures Segments(leaf) == if leaf == [] then [] else [Clip(leaf, 55)]
  {
    if leaf != [] {
      assert leaf[..|leaf|] == leaf;
      assert leaf[0] in leaf;
      SegLenUnique(leaf, |leaf|);
      assert leaf[|leaf|..] == [];
    }
  }

  lemma {:induction false} WalkSplit(v: Vol, cur: nat, s: seq<Name>, t: seq<Name>)
    requires cur < 0x1_0000_0000
    ensures Walk(v, cur, s + t)
      == if Walk(v, cur, s).NotFound? then Walk(v, cur, s) else Walk(v, Walk(v, cur, s).ino, t)
    decreases |s|
  {
    hide Lookup;
    if s == [] {
      assert s + t == t;
    } else {
      assert (s + t)[1..] == s[1..] + t;
      if Lookup(v, cur, s[0]).Found? {
        WalkSplit(v, Lookup(v, cur, s[0]).ino, s[1..], t);
      }
    }
  }

  // strrchr(path, '/'): the index of the last slash before n, -1 when there is none.
  function LastSlashBelow(path: Name, n: nat): (m: int)
    requires n <= |path|
    ensures -1 <= m < n
    ensures m >= 0 ==> path[m] == SLASH
    ensures forall i :: m < i < n ==> path[i] != SLASH
  {
    if n == 0 then -1 else if path[n - 1] == SLASH then n - 1 else LastSlashBelow(path, n - 1)
  }

  function LastSlash(path: Name): int {
    LastSlashBelow(path, |path|)
  }

  // The parent part of a path, "/" when the only slash leads, and its leaf cut to 55 bytes.
  function ParentPath(path: Name): Name {
    var n := LastSlash(path);
    if n <= 0 then [SLASH] else path[..n]
  }

  function Leaf(path: Name): (q: Name)
    ensures |q| <= 55
  {
    ClipName(path, LastSlash(path) + 1, 55);
    Clip(path[LastSlash(path) + 1..], 55)
  }

  // Where the parent of the leaf is looked for.
  ghost function NameiParent(v: Vol, cwd: U32, path: Name): Found {
    if LastSlash(path) < 0 then Found(cwd) else Namei(v, cwd, ParentPath(path))
  }

  // namei of a path is the lookup of its leaf in the directory that its parent part names.
  lemma NameiLeaf(v: Vol, cwd: U32, path: Name)
    requires Leaf(path) != []
    ensures path != []
    ensures Namei(v, cwd, path)
      == if NameiParent(v, cwd, path).NotFound? then NameiParent(v, cwd, path)
         else Lookup(v, NameiParent(v, cwd, path).ino, Leaf(path))
  {
    hide Lookup;
    var n := LastSlash(path);
    var leaf := path[n + 1..];
    LeafSegment(leaf);
    if n < 0 {
      assert leaf == path && path[0] in leaf;
      WalkOne(v, cwd, Leaf(path));
    } else {
      var a := path[..n];
      assert path == a + [SLASH] + leaf;
      SegmentsSplit(a, leaf);
      assert Segments([SLASH]) == [] by {
        assert [SLASH][1..] == [];
      }
      assert Segments(ParentPath(path)) == Segments(a);
      assert Start(cwd, ParentPath(path)) == Start(cwd, path);
      var c := Start(cwd, path);
      WalkSplit(v, c, Segments(a), [Leaf(path)]);
      if Walk(v, c, Segments(a)).Found? {
        WalkOne(v, Walk(v, c, Segments(a)).ino, Leaf(path));
      }
    }
  }

  lemma WalkOne(v: Vol, cur: nat, q: Name)
    requires cur < 0x1_0000_0000
    ensures Walk(v, cur, [q]) == Lookup(v, cur, q)
  {
  }
}
