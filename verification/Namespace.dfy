/** The tree of names that the directories hold, and what keeps it sound. */
module Namespace {
  import opened Layout
  import opened Records
  import opened Volume
  import opened Directory
  import opened Paths

  const DOT: Name := [46]
  const DOTDOT: Name := [46, 46]

  // The reachable inodes with the directory that holds each and its distance from the root.
  datatype Tree = Tree(parent: map<nat, nat>, depth: map<nat, nat>)

  function Up(t: Tree, c: nat): nat {
    if c in t.parent then t.parent[c] else 0
  }

  function Depth(t: Tree, c: nat): nat {
    if c in t.depth then t.depth[c] else 0
  }

  function TypeOf(x: Inode): Byte {
    if IsDir(x) then FT_DIR else FT_REG
  }

  ghost predicate EntryIs(e: Dirent, ino: nat, name: Name) {
    e.ino == ino && CStr(e.raw) == name
  }

  // The two dots that mkdir writes first, then distinct children.
  ghost predicate Shape(l: seq<Dirent>, d: nat, up: nat) {
    && |l| >= 2 && EntryIs(l[0], d, DOT) && EntryIs(l[1], up, DOTDOT)
    && (forall i, j :: 2 <= i < j < |l| && l[i].ino != 0 ==> l[i].ino != l[j].ino)
  }

  // An entry names an inode of the type it states, held by d and by no other directory.
  ghost predicate ChildOk(v: Vol, t: Tree, d: nat, e: Dirent) {
    && e.ino in t.parent && e.ino != 1 && 1 <= e.ino <= 256 && Up(t, e.ino) == d
    && e.ftype == TypeOf(v.inodes[e.ino]) && |CStr(e.raw)| <= 55
  }

  ghost predicate Children(v: Vol, t: Tree, d: nat, l: seq<Dirent>) {
    forall i {:trigger l[i]} :: 2 <= i < |l| && l[i].ino != 0 ==> ChildOk(v, t, d, l[i])
  }

  // Some slot after the dots names c.
  ghost predicate Names(l: seq<Dirent>, c: nat) {
    exists i :: 2 <= i < |l| && l[i].ino == c
  }

  ghost predicate Members(v: Vol, t: Tree) {
    && 1 in t.parent && Up(t, 1) == 1 && t.parent.Keys == t.depth.Keys && IsDir(v.inodes[1])
    && (forall c {:trigger c in t.parent} :: c in t.parent ==> 1 <= c <= 256 && v.ib[c])
    && (forall c {:trigger Up(t, c)} :: c in t.parent ==> Up(t, c) in t.parent)
  }

  // Every member but the root is held by its parent, one level up.
  ghost predicate Held(v: Vol, t: Tree)
    requires Members(v, t)
  {
    forall c {:trigger Up(t, c)} :: c in t.parent && c != 1 ==>
      IsDir(v.inodes[Up(t, c)]) && Depth(t, c) == Depth(t, Up(t, c)) + 1 && Names(List(v, Up(t, c)), c)
  }

  ghost predicate DirOk(v: Vol, t: Tree, d: nat)
    requires 1 <= d <= 256 && d in t.parent
  {
    Shape(List(v, d), d, Up(t, d)) && Children(v, t, d, List(v, d))
  }

  // The namespace is a tree: every live entry but the dots names a distinct allocated inode of
  // the type that the entry states.
  ghost predicate NameTree(v: Vol, t: Tree) {
    && Members(v, t) && Held(v, t)
    && (forall d {:trigger DirOk(v, t, d)} :: d in t.parent && IsDir(v.inodes[d]) ==> DirOk(v, t, d))
  }

  lemma HeldAt(v: Vol, t: Tree, o: nat)
    requires NameTree(v, t) && o in t.parent && o != 1
    ensures Up(t, o) in t.parent && 1 <= Up(t, o) <= 256 && IsDir(v.inodes[Up(t, o)])
    ensures Depth(t, o) == Depth(t, Up(t, o)) + 1 && Names(List(v, Up(t, o)), o)
  {
  }

  // ---- changes that the namespace does not see

  // Members keep their type, their allocation and, if directories, their slots.
  ghost predicate SameMembers(v: Vol, w: Vol, t: Tree) {
    forall c {:trigger c in t.parent} :: c in t.parent && 1 <= c <= 256 ==>
      && w.ib[c] == v.ib[c] && IsDir(w.inodes[c]) == IsDir(v.inodes[c])
      && (IsDir(v.inodes[c]) ==> List(w, c) == List(v, c))
  }

  lemma SameMembersTree(v: Vol, w: Vol, t: Tree)
    requires NameTree(v, t) && SameMembers(v, w, t)
    ensures NameTree(w, t)
  {
    hide List, CStr;
    forall d | d in t.parent && IsDir(w.inodes[d])
      ensures DirOk(w, t, d)
    {
      assert DirOk(v, t, d);
    }
  }

  // A change to a regular file, or to an inode outside the tree, keeps the namespace.
  lemma FileStepTree(v: Vol, w: Vol, ino: nat, t: Tree)
    requires NameTree(v, t) && Sound(v) && Frame(v, w, ino)
    requires ino in t.parent ==> !IsDir(v.inodes[ino]) && !IsDir(w.inodes[ino])
    ensures NameTree(w, t)
  {
    hide List;
    forall c | c in t.parent && 1 <= c <= 256 && c != ino
      ensures w.inodes[c] == v.inodes[c] && List(w, c) == List(v, c)
    {
      FrameList(v, w, ino, c);
    }
    SameMembersTree(v, w, t);
  }

  // An image between the ends of a directory change keeps the namespace.
  lemma BetweenTree(v: Vol, w: Vol, dir: nat, t: Tree)
    requires NameTree(v, t) && Sound(v) && Between(v, w, dir)
    ensures NameTree(w, t)
  {
    hide List;
    forall c | c in t.parent && 1 <= c <= 256 && c != dir
      ensures List(w, c) == List(v, c)
    {
      FrameList(v, w, dir, c);
    }
    SameMembersTree(v, w, t);
  }

  // ---- one entry more

  function Grown(t: Tree, dir: nat, child: nat): Tree {
    Tree(t.parent[child := dir], t.depth[child := Depth(t, dir) + 1])
  }

  // A new directory as mkdir leaves it: the two dots and nothing else.
  ghost predicate FreshDir(v: Vol, d: nat, parent: nat)
    requires 1 <= d <= 256
  {
    |List(v, d)| == 2 && EntryIs(List(v, d)[0], d, DOT) && EntryIs(List(v, d)[1], parent, DOTDOT)
  }

  lemma AddedType(v: Vol, w: Vol, dir: nat)
    requires Frame(v, w, dir) && 1 <= dir <= 256 && w.inodes[dir].mode == v.inodes[dir].mode
    ensures forall c: nat {:trigger w.inodes[c]} :: 1 <= c <= 256 ==>
      IsDir(w.inodes[c]) == IsDir(v.inodes[c]) && TypeOf(w.inodes[c]) == TypeOf(v.inodes[c])
  {
  }

  lemma AddedDirOk(v: Vol, w: Vol, t: Tree, dir: nat, name: Name, child: nat, d: nat)
    requires NameTree(v, t) && Sound(v) && dir in t.parent && IsDir(v.inodes[dir])
    requires 1 <= child <= 256 && child !in t.parent
    requires Added(v, w, dir, name, TypeOf(v.inodes[child]), child)
    requires d in t.parent && IsDir(v.inodes[d])
    ensures DirOk(w, Grown(t, dir, child), d)
  {
    hide List, CStr, Frame, Sound, IsDir;
    var l, e := List(v, d), Dirent(child, TypeOf(v.inodes[child]), Padded(name));
    assert DirOk(v, t, d);
    AddedType(v, w, dir);
    PaddedName(name);
    assert List(w, d) == if d == dir then l + [e] else l by {
      if d != dir {
        FrameList(v, w, dir, d);
      }
    }
    forall i | 2 <= i < |l| && l[i].ino != 0
      ensures ChildOk(w, Grown(t, dir, child), d, l[i])
    {
      assert ChildOk(v, t, d, l[i]);
    }
    assert d == dir ==> ChildOk(w, Grown(t, dir, child), d, e);
  }

  lemma AddedMembers(v: Vol, w: Vol, t: Tree, dir: nat, name: Name, child: nat)
    requires NameTree(v, t) && dir in t.parent
    requires 1 <= child <= 256 && child !in t.parent && v.ib[child]
    requires Added(v, w, dir, name, TypeOf(v.inodes[child]), child)
    ensures Members(w, Grown(t, dir, child))
  {
    hide List, Held, IsDir, DirOk;
    var s := Grown(t, dir, child);
    AddedType(v, w, dir);
    forall c | c in s.parent
      ensures Up(s, c) in s.parent
    {
      assert c != child ==> Up(s, c) == Up(t, c);
    }
    assert IsDir(w.inodes[1]) == IsDir(v.inodes[1]);
  }

  lemma AddedNames(v: Vol, w: Vol, t: Tree, dir: nat, name: Name, ftype: Byte, child: U32, d: nat, c: nat)
    requires Sound(v) && Added(v, w, dir, name, ftype, child)
    requires 1 <= d <= 256 && (Names(List(v, d), c) || (d == dir && c == child && |List(v, d)| >= 2))
    ensures Names(List(w, d), c)
  {
    hide List, Sound;
    if Names(List(v, d), c) {
      var i :| 2 <= i < |List(v, d)| && List(v, d)[i].ino == c;
      if d != dir {
        FrameList(v, w, dir, d);
      }
      assert List(w, d)[i].ino == c;
    } else {
      assert List(w, d)[|List(v, d)|].ino == c;
    }
  }

  lemma AddedHeldAt(v: Vol, w: Vol, t: Tree, dir: nat, name: Name, child: nat, c: nat)
    requires NameTree(v, t) && Sound(v) && dir in t.parent && IsDir(v.inodes[dir])
    requires 1 <= child <= 256 && child !in t.parent
    requires Added(v, w, dir, name, TypeOf(v.inodes[child]), child)
    requires c in Grown(t, dir, child).parent && c != 1
    ensures
      var s := Grown(t, dir, child);
      && 1 <= Up(s, c) <= 256 && IsDir(w.inodes[Up(s, c)]) && Depth(s, c) == Depth(s, Up(s, c)) + 1
      && Names(List(w, Up(s, c)), c)
  {
    hide List, Sound, IsDir, CStr;
    assert |List(v, dir)| >= 2 by {
      assert DirOk(v, t, dir);
    }
    AddedType(v, w, dir);
    if c != child {
      HeldAt(v, t, c);
    }
    hide DirOk, NameTree, Names, Added, Held;
    AddedNames(v, w, t, dir, name, TypeOf(v.inodes[child]), child, if c == child then dir else Up(t, c), c);
  }

  lemma AddedHeld(v: Vol, w: Vol, t: Tree, dir: nat, name: Name, child: nat)
    requires NameTree(v, t) && Sound(v) && dir in t.parent && IsDir(v.inodes[dir])
    requires 1 <= child <= 256 && child !in t.parent
    requires Added(v, w, dir, name, TypeOf(v.inodes[child]), child)
    requires Members(w, Grown(t, dir, child))
    ensures Held(w, Grown(t, dir, child))
  {
    hide List, Sound, IsDir, NameTree, Names, Added, DirOk, Up;
    var s := Grown(t, dir, child);
    forall c | c in s.parent && c != 1
      ensures IsDir(w.inodes[Up(s, c)]) && Depth(s, c) == Depth(s, Up(s, c)) + 1 && Names(List(w, Up(s, c)), c)
    {
      AddedHeldAt(v, w, t, dir, name, child, c);
    }
  }

  // Adding an entry for a new inode gives a tree with one member more.
  lemma AddedTree(v: Vol, w: Vol, t: Tree, dir: nat, name: Name, child: nat)
    requires NameTree(v, t) && Sound(v) && dir in t.parent && IsDir(v.inodes[dir])
    requires 1 <= child <= 256 && child !in t.parent && v.ib[child]
    requires IsDir(v.inodes[child]) ==> FreshDir(v, child, dir)
    requires Added(v, w, dir, name, TypeOf(v.inodes[child]), child)
    ensures NameTree(w, Grown(t, dir, child))
  {
    hide List, CStr, Sound, IsDir;
    var s := Grown(t, dir, child);
    AddedMembers(v, w, t, dir, name, child);
    AddedHeld(v, w, t, dir, name, child);
    AddedType(v, w, dir);
    forall d | d in s.parent && IsDir(w.inodes[d])
      ensures DirOk(w, s, d)
    {
      if d == child {
        FrameList(v, w, dir, child);
      } else {
        AddedDirOk(v, w, t, dir, name, child, d);
      }
    }
  }

  // ---- one entry less

  function Pruned(t: Tree, c: nat): Tree {
    Tree(t.parent - {c}, t.depth - {c})
  }

  // w is v without slot i of directory p; the inode c that the slot named is out of the tree.
  ghost predicate Cut(v: Vol, w: Vol, t: Tree, p: nat, i: nat)
    requires 1 <= p <= 256 && i < |List(v, p)|
  {
    forall o {:trigger o in t.parent} :: o in t.parent && 1 <= o <= 256 && o != List(v, p)[i].ino ==>
      && w.ib[o] == v.ib[o] && IsDir(w.inodes[o]) == IsDir(v.inodes[o])
      && (IsDir(v.inodes[o]) ==>
            && |List(w, o)| == |List(v, o)|
            && (forall j :: 0 <= j < |List(v, o)| && (o != p || j != i) ==> List(w, o)[j] == List(v, o)[j])
            && (o == p ==> List(w, o)[i].ino == 0))
  }

  // The inode that slot i names is a file or a directory with nothing but its dots.
  ghost predicate Removable(v: Vol, t: Tree, p: nat, i: nat) {
    && p in t.parent && 1 <= p <= 256 && IsDir(v.inodes[p]) && 2 <= i < |List(v, p)|
    && 1 <= List(v, p)[i].ino <= 256
    && (IsDir(v.inodes[List(v, p)[i].ino]) ==> |List(v, List(v, p)[i].ino)| <= 2)
  }

  lemma CutDirOk(v: Vol, w: Vol, t: Tree, p: nat, i: nat, d: nat)
    requires NameTree(v, t) && Removable(v, t, p, i) && Cut(v, w, t, p, i)
    requires d in t.parent && d != List(v, p)[i].ino && IsDir(v.inodes[d])
    ensures DirOk(w, Pruned(t, List(v, p)[i].ino), d)
  {
    hide List, CStr, IsDir;
    var c := List(v, p)[i].ino;
    var l, m, s := List(v, d), List(w, d), Pruned(t, c);
    assert DirOk(v, t, d) && DirOk(v, t, p);
    assert ChildOk(v, t, p, List(v, p)[i]);
    assert Up(s, d) == Up(t, d);
    assert |m| == |l| && forall j :: 0 <= j < |m| ==> if d == p && j == i then m[j].ino == 0 else m[j] == l[j];
    CutShape(l, m, d, Up(t, d), i);
    hide Held, DirOk;
    forall j | 2 <= j < |m| && m[j].ino != 0
      ensures ChildOk(w, s, d, m[j])
    {
      assert ChildOk(v, t, d, l[j]);
      assert d == p ==> l[j].ino != c;
    }
  }

  lemma CutShape(l: seq<Dirent>, m: seq<Dirent>, d: nat, up: nat, i: nat)
    requires Shape(l, d, up) && |m| == |l| && 2 <= i
    requires forall j :: 0 <= j < |m| ==> m[j] == l[j] || (j == i && m[j].ino == 0)
    ensures Shape(m, d, up)
  {
    hide CStr;
    forall j, k | 2 <= j < k < |m| && m[j].ino != 0
      ensures m[j].ino != m[k].ino
    {
      assert m[j] == l[j] && l[j].ino != l[k].ino;
    }
  }

  // The removed inode is no member's parent.
  lemma Childless(v: Vol, t: Tree, p: nat, i: nat, o: nat)
    requires NameTree(v, t) && Removable(v, t, p, i) && o in t.parent && o != 1
    ensures Up(t, o) != List(v, p)[i].ino
  {
  }

  lemma CutMembers(v: Vol, w: Vol, t: Tree, p: nat, i: nat)
    requires NameTree(v, t) && Removable(v, t, p, i) && Cut(v, w, t, p, i)
    ensures Members(w, Pruned(t, List(v, p)[i].ino))
  {
    hide List, CStr, IsDir;
    var c := List(v, p)[i].ino;
    var s := Pruned(t, c);
    assert DirOk(v, t, p) && ChildOk(v, t, p, List(v, p)[i]);
    hide Held, DirOk, Removable;
    forall o | o in s.parent
      ensures Up(s, o) in s.parent
    {
      assert Up(s, o) == Up(t, o);
      if o != 1 {
        Childless(v, t, p, i, o);
      }
    }
    assert Up(s, 1) == Up(t, 1);
  }

  lemma CutNames(v: Vol, w: Vol, t: Tree, p: nat, i: nat, o: nat)
    requires NameTree(v, t) && Removable(v, t, p, i) && Cut(v, w, t, p, i)
    requires o in t.parent && o != 1 && o != List(v, p)[i].ino
    ensures 1 <= Up(t, o) <= 256 && IsDir(w.inodes[Up(t, o)]) && Names(List(w, Up(t, o)), o)
  {
  }

  lemma CutHeld(v: Vol, w: Vol, t: Tree, p: nat, i: nat)
    requires NameTree(v, t) && Removable(v, t, p, i) && Cut(v, w, t, p, i)
    requires Members(w, Pruned(t, List(v, p)[i].ino))
    ensures Held(w, Pruned(t, List(v, p)[i].ino))
  {
    hide List, IsDir, Cut, NameTree, Names;
    var s := Pruned(t, List(v, p)[i].ino);
    forall o | o in s.parent && o != 1
      ensures IsDir(w.inodes[Up(s, o)]) && Depth(s, o) == Depth(s, Up(s, o)) + 1 && Names(List(w, Up(s, o)), o)
    {
      HeldAt(v, t, o);
      CutNames(v, w, t, p, i, o);
      Childless(v, t, p, i, o);
      assert Up(s, o) == Up(t, o);
    }
  }

  // Removing the entry of a file or an empty directory leaves a tree with one member less.
  lemma CutTree(v: Vol, w: Vol, t: Tree, p: nat, i: nat)
    requires NameTree(v, t) && Removable(v, t, p, i) && Cut(v, w, t, p, i)
    ensures NameTree(w, Pruned(t, List(v, p)[i].ino))
  {
    hide List, CStr, IsDir;
    var c := List(v, p)[i].ino;
    CutMembers(v, w, t, p, i);
    CutHeld(v, w, t, p, i);
    forall d | d in Pruned(t, c).parent && IsDir(w.inodes[d])
      ensures DirOk(w, Pruned(t, c), d)
    {
      assert d in t.parent;
      CutDirOk(v, w, t, p, i, d);
    }
  }

  // ---- walks

  // A lookup from a member leads to a member: itself, its parent or a child.
  lemma LookupMember(v: Vol, t: Tree, d: nat, q: Name)
    requires NameTree(v, t) && d in t.parent && Lookup(v, d, q).Found?
    ensures
      var c := Lookup(v, d, q).ino;
      c in t.parent && IsDir(v.inodes[d])
      && (c == d || (q == DOTDOT && c == Up(t, d)) || (Up(t, c) == d && c != 1))
  {
    hide List, CStr;
    var l := List(v, d);
    var i := FirstMatch(l, q);
    assert DirOk(v, t, d);
    assert Matches(l[i], q);
    if i == 1 {
      assert Clip(q, 56) == DOTDOT;
    } else if i >= 2 {
      assert ChildOk(v, t, d, l[i]);
    }
  }

  lemma {:induction false} WalkMember(v: Vol, t: Tree, cur: nat, segs: seq<Name>)
    requires NameTree(v, t) && cur in t.parent && cur < 0x1_0000_0000 && Walk(v, cur, segs).Found?
    ensures Walk(v, cur, segs).ino in t.parent
    decreases |segs|
  {
    hide Lookup, NameTree;
    if segs != [] {
      LookupMember(v, t, cur, segs[0]);
      WalkMember(v, t, Lookup(v, cur, segs[0]).ino, segs[1..]);
    }
  }

  // Every lookup that succeeds in a member of the tree in v gives the same in w.
  ghost predicate LookupsKept(v: Vol, w: Vol, t: Tree) {
    forall d: nat, q: Name {:trigger Lookup(v, d, q)} :: d in t.parent && Lookup(v, d, q).Found? ==>
      Lookup(w, d, q) == Lookup(v, d, q)
  }

  lemma {:induction false} WalkKept(v: Vol, w: Vol, t: Tree, cur: nat, segs: seq<Name>)
    requires NameTree(v, t) && cur in t.parent && cur < 0x1_0000_0000
    requires LookupsKept(v, w, t) && Walk(v, cur, segs).Found?
    ensures Walk(w, cur, segs) == Walk(v, cur, segs)
    decreases |segs|
  {
    hide Lookup, NameTree;
    if segs != [] {
      LookupMember(v, t, cur, segs[0]);
      WalkKept(v, w, t, Lookup(v, cur, segs[0]).ino, segs[1..]);
    }
  }

  lemma {:induction false} WalkSame(v: Vol, w: Vol, t: Tree, cur: nat, segs: seq<Name>)
    requires NameTree(v, t) && cur in t.parent && cur < 0x1_0000_0000
    requires forall c: nat, q: Name {:trigger Lookup(w, c, q)} :: c in t.parent ==> Lookup(w, c, q) == Lookup(v, c, q)
    ensures Walk(w, cur, segs) == Walk(v, cur, segs)
    decreases |segs|
  {
    hide Lookup, NameTree;
    if segs != [] && Lookup(w, cur, segs[0]).Found? {
      LookupMember(v, t, cur, segs[0]);
      WalkSame(v, w, t, Lookup(v, cur, segs[0]).ino, segs[1..]);
    }
  }

  lemma SameMembersLookups(v: Vol, w: Vol, t: Tree)
    requires Members(v, t) && SameMembers(v, w, t)
    ensures forall d: nat, q: Name {:trigger Lookup(w, d, q)} :: d in t.parent ==> Lookup(w, d, q) == Lookup(v, d, q)
  {
  }

  // An added entry changes no lookup that succeeded.
  lemma AddedLookups(v: Vol, w: Vol, t: Tree, dir: nat, name: Name, ftype: Byte, child: U32)
    requires Members(v, t) && Sound(v) && child != 0 && 1 <= dir <= 256 && IsDir(v.inodes[dir])
    requires Added(v, w, dir, name, ftype, child)
    ensures LookupsKept(v, w, t)
  {
    hide List, Sound;
    forall d: nat, q: Name | d in t.parent && Lookup(v, d, q).Found?
      ensures Lookup(w, d, q) == Lookup(v, d, q)
    {
      if d == dir {
        AddLookup(List(v, dir), name, ftype, child, q);
      } else {
        FrameList(v, w, dir, d);
      }
    }
  }

  // ---- walks that keep away from an inode

  // Following segs from cur comes across c.
  ghost predicate Visits(v: Vol, cur: nat, segs: seq<Name>, c: nat)
    requires cur < 0x1_0000_0000
    decreases |segs|
  {
    cur == c || (segs != [] && Lookup(v, cur, segs[0]).Found? && Visits(v, Lookup(v, cur, segs[0]).ino, segs[1..], c))
  }

  lemma {:induction false} WalkAvoids(v: Vol, w: Vol, t: Tree, cur: nat, segs: seq<Name>, c: nat)
    requires NameTree(v, t) && cur in t.parent && cur < 0x1_0000_0000 && !Visits(v, cur, segs, c)
    requires forall d: nat, q: Name {:trigger Lookup(w, d, q)} :: d in t.parent && d != c ==>
      Lookup(w, d, q) == Lookup(v, d, q) || (Lookup(v, d, q).Found? && Lookup(v, d, q).ino == c)
    ensures Walk(w, cur, segs) == Walk(v, cur, segs)
    decreases |segs|
  {
    hide Lookup, NameTree;
    if segs != [] {
      if Lookup(v, cur, segs[0]).Found? {
        assert Lookup(v, cur, segs[0]).ino != c;
        LookupMember(v, t, cur, segs[0]);
        WalkAvoids(v, w, t, Lookup(v, cur, segs[0]).ino, segs[1..], c);
      }
    }
  }

  // When nothing is found in c any more, a walk that led through c and on fails.
  lemma {:induction false} WalkThrough(v: Vol, w: Vol, t: Tree, cur: nat, segs: seq<Name>, c: nat)
    requires NameTree(v, t) && cur in t.parent && cur < 0x1_0000_0000
    requires Visits(v, cur, segs, c) && (Walk(v, cur, segs).NotFound? || Walk(v, cur, segs).ino != c)
    requires forall d: nat, q: Name {:trigger Lookup(w, d, q)} :: d in t.parent && d != c ==>
      Lookup(w, d, q) == Lookup(v, d, q)
    requires forall q: Name :: Lookup(w, c, q).NotFound?
    ensures Walk(w, cur, segs).NotFound?
    decreases |segs|
  {
    hide Lookup, NameTree;
    if cur == c {
      assert segs != [];
      assert Lookup(w, c, segs[0]).NotFound?;
    } else {
      assert Lookup(w, cur, segs[0]) == Lookup(v, cur, segs[0]);
      LookupMember(v, t, cur, segs[0]);
      WalkThrough(v, w, t, Lookup(v, cur, segs[0]).ino, segs[1..], c);
    }
  }

  // Without ".." a walk only goes down.
  lemma {:induction false} WalkDown(v: Vol, t: Tree, cur: nat, segs: seq<Name>, c: nat)
    requires NameTree(v, t) && cur in t.parent && cur < 0x1_0000_0000 && DOTDOT !in segs && Walk(v, cur, segs).Found?
    ensures Depth(t, cur) <= Depth(t, Walk(v, cur, segs).ino)
    ensures Depth(t, c) > Depth(t, Walk(v, cur, segs).ino) ==> !Visits(v, cur, segs, c)
    decreases |segs|
  {
    hide Lookup;
    if segs != [] {
      LookupMember(v, t, cur, segs[0]);
      assert segs[0] in segs;
      assert forall q :: q in segs[1..] ==> q in segs;
      WalkDown(v, t, Lookup(v, cur, segs[0]).ino, segs[1..], c);
    }
  }

  // So the way to the parent of a child without ".." never leads through the child.
  lemma ParentWalkAvoids(v: Vol, t: Tree, cur: nat, segs: seq<Name>, c: nat)
    requires NameTree(v, t) && cur in t.parent && cur < 0x1_0000_0000 && DOTDOT !in segs
    requires c in t.parent && c != 1 && Walk(v, cur, segs) == Found(Up(t, c))
    ensures !Visits(v, cur, segs, c)
  {
    WalkDown(v, t, cur, segs, c);
  }

  // "." leads to the directory itself, ".." to the one that holds it.
  lemma Dots(v: Vol, t: Tree, d: nat)
    requires NameTree(v, t) && d in t.parent && 1 <= d <= 256 && IsDir(v.inodes[d])
    ensures Lookup(v, d, DOT) == Found(d)
    ensures Lookup(v, d, DOTDOT).Found? && Lookup(v, d, DOTDOT).ino == Up(t, d)
  {
    hide List, CStr;
    var l := List(v, d);
    assert DirOk(v, t, d);
    assert Clip(DOT, 56) == DOT && Clip(DOTDOT, 56) == DOTDOT;
    assert 1 <= Up(t, d) <= 256;
    FirstMatchIs(l, DOT, 0);
    FirstMatchIs(l, DOTDOT, 1);
  }
}
