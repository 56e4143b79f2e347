/** The running simulation of memsim.c: creating and ending processes, compaction, settings. */
module Allocator {
  import opened Intervals
  import opened Memory
  import opened Lists

  const DEFAULT_MEM_SIZE := 1024
  const DEFAULT_MIN_SLICE := 10

  function Pids(ps: seq<Proc>): (l: seq<int>)
    ensures |l| == |ps| && forall i :: 0 <= i < |ps| ==> l[i] == ps[i].pid
  {
    if ps == [] then [] else [ps[0].pid] + Pids(ps[1..])
  }

  // Process numbers are given out once, from 1 on.
  ghost predicate Numbered(ps: seq<Proc>, last: int) {
    forall x :: x in multiset(Pids(ps)) ==> multiset(Pids(ps))[x] == 1 && 1 <= x <= last
  }

  datatype State = State(
    free: seq<Seg>, procs: seq<Proc>, memSize: int, alg: Algorithm,
    minSlice: int, autoCompact: bool, pidSeq: int, locked: bool)

  // What holds between any two commands.
  ghost predicate Inv(s: State) {
    && s.memSize > 0 && s.minSlice >= 0 && s.pidSeq >= 0
    && Tiles(All(s.free, s.procs), s.memSize)
    && Sorted(s.alg, s.free) && Coalesced(multiset(s.free))
    && Numbered(s.procs, s.pidSeq)
    && (!s.locked ==> s.procs == [] && s.free == [Seg(0, s.memSize)])
  }

  // Free and allocated sizes add up to the memory; no sum on the way exceeds it.
  lemma Conserved(s: State)
    requires Inv(s)
    ensures Sum(s.free) + Sum(Segs(s.procs)) == s.memSize
    ensures Sum(s.free) >= 0 && Sum(Segs(s.procs)) >= 0
  {
    TilesSum(s.free + Segs(s.procs), s.memSize);
    SumAppend(s.free, Segs(s.procs));
    PartDisjoint(multiset(s.free), multiset(Segs(s.procs)), s.memSize);
    DisjointSum(s.free);
    DisjointSum(Segs(s.procs));
  }

  lemma {:induction false} DisjointSum(l: seq<Seg>)
    requires forall a :: a in multiset(l) ==> a.size > 0
    ensures Sum(l) >= 0
    ensures forall i :: 0 <= i < |l| ==> l[i].size <= Sum(l)
  {
    if l != [] {
      TailMultiset(l);
      DisjointSum(l[1..]);
      assert l[0] in multiset(l);
      assert forall i :: 1 <= i < |l| ==> l[i] == l[1..][i - 1];
    }
  }

  // ---- permutations

  lemma {:induction false} Permuted(a: seq<Proc>, b: seq<Proc>)
    requires multiset(a) == multiset(b)
    ensures multiset(Segs(a)) == multiset(Segs(b)) && multiset(Pids(a)) == multiset(Pids(b))
    decreases |a|
  {
    hide Segs, Pids;
    if a == [] {
      assert |multiset(b)| == 0;
    } else {
      var i := SameHead(a, b);
      DropProc(b, i);
      DropHead(a);
      Permuted(a[1..], b[..i] + b[i + 1..]);
    }
  }

  lemma SameHead(a: seq<Proc>, b: seq<Proc>) returns (i: nat)
    requires a != [] && multiset(a) == multiset(b)
    ensures i < |b| && b[i] == a[0] && multiset(a[1..]) == multiset(b[..i] + b[i + 1..])
  {
    assert a[0] in multiset(b);
    i :| i < |b| && b[i] == a[0];
    RemoveMultiset(b, i);
    TailMultiset(a);
  }

  lemma DropHead(a: seq<Proc>)
    requires a != []
    ensures multiset(Segs(a)) == multiset{a[0].Seg()} + multiset(Segs(a[1..]))
    ensures multiset(Pids(a)) == multiset{a[0].pid} + multiset(Pids(a[1..]))
  {
  }

  lemma DropProc(b: seq<Proc>, i: nat)
    requires i < |b|
    ensures multiset(Segs(b)) == multiset(Segs(b[..i] + b[i + 1..])) + multiset{b[i].Seg()}
    ensures multiset(Pids(b)) == multiset(Pids(b[..i] + b[i + 1..])) + multiset{b[i].pid}
  {
    RemoveMultiset(Segs(b), i);
    RemoveMultiset(Pids(b), i);
    DropColumns(b, i);
  }

  lemma {:induction false} DropColumns(b: seq<Proc>, i: nat)
    requires i < |b|
    ensures Segs(b[..i] + b[i + 1..]) == Segs(b)[..i] + Segs(b)[i + 1..]
    ensures Pids(b[..i] + b[i + 1..]) == Pids(b)[..i] + Pids(b)[i + 1..]
  {
    hide Segs, Pids;
    var c := b[..i] + b[i + 1..];
    forall j | 0 <= j < |c|
      ensures Segs(c)[j] == (Segs(b)[..i] + Segs(b)[i + 1..])[j] && Pids(c)[j] == (Pids(b)[..i] + Pids(b)[i + 1..])[j]
    {
      assert c[j] == b[if j < i then j else j + 1];
    }
  }

  // ---- compaction

  // r is s moved down, gap-free from address 0.
  ghost predicate MovedDown(s: seq<Proc>, r: seq<Proc>) {
    && |r| == |s| && Chain(Segs(r), 0)
    && forall i :: 0 <= i < |s| ==> r[i].pid == s[i].pid && r[i].size == s[i].size && r[i].start <= s[i].start
  }

  ghost predicate Packed(ps: seq<Proc>, r: seq<Proc>) {
    exists s :: ByAddress(s) && multiset(s) == multiset(ps) && MovedDown(s, r)
  }

  // The free list after compaction.
  function Tail(start: int, size: int): seq<Seg> {
    if size > 0 then [Seg(start, size)] else []
  }

  // All free memory is behind the processes, in one block if there is any.
  ghost predicate Compacted(s: State, t: State) {
    && t == s.(free := t.free, procs := t.procs)
    && Packed(s.procs, t.procs)
    && t.free == Tail(Sum(Segs(t.procs)), Sum(s.free))
  }

  lemma {:induction false} ChainSnoc(l: seq<Seg>, p: int, x: Seg)
    requires Chain(l, p) && x.start == p + Sum(l) && x.size > 0
    ensures Chain(l + [x], p) && Sum(l + [x]) == Sum(l) + x.size
  {
    if l == [] {
      assert l + [x] == [x];
    } else {
      assert (l + [x])[1..] == l[1..] + [x];
      ChainSnoc(l[1..], l[0].End(), x);
    }
  }

  // The i-th interval of a chain starts at the sum of the sizes before it.
  lemma {:induction false} ChainAt(l: seq<Seg>, p: int, i: nat)
    requires Chain(l, p) && i < |l|
    ensures l[i].start == p + Sum(l[..i]) && l[i].size > 0
    ensures i + 1 < |l| ==> l[i].End() == l[i + 1].start
  {
    if i > 0 {
      ChainAt(l[1..], l[0].End(), i - 1);
      assert l[..i][1..] == l[1..][..i - 1];
    }
  }

  lemma {:induction false} ChainOrder(l: seq<Seg>, p: int, i: nat, j: nat)
    requires Chain(l, p) && i < j < |l|
    ensures l[i].End() <= l[j].start
    decreases j - i
  {
    ChainAt(l, p, i);
    if i + 1 < j {
      ChainOrder(l, p, i + 1, j);
      ChainAt(l, p, i + 1);
    }
  }

  // A packed list has the same processes with the same sizes, none moved up, in the same order.
  lemma PackedKeeps(ps: seq<Proc>, r: seq<Proc>, a: Proc, b: Proc) returns (c: Proc, d: Proc)
    requires Packed(ps, r) && a in ps && b in ps
    ensures c in r && c == a.(start := c.start) && c.start <= a.start
    ensures d in r && d == b.(start := d.start) && d.start <= b.start
    ensures a.start < b.start ==> c.start + c.size <= d.start
    ensures |r| == |ps|
  {
    hide Chain, Segs, Sum;
    var s :| ByAddress(s) && multiset(s) == multiset(ps) && MovedDown(s, r);
    assert |multiset(s)| == |s| && |multiset(ps)| == |ps|;
    assert a in multiset(s) && b in multiset(s);
    var i :| 0 <= i < |s| && s[i] == a;
    var j :| 0 <= j < |s| && s[j] == b;
    c, d := r[i], r[j];
    if a.start < b.start {
      assert i < j;
      ChainOrder(Segs(r), 0, i, j);
    }
  }

  lemma {:induction false} SameSizes(a: seq<Proc>, b: seq<Proc>)
    requires |a| == |b| && forall i :: 0 <= i < |a| ==> a[i].size == b[i].size && a[i].pid == b[i].pid
    ensures Sum(Segs(a)) == Sum(Segs(b)) && Pids(a) == Pids(b)
  {
    if a != [] {
      SameSizes(a[1..], b[1..]);
      assert Segs(a)[1..] == Segs(a[1..]) && Segs(b)[1..] == Segs(b[1..]);
    }
  }

  lemma PackedSums(ps: seq<Proc>, r: seq<Proc>)
    requires Packed(ps, r)
    ensures Sum(Segs(r)) == Sum(Segs(ps)) && multiset(Pids(r)) == multiset(Pids(ps)) && Chain(Segs(r), 0)
  {
    var s :| ByAddress(s) && multiset(s) == multiset(ps) && MovedDown(s, r);
    Permuted(s, ps);
    SumPermuted(Segs(s), Segs(ps));
    SameSizes(s, r);
  }

  lemma TailTiles(ps: seq<Proc>, n: int)
    requires Chain(Segs(ps), 0) && Sum(Segs(ps)) <= n
    ensures Tiles(All(Tail(Sum(Segs(ps)), n - Sum(Segs(ps))), ps), n)
  {
    hide Segs;
    var free := Tail(Sum(Segs(ps)), n - Sum(Segs(ps)));
    var l := Segs(ps) + free;
    assert multiset(l) == All(free, ps);
    if free != [] {
      ChainSnoc(Segs(ps), 0, free[0]);
    } else {
      assert l == Segs(ps);
    }
    hide Sum;
    ChainTiles(l, 0);
  }

  lemma TailSorted(alg: Algorithm, start: int, size: int)
    ensures Sorted(alg, Tail(start, size)) && Coalesced(multiset(Tail(start, size)))
    ensures size >= 0 ==> Sum(Tail(start, size)) == size
  {
  }

  lemma NumberedSame(a: seq<Proc>, b: seq<Proc>, last: int)
    requires Numbered(a, last) && multiset(Pids(a)) == multiset(Pids(b))
    ensures Numbered(b, last)
  {
  }

  // Compaction keeps the invariant.
  lemma CompactedInv(s: State, t: State)
    requires Inv(s) && Compacted(s, t) && s.locked
    ensures Inv(t) && Sum(t.free) == Sum(s.free)
  {
    hide Packed, Segs, Sum, Chain, Tiles, Disjoint, All, Sorted, Coalesced, Numbered, Tail, Pids;
    PackedSums(s.procs, t.procs);
    Conserved(s);
    TailSorted(t.alg, Sum(Segs(t.procs)), Sum(s.free));
    TailTiles(t.procs, t.memSize);
    NumberedSame(s.procs, t.procs, s.pidSeq);
  }

  // ---- creating a process without compaction

  // From s, a process of the next number takes the chosen block, or its low part.
  ghost predicate Created(s: State, t: State, want: int) {
    exists a: Seg {:trigger Chosen(s.alg, multiset(s.free), want, a)} ::
      && Chosen(s.alg, multiset(s.free), want, a)
      && Took(s, t, a, Granted(a.size, want, s.minSlice))
  }

  ghost predicate Took(s: State, t: State, a: Seg, k: int) {
    && t == s.(free := t.free, procs := [Proc(s.pidSeq + 1, k, a.start)] + s.procs,
               pidSeq := s.pidSeq + 1, locked := true)
    && multiset(t.free) == Without(multiset(s.free), a, k)
    && Sorted(s.alg, t.free)
  }

  lemma NumberedNew(ps: seq<Proc>, last: int, p: Proc)
    requires Numbered(ps, last) && p.pid == last + 1 && last >= 0
    ensures Numbered([p] + ps, last + 1)
  {
  }

  lemma SegsNew(p: Proc, ps: seq<Proc>)
    ensures multiset(Segs([p] + ps)) == multiset(Segs(ps)) + multiset{p.Seg()}
  {
  }

  lemma TookInv(s: State, t: State, a: Seg, k: int)
    requires Inv(s) && a in multiset(s.free) && 0 < k <= a.size && Took(s, t, a, k)
    ensures Inv(t)
  {
    hide Numbered, Sorted, Segs, Tiles, Disjoint, Coalesced, Pids, Without;
    var p := Proc(s.pidSeq + 1, k, a.start);
    NumberedNew(s.procs, s.pidSeq, p);
    SegsNew(p, s.procs);
    WithoutTiles(multiset(s.free), multiset(Segs(s.procs)), s.memSize, a, k);
    PartDisjoint(multiset(s.free), multiset(Segs(s.procs)), s.memSize);
    WithoutCoalesced(multiset(s.free), a, k);
  }

  lemma CreatedInv(s: State, t: State, want: int)
    requires Inv(s) && want > 0 && Created(s, t, want)
    ensures Inv(t)
  {
    hide Inv, Took;
    var a :| Chosen(s.alg, multiset(s.free), want, a) && Took(s, t, a, Granted(a.size, want, s.minSlice));
    assert s.minSlice >= 0 by {
      InvSlice(s);
    }
    GrantBounds(a.size, want, s.minSlice);
    TookInv(s, t, a, Granted(a.size, want, s.minSlice));
  }

  lemma InvSlice(s: State)
    requires Inv(s)
    ensures s.minSlice >= 0 && s.memSize > 0
  {
  }

  // ---- ending a process

  // g is the coalesced, sorted list of what f and b cover.
  ghost predicate GivenBack(alg: Algorithm, f: seq<Seg>, b: Seg, g: seq<Seg>) {
    && Sorted(alg, g) && Coalesced(multiset(g)) && Disjoint(multiset(g))
    && SameCells(multiset(f) + multiset{b}, multiset(g))
  }

  ghost predicate IsPid(s: State, pid: int, i: nat) {
    i < |s.procs| && s.procs[i].pid == pid
  }

  ghost predicate Ended(s: State, t: State, i: nat)
    requires i < |s.procs|
  {
    && t == s.(free := t.free, procs := s.procs[..i] + s.procs[i + 1..], locked := true)
    && GivenBack(s.alg, s.free, s.procs[i].Seg(), t.free)
  }

  ghost predicate Killed(s: State, t: State, pid: int) {
    if pid in Pids(s.procs) then
      exists i: nat :: IsPid(s, pid, i) && Ended(s, t, i)
    else
      t == s
  }

  lemma PidsDistinct(s: State, i: nat, j: nat)
    requires Inv(s) && i < |s.procs| && j < |s.procs| && s.procs[i].pid == s.procs[j].pid
    ensures i == j
  {
    var l := Pids(s.procs);
    assert l[i] in multiset(l);
    if i < j {
      Twice(l, i, j);
    } else if j < i {
      Twice(l, j, i);
    }
  }

  // Ending the process that was just created restores the free list and the process list:
  // splitting, exact fits and whole blocks given away alike.
  lemma CreateThenKill(s: State, t: State, u: State, want: int)
    requires Inv(s) && want > 0 && Created(s, t, want) && Killed(t, u, s.pidSeq + 1)
    ensures u == s.(pidSeq := s.pidSeq + 1, locked := true)
  {
    CreatedInv(s, t, want);
    hide Inv, Took;
    var a :| Chosen(s.alg, multiset(s.free), want, a) && Took(s, t, a, Granted(a.size, want, s.minSlice));
    InvSlice(s);
    GrantBounds(a.size, want, s.minSlice);
    TookKilled(s, t, u, a, Granted(a.size, want, s.minSlice));
  }

  lemma TookKilled(s: State, t: State, u: State, a: Seg, k: int)
    requires Inv(s) && Inv(t) && a in multiset(s.free) && 0 < k <= a.size
    requires Took(s, t, a, k) && Killed(t, u, s.pidSeq + 1)
    ensures u == s.(pidSeq := s.pidSeq + 1, locked := true)
  {
    hide GivenBack, Sorted, Segs, Tiles, Disjoint, Coalesced, Without, Numbered;
    assert Pids(t.procs)[0] == s.pidSeq + 1;
    var i: nat :| IsPid(t, s.pidSeq + 1, i) && Ended(t, u, i);
    hide Inv;
    PidsDistinct(t, 0, i);
    RestoredFree(s, t.free, u.free, a, k);
  }

  lemma RestoredFree(s: State, f: seq<Seg>, g: seq<Seg>, a: Seg, k: int)
    requires Inv(s) && a in multiset(s.free) && 0 < k <= a.size
    requires multiset(f) == Without(multiset(s.free), a, k)
    requires GivenBack(s.alg, f, Seg(a.start, k), g)
    ensures g == s.free
  {
    var m := multiset(s.free);
    PartDisjoint(m, multiset(Segs(s.procs)), s.memSize);
    hide Tiles, Sorted, Disjoint, Coalesced, Without, Numbered, SameCells;
    WithoutCells(m, a, k);
    SameCellsTrans(m, Without(m, a, k) + multiset{Seg(a.start, k)}, multiset(g));
    CoalescedUnique(m, multiset(g));
    DisjointStarts(m);
    SortedUnique(s.alg, s.free, g);
  }

  // What is free is what no process has.
  lemma FreeCell(f: multiset<Seg>, used: multiset<Seg>, n: int, x: int)
    requires Tiles(f + used, n)
    ensures Covered(f, x) <==> 0 <= x < n && !Covered(used, x)
  {
    var w := f + used;
    assert forall s :: w[s] == f[s] + used[s];
    if s :| s in f && s.Has(x) {
      assert s in w;
    }
    if 0 <= x < n {
      assert Covered(w, x);
    }
  }

  // The free list follows from the places of the processes, whatever was created and ended before,
  // in whatever order.
  lemma FreeDetermined(s: State, t: State)
    requires Inv(s) && Inv(t) && s.memSize == t.memSize && s.alg == t.alg
    requires multiset(Segs(s.procs)) == multiset(Segs(t.procs))
    ensures s.free == t.free
  {
    var f, g, used := multiset(s.free), multiset(t.free), multiset(Segs(s.procs));
    PartDisjoint(f, used, s.memSize);
    PartDisjoint(g, used, s.memSize);
    hide Tiles, Sorted, Disjoint, Coalesced, Numbered, Covered;
    forall x {:trigger Covered(f, x)} {:trigger Covered(g, x)}
      ensures Covered(f, x) <==> Covered(g, x)
    {
      FreeCell(f, used, s.memSize, x);
      FreeCell(g, used, s.memSize, x);
    }
    CoalescedUnique(f, g);
    DisjointStarts(f);
    SortedUnique(s.alg, s.free, t.free);
  }

  lemma DisjointStarts(m: multiset<Seg>)
    requires Disjoint(m)
    ensures DistinctStarts(m)
  {
  }

  // Intervals that cover what a part of a tiling covers can replace it.
  lemma TilesReplace(m: multiset<Seg>, g: multiset<Seg>, rest: multiset<Seg>, n: int)
    requires Tiles(m + rest, n) && Disjoint(g) && SameCells(m, g)
    ensures Tiles(g + rest, n)
  {
    var w, v := m + rest, g + rest;
    PartDisjoint(m, rest, n);
    forall a, r, x | a in g && r in rest && a.Has(x)
      ensures !r.Has(x)
    {
      CellFree(m, g, rest, n, a, r, x);
    }
    forall a | a in g
      ensures 0 <= a.start && a.End() <= n && a !in rest
    {
      CellInside(m, g, rest, n, a, a.start);
      CellInside(m, g, rest, n, a, a.End() - 1);
      assert a.Has(a.start);
    }
    forall a, r | a in g && r in rest
      ensures a != r && Apart(a, r)
    {
      assert a.Has(a.start) && r.Has(r.start);
      assert a.Has(r.start) || r.Has(a.start) || Apart(a, r);
    }
    assert forall s :: v[s] == g[s] + rest[s];
    forall x | 0 <= x < n
      ensures Covered(v, x)
    {
      assert Covered(w, x);
      var s :| s in w && s.Has(x);
      if s in m {
        assert Covered(m, x) && Covered(g, x);
        var t :| t in g && t.Has(x);
        assert t in v;
      } else {
        assert s in v;
      }
    }
  }

  lemma CellFree(m: multiset<Seg>, g: multiset<Seg>, rest: multiset<Seg>, n: int, a: Seg,
                                    r: Seg, x: int)
    requires Tiles(m + rest, n) && SameCells(m, g) && a in g && r in rest && a.Has(x)
    ensures !r.Has(x)
  {
    assert Covered(g, x) && Covered(m, x);
    var q :| q in m && q.Has(x);
    var w := m + rest;
    assert q in w && r in w && w[q] == m[q] + rest[q] && w[q] == 1;
    assert q == r || Apart(q, r);
  }

  lemma CellInside(m: multiset<Seg>, g: multiset<Seg>, rest: multiset<Seg>, n: int, a: Seg, x: int)
    requires Tiles(m + rest, n) && SameCells(m, g) && a in g && a.Has(x)
    ensures 0 <= x < n
  {
    assert Covered(g, x) && Covered(m, x);
    var q :| q in m && q.Has(x);
    assert q in m + rest;
  }

  lemma EndedInv(s: State, t: State, i: nat)
    requires Inv(s) && i < |s.procs| && Ended(s, t, i)
    ensures Inv(t)
  {
    hide Numbered, Sorted, Tiles, Disjoint, Coalesced, SameCells, Segs, Pids, All;
    DroppedTiles(s.free, s.procs, i, t.free, s.memSize);
    NumberedDropped(s.procs, i, s.pidSeq);
  }

  lemma DroppedTiles(f: seq<Seg>, ps: seq<Proc>, i: nat, g: seq<Seg>, n: int)
    requires i < |ps| && Tiles(All(f, ps), n) && Disjoint(multiset(g))
    requires SameCells(multiset(f) + multiset{ps[i].Seg()}, multiset(g))
    ensures Tiles(All(g, ps[..i] + ps[i + 1..]), n)
  {
    DroppedAll(f, ps, i);
    hide Tiles, Disjoint, SameCells, Segs;
    TilesReplace(multiset(f) + multiset{ps[i].Seg()}, multiset(g), multiset(Segs(ps[..i] + ps[i + 1..])), n);
  }

  lemma DroppedAll(f: seq<Seg>, ps: seq<Proc>, i: nat)
    requires i < |ps|
    ensures All(f, ps) == (multiset(f) + multiset{ps[i].Seg()}) + multiset(Segs(ps[..i] + ps[i + 1..]))
  {
    hide Segs, Pids;
    DropProc(ps, i);
  }

  lemma NumberedDropped(ps: seq<Proc>, i: nat, last: int)
    requires Numbered(ps, last) && i < |ps|
    ensures Numbered(ps[..i] + ps[i + 1..], last)
  {
    DropProc(ps, i);
    var m := multiset(Pids(ps[..i] + ps[i + 1..]));
    assert forall x :: m[x] <= multiset(Pids(ps))[x];
  }

  // ---- requests

  // A request is met when a block fits, or when compaction is on and the free total is enough.
  ghost predicate Possible(s: State, want: int) {
    AnyFits(s.free, want) || (s.autoCompact && Sum(s.free) >= want)
  }

  // m is the state the block is taken from: s, compacted if no block of s fits.
  ghost predicate Prepared(s: State, m: State, want: int) {
    if AnyFits(s.free, want) then m == s else s.autoCompact && Compacted(s, m)
  }

  lemma WhenMoved(s: State, m: State, want: int)
    requires Prepared(s, m, want)
    ensures if exists b :: b in multiset(s.free) && b.size >= want then m == s else s.autoCompact && Compacted(s, m)
  {
    hide Compacted;
    assert forall i :: 0 <= i < |s.free| ==> s.free[i] in multiset(s.free);
    if b :| b in multiset(s.free) && b.size >= want {
      var i :| 0 <= i < |s.free| && s.free[i] == b;
      assert AnyFits(s.free, want);
    }
  }

  // Nothing is allocated before the first lock, so one block is all free memory.
  lemma CompactsLocked(s: State, want: int)
    requires Inv(s) && !AnyFits(s.free, want) && Sum(s.free) >= want
    ensures s.locked
  {
    if !s.locked {
      WholeFits(s, want);
    }
  }

  // The choices of the menu.
  function AlgorithmOf(choice: int): Algorithm {
    match choice
    case 1 => FirstFit
    case 2 => BestFit
    case _ => WorstFit
  }

  // What the choices of the menu mean: the first by address, a smallest, a largest block of those
  // that are large enough.
  ghost predicate MenuChoice(choice: int, free: multiset<Seg>, want: int, a: Seg) {
    && a in free && a.size >= want
    && forall b :: b in free && b.size >= want ==>
         && (choice == 1 ==> a.start <= b.start)
         && (choice == 2 ==> a.size < b.size || (a.size == b.size && a.start <= b.start))
         && (choice == 3 ==> a.size > b.size || (a.size == b.size && a.start <= b.start))
  }

  lemma ChoiceMeans(choice: int, free: multiset<Seg>, want: int, a: Seg)
    requires 1 <= choice <= 3
    ensures Chosen(AlgorithmOf(choice), free, want, a) <==> MenuChoice(choice, free, want, a)
  {
  }

  // What a creation does: the menu's choice of a block, the grant in plain terms, the rest of the
  // block free.
  lemma CreatedIs(s: State, t: State, want: int, choice: int) returns (a: Seg)
    requires Inv(s) && want > 0 && Created(s, t, want) && 1 <= choice <= 3 && s.alg == AlgorithmOf(choice)
    ensures MenuChoice(choice, multiset(s.free), want, a)
    ensures
      var k := if a.size == want || a.size - want >= s.minSlice then want else a.size;
      && t.procs == [Proc(s.pidSeq + 1, k, a.start)] + s.procs
      && multiset(t.free) == Without(multiset(s.free), a, k)
  {
    InvSlice(s);
    hide Inv, Sorted, AlgorithmOf, MenuChoice, Chosen, Without, Granted, Took;
    a :| Chosen(s.alg, multiset(s.free), want, a) && Took(s, t, a, Granted(a.size, want, s.minSlice));
    ChoiceMeans(choice, multiset(s.free), want, a);
    MenuFits(choice, multiset(s.free), want, a);
    GrantBounds(a.size, want, s.minSlice);
    TookIs(s, t, a, Granted(a.size, want, s.minSlice));
  }

  lemma TookIs(s: State, t: State, a: Seg, k: int)
    requires Took(s, t, a, k)
    ensures t.procs == [Proc(s.pidSeq + 1, k, a.start)] + s.procs && multiset(t.free) == Without(multiset(s.free), a, k)
  {
    hide Without, Sorted;
  }

  lemma ChosenFits(alg: Algorithm, free: multiset<Seg>, want: int, a: Seg)
    requires Chosen(alg, free, want, a)
    ensures a.size >= want
  {
  }

  lemma MenuFits(choice: int, free: multiset<Seg>, want: int, a: Seg)
    requires MenuChoice(choice, free, want, a)
    ensures a.size >= want
  {
  }

  lemma SettingsInv(s: State, v: int, autoCompact: bool)
    requires Inv(s) && v >= 0
    ensures Inv(s.(minSlice := v, autoCompact := autoCompact))
  {
    hide Tiles, Sorted, Coalesced, Numbered;
  }

  lemma UnlockedWhole(s: State)
    requires Inv(s) && !s.locked
    ensures s.procs == [] && s.free == [Seg(0, s.memSize)] && s.minSlice >= 0 && s.pidSeq >= 0
  {
  }

  lemma WholeFits(s: State, want: int)
    requires Inv(s) && !s.locked && Sum(s.free) >= want
    ensures AnyFits(s.free, want)
  {
  }

  // After compaction the free total is one block.
  lemma CompactedFits(s: State, m: State, want: int)
    requires Inv(s) && Compacted(s, m) && 0 < want <= Sum(s.free)
    ensures AnyFits(m.free, want)
  {
    assert m.free[0].size == Sum(s.free);
  }

  // Conversely a block that fits is part of the free total, so with compaction on a request is
  // met exactly when the memory not in use is enough.
  lemma PossibleWhen(s: State, want: int)
    requires Inv(s) && want > 0
    ensures s.autoCompact ==> (Possible(s, want) <==> want <= s.memSize - Sum(Segs(s.procs)))
    ensures !s.autoCompact ==> (Possible(s, want) <==> AnyFits(s.free, want))
  {
    hide Tiles, Sorted, Numbered, Coalesced, Segs, Pids;
    Conserved(s);
    PartDisjoint(multiset(s.free), multiset(Segs(s.procs)), s.memSize);
    DisjointSum(s.free);
  }

  // What a created process changes, with or without compaction, keeps the invariant.
  lemma PreparedInv(s: State, m: State, want: int)
    requires Inv(s) && want > 0 && Possible(s, want) && Prepared(s, m, want)
    ensures Inv(m) && AnyFits(m.free, want)
  {
    hide Inv, Compacted;
    if !AnyFits(s.free, want) {
      CompactsLocked(s, want);
      CompactedInv(s, m);
      CompactedFits(s, m, want);
    }
  }

  // ---- the simulation

  // A list in rising order by address or by the order of an algorithm is sorted.
  lemma RisingSorted(alg: Algorithm, l: seq<Seg>)
    requires Rising((a: Seg, b: Seg) => Le(alg, a, b), l)
    ensures Sorted(alg, l)
  {
  }

  lemma RisingAddress(l: seq<Proc>)
    requires Rising((a: Proc, b: Proc) => a.start <= b.start, l)
    ensures ByAddress(l)
  {
  }

  class Simulator {
    const freeList: LinkedList<Seg>
    const procList: LinkedList<Proc>
    var memSize: int
    var alg: Algorithm
    var minSlice: int
    var autoCompact: bool
    var pidSeq: int
    var locked: bool

    ghost function S(): State
      reads this, freeList, procList
    {
      State(freeList.data, procList.data, memSize, alg, minSlice, autoCompact, pidSeq, locked)
    }

    // The two lists are well linked.
    ghost predicate Valid()
      reads this, freeList, freeList.repr, procList, procList.repr
    {
      freeList.Valid() && procList.Valid()
    }

    constructor ()
      ensures Valid() && Inv(S())
      ensures fresh({freeList}) && fresh(freeList.repr) && fresh({procList}) && fresh(procList.repr)
      ensures S() ==
        State([Seg(0, DEFAULT_MEM_SIZE)], [], DEFAULT_MEM_SIZE, FirstFit, DEFAULT_MIN_SLICE, true, 0, false)
    {
      freeList := new LinkedList(Seg(0, DEFAULT_MEM_SIZE));
      procList := new LinkedList<Proc>.Empty();
      memSize, alg, minSlice := DEFAULT_MEM_SIZE, FirstFit, DEFAULT_MIN_SLICE;
      autoCompact, pidSeq, locked := true, 0, false;
      new;
      WholeInv(S());
    }

    // The sorts of the free list.
    method SortFree(order: Algorithm)
      requires freeList.Valid()
      modifies freeList, freeList.repr
      ensures freeList.Valid() && freeList.repr == old(freeList.repr)
      ensures Sorted(order, freeList.data) && multiset(freeList.data) == multiset(old(freeList.data))
    {
      FreeOrder(order);
      freeList.Sort((a: Seg, b: Seg) => Le(order, a, b), (a: Seg, b: Seg) => Lt(order, a, b));
      RisingSorted(order, freeList.data);
    }

    method SumFree() returns (n: int)
      requires freeList.Valid()
      ensures n == Sum(freeList.data)
    {
      n := 0;
      var p := freeList.head;
      ghost var i := 0;
      ghost var l := freeList.data;
      hide LinkedList.Valid;
      ValidHead(freeList);
      while p != null
        invariant i <= |l| == |freeList.nodes| && p == NodeAt(freeList.nodes, i) && n + Sum(l[i..]) == Sum(l)
        decreases |l| - i
      {
        ValidAt(freeList, i);
        assert l[i..][1..] == l[i + 1..];
        n := n + p.data.size;
        p := p.next;
        i := i + 1;
      }
    }

    // find_process, with the place of the process in the list.
    method FindProcess(pid: int) returns (p: Node?<Proc>, ghost i: nat)
      requires procList.Valid()
      ensures p == null <==> pid !in Pids(procList.data)
      ensures p != null ==> i < |procList.nodes| == |procList.data| && p == procList.nodes[i]
      ensures p != null ==> p.data == procList.data[i] && p.data.pid == pid
    {
      p := procList.head;
      i := 0;
      ghost var l := procList.data;
      hide LinkedList.Valid;
      ValidHead(procList);
      while p != null
        invariant i <= |l| == |procList.nodes| && p == NodeAt(procList.nodes, i)
        invariant forall j :: 0 <= j < i ==> l[j].pid != pid
        decreases |l| - i
      {
        ValidAt(procList, i);
        if p.data.pid == pid {
          assert Pids(l)[i] == pid;
          return;
        }
        p := p.next;
        i := i + 1;
      }
    }

    // compact_memory; no request comes here before the first lock, as CompactsLocked shows.
    method CompactMemory()
      requires Valid() && Inv(S()) && locked
      modifies freeList, freeList.repr, procList, procList.repr
      ensures Valid() && fresh(freeList.repr - old(freeList.repr)) && fresh(procList.repr - old(procList.repr))
      ensures Inv(S()) && Compacted(old(S()), S())
    {
      hide Inv, Compacted, MovedDown, ByAddress, Sorted, Segs, Sum, List, IsOrder, Rising, LinkedList.Valid;
      ghost var before := S();
      ProcOrder();
      procList.Sort((a: Proc, b: Proc) => a.start <= b.start, (a: Proc, b: Proc) => a.start < b.start);
      RisingAddress(procList.data);
      ghost var s := procList.data;
      SortedProcsOk(before, s);
      var next := PackDown();
      CompactedParts(before, s, procList.data);
      var size := memSize - next;
      freeList.Clear();
      if size > 0 {
        freeList.Prepend(Seg(next, size));
      }
      assert freeList.data == Tail(next, size);
      SortFree(alg);
      OneSorted(Tail(next, size), freeList.data);
      CompactedInv(before, S());
    }

    // The loop of compact_memory: the processes in the order of the list, from address 0 on.
    method PackDown() returns (next: int)
      requires procList.Valid() && InOrder(procList.data)
      modifies procList, procList.repr
      ensures procList.Valid() && procList.repr == old(procList.repr)
      ensures MovedDown(old(procList.data), procList.data) && next == Sum(Segs(procList.data))
    {
      ghost var s := procList.data;
      hide PackedTo, InOrder, List, LinkedList.Valid, MovedDown, Sum, Segs;
      next := 0;
      var cur := procList.head;
      ghost var i := 0;
      ValidHead(procList);
      PackStart(s);
      while cur != null
        invariant procList.Valid() && procList.nodes == old(procList.nodes) && procList.head == old(procList.head)
        invariant procList.repr == old(procList.repr)
        invariant i <= |s| == |procList.nodes| == |procList.data| && cur == NodeAt(procList.nodes, i)
        invariant PackedTo(s, procList.data, i, next)
        decreases |s| - i
      {
        PackStep(s, procList.data, i, next);
        MoveDown(cur, next, i);
        ValidAt(procList, i);
        next := next + cur.data.size;
        cur := cur.next;
        i := i + 1;
      }
      PackEnd(s, procList.data, next);
    }

    // One process gets its new address.
    method MoveDown(cur: Node<Proc>, next: int, ghost i: nat)
      requires procList.Valid() && i < |procList.nodes| == |procList.data| && cur == procList.nodes[i]
      modifies procList`data, procList.repr
      ensures procList.Valid() && procList.data == old(procList.data)[i := old(procList.data)[i].(start := next)]
    {
      ListAt(procList.head, procList.nodes, procList.data, i);
      hide List;
      if cur.data.start != next {
        procList.Set(cur, i, cur.data.(start := next));
      }
    }

    // The three cases of allocate_mem for the block it found.
    method TakeBlock(pre: Node?<Seg>, cur: Node<Seg>, want: int, ghost i: nat) returns (start: int, size: int)
      requires freeList.Valid() && i < |freeList.nodes| && cur == freeList.nodes[i]
      requires pre == if i == 0 then null else freeList.nodes[i - 1]
      requires 0 < want <= cur.data.size && minSlice >= 0
      modifies freeList, freeList.repr
      ensures freeList.Valid() && freeList.repr == old(freeList.repr)
      ensures start == old(cur.data).start && size == Granted(old(cur.data).size, want, minSlice)
      ensures multiset(freeList.data) == Without(multiset(old(freeList.data)), old(cur.data), size)
      ensures Sorted(alg, freeList.data)
    {
      hide List, Sorted, Without, LinkedList.Valid;
      var a := cur.data;
      ghost var was := freeList.data;
      ValidAt(freeList, i);
      start, size := a.start, want;
      var leftover := a.size - want;
      if leftover == 0 {
        freeList.Unlink(pre, cur, i);
      } else if leftover < minSlice {
        size := a.size;
        freeList.Unlink(pre, cur, i);
      } else {
        freeList.Set(cur, i, Seg(start + want, leftover));
      }
      assert freeList.data == Remaining(was, i, size);
      RemainingWithout(was, i, size);
      SortFree(alg);
    }

    // The loop of allocate_mem: the first block of the list that is large enough.
    method TakeFirst(want: int) returns (ok: bool, start: int, size: int, ghost a: Seg)
      requires Valid() && Inv(S()) && want > 0
      modifies freeList, freeList.repr
      ensures Valid() && fresh(freeList.repr - old(freeList.repr))
      ensures ok <==> AnyFits(old(S()).free, want)
      ensures !ok ==> S() == old(S())
      ensures ok ==> Chosen(alg, multiset(old(S()).free), want, a)
      ensures ok ==> start == a.start && size == Granted(a.size, want, minSlice)
      ensures ok ==>
        && procList.data == old(S()).procs && multiset(freeList.data) == Without(multiset(old(S()).free), a, size)
        && Sorted(alg, freeList.data)
    {
      hide Inv, Sorted, Chosen, List, Without, LinkedList.Valid;
      ghost var m := S();
      var pre: Node?<Seg>, cur := null, freeList.head;
      ghost var i := 0;
      ValidHead(freeList);
      while cur != null
        invariant Valid() && S() == m && unchanged(freeList) && unchanged(procList)
        invariant i <= |freeList.data| == |freeList.nodes| && cur == NodeAt(freeList.nodes, i)
        invariant pre == if i == 0 then null else freeList.nodes[i - 1]
        invariant forall j :: 0 <= j < i ==> freeList.data[j].size < want
        decreases |freeList.data| - i
      {
        ValidAt(freeList, i);
        if cur.data.size >= want {
          InvSorted(m);
          InvSlice(m);
          FirstIsChosen(alg, freeList.data, want, i);
          a := cur.data;
          start, size := TakeBlock(pre, cur, want, i);
          ok := true;
          return;
        }
        pre, cur := cur, cur.next;
        i := i + 1;
      }
      assert !AnyFits(freeList.data, want);
      ok, start, size, a := false, 0, 0, Seg(0, 0);
    }

    // allocate_mem: at most one retry, after compaction. The block comes from m, at a.
    method AllocateMem(want: int) returns (ok: bool, start: int, size: int, ghost m: State, ghost a: Seg)
      requires Valid() && Inv(S()) && want > 0
      modifies freeList, freeList.repr, procList, procList.repr
      ensures Valid() && fresh(freeList.repr - old(freeList.repr)) && fresh(procList.repr - old(procList.repr))
      ensures ok <==> Possible(old(S()), want)
      ensures !ok ==> S() == old(S())
      ensures ok ==> Prepared(old(S()), m, want) && Chosen(alg, multiset(m.free), want, a)
      ensures ok ==> start == a.start && size == Granted(a.size, want, minSlice)
      ensures ok ==> size == if a.size == want || a.size - want >= minSlice then want else a.size
      ensures ok ==>
        && procList.data == m.procs && multiset(freeList.data) == Without(multiset(m.free), a, size)
        && Sorted(alg, freeList.data)
      decreases if AnyFits(freeList.data, want) then 0 else 1
    {
      hide Inv, Sorted, Compacted, Sum, Chosen, List, Without, LinkedList.Valid, AnyFits;
      m := S();
      ok, start, size, a := TakeFirst(want);
      if !ok && autoCompact {
        var total := SumFree();
        if total >= want {
          CompactsLocked(S(), want);
          assert locked;
          CompactMemory();
          CompactedFits(old(S()), S(), want);
          ok, start, size, m, a := AllocateMem(want);
        }
      }
      if ok {
        InvSlice(old(S()));
        ChosenFits(alg, multiset(m.free), want, a);
        GrantBounds(a.size, want, minSlice);
      }
    }

    // The new process becomes the first of the list.
    method Enter(p: Proc)
      requires Valid()
      modifies this`locked, procList, procList.repr
      ensures Valid() && fresh(procList.repr - old(procList.repr))
      ensures S() == old(S()).(procs := [p] + old(S()).procs, locked := true)
    {
      hide List, LinkedList.Valid;
      procList.Prepend(p);
      locked := true;
    }

    // new_process, with the size that was typed in.
    method NewProcess(want: int) returns (ok: bool, ghost m: State)
      requires Valid() && Inv(S())
      modifies this, freeList, freeList.repr, procList, procList.repr
      ensures Valid() && fresh(freeList.repr - old(freeList.repr)) && fresh(procList.repr - old(procList.repr))
      ensures Inv(S())
      ensures ok <==> want > 0 && Possible(old(S()), want)
      ensures !ok ==> S() == old(S()).(pidSeq := old(pidSeq) + 1)
      ensures ok ==> Prepared(old(S()), m, want) && Inv(m) && Created(m, S(), want)
      // Only when no block is large enough the processes are moved.
      ensures ok && (exists b :: b in multiset(old(S()).free) && b.size >= want) ==>
        m == old(S()) && S().procs[1..] == old(S()).procs
      ensures ok && !(exists b :: b in multiset(old(S()).free) && b.size >= want) ==>
        old(autoCompact) && Compacted(old(S()), m)
    {
      hide Inv, Sorted, Possible, Prepared, Chosen, Created, Granted, Without, List, LinkedList.Valid;
      m := S();
      pidSeq := pidSeq + 1;
      NextPid(m, S());
      if want <= 0 {
        ok := false;
        return;
      }
      ghost var s := S();
      SameRequest(m, s, want);
      var start, size;
      ghost var c, a;
      ok, start, size, c, a := AllocateMem(want);
      if ok {
        ghost var f := freeList.data;
        Enter(Proc(pidSeq, size, start));
        CreatedAfter(m, s, c, f, want, a, size);
        m := c.(pidSeq := m.pidSeq);
        WhenMoved(old(S()), m, want);
      }
    }

    // free_mem
    method FreeMem(p: Proc, ghost rest: multiset<Seg>, ghost n: int)
      requires freeList.Valid() && Tiles(multiset(freeList.data) + multiset{p.Seg()} + rest, n)
      modifies freeList, freeList.repr
      ensures freeList.Valid() && fresh(freeList.repr - old(freeList.repr))
      ensures GivenBack(alg, old(freeList.data), p.Seg(), freeList.data)
    {
      hide Tiles, SameCells, Sorted, Disjoint, Coalesced, List, LinkedList.Valid;
      ghost var l := freeList.data;
      freeList.Append(Seg(p.start, p.size));
      assert multiset(freeList.data) == multiset(l) + multiset{p.Seg()};
      SortFree(FirstFit);
      Merge(freeList, rest, n);
      PartDisjoint(multiset(freeList.data), rest, n);
      SortFree(alg);
    }

    // kill_process
    method KillProcess(pid: int)
      requires Valid() && Inv(S())
      modifies this, freeList, freeList.repr, procList, procList.repr
      ensures Valid() && fresh(freeList.repr - old(freeList.repr)) && fresh(procList.repr - old(procList.repr))
      ensures Inv(S()) && Killed(old(S()), S(), pid)
    {
      ghost var s := S();
      hide Pids, Segs, Tiles, Disjoint, Coalesced, Sorted, GivenBack, List, LinkedList.Valid;
      var p;
      ghost var i;
      p, i := FindProcess(pid);
      if p == null {
        return;
      }
      ghost var rest := multiset(Segs(s.procs[..i] + s.procs[i + 1..]));
      DroppedAll(s.free, s.procs, i);
      FreeMem(p.data, rest, memSize);
      procList.Remove(p, i);
      locked := true;
      assert IsPid(s, pid, i) && Ended(s, S(), i);
      hide Inv;
      EndedInv(s, S(), i);
    }

    // set_mem_size
    method SetMemSize(size: int) returns (ok: bool)
      requires Valid() && Inv(S())
      modifies this, freeList, freeList.repr, procList, procList.repr
      ensures Valid() && fresh(freeList.repr - old(freeList.repr)) && fresh(procList.repr - old(procList.repr))
      ensures Inv(S()) && (ok <==> !old(locked) && size > 0)
      ensures S() == if ok then old(S()).(memSize := size, free := [Seg(0, size)]) else old(S())
    {
      hide Inv, List, LinkedList.Valid;
      if locked || size <= 0 {
        return false;
      }
      UnlockedWhole(S());
      memSize := size;
      ValidHead(freeList);
      ValidAt(freeList, 0);
      freeList.Set(freeList.head, 0, Seg(0, size));
      WholeInv(S());
      return true;
    }

    // set_algorithm: the choices 1, 2 and 3.
    method SetAlgorithm(choice: int)
      requires Valid() && Inv(S())
      modifies this, freeList, freeList.repr, procList, procList.repr
      ensures Valid() && fresh(freeList.repr - old(freeList.repr)) && fresh(procList.repr - old(procList.repr))
      ensures Inv(S())
      ensures choice < 1 || choice > 3 ==> S() == old(S())
      ensures 1 <= choice <= 3 ==>
        && S() == old(S()).(alg := AlgorithmOf(choice), free := freeList.data, locked := true)
        && multiset(freeList.data) == multiset(old(freeList.data))
    {
      hide Inv, Sorted, List, AlgorithmOf, LinkedList.Valid;
      if choice < 1 || choice > 3 {
        return;
      }
      ghost var s := S();
      alg := AlgorithmOf(choice);
      SortFree(alg);
      locked := true;
      Reordered(s, S());
    }

    method SetMinSlice(v: int)
      requires Valid() && Inv(S())
      modifies this`minSlice
      ensures Valid()
      ensures Inv(S()) && S() == old(S()).(minSlice := if v < 0 then old(minSlice) else v)
    {
      hide Inv, List;
      if v >= 0 {
        SettingsInv(S(), v, autoCompact);
        minSlice := v;
      }
    }

    method ToggleAutoCompact()
      requires Valid() && Inv(S())
      modifies this`autoCompact
      ensures Valid()
      ensures Inv(S()) && S() == old(S()).(autoCompact := !old(autoCompact))
    {
      hide Inv, List;
      InvSlice(S());
      SettingsInv(S(), minSlice, !autoCompact);
      autoCompact := !autoCompact;
    }
  }

  lemma CreatedBy(s: State, t: State, want: int, a: Seg, k: int)
    requires Chosen(s.alg, multiset(s.free), want, a) && k == Granted(a.size, want, s.minSlice) && Took(s, t, a, k)
    ensures Created(s, t, want)
  {
  }

  // The list after taking the first k cells of its i-th block, before it is sorted again.
  function Remaining(l: seq<Seg>, i: nat, k: int): seq<Seg>
    requires i < |l|
  {
    if k == l[i].size then l[..i] + l[i + 1..] else l[i := Seg(l[i].start + k, l[i].size - k)]
  }

  lemma RemainingWithout(l: seq<Seg>, i: nat, k: int)
    requires i < |l| && k <= l[i].size
    ensures multiset(Remaining(l, i, k)) == Without(multiset(l), l[i], k)
  {
    if k == l[i].size {
      RemoveMultiset(l, i);
    } else {
      ReplaceMultiset(l, i, Seg(l[i].start + k, l[i].size - k));
    }
  }

  // Where new_process has counted up and allocate_mem has not yet run.
  // From s the number is counted up in n, and c is what n was prepared to before the block a, or the
  // part of size k, was taken from it.
  lemma CreatedAfter(s: State, n: State, c: State, f: seq<Seg>, want: int, a: Seg, k: int)
    requires Inv(s) && want > 0 && Possible(s, want) && n == s.(pidSeq := s.pidSeq + 1) && Prepared(n, c, want)
    requires Chosen(s.alg, multiset(c.free), want, a) && k == Granted(a.size, want, s.minSlice)
    requires multiset(f) == Without(multiset(c.free), a, k) && Sorted(s.alg, f)
    ensures
      var m := c.(pidSeq := s.pidSeq);
      var t := n.(free := f, procs := [Proc(n.pidSeq, k, a.start)] + c.procs, locked := true);
      Prepared(s, m, want) && Inv(m) && Created(m, t, want) && Inv(t)
  {
    hide Inv, Sorted, Possible, Prepared, Chosen, Created, Granted, Without;
    var m := c.(pidSeq := s.pidSeq);
    PreparedBefore(s, n, c, want);
    PreparedInv(s, m, want);
    PreparedSame(s, m, want);
    CreatedBy(m, n.(free := f, procs := [Proc(n.pidSeq, k, a.start)] + c.procs, locked := true), want, a, k);
    CreatedInv(m, n.(free := f, procs := [Proc(n.pidSeq, k, a.start)] + c.procs, locked := true), want);
  }

  lemma NextPid(s: State, t: State)
    requires Inv(s) && t == s.(pidSeq := s.pidSeq + 1)
    ensures Inv(t)
  {
  }

  lemma InvSorted(s: State)
    requires Inv(s)
    ensures Sorted(s.alg, s.free)
  {
  }

  lemma SameRequest(s: State, t: State, want: int)
    requires t == s.(pidSeq := t.pidSeq)
    ensures Possible(s, want) <==> Possible(t, want)
  {
  }

  lemma PreparedBefore(s: State, t: State, m: State, want: int)
    requires t == s.(pidSeq := t.pidSeq) && Prepared(t, m, want)
    ensures Prepared(s, m.(pidSeq := s.pidSeq), want)
  {
  }

  lemma PreparedSame(s: State, m: State, want: int)
    requires Prepared(s, m, want)
    ensures m == s.(free := m.free, procs := m.procs)
  {
  }

  lemma Reordered(s: State, t: State)
    requires Inv(s) && t == s.(alg := t.alg, free := t.free, locked := true)
    requires multiset(t.free) == multiset(s.free) && Sorted(t.alg, t.free)
    ensures Inv(t)
  {
  }

  lemma ReplaceMultiset<T>(l: seq<T>, i: nat, x: T)
    requires i < |l|
    ensures multiset(l[i := x]) == multiset(l) - multiset{l[i]} + multiset{x}
  {
  }

  // The processes follow one another upwards.
  ghost predicate InOrder(s: seq<Proc>) {
    && (forall i :: 0 <= i < |s| ==> s[i].size > 0 && s[i].start >= 0)
    && (forall i :: 0 <= i < |s| - 1 ==> s[i].start + s[i].size <= s[i + 1].start)
  }

  // The first i processes of s are packed in r, up to next.
  ghost predicate PackedTo(s: seq<Proc>, r: seq<Proc>, i: nat, next: int) {
    && i <= |r| == |s|
    && (forall j :: i <= j < |s| ==> r[j] == s[j])
    && (forall j :: 0 <= j < i ==> r[j].pid == s[j].pid && r[j].size == s[j].size && r[j].start <= s[j].start)
    && Chain(Segs(r[..i]), 0) && next == Sum(Segs(r[..i]))
    && (i < |s| ==> next <= s[i].start)
  }

  lemma PackStart(s: seq<Proc>)
    requires InOrder(s)
    ensures PackedTo(s, s, 0, 0)
  {
  }

  lemma PackStep(s: seq<Proc>, r: seq<Proc>, i: nat, next: int)
    requires InOrder(s) && PackedTo(s, r, i, next) && i < |s|
    ensures i < |r| && r[i] == s[i]
    ensures PackedTo(s, r[i := r[i].(start := next)], i + 1, next + s[i].size)
    ensures r[i].start == next ==> r[i := r[i].(start := next)] == r
  {
    hide Segs, Sum, Chain;
    var p := r[i].(start := next);
    var w := r[i := p];
    assert w[..i + 1] == r[..i] + [p];
    SegsAppend(r[..i], [p]);
    assert Segs([p]) == [p.Seg()];
    ChainSnoc(Segs(r[..i]), 0, p.Seg());
  }

  lemma PackEnd(s: seq<Proc>, r: seq<Proc>, next: int)
    requires PackedTo(s, r, |s|, next)
    ensures MovedDown(s, r) && next == Sum(Segs(r))
  {
    hide Segs, Sum, Chain;
    assert r[..|s|] == r;
  }

  lemma SortedProcsOk(t: State, s: seq<Proc>)
    requires Inv(t) && ByAddress(s) && multiset(s) == multiset(t.procs)
    ensures InOrder(s)
  {
    hide Segs, Pids, Coalesced, Numbered;
    Permuted(t.procs, s);
    PartDisjoint(multiset(t.free), multiset(Segs(t.procs)), t.memSize);
    hide Tiles;
    AddressEnds(s);
  }

  lemma CompactedParts(s: State, sorted: seq<Proc>, r: seq<Proc>)
    requires Inv(s) && ByAddress(sorted) && multiset(sorted) == multiset(s.procs) && MovedDown(sorted, r)
    ensures Compacted(s, s.(procs := r, free := Tail(Sum(Segs(r)), s.memSize - Sum(Segs(r)))))
  {
    hide MovedDown, ByAddress, Inv;
    assert Packed(s.procs, r);
    PackedSums(s.procs, r);
    Conserved(s);
  }

  lemma {:induction false} AddressEnds(s: seq<Proc>)
    requires ByAddress(s) && Disjoint(multiset(Segs(s)))
    requires forall a :: a in multiset(Segs(s)) ==> a.start >= 0
    ensures forall i :: 0 <= i < |s| ==> s[i].size > 0 && s[i].start >= 0
    ensures forall i :: 0 <= i < |s| - 1 ==> s[i].start + s[i].size <= s[i + 1].start
  {
    hide Segs;
    var l := Segs(s);
    SortedEnds(l);
    forall i | 0 <= i < |s|
      ensures s[i].start >= 0
    {
      assert l[i] in multiset(l);
    }
  }

  lemma OneSorted(l: seq<Seg>, s: seq<Seg>)
    requires multiset(l) == multiset(s) && |l| <= 1
    ensures s == l
  {
    assert |multiset(s)| == |s| && |multiset(l)| == |l|;
    assert l != [] ==> l[0] in multiset(s);
  }

  lemma WholeInv(s: State)
    requires s.memSize > 0 && s.minSlice >= 0 && s.pidSeq >= 0 && s.procs == [] && s.free == [Seg(0, s.memSize)]
    ensures Inv(s)
  {
  }
}
