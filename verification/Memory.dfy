/** memsim.c: dynamic partitions with first, best and worst fit, coalescing and compaction.
    The lists appear as what they hold, head first; Lists has their nodes. */
module Memory {
  import opened Intervals

  datatype Proc = Proc(pid: int, size: int, start: int) {
    function Seg(): Seg {
      Intervals.Seg(start, size)
    }
  }

  function Segs(ps: seq<Proc>): (l: seq<Seg>)
    ensures |l| == |ps| && forall i :: 0 <= i < |ps| ==> l[i] == ps[i].Seg()
  {
    if ps == [] then [] else [ps[0].Seg()] + Segs(ps[1..])
  }

  // All intervals of the memory, free and allocated.
  ghost function All(free: seq<Seg>, ps: seq<Proc>): multiset<Seg> {
    multiset(free) + multiset(Segs(ps))
  }

  lemma SegsAppend(a: seq<Proc>, b: seq<Proc>)
    ensures Segs(a + b) == Segs(a) + Segs(b)
  {
  }

  // ---- order

  lemma InsertSorted(alg: Algorithm, s: seq<Seg>, c: Seg, k: nat)
    requires Sorted(alg, s) && k <= |s|
    requires forall i :: 0 <= i < k ==> Le(alg, s[i], c)
    requires forall i :: k <= i < |s| ==> Le(alg, c, s[i])
    ensures Sorted(alg, s[..k] + [c] + s[k..])
    ensures multiset(s[..k] + [c] + s[k..]) == multiset(s) + multiset{c}
  {
    hide Le;
    InsertMultiset(s, c, k);
    var r := s[..k] + [c] + s[k..];
    assert forall i :: 0 <= i < |r| ==> r[i] == if i < k then s[i] else if i == k then c else s[i - 1];
  }

  lemma InsertMultiset<T>(s: seq<T>, c: T, k: nat)
    requires k <= |s|
    ensures multiset(s[..k] + [c] + s[k..]) == multiset(s) + multiset{c}
  {
    assert s == s[..k] + s[k..];
  }

  // A sorted permutation, for reasoning.
  ghost function Ordered(alg: Algorithm, l: seq<Seg>): (s: seq<Seg>)
    ensures Sorted(alg, s) && multiset(s) == multiset(l)
  {
    if l == [] then []
    else
      var s := Ordered(alg, l[1..]);
      var k := Place(alg, s, l[0]);
      TailMultiset(l);
      InsertSorted(alg, s, l[0], k);
      s[..k] + [l[0]] + s[k..]
  }

  ghost function Place(alg: Algorithm, s: seq<Seg>, c: Seg): (k: nat)
    requires Sorted(alg, s)
    ensures k <= |s|
    ensures forall i :: 0 <= i < k ==> Le(alg, s[i], c)
    ensures forall i :: k <= i < |s| ==> Le(alg, c, s[i])
  {
    if s == [] || Lt(alg, c, s[0]) then 0
    else
      assert forall i :: 0 <= i < |s[1..]| ==> s[1..][i] == s[i + 1];
      1 + Place(alg, s[1..], c)
  }

  // The intervals of a tiling add up to the whole.
  lemma TilesSum(l: seq<Seg>, n: int)
    requires Tiles(multiset(l), n) && n >= 0
    ensures Sum(l) == n
  {
    var s := Ordered(FirstFit, l);
    SortedTilesChain(s, 0, n);
    SumPermuted(l, s);
  }

  // sort_alloc_by_addr
  ghost predicate ByAddress(ps: seq<Proc>) {
    forall i, j :: 0 <= i < j < |ps| ==> ps[i].start <= ps[j].start
  }

  // ---- merging

  // The addresses covered do not change when two adjacent intervals become one.
  lemma MergeCells(m: multiset<Seg>, a: Seg, b: Seg)
    requires a in m && b in m && a != b && a.End() == b.start && a.size > 0 && b.size > 0 && m[a] == 1 && m[b] == 1
    ensures SameCells(m, m - multiset{a, b} + multiset{Seg(a.start, a.size + b.size)})
  {
    var c := Seg(a.start, a.size + b.size);
    var w := m - multiset{a, b} + multiset{c};
    assert forall s :: s in w <==> s == c || (s in m && s != a && s != b);
    forall x
      ensures Covered(m, x) <==> Covered(w, x)
    {
      assert c.Has(x) <==> a.Has(x) || b.Has(x);
      if Covered(m, x) {
        var s :| s in m && s.Has(x);
        assert s == a || s == b || s in w;
        assert c in w;
      }
      if Covered(w, x) {
        var s :| s in w && s.Has(x);
        assert s == c || s in m;
      }
    }
  }

  // l with its i-th and next interval made one.
  function Merged(l: seq<Seg>, i: nat): (r: seq<Seg>)
    requires i + 1 < |l|
    ensures |r| == |l| - 1 && r[..i] == l[..i] && r[i] == Seg(l[i].start, l[i].size + l[i + 1].size)
    ensures multiset(r) == multiset(l) - multiset{l[i], l[i + 1]} + multiset{r[i]}
  {
    var c := Seg(l[i].start, l[i].size + l[i + 1].size);
    TwoForOne(l, i, c);
    l[..i] + [c] + l[i + 2..]
  }

  lemma TwoForOne(l: seq<Seg>, i: nat, c: Seg)
    requires i + 1 < |l|
    ensures multiset(l[..i] + [c] + l[i + 2..]) == multiset(l) - multiset{l[i], l[i + 1]} + multiset{c}
  {
    var p, q, a, b := l[..i], l[i + 2..], l[i], l[i + 1];
    assert l == p + ([a] + ([b] + q));
    assert multiset(l) == multiset(p) + (multiset{a} + (multiset{b} + multiset(q)));
    assert multiset(p + [c] + q) == multiset(p) + multiset{c} + multiset(q);
  }

  lemma MergedSorted(l: seq<Seg>, i: nat)
    requires i + 1 < |l| && Sorted(FirstFit, l)
    ensures Sorted(FirstFit, Merged(l, i))
  {
  }

  lemma MergeAt(l: seq<Seg>, i: nat, rest: multiset<Seg>, n: int)
    requires i + 1 < |l| && l[i].End() == l[i + 1].start && Tiles(multiset(l) + rest, n)
    ensures Tiles(multiset(Merged(l, i)) + rest, n) && SameCells(multiset(l), multiset(Merged(l, i)))
  {
    hide Merged, Tiles, SameCells;
    var a, b, m := l[i], l[i + 1], multiset(l);
    assert a in m && b in m;
    assert multiset(Merged(l, i)) == m - multiset{a, b} + multiset{Seg(a.start, a.size + b.size)};
    MergeOnce(m, a, b, rest, n);
  }

  lemma MergeOnce(m: multiset<Seg>, a: Seg, b: Seg, rest: multiset<Seg>, n: int)
    requires Tiles(m + rest, n) && a in m && b in m && a.End() == b.start
    ensures
      var r := m - multiset{a, b} + multiset{Seg(a.start, a.size + b.size)};
      Tiles(r + rest, n) && SameCells(m, r)
  {
    PartDisjoint(m, rest, n);
    assert m[a] == 1 && m[b] == 1 && a.size > 0 && b.size > 0;
    hide Tiles, Disjoint, SameCells;
    MergeCells(m, a, b);
    var w, c := m + rest, Seg(a.start, a.size + b.size);
    MergeTiles(w, n, a, b);
    assert (m - multiset{a, b} + multiset{c}) + rest == w - multiset{a, b} + multiset{c};
  }

  lemma SameCellsRefl(a: multiset<Seg>)
    ensures SameCells(a, a)
  {
  }

  lemma SameCellsTrans(a: multiset<Seg>, b: multiset<Seg>, c: multiset<Seg>)
    requires SameCells(a, b) && SameCells(b, c)
    ensures SameCells(a, c)
  {
  }

  // A list sorted by address whose neighbours do not touch is coalesced.
  lemma NeighboursCoalesced(l: seq<Seg>)
    requires Sorted(FirstFit, l) && Disjoint(multiset(l))
    requires forall j :: 0 <= j < |l| - 1 ==> l[j].End() != l[j + 1].start
    ensures Coalesced(multiset(l))
  {
    SortedEnds(l);
    hide Sorted, Disjoint;
    forall a, b | a in multiset(l) && b in multiset(l)
      ensures a.End() != b.start
    {
      var i :| 0 <= i < |l| && l[i] == a;
      var j :| 0 <= j < |l| && l[j] == b;
      if i < j {
        assert l[i].End() <= l[i + 1].start && l[i].End() != l[i + 1].start;
        assert i + 1 < j ==> l[i + 1].End() <= l[j].start && l[i + 1].size > 0;
      } else if j < i {
        assert l[j].End() <= l[i].start;
      }
    }
  }

  lemma Twice<T>(l: seq<T>, i: nat, j: nat)
    requires i < j < |l| && l[i] == l[j]
    ensures multiset(l)[l[i]] >= 2
  {
    assert l == l[..i] + [l[i]] + l[i + 1..];
    assert l[i + 1..][j - i - 1] in multiset(l[i + 1..]);
  }

  // Disjoint intervals sorted by address end before the next ones start.
  lemma SortedEnds(l: seq<Seg>)
    requires Sorted(FirstFit, l) && Disjoint(multiset(l))
    ensures forall i :: 0 <= i < |l| ==> l[i].size > 0
    ensures forall i, j :: 0 <= i < j < |l| ==> l[i].End() <= l[j].start
  {
    forall i | 0 <= i < |l|
      ensures l[i].size > 0
    {
      assert l[i] in multiset(l);
    }
    forall i, j | 0 <= i < j < |l|
      ensures l[i].End() <= l[j].start
    {
      var m := multiset(l);
      assert l[i] in m && l[j] in m && Le(FirstFit, l[i], l[j]);
      if l[i] == l[j] {
        Twice(l, i, j);
      } else {
        assert Apart(l[i], l[j]);
      }
    }
  }

  lemma PartDisjoint(m: multiset<Seg>, w: multiset<Seg>, n: int)
    requires Tiles(m + w, n)
    ensures Disjoint(m) && Disjoint(w)
    ensures forall s :: s in m || s in w ==> 0 <= s.start && s.End() <= n && s.size > 0
  {
    assert forall s :: s in m || s in w ==> s in m + w;
    assert forall s :: (m + w)[s] == m[s] + w[s];
  }

  // ---- choosing and taking a free block

  ghost predicate AnyFits(free: seq<Seg>, want: int) {
    exists i :: 0 <= i < |free| && free[i].size >= want
  }

  // The i-th block is the first one that is large enough.
  ghost predicate FirstFitting(free: seq<Seg>, want: int, i: nat) {
    i < |free| && free[i].size >= want && forall j :: 0 <= j < i ==> free[j].size < want
  }

  // What the three algorithms promise about the block they choose for a request.
  ghost predicate Chosen(alg: Algorithm, free: multiset<Seg>, want: int, a: Seg) {
    && a in free && a.size >= want
    && (forall b :: b in free && b.size >= want ==>
      match alg
      case FirstFit => a.start <= b.start
      case BestFit => a.size <= b.size && (a.size == b.size ==> a.start <= b.start)
      case WorstFit => a.size >= b.size && (a.size == b.size ==> a.start <= b.start))
  }

  // The first fitting block of a list in an algorithm's order is that algorithm's choice.
  lemma FirstIsChosen(alg: Algorithm, free: seq<Seg>, want: int, i: nat)
    requires Sorted(alg, free) && FirstFitting(free, want, i)
    ensures Chosen(alg, multiset(free), want, free[i])
  {
  }

  // A remainder below the threshold is given away with the block.
  function Granted(size: int, want: int, minSlice: int): int {
    if size - want < minSlice then size else want
  }

  // A block gives what was asked for when that leaves nothing or a usable remainder, and is given
  // whole otherwise.
  lemma GrantBounds(size: int, want: int, minSlice: int)
    requires 0 < want <= size
    ensures
      var k := Granted(size, want, minSlice);
      && want <= k <= size
      && (k == want || k < want + minSlice)
      && (k == size || (size - k >= minSlice && size - k >= 1))
      && (size == want || size - want >= minSlice ==> k == want)
      && (0 < size - want < minSlice ==> k == size)
  {
  }

  // The free intervals when the first k cells of a are taken.
  function Without(free: multiset<Seg>, a: Seg, k: int): multiset<Seg> {
    free - multiset{a} + if k < a.size then multiset{Seg(a.start + k, a.size - k)} else multiset{}
  }

  lemma WithoutTiles(free: multiset<Seg>, used: multiset<Seg>, n: int, a: Seg, k: int)
    requires Tiles(free + used, n) && a in free && 0 < k <= a.size
    ensures Tiles(Without(free, a, k) + (used + multiset{Seg(a.start, k)}), n)
  {
    if k == a.size {
      assert Without(free, a, k) + (used + multiset{a}) == free + used;
    } else {
      SplitTiles(free + used, n, a, k);
      assert (free + used) - multiset{a} + multiset{Seg(a.start, k), Seg(a.start + k, a.size - k)}
          == Without(free, a, k) + (used + multiset{Seg(a.start, k)});
    }
  }

  lemma WithoutCoalesced(free: multiset<Seg>, a: Seg, k: int)
    requires Disjoint(free) && Coalesced(free) && a in free && 0 < k <= a.size
    ensures Coalesced(Without(free, a, k))
  {
  }

  // Taking the first k cells of a and giving them back covers what was covered before.
  lemma WithoutCells(free: multiset<Seg>, a: Seg, k: int)
    requires Disjoint(free) && a in free && 0 < k <= a.size
    ensures SameCells(free, Without(free, a, k) + multiset{Seg(a.start, k)})
  {
    var b := Seg(a.start, k);
    var w := Without(free, a, k) + multiset{b};
    if k == a.size {
      assert w == free;
    } else {
      var c := Seg(a.start + k, a.size - k);
      assert b in w && c in w;
      assert forall s :: s in w <==> s == b || s == c || (s in free && s != a);
      forall x
        ensures Covered(free, x) <==> Covered(w, x)
      {
        assert a.Has(x) <==> b.Has(x) || c.Has(x);
        if Covered(free, x) {
          var s :| s in free && s.Has(x);
          assert s == a || s in w;
        }
        if Covered(w, x) {
          var s :| s in w && s.Has(x);
          assert s == b || s == c || s in free;
        }
      }
    }
  }
}
