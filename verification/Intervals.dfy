/** Intervals of memory as memsim.c keeps them: tilings, coalesced lists, and their orders. */
module Intervals {
  datatype Seg = Seg(start: int, size: int) {
    function End(): int {
      start + size
    }

    predicate Has(x: int) {
      start <= x < start + size
    }
  }

  predicate Apart(a: Seg, b: Seg) {
    a.End() <= b.start || b.End() <= a.start
  }

  // Intervals of positive size, pairwise disjoint, none twice.
  ghost predicate Disjoint(m: multiset<Seg>) {
    && (forall s :: s in m ==> m[s] == 1 && s.size > 0)
    && (forall a, b :: a in m && b in m && a != b ==> Apart(a, b))
  }

  ghost predicate Covered(m: multiset<Seg>, x: int) {
    exists s :: s in m && s.Has(x)
  }

  // The intervals fill [0, n) exactly.
  ghost predicate Tiles(m: multiset<Seg>, n: int) {
    && Disjoint(m)
    && (forall s :: s in m ==> 0 <= s.start && s.End() <= n)
    && (forall x {:trigger Covered(m, x)} :: 0 <= x < n ==> Covered(m, x))
  }

  // No interval ends where another starts.
  ghost predicate Coalesced(m: multiset<Seg>) {
    forall a, b :: a in m && b in m ==> a.End() != b.start
  }

  // Replacing an interval by two adjacent parts.
  lemma SplitTiles(m: multiset<Seg>, n: int, a: Seg, k: int)
    requires Tiles(m, n) && a in m && 0 < k < a.size
    ensures Tiles(m - multiset{a} + multiset{Seg(a.start, k), Seg(a.start + k, a.size - k)}, n)
  {
    var b, c := Seg(a.start, k), Seg(a.start + k, a.size - k);
    var w := m - multiset{a} + multiset{b, c};
    assert b !in m && c !in m;
    assert forall s :: s in w <==> s == b || s == c || (s in m && s != a);
    forall x | 0 <= x < n
      ensures Covered(w, x)
    {
      assert Covered(m, x);
      var s :| s in m && s.Has(x);
      if s == a {
        assert if x < a.start + k then b in w && b.Has(x) else c in w && c.Has(x);
      } else {
        assert s in w;
      }
    }
  }

  // Replacing two adjacent intervals by one.
  lemma MergeTiles(m: multiset<Seg>, n: int, a: Seg, b: Seg)
    requires Tiles(m, n) && a in m && b in m && a.End() == b.start
    ensures Tiles(m - multiset{a, b} + multiset{Seg(a.start, a.size + b.size)}, n)
  {
    var c := Seg(a.start, a.size + b.size);
    var w := m - multiset{a, b} + multiset{c};
    assert a != b && c !in m;
    assert forall s :: s in w <==> s == c || (s in m && s != a && s != b);
    forall x | 0 <= x < n
      ensures Covered(w, x)
    {
      assert Covered(m, x);
      var s :| s in m && s.Has(x);
      if s == a || s == b {
        assert c in w && c.Has(x);
      } else {
        assert s in w;
      }
    }
  }

  // ---- the unique representation of a set of addresses

  ghost predicate SameCells(m: multiset<Seg>, w: multiset<Seg>) {
    forall x {:trigger Covered(m, x)} {:trigger Covered(w, x)} :: Covered(m, x) <==> Covered(w, x)
  }

  // Just before and just after an interval of a coalesced list nothing is covered.
  lemma Isolated(m: multiset<Seg>, a: Seg)
    requires Disjoint(m) && Coalesced(m) && a in m
    ensures !Covered(m, a.start - 1) && !Covered(m, a.End())
  {
  }

  lemma MemberOfOther(m: multiset<Seg>, w: multiset<Seg>, a: Seg)
    requires Disjoint(m) && Disjoint(w) && Coalesced(m) && Coalesced(w) && SameCells(m, w) && a in m
    ensures a in w
  {
    assert a.Has(a.start) && Covered(m, a.start);
    var b :| b in w && b.Has(a.start);
    Isolated(m, a);
    Isolated(w, b);
    hide Disjoint, Coalesced;
    assert b.Has(a.start - 1) ==> Covered(w, a.start - 1);
    assert b.Has(a.End()) ==> Covered(w, a.End());
    assert a.Has(b.End()) ==> Covered(m, b.End());
    assert !Covered(w, a.start - 1) && !Covered(w, a.End()) && !Covered(m, b.End());
    assert a == b;
  }

  // A coalesced list of disjoint intervals is determined by the addresses it covers.
  lemma CoalescedUnique(m: multiset<Seg>, w: multiset<Seg>)
    requires Disjoint(m) && Disjoint(w) && Coalesced(m) && Coalesced(w) && SameCells(m, w)
    ensures m == w
  {
    forall s
      ensures m[s] == w[s]
    {
      if s in m {
        MemberOfOther(m, w, s);
      }
      if s in w {
        MemberOfOther(w, m, s);
      }
    }
  }

  // ---- the orders of the three algorithms

  datatype Algorithm = FirstFit | BestFit | WorstFit

  // The order that the sort of an algorithm leaves: by address, by size and address, by falling
  // size and address.
  predicate Le(alg: Algorithm, a: Seg, b: Seg) {
    match alg
    case FirstFit => a.start <= b.start
    case BestFit => a.size < b.size || (a.size == b.size && a.start <= b.start)
    case WorstFit => a.size > b.size || (a.size == b.size && a.start <= b.start)
  }

  // The test for the head of the list, strict in the address.
  predicate Lt(alg: Algorithm, a: Seg, b: Seg) {
    match alg
    case FirstFit => a.start < b.start
    case BestFit => a.size < b.size || (a.size == b.size && a.start < b.start)
    case WorstFit => a.size > b.size || (a.size == b.size && a.start < b.start)
  }

  ghost predicate Sorted(alg: Algorithm, l: seq<Seg>) {
    forall i, j :: 0 <= i < j < |l| ==> Le(alg, l[i], l[j])
  }

  lemma TailMultiset<T>(a: seq<T>)
    requires a != []
    ensures multiset(a) == multiset{a[0]} + multiset(a[1..])
    ensures multiset(a[1..]) == multiset(a) - multiset{a[0]}
  {
    assert a == [a[0]] + a[1..];
  }

  // The heads of two sorted lists with the same intervals are below one another.
  lemma SortedHeads(alg: Algorithm, a: seq<Seg>, b: seq<Seg>)
    requires Sorted(alg, a) && multiset(a) == multiset(b) && a != [] && b != []
    ensures Le(alg, a[0], b[0])
  {
    assert b[0] in multiset(a);
    var j :| 0 <= j < |a| && a[j] == b[0];
  }

  ghost predicate DistinctStarts(m: multiset<Seg>) {
    forall s, t :: s in m && t in m && s.start == t.start ==> s == t
  }

  lemma HeadsEqual(alg: Algorithm, a: seq<Seg>, b: seq<Seg>)
    requires Sorted(alg, a) && Sorted(alg, b) && multiset(a) == multiset(b) && DistinctStarts(multiset(a))
    requires a != [] && b != []
    ensures a[0] == b[0] && multiset(a[1..]) == multiset(b[1..]) && DistinctStarts(multiset(a[1..]))
  {
    SortedHeads(alg, a, b);
    SortedHeads(alg, b, a);
    assert a[0] in multiset(a) && b[0] in multiset(a);
    TailMultiset(a);
    TailMultiset(b);
  }

  // A sorted list is determined by its intervals.
  lemma {:induction false} SortedUnique(alg: Algorithm, a: seq<Seg>, b: seq<Seg>)
    requires Sorted(alg, a) && Sorted(alg, b) && multiset(a) == multiset(b) && DistinctStarts(multiset(a))
    ensures a == b
  {
    hide DistinctStarts, Le;
    assert |multiset(a)| == |a| && |multiset(b)| == |b|;
    if a != [] {
      HeadsEqual(alg, a, b);
      SortedUnique(alg, a[1..], b[1..]);
    }
  }

  // ---- sums

  function Sum(l: seq<Seg>): int {
    if l == [] then 0 else l[0].size + Sum(l[1..])
  }

  lemma {:induction false} SumAppend(a: seq<Seg>, b: seq<Seg>)
    ensures Sum(a + b) == Sum(a) + Sum(b)
  {
    if a == [] {
      assert a + b == b;
    } else {
      assert (a + b)[1..] == a[1..] + b;
      SumAppend(a[1..], b);
    }
  }

  lemma SumRemove(l: seq<Seg>, i: nat)
    requires i < |l|
    ensures Sum(l) == l[i].size + Sum(l[..i] + l[i + 1..])
  {
    SumAppend(l[..i], l[i..]);
    SumAppend(l[..i], l[i + 1..]);
    assert l == l[..i] + l[i..];
    assert l[i..][1..] == l[i + 1..];
  }

  lemma RemoveMultiset<T>(l: seq<T>, i: nat)
    requires i < |l|
    ensures multiset(l) == multiset(l[..i] + l[i + 1..]) + multiset{l[i]}
    ensures multiset(l[..i] + l[i + 1..]) == multiset(l) - multiset{l[i]}
  {
    assert l == l[..i] + [l[i]] + l[i + 1..];
  }

  // The sum does not depend on the order.
  lemma {:induction false} SumPermuted(a: seq<Seg>, b: seq<Seg>)
    requires multiset(a) == multiset(b)
    ensures Sum(a) == Sum(b)
    decreases |a|
  {
    if a == [] {
      assert |multiset(b)| == 0;
    } else {
      assert a[0] in multiset(b);
      var i :| 0 <= i < |b| && b[i] == a[0];
      SumRemove(b, i);
      RemoveMultiset(b, i);
      TailMultiset(a);
      SumPermuted(a[1..], b[..i] + b[i + 1..]);
    }
  }

  // Chains: intervals that follow one another without gaps from p on.
  ghost predicate Chain(l: seq<Seg>, p: int) {
    l == [] || (l[0].start == p && l[0].size > 0 && Chain(l[1..], l[0].End()))
  }

  lemma {:induction false} ChainTiles(l: seq<Seg>, p: int)
    requires Chain(l, p)
    ensures Disjoint(multiset(l)) && Sum(l) >= 0
    ensures forall s :: s in multiset(l) ==> p <= s.start && s.End() <= p + Sum(l)
    ensures forall x :: p <= x < p + Sum(l) ==> Covered(multiset(l), x)
  {
    if l != [] {
      ChainTiles(l[1..], l[0].End());
      var m, w := multiset(l[1..]), multiset(l);
      assert l == [l[0]] + l[1..];
      assert w == multiset{l[0]} + m;
      assert l[0] !in m;
      forall x | p <= x < p + Sum(l)
        ensures Covered(w, x)
      {
        if l[0].Has(x) {
          assert l[0] in w;
        } else {
          assert Covered(m, x);
          var s :| s in m && s.Has(x);
          assert s in w;
        }
      }
    }
  }

  ghost predicate Within(m: multiset<Seg>, p: int, n: int) {
    && (forall s :: s in m ==> p <= s.start && s.End() <= n)
    && (forall x :: p <= x < n ==> Covered(m, x))
  }

  // The first interval starts where the tiling does, and the others tile the rest.
  lemma SortedTilesStep(l: seq<Seg>, p: int, n: int)
    requires l != [] && Sorted(FirstFit, l) && Disjoint(multiset(l)) && Within(multiset(l), p, n)
    ensures l[0].start == p && l[0].size > 0 && l[0].End() <= n
    ensures Disjoint(multiset(l[1..])) && Within(multiset(l[1..]), l[0].End(), n)
  {
    var a, w, m := l[0], multiset(l), multiset(l[1..]);
    TailMultiset(l);
    assert a in w;
    assert m[a] == 0;
    forall t | t in w
      ensures a.start <= t.start
    {
      HeadLeast(FirstFit, l, t);
    }
    assert p < n ==> Covered(w, p);
    assert a.start == p;
    forall t | t in m
      ensures a.End() <= t.start && t.End() <= n && m[t] == 1
    {
      assert t in w && t != a && Apart(a, t);
    }
    forall x | a.End() <= x < n
      ensures Covered(m, x)
    {
      assert Covered(w, x);
      var t :| t in w && t.Has(x);
      assert t in m;
    }
  }

  lemma HeadLeast(alg: Algorithm, l: seq<Seg>, t: Seg)
    requires Sorted(alg, l) && t in multiset(l)
    ensures l != [] && (t == l[0] || Le(alg, l[0], t))
  {
  }

  // A tiling sorted by address is a chain.
  lemma {:induction false} SortedTilesChain(l: seq<Seg>, p: int, n: int)
    requires Sorted(FirstFit, l) && Disjoint(multiset(l)) && p <= n && Within(multiset(l), p, n)
    ensures Chain(l, p) && Sum(l) == n - p
  {
    if l == [] {
      assert p < n ==> Covered(multiset(l), p);
    } else {
      SortedTilesStep(l, p, n);
      SortedTilesChain(l[1..], l[0].End(), n);
    }
  }
}
