/** The linked lists of memsim.c, relinked in place: the insertion sorts and the merge of neighbours.
    A list has its nodes in order, and holds the sequence that the module Memory works on. */
module Lists {
  import opened Intervals
  import opened Memory

  class Node<T> {
    var data: T
    var next: Node?<T>

    constructor (data: T)
      ensures this.data == data && next == null
    {
      this.data, next := data, null;
    }
  }

  ghost predicate Distinct<T>(l: seq<Node<T>>) {
    forall i, j :: 0 <= i < j < |l| ==> l[i] != l[j]
  }

  // The links of the nodes lead through l and end there.
  ghost predicate Linked<T>(l: seq<Node<T>>)
    reads l
  {
    forall i :: 0 <= i < |l| ==> l[i].next == Following(l, i)
  }

  function Following<T>(l: seq<Node<T>>, i: nat): Node?<T> {
    if i + 1 < |l| then l[i + 1] else null
  }

  function First<T>(l: seq<Node<T>>): Node?<T> {
    if l == [] then null else l[0]
  }

  // The i-th node, null behind the last one.
  function NodeAt<T>(l: seq<Node<T>>, i: nat): Node?<T> {
    if i < |l| then l[i] else null
  }

  // The list from head on has exactly the nodes l, in this order, and they hold s.
  ghost predicate List<T>(head: Node?<T>, l: seq<Node<T>>, s: seq<T>)
    reads l
  {
    && Distinct(l) && head == First(l) && Linked(l)
    && |s| == |l| && forall i :: 0 <= i < |l| ==> l[i].data == s[i]
  }

  // ---- sorting

  // le is the order of a sort and lt its test for the head of the list.
  ghost predicate IsOrder<T(!new)>(le: (T, T) -> bool, lt: (T, T) -> bool) {
    && (forall a, b, c :: le(a, b) && le(b, c) ==> le(a, c))
    && (forall a, b :: le(a, b) || le(b, a))
    && (forall a, b :: lt(a, b) ==> le(a, b))
    && (forall a, b :: !lt(a, b) ==> le(b, a))
  }

  ghost predicate Rising<T>(le: (T, T) -> bool, s: seq<T>) {
    forall i, j :: 0 <= i < j < |s| ==> le(s[i], s[j])
  }

  lemma NotBelow<T(!new)>(le: (T, T) -> bool, lt: (T, T) -> bool, a: T, b: T)
    requires IsOrder(le, lt)
    ensures lt(a, b) ==> le(a, b)
    ensures !lt(a, b) || !le(a, b) ==> le(b, a)
  {
  }

  function Inserted<T>(s: seq<T>, c: T, k: nat): (w: seq<T>)
    requires k <= |s|
    ensures |w| == |s| + 1
    ensures forall i :: 0 <= i <= |s| ==> w[i] == if i < k then s[i] else if i == k then c else s[i - 1]
  {
    s[..k] + [c] + s[k..]
  }

  // Inserting behind an element not above c and before one not below it keeps the order.
  lemma InsertedRising<T(!new)>(le: (T, T) -> bool, lt: (T, T) -> bool, s: seq<T>, c: T, k: nat)
    requires IsOrder(le, lt) && Rising(le, s) && k <= |s|
    requires k > 0 ==> le(s[k - 1], c)
    requires k < |s| ==> le(c, s[k])
    ensures Rising(le, Inserted(s, c, k))
  {
    var w := Inserted(s, c, k);
    forall i, j | 0 <= i < j < |w|
      ensures le(w[i], w[j])
    {
      if j == k {
        assert i < k - 1 ==> le(s[i], s[k - 1]);
      } else if i == k {
        assert k < j - 1 ==> le(s[k], s[j - 1]);
      }
    }
  }

  // The node c is linked in behind the node k - 1 of a list, before all nodes for k = 0.
  lemma LinkedIn<T>(l: seq<Node<T>>, c: Node<T>, k: nat)
    requires k <= |l| && Distinct(l) && c !in l
    requires forall i :: 0 <= i < |l| && i != k - 1 ==> l[i].next == Following(l, i)
    requires c.next == (if k < |l| then l[k] else null) && (k > 0 ==> l[k - 1].next == c)
    ensures Distinct(Inserted(l, c, k)) && Linked(Inserted(l, c, k))
  {
    var w := Inserted(l, c, k);
    InsertedDistinct(l, c, k);
    hide Distinct, Inserted;
    forall i | 0 <= i < |w|
      ensures w[i].next == Following(w, i)
    {
      if i > k {
        assert w[i] == l[i - 1];
      }
    }
  }

  lemma InsertedDistinct<T>(l: seq<Node<T>>, c: Node<T>, k: nat)
    requires Distinct(l) && c !in l && k <= |l|
    ensures Distinct(Inserted(l, c, k))
  {
  }

  // The inner loop: the last node of the run, from the head on, of nodes that are not above c.
  method RunEnd<T(!new)>(head: Node<T>, c: T, le: (T, T) -> bool, lt: (T, T) -> bool,
                         ghost l: seq<Node<T>>, ghost s: seq<T>)
    returns (p: Node<T>, ghost k: nat)
    requires List(head, l, s) && IsOrder(le, lt) && !lt(c, head.data)
    ensures k < |l| && p == l[k] && le(s[k], c)
    ensures k + 1 < |l| ==> le(c, s[k + 1])
  {
    hide IsOrder;
    p, k := head, 0;
    NotBelow(le, lt, c, head.data);
    while p.next != null && le(p.next.data, c)
      invariant k < |l| && p == l[k] && le(s[k], c)
      decreases |l| - k
    {
      assert p.next == Following(l, k);
      p := p.next;
      k := k + 1;
    }
    assert p.next == Following(l, k);
    if p.next != null {
      NotBelow(le, lt, p.next.data, c);
    }
  }

  // The body of the sorting loops: c is linked in before the head, or behind the run of nodes that
  // are not above it.
  method Insert<T(!new)>(head: Node?<T>, c: Node<T>, le: (T, T) -> bool, lt: (T, T) -> bool,
                         ghost l: seq<Node<T>>, ghost s: seq<T>)
    returns (first: Node?<T>, ghost k: nat)
    requires List(head, l, s) && Rising(le, s) && c !in l && IsOrder(le, lt)
    modifies l`next, c`next
    ensures k <= |l| && List(first, Inserted(l, c, k), Inserted(s, c.data, k)) && Rising(le, Inserted(s, c.data, k))
  {
    hide IsOrder, Rising;
    if head == null || lt(c.data, head.data) {
      k := 0;
      if head != null {
        NotBelow(le, lt, c.data, head.data);
      }
      InsertedRising(le, lt, s, c.data, 0);
      c.next := head;
      LinkedIn(l, c, 0);
      return c, 0;
    }
    first := head;
    var p;
    p, k := RunEnd(head, c.data, le, lt, l, s);
    k := k + 1;
    InsertedRising(le, lt, s, c.data, k);
    LinkBehind(p, c, l, s, k);
  }

  // Two assignments to links.
  method LinkBehind<T>(p: Node<T>, c: Node<T>, ghost l: seq<Node<T>>, ghost s: seq<T>, ghost k: nat)
    requires 0 < k <= |l| && p == l[k - 1] && c !in l && List(l[0], l, s)
    modifies p`next, c`next
    ensures List(l[0], Inserted(l, c, k), Inserted(s, c.data, k))
  {
    OthersApart(l, k - 1, c);
    assert p.next == Following(l, k - 1);
    hide Distinct;
    c.next := p.next;
    p.next := c;
    LinkedIn(l, c, k);
  }

  lemma OthersApart<T>(l: seq<Node<T>>, k: nat, c: Node<T>)
    requires Distinct(l) && k < |l| && c !in l
    ensures forall i :: 0 <= i < |l| ==> l[i] != c && (i != k ==> l[i] != l[k])
  {
  }

  lemma InsertedMultiset<T>(s: seq<T>, rest: seq<T>, k: nat)
    requires rest != [] && k <= |s|
    ensures multiset(Inserted(s, rest[0], k)) + multiset(rest[1..]) == multiset(s) + multiset(rest)
  {
    InsertMultiset(s, rest[0], k);
    TailMultiset(rest);
  }

  // The nodes still to be sorted and those already sorted are different ones.
  ghost predicate NoneShared<T>(l: seq<Node<T>>, rest: seq<Node<T>>) {
    forall i, j :: 0 <= i < |l| && 0 <= j < |rest| ==> l[i] != rest[j]
  }

  lemma SharedNext<T>(l: seq<Node<T>>, rest: seq<Node<T>>, k: nat)
    requires NoneShared(l, rest) && Distinct(rest) && rest != [] && k <= |l|
    ensures rest[0] !in l && NoneShared(Inserted(l, rest[0], k), rest[1..])
  {
  }

  lemma Members<T>(s: seq<T>, rest: seq<T>, l: seq<T>)
    requires multiset(s) + multiset(rest) == multiset(l)
    ensures forall i :: 0 <= i < |s| ==> s[i] in l
    ensures forall i :: 0 <= i < |rest| ==> rest[i] in l
  {
    forall x | x in s || x in rest
      ensures x in l
    {
      assert x in multiset(s) + multiset(rest);
    }
  }

  lemma ListTail<T>(head: Node?<T>, l: seq<Node<T>>, s: seq<T>)
    requires List(head, l, s) && (head != null || l != [])
    ensures head != null && |l| == |s| > 0 && l[0] == head && s[0] == head.data && List(head.next, l[1..], s[1..])
  {
    assert l[0].next == Following(l, 0);
    forall i | 0 <= i < |l[1..]|
      ensures l[1..][i].next == Following(l[1..], i)
    {
      assert l[i + 1].next == Following(l, i + 1);
    }
  }

  // The insertion sorts of memsim.c: the nodes are moved by their links alone.
  method SortInPlace<T(!new)>(head: Node?<T>, le: (T, T) -> bool, lt: (T, T) -> bool,
                              ghost l: seq<Node<T>>, ghost s: seq<T>)
    returns (sorted: Node?<T>, ghost l': seq<Node<T>>, ghost s': seq<T>)
    requires List(head, l, s) && IsOrder(le, lt)
    modifies l`next
    ensures List(sorted, l', s') && multiset(l') == multiset(l) && multiset(s') == multiset(s) && Rising(le, s')
  {
    sorted, l', s' := null, [], [];
    var cur := head;
    ghost var rest, t := l, s;
    hide IsOrder, Rising;
    assert Rising(le, []) by {
      RisingNone(le);
    }
    while cur != null
      invariant List(sorted, l', s') && List(cur, rest, t) && NoneShared(l', rest) && Rising(le, s')
      invariant multiset(l') + multiset(rest) == multiset(l) && multiset(s') + multiset(t) == multiset(s)
      decreases |rest|
    {
      var n := cur.next;
      ghost var k;
      ListTail(cur, rest, t);
      SharedNext(l', rest, 0);
      Members(l', rest, l);
      sorted, k := Insert(sorted, cur, le, lt, l', s');
      SharedNext(l', rest, k);
      InsertedMultiset(l', rest, k);
      InsertedMultiset(s', t, k);
      l', s' := Inserted(l', cur, k), Inserted(s', cur.data, k);
      rest, t := rest[1..], t[1..];
      cur := n;
    }
  }

  lemma RisingNone<T>(le: (T, T) -> bool)
    ensures Rising(le, [])
  {
  }

  // The orders of the free list, and the order of the process list, are orders.
  lemma FreeOrder(alg: Algorithm)
    ensures IsOrder((a: Seg, b: Seg) => Le(alg, a, b), (a: Seg, b: Seg) => Lt(alg, a, b))
  {
  }

  lemma ProcOrder()
    ensures IsOrder((a: Proc, b: Proc) => a.start <= b.start, (a: Proc, b: Proc) => a.start < b.start)
  {
  }

  // ---- merging

  function Dropped<T>(l: seq<T>, i: nat): (w: seq<T>)
    requires i < |l|
    ensures |w| == |l| - 1 && forall j :: 0 <= j < |w| ==> w[j] == l[if j < i then j else j + 1]
  {
    l[..i] + l[i + 1..]
  }

  // The node behind p is unlinked and its interval joined to that of p.
  method Absorb(p: Node<Seg>, ghost l: seq<Node<Seg>>, ghost s: seq<Seg>, ghost i: nat)
    requires i + 1 < |l| && List(l[0], l, s) && p == l[i]
    modifies p
    ensures List(l[0], Dropped(l, i + 1), Merged(s, i))
  {
    var v := p.next;
    assert v == Following(l, i);
    assert v.next == Following(l, i + 1);
    OneOf(l, i);
    MergedAt(s, i);
    hide Distinct, Merged;
    p.data := Seg(p.data.start, p.data.size + v.data.size);
    p.next := v.next;
    Unlinked(l, i + 1);
    assert Dropped(l, i + 1)[0] == l[0];
  }

  lemma MergedAt(s: seq<Seg>, i: nat)
    requires i + 1 < |s|
    ensures |Merged(s, i)| == |s| - 1
    ensures forall j :: 0 <= j < |s| - 1 ==>
      Merged(s, i)[j] ==
        if j == i then Seg(s[i].start, s[i].size + s[i + 1].size) else s[if j < i then j else j + 1]
  {
  }

  lemma OneOf<T>(l: seq<Node<T>>, i: nat)
    requires Distinct(l) && i < |l|
    ensures forall j :: 0 <= j < |l| && j != i ==> l[j] != l[i]
  {
  }

  // The node i has been unlinked.
  lemma Unlinked<T>(l: seq<Node<T>>, i: nat)
    requires Distinct(l) && 0 < i < |l|
    requires forall j :: 0 <= j < |l| && j != i - 1 ==> l[j].next == Following(l, j)
    requires l[i - 1].next == Following(l, i)
    ensures Distinct(Dropped(l, i)) && Linked(Dropped(l, i))
  {
  }

  lemma ListAt<T>(head: Node?<T>, l: seq<Node<T>>, s: seq<T>, i: nat)
    requires List(head, l, s) && i < |l|
    ensures |l| == |s| && head == l[0] && l[i].data == s[i] && l[i].next == Following(l, i) == NodeAt(l, i + 1)
    ensures i + 1 < |l| ==> l[i + 1].data == s[i + 1]
  {
  }

  // The loop of merge_free_adjacent, on a list sorted by address.
  method MergeInPlace(head: Node?<Seg>, ghost l: seq<Node<Seg>>, ghost s: seq<Seg>, ghost repr: set<Node<Seg>>,
                      ghost rest: multiset<Seg>, ghost n: int)
    returns (ghost l': seq<Node<Seg>>, ghost s': seq<Seg>)
    requires List(head, l, s) && Sorted(FirstFit, s) && Tiles(multiset(s) + rest, n)
    requires forall i :: 0 <= i < |l| ==> l[i] in repr
    modifies repr
    ensures List(head, l', s') && forall i :: 0 <= i < |l'| ==> l'[i] in repr
    ensures Sorted(FirstFit, s') && Tiles(multiset(s') + rest, n)
    ensures SameCells(multiset(s), multiset(s')) && Coalesced(multiset(s'))
  {
    l', s' := l, s;
    var cur := head;
    ghost var i := 0;
    hide Sorted, Tiles, SameCells, Coalesced, MergedTo, Merged, Distinct, Linked;
    MergeStart(s, rest, n);
    while cur != null && cur.next != null
      invariant List(head, l', s') && (forall j :: 0 <= j < |l'| ==> l'[j] in repr)
      invariant if l' == [] then cur == null else i < |l'| && cur == l'[i]
      invariant MergedTo(s, s', rest, n, i)
      decreases |l'| - i
    {
      ListAt(head, l', s', i);
      MergeStep(s, s', rest, n, i);
      if cur.data.End() == cur.next.data.start {
        Absorb(cur, l', s', i);
        l', s' := Dropped(l', i + 1), Merged(s', i);
      } else {
        cur := cur.next;
        i := i + 1;
      }
    }
    if l' != [] {
      ListAt(head, l', s', i);
    }
    MergeEnd(s, s', rest, n, i);
  }

  // The list s' comes from s by merging neighbours, and no neighbours before the i-th touch.
  ghost predicate MergedTo(s: seq<Seg>, s': seq<Seg>, rest: multiset<Seg>, n: int, i: nat) {
    && Sorted(FirstFit, s') && Tiles(multiset(s') + rest, n) && SameCells(multiset(s), multiset(s'))
    && forall j :: 0 <= j < i && j + 1 < |s'| ==> s'[j].End() != s'[j + 1].start
  }

  lemma MergeStart(s: seq<Seg>, rest: multiset<Seg>, n: int)
    requires Sorted(FirstFit, s) && Tiles(multiset(s) + rest, n)
    ensures MergedTo(s, s, rest, n, 0)
  {
    SameCellsRefl(multiset(s));
  }

  // Where two neighbours touch they are merged, otherwise the loop goes on.
  lemma MergeStep(s: seq<Seg>, s': seq<Seg>, rest: multiset<Seg>, n: int, i: nat)
    requires MergedTo(s, s', rest, n, i) && i + 1 < |s'|
    ensures s'[i].End() == s'[i + 1].start ==> MergedTo(s, Merged(s', i), rest, n, i)
    ensures s'[i].End() != s'[i + 1].start ==> MergedTo(s, s', rest, n, i + 1)
  {
    hide Sorted, Tiles, SameCells, Merged;
    if s'[i].End() == s'[i + 1].start {
      MergeAt(s', i, rest, n);
      MergedSorted(s', i);
      SameCellsTrans(multiset(s), multiset(s'), multiset(Merged(s', i)));
      MergedAt(s', i);
    }
  }

  lemma MergeEnd(s: seq<Seg>, s': seq<Seg>, rest: multiset<Seg>, n: int, i: nat)
    requires MergedTo(s, s', rest, n, i) && i + 1 >= |s'|
    ensures Sorted(FirstFit, s') && Tiles(multiset(s') + rest, n)
    ensures SameCells(multiset(s), multiset(s')) && Coalesced(multiset(s'))
  {
    hide Sorted, SameCells, Coalesced;
    PartDisjoint(multiset(s'), rest, n);
    NeighboursCoalesced(s');
  }

  // ---- adding and removing nodes

  method LastNode<T>(head: Node<T>, ghost l: seq<Node<T>>, ghost s: seq<T>) returns (p: Node<T>)
    requires List(head, l, s)
    ensures l != [] && p == l[|l| - 1]
  {
    hide List, Distinct, Linked;
    ListTail(head, l, s);
    p := head;
    ghost var i := 0;
    ListAt(head, l, s, 0);
    while p.next != null
      invariant i < |l| && p == l[i] && p.next == Following(l, i)
      decreases |l| - i
    {
      i := i + 1;
      ListAt(head, l, s, i);
      p := p.next;
    }
  }

  method LinkLast<T>(p: Node<T>, n: Node<T>, ghost l: seq<Node<T>>, ghost s: seq<T>)
    requires l != [] && List(l[0], l, s) && p == l[|l| - 1] && n !in l && n.next == null
    modifies p`next
    ensures List(l[0], l + [n], s + [n.data])
  {
    OthersApart(l, |l| - 1, n);
    p.next := n;
    assert Linked(l + [n]);
  }

  method UnlinkBehind<T>(pre: Node<T>, cur: Node<T>, ghost l: seq<Node<T>>, ghost s: seq<T>, ghost i: nat)
    requires 0 < i < |l| && List(l[0], l, s) && pre == l[i - 1] && cur == l[i]
    modifies pre`next
    ensures List(l[0], Dropped(l, i), Dropped(s, i))
  {
    assert cur.next == Following(l, i);
    OneOf(l, i - 1);
    hide Distinct;
    pre.next := cur.next;
    Unlinked(l, i);
    assert Dropped(l, i)[0] == l[0];
  }

  // The node before a node of the list.
  method Before<T>(head: Node<T>, node: Node<T>, ghost l: seq<Node<T>>, ghost s: seq<T>, ghost i: nat)
    returns (pre: Node?<T>)
    requires List(head, l, s) && i < |l| && node == l[i]
    ensures pre == if i == 0 then null else l[i - 1]
  {
    var cur: Node<T> := head;
    pre := null;
    ghost var k := 0;
    ListAt(head, l, s, 0);
    while cur != node
      invariant k <= i && cur == l[k] && pre == if k == 0 then null else l[k - 1]
      decreases |l| - k
    {
      ListAt(head, l, s, k);
      pre, cur := cur, cur.next;
      k := k + 1;
    }
    SameIndex(l, k, i);
  }

  lemma DroppedHead<T>(l: seq<T>)
    requires l != []
    ensures Dropped(l, 0) == l[1..]
  {
  }

  // ---- lists with their heads

  class LinkedList<T(!new)> {
    var head: Node?<T>
    ghost var nodes: seq<Node<T>>
    ghost var data: seq<T>
    // The nodes of the list, with those that have left it.
    ghost var repr: set<Node<T>>

    ghost predicate Valid()
      reads this, repr
    {
      (forall i :: 0 <= i < |nodes| ==> nodes[i] in repr) && List(head, nodes, data)
    }

    constructor (x: T)
      ensures Valid() && data == [x] && fresh(repr)
    {
      var n := new Node(x);
      head, nodes, data, repr := n, [n], [x], {n};
    }

    constructor Empty()
      ensures Valid() && data == [] && repr == {}
    {
      head, nodes, data, repr := null, [], [], {};
    }

    method Sort(le: (T, T) -> bool, lt: (T, T) -> bool)
      requires Valid() && IsOrder(le, lt)
      modifies this, repr
      ensures Valid() && repr == old(repr)
      ensures multiset(data) == multiset(old(data)) && Rising(le, data)
    {
      hide IsOrder, Rising, List;
      ghost var was := nodes;
      head, nodes, data := SortInPlace(head, le, lt, nodes, data);
      SameNodes(nodes, was);
    }

    // A new node behind the last one.
    method Append(x: T)
      requires Valid()
      modifies this, repr
      ensures Valid() && data == old(data) + [x] && fresh(repr - old(repr))
    {
      hide List;
      var n := new Node(x);
      repr := repr + {n};
      if head == null {
        EmptyList(nodes, data);
        OneNode(n);
        assert nodes + [n] == [n] && data + [x] == [x];
        head := n;
      } else {
        ListTail(head, nodes, data);
        var p := LastNode(head, nodes, data);
        LinkLast(p, n, nodes, data);
      }
      nodes, data := nodes + [n], data + [x];
    }

    // A new node before the head.
    method Prepend(x: T)
      requires Valid()
      modifies this
      ensures Valid() && data == [x] + old(data) && fresh(repr - old(repr))
    {
      var n := new Node(x);
      n.next := head;
      Fronted(n, head, nodes, data);
      hide List;
      head, repr := n, repr + {n};
      nodes, data := [n] + nodes, [x] + data;
    }

    method Clear()
      modifies this
      ensures Valid() && data == [] && repr == old(repr)
    {
      head, nodes, data := null, [], [];
    }

    // The node cur, the i-th, leaves the list; pre is the one before it.
    method Unlink(pre: Node?<T>, cur: Node<T>, ghost i: nat)
      requires Valid() && i < |nodes| && cur == nodes[i] && pre == if i == 0 then null else nodes[i - 1]
      modifies this, repr
      ensures Valid() && data == Dropped(old(data), i) && repr == old(repr)
    {
      hide List, Distinct, Linked, Following;
      ListTail(head, nodes, data);
      if pre != null {
        UnlinkBehind(pre, cur, nodes, data, i);
      } else {
        head := cur.next;
        DroppedHead(nodes);
        DroppedHead(data);
      }
      nodes, data := Dropped(nodes, i), Dropped(data, i);
    }

    // dispose: the node is looked for again, with the one before it.
    method Remove(node: Node<T>, ghost i: nat)
      requires Valid() && i < |nodes| && node == nodes[i]
      modifies this, repr
      ensures Valid() && data == Dropped(old(data), i) && repr == old(repr)
    {
      hide List;
      ListTail(head, nodes, data);
      var pre := Before(head, node, nodes, data, i);
      Unlink(pre, node, i);
    }

    // The i-th node gets new data.
    method Set(cur: Node<T>, ghost i: nat, x: T)
      requires Valid() && i < |nodes| && cur == nodes[i]
      modifies cur`data, this`data
      ensures Valid() && data == old(data)[i := x]
    {
      OneOf(nodes, i);
      cur.data := x;
      data := data[i := x];
    }
  }

  lemma ValidAt<T(!new)>(c: LinkedList<T>, i: nat)
    requires c.Valid() && i < |c.nodes|
    ensures |c.nodes| == |c.data| && c.nodes[i] in c.repr
    ensures c.nodes[i].data == c.data[i] && c.nodes[i].next == NodeAt(c.nodes, i + 1)
  {
    ListAt(c.head, c.nodes, c.data, i);
  }

  lemma ValidHead<T(!new)>(c: LinkedList<T>)
    requires c.Valid()
    ensures c.head == NodeAt(c.nodes, 0) && |c.nodes| == |c.data|
  {
  }

  // n has been linked before the head.
  lemma Fronted<T>(n: Node<T>, head: Node?<T>, l: seq<Node<T>>, s: seq<T>)
    requires List(head, l, s) && n !in l && n.next == head
    ensures List(n, [n] + l, [n.data] + s)
  {
  }

  lemma OneNode<T>(n: Node<T>)
    requires n.next == null
    ensures List(n, [n], [n.data])
  {
  }

  lemma EmptyList<T>(l: seq<Node<T>>, s: seq<T>)
    requires List(null, l, s)
    ensures l == [] && s == []
  {
  }

  lemma SameNodes<T>(l: seq<Node<T>>, w: seq<Node<T>>)
    requires multiset(l) == multiset(w)
    ensures forall i :: 0 <= i < |l| ==> l[i] in w
  {
    forall i | 0 <= i < |l|
      ensures l[i] in w
    {
      assert l[i] in multiset(w);
    }
  }

  lemma SameIndex<T>(l: seq<Node<T>>, i: nat, j: nat)
    requires Distinct(l) && i < |l| && j < |l| && l[i] == l[j]
    ensures i == j
  {
  }

  // merge_free_adjacent, after its sort.
  method Merge(c: LinkedList<Seg>, ghost rest: multiset<Seg>, ghost n: int)
    requires c.Valid() && Sorted(FirstFit, c.data) && Tiles(multiset(c.data) + rest, n)
    modifies c, c.repr
    ensures c.Valid() && c.repr == old(c.repr)
    ensures Sorted(FirstFit, c.data) && Tiles(multiset(c.data) + rest, n)
    ensures SameCells(multiset(old(c.data)), multiset(c.data)) && Coalesced(multiset(c.data))
  {
    hide Tiles, SameCells, Sorted, Coalesced, List;
    c.nodes, c.data := MergeInPlace(c.head, c.nodes, c.data, c.repr, rest, n);
  }
}
