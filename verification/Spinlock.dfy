/** spinlock.c as a step machine: any number of threads, any number of rounds, any interleaving.
    A step is one shared access or one local statement of one thread. */
module Spinlock {
  // Where a thread is: spinning on the test-and-set, in the three parts of shared_value++, or
  // about to release.
  datatype Pc = Spin | Load | Increment | Store | Unlock

  // rounds counts the completed loop iterations.
  datatype Thread = Thread(pc: Pc, rounds: nat, tmp: int)

  datatype State = State(flag: int, shared: int, threads: seq<Thread>)

  predicate Finished(t: Thread, n: nat) {
    t.pc == Spin && t.rounds >= n
  }

  // Between lock and unlock.
  predicate Holds(t: Thread) {
    t.pc != Spin
  }

  // One step of thread k; a finished thread does nothing.
  function Next(s: State, k: nat, n: nat): State
    requires k < |s.threads|
  {
    var t := s.threads[k];
    if Finished(t, n) then s
    else
      match t.pc
      case Spin =>
        // __sync_lock_test_and_set returns the old flag and leaves 1 in any case
        s.(flag := 1, threads := s.threads[k := if s.flag != 0 then t else t.(pc := Load)])
      case Load => s.(threads := s.threads[k := t.(pc := Increment, tmp := s.shared)])
      case Increment => s.(threads := s.threads[k := t.(pc := Store, tmp := t.tmp + 1)])
      case Store => s.(shared := t.tmp, threads := s.threads[k := t.(pc := Unlock)])
      case Unlock => s.(flag := 0, threads := s.threads[k := t.(pc := Spin, rounds := t.rounds + 1)])
  }

  // The interleaving given by the numbers of the threads that step; others are ignored.
  function Run(s: State, n: nat, schedule: seq<nat>): State
    decreases schedule
  {
    if schedule == [] then s
    else Run(if schedule[0] < |s.threads| then Next(s, schedule[0], n) else s, n, schedule[1..])
  }

  function Start(threads: nat): State {
    State(0, 0, seq(threads, _ => Thread(Spin, 0, 0)))
  }

  // The increments that have reached shared.
  function Stored(l: seq<Thread>): nat {
    if l == [] then 0
    else Stored(l[..|l| - 1]) + l[|l| - 1].rounds + if l[|l| - 1].pc == Unlock then 1 else 0
  }

  ghost predicate Exclusive(s: State) {
    forall i, j :: 0 <= i < |s.threads| && 0 <= j < |s.threads| && Holds(s.threads[i]) && Holds(s.threads[j]) ==> i == j
  }

  ghost predicate Held(s: State) {
    exists i :: 0 <= i < |s.threads| && Holds(s.threads[i])
  }

  // The local copy of the holder is not stale.
  predicate Fresh(t: Thread, shared: int) {
    match t.pc
    case Increment => t.tmp == shared
    case Store => t.tmp == shared + 1
    case _ => true
  }

  ghost predicate Inv(s: State, n: nat) {
    && Exclusive(s)
    && (s.flag == 0 || s.flag == 1)
    && (s.flag == 1 <==> Held(s))
    && s.shared == Stored(s.threads)
    && (forall i :: 0 <= i < |s.threads| ==>
      Fresh(s.threads[i], s.shared) && s.threads[i].rounds <= n && (Holds(s.threads[i]) ==> s.threads[i].rounds < n))
  }

  lemma {:induction false} StoredUpdate(l: seq<Thread>, k: nat, t: Thread)
    requires k < |l|
    ensures Stored(l[k := t]) == Stored(l) - l[k].rounds - (if l[k].pc == Unlock then 1 else 0)
                                 + t.rounds + (if t.pc == Unlock then 1 else 0)
  {
    var m := |l| - 1;
    if k < m {
      assert l[k := t][..m] == l[..m][k := t];
      StoredUpdate(l[..m], k, t);
    } else {
      assert l[k := t][..m] == l[..m];
    }
  }

  lemma StepInv(s: State, k: nat, n: nat)
    requires Inv(s, n) && k < |s.threads|
    ensures Inv(Next(s, k, n), n)
  {
    var t, w := s.threads[k], Next(s, k, n);
    if !Finished(t, n) {
      StoredUpdate(s.threads, k, w.threads[k]);
      hide Stored;
      assert forall i :: 0 <= i < |s.threads| && i != k ==> w.threads[i] == s.threads[i];
      if Holds(w.threads[k]) {
        assert Held(w);
      }
    }
  }

  lemma {:induction false} StartStored(threads: nat)
    ensures Stored(Start(threads).threads) == 0
  {
    if threads > 0 {
      StartStored(threads - 1);
      assert Start(threads).threads[..threads - 1] == Start(threads - 1).threads;
    }
  }

  lemma {:induction false} RunInv(s: State, n: nat, schedule: seq<nat>)
    requires Inv(s, n)
    ensures Inv(Run(s, n, schedule), n) && |Run(s, n, schedule).threads| == |s.threads|
    decreases schedule
  {
    if schedule != [] {
      hide Inv;
      var k := schedule[0];
      if k < |s.threads| {
        StepInv(s, k, n);
        RunInv(Next(s, k, n), n, schedule[1..]);
      } else {
        RunInv(s, n, schedule[1..]);
      }
    }
  }

  lemma {:induction false} StoredFinished(l: seq<Thread>, n: nat)
    requires forall i :: 0 <= i < |l| ==> l[i].pc == Spin && l[i].rounds == n
    ensures Stored(l) == |l| * n
  {
    if l != [] {
      StoredFinished(l[..|l| - 1], n);
      assert |l| * n == (|l| - 1) * n + n;
    }
  }

  // Every interleaving of any number of threads: mutual exclusion, the flag tells whether the
  // lock is held, and no increment is lost.
  lemma SpinlockSafe(threads: nat, n: nat, schedule: seq<nat>)
    ensures
      var s := Run(Start(threads), n, schedule);
      && Exclusive(s)
      && (s.flag == 1 <==> Held(s))
      && s.shared <= threads * n
      && ((forall i :: 0 <= i < |s.threads| ==> Finished(s.threads[i], n)) ==> s.shared == threads * n)
  {
    StartStored(threads);
    RunInv(Start(threads), n, schedule);
    var s := Run(Start(threads), n, schedule);
    StoredBound(s.threads, n);
    if forall i :: 0 <= i < |s.threads| ==> Finished(s.threads[i], n) {
      StoredFinished(s.threads, n);
    }
  }

  lemma {:induction false} StoredBound(l: seq<Thread>, n: nat)
    requires forall i :: 0 <= i < |l| ==> l[i].rounds <= n && (Holds(l[i]) ==> l[i].rounds < n)
    ensures Stored(l) <= |l| * n
  {
    if l != [] {
      StoredBound(l[..|l| - 1], n);
      assert |l| * n == (|l| - 1) * n + n;
    }
  }

  // ---- the lock never blocks for good

  // Steps a thread still has to do when it never spins in vain.
  function Left(t: Thread, n: nat): nat {
    if t.rounds >= n then 0
    else
      5 * (n - t.rounds) -
      match t.pc
      case Spin => 0
      case Load => 1
      case Increment => 2
      case Store => 3
      case Unlock => 4
  }

  function LeftAll(l: seq<Thread>, n: nat): nat {
    if l == [] then 0 else LeftAll(l[..|l| - 1], n) + Left(l[|l| - 1], n)
  }

  lemma {:induction false} LeftUpdate(l: seq<Thread>, k: nat, t: Thread, n: nat)
    requires k < |l|
    ensures LeftAll(l[k := t], n) == LeftAll(l, n) - Left(l[k], n) + Left(t, n)
  {
    var m := |l| - 1;
    if k < m {
      assert l[k := t][..m] == l[..m][k := t];
      LeftUpdate(l[..m], k, t, n);
    } else {
      assert l[k := t][..m] == l[..m];
    }
  }

  // In every reachable state that is not final some thread can move forward.
  lemma Progress(s: State, n: nat) returns (k: nat)
    requires Inv(s, n) && exists i :: 0 <= i < |s.threads| && !Finished(s.threads[i], n)
    ensures k < |s.threads| && LeftAll(Next(s, k, n).threads, n) < LeftAll(s.threads, n)
  {
    hide Stored;
    if Held(s) {
      k :| 0 <= k < |s.threads| && Holds(s.threads[k]);
    } else {
      k :| 0 <= k < |s.threads| && !Finished(s.threads[k], n);
    }
    LeftUpdate(s.threads, k, Next(s, k, n).threads[k], n);
  }

  // From every reachable state there is an interleaving in which all threads finish.
  lemma {:induction false} CanFinish(s: State, n: nat) returns (schedule: seq<nat>)
    requires Inv(s, n)
    ensures
      var e := Run(s, n, schedule);
      |e.threads| == |s.threads| && forall i :: 0 <= i < |e.threads| ==> Finished(e.threads[i], n)
    decreases LeftAll(s.threads, n)
  {
    if exists i :: 0 <= i < |s.threads| && !Finished(s.threads[i], n) {
      var k := Progress(s, n);
      StepInv(s, k, n);
      var rest := CanFinish(Next(s, k, n), n);
      schedule := [k] + rest;
      assert schedule[1..] == rest;
    } else {
      schedule := [];
    }
  }

  // ---- who can move, and who gets the lock

  // A thread can move exactly when it has rounds left and holds the lock or finds it free; every
  // move brings it one step nearer to its end and leaves the other threads alone.
  lemma MovesWhen(s: State, k: nat, n: nat)
    requires Inv(s, n) && k < |s.threads|
    ensures
      var t := Next(s, k, n);
      && (t != s <==> s.threads[k].rounds < n && (Holds(s.threads[k]) || s.flag == 0))
      && (t != s ==> Left(t.threads[k], n) == Left(s.threads[k], n) - 1)
      && |t.threads| == |s.threads| && forall i :: 0 <= i < |s.threads| && i != k ==> t.threads[i] == s.threads[i]
  {
    if s.threads[k].pc == Spin && s.flag != 0 {
      assert s.threads[k := s.threads[k]] == s.threads;
    }
  }

  // Whoever spins with rounds left and finds the lock free holds it after the step, in any state.
  lemma FreeIsTaken(s: State, k: nat, n: nat)
    requires k < |s.threads| && s.threads[k].pc == Spin && s.threads[k].rounds < n && s.flag == 0
    ensures
      var t := Next(s, k, n);
      t.flag == 1 && Holds(t.threads[k]) && t.threads[k].rounds == s.threads[k].rounds && t.shared == s.shared
  {
  }

  // Who spins on a held lock waits.
  lemma HeldIsAwaited(s: State, k: nat, n: nat)
    requires Inv(s, n) && k < |s.threads| && s.threads[k].pc == Spin && Held(s)
    ensures Next(s, k, n) == s
  {
    assert s.threads[k := s.threads[k]] == s.threads;
  }

  // One round of thread k that nobody disturbs.
  function Round(k: nat): seq<nat> {
    [k, k, k, k, k]
  }

  lemma RunOne(s: State, n: nat, k: nat, rest: seq<nat>)
    requires k < |s.threads|
    ensures Run(s, n, [k] + rest) == Run(Next(s, k, n), n, rest)
  {
    assert ([k] + rest)[1..] == rest;
  }

  lemma OneRound(s: State, n: nat, k: nat, rest: seq<nat>)
    requires k < |s.threads| && s.flag == 0 && s.threads[k].pc == Spin && s.threads[k].rounds < n
    ensures
      var t := s.threads[k];
      Run(s, n, Round(k) + rest)
        == Run(State(0, s.shared + 1, s.threads[k := Thread(Spin, t.rounds + 1, s.shared + 1)]), n, rest)
  {
    hide Run;
    var a := Next(s, k, n);
    var b := Next(a, k, n);
    var c := Next(b, k, n);
    var e := Next(c, k, n);
    RunOne(s, n, k, [k, k, k, k] + rest);
    assert Round(k) + rest == [k] + ([k, k, k, k] + rest);
    RunOne(a, n, k, [k, k, k] + rest);
    assert [k, k, k, k] + rest == [k] + ([k, k, k] + rest);
    RunOne(b, n, k, [k, k] + rest);
    assert [k, k, k] + rest == [k] + ([k, k] + rest);
    RunOne(c, n, k, [k] + rest);
    assert [k, k] + rest == [k] + ([k] + rest);
    RunOne(e, n, k, rest);
    assert Next(e, k, n).threads == s.threads[k := Thread(Spin, s.threads[k].rounds + 1, s.shared + 1)];
  }

  // The rounds of the threads in this order.
  function Serial(order: seq<nat>): seq<nat> {
    if order == [] then [] else Round(order[0]) + Serial(order[1..])
  }

  // No order of entering is ruled out: whichever threads enter one after the other, each with a
  // round left, there is an interleaving in which they do, and each adds 1.
  lemma {:induction false} AnyOrder(s: State, n: nat, order: seq<nat>)
    requires s.flag == 0 && forall i :: 0 <= i < |s.threads| ==> s.threads[i].pc == Spin
    requires forall k :: k in order ==> k < |s.threads| && s.threads[k].rounds + multiset(order)[k] <= n
    ensures
      var e := Run(s, n, Serial(order));
      && e.flag == 0 && e.shared == s.shared + |order| && |e.threads| == |s.threads|
      && forall i: nat :: i < |e.threads| ==>
           e.threads[i].pc == Spin && e.threads[i].rounds == s.threads[i].rounds + multiset(order)[i]
    decreases |order|
  {
    if order != [] {
      var k, rest := order[0], order[1..];
      assert order == [k] + rest;
      assert k in order && multiset(order)[k] >= 1;
      OneRound(s, n, k, Serial(rest));
      var t := State(0, s.shared + 1, s.threads[k := Thread(Spin, s.threads[k].rounds + 1, s.shared + 1)]);
      forall j | j in rest
        ensures j < |t.threads| && t.threads[j].rounds + multiset(rest)[j] <= n
      {
        assert j in order;
      }
      AnyOrder(t, n, rest);
    }
  }

  // From the start any thread can be the first to enter.
  lemma AnyFirst(threads: nat, n: nat, k: nat)
    requires k < threads && n > 0
    ensures
      var s := Run(Start(threads), n, [k]);
      s.flag == 1 && |s.threads| == threads && forall i :: 0 <= i < threads ==> (Holds(s.threads[i]) <==> i == k)
  {
    assert [k][1..] == [];
    assert Run(Start(threads), n, [k]) == Next(Start(threads), k, n);
  }
}
