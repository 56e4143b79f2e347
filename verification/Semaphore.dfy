/** step2_semaphore.c as a step machine: the adder and the subtracter between P and V. */
module Semaphore {
  datatype Pc = Wait | Load | Modify | Store | Post

  datatype Worker = Worker(pc: Pc, rounds: nat, tmp: int)

  // sem is the value of the semaphore.
  datatype State = State(sem: nat, g: int, add: Worker, sub: Worker)

  datatype Who = Adder | Subtracter

  const STEP := 100

  predicate Finished(w: Worker, n: nat) {
    w.pc == Wait && w.rounds >= n
  }

  // A worker that is finished or waits at P for a semaphore of value 0 has no step.
  predicate Enabled(w: Worker, sem: nat, n: nat) {
    !Finished(w, n) && (w.pc == Wait ==> sem > 0)
  }

  function Turn(w: Worker, sem: nat, g: int, delta: int, n: nat): (Worker, nat, int)
    requires Enabled(w, sem, n)
  {
    match w.pc
    case Wait => (w.(pc := Load), sem - 1, g)
    case Load => (w.(pc := Modify, tmp := g), sem, g)
    case Modify => (w.(pc := Store, tmp := w.tmp + delta), sem, g)
    case Store => (w.(pc := Post), sem, w.tmp)
    case Post => (w.(pc := Wait, rounds := w.rounds + 1), sem + 1, g)
  }

  // A worker without a step stays where it is.
  function Next(s: State, who: Who, n: nat): State {
    match who
    case Adder =>
      if !Enabled(s.add, s.sem, n) then s
      else var (w, sem, g) := Turn(s.add, s.sem, s.g, STEP, n); s.(add := w, sem := sem, g := g)
    case Subtracter =>
      if !Enabled(s.sub, s.sem, n) then s
      else var (w, sem, g) := Turn(s.sub, s.sem, s.g, -STEP, n); s.(sub := w, sem := sem, g := g)
  }

  function Run(s: State, n: nat, schedule: seq<Who>): State
    decreases schedule
  {
    if schedule == [] then s else Run(Next(s, schedule[0], n), n, schedule[1..])
  }

  function Start(): State {
    State(1, 0, Worker(Wait, 0, 0), Worker(Wait, 0, 0))
  }

  predicate Final(s: State, n: nat) {
    Finished(s.add, n) && Finished(s.sub, n)
  }

  function Inside(w: Worker): nat {
    if w.pc == Wait then 0 else 1
  }

  function Stores(w: Worker): nat {
    w.rounds + if w.pc == Post then 1 else 0
  }

  predicate Fresh(w: Worker, g: int, delta: int) {
    (w.pc == Modify ==> w.tmp == g) && (w.pc == Store ==> w.tmp == g + delta)
  }

  predicate Inv(s: State, n: nat) {
    && s.sem + Inside(s.add) + Inside(s.sub) == 1
    && s.g == STEP * Stores(s.add) - STEP * Stores(s.sub)
    && Fresh(s.add, s.g, STEP) && Fresh(s.sub, s.g, -STEP)
    && s.add.rounds + Inside(s.add) <= n && s.sub.rounds + Inside(s.sub) <= n
  }

  lemma StepInv(s: State, who: Who, n: nat)
    requires Inv(s, n)
    ensures Inv(Next(s, who, n), n)
  {
  }

  lemma {:induction false} RunInv(s: State, n: nat, schedule: seq<Who>)
    requires Inv(s, n)
    ensures Inv(Run(s, n, schedule), n)
    decreases schedule
  {
    if schedule != [] {
      hide Inv, Next;
      StepInv(s, schedule[0], n);
      RunInv(Next(s, schedule[0], n), n, schedule[1..]);
    }
  }

  // In every interleaving at most one worker is between P and V, and a complete one ends with 0.
  lemma SemaphoreSafe(n: nat, schedule: seq<Who>)
    ensures
      var s := Run(Start(), n, schedule);
      && Inside(s.add) + Inside(s.sub) <= 1
      && (s.sem == 0 <==> Inside(s.add) + Inside(s.sub) == 1)
      && (Final(s, n) ==> s.g == 0)
  {
    RunInv(Start(), n, schedule);
  }

  // ---- no deadlock

  function Left(w: Worker, n: nat): int {
    5 * (n - w.rounds) -
    match w.pc
    case Wait => 0
    case Load => 1
    case Modify => 2
    case Store => 3
    case Post => 4
  }

  // In every reachable state that is not final some worker has a step, and every such step
  // brings the end nearer: every complete interleaving is finite.
  lemma Progress(s: State, n: nat)
    requires Inv(s, n)
    ensures Final(s, n) || Enabled(s.add, s.sem, n) || Enabled(s.sub, s.sem, n)
    ensures Left(s.add, n) >= 0 && Left(s.sub, n) >= 0
    ensures Enabled(s.add, s.sem, n) ==>
        var t := Next(s, Adder, n); Left(t.add, n) + Left(t.sub, n) == Left(s.add, n) + Left(s.sub, n) - 1
    ensures Enabled(s.sub, s.sem, n) ==>
        var t := Next(s, Subtracter, n); Left(t.add, n) + Left(t.sub, n) == Left(s.add, n) + Left(s.sub, n) - 1
  {
  }

  // From every reachable state some interleaving completes.
  lemma {:induction false} CanFinish(s: State, n: nat) returns (schedule: seq<Who>)
    requires Inv(s, n)
    ensures Final(Run(s, n, schedule), n)
    decreases Left(s.add, n) + Left(s.sub, n)
  {
    Progress(s, n);
    if Final(s, n) {
      schedule := [];
    } else {
      var who := if Enabled(s.add, s.sem, n) then Adder else Subtracter;
      StepInv(s, who, n);
      var rest := CanFinish(Next(s, who, n), n);
      schedule := [who] + rest;
      assert schedule[1..] == rest;
    }
  }

  // ---- who can move, and who gets in

  function Of(s: State, who: Who): Worker {
    if who == Adder then s.add else s.sub
  }

  // A worker can move exactly when it has rounds left and is inside or finds the other outside.
  lemma MovesWhen(s: State, who: Who, other: Who, n: nat)
    requires Inv(s, n) && who != other
    ensures Next(s, who, n) != s
      <==> Of(s, who).rounds < n && (Inside(Of(s, who)) == 1 || Inside(Of(s, other)) == 0)
    ensures Of(Next(s, who, n), other) == Of(s, other)
  {
  }

  // P by either worker on a semaphore above 0 succeeds, in any state.
  lemma FreeIsTaken(s: State, who: Who, n: nat)
    requires s.sem > 0 && Of(s, who).pc == Wait && Of(s, who).rounds < n
    ensures
      var t := Next(s, who, n);
      && Inside(Of(t, who)) == 1 && t.sem == s.sem - 1 && t.g == s.g && Of(t, who).rounds == Of(s, who).rounds
  {
  }

  lemma OneRound(s: State, n: nat, who: Who, rest: seq<Who>)
    requires s.sem > 0 && Of(s, who).pc == Wait && Of(s, who).rounds < n
    ensures
      var delta := if who == Adder then STEP else -STEP;
      var w := Worker(Wait, Of(s, who).rounds + 1, s.g + delta);
      Run(s, n, [who, who, who, who, who] + rest)
        == Run(if who == Adder then s.(add := w, g := s.g + delta) else s.(sub := w, g := s.g + delta), n, rest)
  {
    var a := Next(s, who, n);
    var b := Next(a, who, n);
    var c := Next(b, who, n);
    var e := Next(c, who, n);
    hide Run;
    RunOne(s, n, who, [who, who, who, who] + rest);
    assert [who, who, who, who, who] + rest == [who] + ([who, who, who, who] + rest);
    RunOne(a, n, who, [who, who, who] + rest);
    assert [who, who, who, who] + rest == [who] + ([who, who, who] + rest);
    RunOne(b, n, who, [who, who] + rest);
    assert [who, who, who] + rest == [who] + ([who, who] + rest);
    RunOne(c, n, who, [who] + rest);
    assert [who, who] + rest == [who] + ([who] + rest);
    RunOne(e, n, who, rest);
  }

  lemma RunOne(s: State, n: nat, who: Who, rest: seq<Who>)
    ensures Run(s, n, [who] + rest) == Run(Next(s, who, n), n, rest)
  {
    assert ([who] + rest)[1..] == rest;
  }

  function Serial(order: seq<Who>): seq<Who> {
    if order == [] then [] else [order[0], order[0], order[0], order[0], order[0]] + Serial(order[1..])
  }

  // No order of entering is ruled out: in any order of rounds, each worker with rounds enough, g
  // goes up and down by 100 round by round.
  lemma {:induction false} AnyOrder(s: State, n: nat, order: seq<Who>)
    requires s.sem > 0 && s.add.pc == Wait && s.sub.pc == Wait
    requires s.add.rounds + multiset(order)[Adder] <= n && s.sub.rounds + multiset(order)[Subtracter] <= n
    ensures
      var e := Run(s, n, Serial(order));
      && e.sem == s.sem && e.add.pc == Wait && e.sub.pc == Wait
      && e.add.rounds == s.add.rounds + multiset(order)[Adder]
      && e.sub.rounds == s.sub.rounds + multiset(order)[Subtracter]
      && e.g == s.g + 100 * multiset(order)[Adder] - 100 * multiset(order)[Subtracter]
    decreases |order|
  {
    if order != [] {
      var who, rest := order[0], order[1..];
      assert order == [who] + rest;
      OneRound(s, n, who, Serial(rest));
      var delta := if who == Adder then STEP else -STEP;
      var w := Worker(Wait, Of(s, who).rounds + 1, s.g + delta);
      AnyOrder(if who == Adder then s.(add := w, g := s.g + delta) else s.(sub := w, g := s.g + delta), n, rest);
    }
  }
}
