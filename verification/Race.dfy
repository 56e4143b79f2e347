/** step1_race.c as a step machine: one adder and one subtracter with no lock. */
module Race {
  datatype Pc = Load | Modify | Store

  datatype Worker = Worker(pc: Pc, rounds: nat, tmp: int)

  datatype State = State(g: int, add: Worker, sub: Worker)

  datatype Who = Adder | Subtracter

  const STEP := 100

  // One step of a worker: its new state and the new g. A finished worker does nothing.
  function Turn(w: Worker, g: int, delta: int, n: nat): (Worker, int) {
    if w.rounds >= n then (w, g)
    else
      match w.pc
      case Load => (w.(pc := Modify, tmp := g), g)
      case Modify => (w.(pc := Store, tmp := w.tmp + delta), g)
      case Store => (w.(pc := Load, rounds := w.rounds + 1), w.tmp)
  }

  function Next(s: State, who: Who, n: nat): State {
    match who
    case Adder => var (w, g) := Turn(s.add, s.g, STEP, n); s.(add := w, g := g)
    case Subtracter => var (w, g) := Turn(s.sub, s.g, -STEP, n); s.(sub := w, g := g)
  }

  function Run(s: State, n: nat, schedule: seq<Who>): State
    decreases schedule
  {
    if schedule == [] then s else Run(Next(s, schedule[0], n), n, schedule[1..])
  }

  function Start(): State {
    State(0, Worker(Load, 0, 0), Worker(Load, 0, 0))
  }

  predicate Final(s: State, n: nat) {
    s.add.rounds == n && s.sub.rounds == n && s.add.pc == Load && s.sub.pc == Load
  }

  // What g and the copies can be: a copy may be stale, but never beyond the stores so far.
  predicate Inv(s: State, n: nat) {
    && s.add.rounds <= n && s.sub.rounds <= n
    && Bounded(s, s.g, 0)
    && (s.add.pc == Modify ==> Bounded(s, s.add.tmp, 0)) && (s.add.pc == Store ==> Bounded(s, s.add.tmp, STEP))
    && (s.sub.pc == Modify ==> Bounded(s, s.sub.tmp, 0)) && (s.sub.pc == Store ==> Bounded(s, s.sub.tmp, -STEP))
  }

  predicate Bounded(s: State, v: int, shift: int) {
    v % STEP == 0 && -STEP * s.sub.rounds + shift <= v <= STEP * s.add.rounds + shift
  }

  lemma StepInv(s: State, who: Who, n: nat)
    requires Inv(s, n)
    ensures Inv(Next(s, who, n), n)
  {
    hide Inv, Next;
    match who
    case Adder => AdderInv(s, n);
    case Subtracter => SubtracterInv(s, n);
  }

  lemma AdderInv(s: State, n: nat)
    requires Inv(s, n)
    ensures Inv(Next(s, Adder, n), n)
  {
  }

  lemma SubtracterInv(s: State, n: nat)
    requires Inv(s, n)
    ensures Inv(Next(s, Subtracter, n), n)
  {
  }

  lemma {:induction false} RunInv(s: State, n: nat, schedule: seq<Who>)
    requires Inv(s, n)
    ensures Inv(Run(s, n, schedule), n)
    decreases schedule
  {
    if schedule != [] {
      hide Inv, Next;
      StepInv(s, schedule[0], n);
      RunInv(Next(s, schedule[0], n), n, schedule[1..]);
    }
  }

  lemma {:induction false} RunAppend(s: State, n: nat, a: seq<Who>, b: seq<Who>)
    ensures Run(s, n, a + b) == Run(Run(s, n, a), n, b)
    decreases a
  {
    if a == [] {
      assert a + b == b;
    } else {
      assert (a + b)[1..] == a[1..] + b;
      RunAppend(Next(s, a[0], n), n, a[1..], b);
    }
  }

  function Rounds(who: Who, k: nat): seq<Who> {
    if k == 0 then [] else [who, who, who] + Rounds(who, k - 1)
  }

  lemma Three(s: State, n: nat, who: Who)
    ensures Run(s, n, [who, who, who]) == Next(Next(Next(s, who, n), who, n), who, n)
  {
    assert [who, who, who][1..] == [who, who];
    Two(Next(s, who, n), n, who);
  }

  lemma Two(s: State, n: nat, who: Who)
    ensures Run(s, n, [who]) == Next(s, who, n)
    ensures Run(s, n, [who, who]) == Next(Next(s, who, n), who, n)
  {
    var t := Next(s, who, n);
    assert [who, who][1..] == [who] && [who][1..] == [];
    assert Run(t, n, [who]) == Run(Next(t, who, n), n, []);
  }

  // k undisturbed rounds of one worker, the other standing anywhere.
  lemma {:induction false} Alone(s: State, n: nat, who: Who, k: nat)
    requires who == Adder ==> s.add.pc == Load && s.add.rounds + k <= n
    requires who == Subtracter ==> s.sub.pc == Load && s.sub.rounds + k <= n
    ensures
      var e := Run(s, n, Rounds(who, k));
      match who
      case Adder => e.g == s.g + STEP * k && e.sub == s.sub && e.add.pc == Load && e.add.rounds == s.add.rounds + k
      case Subtracter => e.g == s.g - STEP * k && e.add == s.add && e.sub.pc == Load && e.sub.rounds == s.sub.rounds + k
    decreases k
  {
    if k > 0 {
      Three(s, n, who);
      RunAppend(s, n, [who, who, who], Rounds(who, k - 1));
      Alone(Run(s, n, [who, who, who]), n, who, k - 1);
    }
  }

  // The other worker does lost rounds between the load and the store of one round of the first.
  function Losing(who: Who, other: Who, lost: nat, n: nat): seq<Who>
    requires lost <= n && n > 0
  {
    [who] + (Rounds(other, lost) + ([who, who] + (Rounds(who, n - 1) + Rounds(other, n - lost))))
  }

  lemma Losses(who: Who, other: Who, lost: nat, n: nat)
    requires who != other && lost <= n && n > 0
    ensures
      var e := Run(Start(), n, Losing(who, other, lost, n));
      Final(e, n) && e.g == if who == Adder then STEP * lost else -STEP * lost
  {
    var s := Start();
    RunAppend(s, n, [who], Rounds(other, lost) + ([who, who] + (Rounds(who, n - 1) + Rounds(other, n - lost))));
    var a := Run(s, n, [who]);
    Two(s, n, who);
    RunAppend(a, n, Rounds(other, lost), [who, who] + (Rounds(who, n - 1) + Rounds(other, n - lost)));
    Alone(a, n, other, lost);
    var b := Run(a, n, Rounds(other, lost));
    RunAppend(b, n, [who, who], Rounds(who, n - 1) + Rounds(other, n - lost));
    Two(b, n, who);
    var c := Run(b, n, [who, who]);
    RunAppend(c, n, Rounds(who, n - 1), Rounds(other, n - lost));
    Alone(c, n, who, n - 1);
    var d := Run(c, n, Rounds(who, n - 1));
    Alone(d, n, other, n - lost);
  }

  // An interleaving that ends with v.
  lemma Reached(n: nat, v: int) returns (schedule: seq<Who>)
    requires v % STEP == 0 && -STEP * n <= v <= STEP * n
    ensures Final(Run(Start(), n, schedule), n) && Run(Start(), n, schedule).g == v
  {
    hide Losing;
    var k: nat := (if v >= 0 then v else -v) / STEP;
    if n == 0 {
      schedule := [];
      assert Run(Start(), n, schedule) == Start();
    } else if v >= 0 {
      schedule := Losing(Adder, Subtracter, k, n);
      Losses(Adder, Subtracter, k, n);
    } else {
      schedule := Losing(Subtracter, Adder, k, n);
      Losses(Subtracter, Adder, k, n);
    }
  }

  // The run of a schedule ends with v.
  ghost predicate EndsWith(n: nat, schedule: seq<Who>, v: int) {
    Final(Run(Start(), n, schedule), n) && Run(Start(), n, schedule).g == v
  }

  // The final values of the program, over all interleavings, are exactly the multiples of 100
  // from -100 n to 100 n: with n > 0 the result is not determined.
  lemma FinalValues(n: nat, v: int)
    ensures (exists schedule :: EndsWith(n, schedule, v)) <==> (v % STEP == 0 && -STEP * n <= v <= STEP * n)
  {
    if schedule :| EndsWith(n, schedule, v) {
      AlwaysBounded(n, schedule);
    }
    if v % STEP == 0 && -STEP * n <= v <= STEP * n {
      var schedule := Reached(n, v);
      assert EndsWith(n, schedule, v);
    }
  }

  // At every point of every interleaving.
  lemma AlwaysBounded(n: nat, schedule: seq<Who>)
    ensures
      var g := Run(Start(), n, schedule).g;
      g % STEP == 0 && -STEP * n <= g <= STEP * n
  {
    RunInv(Start(), n, schedule);
  }

  // ---- what one lost update loses

  // Whatever the other worker does between the load and the store of a round, the store writes the
  // value loaded before, changed by 100.
  lemma {:induction false} Overwritten(s: State, n: nat, who: Who, other: Who, between: seq<Who>)
    requires who != other && forall i :: 0 <= i < |between| ==> between[i] == other
    requires Of(s, who).pc == Load && Of(s, who).rounds < n
    ensures
      var e := Run(s, n, [who] + between + [who, who]);
      && e.g == s.g + (if who == Adder then 100 else -100)
      && Of(e, who).rounds == Of(s, who).rounds + 1 && Of(e, who).pc == Load
  {
    RunAppend(s, n, [who] + between, [who, who]);
    RunAppend(s, n, [who], between);
    Two(s, n, who);
    var a := Run(s, n, [who]);
    OnlyOther(a, n, who, other, between);
    Two(Run(a, n, between), n, who);
  }

  function Of(s: State, who: Who): Worker {
    if who == Adder then s.add else s.sub
  }

  lemma {:induction false} OnlyOther(s: State, n: nat, who: Who, other: Who, steps: seq<Who>)
    requires who != other && forall i :: 0 <= i < |steps| ==> steps[i] == other
    ensures Of(Run(s, n, steps), who) == Of(s, who)
    decreases steps
  {
    if steps != [] {
      OnlyOther(Next(s, steps[0], n), n, who, other, steps[1..]);
    }
  }
}
