/** Whole runs of memsim.c: the menu loop over any sequence of choices. */
module Simulation {
  import opened Intervals
  import opened Memory
  import opened Lists
  import opened Allocator

  // The choices of the menu with what the user types in; the display changes nothing.
  datatype Choice =
    | SetSize(size: int)
    | Algorithm(choice: int)
    | Create(want: int)
    | Kill(pid: int)
    | Display
    | MinSlice(v: int)
    | Toggle

  // What one choice does.
  ghost predicate Step(s: State, t: State, c: Choice) {
    match c
    case SetSize(n) =>
      t == if !s.locked && n > 0 then s.(memSize := n, free := [Seg(0, n)]) else s
    case Algorithm(a) =>
      if 1 <= a <= 3 then
        && t == s.(alg := AlgorithmOf(a), free := t.free, locked := true)
        && multiset(t.free) == multiset(s.free)
      else t == s
    case Create(want) =>
      if want > 0 && Possible(s, want) then exists m :: Prepared(s, m, want) && Created(m, t, want)
      else t == s.(pidSeq := s.pidSeq + 1)
    case Kill(pid) => Killed(s, t, pid)
    case Display => t == s
    case MinSlice(v) => t == s.(minSlice := if v < 0 then s.minSlice else v)
    case Toggle => t == s.(autoCompact := !s.autoCompact)
  }

  // A run passes through the states of trace.
  ghost predicate Trace(trace: seq<State>, choices: seq<Choice>) {
    && |trace| == |choices| + 1
    && (forall i :: 0 <= i < |trace| ==> Inv(trace[i]))
    && (forall i :: 0 <= i < |choices| ==> Step(trace[i], trace[i + 1], choices[i]))
  }

  method Choose(sim: Simulator, c: Choice)
    requires sim.Valid() && Inv(sim.S())
    modifies sim, sim.freeList, sim.freeList.repr, sim.procList, sim.procList.repr
    ensures sim.Valid() && Inv(sim.S()) && Step(old(sim.S()), sim.S(), c)
    ensures fresh(sim.freeList.repr - old(sim.freeList.repr)) && fresh(sim.procList.repr - old(sim.procList.repr))
  {
    hide Inv, Created, Prepared, Possible, Killed, LinkedList.Valid;
    match c
    case SetSize(n) => var ok := sim.SetMemSize(n);
    case Algorithm(a) => sim.SetAlgorithm(a);
    case Create(want) =>
      ghost var s := sim.S();
      ghost var m;
      var ok;
      ok, m := sim.NewProcess(want);
      assert ok ==> Prepared(s, m, want) && Created(m, sim.S(), want);
    case Kill(pid) => sim.KillProcess(pid);
    case Display =>
    case MinSlice(v) => sim.SetMinSlice(v);
    case Toggle => sim.ToggleAutoCompact();
  }

  // The menu loop, from the initial state or any later one.
  method Run(sim: Simulator, choices: seq<Choice>) returns (ghost trace: seq<State>)
    requires sim.Valid() && Inv(sim.S())
    modifies sim, sim.freeList, sim.freeList.repr, sim.procList, sim.procList.repr
    ensures sim.Valid() && Trace(trace, choices) && trace[0] == old(sim.S()) && trace[|choices|] == sim.S()
  {
    hide Inv, Step, LinkedList.Valid;
    trace := [sim.S()];
    var i := 0;
    while i < |choices|
      invariant 0 <= i <= |choices| && sim.Valid()
      invariant fresh(sim.freeList.repr - old(sim.freeList.repr)) && fresh(sim.procList.repr - old(sim.procList.repr))
      invariant Trace(trace, choices[..i]) && trace[0] == old(sim.S()) && trace[i] == sim.S()
    {
      Choose(sim, choices[i]);
      trace := trace + [sim.S()];
      i := i + 1;
    }
    assert choices[..i] == choices;
  }

  // Every process of t that is not newer than s was in s, with the same size.
  ghost predicate Survivors(s: State, t: State) {
    && s.pidSeq <= t.pidSeq
    && forall p :: p in t.procs && p.pid <= s.pidSeq ==>
        exists q :: q in s.procs && q.pid == p.pid && q.size == p.size
  }

  lemma SameProcs(s: State, t: State)
    requires s.pidSeq <= t.pidSeq && forall p :: p in t.procs ==> p in s.procs || p.pid > s.pidSeq
    ensures Survivors(s, t)
  {
  }

  lemma PackedSurvivors(s: State, t: State)
    requires Compacted(s, t)
    ensures Survivors(s, t)
  {
    hide Chain, Segs, Sum;
    var w :| ByAddress(w) && multiset(w) == multiset(s.procs) && MovedDown(w, t.procs);
    forall p | p in t.procs
      ensures exists q :: q in s.procs && q.pid == p.pid && q.size == p.size
    {
      var i :| 0 <= i < |t.procs| && t.procs[i] == p;
      assert w[i] in multiset(w);
      assert w[i] in s.procs;
    }
  }

  lemma SurvivorsTrans(a: State, b: State, c: State)
    requires Survivors(a, b) && Survivors(b, c)
    ensures Survivors(a, c)
  {
  }

  lemma CreatedSurvivors(s: State, m: State, t: State, want: int)
    requires Prepared(s, m, want) && Created(m, t, want)
    ensures Survivors(s, t)
  {
    SameProcs(m, t);
    if !AnyFits(s.free, want) {
      PackedSurvivors(s, m);
      SurvivorsTrans(s, m, t);
    }
  }

  lemma StepSurvivors(s: State, t: State, c: Choice)
    requires Step(s, t, c)
    ensures Survivors(s, t)
  {
    hide Survivors, Prepared, Created, Possible, GivenBack;
    match c
    case Create(want) =>
      if want > 0 && Possible(s, want) {
        var m :| Prepared(s, m, want) && Created(m, t, want);
        CreatedSurvivors(s, m, t, want);
      } else {
        SameProcs(s, t);
      }
    case _ => SameProcs(s, t);
  }

  // Process numbers are never given out again and a process keeps its size, over any run.
  lemma {:induction false} RunSurvivors(trace: seq<State>, choices: seq<Choice>, i: nat, j: nat)
    requires Trace(trace, choices) && i <= j < |trace|
    ensures Survivors(trace[i], trace[j])
    decreases j
  {
    hide Survivors, Step, Inv;
    if i == j {
      SameProcs(trace[i], trace[j]);
    } else {
      RunSurvivors(trace, choices, i, j - 1);
      StepSurvivors(trace[j - 1], trace[j], choices[j - 1]);
      SurvivorsTrans(trace[i], trace[j - 1], trace[j]);
    }
  }

  // Every run from the start: the sizes always add up to the memory.
  method RunFromStart(choices: seq<Choice>) returns (sim: Simulator, ghost trace: seq<State>)
    ensures sim.Valid() && Trace(trace, choices) && trace[|choices|] == sim.S() && trace[0].procs == []
    ensures forall i :: 0 <= i < |trace| ==> Sum(trace[i].free) + Sum(Segs(trace[i].procs)) == trace[i].memSize
  {
    sim := new Simulator();
    trace := Run(sim, choices);
    hide Step, Inv, Segs, Sum;
    forall i | 0 <= i < |trace|
      ensures Sum(trace[i].free) + Sum(Segs(trace[i].procs)) == trace[i].memSize
    {
      Conserved(trace[i]);
    }
  }

  // The first request of a fresh simulation: 1024 cells from address 0 on, of which the process gets
  // what it asked for, or all when less than 10 would be left.
  method FirstRequest(want: int) returns (ok: bool, sim: Simulator)
    ensures ok <==> 0 < want <= 1024
    ensures
      var size := if want == 1024 || 1024 - want >= 10 then want else 1024;
      ok ==>
        && sim.S().procs == [Proc(1, size, 0)]
        && multiset(sim.S().free) == if size < 1024 then multiset{Seg(size, 1024 - size)} else multiset{}
  {
    hide Inv, Possible, Prepared, Created, LinkedList.Valid, MenuChoice, Without;
    sim := new Simulator();
    ghost var s, m := sim.S(), sim.S();
    WholeRequest(s, want);
    ok, m := sim.NewProcess(want);
    if ok {
      WholeChoice(s, m, want);
      ghost var a := CreatedIs(m, sim.S(), want, 1);
      WholeTaken(s.free, want, a);
    }
  }

  lemma WholeTaken(free: seq<Seg>, want: int, a: Seg)
    requires free == [Seg(0, 1024)] && MenuChoice(1, multiset(free), want, a)
    ensures a == Seg(0, 1024)
    ensures forall k :: 0 < k <= 1024 ==>
      Without(multiset(free), a, k) == if k < 1024 then multiset{Seg(k, 1024 - k)} else multiset{}
  {
  }

  lemma WholeRequest(s: State, want: int)
    requires s.free == [Seg(0, 1024)]
    ensures Possible(s, want) <==> want <= 1024
  {
    if want <= 1024 {
      assert s.free[0].size >= want;
    }
    assert s.free[1..] == [];
    assert Sum(s.free) == 1024 + Sum(s.free[1..]);
  }

  lemma WholeChoice(s: State, m: State, want: int)
    requires s.free == [Seg(0, 1024)] && want <= 1024 && Prepared(s, m, want)
    ensures m == s
  {
    assert s.free[0].size >= want;
  }
}
