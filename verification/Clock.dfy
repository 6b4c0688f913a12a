/** The commit clock (clock.rs): versions are drawn from one counter, each thread publishes its last
    finished version in its own slot, and readers gather the slots one at a time. */
module Clock {
  import opened History

  /** What the slot of a thread holds that has not committed yet, or no longer does. */
  const INACTIVE: nat := MAX_U64

  /** Where a thread stands in `start_commit` .. `end_commit`, or in `committed_read`. */
  datatype Phase =
    | Resting
    | Drew(version: nat)
    | Stored
    | Timed(time: nat)
    | Quitting(time: nat)
    | Asking(time: nat)
    | Fast
    | Gathering(next: nat, min: nat)
    | Gathered(min: nat)
    | Raised(min: nat, before: nat)
    | Returned(version: nat)

  /** `globalMin` and `dirty` are GLOBAL_MIN and GLOBAL_DIRTY. */
  datatype State = State(time: nat, slots: seq<nat>, globalMin: nat, dirty: bool, phases: seq<Phase>)

  /** What a resting thread does next, and whether a reader has read so often in a row that it
      withdraws its slot. */
  datatype Move = Commit | Read | Leave | Withdraw

  function Min(a: nat, b: nat): nat {
    if a < b then a else b
  }

  function Max(a: nat, b: nat): nat {
    if a < b then b else a
  }

  function Go(s: State, i: nat, phase: Phase): State
    requires i < |s.phases|
  {
    s.(phases := s.phases[i := phase])
  }

  /** One step of thread `i`. Each load, store and read-modify-write is a step of its own. */
  function Act(s: State, i: nat, m: Move): State
    requires i < |s.phases| == |s.slots|
  {
    match s.phases[i]
    case Resting =>
      (match m
       case Commit => Go(s.(time := s.time + 1), i, Drew(s.time))
       case Read => Go(s, i, Timed(s.time))
       case Leave => Go(s.(slots := s.slots[i := INACTIVE]), i, Stored)
       case Withdraw => s)
    case Drew(v) => Go(s.(slots := s.slots[i := v]), i, Stored)
    case Stored => Go(s.(dirty := true), i, Resting)
    case Timed(t) =>
      if m.Withdraw? then Go(s.(slots := s.slots[i := INACTIVE]), i, Quitting(t)) else Go(s, i, Asking(t))
    case Quitting(t) => Go(s.(dirty := true), i, Asking(t))
    case Asking(t) => Go(s, i, if s.dirty then Gathering(0, t) else Fast)
    case Fast => Go(s, i, Returned(s.globalMin))
    case Gathering(k, min) =>
      Go(s, i, if k < |s.slots| then Gathering(k + 1, Min(min, s.slots[k])) else Gathered(min))
    case Gathered(min) => Go(s.(globalMin := Max(s.globalMin, min)), i, Raised(min, s.globalMin))
    case Raised(min, before) => Go(s.(dirty := false), i, Returned(Max(min, before)))
    case Returned(_) => Go(s, i, Resting)
  }

  predicate Active(s: State, i: nat) {
    i < |s.slots| && s.slots[i] != INACTIVE
  }

  /** Thread `i` draws a version in this step. */
  predicate Draws(s: State, i: nat, m: Move) {
    i < |s.phases| && s.phases[i].Resting? && m.Commit?
  }

  /** A step of a steady system: whoever draws a version has a published slot. */
  ghost predicate Step(s: State, u: State, i: nat, m: Move) {
    && i < |s.phases| == |s.slots| && u == Act(s, i, m)
    && (Draws(s, i, m) ==> Active(s, i) && s.time < INACTIVE)
  }

  /** A version is settled when no version up to it is still being worked on, and none can be drawn
      any more. */
  ghost predicate Settled(s: State, r: nat) {
    && (forall i :: 0 <= i < |s.phases| && s.phases[i].Drew? ==> r < s.phases[i].version)
    && (forall i :: 0 <= i < |s.slots| && Active(s, i) ==> r < s.time)
  }

  /** The same for the first `k` threads. */
  ghost predicate SettledTo(s: State, r: nat, k: nat) {
    && (forall i :: 0 <= i < k && i < |s.phases| && s.phases[i].Drew? ==> r < s.phases[i].version)
    && (forall i :: 0 <= i < k && Active(s, i) ==> r < s.time)
  }

  ghost predicate PhaseOk(s: State, i: nat)
    requires i < |s.phases| == |s.slots|
  {
    match s.phases[i]
    case Resting | Stored | Timed(_) | Quitting(_) | Asking(_) | Fast => true
    case Drew(v) => v < s.time && Active(s, i) && s.slots[i] < v < INACTIVE
    case Gathering(k, min) => k <= |s.slots| && SettledTo(s, min, k)
    case Gathered(min) => Settled(s, min)
    case Raised(min, before) => Settled(s, min) && Settled(s, before) && Max(min, before) <= s.globalMin
    case Returned(r) => Settled(s, r) && r <= s.globalMin
  }

  ghost predicate Inv(s: State) {
    && |s.phases| == |s.slots|
    && Settled(s, s.globalMin)
    && (forall i :: 0 <= i < |s.slots| && Active(s, i) ==> s.slots[i] < s.time)
    && (forall i :: 0 <= i < |s.phases| ==> PhaseOk(s, i))
  }

  /** Once settled, always settled: later versions are larger. */
  lemma {:induction false} SettledStays(s: State, u: State, i: nat, m: Move, r: nat)
    requires Inv(s) && Step(s, u, i, m) && Settled(s, r)
    ensures Settled(u, r)
  {
    assert PhaseOk(s, i);
    forall j | 0 <= j < |u.slots| && Active(u, j)
      ensures r < u.time
    {
      assert Active(s, j);
    }
    forall j | 0 <= j < |u.phases| && u.phases[j].Drew?
      ensures r < u.phases[j].version
    {
      if j == i { assert Active(s, i); }
    }
  }

  lemma {:induction false} SettledToStays(s: State, u: State, i: nat, m: Move, r: nat, k: nat)
    requires Inv(s) && Step(s, u, i, m) && SettledTo(s, r, k)
    ensures SettledTo(u, r, k)
  {
    assert PhaseOk(s, i);
    forall j | 0 <= j < k && Active(u, j)
      ensures r < u.time
    {
      assert Active(s, j);
    }
    forall j | 0 <= j < k && j < |u.phases| && u.phases[j].Drew?
      ensures r < u.phases[j].version
    {
      if j == i { assert Active(s, i); }
    }
  }

  /** Gathering one more slot: what the thread publishes next lies above its slot. */
  lemma {:induction false} GatherNext(s: State, k: nat, min: nat)
    requires Inv(s) && k < |s.slots| && SettledTo(s, min, k)
    ensures SettledTo(s, Min(min, s.slots[k]), k + 1)
  {
    assert PhaseOk(s, k);
    assert k < |s.phases|;
  }

  lemma {:induction false} OthersKeep(s: State, u: State, i: nat, m: Move, j: nat)
    requires Inv(s) && Step(s, u, i, m) && j < |s.phases| && j != i
    ensures PhaseOk(u, j)
  {
    assert PhaseOk(s, j) && PhaseOk(s, i);
    assert Active(u, j) == Active(s, j);
    hide Settled, SettledTo, Inv;
    match s.phases[j] {
      case Gathering(k, min) => SettledToStays(s, u, i, m, min, k);
      case Gathered(min) => SettledStays(s, u, i, m, min);
      case Raised(min, before) => SettledStays(s, u, i, m, min); SettledStays(s, u, i, m, before);
      case Returned(r) => SettledStays(s, u, i, m, r);
      case _ =>
    }
  }

  lemma {:induction false} GathererKeeps(s: State, u: State, i: nat, m: Move)
    requires Inv(s) && Step(s, u, i, m) && s.phases[i].Gathering?
    ensures PhaseOk(u, i)
  {
    assert PhaseOk(s, i);
    var k, min := s.phases[i].next, s.phases[i].min;
    if k < |s.slots| {
      GatherNext(s, k, min);
      SettledToStays(s, u, i, m, Min(min, s.slots[k]), k + 1);
    } else {
      WholeIsSettled(s, min);
      SettledStays(s, u, i, m, min);
    }
  }

  lemma {:induction false} MoverKeeps(s: State, u: State, i: nat, m: Move)
    requires Inv(s) && Step(s, u, i, m)
    ensures PhaseOk(u, i)
  {
    assert PhaseOk(s, i);
    if s.phases[i].Gathering? {
      GathererKeeps(s, u, i, m);
    } else {
      SettledStays(s, u, i, m, s.globalMin);
      if s.phases[i].Gathered? || s.phases[i].Raised? { SettledStays(s, u, i, m, s.phases[i].min); }
      if s.phases[i].Raised? { SettledStays(s, u, i, m, s.phases[i].before); }
      hide Settled, SettledTo;
    }
  }

  lemma {:induction false} WholeIsSettled(s: State, r: nat)
    requires |s.phases| == |s.slots| && SettledTo(s, r, |s.slots|)
    ensures Settled(s, r)
  {
  }

  lemma {:induction false} StepKeepsInv(s: State, u: State, i: nat, m: Move)
    requires Inv(s) && Step(s, u, i, m)
    ensures Inv(u) && s.globalMin <= u.globalMin
  {
    assert PhaseOk(s, i);
    SettledStays(s, u, i, m, s.globalMin);
    if s.phases[i].Gathered? { SettledStays(s, u, i, m, s.phases[i].min); }
    forall j | 0 <= j < |u.slots| && Active(u, j)
      ensures u.slots[j] < u.time
    {
      assert Active(s, j);
    }
    forall j | 0 <= j < |u.phases|
      ensures PhaseOk(u, j)
    {
      if j == i { MoverKeeps(s, u, i, m); } else { OthersKeep(s, u, i, m, j); }
    }
  }

  // ----- runs -----------------------------------------------------------------------------

  ghost predicate Stepped(s: State, u: State) {
    exists i: nat, m: Move :: Step(s, u, i, m)
  }

  /** A steady system starts at rest, with slots of versions drawn earlier, and with a minimum that is
      settled. */
  ghost predicate Initial(s: State) {
    && |s.phases| == |s.slots| && (forall i :: 0 <= i < |s.phases| ==> s.phases[i] == Resting)
    && (forall i :: 0 <= i < |s.slots| && Active(s, i) ==> s.slots[i] < s.time)
    && s.globalMin < s.time
  }

  ghost predicate Run(states: seq<State>) {
    |states| > 0 && Initial(states[0]) && forall i :: 0 <= i < |states| - 1 ==> Stepped(states[i], states[i + 1])
  }

  lemma {:induction false} ReachableInv(states: seq<State>, n: nat)
    requires Run(states) && n < |states|
    ensures Inv(states[n])
  {
    if n > 0 {
      ReachableInv(states, n - 1);
      assert Stepped(states[n - 1], states[n - 1 + 1]);
      var i: nat, m: Move :| Step(states[n - 1], states[n], i, m);
      StepKeepsInv(states[n - 1], states[n], i, m);
    }
  }

  lemma {:induction false} RunStep(states: seq<State>, n: nat, r: nat)
    requires Run(states) && n + 1 < |states|
    ensures Inv(states[n]) && states[n].globalMin <= states[n + 1].globalMin
    ensures Settled(states[n], r) ==> Settled(states[n + 1], r)
  {
    ReachableInv(states, n);
    assert Stepped(states[n], states[n + 1]);
    var i: nat, m: Move :| Step(states[n], states[n + 1], i, m);
    StepKeepsInv(states[n], states[n + 1], i, m);
    if Settled(states[n], r) { SettledStays(states[n], states[n + 1], i, m, r); }
  }

  /** Although slots are read one at a time while others commit: a version that a read returns is
      settled, then and for good. Every version up to it has finished its commit. */
  lemma {:induction false} ReadsAreSettled(states: seq<State>, n: nat, later: nat, i: nat)
    requires Run(states) && n <= later < |states| && i < |states[n].phases| && states[n].phases[i].Returned?
    ensures Settled(states[later], states[n].phases[i].version)
  {
    if later == n {
      ReachableInv(states, n);
      assert PhaseOk(states[n], i);
    } else {
      ReadsAreSettled(states, n, later - 1, i);
      RunStep(states, later - 1, states[n].phases[i].version);
    }
  }

  lemma {:induction false} MinimumRises(states: seq<State>, n: nat, later: nat)
    requires Run(states) && n <= later < |states|
    ensures states[n].globalMin <= states[later].globalMin
  {
    if n < later {
      MinimumRises(states, n, later - 1);
      RunStep(states, later - 1, 0);
    }
  }

  ghost predicate Waiting(phase: Phase, floor: nat) {
    match phase
    case Raised(_, before) => floor <= before
    case Returned(r) => floor <= r
    case _ => true
  }

  /** A read that begins after another one has returned does not return less, whoever reads. */
  lemma {:induction false} ReadsRise(states: seq<State>, n: nat, i: nat, begun: nat, later: nat, j: nat)
    requires Run(states) && n <= begun <= later < |states|
    requires i < |states[n].phases| && states[n].phases[i].Returned?
    requires j < |states[begun].phases| && states[begun].phases[j].Timed?
    requires j < |states[later].phases| && states[later].phases[j].Returned?
    ensures states[n].phases[i].version <= states[later].phases[j].version
  {
    ReachableInv(states, n);
    assert PhaseOk(states[n], i);
    MinimumRises(states, n, begun);
    FloorHolds(states, begun, later, j, states[n].phases[i].version);
  }

  lemma {:induction false} FloorHolds(states: seq<State>, begun: nat, later: nat, j: nat, floor: nat)
    requires Run(states) && begun <= later < |states|
    requires j < |states[begun].phases| && states[begun].phases[j].Timed?
    requires floor <= states[begun].globalMin
    ensures j < |states[later].phases| && Waiting(states[later].phases[j], floor)
  {
    hide Act, Initial;
    if begun < later {
      FloorHolds(states, begun, later - 1, j, floor);
      MinimumRises(states, begun, later - 1);
      assert Stepped(states[later - 1], states[later - 1 + 1]);
      var i: nat, m: Move :| Step(states[later - 1], states[later], i, m);
      FloorStep(states[later - 1], states[later], i, m, j, floor);
    }
  }

  lemma {:induction false} FloorStep(s: State, u: State, i: nat, m: Move, j: nat, floor: nat)
    requires Step(s, u, i, m) && j < |s.phases| && Waiting(s.phases[j], floor) && floor <= s.globalMin
    ensures j < |u.phases| && Waiting(u.phases[j], floor)
  {
  }

  // ----- where the condition is needed ----------------------------------------------------------

  /** A thread whose slot is not published yet draws version 7. The reader that gathers meanwhile
      returns 8, past the version that is still being worked on. */
  lemma {:induction false} FreshThreadIsOverlooked()
    ensures var s0 := State(7, [3, INACTIVE, 4], 3, true, [Resting, Resting, Resting]);
            var s1 := Act(s0, 1, Commit);
            var s2 := Act(Act(Act(s1, 0, Commit), 0, Commit), 0, Commit);
            var s3 := Act(Act(Act(s2, 2, Read), 2, Withdraw), 2, Read);
            var gathered := Act(Act(Act(Act(s3, 2, Read), 2, Read), 2, Read), 2, Read);
            var s4 := Act(Act(Act(gathered, 2, Read), 2, Read), 2, Read);
            && Inv(s0) && s4.phases[1] == Drew(7) && s4.phases[2] == Returned(8) && !Settled(s4, 8)
  {
    var s0 := State(7, [3, INACTIVE, 4], 3, true, [Resting, Resting, Resting]);
    var s1 := Act(s0, 1, Commit);
    assert s1 == State(8, [3, INACTIVE, 4], 3, true, [Resting, Drew(7), Resting]);
    var s2 := Act(Act(Act(s1, 0, Commit), 0, Commit), 0, Commit);
    assert s2 == State(9, [8, INACTIVE, 4], 3, true, [Resting, Drew(7), Resting]);
    var s3 := Act(Act(Act(s2, 2, Read), 2, Withdraw), 2, Read);
    assert s3 == State(9, [8, INACTIVE, INACTIVE], 3, true, [Resting, Drew(7), Asking(9)]);
    var a := Act(Act(s3, 2, Read), 2, Read);
    assert a == State(9, [8, INACTIVE, INACTIVE], 3, true, [Resting, Drew(7), Gathering(1, 8)]);
    var b := Act(Act(Act(a, 2, Read), 2, Read), 2, Read);
    assert b == State(9, [8, INACTIVE, INACTIVE], 3, true, [Resting, Drew(7), Gathered(8)]);
    var s4 := Act(Act(b, 2, Read), 2, Read);
    assert s4 == State(9, [8, INACTIVE, INACTIVE], 8, false, [Resting, Drew(7), Returned(8)]);
    assert s4.phases[1].Drew?;
  }
}
