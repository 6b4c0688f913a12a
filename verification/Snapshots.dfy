/** The index and the commit clock together: writers latch, draw, apply and publish as in `Olc`, readers
    take snapshot versions as in `Clock`. What a snapshot shows never changes. */
module Snapshots {
  import opened History
  import opened Tree
  import opened MvIndex
  import OlcOwned
  import opened OlcMoves
  import opened OlcOnce
  import opened OlcRuns
  import Olc
  import Clock

  datatype State = State(tree: Olc.State, clock: Clock.State)

  /** The two halves of the state speak of the same threads, and of the same counter. */
  ghost predicate Linked(s: State) {
    && |s.tree.threads| == |s.clock.phases| == |s.clock.slots|
    && s.tree.clock == s.clock.time
    && forall i :: 0 <= i < |s.tree.threads| ==> InStep(s, i)
  }

  ghost predicate InStep(s: State, i: nat)
    requires i < |s.tree.threads| && i < |s.clock.phases|
  {
    var pc := s.tree.threads[i].pc;
    && (Working(pc) <==> s.clock.phases[i].Drew?)
    && (Working(pc) ==> s.clock.phases[i] == Clock.Drew(pc.version))
  }

  /** A thread works on the tree, or reads the clock, or does what belongs to both: it draws a version
      once its leaf is latched, and publishes the version once it is applied. */
  ghost predicate Step(s: State, u: State, i: nat, ch: Olc.Choice, m: Clock.Move) {
    && i < |s.tree.threads| && i < |s.clock.phases| == |s.clock.slots|
    && var pc := s.tree.threads[i].pc;
       if pc.Latched? && s.clock.phases[i].Resting? then
         && s.tree.clock <= MAX_U64
         && Olc.StepBy(s.tree, u.tree, i, ch) && Clock.Step(s.clock, u.clock, i, Clock.Commit)
       else if pc.Applied? then
         Olc.StepBy(s.tree, u.tree, i, ch) && Clock.Step(s.clock, u.clock, i, m)
       else
         || (u.clock == s.clock && !pc.Latched? && (s.clock.phases[i].Resting? || pc.Drawn?)
             && Olc.StepBy(s.tree, u.tree, i, ch))
         || (u.tree == s.tree && !pc.Drawn? && (pc.Idle? || !s.clock.phases[i].Resting?) && !m.Commit?
             && Clock.Step(s.clock, u.clock, i, m))
  }

  ghost predicate Stepped(s: State, u: State) {
    exists i: nat, ch: Olc.Choice, m: Clock.Move :: Step(s, u, i, ch, m)
  }

  ghost predicate Initial(s: State) {
    Olc.Initial(s.tree) && Clock.Initial(s.clock) && Linked(s)
  }

  ghost predicate Run(states: seq<State>) {
    |states| > 0 && Initial(states[0]) && forall n :: 0 <= n < |states| - 1 ==> Stepped(states[n], states[n + 1])
  }

  ghost predicate BothOk(s: State) {
    OlcOwned.Inv(s.tree) && Clock.Inv(s.clock) && Linked(s)
  }

  /** The move of the clock in a step of both. */
  ghost function MoveOf(s: State, i: nat, m: Clock.Move): Clock.Move
    requires i < |s.tree.threads| && i < |s.clock.phases|
  {
    if s.tree.threads[i].pc.Latched? && s.clock.phases[i].Resting? then Clock.Commit else m
  }

  /** What a step does to the counter and to the thread's work on a version, on both sides. */
  ghost predicate Agree(s: State, u: State, i: nat) {
    && |u.tree.threads| == |s.tree.threads| && |u.clock.phases| == |u.clock.slots| == |s.clock.phases|
    && u.tree.clock == u.clock.time
    && i < |u.tree.threads| && i < |u.clock.phases| && InStep(u, i)
    && (forall j :: 0 <= j < |s.tree.threads| && j != i ==> u.tree.threads[j] == s.tree.threads[j])
    && (forall j :: 0 <= j < |s.clock.phases| && j != i ==> u.clock.phases[j] == s.clock.phases[j])
  }

  lemma {:induction false} StepAgrees(s: State, u: State, i: nat, ch: Olc.Choice, m: Clock.Move)
    requires BothOk(s) && Step(s, u, i, ch, m)
    ensures Agree(s, u, i)
  {
    TreeStepMoves(s.tree, i, ch);
    assert InStep(s, i);
    hide OlcOwned.Inv, Clock.Inv, Olc.Act, Clock.Active;
    if u.clock != s.clock { ClockStepMoves(s.clock, u.clock, i, MoveOf(s, i, m)); }
    hide Clock.Step;
  }

  lemma {:induction false} ClockStepMoves(s: Clock.State, u: Clock.State, i: nat, m: Clock.Move)
    requires Clock.Step(s, u, i, m)
    ensures i < |s.phases| && |u.phases| == |u.slots| == |s.phases|
    ensures forall j :: 0 <= j < |s.phases| && j != i ==> u.phases[j] == s.phases[j]
    ensures if s.phases[i].Resting? && m.Commit? then u.time == s.time + 1 && u.phases[i] == Clock.Drew(s.time)
            else u.time == s.time && !u.phases[i].Drew?
  {
  }

  lemma {:induction false} AgreeLinks(s: State, u: State, i: nat)
    requires Linked(s) && Agree(s, u, i)
    ensures Linked(u)
  {
    forall j | 0 <= j < |u.tree.threads|
      ensures InStep(u, j)
    {
      assert InStep(s, j);
    }
  }

  lemma {:induction false} StepKeepsBoth(s: State, u: State, i: nat, ch: Olc.Choice, m: Clock.Move)
    requires BothOk(s) && Step(s, u, i, ch, m)
    ensures BothOk(u)
  {
    StepAgrees(s, u, i, ch, m);
    hide OlcOwned.Inv, Clock.Inv, Olc.Act, Clock.Act, Agree;
    AgreeLinks(s, u, i);
    if u.tree != s.tree { OlcOwned.ActKeepsInv(s.tree, i, ch); }
    if u.clock != s.clock {
      Clock.StepKeepsInv(s.clock, u.clock, i, MoveOf(s, i, m));
    }
  }

  /** Nothing is held back: every step of a thread of the tree is part of a step of both, provided that the
      thread is not in the middle of a read, and that its slot is published when it draws a version. */
  lemma {:induction false} TreeStepsHere(s: State, i: nat, ch: Olc.Choice) returns (u: State)
    requires BothOk(s) && i < |s.tree.threads| && Olc.Clean(s.tree, i)
    requires s.clock.phases[i].Resting? || s.tree.threads[i].pc.Drawn? || s.tree.threads[i].pc.Applied?
    requires s.tree.threads[i].pc.Latched? ==> Clock.Active(s.clock, i) && s.tree.clock < MAX_U64
    ensures u.tree == Olc.Act(s.tree, i, ch) && Step(s, u, i, ch, Clock.Read)
  {
    assert InStep(s, i);
    var pc := s.tree.threads[i].pc;
    hide OlcOwned.Inv, Clock.Inv, Olc.Act, Olc.Clean, Clock.Active;
    var m := if pc.Latched? then Clock.Commit else Clock.Read;
    u := State(Olc.Act(s.tree, i, ch), if pc.Latched? || pc.Applied? then Clock.Act(s.clock, i, m) else s.clock);
  }

  /** And so is every step of a reader, a publisher or a leaver. */
  lemma {:induction false} ClockStepsHere(s: State, i: nat, ch: Olc.Choice, m: Clock.Move) returns (u: State)
    requires BothOk(s) && i < |s.tree.threads| && !m.Commit?
    requires s.tree.threads[i].pc.Idle? || !s.clock.phases[i].Resting?
    requires !s.tree.threads[i].pc.Drawn? && !s.tree.threads[i].pc.Applied?
    ensures u == s.(clock := Clock.Act(s.clock, i, m)) && Step(s, u, i, ch, m)
  {
    u := s.(clock := Clock.Act(s.clock, i, m));
    hide OlcOwned.Inv, Clock.Inv, Olc.Act, Clock.Act, Clock.Active;
  }

  /** An operation that reaches its chain has a version beyond every settled one. */
  lemma {:induction false} StepRespectsSettled(s: State, u: State, i: nat, ch: Olc.Choice, m: Clock.Move,
      r: Version, key: Key)
    requires BothOk(s) && Step(s, u, i, ch, m) && Clock.Settled(s.clock, r)
    ensures Clock.Settled(u.clock, r) && BothOk(u)
    ensures HasRoot(s) && HasRoot(u)
    ensures Replay(LogOf(All(u.tree), key), r) == Replay(LogOf(All(s.tree), key), r)
  {
    StepKeepsBoth(s, u, i, ch, m);
    assert InStep(s, i);
    if u.clock != s.clock {
      Clock.SettledStays(s.clock, u.clock, i, MoveOf(s, i, m), r);
    }
    if u.tree != s.tree {
      hide Olc.Act, OlcOwned.Inv;
      var events := StepIsAtomic(s.tree, i, ch);
      hide Clock.Inv, All;
      if events != [] {
        OneMore(s.tree, u.tree, events[0], key, r);
      }
    }
  }

  lemma {:induction false} OneMore(s: Olc.State, u: Olc.State, e: Event, key: Key, r: Version)
    requires OlcOwned.Inv(s) && OlcOwned.Inv(u) && r < e.op.version
    requires All(u) == Replayed(All(s), [e])
    ensures Replay(LogOf(All(u), key), r) == Replay(LogOf(All(s), key), r)
  {
    AllSorted(s);
    assert [e][..0] == [];
    var rs := All(s);
    hide OlcOwned.Inv, All;
    WrittenLog(rs, e.key, e.op, key);
    ReplayIgnoresLater(LogOf(rs, key), [e.op], r);
  }

  ghost predicate HasRoot(s: State) {
    s.tree.root < |s.tree.blocks|
  }

  lemma {:induction false} InitialBoth(s: State)
    requires Initial(s)
    ensures BothOk(s)
  {
    OlcOwned.InitialInv(s.tree);
    hide Olc.Initial, OlcOwned.Inv;
    Clock.ReachableInv([s.clock], 0);
  }

  lemma {:induction false} StepOf(states: seq<State>, n: nat) returns (i: nat, ch: Olc.Choice, m: Clock.Move)
    requires Run(states) && n + 1 < |states|
    ensures Step(states[n], states[n + 1], i, ch, m)
  {
    hide Step, Initial;
    assert Stepped(states[n], states[n + 1]);
    i, ch, m :| Step(states[n], states[n + 1], i, ch, m);
  }

  lemma {:induction false} ReachableBoth(states: seq<State>, n: nat)
    requires Run(states) && n < |states|
    ensures BothOk(states[n]) && HasRoot(states[n])
  {
    hide BothOk, HasRoot, Initial, Step, Stepped;
    if n == 0 {
      InitialBoth(states[0]);
    } else {
      ReachableBoth(states, n - 1);
      var i, ch, m := StepOf(states, n - 1);
      hide Run;
      StepKeepsBoth(states[n - 1], states[n], i, ch, m);
    }
    RootThere(states[n]);
  }

  lemma {:induction false} RootThere(s: State)
    requires BothOk(s)
    ensures HasRoot(s)
  {
  }

  lemma {:induction false} SettledViewStays(states: seq<State>, n: nat, later: nat, r: Version, key: Key)
    requires Run(states) && n <= later < |states| && Clock.Settled(states[n].clock, r)
    ensures BothOk(states[n]) && BothOk(states[later]) && Clock.Settled(states[later].clock, r)
    ensures HasRoot(states[n]) && HasRoot(states[later])
    ensures Replay(LogOf(All(states[later].tree), key), r) == Replay(LogOf(All(states[n].tree), key), r)
  {
    hide BothOk, Step, Stepped, Initial, Run, All, LogOf, Clock.Settled;
    ReachableBoth(states, n);
    if n < later {
      SettledViewStays(states, n, later - 1, r, key);
      var i, ch, m := StepOf(states, later - 1);
      StepRespectsSettled(states[later - 1], states[later], i, ch, m, r, key);
    }
  }

  // ----- what a snapshot shows --------------------------------------------------------------

  /** The chain of a key is what it held at first, and what has been applied to the key since. */
  lemma {:induction false} ChainIsHistory(states: seq<State>, n: nat, key: Key)
    requires Run(states) && n < |states|
    ensures HasRoot(states[0]) && HasRoot(states[n])
    ensures LogOf(All(states[n].tree), key)
         == LogOf(All(states[0].tree), key) + OpsOn(states[n].tree.applied, key)
  {
    hide BothOk, Step, Stepped, All, LogOf;
    ReachableBoth(states, 0);
    ReachableBoth(states, n);
    if n == 0 {
      assert states[0].tree.applied == [];
    } else {
      ChainIsHistory(states, n - 1, key);
      ReachableBoth(states, n - 1);
      var i, ch, m := StepOf(states, n - 1);
      hide Run, Initial;
      StepGrows(states[n - 1], states[n], i, ch, m, key, LogOf(All(states[0].tree), key));
    }
  }

  lemma {:induction false} StepGrows(s: State, u: State, i: nat, ch: Olc.Choice, m: Clock.Move, key: Key,
      before: seq<Op>)
    requires BothOk(s) && HasRoot(s) && HasRoot(u) && Step(s, u, i, ch, m)
    requires LogOf(All(s.tree), key) == before + OpsOn(s.tree.applied, key)
    ensures LogOf(All(u.tree), key) == before + OpsOn(u.tree.applied, key)
  {
    hide OlcOwned.Inv, Clock.Inv, Clock.Step, Olc.Act, All, LogOf;
    if u.tree != s.tree { StepGrowsChain(s.tree, i, ch, key, before); }
  }

  /** Thread `j` has drawn the version for its insert, and is about to apply it. */
  ghost predicate Holds(s: State, j: nat, e: Event) {
    && j < |s.tree.threads| && s.tree.threads[j].job.Insert?
    && s.tree.threads[j].pc.Drawn? && e == Event(s.tree.threads[j].job.key,
                                                 Olc.OpOf(s.tree.threads[j].job, s.tree.threads[j].pc.version))
  }

  ghost predicate HoldsUpTo(s: State, j: nat, e: Event, r: nat) {
    Holds(s, j, e) && e.op.version <= r
  }

  /** An insert that has drawn its version is still about to be applied, or among the events. */
  lemma {:induction false} InsertGoesOn(states: seq<State>, m: nat, n: nat, j: nat, e: Event)
    requires Run(states) && m <= n < |states| && Holds(states[m], j, e)
    ensures Holds(states[n], j, e) || e in states[n].tree.applied
  {
    hide BothOk, Step, Stepped, Initial;
    if m < n {
      InsertGoesOn(states, m, n - 1, j, e);
      ReachableBoth(states, n - 1);
      var i, ch, mv := StepOf(states, n - 1);
      hide Run;
      InsertMoves(states[n - 1], states[n], i, ch, mv, j, e);
    }
  }

  lemma {:induction false} InsertMoves(s: State, u: State, i: nat, ch: Olc.Choice, m: Clock.Move, j: nat, e: Event)
    requires BothOk(s) && Step(s, u, i, ch, m)
    ensures Holds(s, j, e) ==> Holds(u, j, e) || e in u.tree.applied
    ensures s.tree.applied <= u.tree.applied
  {
    hide OlcOwned.Inv, Clock.Inv, Clock.Step, Olc.Act;
    if u.tree != s.tree {
      StepProgresses(s.tree, i, ch);
    }
  }

  /** Whatever is settled has been applied: an insert under a settled version is among the events. */
  lemma {:induction false} SettledIsApplied(states: seq<State>, m: nat, n: nat, j: nat, e: Event, r: Version)
    requires Run(states) && m < |states| && n < |states| && Holds(states[m], j, e) && e.op.version <= r
    requires Clock.Settled(states[n].clock, r)
    ensures e in states[n].tree.applied
  {
    ReachableBoth(states, m);
    ReachableBoth(states, n);
    hide Initial, Step, Stepped;
    hide BothOk, Clock.Settled, Run;
    if m <= n {
      InsertGoesOn(states, m, n, j, e);
      NobodyHoldsSettled(states[n], j, e, r);
    } else {
      SettledViewStays(states, n, m, r, 0);
      NobodyHoldsSettled(states[m], j, e, r);
    }
  }

  lemma {:induction false} NobodyHoldsSettled(s: State, j: nat, e: Event, r: Version)
    requires BothOk(s) && Clock.Settled(s.clock, r) && e.op.version <= r
    ensures !Holds(s, j, e)
  {
    if j < |s.tree.threads| { assert InStep(s, j); }
    hide OlcOwned.Inv, Clock.Inv;
  }

  /** Snapshot isolation: a version that a reader has obtained shows, for every key and ever after, what had
      been applied to the key by then, on top of what the tree held at first; whatever the writers do, and
      wherever splits move the records. Every insert that ever draws a version up to it had been applied. */
  lemma {:induction false} SnapshotsStandStill(states: seq<State>, n: nat, later: nat, i: nat, key: Key)
    requires Run(states) && n <= later < |states|
    requires i < |states[n].clock.phases| && states[n].clock.phases[i].Returned?
    requires states[n].clock.phases[i].version <= MAX_U64
    ensures HasRoot(states[0]) && HasRoot(states[n]) && HasRoot(states[later])
    ensures var r: Version := states[n].clock.phases[i].version;
            && Replay(LogOf(All(states[later].tree), key), r) == Replay(LogOf(All(states[n].tree), key), r)
            && Replay(LogOf(All(states[later].tree), key), r)
               == Replay(LogOf(All(states[0].tree), key) + OpsOn(states[n].tree.applied, key), r)
    ensures forall m, j, e :: 0 <= m < |states| && HoldsUpTo(states[m], j, e, states[n].clock.phases[i].version) ==>
              e in states[n].tree.applied
  {
    ReachableBoth(states, n);
    assert Clock.PhaseOk(states[n].clock, i);
    var r: Version := states[n].clock.phases[i].version;
    SettledViewStays(states, n, later, r, key);
    ChainIsHistory(states, n, key);
    hide Run, Initial, BothOk, All, LogOf, Clock.PhaseOk, Clock.Settled, Holds;
    forall m, j: nat, e | 0 <= m < |states| && HoldsUpTo(states[m], j, e, r)
      ensures e in states[n].tree.applied
    {
      SettledIsApplied(states, m, n, j, e, r);
    }
  }
}
