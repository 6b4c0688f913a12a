/** Where the clock needs its condition: a draw is safe exactly when the thread that draws has a
    published slot. */
module ClockNeeds {
  import opened Clock

  /** A run of steady steps, from any state. */
  ghost predicate Path(states: seq<State>) {
    |states| > 0 && forall n :: 0 <= n < |states| - 1 ==> Stepped(states[n], states[n + 1])
  }

  ghost predicate Leads(states: seq<State>, s: State, u: State) {
    Path(states) && states[0] == s && states[|states| - 1] == u
  }

  /** Some steady continuation comes to return a version to a reader that thread `i`, which has just
      drawn, is still working on. */
  ghost predicate Overlooked(s: State, i: nat) {
    exists states, u, k: nat :: Leads(states, s, u) && PastWork(u, i, k)
  }

  ghost predicate PastWork(u: State, i: nat, k: nat) {
    && i < |u.phases| && k < |u.phases|
    && u.phases[i].Drew? && u.phases[k].Returned? && u.phases[i].version <= u.phases[k].version
  }

  lemma {:induction false} JoinPaths(a: seq<State>, b: seq<State>, s: State, m: State, u: State)
    requires Leads(a, s, m) && Leads(b, m, u)
    ensures Leads(a + b[1..], s, u)
  {
    var c := a + b[1..];
    forall n | 0 <= n < |c| - 1
      ensures Stepped(c[n], c[n + 1])
    {
      if n < |a| - 1 {
        assert Stepped(a[n], a[n + 1]);
      } else {
        assert Stepped(b[n - |a| + 1], b[n - |a| + 2]);
      }
    }
  }

  lemma {:induction false} OneStep(s: State, u: State, i: nat, m: Move) returns (states: seq<State>)
    requires Step(s, u, i, m)
    ensures Leads(states, s, u)
  {
    states := [s, u];
    assert Stepped(s, u);
  }

  lemma {:induction false} TwoSteps(s: State, i: nat, m: Move, n: Move) returns (states: seq<State>)
    requires i < |s.phases| == |s.slots| && Step(s, Act(s, i, m), i, m)
    requires Step(Act(s, i, m), Act(Act(s, i, m), i, n), i, n)
    ensures Leads(states, s, Act(Act(s, i, m), i, n))
  {
    var a := OneStep(s, Act(s, i, m), i, m);
    var b := OneStep(Act(s, i, m), Act(Act(s, i, m), i, n), i, n);
    JoinPaths(a, b, s, Act(s, i, m), Act(Act(s, i, m), i, n));
    states := a + b[1..];
  }

  /** Everybody but thread `i` rests. */
  ghost predicate Quiet(s: State, i: nat) {
    |s.phases| == |s.slots| && forall j :: 0 <= j < |s.phases| && j != i ==> s.phases[j] == Resting
  }

  /** A resting thread commits once: it draws, publishes, and reports. */
  lemma {:induction false} CommitOnce(s: State, j: nat) returns (states: seq<State>, u: State)
    requires j < |s.phases| == |s.slots| && s.phases[j] == Resting && Active(s, j) && s.time < INACTIVE
    ensures Leads(states, s, u)
    ensures u == s.(time := s.time + 1, slots := s.slots[j := s.time], dirty := true)
  {
    var a := Act(s, j, Commit);
    var b := Act(a, j, Commit);
    u := Act(b, j, Commit);
    var first := TwoSteps(s, j, Commit, Commit);
    var last := OneStep(b, u, j, Commit);
    JoinPaths(first, last, s, b, u);
    states := first + last[1..];
    assert u.phases == s.phases;
  }

  /** The slots before `upTo` are withdrawn, or hold versions past `v`. */
  ghost predicate Overtaken(s: State, i: nat, v: nat, upTo: nat) {
    forall j :: 0 <= j < upTo && j < |s.slots| && j != i && Active(s, j) ==> v < s.slots[j]
  }

  /** All other active threads commit, one after the other: their slots come to lie past `v`. */
  lemma {:induction false} CommitAll(s: State, i: nat, v: nat, upTo: nat) returns (states: seq<State>, u: State)
    requires Quiet(s, i) && v < s.time && s.time + |s.slots| < INACTIVE && upTo <= |s.slots|
    ensures Leads(states, s, u) && Quiet(u, i) && u.phases == s.phases && |u.slots| == |s.slots|
    ensures v < u.time <= s.time + upTo && Overtaken(u, i, v, upTo) && (i < |s.slots| ==> u.slots[i] == s.slots[i])
    ensures s.dirty ==> u.dirty
  {
    if upTo == 0 {
      states, u := [s], s;
    } else {
      var before, m := CommitAll(s, i, v, upTo - 1);
      if upTo - 1 != i && Active(m, upTo - 1) {
        var once, after := CommitOnce(m, upTo - 1);
        JoinPaths(before, once, s, m, after);
        states, u := before + once[1..], after;
      } else {
        states, u := before, m;
      }
    }
  }

  /** A reader that gathers while nobody else moves ends up past `v`. */
  lemma {:induction false} GatherRest(s: State, i: nat, k: nat, v: nat) returns (states: seq<State>, u: State)
    requires i < |s.phases| == |s.slots| && k < |s.phases| && k != i && s.phases[k].Gathering?
    requires s.phases[k].next <= |s.slots| && v < s.phases[k].min && v < INACTIVE
    requires Overtaken(s, i, v, |s.slots|) && !Active(s, i)
    ensures Leads(states, s, u) && u == s.(phases := u.phases) && |u.phases| == |s.phases|
    ensures u.phases[i] == s.phases[i] && u.phases[k].Gathered? && v < u.phases[k].min
    decreases |s.slots| - s.phases[k].next
  {
    var pos := s.phases[k].next;
    var m := Act(s, k, Read);
    var once := OneStep(s, m, k, Read);
    if pos == |s.slots| {
      states, u := once, m;
    } else {
      assert Active(s, pos) ==> v < s.slots[pos];
      var rest, after := GatherRest(m, i, k, v);
      JoinPaths(once, rest, s, m, after);
      states, u := once + rest[1..], after;
    }
  }

  /** A whole read, when the slots are marked dirty. */
  lemma {:induction false} ReadPast(s: State, i: nat, k: nat, v: nat) returns (states: seq<State>, u: State)
    requires i < |s.phases| == |s.slots| && k < |s.phases| && k != i && s.phases[k] == Resting && s.dirty
    requires v < s.time && v < INACTIVE && Overtaken(s, i, v, |s.slots|) && !Active(s, i)
    ensures Leads(states, s, u) && |u.phases| == |s.phases|
    ensures u.phases[i] == s.phases[i] && u.phases[k].Returned? && v < u.phases[k].version
  {
    var a := Act(Act(s, k, Read), k, Read);
    var first := TwoSteps(s, k, Read, Read);
    var b := Act(a, k, Read);
    var ask := OneStep(a, b, k, Read);
    JoinPaths(first, ask, s, a, b);
    var gather, g := GatherRest(b, i, k, v);
    JoinPaths(first + ask[1..], gather, s, b, g);
    var last := TwoSteps(g, k, Read, Read);
    u := Act(Act(g, k, Read), k, Read);
    JoinPaths(first + ask[1..] + gather[1..], last, s, g, u);
    states := first + ask[1..] + gather[1..] + last[1..];
  }

  /** The least of the time and of the first `k` slots. */
  ghost predicate IsLeast(least: nat, slots: seq<nat>, time: nat, k: nat)
    requires k <= |slots|
  {
    && (forall j :: 0 <= j < k ==> least <= slots[j]) && least <= time
    && (least == time || exists j :: 0 <= j < k && least == slots[j])
  }

  lemma {:induction false} GatherAlone(s: State, k: nat, time: nat) returns (states: seq<State>, least: nat)
    requires k < |s.phases| == |s.slots| && s.phases[k].Gathering? && s.phases[k].next <= |s.slots|
    requires IsLeast(s.phases[k].min, s.slots, time, s.phases[k].next)
    ensures Leads(states, s, Go(s, k, Gathered(least))) && IsLeast(least, s.slots, time, |s.slots|)
    decreases |s.slots| - s.phases[k].next
  {
    var m := Act(s, k, Read);
    var once := OneStep(s, m, k, Read);
    if s.phases[k].next == |s.slots| {
      states, least := once, s.phases[k].min;
    } else {
      var rest;
      rest, least := GatherAlone(m, k, time);
      assert Go(m, k, Gathered(least)) == Go(s, k, Gathered(least));
      JoinPaths(once, rest, s, m, Go(s, k, Gathered(least)));
      states := once + rest[1..];
    }
  }

  /** A read that nobody interrupts. If slots have changed since the last full read, it returns the least of
      the time and of all slots, or the minimum so far if that is more, and leaves it for those that come after;
      else it returns the minimum so far. */
  lemma {:induction false} ReadAlone(s: State, k: nat) returns (states: seq<State>, least: nat)
    requires k < |s.phases| == |s.slots| && s.phases[k] == Resting
    ensures IsLeast(least, s.slots, s.time, |s.slots|)
    ensures var r := if s.dirty then Max(s.globalMin, least) else s.globalMin;
            Leads(states, s, s.(globalMin := r, dirty := false, phases := s.phases[k := Returned(r)]))
  {
    var a := Act(Act(s, k, Read), k, Read);
    var first := TwoSteps(s, k, Read, Read);
    var b := Act(a, k, Read);
    if s.dirty {
      var ask := OneStep(a, b, k, Read);
      JoinPaths(first, ask, s, a, b);
      var gather;
      gather, least := GatherAlone(b, k, s.time);
      var g := Go(b, k, Gathered(least));
      JoinPaths(first + ask[1..], gather, s, b, g);
      var last := TwoSteps(g, k, Read, Read);
      var u := Act(Act(g, k, Read), k, Read);
      JoinPaths(first + ask[1..] + gather[1..], last, s, g, u);
      states := first + ask[1..] + gather[1..] + last[1..];
      assert u.phases == s.phases[k := Returned(u.globalMin)];
    } else {
      least := Least(s.slots, s.time, |s.slots|);
      var fast := TwoSteps(a, k, Read, Read);
      var u := Act(b, k, Read);
      JoinPaths(first, fast, s, a, u);
      states := first + fast[1..];
      assert u.phases == s.phases[k := Returned(s.globalMin)];
    }
  }

  lemma {:induction false} Least(slots: seq<nat>, time: nat, k: nat) returns (least: nat)
    requires k <= |slots|
    ensures IsLeast(least, slots, time, k)
  {
    if k == 0 {
      least := time;
    } else {
      least := Least(slots, time, k - 1);
      if slots[k - 1] < least { least := slots[k - 1]; }
    }
  }

  /** A thread leaves: its slot is withdrawn and the slots are marked dirty. */
  lemma {:induction false} LeaveOnce(s: State, k: nat) returns (states: seq<State>)
    requires k < |s.phases| == |s.slots| && s.phases[k] == Resting
    ensures Leads(states, s, s.(slots := s.slots[k := INACTIVE], dirty := true))
  {
    states := TwoSteps(s, k, Leave, Leave);
    assert Act(Act(s, k, Leave), k, Leave).phases == s.phases;
  }

  /** In a system at rest with another thread to read, drawing a version is safe, whatever steady
      steps follow, if and only if the slot of the thread that draws is published. */
  lemma {:induction false} DrawIsSafeExactly(s: State, i: nat, k: nat)
    requires Inv(s) && (forall j :: 0 <= j < |s.phases| ==> s.phases[j] == Resting)
    requires i < |s.phases| && k < |s.phases| && i != k && s.time + |s.slots| + 1 < INACTIVE
    ensures Overlooked(Act(s, i, Commit), i) <==> !Active(s, i)
  {
    if Active(s, i) {
      assert Step(s, Act(s, i, Commit), i, Commit);
      StepKeepsInv(s, Act(s, i, Commit), i, Commit);
      NeverOverlooked(Act(s, i, Commit), i);
    } else {
      var d := Act(s, i, Commit);
      var m := d.(slots := d.slots[k := INACTIVE], dirty := true);
      var leave := LeaveOnce(d, k);
      var commits, n := CommitAll(m, i, s.time, |s.slots|);
      JoinPaths(leave, commits, d, m, n);
      var scan, u := ReadPast(n, i, k, s.time);
      JoinPaths(leave + commits[1..], scan, d, n, u);
      assert PastWork(u, i, k);
    }
  }

  lemma {:induction false} NeverOverlooked(s: State, i: nat)
    requires Inv(s)
    ensures !Overlooked(s, i)
  {
    forall states, u, k: nat | Leads(states, s, u)
      ensures !PastWork(u, i, k)
    {
      PathKeepsInv(states, |states| - 1);
      assert k < |u.phases| ==> PhaseOk(u, k);
    }
  }

  lemma {:induction false} PathKeepsInv(states: seq<State>, n: nat)
    requires Path(states) && Inv(states[0]) && n < |states|
    ensures Inv(states[n])
  {
    if n > 0 {
      PathKeepsInv(states, n - 1);
      assert Stepped(states[n - 1], states[n - 1 + 1]);
      var i: nat, m: Move :| Step(states[n - 1], states[n], i, m);
      StepKeepsInv(states[n - 1], states[n], i, m);
    }
  }
}
