/** What becomes of an operation in a run of `Olc`: every insert takes effect exactly once; an update or
    delete takes effect exactly if the leaf it has pinned still covers its key. */
module OlcOnce {
  import opened History
  import opened Tree
  import opened MvIndex
  import opened Olc
  import opened OlcMoves
  import opened OlcRuns
  import opened OlcOwned

  // ----- updates and deletes --------------------------------------------------------------------

  /** An update or delete finds its record exactly if there is one and the leaf in hand still covers the
      key. */
  lemma {:induction false} FindsExactly(s: State, i: nat)
    requires Inv(s) && i < |s.threads| && s.threads[i].pc.Drawn? && !s.threads[i].job.Insert?
    ensures var p, key := s.threads[i].pc.cur.page, s.threads[i].job.key;
            && p < |s.blocks| && s.blocks[p].page.Leaf?
            && (HasRecord(s.blocks[p].page.records, key) <==> InRange(s.blocks[p], key) && HasRecord(All(s), key))
  {
    HoldsAtLeaf(s, i);
    var p, key := s.threads[i].pc.cur.page, s.threads[i].job.key;
    assert PageOk(s.c, s.blocks, p);
    RecordsInRange(s.blocks[p], s.blocks[p].page.records, LowerBound(Keys(s.blocks[p].page.records), key));
    if InRange(s.blocks[p], key) {
      LeafShowsContents(s.c, s.blocks, s.root, p, key);
    }
  }

  /** In every run: the step that applies an update or delete of a key affects a record if and only if the
      key has one and the pinned leaf covers it. If the word that was pinned is the word the descent had
      latched, it does cover it, and the operation affects a record if and only if the key has one. */
  lemma {:induction false} TakesEffectExactly(states: seq<State>, n: nat, i: nat, ch: Choice)
    requires Run(states) && n < |states| && i < |states[n].threads|
    requires states[n].threads[i].pc.Drawn? && !states[n].threads[i].job.Insert?
    ensures Inv(states[n]) && states[n].threads[i].pc.cur.page < |states[n].blocks|
    ensures var s := states[n];
            var t := s.threads[i];
            var u := Act(s, i, ch);
            && (u.applied == s.applied + [Event(t.job.key, OpOf(t.job, t.pc.version))] <==>
                  InRange(s.blocks[t.pc.cur.page], t.job.key) && HasRecord(All(s), t.job.key))
            && (u.applied == s.applied <==>
                  !InRange(s.blocks[t.pc.cur.page], t.job.key) || !HasRecord(All(s), t.job.key))
            && (t.pc.same ==> InRange(s.blocks[t.pc.cur.page], t.job.key))
  {
    hide Run;
    ReachableInv(states, n);
    var s := states[n];
    FindsExactly(s, i);
    HoldsAtLeaf(s, i);
    ApplyRecords(s, i, ch);
  }

  lemma {:induction false} ApplyRecords(s: State, i: nat, ch: Choice)
    requires Inv(s) && i < |s.threads| && s.threads[i].pc.Drawn?
    ensures var t := s.threads[i];
            var p := t.pc.cur.page;
            && p < |s.blocks| && s.blocks[p].page.Leaf?
            && Act(s, i, ch).applied == if Takes(t.job, s.blocks[p].page.records)
                                        then s.applied + [Event(t.job.key, OpOf(t.job, t.pc.version))] else s.applied
  {
    HoldsAtLeaf(s, i);
    assert InBounds(s, s.threads[i].pc);
    hide Inv, Written, Takes;
  }

  // ----- inserts --------------------------------------------------------------------------------

  ghost predicate BeforeClock(s: State) {
    forall k :: 0 <= k < |s.applied| ==> s.applied[k].op.version < s.clock
  }

  ghost predicate AllDiffer(events: seq<Event>) {
    forall k, l :: 0 <= k < l < |events| ==> events[k].op.version != events[l].op.version
  }

  ghost predicate IsNew(events: seq<Event>, v: Version) {
    forall k :: 0 <= k < |events| ==> events[k].op.version != v
  }

  /** A version drawn and not applied yet is in no event, and no other thread has drawn it. */
  ghost predicate DrawnIsNew(s: State, i: nat)
    requires i < |s.threads|
  {
    var pc := s.threads[i].pc;
    pc.Drawn? ==>
      && pc.version < s.clock && IsNew(s.applied, pc.version)
      && forall j :: 0 <= j < |s.threads| && j != i && s.threads[j].pc.Drawn? ==> s.threads[j].pc.version != pc.version
  }

  /** An insert that has been applied is among the events. */
  ghost predicate InsertRecorded(s: State, i: nat)
    requires i < |s.threads|
  {
    var t := s.threads[i];
    t.pc.Applied? && t.job.Insert? ==> Event(t.job.key, OpOf(t.job, t.pc.version)) in s.applied
  }

  ghost predicate Fresh(s: State) {
    && BeforeClock(s) && AllDiffer(s.applied)
    && (forall i :: 0 <= i < |s.threads| ==> DrawnIsNew(s, i))
    && (forall i :: 0 <= i < |s.threads| ==> InsertRecorded(s, i))
  }

  /** What a step does to versions and events: it draws the next version, or turns a drawn version into at
      most one event, or does neither. */
  ghost predicate Progress(s: State, u: State, i: nat) {
    && i < |s.threads| && OnlyMoves(s, u, i)
    && var t := s.threads[i];
       var v := u.threads[i];
       if t.pc.Drawn? then
         && u.clock == s.clock && v == t.(pc := Applied(t.pc.cur, t.pc.version))
         && (u.applied == s.applied + [Event(t.job.key, OpOf(t.job, t.pc.version))]
             || (!t.job.Insert? && u.applied == s.applied))
       else
         && u.applied == s.applied && s.clock <= u.clock && !v.pc.Applied?
         && (v.pc.Drawn? ==> u.clock == s.clock + 1 && v.pc.version == s.clock)
  }

  lemma {:induction false} StepProgresses(s: State, i: nat, ch: Choice)
    requires Inv(s) && i < |s.threads| && Clean(s, i)
    ensures Progress(s, Act(s, i, ch), i) || Act(s, i, ch) == s
  {
    TreeStepMoves(s, i, ch);
    if s.threads[i].pc.Drawn? {
      ApplyRecords(s, i, ch);
    } else {
      var events := StepIsAtomic(s, i, ch);
    }
    hide Inv, Act;
  }

  lemma {:induction false} ProgressKeepsFresh(s: State, u: State, i: nat)
    requires Fresh(s) && Progress(s, u, i)
    ensures Fresh(u)
  {
    assert DrawnIsNew(s, i);
    forall j | 0 <= j < |u.threads|
      ensures DrawnIsNew(u, j)
    {
      DrawnStaysNew(s, u, i, j);
    }
    forall j | 0 <= j < |u.threads|
      ensures InsertRecorded(u, j)
    {
      assert InsertRecorded(s, j);
    }
  }

  lemma {:induction false} DrawnStaysNew(s: State, u: State, i: nat, j: nat)
    requires Fresh(s) && Progress(s, u, i) && j < |u.threads|
    ensures DrawnIsNew(u, j)
  {
    assert DrawnIsNew(s, i) && DrawnIsNew(s, j);
    if u.threads[j].pc.Drawn? {
      forall k | 0 <= k < |u.threads| && k != j && u.threads[k].pc.Drawn?
        ensures u.threads[k].pc.version != u.threads[j].pc.version
      {
        assert DrawnIsNew(s, k);
      }
    }
  }

  lemma {:induction false} ReachableFresh(states: seq<State>, n: nat)
    requires Run(states) && n < |states|
    ensures Fresh(states[n])
  {
    hide Act, Inv, Progress;
    if n == 0 {
      StartsFresh(states[0]);
    } else {
      ReachableFresh(states, n - 1);
      ReachableInv(states, n - 1);
      var i, ch := StepOf(states, n - 1);
      StepProgresses(states[n - 1], i, ch);
      if states[n] != states[n - 1] { ProgressKeepsFresh(states[n - 1], states[n], i); }
    }
  }

  lemma {:induction false} StartsFresh(s: State)
    requires Initial(s)
    ensures Fresh(s)
  {
  }

  /** Events are only ever added at the end. */
  lemma {:induction false} EventsStay(states: seq<State>, n: nat, m: nat)
    requires Run(states) && n <= m < |states|
    ensures states[n].applied <= states[m].applied
  {
    hide Act, Inv, Initial;
    if n < m {
      EventsStay(states, n, m - 1);
      ReachableInv(states, m - 1);
      var i, ch := StepOf(states, m - 1);
      var events := StepIsAtomic(states[m - 1], i, ch);
    }
  }

  /** Once an insert is applied, its event is in the history exactly once, then and for good. */
  lemma {:induction false} EveryInsertCountsOnce(states: seq<State>, n: nat, m: nat, i: nat)
    requires Run(states) && n <= m < |states| && i < |states[n].threads|
    requires states[n].threads[i].pc.Applied? && states[n].threads[i].job.Insert?
    ensures var t := states[n].threads[i];
            multiset(states[m].applied)[Event(t.job.key, OpOf(t.job, t.pc.version))] == 1
  {
    var t := states[n].threads[i];
    var e := Event(t.job.key, OpOf(t.job, t.pc.version));
    ReachableFresh(states, n);
    assert InsertRecorded(states[n], i);
    ReachableFresh(states, m);
    EventsStay(states, n, m);
    hide Run;
    var k :| 0 <= k < |states[n].applied| && states[n].applied[k] == e;
    assert states[m].applied[k] == e;
    DifferentCountOnce(states[m].applied, k);
  }

  lemma {:induction false} DifferentCountOnce(events: seq<Event>, k: nat)
    requires AllDiffer(events) && k < |events|
    ensures multiset(events)[events[k]] == 1
  {
    var before, after := events[..k], events[k + 1..];
    assert events == before + [events[k]] + after;
    assert events[k] !in before && events[k] !in after;
  }

  // ----- every operation ------------------------------------------------------------------------

  /** In every run, whatever is aborted and tried again: between taking up a job and coming to rest, a thread
      applies the job in one step; before that step the job is pending, and after it there is nothing left but
      to end the commit and to unlatch. */
  lemma {:induction false} AppliesBeforeRest(states: seq<State>, a: nat, b: nat, i: nat) returns (m: nat, ch: Choice)
    requires Run(states) && a < b < |states| && i < |states[a].threads| && Pending(states[a].threads[i].pc)
    requires Rests(states[b], i) && forall k :: a <= k < b ==> !Rests(states[k], i)
    ensures a <= m < b && InState(states[m], i, states[a].threads[i].job, false)
    ensures states[m].threads[i].pc.Drawn? && states[m + 1] == Act(states[m], i, ch)
    ensures forall k :: a <= k <= m ==> InState(states[k], i, states[a].threads[i].job, false)
    ensures forall k :: m < k < b ==> InState(states[k], i, states[a].threads[i].job, true)
  {
    hide Act, Inv, Initial, Clean;
    var job := states[a].threads[i].job;
    m := a;
    while m + 1 < b && InState(states[m + 1], i, job, false)
      invariant a <= m < b && forall k :: a <= k <= m ==> InState(states[k], i, job, false)
    {
      m := m + 1;
    }
    ch := AppliesNow(states, m, i, job);
    StaysDone(states, m + 1, b, i, job);
  }

  ghost predicate Rests(s: State, i: nat) {
    i < |s.threads| && s.threads[i].pc.Idle?
  }

  ghost predicate InState(s: State, i: nat, job: Job, done: bool) {
    i < |s.threads| && s.threads[i].job == job && if done then Done(s.threads[i].pc) else Pending(s.threads[i].pc)
  }

  /** A pending job that is no longer pending after a step has been applied in that step. */
  lemma {:induction false} AppliesNow(states: seq<State>, n: nat, i: nat, job: Job) returns (ch: Choice)
    requires Run(states) && n + 1 < |states| && InState(states[n], i, job, false)
    requires !InState(states[n + 1], i, job, false)
    ensures states[n].threads[i].pc.Drawn? && states[n + 1] == Act(states[n], i, ch)
    ensures InState(states[n + 1], i, job, true)
  {
    hide Act, Inv, Initial, Clean;
    ReachableInv(states, n);
    var j;
    j, ch := StepOf(states, n);
    TreeStepMoves(states[n], j, ch);
  }

  lemma {:induction false} StaysDone(states: seq<State>, n: nat, b: nat, i: nat, job: Job)
    requires Run(states) && n <= b < |states| && InState(states[n], i, job, true)
    requires forall k :: n <= k < b ==> !Rests(states[k], i)
    ensures forall k :: n <= k < b ==> InState(states[k], i, job, true)
  {
    hide Act, Inv, Initial, Clean;
    if n + 1 < b {
      StaysDone(states, n, b - 1, i, job);
      ReachableInv(states, b - 2);
      var j, ch := StepOf(states, b - 2);
      TreeStepMoves(states[b - 2], j, ch);
      assert InState(states[b - 2], i, job, true) && !Rests(states[b - 1], i);
    }
  }

  lemma {:induction false} EventOfStep(s: State, i: nat, ch: Choice, k: nat)
    requires Inv(s) && i < |s.threads| && Clean(s, i) && k < |Act(s, i, ch).applied|
    ensures k < |s.applied| ==> Act(s, i, ch).applied[k] == s.applied[k]
    ensures k >= |s.applied| ==>
      && s.threads[i].pc.Drawn?
      && Act(s, i, ch).applied[k] == Event(s.threads[i].job.key, OpOf(s.threads[i].job, s.threads[i].pc.version))
  {
    hide Act, Inv, Clean, Replayed, All;
    var events := StepIsAtomic(s, i, ch);
  }

  /** Nothing else is in the history: every event was applied by a thread that had drawn its version. */
  lemma {:induction false} EventsComeFromThreads(states: seq<State>, n: nat, k: nat) returns (m: nat, i: nat)
    requires Run(states) && n < |states| && k < |states[n].applied|
    ensures m < n && i < |states[m].threads| && states[m].threads[i].pc.Drawn?
    ensures states[n].applied[k] == Event(states[m].threads[i].job.key,
                                          OpOf(states[m].threads[i].job, states[m].threads[i].pc.version))
  {
    m, i := 0, 0;
    assert states[0].applied == [];
    hide Act, Inv, Initial, Clean, Replayed, All;
    if n > 0 {
      ReachableInv(states, n - 1);
      var j, ch := StepOf(states, n - 1);
      EventOfStep(states[n - 1], j, ch, k);
      if k < |states[n - 1].applied| {
        m, i := EventsComeFromThreads(states, n - 1, k);
      } else {
        m, i := n - 1, j;
      }
    }
  }
}
