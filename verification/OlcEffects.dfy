/** What an operation of a thread of `Olc` does to what readers see, at every version and for every key. */
module OlcEffects {
  import opened History
  import opened Tree
  import opened MvIndex
  import opened Olc
  import opened OlcInv
  import opened OlcOnce
  import opened OlcOwned
  import opened OlcRuns

  /** An insert always takes effect; an update or delete does if the key has a record and the leaf in hand
      still covers the key. */
  ghost predicate TakesEffect(s: State, i: nat)
    requires i < |s.threads| && s.root < |s.blocks|
  {
    var t := s.threads[i];
    && t.pc.Drawn? && t.pc.cur.page < |s.blocks|
    && (t.job.Insert? || (InRange(s.blocks[t.pc.cur.page], t.job.key) && HasRecord(All(s), t.job.key)))
  }

  /** A chain that shows, at a version not before that of the job, that the job was done last: an insert or
      update shows its payload under its version, a delete shows nothing. */
  ghost predicate ShowsLast(log: seq<Op>, job: Job, v: Version, w: Version) {
    && log != [] && log[|log| - 1].version == v
    && match job
       case Insert(_, payload) => log[|log| - 1].Push? && Replay(log, w) == Some(Entry(v, payload))
       case Update(_, payload) => log[|log| - 1].Append? && Replay(log, w) == Some(Entry(v, payload))
       case Remove(_) => log[|log| - 1].Delete? && Replay(log, w) == None
  }

  /** The chain of the key ends below the version that the thread has drawn. */
  lemma {:induction false} DrawnIsNewest(s: State, i: nat)
    requires Inv(s) && i < |s.threads| && s.threads[i].pc.Drawn? && s.root < |s.blocks| && TakesEffect(s, i)
    ensures var t := s.threads[i];
            var log := LogOf(All(s), t.job.key);
            Increasing(log) && forall j :: 0 <= j < |log| ==> log[j].version < t.pc.version
  {
    var t := s.threads[i];
    var p := t.pc.cur.page;
    HoldsAtLeaf(s, i);
    assert ThreadOk(s, i, t);
    LeafShowsContents(s.c, s.blocks, s.root, p, t.job.key);
    hide Inv;
  }

  lemma {:induction false} OpIsJob(job: Job, v: Version, log: seq<Op>, w: Version)
    requires Increasing(log) && (forall j :: 0 <= j < |log| ==> log[j].version < v) && v <= w
    ensures ShowsLast(log + [OpOf(job, v)], job, v, w)
  {
    ReplayIsNewest(log + [OpOf(job, v)], w, |log|);
  }

  /** The events of the step are the job's, exactly if it takes effect. */
  lemma {:induction false} EventsOfJob(s: State, i: nat, ch: Choice) returns (events: seq<Event>)
    requires Inv(s) && i < |s.threads| && s.threads[i].pc.Drawn? && s.root < |s.blocks|
    ensures var u := Act(s, i, ch);
            && Inv(u) && u.root < |u.blocks| && u.applied == s.applied + events && All(u) == Replayed(All(s), events)
    ensures var t := s.threads[i];
            events == if TakesEffect(s, i) then [Event(t.job.key, OpOf(t.job, t.pc.version))] else []
  {
    ApplyRecords(s, i, ch);
    if !s.threads[i].job.Insert? { FindsExactly(s, i); }
    events := StepIsAtomic(s, i, ch);
    AllSorted(Act(s, i, ch));
    hide Act, Inv, All, Replayed;
  }

  /** In every run, the step that applies a job: if it takes effect, every version from that of the job on shows
      the job done for its key; every earlier version, and every other key, shows what it showed before. If it
      does not take effect, nothing changes. */
  lemma {:induction false} AppliedIsVisible(states: seq<State>, n: nat, i: nat, ch: Choice, key: Key, w: Version)
    requires Run(states) && n < |states| && i < |states[n].threads| && states[n].threads[i].pc.Drawn?
    ensures var s, u := states[n], Act(states[n], i, ch);
            && s.root < |s.blocks| && u.root < |u.blocks|
            && var t := s.threads[i];
               if TakesEffect(s, i) && key == t.job.key && t.pc.version <= w
               then ShowsLast(LogOf(All(u), key), t.job, t.pc.version, w)
               else Replay(LogOf(All(u), key), w) == Replay(LogOf(All(s), key), w)
    ensures var s, u := states[n], Act(states[n], i, ch);
            && (key != s.threads[i].job.key || !TakesEffect(s, i) ==> LogOf(All(u), key) == LogOf(All(s), key))
            && (HasRecord(All(u), key) <==>
                  HasRecord(All(s), key) || (key == s.threads[i].job.key && s.threads[i].job.Insert?))
  {
    var s := states[n];
    ReachableInv(states, n);
    AllSorted(s);
    hide Run;
    var events := EventsOfJob(s, i, ch);
    if TakesEffect(s, i) {
      DrawnIsNewest(s, i);
      hide Act, Inv, All, Replayed, TakesEffect, LogOf, HasRecord, ShowsLast, Replay;
      var t := s.threads[i];
      JobShows(All(s), t.job, t.pc.version, key, w);
    } else {
      assert All(Act(s, i, ch)) == All(s) && !s.threads[i].job.Insert?;
      hide *;
    }
  }

  /** A job that is written to the records, under a version beyond the chain of its key. */
  lemma {:induction false} JobShows(rs: seq<Record>, job: Job, v: Version, key: Key, w: Version)
    requires Sorted(rs) && Increasing(LogOf(rs, job.key))
    requires forall j :: 0 <= j < |LogOf(rs, job.key)| ==> LogOf(rs, job.key)[j].version < v
    requires job.Insert? || HasRecord(rs, job.key)
    ensures var us := Replayed(rs, [Event(job.key, OpOf(job, v))]);
            && (if key == job.key && v <= w then ShowsLast(LogOf(us, key), job, v, w)
                else Replay(LogOf(us, key), w) == Replay(LogOf(rs, key), w))
            && (key != job.key ==> LogOf(us, key) == LogOf(rs, key))
            && (HasRecord(us, key) <==> HasRecord(rs, key) || (key == job.key && job.Insert?))
  {
    var op := OpOf(job, v);
    assert [Event(job.key, op)][..0] == [];
    WrittenLog(rs, job.key, op, key);
    hide LogOf, HasRecord, Replay, Written;
    if key == job.key {
      var log := LogOf(rs, key);
      if v <= w { OpIsJob(job, v, log, w); } else { ReplayIgnoresLater(log, [op], w); }
    }
  }
}
