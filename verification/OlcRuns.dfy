/** What holds in every run of the machine in `Olc`, however its threads interleave. */
module OlcRuns {
  import opened History
  import opened Tree
  import opened InOrder
  import opened Latch
  import opened MvIndex
  import opened Olc
  import opened OlcInv
  import opened OlcOthers
  import opened OlcOwned

  // ----- the leaf a writer holds ----------------------------------------------------------------

  ghost predicate InsertHolds(t: Thread, p: PageId) {
    t.job.Insert? && (t.pc.Latched? || t.pc.Drawn?) && t.pc.cur.page == p
  }

  ghost predicate HoldsWord(t: Thread, p: PageId) {
    Standing(t.pc).Some? && Standing(t.pc).value.page == p && Standing(t.pc).value.mode != Read
  }

  /** The leaf that an insert ends up with is write-latched by that thread alone, it is the leaf that
      covers the key, and it has room for the record. */
  lemma {:induction false} InsertHoldsTheRightLeaf(states: seq<State>, n: nat, i: nat, p: PageId)
    requires Run(states) && n < |states| && i < |states[n].threads| && InsertHolds(states[n].threads[i], p)
    ensures var s := states[n];
            var key := s.threads[i].job.key;
            && TreeOk(s.c, s.blocks, s.root) && InRange(s.blocks[s.root], key)
            && p == LeafFor(s.c, s.blocks, s.root, s.root, key)
            && |s.blocks[p].page.records| < s.c.numRecords
            && p < |s.latches| && s.latches[p] == Locked(s.threads[i].pc.cur.latch, i)
            && forall j :: 0 <= j < |s.threads| && j != i ==> !HoldsWord(s.threads[j], p) && !Trusts(s, s.threads[j], p)
  {
    hide Run, ThreadOk;
    ReachableInv(states, n);
    var s := states[n];
    var t := s.threads[i];
    HoldsAtLeaf(s, i);
    CoveringLeafIsUnique(s.c, s.blocks, s.root, p, t.job.key);
    forall j | 0 <= j < |s.threads| && j != i
      ensures !HoldsWord(s.threads[j], p) && !Trusts(s, s.threads[j], p)
    {
      NobodyElse(s, i, j, p);
    }
  }

  lemma {:induction false} HoldsAtLeaf(s: State, i: nat)
    requires Inv(s) && i < |s.threads| && (s.threads[i].pc.Latched? || s.threads[i].pc.Drawn?)
    ensures Holds(s, i, s.threads[i], s.threads[i].pc.cur, s.threads[i].pc.same)
  {
    hide Shared, Holds;
    assert ThreadOk(s, i, s.threads[i]);
  }

  lemma {:induction false} NobodyElse(s: State, i: nat, j: nat, p: PageId)
    requires Inv(s) && i < |s.threads| && j < |s.threads| && i != j
    requires p < |s.latches| && s.latches[p].Locked? && s.latches[p].owner == i
    ensures !HoldsWord(s.threads[j], p) && !Trusts(s, s.threads[j], p)
  {
    assert ThreadOk(s, j, s.threads[j]);
    GuardsAgree(s, j, s.threads[j]);
    hide Inv, ThreadOk;
  }

  /** In every interleaving the tree stays a tree, no thread reaches the underflow correction or reads
      past a page, and no thread splits a child into a full parent: a split step is never repeated. */
  lemma {:induction false} EveryInterleavingKeepsTheTree(states: seq<State>, n: nat)
    requires Run(states) && n < |states|
    ensures var s := states[n];
            && TreeOk(s.c, s.blocks, s.root)
            && forall i :: 0 <= i < |s.threads| ==>
                 var pc := s.threads[i].pc;
                 && !pc.Underflow? && !pc.Broken?
                 && (pc.Mark? || pc.Correct? ==>
                       && !Full(s, pc.cur.page) && Full(s, pc.next.page)
                       && !HasUnderflow(s.c, s.blocks[pc.next.page].page))
  {
    hide Run;
    ReachableInv(states, n);
    var s := states[n];
    forall i | 0 <= i < |s.threads|
      ensures var pc := s.threads[i].pc;
              && !pc.Underflow? && !pc.Broken?
              && (pc.Mark? || pc.Correct? ==>
                    !Full(s, pc.cur.page) && Full(s, pc.next.page) && !HasUnderflow(s.c, s.blocks[pc.next.page].page))
    {
      assert ThreadOk(s, i, s.threads[i]);
    }
  }

  // ----- every operation takes effect at one step -----------------------------------------------

  /** The events applied, in order, to a sorted sequence of records. */
  ghost function Written1(rs: seq<Record>, e: Event): seq<Record> {
    Written(rs, e.key, e.op)
  }

  ghost function Replayed(rs: seq<Record>, events: seq<Event>): seq<Record> {
    if events == [] then rs
    else Written1(Replayed(rs, events[..|events| - 1]), events[|events| - 1])
  }

  ghost function All(s: State): seq<Record>
    requires s.root < |s.blocks|
  {
    Contents(s.blocks, s.root)
  }

  /** The event with which the step of thread `i` extends the history, if it does. */
  ghost predicate Extends(s: State, u: State, events: seq<Event>) {
    u.applied == s.applied + events && |events| <= 1
  }

  /** Whatever a step does to the pages, the sequence of all records changes only by the operation, and
      only in the one step that applies it. Splits leave it alone. */
  lemma {:induction false} StepIsAtomic(s: State, i: nat, ch: Choice) returns (events: seq<Event>)
    requires Inv(s) && i < |s.threads| && Clean(s, i)
    ensures var u := Act(s, i, ch);
            && Inv(u) && Extends(s, u, events)
            && All(u) == Replayed(All(s), events)
    ensures events != [] ==>
      s.threads[i].pc.Drawn? && events == [Event(s.threads[i].job.key, OpOf(s.threads[i].job, s.threads[i].pc.version))]
      && (events[0].op.Push? || HasRecord(All(s), events[0].key))
  {
    var u := Act(s, i, ch);
    ActKeepsInv(s, i, ch);
    var t := s.threads[i];
    if t.pc.Drawn? {
      events := ApplyIsWrite(s, i, ch);
    } else {
      events := [];
      if t.pc.RootSplit? {
        RootSplitKeeps(s, i, ch);
      } else if t.pc.Correct? {
        ChildSplitKeeps(s, i, ch);
      } else {
        OtherStepsKeep(s, i, ch);
      }
    }
  }

  lemma {:induction false} OtherStepsKeep(s: State, i: nat, ch: Choice)
    requires Inv(s) && i < |s.threads|
    requires var pc := s.threads[i].pc; !pc.Drawn? && !pc.RootSplit? && !pc.Correct?
    ensures var u := Act(s, i, ch); u.blocks == s.blocks && u.root == s.root && u.applied == s.applied
  {
    hide Inv;
  }

  lemma {:induction false} RootSplitKeeps(s: State, i: nat, ch: Choice)
    requires Inv(s) && i < |s.threads| && s.threads[i].pc.RootSplit?
    ensures var u := Act(s, i, ch);
            u.root < |u.blocks| && All(u) == All(s) && u.applied == s.applied
  {
    assert ThreadOk(s, i, s.threads[i]);
    if s.blocks[s.root].page.Index? {
      SplitIndexRootKeepsTree(s.c, s.blocks, s.root);
      SplitIndexRootKeepsContents(s.c, s.blocks, s.root);
    } else {
      SplitLeafRootKeepsTree(s.c, s.blocks, s.root);
      SplitLeafRootKeepsContents(s.c, s.blocks, s.root);
    }
    hide TreeOk;
  }

  lemma {:induction false} ChildSplitKeeps(s: State, i: nat, ch: Choice)
    requires Inv(s) && i < |s.threads| && s.threads[i].pc.Correct?
    ensures var u := Act(s, i, ch);
            u.root == s.root && u.root < |u.blocks| && All(u) == All(s) && u.applied == s.applied
  {
    var t := s.threads[i];
    assert ThreadOk(s, i, t);
    SplitChildKeepsTree(s.c, s.blocks, s.root, t.pc.cur.page, t.pc.pos);
    SplitChildKeepsContents(s.c, s.blocks, s.root, t.pc.cur.page, t.pc.pos);
    hide TreeOk;
  }

  lemma {:induction false} ApplyIsWrite(s: State, i: nat, ch: Choice) returns (events: seq<Event>)
    requires Inv(s) && i < |s.threads| && s.threads[i].pc.Drawn?
    ensures var u := Act(s, i, ch);
            && u.root == s.root < |u.blocks| && Extends(s, u, events) && All(u) == Replayed(All(s), events)
    ensures events != [] ==>
      && events == [Event(s.threads[i].job.key, OpOf(s.threads[i].job, s.threads[i].pc.version))]
      && (events[0].op.Push? || HasRecord(All(s), events[0].key))
  {
    var t := s.threads[i];
    HoldsAtLeaf(s, i);
    var p, op := t.pc.cur.page, OpOf(t.job, t.pc.version);
    var rs := s.blocks[p].page.records;
    var u := Act(s, i, ch);
    assert u.blocks == s.blocks[p := s.blocks[p].(page := Leaf(Written(rs, t.job.key, op)))];
    assert [Event(t.job.key, op)][..0] == [];
    if Takes(t.job, rs) {
      events := [Event(t.job.key, op)];
      assert InRange(s.blocks[p], t.job.key) by {
        assert PageOk(s.c, s.blocks, p);
      }
      hide TreeOk;
      LeafWriteIsSequenceWrite(s.c, s.blocks, s.root, p, t.job.key, op);
      LeafShowsContents(s.c, s.blocks, s.root, p, t.job.key);
    } else {
      events := [];
      assert u.blocks == s.blocks;
    }
  }

  /** In every run, the records of the tree are what the operations that took effect so far, one after the
      other, make of the records at the start, whatever pages split. Which operations those are, `OlcOnce`
      says: every insert, and the updates and deletes whose leaf still covers their key. */
  lemma {:induction false} TreeIsItsHistory(states: seq<State>, n: nat)
    requires Run(states) && n < |states|
    ensures Inv(states[0]) && Inv(states[n]) && All(states[n]) == Replayed(All(states[0]), states[n].applied)
  {
    hide Act, Inv;
    ReachableInv(states, 0);
    if n == 0 {
    } else {
      TreeIsItsHistory(states, n - 1);
      var i, ch := StepOf(states, n - 1);
      var events := StepIsAtomic(states[n - 1], i, ch);
      ReplayedOn(All(states[0]), states[n - 1].applied, events);
    }
  }

  lemma {:induction false} ReplayedOn(rs: seq<Record>, before: seq<Event>, events: seq<Event>)
    requires |events| <= 1
    ensures Replayed(rs, before + events) == Replayed(Replayed(rs, before), events)
  {
    hide Written1;
    if events == [] {
      assert before + events == before;
    } else {
      assert (before + events)[..|before|] == before;
      assert events[..0] == [];
    }
  }

  // ----- chains -------------------------------------------------------------------------------

  lemma {:induction false} AllSorted(s: State)
    requires Inv(s)
    ensures s.root < |s.blocks| && Sorted(All(s))
  {
    PageWithin(s.c, s.blocks, s.root, s.root);
  }

  /** The operations on one key, in the order in which they were applied. */
  ghost function OpsOn(events: seq<Event>, key: Key): seq<Op> {
    if events == [] then []
    else
      var e := events[|events| - 1];
      OpsOn(events[..|events| - 1], key) + if e.key == key then [e.op] else []
  }

  /** In every interleaving the chain of a key holds just the operations applied to the key, oldest
      first, with strictly increasing versions below the clock, even if splits have moved the chain. */
  lemma {:induction false} ChainsAscend(states: seq<State>, n: nat, key: Key)
    requires Run(states) && n < |states|
    ensures Inv(states[0]) && Inv(states[n])
    ensures var log := LogOf(All(states[n]), key);
            && log == LogOf(All(states[0]), key) + OpsOn(states[n].applied, key)
            && Increasing(log)
            && forall j :: 0 <= j < |log| ==> log[j].version < states[n].clock
  {
    hide Act, Inv, Initial, All;
    ReachableInv(states, n);
    KeyAscends(states[n], key);
    ChainGrows(states, n, key);
  }

  lemma {:induction false} ChainGrows(states: seq<State>, n: nat, key: Key)
    requires Run(states) && n < |states|
    ensures Inv(states[0]) && Inv(states[n])
    ensures LogOf(All(states[n]), key) == LogOf(All(states[0]), key) + OpsOn(states[n].applied, key)
  {
    hide Act, Inv, All, LogOf;
    ReachableInv(states, 0);
    if n == 0 {
      StartsEmpty(states[0]);
    } else {
      ChainGrows(states, n - 1, key);
      var i, ch := StepOf(states, n - 1);
      AllSorted(states[n - 1]);
      hide Run, Initial;
      StepGrowsChain(states[n - 1], i, ch, key, LogOf(All(states[0]), key));
    }
  }

  /** The chain of a key grows by what is applied to the key, on whatever it held before. */
  lemma {:induction false} StepGrowsChain(s: State, i: nat, ch: Choice, key: Key, before: seq<Op>)
    requires Inv(s) && i < |s.threads| && Clean(s, i) && s.root < |s.blocks|
    requires LogOf(All(s), key) == before + OpsOn(s.applied, key)
    ensures var u := Act(s, i, ch);
            Inv(u) && u.root < |u.blocks| && LogOf(All(u), key) == before + OpsOn(u.applied, key)
  {
    hide Act, All, LogOf;
    var u := Act(s, i, ch);
    var events := StepIsAtomic(s, i, ch);
    AllSorted(u);
    hide Inv;
    if events == [] {
      assert u.applied == s.applied;
    } else {
      var e := events[0];
      AllSorted(s);
      WrittenLog(All(s), e.key, e.op, key);
      assert events[..0] == [] && events == [e];
      assert u.applied[..|s.applied|] == s.applied && u.applied[|s.applied|] == e;
    }
  }

  lemma {:induction false} StartsEmpty(s: State)
    requires Initial(s)
    ensures s.applied == []
  {
  }

  /** The chain of a key is a log of the leaf that covers it. */
  lemma {:induction false} KeyAscends(s: State, key: Key)
    requires Inv(s)
    ensures var log := LogOf(All(s), key);
            Increasing(log) && forall j :: 0 <= j < |log| ==> log[j].version < s.clock
  {
    assert RootOk(s.blocks, s.root);
    var leaf := LeafFor(s.c, s.blocks, s.root, s.root, key);
    LeafShowsContents(s.c, s.blocks, s.root, leaf, key);
    assert LogsBelow(s.blocks[leaf], s.clock);
  }
}
