/** A run of `Olc` in which an update misses a record that has been there all along: the leaf it pins was
    split after the descent had latched it, and the record has moved to the new page. */
module OlcMissed {
  import opened History
  import opened Tree
  import opened InOrder
  import opened Latch
  import opened MvIndex
  import opened Olc
  import opened OlcOwned
  import opened OlcOnce
  import opened OlcRuns

  // ----- runs by one thread at a time -----------------------------------------------------------

  function Last(states: seq<State>): State
    requires states != []
  {
    states[|states| - 1]
  }

  /** One more step of a run. */
  lemma {:induction false} Onward(states: seq<State>, i: nat, ch: Choice, u: State) returns (longer: seq<State>)
    requires Run(states) && StepBy(Last(states), u, i, ch)
    ensures Run(longer) && longer[0] == states[0] && Last(longer) == u
  {
    hide StepBy, Initial;
    longer := states + [u];
    assert Step(Last(states), u);
    forall k | 0 <= k < |longer| - 1
      ensures Step(longer[k], longer[k + 1])
    {
      if k < |states| - 1 { assert Step(states[k], states[k + 1]); }
    }
  }

  // ----- the run ------------------------------------------------------------------------------

  const UPDATE: Job := Update(3, 7)
  const INSERT: Job := Insert(4, 9)

  function Plainly(job: Job): Choice {
    Choice(job, false, 0, 0, false, false)
  }

  function Left(): Block {
    Block(Leaf([Record(1, [Push(1, 0)]), Record(2, [Push(2, 0)]), Record(3, [Push(3, 0)])]), 0, 10, 0)
  }

  /** An index root over a full leaf with keys 1, 2, 3 and a leaf with key 10. */
  function Pages(): seq<Block> {
    [Block(Index([10], [1, 2]), 0, MAX_KEY + 1, 1), Left(), Block(Leaf([Record(10, [Push(4, 0)])]), 10, MAX_KEY + 1, 0)]
  }

  /** The same after the full leaf is split: key 3 has moved to page 3. */
  function Split(): seq<Block> {
    [Block(Index([2, 10], [1, 3, 2]), 0, MAX_KEY + 1, 1),
     Block(Leaf([Record(1, [Push(1, 0)])]), 0, 2, 0),
     Block(Leaf([Record(10, [Push(4, 0)])]), 10, MAX_KEY + 1, 0),
     Block(Leaf([Record(2, [Push(2, 0)]), Record(3, [Push(3, 0)])]), 2, 10, 0)]
  }

  function Scene(blocks: seq<Block>, latches: seq<Abstract>, first: PC, second: PC, clock: nat): State {
    State(Config(5, 3), 0, blocks, latches, [Thread(UPDATE, first), Thread(INSERT, second)], clock, [])
  }

  function Start(): State {
    Scene(Pages(), [Free(0), Free(0), Free(0)], Idle, Idle, 5)
  }

  lemma {:induction false} StartIsInitial()
    ensures Initial(Start())
  {
    LeavesOk();
    var t := Pages();
    assert ChildOk(t, t[0], 0) && ChildOk(t, t[0], 1);
    hide RecordsOk, LogsBelow;
  }

  lemma {:induction false} LeavesOk()
    ensures RecordsOk(Pages()[1], Pages()[1].page.records) && RecordsOk(Pages()[2], Pages()[2].page.records)
    ensures LogsBelow(Pages()[1], 5) && LogsBelow(Pages()[2], 5)
  {
  }

  // The update descends to the leaf.

  function Descending(pc: PC): State {
    Scene(Pages(), [Free(0), Free(0), Free(0)], pc, Idle, 5)
  }

  lemma {:induction false} UpdateLoadsRoot()
    ensures var ch := Plainly(UPDATE);
            && Act(Start(), 0, ch) == Descending(RootLoad)
            && Act(Descending(RootLoad), 0, ch) == Descending(RootLatch(0))
            && Act(Descending(RootLatch(0)), 0, ch) == Descending(RootLen(Ref(0, 0, Read)))
  {
  }

  lemma {:induction false} UpdateReachesRoot()
    ensures var ch := Plainly(UPDATE);
            var root := Ref(0, 0, Read);
            && Act(Descending(RootLen(root)), 0, ch) == Descending(At(root))
            && Act(Descending(At(root)), 0, ch) == Descending(Search(root))
  {
  }

  lemma {:induction false} UpdateFindsChild()
    ensures var ch := Plainly(UPDATE);
            var root := Ref(0, 0, Read);
            && Act(Descending(Search(root)), 0, ch) == Descending(Check1(root, 0, 1))
            && Act(Descending(Check1(root, 0, 1)), 0, ch) == Descending(LatchNext(root, 0, 1))
  {
  }

  lemma {:induction false} UpdateLatchesChild()
    ensures var ch := Plainly(UPDATE);
            var root, leaf := Ref(0, 0, Read), Ref(1, 0, Read);
            && Act(Descending(LatchNext(root, 0, 1)), 0, ch) == Descending(Check2(root, 0, leaf))
            && Act(Descending(Check2(root, 0, leaf)), 0, ch) == Descending(NextLen(root, 0, leaf))
            && Act(Descending(NextLen(root, 0, leaf)), 0, ch) == Descending(Descend(root, leaf))
  {
  }

  lemma {:induction false} UpdateReachesLeaf()
    ensures var ch := Plainly(UPDATE);
            var root, leaf := Ref(0, 0, Read), Ref(1, 0, Read);
            && Act(Descending(Descend(root, leaf)), 0, ch) == Descending(At(leaf))
            && Act(Descending(At(leaf)), 0, ch) == Descending(Search(leaf))
            && Act(Descending(Search(leaf)), 0, ch) == Descending(PinLoad(leaf))
  {
  }

  lemma {:induction false} UpdateDescends(states: seq<State>) returns (on: seq<State>)
    requires Run(states) && Last(states) == Start()
    ensures Run(on) && on[0] == states[0] && Last(on) == Splitting(AllFree(), Idle)
  {
    hide Act, Run;
    var ch := Plainly(UPDATE);
    var root, leaf := Ref(0, 0, Read), Ref(1, 0, Read);
    UpdateLoadsRoot();
    UpdateReachesRoot();
    UpdateFindsChild();
    UpdateLatchesChild();
    UpdateReachesLeaf();
    on := Onward(states, 0, ch, Descending(RootLoad));
    on := Onward(on, 0, ch, Descending(RootLatch(0)));
    on := Onward(on, 0, ch, Descending(RootLen(root)));
    on := Onward(on, 0, ch, Descending(At(root)));
    on := Onward(on, 0, ch, Descending(Search(root)));
    on := Onward(on, 0, ch, Descending(Check1(root, 0, 1)));
    on := Onward(on, 0, ch, Descending(LatchNext(root, 0, 1)));
    on := Onward(on, 0, ch, Descending(Check2(root, 0, leaf)));
    on := Onward(on, 0, ch, Descending(NextLen(root, 0, leaf)));
    on := Onward(on, 0, ch, Descending(Descend(root, leaf)));
    on := Onward(on, 0, ch, Descending(At(leaf)));
    on := Onward(on, 0, ch, Descending(Search(leaf)));
    on := Onward(on, 0, ch, Descending(PinLoad(leaf)));
  }

  // The insert descends past the same leaf, and splits it.

  function Splitting(latches: seq<Abstract>, pc: PC): State {
    Scene(Pages(), latches, PinLoad(Ref(1, 0, Read)), pc, 5)
  }

  function AllFree(): seq<Abstract> {
    [Free(0), Free(0), Free(0)]
  }

  lemma {:induction false} InsertLoadsRoot()
    ensures var ch := Plainly(INSERT);
            && Act(Splitting(AllFree(), Idle), 1, ch) == Splitting(AllFree(), RootLoad)
            && Act(Splitting(AllFree(), RootLoad), 1, ch) == Splitting(AllFree(), RootLatch(0))
            && Act(Splitting(AllFree(), RootLatch(0)), 1, ch) == Splitting(AllFree(), RootLen(Ref(0, 0, Read)))
  {
  }

  lemma {:induction false} InsertReachesRoot()
    ensures var ch := Plainly(INSERT);
            var root := Ref(0, 0, Read);
            && Act(Splitting(AllFree(), RootLen(root)), 1, ch) == Splitting(AllFree(), At(root))
            && Act(Splitting(AllFree(), At(root)), 1, ch) == Splitting(AllFree(), Search(root))
  {
  }

  lemma {:induction false} InsertFindsChild()
    ensures var ch := Plainly(INSERT);
            var root := Ref(0, 0, Read);
            && Act(Splitting(AllFree(), Search(root)), 1, ch) == Splitting(AllFree(), Check1(root, 0, 1))
            && Act(Splitting(AllFree(), Check1(root, 0, 1)), 1, ch) == Splitting(AllFree(), LatchNext(root, 0, 1))
  {
  }

  lemma {:induction false} InsertMeasuresChild()
    ensures var ch := Plainly(INSERT);
            var root, leaf := Ref(0, 0, Read), Ref(1, 0, Read);
            && Act(Splitting(AllFree(), LatchNext(root, 0, 1)), 1, ch) == Splitting(AllFree(), Check2(root, 0, leaf))
            && Act(Splitting(AllFree(), Check2(root, 0, leaf)), 1, ch) == Splitting(AllFree(), NextLen(root, 0, leaf))
            && Act(Splitting(AllFree(), NextLen(root, 0, leaf)), 1, ch)
               == Splitting(AllFree(), UpCur(root, 0, leaf, true))
  {
  }

  lemma {:induction false} InsertLocks()
    ensures var ch := Plainly(INSERT);
            var root, leaf, parent := Ref(0, 0, Read), Ref(1, 0, Read), Ref(0, 0, Write);
            && Act(Splitting(AllFree(), UpCur(root, 0, leaf, true)), 1, ch)
               == Splitting([Locked(0, 1), Free(0), Free(0)], UpNext(parent, 0, leaf, true))
            && Act(Splitting([Locked(0, 1), Free(0), Free(0)], UpNext(parent, 0, leaf, true)), 1, ch)
               == Splitting([Locked(0, 1), Locked(0, 1), Free(0)], Mark(parent, 0, Ref(1, 0, Write)))
  {
  }

  lemma {:induction false} InsertMarks()
    ensures var parent, child := Ref(0, 0, Write), Ref(1, 0, Write);
            Act(Splitting([Locked(0, 1), Locked(0, 1), Free(0)], Mark(parent, 0, child)), 1, Plainly(INSERT))
            == Splitting([Locked(0, 1), Abstract.Obsolete(0, 1), Free(0)], Correct(parent, 0, child))
  {
  }

  /** After the split, with the leaf free again under a new counter. */
  function AfterSplit(leaf: Abstract, first: PC, clock: nat): State {
    Scene(Split(), [Locked(0, 1), leaf, Free(0), Free(0)], first, At(Ref(0, 0, Write)), clock)
  }

  lemma {:induction false} InsertSplits()
    ensures var ch := Plainly(INSERT);
            var parent, child := Ref(0, 0, Write), Ref(1, 0, Write);
            var split := Scene(Split(), [Locked(0, 1), Abstract.Obsolete(0, 1), Free(0), Free(0)],
                               PinLoad(Ref(1, 0, Read)), DropFrom(parent, child), 5);
            && Act(Splitting([Locked(0, 1), Abstract.Obsolete(0, 1), Free(0)], Correct(parent, 0, child)), 1, ch)
               == split
            && Act(split, 1, ch) == AfterSplit(Free(1), PinLoad(Ref(1, 0, Read)), 5)
  {
    PagesSplit();
  }

  lemma {:induction false} PagesSplit()
    ensures CanSplit(Pages(), 0, 0) && SplitChild(Pages(), 0, 0) == Split()
  {
    var records := Left().page.records;
    assert records[..1] == Split()[1].page.records && records[1..] == Split()[3].page.records;
    assert Inserted([10], 0, 2) == [2, 10] && Inserted([1, 2], 1, 3) == [1, 3, 2];
    var (l, k, r) := SplitBlock(Left());
    assert l == Split()[1] && k == 2 && r == Split()[3];
  }

  lemma {:induction false} InsertDescends(states: seq<State>) returns (on: seq<State>)
    requires Run(states) && Last(states) == Splitting(AllFree(), Idle)
    ensures Run(on) && on[0] == states[0] && Last(on) == AfterSplit(Free(1), PinLoad(Ref(1, 0, Read)), 5)
  {
    hide Act, Run;
    var ch := Plainly(INSERT);
    var root, leaf := Ref(0, 0, Read), Ref(1, 0, Read);
    var parent, child := Ref(0, 0, Write), Ref(1, 0, Write);
    InsertLoadsRoot();
    InsertReachesRoot();
    InsertFindsChild();
    InsertMeasuresChild();
    InsertLocks();
    InsertMarks();
    InsertSplits();
    on := Onward(states, 1, ch, Splitting(AllFree(), RootLoad));
    on := Onward(on, 1, ch, Splitting(AllFree(), RootLatch(0)));
    on := Onward(on, 1, ch, Splitting(AllFree(), RootLen(root)));
    on := Onward(on, 1, ch, Splitting(AllFree(), At(root)));
    on := Onward(on, 1, ch, Splitting(AllFree(), Search(root)));
    on := Onward(on, 1, ch, Splitting(AllFree(), Check1(root, 0, 1)));
    on := Onward(on, 1, ch, Splitting(AllFree(), LatchNext(root, 0, 1)));
    on := Onward(on, 1, ch, Splitting(AllFree(), Check2(root, 0, leaf)));
    on := Onward(on, 1, ch, Splitting(AllFree(), NextLen(root, 0, leaf)));
    on := Onward(on, 1, ch, Splitting(AllFree(), UpCur(root, 0, leaf, true)));
    on := Onward(on, 1, ch, Splitting([Locked(0, 1), Free(0), Free(0)], UpNext(parent, 0, leaf, true)));
    on := Onward(on, 1, ch, Splitting([Locked(0, 1), Locked(0, 1), Free(0)], Mark(parent, 0, child)));
    on := Onward(on, 1, ch, Splitting([Locked(0, 1), Abstract.Obsolete(0, 1), Free(0)], Correct(parent, 0, child)));
    on := Onward(on, 1, ch, Scene(Split(), [Locked(0, 1), Abstract.Obsolete(0, 1), Free(0), Free(0)],
                                  PinLoad(leaf), DropFrom(parent, child), 5));
    on := Onward(on, 1, ch, AfterSplit(Free(1), PinLoad(leaf), 5));
  }

  // The update pins the leaf under its new word, and finds nothing.

  lemma {:induction false} UpdatePins()
    ensures var ch := Plainly(UPDATE);
            var leaf, pin := Ref(1, 0, Read), Ref(1, 1, Pin);
            && Act(AfterSplit(Free(1), PinLoad(leaf), 5), 0, ch) == AfterSplit(Free(1), PinCas(leaf, 1), 5)
            && Act(AfterSplit(Free(1), PinCas(leaf, 1), 5), 0, ch) == AfterSplit(Pinned(1, 0), Latched(pin, false), 5)
  {
  }

  lemma {:induction false} UpdateDraws()
    ensures var pin := Ref(1, 1, Pin);
            Act(AfterSplit(Pinned(1, 0), Latched(pin, false), 5), 0, Plainly(UPDATE))
            == AfterSplit(Pinned(1, 0), Drawn(pin, 5, false), 6)
  {
  }

  lemma {:induction false} NothingWritten()
    ensures var b := Split()[1];
            && !HasRecord(b.page.records, 3) && Written(b.page.records, 3, Append(5, 7)) == b.page.records
            && Split()[1 := b.(page := Leaf(b.page.records))] == Split()
  {
    assert Keys(Split()[1].page.records) == [1];
    assert LowerBound([1], 3) == 1 by { assert [1][1..] == []; }
  }

  lemma {:induction false} UpdateFindsNothing()
    ensures var pin := Ref(1, 1, Pin);
            Act(AfterSplit(Pinned(1, 0), Drawn(pin, 5, false), 6), 0, Plainly(UPDATE))
            == AfterSplit(Pinned(1, 0), Applied(pin, 5), 6)
  {
    NothingWritten();
    var blocks := Split();
    assert blocks[1].page.Leaf? && |blocks| == 4 && |AfterSplit(Pinned(1, 0), Idle, 6).latches| == 4;
    hide Split, Written, HasRecord;
  }

  lemma {:induction false} UpdateUnpins()
    ensures var ch := Plainly(UPDATE);
            var pin := Ref(1, 1, Pin);
            && Act(AfterSplit(Pinned(1, 0), Applied(pin, 5), 6), 0, ch) == AfterSplit(Pinned(1, 0), Committed(pin), 6)
            && Act(AfterSplit(Pinned(1, 0), Committed(pin), 6), 0, ch) == AfterSplit(Free(1), Idle, 6)
  {
  }

  lemma {:induction false} UpdateMisses(states: seq<State>) returns (on: seq<State>)
    requires Run(states) && Last(states) == AfterSplit(Free(1), PinLoad(Ref(1, 0, Read)), 5)
    ensures Run(on) && on[0] == states[0] && Last(on) == AfterSplit(Free(1), Idle, 6)
  {
    hide Act, Run;
    var ch := Plainly(UPDATE);
    var leaf, pin := Ref(1, 0, Read), Ref(1, 1, Pin);
    UpdatePins();
    UpdateDraws();
    UpdateFindsNothing();
    UpdateUnpins();
    on := Onward(states, 0, ch, AfterSplit(Free(1), PinCas(leaf, 1), 5));
    on := Onward(on, 0, ch, AfterSplit(Pinned(1, 0), Latched(pin, false), 5));
    on := Onward(on, 0, ch, AfterSplit(Pinned(1, 0), Drawn(pin, 5, false), 6));
    on := Onward(on, 0, ch, AfterSplit(Pinned(1, 0), Applied(pin, 5), 6));
    on := Onward(on, 0, ch, AfterSplit(Pinned(1, 0), Committed(pin), 6));
    on := Onward(on, 0, ch, AfterSplit(Free(1), Idle, 6));
  }

  /** There is a run in which an update of key 3, which has a record from beginning to end, draws a version
      and goes all the way through, but changes nothing. */
  lemma {:induction false} UpdateMissesMovedRecord() returns (states: seq<State>)
    ensures Run(states) && states[0] == Start() && Last(states) == AfterSplit(Free(1), Idle, 6)
    ensures forall n :: 0 <= n < |states| ==>
      Inv(states[n]) && states[n].applied == [] && HasRecord(All(states[n]), UPDATE.key)
  {
    StartIsInitial();
    states := [Start()];
    StartRuns(states);
    hide Initial, Act, Run;
    states := UpdateDescends(states);
    states := InsertDescends(states);
    states := UpdateMisses(states);
    RecordStays(states);
  }

  lemma {:induction false} StartRuns(states: seq<State>)
    requires states == [Start()] && Initial(Start())
    ensures Run(states)
  {
    hide Initial;
  }

  lemma {:induction false} RecordStays(states: seq<State>)
    requires Run(states) && states[0] == Start() && Last(states).applied == []
    ensures forall n :: 0 <= n < |states| ==>
      Inv(states[n]) && states[n].applied == [] && HasRecord(All(states[n]), UPDATE.key)
  {
    forall n | 0 <= n < |states|
      ensures Inv(states[n]) && states[n].applied == [] && HasRecord(All(states[n]), UPDATE.key)
    {
      RecordAt(states, n);
    }
  }

  lemma {:induction false} RecordAt(states: seq<State>, n: nat)
    requires Run(states) && states[0] == Start() && Last(states).applied == [] && n < |states|
    ensures Inv(states[n]) && states[n].applied == [] && HasRecord(All(states[n]), UPDATE.key)
  {
    hide Act, Inv, Initial;
    RecordAtStart();
    EventsStay(states, n, |states| - 1);
    TreeIsItsHistory(states, n);
  }

  lemma {:induction false} RecordAtStart()
    ensures HasRecord(All(Start()), UPDATE.key)
  {
    StartIsInitial();
    LeafShowsContents(Config(5, 3), Pages(), 0, 1, 3);
    var records := Left().page.records;
    assert Keys(records)[2] == 3 && Keys(records)[1] == 2 && Keys(records)[0] == 1;
    LowerBoundIs(Keys(records), 3, 2);
  }
}
