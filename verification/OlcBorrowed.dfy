/** A run of `Olc` in which the split of a leaf root breaks the tree although its own key stays left: another
    thread has loaded the address of the old root, latches it once it is the left leaf, and writes there. */
module OlcBorrowed {
  import opened History
  import opened Tree
  import opened Latch
  import opened MvIndex
  import opened Olc
  import opened OlcLeafRoot

  const SPLITTER: Job := Insert(0, 7)
  const BORROWER: Job := Insert(9, 8)

  function Plainly(job: Job): Choice {
    Choice(job, false, 0, 0, false, false)
  }

  function Three(): seq<Record> {
    [Record(1, [Push(1, 0)]), Record(2, [Push(2, 0)]), Record(3, [Push(3, 0)])]
  }

  function LeftLeaf(records: seq<Record>): Block {
    Block(Leaf(records), 0, 2, 0)
  }

  /** The full leaf root. */
  function Before(): seq<Block> {
    [Block(Leaf(Three()), 0, MAX_KEY + 1, 0)]
  }

  /** The same after the split: the root is page 2. */
  function After(left: seq<Record>): seq<Block> {
    [LeftLeaf(left),
     Block(Leaf([Record(2, [Push(2, 0)]), Record(3, [Push(3, 0)])]), 2, MAX_KEY + 1, 0),
     Block(Index([2], [0, 1]), 0, MAX_KEY + 1, 1)]
  }

  function One(): seq<Record> {
    [Record(1, [Push(1, 0)])]
  }

  function Two(): seq<Record> {
    [Record(0, [Push(4, 7)]), Record(1, [Push(1, 0)])]
  }

  function Start(latch: Abstract, first: PC, second: PC): State {
    State(Config(5, 3), 0, Before(), [latch], [Thread(SPLITTER, first), Thread(BORROWER, second)], 4, [])
  }

  function Later(left: seq<Record>, latch: Abstract, first: PC, second: PC, clock: nat, applied: seq<Event>): State {
    State(Config(5, 3), 2, After(left), [latch, Free(0), Free(0)],
          [Thread(SPLITTER, first), Thread(BORROWER, second)], clock, applied)
  }

  lemma {:induction false} StartIsInitial()
    ensures Initial(Start(Free(0), Idle, Idle))
  {
    var t := Before();
    assert PageOk(Config(5, 3), t, 0) && LogsBelow(t[0], 4);
  }

  // The borrower loads the address of the root, and then the splitter locks the page.

  lemma {:induction false} BorrowerLoads()
    ensures var ch := Plainly(BORROWER);
            && Act(Start(Free(0), Idle, Idle), 1, ch) == Start(Free(0), Idle, RootLoad)
            && Act(Start(Free(0), Idle, RootLoad), 1, ch) == Start(Free(0), Idle, RootLatch(0))
  {
  }

  lemma {:induction false} SplitterLoads()
    ensures var ch := Plainly(SPLITTER);
            var b, r := RootLatch(0), Ref(0, 0, Read);
            && Act(Start(Free(0), Idle, b), 0, ch) == Start(Free(0), RootLoad, b)
            && Act(Start(Free(0), RootLoad, b), 0, ch) == Start(Free(0), RootLatch(0), b)
            && Act(Start(Free(0), RootLatch(0), b), 0, ch) == Start(Free(0), RootLen(r), b)
  {
  }

  lemma {:induction false} SplitterLocks()
    ensures var ch := Plainly(SPLITTER);
            var b, r, w := RootLatch(0), Ref(0, 0, Read), Ref(0, 0, Write);
            && Act(Start(Free(0), RootLen(r), b), 0, ch) == Start(Free(0), RootUp(r), b)
            && Act(Start(Free(0), RootUp(r), b), 0, ch) == Start(Locked(0, 0), RootSplit(w), b)
  {
  }

  lemma {:induction false} SplitterSplits()
    ensures var ch := Plainly(SPLITTER);
            var b, w := RootLatch(0), Ref(0, 0, Write);
            Act(Start(Locked(0, 0), RootSplit(w), b), 0, ch) == Later(One(), Locked(0, 0), At(w), b, 4, [])
  {
    var records := Three();
    assert records[..1] == One() && records[1..] == After(One())[1].page.records;
    var (l, k, r) := SplitBlock(Before()[0]);
    assert l == After(One())[0] && k == 2 && r == After(One())[1];
  }

  // It writes its record to the left half, and leaves.

  lemma {:induction false} SplitterWalks()
    ensures var ch := Plainly(SPLITTER);
            var b, w, l := RootLatch(0), Ref(0, 0, Write), Locked(0, 0);
            && Act(Later(One(), l, At(w), b, 4, []), 0, ch) == Later(One(), l, Search(w), b, 4, [])
            && Act(Later(One(), l, Search(w), b, 4, []), 0, ch) == Later(One(), l, LeafUp(w), b, 4, [])
            && Act(Later(One(), l, LeafUp(w), b, 4, []), 0, ch) == Later(One(), l, Latched(w, true), b, 4, [])
            && Act(Later(One(), l, Latched(w, true), b, 4, []), 0, ch) == Later(One(), l, Drawn(w, 4, true), b, 5, [])
  {
  }

  const DONE: seq<Event> := [Event(0, Push(4, 7))]

  lemma {:induction false} SplitterWrites()
    ensures var ch := Plainly(SPLITTER);
            var b, w, l := RootLatch(0), Ref(0, 0, Write), Locked(0, 0);
            Act(Later(One(), l, Drawn(w, 4, true), b, 5, []), 0, ch) == Later(Two(), l, Applied(w, 4), b, 5, DONE)
  {
    assert Keys(One()) == [1];
    assert Written(One(), 0, Push(4, 7)) == Two();
    assert After(One())[0 := LeftLeaf(Two())] == After(Two());
    hide Written;
  }

  lemma {:induction false} SplitterLeaves()
    ensures var ch := Plainly(SPLITTER);
            var b, w, l := RootLatch(0), Ref(0, 0, Write), Locked(0, 0);
            && Act(Later(Two(), l, Applied(w, 4), b, 5, DONE), 0, ch) == Later(Two(), l, Committed(w), b, 5, DONE)
            && Act(Later(Two(), l, Committed(w), b, 5, DONE), 0, ch) == Later(Two(), Free(1), Idle, b, 5, DONE)
  {
  }

  // The borrower latches the page, which is only the left leaf now, and writes to it.

  lemma {:induction false} BorrowerLatches()
    ensures var ch := Plainly(BORROWER);
            var r := Ref(0, 1, Read);
            && Act(Later(Two(), Free(1), Idle, RootLatch(0), 5, DONE), 1, ch)
               == Later(Two(), Free(1), Idle, RootLen(r), 5, DONE)
            && Act(Later(Two(), Free(1), Idle, RootLen(r), 5, DONE), 1, ch)
               == Later(Two(), Free(1), Idle, At(r), 5, DONE)
            && Act(Later(Two(), Free(1), Idle, At(r), 5, DONE), 1, ch)
               == Later(Two(), Free(1), Idle, Search(r), 5, DONE)
            && Act(Later(Two(), Free(1), Idle, Search(r), 5, DONE), 1, ch)
               == Later(Two(), Free(1), Idle, LeafUp(r), 5, DONE)
  {
  }

  lemma {:induction false} BorrowerLocks()
    ensures var ch := Plainly(BORROWER);
            var r, w := Ref(0, 1, Read), Ref(0, 1, Write);
            && Act(Later(Two(), Free(1), Idle, LeafUp(r), 5, DONE), 1, ch)
               == Later(Two(), Locked(1, 1), Idle, Latched(w, true), 5, DONE)
            && Act(Later(Two(), Locked(1, 1), Idle, Latched(w, true), 5, DONE), 1, ch)
               == Later(Two(), Locked(1, 1), Idle, Drawn(w, 5, true), 6, DONE)
  {
  }

  lemma {:induction false} BorrowerBreaks()
    ensures var s := Later(Two(), Locked(1, 1), Idle, Drawn(Ref(0, 1, Write), 5, true), 6, DONE);
            var u := Act(s, 1, Plainly(BORROWER));
            !TreeOk(u.c, u.blocks, u.root)
  {
    var s := Later(Two(), Locked(1, 1), Idle, Drawn(Ref(0, 1, Write), 5, true), 6, DONE);
    var u := Act(s, 1, Plainly(BORROWER));
    var ws := Written(Two(), 9, Push(5, 8));
    assert u.blocks[0].page == Leaf(ws) && u.blocks[0].hi == 2;
    assert Keys(Two()) == [0, 1];
    var pos := LowerBound(Keys(Two()), 9);
    assert pos < |ws| && ws[pos].key == 9;
    hide Written;
    if TreeOk(u.c, u.blocks, u.root) {
      assert PageOk(u.c, u.blocks, 0);
      RecordsInRange(u.blocks[0], ws, pos);
    }
  }

  lemma {:induction false} BorrowAndSplit() returns (states: seq<State>, n: nat)
    ensures FreeRun(states) && states[0] == Start(Free(0), Idle, Idle)
    ensures n < |states| && states[n] == Start(Locked(0, 0), RootSplit(Ref(0, 0, Write)), RootLatch(0))
    ensures Last(states) == Later(Two(), Free(1), Idle, RootLatch(0), 5, DONE)
  {
    BorrowerLoads();
    SplitterLoads();
    SplitterLocks();
    SplitterSplits();
    SplitterWalks();
    SplitterWrites();
    SplitterLeaves();
    var c0, c1 := Plainly(SPLITTER), Plainly(BORROWER);
    var b, r, w, l := RootLatch(0), Ref(0, 0, Read), Ref(0, 0, Write), Locked(0, 0);
    states := [Start(Free(0), Idle, Idle)];
    assert FreeRun(states);
    hide Act, FreeRun, Start, Later;
    states := Onward(states, 1, c1, Start(Free(0), Idle, RootLoad), 0);
    states := Onward(states, 1, c1, Start(Free(0), Idle, b), 0);
    states := Onward(states, 0, c0, Start(Free(0), RootLoad, b), 0);
    states := Onward(states, 0, c0, Start(Free(0), RootLatch(0), b), 0);
    states := Onward(states, 0, c0, Start(Free(0), RootLen(r), b), 0);
    states := Onward(states, 0, c0, Start(Free(0), RootUp(r), b), 0);
    states := Onward(states, 0, c0, Start(l, RootSplit(w), b), 0);
    n := |states| - 1;
    states := Onward(states, 0, c0, Later(One(), l, At(w), b, 4, []), n);
    states := Onward(states, 0, c0, Later(One(), l, Search(w), b, 4, []), n);
    states := Onward(states, 0, c0, Later(One(), l, LeafUp(w), b, 4, []), n);
    states := Onward(states, 0, c0, Later(One(), l, Latched(w, true), b, 4, []), n);
    states := Onward(states, 0, c0, Later(One(), l, Drawn(w, 4, true), b, 5, []), n);
    states := Onward(states, 0, c0, Later(Two(), l, Applied(w, 4), b, 5, DONE), n);
    states := Onward(states, 0, c0, Later(Two(), l, Committed(w), b, 5, DONE), n);
    states := Onward(states, 0, c0, Later(Two(), Free(1), Idle, b, 5, DONE), n);
  }

  /** The split in the run stays left, but is not alone at the root. */
  ghost predicate StaysLeftButBorrowed(s: State) {
    && |s.threads| > 0 && s.threads[0].pc.RootSplit? && s.root < |s.blocks| && Divisible(s.blocks[s.root])
    && StaysLeft(s, s.threads[0].job.key) && !NobodyBorrows(s, 0)
  }

  lemma {:induction false} SplitIsNotClean()
    ensures StaysLeftButBorrowed(Start(Locked(0, 0), RootSplit(Ref(0, 0, Write)), RootLatch(0)))
  {
    var s := Start(Locked(0, 0), RootSplit(Ref(0, 0, Write)), RootLatch(0));
    assert s.threads[1].pc.RootLatch?;
    assert SplitBlock(s.blocks[0]).1 == Three()[1].key;
  }

  /** There is a run from an initial state that ends without a tree. Its one split of a leaf root is by an insert
      whose key stays left; but another thread stands between loading the root and latching it. */
  lemma {:induction false} BorrowedRootBreaksTree() returns (states: seq<State>, n: nat)
    ensures FreeRun(states) && Initial(states[0]) && n < |states| && StaysLeftButBorrowed(states[n])
    ensures !KeepsTree(states)
  {
    StartIsInitial();
    BorrowerLatches();
    BorrowerLocks();
    BorrowerBreaks();
    var c1 := Plainly(BORROWER);
    var r, w := Ref(0, 1, Read), Ref(0, 1, Write);
    SplitIsNotClean();
    hide Act, FreeRun, Initial, TreeOk, Later, Start, Divisible, StaysLeft, NobodyBorrows;
    states, n := BorrowAndSplit();
    states := Onward(states, 1, c1, Later(Two(), Free(1), Idle, RootLen(r), 5, DONE), n);
    states := Onward(states, 1, c1, Later(Two(), Free(1), Idle, At(r), 5, DONE), n);
    states := Onward(states, 1, c1, Later(Two(), Free(1), Idle, Search(r), 5, DONE), n);
    states := Onward(states, 1, c1, Later(Two(), Free(1), Idle, LeafUp(r), 5, DONE), n);
    states := Onward(states, 1, c1, Later(Two(), Locked(1, 1), Idle, Latched(w, true), 5, DONE), n);
    states := Onward(states, 1, c1, Later(Two(), Locked(1, 1), Idle, Drawn(w, 5, true), 6, DONE), n);
    states := Onward(states, 1, c1, Act(Last(states), 1, c1), n);
  }
}
