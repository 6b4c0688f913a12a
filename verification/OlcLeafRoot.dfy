/** The split of a leaf root among several threads: exactly when it is safe for the thread that makes it, and
    why nobody else may be about to latch the root meanwhile. */
module OlcLeafRoot {
  import opened History
  import opened Tree
  import opened Latch
  import opened MvIndex
  import opened Olc
  import opened OlcInv
  import opened OlcRuns
  import opened OlcOwned

  // ----- runs in which a split need not be clean ------------------------------------------------

  ghost predicate FreeStep(s: State, u: State) {
    exists i: nat, ch: Choice :: i < |s.threads| && u == Act(s, i, ch)
  }

  ghost predicate FreeRun(states: seq<State>) {
    |states| > 0 && forall n :: 0 <= n < |states| - 1 ==> FreeStep(states[n], states[n + 1])
  }

  function Last(states: seq<State>): State
    requires states != []
  {
    states[|states| - 1]
  }

  /** One more step; the start of the run stays, and so does the state at `n`. */
  lemma {:induction false} Onward(states: seq<State>, i: nat, ch: Choice, u: State, n: nat)
    returns (longer: seq<State>)
    requires FreeRun(states) && i < |Last(states).threads| && u == Act(Last(states), i, ch)
    requires n < |states|
    ensures FreeRun(longer) && Last(longer) == u && |longer| == |states| + 1
    ensures longer[0] == states[0] && longer[n] == states[n]
  {
    hide Act;
    longer := states + [u];
    assert FreeStep(Last(states), u);
    forall k | 0 <= k < |longer| - 1
      ensures FreeStep(longer[k], longer[k + 1])
    {
      if k < |states| - 1 { assert FreeStep(states[k], states[k + 1]); }
    }
  }

  // ----- a split whose key stays left is safe ---------------------------------------------------

  ghost predicate IndexRoot(s: State) {
    s.root < |s.blocks| && s.blocks[s.root].page.Index?
  }

  lemma {:induction false} RootSplitStays(s: State, i: nat, ch: Choice)
    requires Inv(s) && IndexRoot(s) && i < |s.threads| && s.threads[i].pc.RootSplit?
    ensures IndexRoot(Act(s, i, ch))
  {
    assert ThreadOk(s, i, s.threads[i]) && |s.latches| == |s.blocks|;
    hide Inv, HasOverflow;
  }

  lemma {:induction false} ChildSplitStays(s: State, i: nat, ch: Choice)
    requires Inv(s) && IndexRoot(s) && i < |s.threads| && s.threads[i].pc.Correct?
    ensures IndexRoot(Act(s, i, ch))
  {
    var pc := s.threads[i].pc;
    if CanSplit(s.blocks, pc.cur.page, pc.pos) { RootIsNoChild(s.c, s.blocks, s.root, pc.cur.page, pc.pos); }
    hide Inv, InBounds;
  }

  lemma {:induction false} WriteStays(s: State, i: nat, ch: Choice)
    requires Inv(s) && IndexRoot(s) && i < |s.threads| && s.threads[i].pc.Drawn?
    ensures IndexRoot(Act(s, i, ch))
  {
    HoldsAtLeaf(s, i);
    hide Inv, InBounds, Written, Takes;
  }

  /** Once the root is an index page, it stays one, and every step is clean. */
  lemma {:induction false} IndexRootStays(s: State, i: nat, ch: Choice)
    requires Inv(s) && IndexRoot(s) && i < |s.threads|
    ensures Clean(s, i) && IndexRoot(Act(s, i, ch))
  {
    hide Act, Inv;
    match s.threads[i].pc {
      case RootSplit(_) => RootSplitStays(s, i, ch);
      case Correct(_, _, _) => ChildSplitStays(s, i, ch);
      case Drawn(_, _, _) => WriteStays(s, i, ch);
      case _ => OtherStepsKeep(s, i, ch);
    }
  }

  lemma {:induction false} KeepsFromIndexRoot(states: seq<State>, n: nat)
    requires FreeRun(states) && n < |states| && Inv(states[0]) && IndexRoot(states[0])
    ensures Inv(states[n]) && IndexRoot(states[n])
  {
    hide Act, Inv;
    if n > 0 {
      KeepsFromIndexRoot(states, n - 1);
      var s := states[n - 1];
      assert FreeStep(s, states[n]);
      var i: nat, ch :| i < |s.threads| && states[n] == Act(s, i, ch);
      IndexRootStays(s, i, ch);
      ActKeepsInv(s, i, ch);
    }
  }

  // ----- a split whose key belongs right breaks the tree ------------------------------------------

  ghost predicate SplitsLeafRoot(s: State, i: nat) {
    && Inv(s) && i < |s.threads| && s.threads[i].pc.RootSplit? && s.blocks[s.root].page.Leaf?
    && s.threads[i].job.Insert?
  }

  /** The state after the split, but for where the thread stands. */
  ghost predicate HasSplit(s: State, u: State, i: nat, cur: Ref) {
    && i < |s.threads| && s.threads[i].job.Insert?
    && u.c == s.c && u.threads == s.threads && u.clock == s.clock && u.applied == s.applied
    && |u.latches| == |u.blocks| && u.root < |u.blocks| && cur.page < |u.blocks| && cur.mode == Write
    && TreeOk(u.c, u.blocks, u.root)
    && u.blocks[cur.page].page.Leaf? && !InRange(u.blocks[cur.page], s.threads[i].job.key)
  }

  lemma {:induction false} SplitGoesLeft(s: State, i: nat, ch: Choice) returns (u: State)
    requires SplitsLeafRoot(s, i) && Divisible(s.blocks[s.root]) && !StaysLeft(s, s.threads[i].job.key)
    ensures HasSplit(s, u, i, s.threads[i].pc.cur)
    ensures Act(s, i, ch) == Go(u, i, At(s.threads[i].pc.cur))
  {
    assert ThreadOk(s, i, s.threads[i]);
    SplitLeafRootKeepsTree(s.c, s.blocks, s.root);
    LeafRootIsAlone(s.c, s.blocks, s.root);
    hide TreeOk, LogsBelow;
    u := s.(blocks := SplitLeafRoot(s.blocks, s.root), root := |s.blocks| + 1,
            latches := s.latches + [Free(0), Free(0)]);
  }

  /** The thread goes on to the left half and locks it again for its write; it holds it already. */
  lemma {:induction false} WalksOn(s: State, u: State, i: nat, cur: Ref, ch: Choice)
    requires HasSplit(s, u, i, cur)
    ensures Act(Go(u, i, At(cur)), i, ch) == Go(u, i, Search(cur))
    ensures Act(Go(u, i, Search(cur)), i, ch) == Go(u, i, LeafUp(cur))
    ensures Act(Go(u, i, LeafUp(cur)), i, ch) == Go(u, i, Latched(cur, true))
  {
    hide TreeOk;
  }

  function Drew(u: State, i: nat, cur: Ref): State
    requires i < |u.threads| && u.clock <= MAX_U64
  {
    Go(u.(clock := u.clock + 1), i, Drawn(cur, u.clock, true))
  }

  lemma {:induction false} Draws(s: State, u: State, i: nat, cur: Ref, ch: Choice)
    requires HasSplit(s, u, i, cur) && u.clock <= MAX_U64
    ensures Act(Go(u, i, Latched(cur, true)), i, ch) == Drew(u, i, cur)
  {
    hide TreeOk;
  }

  lemma {:induction false} WritesWrong(s: State, u: State, i: nat, cur: Ref, ch: Choice)
    requires HasSplit(s, u, i, cur) && u.clock <= MAX_U64
    ensures var v := Act(Drew(u, i, cur), i, ch); !TreeOk(v.c, v.blocks, v.root)
  {
    var job := s.threads[i].job;
    var w := Drew(u, i, cur);
    assert InBounds(w, Drawn(cur, u.clock, true)) && w.threads[i].job == job;
    MisplacedBreaksTree(u.c, u.blocks, u.root, cur.page, job.key, OpOf(job, u.clock));
    hide TreeOk, Written, InBounds;
  }

  /** The steps of the thread alone, up to its write: the record goes where no search for it will look. */
  lemma {:induction false} RightKeyBreaksTree(s: State, i: nat, ch: Choice) returns (states: seq<State>)
    requires SplitsLeafRoot(s, i) && Divisible(s.blocks[s.root]) && !StaysLeft(s, s.threads[i].job.key)
    requires s.clock <= MAX_U64
    ensures FreeRun(states) && |states| > 1 && states[0] == s && states[1] == Act(s, i, ch)
    ensures var u := Last(states); !TreeOk(u.c, u.blocks, u.root)
  {
    var cur := s.threads[i].pc.cur;
    var u := SplitGoesLeft(s, i, ch);
    WalksOn(s, u, i, cur, ch);
    Draws(s, u, i, cur, ch);
    WritesWrong(s, u, i, cur, ch);
    var w := Drew(u, i, cur);
    assert s == [s][0] && FreeRun([s]);
    hide Act, TreeOk, Inv, FreeStep, FreeRun, Divisible, StaysLeft, InRange, Drew;
    states := Onward([s], i, ch, Go(u, i, At(cur)), 0);
    states := Onward(states, i, ch, Go(u, i, Search(cur)), 1);
    states := Onward(states, i, ch, Go(u, i, LeafUp(cur)), 1);
    states := Onward(states, i, ch, Go(u, i, Latched(cur, true)), 1);
    states := Onward(states, i, ch, w, 1);
    states := Onward(states, i, ch, Act(w, i, ch), 1);
  }

  ghost predicate KeepsTree(states: seq<State>)
    requires states != []
  {
    var u := Last(states); TreeOk(u.c, u.blocks, u.root)
  }

  ghost predicate BeginsWith(states: seq<State>, s: State, u: State) {
    |states| > 1 && states[0] == s && states[1] == u
  }

  /** When an insert splits a leaf root, and nobody else is about to latch it, then whatever happens next, in
      whatever order, the tree stays a tree if and only if the key belongs to the left half. */
  lemma {:induction false} LeafRootSplitIsSafeExactly(s: State, i: nat, ch: Choice)
    requires SplitsLeafRoot(s, i) && NobodyBorrows(s, i) && s.clock <= MAX_U64
    ensures Divisible(s.blocks[s.root])
    ensures (forall states :: FreeRun(states) && BeginsWith(states, s, Act(s, i, ch)) ==> KeepsTree(states))
            <==> StaysLeft(s, s.threads[i].job.key)
  {
    RootDivisible(s, i);
    hide Act, Inv, TreeOk, StaysLeft;
    if StaysLeft(s, s.threads[i].job.key) {
      forall states | FreeRun(states) && BeginsWith(states, s, Act(s, i, ch))
        ensures KeepsTree(states)
      {
        CleanSplitKeeps(states, s, i, ch);
      }
    } else {
      var states := RightKeyBreaksTree(s, i, ch);
      assert BeginsWith(states, s, Act(s, i, ch)) && !KeepsTree(states);
    }
  }

  lemma {:induction false} RootDivisible(s: State, i: nat)
    requires SplitsLeafRoot(s, i)
    ensures Divisible(s.blocks[s.root]) && s.threads[i].pc.cur.page == s.root
  {
    assert ThreadOk(s, i, s.threads[i]);
    assert PageOk(s.c, s.blocks, s.root);
    HalvesOk(s.c, s.blocks, s.blocks[s.root]);
    hide TreeOk;
  }

  lemma {:induction false} CleanSplitKeeps(states: seq<State>, s: State, i: nat, ch: Choice)
    requires SplitsLeafRoot(s, i) && NobodyBorrows(s, i) && Divisible(s.blocks[s.root])
    requires StaysLeft(s, s.threads[i].job.key)
    requires FreeRun(states) && BeginsWith(states, s, Act(s, i, ch))
    ensures KeepsTree(states)
  {
    ActKeepsInv(s, i, ch);
    NewRootIsIndex(s, i, ch);
    hide Act, FreeStep;
    var rest := states[1..];
    forall n | 0 <= n < |rest| - 1
      ensures FreeStep(rest[n], rest[n + 1])
    {
      assert FreeStep(states[n + 1], states[n + 2]);
    }
    KeepsFromIndexRoot(rest, |rest| - 1);
  }

  lemma {:induction false} NewRootIsIndex(s: State, i: nat, ch: Choice)
    requires SplitsLeafRoot(s, i) && Divisible(s.blocks[s.root])
    ensures IndexRoot(Act(s, i, ch))
  {
    RootDivisible(s, i);
    assert |s.latches| == |s.blocks|;
    hide Inv;
  }
}
