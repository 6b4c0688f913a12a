/** No latch is left behind: whatever is locked or pinned in `Olc` is held by a thread that will give it back.
    With that, the whole invariant, over steps and runs. */
module OlcOwned {
  import opened History
  import opened Tree
  import opened Latch
  import opened Olc
  import opened OlcInv
  import opened OlcSplits

  /** At this point a thread holds the page, under just this latch. */
  ghost predicate HoldsAt(pc: PC, p: PageId, a: Abstract) {
    match a
    case Free(_) => false
    case Pinned(n, _) => Standing(pc) == Some(Ref(p, n, Pin))
    case Locked(n, _) => Standing(pc) == Some(Ref(p, n, Write)) || (pc.Mark? && pc.next == Ref(p, n, Write))
    case Obsolete(n, _) => (pc.Correct? || pc.DropFrom?) && pc.next == Ref(p, n, Write)
  }

  ghost predicate OwnedAt(s: State, p: PageId)
    requires p < |s.latches|
  {
    var a := s.latches[p];
    a.Free? || (a.owner < |s.threads| && HoldsAt(s.threads[a.owner].pc, p, a))
  }

  /** Every latch that is not free is held by its owner. */
  ghost predicate Owned(s: State) {
    forall p :: 0 <= p < |s.latches| ==> OwnedAt(s, p)
  }

  ghost predicate Inv(s: State) {
    Coherent(s) && Owned(s)
  }

  // ----- steps ----------------------------------------------------------------------------------

  /** What thread `i` leaves of its own, or makes its own, it holds at its next point; new latches are free. */
  ghost predicate KeepsOwn(s: State, u: State, i: nat) {
    && i < |s.threads| == |u.threads| && |s.latches| <= |u.latches|
    && (forall j :: 0 <= j < |s.threads| && j != i ==> u.threads[j] == s.threads[j])
    && (forall p :: 0 <= p < |s.latches| ==> OwnMoves(s, u, i, p))
    && (forall p :: |s.latches| <= p < |u.latches| ==> u.latches[p].Free?)
  }

  ghost predicate OwnMoves(s: State, u: State, i: nat, p: PageId)
    requires i < |u.threads| && p < |s.latches| && p < |u.latches|
  {
    || u.latches[p].Free?
    || (OwnedByOther(s.latches[p], i) && u.latches[p] == s.latches[p])
    || (u.latches[p].owner == i && HoldsAt(u.threads[i].pc, p, u.latches[p]))
  }

  lemma {:induction false} KeepsOwned(s: State, u: State, i: nat)
    requires Owned(s) && KeepsOwn(s, u, i)
    ensures Owned(u)
  {
    forall p | 0 <= p < |u.latches|
      ensures OwnedAt(u, p)
    {
      if p < |s.latches| { assert OwnMoves(s, u, i, p) && OwnedAt(s, p); }
    }
  }

  /** `Broken` is a point that no thread reaches. */
  ghost predicate KeepsOrBreaks(s: State, u: State, i: nat) {
    && i < |u.threads| == |s.threads|
    && (u.threads[i].pc.Broken? || KeepsOwn(s, u, i))
  }

  lemma {:induction false} OwnedHere(s: State, p: PageId)
    requires Owned(s) && p < |s.latches|
    ensures OwnedAt(s, p)
  {
  }

  lemma {:induction false} OwnRoot(s: State, i: nat, ch: Choice)
    requires Coherent(s) && Owned(s) && i < |s.threads|
    requires (var pc := s.threads[i].pc; pc.Idle? || pc.RootLoad? || pc.RootLatch? || pc.RootLen? || pc.RootUp?)
    ensures KeepsOrBreaks(s, Act(s, i, ch), i)
  {
    var u := Act(s, i, ch);
    assert ThreadOk(s, i, s.threads[i]) && |s.latches| == |s.blocks|;
    hide Coherent, Owned, Covers, Found, Full, HasOverflow, HasUnderflow, ChildPos;
    forall p | 0 <= p < |s.latches|
      ensures u.threads[i].pc.Broken? || OwnMoves(s, u, i, p)
    {
      OwnedHere(s, p);
    }
  }

  lemma {:induction false} OwnSearch(s: State, i: nat, ch: Choice)
    requires Coherent(s) && Owned(s) && i < |s.threads|
    requires (var pc := s.threads[i].pc; pc.At? || pc.Search? || pc.Check1? || pc.LatchNext?)
    ensures KeepsOrBreaks(s, Act(s, i, ch), i)
  {
    var u := Act(s, i, ch);
    assert ThreadOk(s, i, s.threads[i]) && |s.latches| == |s.blocks|;
    hide Coherent, Owned, Covers, Found, Full, HasOverflow, HasUnderflow, ChildPos;
    forall p | 0 <= p < |s.latches|
      ensures u.threads[i].pc.Broken? || OwnMoves(s, u, i, p)
    {
      OwnedHere(s, p);
    }
  }

  lemma {:induction false} OwnNext(s: State, i: nat, ch: Choice)
    requires Coherent(s) && Owned(s) && i < |s.threads|
    requires (var pc := s.threads[i].pc; pc.Check2? || pc.NextLen? || pc.Descend?)
    ensures KeepsOrBreaks(s, Act(s, i, ch), i)
  {
    var u := Act(s, i, ch);
    assert ThreadOk(s, i, s.threads[i]) && |s.latches| == |s.blocks|;
    hide Coherent, Owned, Covers, Found, Full, HasOverflow, HasUnderflow, ChildPos;
    forall p | 0 <= p < |s.latches|
      ensures u.threads[i].pc.Broken? || OwnMoves(s, u, i, p)
    {
      OwnedHere(s, p);
    }
  }

  lemma {:induction false} OwnLockParent(s: State, i: nat, ch: Choice)
    requires Coherent(s) && Owned(s) && i < |s.threads|
    requires s.threads[i].pc.UpCur?
    ensures KeepsOrBreaks(s, Act(s, i, ch), i)
  {
    var u := Act(s, i, ch);
    assert ThreadOk(s, i, s.threads[i]) && |s.latches| == |s.blocks|;
    hide Coherent, Owned, Covers, Found, Full, HasOverflow, HasUnderflow, ChildPos;
    forall p | 0 <= p < |s.latches|
      ensures u.threads[i].pc.Broken? || OwnMoves(s, u, i, p)
    {
      OwnedHere(s, p);
    }
  }

  lemma {:induction false} OwnLockChild(s: State, i: nat, ch: Choice)
    requires Coherent(s) && Owned(s) && i < |s.threads|
    requires s.threads[i].pc.UpNext?
    ensures KeepsOrBreaks(s, Act(s, i, ch), i)
  {
    var u := Act(s, i, ch);
    assert ThreadOk(s, i, s.threads[i]) && |s.latches| == |s.blocks|;
    hide Coherent, Owned, Covers, Found, Full, HasOverflow, HasUnderflow, ChildPos;
    forall p | 0 <= p < |s.latches|
      ensures u.threads[i].pc.Broken? || OwnMoves(s, u, i, p)
    {
      OwnedHere(s, p);
    }
  }

  lemma {:induction false} OwnMarks(s: State, i: nat, ch: Choice)
    requires Coherent(s) && Owned(s) && i < |s.threads|
    requires (var pc := s.threads[i].pc; pc.Mark? || pc.DropFrom?)
    ensures KeepsOrBreaks(s, Act(s, i, ch), i)
  {
    var u := Act(s, i, ch);
    assert ThreadOk(s, i, s.threads[i]) && |s.latches| == |s.blocks|;
    hide Coherent, Owned, Covers, Found, Full, HasOverflow, HasUnderflow, ChildPos;
    forall p | 0 <= p < |s.latches|
      ensures u.threads[i].pc.Broken? || OwnMoves(s, u, i, p)
    {
      OwnedHere(s, p);
    }
  }

  lemma {:induction false} OwnPages(s: State, i: nat, ch: Choice)
    requires Coherent(s) && Owned(s) && i < |s.threads|
    requires (var pc := s.threads[i].pc; pc.RootSplit? || pc.Correct?)
    ensures KeepsOrBreaks(s, Act(s, i, ch), i)
  {
    var u := Act(s, i, ch);
    assert ThreadOk(s, i, s.threads[i]) && |s.latches| == |s.blocks|;
    hide Coherent, Owned, Covers, Found, Full, CanSplit, Divisible, SplitChild, SplitIndexRoot, SplitLeafRoot;
    forall p | 0 <= p < |s.latches|
      ensures u.threads[i].pc.Broken? || OwnMoves(s, u, i, p)
    {
      OwnedHere(s, p);
    }
  }

  lemma {:induction false} OwnLeaf(s: State, i: nat, ch: Choice)
    requires Coherent(s) && Owned(s) && i < |s.threads|
    requires (var pc := s.threads[i].pc; pc.LeafUp? || pc.PinLoad? || pc.PinCas?)
    ensures KeepsOrBreaks(s, Act(s, i, ch), i)
  {
    var u := Act(s, i, ch);
    assert ThreadOk(s, i, s.threads[i]) && |s.latches| == |s.blocks|;
    hide Coherent, Owned, Covers, Found, Full, HasOverflow, HasUnderflow, ChildPos;
    forall p | 0 <= p < |s.latches|
      ensures u.threads[i].pc.Broken? || OwnMoves(s, u, i, p)
    {
      OwnedHere(s, p);
    }
  }

  lemma {:induction false} OwnWrite(s: State, i: nat, ch: Choice)
    requires Coherent(s) && Owned(s) && i < |s.threads|
    requires (var pc := s.threads[i].pc; pc.Latched? || pc.Drawn? || pc.Applied?)
    ensures KeepsOrBreaks(s, Act(s, i, ch), i)
  {
    var u := Act(s, i, ch);
    assert ThreadOk(s, i, s.threads[i]) && |s.latches| == |s.blocks|;
    hide Coherent, Owned, Covers, Full, Written, Takes;
    forall p | 0 <= p < |s.latches|
      ensures u.threads[i].pc.Broken? || OwnMoves(s, u, i, p)
    {
      OwnedHere(s, p);
    }
  }

  lemma {:induction false} OwnDrops(s: State, i: nat, ch: Choice)
    requires Coherent(s) && Owned(s) && i < |s.threads|
    requires (var pc := s.threads[i].pc; pc.Committed? || pc.Abort?)
    ensures KeepsOrBreaks(s, Act(s, i, ch), i)
  {
    var u := Act(s, i, ch);
    assert ThreadOk(s, i, s.threads[i]) && |s.latches| == |s.blocks|;
    hide Coherent, Owned, Covers, Found, Full, HasOverflow, HasUnderflow, ChildPos;
    forall p | 0 <= p < |s.latches|
      ensures u.threads[i].pc.Broken? || OwnMoves(s, u, i, p)
    {
      OwnedHere(s, p);
    }
  }

  lemma {:induction false} ActKeepsOwned(s: State, i: nat, ch: Choice)
    requires Coherent(s) && Owned(s) && i < |s.threads| && Coherent(Act(s, i, ch))
    ensures Owned(Act(s, i, ch))
  {
    hide Act, Coherent, Owned, KeepsOwn;
    Unreachable(s, i);
    match s.threads[i].pc {
      case Idle => OwnRoot(s, i, ch);
      case RootLoad => OwnRoot(s, i, ch);
      case RootLatch(_) => OwnRoot(s, i, ch);
      case RootLen(_) => OwnRoot(s, i, ch);
      case RootUp(_) => OwnRoot(s, i, ch);
      case RootSplit(_) => OwnPages(s, i, ch);
      case At(_) => OwnSearch(s, i, ch);
      case Search(_) => OwnSearch(s, i, ch);
      case Check1(_, _, _) => OwnSearch(s, i, ch);
      case LatchNext(_, _, _) => OwnSearch(s, i, ch);
      case Check2(_, _, _) => OwnNext(s, i, ch);
      case NextLen(_, _, _) => OwnNext(s, i, ch);
      case UpCur(_, _, _, _) => OwnLockParent(s, i, ch);
      case UpNext(_, _, _, _) => OwnLockChild(s, i, ch);
      case Mark(_, _, _) => OwnMarks(s, i, ch);
      case Correct(_, _, _) => OwnPages(s, i, ch);
      case DropFrom(_, _) => OwnMarks(s, i, ch);
      case Descend(_, _) => OwnNext(s, i, ch);
      case LeafUp(_) => OwnLeaf(s, i, ch);
      case PinLoad(_) => OwnLeaf(s, i, ch);
      case PinCas(_, _) => OwnLeaf(s, i, ch);
      case Latched(_, _) => OwnWrite(s, i, ch);
      case Drawn(_, _, _) => OwnWrite(s, i, ch);
      case Applied(_, _) => OwnWrite(s, i, ch);
      case Committed(_) => OwnDrops(s, i, ch);
      case Abort(_) => OwnDrops(s, i, ch);
      case _ =>
    }
    Unreachable(Act(s, i, ch), i);
    KeepsOwned(s, Act(s, i, ch), i);
  }

  /** Every step of every thread keeps the invariant, and leaves no latch behind; the split of a leaf root must
      be clean. */
  lemma {:induction false} ActKeepsInv(s: State, i: nat, ch: Choice)
    requires Inv(s) && i < |s.threads| && Clean(s, i)
    ensures Inv(Act(s, i, ch))
  {
    hide Act, Coherent, Owned;
    ActKeepsCoherent(s, i, ch);
    ActKeepsOwned(s, i, ch);
  }

  // ----- runs -------------------------------------------------------------------------------------

  lemma {:induction false} InitialInv(s: State)
    requires Initial(s)
    ensures Inv(s)
  {
    InitialCoherent(s);
    hide Coherent;
  }

  lemma {:induction false} ReachableInv(states: seq<State>, n: nat)
    requires Run(states) && n < |states|
    ensures Inv(states[n])
  {
    hide Act, Inv, Initial;
    if n == 0 {
      InitialInv(states[0]);
    } else {
      ReachableInv(states, n - 1);
      var i, ch := StepOf(states, n - 1);
      ActKeepsInv(states[n - 1], i, ch);
    }
  }

  lemma {:induction false} StepOf(states: seq<State>, n: nat) returns (i: nat, ch: Choice)
    requires Run(states) && n + 1 < |states|
    ensures StepBy(states[n], states[n + 1], i, ch)
  {
    hide StepBy, Initial;
    assert Step(states[n], states[n + 1]);
    i, ch :| StepBy(states[n], states[n + 1], i, ch);
  }

  /** In every run: when all threads are at rest, all latches are free. */
  lemma {:induction false} QuietIsUnlatched(states: seq<State>, n: nat)
    requires Run(states) && n < |states|
    requires forall i :: 0 <= i < |states[n].threads| ==> states[n].threads[i].pc.Idle?
    ensures forall p :: 0 <= p < |states[n].latches| ==> states[n].latches[p].Free?
  {
    ReachableInv(states, n);
    var s := states[n];
    hide Coherent, Run;
    forall p | 0 <= p < |s.latches|
      ensures s.latches[p].Free?
    {
      assert OwnedAt(s, p);
    }
  }
}
