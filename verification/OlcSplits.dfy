/** The steps of the machine in `Olc` that change pages: splits of the root and of a child, and the
    operation itself; and, with them, the invariant over whole runs. */
module OlcSplits {
  import opened History
  import opened Tree
  import opened Latch
  import opened Olc
  import opened OlcInv
  import opened OlcOthers
  import opened OlcSteps

  // ----- logs -----------------------------------------------------------------------------

  lemma {:induction false} HalvesLogs(b: Block, bound: nat)
    requires Divisible(b) && LogsBelow(b, bound)
    ensures LogsBelow(SplitBlock(b).0, bound) && LogsBelow(SplitBlock(b).2, bound)
  {
    hide LogOk;
  }

  lemma {:induction false} LogLater(r: Record, v: Version, bound: nat)
    requires LogOk(r, v) && v < bound
    ensures LogOk(r, bound)
  {
  }

  lemma {:induction false} LogExtends(r: Record, op: Op, bound: nat)
    requires LogOk(r, op.version) && op.version < bound
    ensures LogOk(Record(r.key, r.log + [op]), bound)
  {
  }

  /** A version above all others of the leaf keeps every log ascending. */
  lemma {:induction false} WrittenLogs(b: Block, key: Key, op: Op, bound: nat)
    requires b.page.Leaf? && LogsBelow(b, op.version) && op.version < bound
    ensures LogsBelow(b.(page := Leaf(Written(b.page.records, key, op))), bound)
  {
    var rs := b.page.records;
    var pos := LowerBound(Keys(rs), key);
    var ws := Written(rs, key, op);
    var found := pos < |rs| && rs[pos].key == key;
    assert LogOk(Record(key, [op]), bound);
    forall i | 0 <= i < |ws|
      ensures LogOk(ws[i], bound)
    {
      hide LogOk, LowerBound;
      if found && i == pos {
        assert LogOk(rs[pos], op.version);
        LogExtends(rs[pos], op, bound);
      } else if found || !op.Push? || i < pos {
        assert ws[i] == rs[i] && LogOk(rs[i], op.version);
        LogLater(rs[i], op.version, bound);
      } else if i > pos {
        assert ws[i] == rs[i - 1] && LogOk(rs[i - 1], op.version);
        LogLater(rs[i - 1], op.version, bound);
      }
    }
  }

  // ----- drawing a version, applying the operation --------------------------------------------

  lemma {:induction false} DrawVersion(s: State, i: nat, ch: Choice)
    requires Coherent(s) && i < |s.threads| && s.threads[i].pc.Latched?
    ensures Coherent(Act(s, i, ch))
  {
    var t := s.threads[i];
    assert ThreadOk(s, i, t);
    if s.clock <= MAX_U64 {
      var u := Act(s, i, ch);
      ClockShared(s, u);
      hide Shared, LogsBelow;
      assert forall p :: Full(u, p) == Full(s, p);
      BlocksAlike(s, u, i);
      assert TrustMoves(s, u, i) by {
        forall x | Trusts(u, u.threads[i], x)
          ensures Trusts(s, t, x)
        {
        }
      }
      StepFits(s, u, i);
    }
  }

  lemma {:induction false} ClockShared(s: State, u: State)
    requires Shared(s) && s.clock <= u.clock && u == s.(clock := u.clock, threads := u.threads)
    ensures Shared(u) && forall p :: 0 <= p < |s.blocks| ==> LogsBelow(u.blocks[p], s.clock)
  {
    forall p | 0 <= p < |u.blocks|
      ensures LogsBelow(u.blocks[p], u.clock)
    {
      assert LogsBelow(s.blocks[p], s.clock);
    }
  }

  lemma {:induction false} BlocksAlike(s: State, u: State, i: nat)
    requires i < |s.threads| == |u.threads| && |s.blocks| == |s.latches|
    requires u.blocks == s.blocks && u.latches == s.latches && u.root == s.root && u.c == s.c && s.clock <= u.clock
    requires forall j :: 0 <= j < |s.threads| && j != i ==> u.threads[j] == s.threads[j]
    ensures Guarantee(s, u, i)
  {
    forall p | 0 <= p < |s.blocks|
      ensures PageMoves(s, u, i, p) && LatchMoves(s.latches[p], u.latches[p], i)
    {
    }
  }

  lemma {:induction false} ApplyOp(s: State, i: nat, ch: Choice)
    requires Coherent(s) && i < |s.threads| && s.threads[i].pc.Drawn?
    ensures Coherent(Act(s, i, ch))
  {
    var t := s.threads[i];
    assert ThreadOk(s, i, t);
    var cur := t.pc.cur;
    var u := Act(s, i, ch);
    AppliedShared(s, u, i);
    AppliedMoves(s, u, i);
    hide Shared, LogsBelow, Written;
    assert TrustMoves(s, u, i) by {
      forall x | Trusts(u, u.threads[i], x)
        ensures Trusts(s, t, x)
      {
      }
    }
    StepFits(s, u, i);
  }

  lemma {:induction false} AppliedShared(s: State, u: State, i: nat)
    requires Coherent(s) && i < |s.threads| && s.threads[i].pc.Drawn? && InBounds(s, s.threads[i].pc)
    requires u == ActWrite(s, i)
    ensures Shared(u)
  {
    var t := s.threads[i];
    assert ThreadOk(s, i, t);
    var cur, op := t.pc.cur, OpOf(t.job, t.pc.version);
    LeafWriteKeepsTree(s.c, s.blocks, s.root, cur.page, t.job.key, op);
    WrittenLogs(s.blocks[cur.page], t.job.key, op, s.clock);
    hide TreeOk, LogsBelow, Written, ThreadOk, Coherent;
    forall p | 0 <= p < |u.blocks|
      ensures LogsBelow(u.blocks[p], u.clock)
    {
      assert LogsBelow(s.blocks[p], s.clock);
    }
  }

  lemma {:induction false} AppliedMoves(s: State, u: State, i: nat)
    requires Coherent(s) && i < |s.threads| && s.threads[i].pc.Drawn? && InBounds(s, s.threads[i].pc)
    requires u == ActWrite(s, i)
    ensures Guarantee(s, u, i)
  {
    var t := s.threads[i];
    assert ThreadOk(s, i, t);
    var cur, op := t.pc.cur, OpOf(t.job, t.pc.version);
    assert RecordsOk(s.blocks[cur.page], s.blocks[cur.page].page.records) by { assert PageOk(s.c, s.blocks, cur.page); }
    WrittenOk(s.blocks[cur.page], s.blocks[cur.page].page.records, t.job.key, op);
    assert |s.latches| == |s.blocks|;
    hide Shared, LogsBelow, Written, Coherent;
    forall p | 0 <= p < |s.blocks|
      ensures PageMoves(s, u, i, p) && LatchMoves(s.latches[p], u.latches[p], i)
    {
    }
  }

  // ----- splitting the root -------------------------------------------------------------------

  lemma {:induction false} SplitTheRoot(s: State, i: nat, ch: Choice)
    requires Coherent(s) && i < |s.threads| && s.threads[i].pc.RootSplit? && s.blocks[s.root].page.Index?
    ensures Coherent(Act(s, i, ch))
  {
    var t := s.threads[i];
    assert ThreadOk(s, i, t);
    SplitIndexRootKeepsTree(s.c, s.blocks, s.root);
    var u := Act(s, i, ch);
    assert u.blocks == SplitIndexRoot(s.blocks, s.root);
    RootLogs(s, u);
    assert !Full(u, s.root) && RootOk(u.blocks, u.root);
    hide TreeOk, LogsBelow;
    RootMoved(s, u, i);
    assert TrustMoves(s, u, i);
    StepFits(s, u, i);
  }

  lemma {:induction false} RootLogs(s: State, u: State)
    requires Shared(s) && Divisible(s.blocks[s.root]) && s.blocks[s.root].page.Index?
    requires u.blocks == SplitIndexRoot(s.blocks, s.root) && u.clock == s.clock
    ensures forall p :: 0 <= p < |u.blocks| ==> LogsBelow(u.blocks[p], u.clock)
  {
    var (left, sep, right) := SplitBlock(s.blocks[s.root]);
    assert u.blocks[|s.blocks|] == left && u.blocks[|s.blocks| + 1] == right;
    assert u.blocks[s.root].page.Index? && left.page.Index? && right.page.Index?;
    assert forall p :: 0 <= p < |s.blocks| && p != s.root ==> u.blocks[p] == s.blocks[p];
    hide TreeOk;
    forall p | 0 <= p < |u.blocks|
      ensures LogsBelow(u.blocks[p], u.clock)
    {
      if p < |s.blocks| { assert LogsBelow(s.blocks[p], s.clock); }
    }
  }

  lemma {:induction false} RootMoved(s: State, u: State, i: nat)
    requires Coherent(s) && i < |s.threads| && s.threads[i].pc.RootSplit? && Divisible(s.blocks[s.root])
    requires s.blocks[s.root].page.Index?
    requires u == Go(s.(blocks := SplitIndexRoot(s.blocks, s.root), latches := s.latches + [Free(0), Free(0)]), i,
                     At(s.threads[i].pc.cur))
    ensures Guarantee(s, u, i)
  {
    assert ThreadOk(s, i, s.threads[i]);
    assert |s.latches| == |s.blocks|;
    hide Shared, Coherent;
    forall p | 0 <= p < |s.blocks|
      ensures PageMoves(s, u, i, p) && LatchMoves(s.latches[p], u.latches[p], i)
    {
    }
  }

  /** The split of a leaf root is safe if it is clean. */
  lemma {:induction false} SplitTheLeafRoot(s: State, i: nat, ch: Choice)
    requires Coherent(s) && i < |s.threads| && s.threads[i].pc.RootSplit? && s.blocks[s.root].page.Leaf? && Clean(s, i)
    ensures Coherent(Act(s, i, ch))
  {
    var t := s.threads[i];
    assert ThreadOk(s, i, t);
    SplitLeafRootKeepsTree(s.c, s.blocks, s.root);
    var u := Act(s, i, ch);
    LeafRootLogs(s, u, i);
    LeafRootMoved(s, u, i);
    LeafRootKnows(s, u, i);
    assert u.threads[i].pc == At(t.pc.cur) && !Full(u, t.pc.cur.page);
    hide TreeOk, LogsBelow, Full, ThreadOk;
    assert TrustMoves(s, u, i);
    StepFits(s, u, i);
  }

  ghost predicate LeafRootSplitBy(s: State, u: State, i: nat) {
    && Coherent(s) && i < |s.threads| && s.threads[i].pc.RootSplit? && Clean(s, i)
    && s.blocks[s.root].page.Leaf? && Divisible(s.blocks[s.root])
    && u == Go(s.(blocks := SplitLeafRoot(s.blocks, s.root), root := |s.blocks| + 1,
                  latches := s.latches + [Free(0), Free(0)]), i, At(s.threads[i].pc.cur))
  }

  lemma {:induction false} LeafRootLogs(s: State, u: State, i: nat)
    requires LeafRootSplitBy(s, u, i)
    ensures forall p :: 0 <= p < |u.blocks| ==> LogsBelow(u.blocks[p], u.clock)
  {
    LeafRootIsAlone(s.c, s.blocks, s.root);
    assert LogsBelow(s.blocks[s.root], s.clock);
    HalvesLogs(s.blocks[s.root], s.clock);
    hide TreeOk, LogsBelow;
  }

  lemma {:induction false} LeafRootMoved(s: State, u: State, i: nat)
    requires LeafRootSplitBy(s, u, i)
    ensures Guarantee(s, u, i)
  {
    LeafRootIsAlone(s.c, s.blocks, s.root);
    assert ThreadOk(s, i, s.threads[i]);
    hide TreeOk, LogsBelow;
    forall p | 0 <= p < |s.blocks|
      ensures PageMoves(s, u, i, p) && LatchMoves(s.latches[p], u.latches[p], i)
    {
    }
  }

  lemma {:induction false} LeafRootKnows(s: State, u: State, i: nat)
    requires LeafRootSplitBy(s, u, i)
    ensures ThreadOk(u, i, u.threads[i])
    ensures var p := s.threads[i].pc.cur.page; p < |u.blocks| && !Full(u, p)
  {
    assert ThreadOk(s, i, s.threads[i]);
    assert PageOk(s.c, s.blocks, s.root);
    HalvesOk(s.c, s.blocks, s.blocks[s.root]);
    hide TreeOk, LogsBelow;
  }

  // ----- splitting a child --------------------------------------------------------------------

  lemma {:induction false} SplitTheChild(s: State, i: nat, ch: Choice)
    requires Coherent(s) && i < |s.threads| && s.threads[i].pc.Correct?
    ensures Coherent(Act(s, i, ch))
  {
    var t := s.threads[i];
    assert ThreadOk(s, i, t);
    var cur, pos, next := t.pc.cur, t.pc.pos, t.pc.next;
    CoveringIsChild(s, cur.page, t.job.key, next.page);
    SplitChildKeepsTree(s.c, s.blocks, s.root, cur.page, pos);
    var u := Act(s, i, ch);
    SplitLogs(s, u, cur.page, pos);
    SplitMoves(s, u, i);
    SplitKnows(s, u, i);
    hide TreeOk, LogsBelow, Guarantee, Covers, Found;
    assert Shared(u);
    assert TrustMoves(s, u, i) by {
      forall x | Trusts(u, u.threads[i], x)
        ensures Trusts(s, t, x)
      {
      }
    }
    forall j | 0 <= j < |s.threads|
      ensures Crowd(u, j, i)
    {
      if j != i { SplitAlone(s, u, i, j); }
    }
    StepFits(s, u, i);
  }

  lemma {:induction false} SplitLogs(s: State, u: State, p: PageId, pos: nat)
    requires Shared(s) && CanSplit(s.blocks, p, pos) && u.blocks == SplitChild(s.blocks, p, pos) && u.clock == s.clock
    ensures forall q :: 0 <= q < |u.blocks| ==> LogsBelow(u.blocks[q], u.clock)
  {
    var x := s.blocks[p].page.children[pos];
    RootIsNoChild(s.c, s.blocks, s.root, p, pos);
    HalvesLogs(s.blocks[x], s.clock);
    hide TreeOk;
    forall q | 0 <= q < |u.blocks|
      ensures LogsBelow(u.blocks[q], u.clock)
    {
      if q < |s.blocks| { assert LogsBelow(s.blocks[q], s.clock); }
    }
  }

  ghost predicate SplitBy(s: State, u: State, i: nat) {
    && Coherent(s) && i < |s.threads| && s.threads[i].pc.Correct?
    && var t := s.threads[i];
       && CanSplit(s.blocks, t.pc.cur.page, t.pc.pos)
       && s.blocks[t.pc.cur.page].page.children[t.pc.pos] == t.pc.next.page
       && u == Go(s.(blocks := SplitChild(s.blocks, t.pc.cur.page, t.pc.pos), latches := s.latches + [Free(0)]), i,
                  DropFrom(t.pc.cur, t.pc.next))
       && TreeOk(u.c, u.blocks, u.root)
  }

  lemma {:induction false} SplitMoves(s: State, u: State, i: nat)
    requires SplitBy(s, u, i)
    ensures Guarantee(s, u, i)
  {
    assert ThreadOk(s, i, s.threads[i]);
    assert |s.latches| == |s.blocks|;
    hide Shared, Coherent, Covers;
    forall p | 0 <= p < |s.blocks|
      ensures PageMoves(s, u, i, p) && LatchMoves(s.latches[p], u.latches[p], i)
    {
    }
  }

  lemma {:induction false} HalfCovers(s: State, u: State, i: nat, x: PageId)
    requires SplitBy(s, u, i) && IsCovering(u, s.threads[i].pc.cur.page, s.threads[i].job.key, x)
    ensures x == s.threads[i].pc.next.page || x == |s.blocks|
    ensures !Full(u, x)
  {
    var t := s.threads[i];
    assert ThreadOk(s, i, t);
    hide TreeOk, SplitChild;
    SplitLands(s.c, s.blocks, s.root, t.pc.cur.page, t.pc.pos, t.job.key);
  }

  lemma {:induction false} SplitKnows(s: State, u: State, i: nat)
    requires SplitBy(s, u, i)
    ensures ThreadOk(u, i, u.threads[i])
  {
    var t := s.threads[i];
    assert ThreadOk(s, i, t);
    RootIsNoChild(s.c, s.blocks, s.root, t.pc.cur.page, t.pc.pos);
    forall x | IsCovering(u, t.pc.cur.page, t.job.key, x)
      ensures !Full(u, x)
    {
      HalfCovers(s, u, i, x);
    }
  }

  lemma {:induction false} MarkedHalf(s: State, u: State, i: nat)
    requires SplitBy(s, u, i)
    ensures HasMarked(s, i, s.threads[i].pc.next)
    ensures u.threads[i].pc == DropFrom(s.threads[i].pc.cur, s.threads[i].pc.next)
  {
    assert ThreadOk(s, i, s.threads[i]);
  }

  lemma {:induction false} KnowsWell(s: State, u: State, i: nat, j: nat)
    requires SplitBy(s, u, i) && j < |s.threads|
    ensures ThreadOk(s, j, s.threads[j])
  {
    hide ThreadOk, Shared;
  }

  /** Nobody else has a good guard on either half. */
  lemma {:induction false} SplitAlone(s: State, u: State, i: nat, j: nat)
    requires SplitBy(s, u, i) && i != j && j < |s.threads| && Guarantee(s, u, i)
    ensures KeepsAway(u, u.threads[j], u.threads[i])
  {
    MarkedHalf(s, u, i);
    KnowsWell(s, u, i, j);
    GuardsAgree(s, j, s.threads[j]);
    hide SplitBy, ThreadOk;
    var next := s.threads[i].pc.next;
    forall x | HasFilled(u, u.threads[i], x)
      ensures !Trusts(u, u.threads[j], x)
    {
      HalfCovers(s, u, i, x);
      if Trusts(u, u.threads[j], x) {
        hide Guarantee;
        TrustStays(s, u, i, j, x);
      }
    }
  }

  // ----- every step, every run ------------------------------------------------------------------

  /** Every step of every thread keeps the invariant; the split of a leaf root must be clean. */
  lemma {:induction false} ActKeepsCoherent(s: State, i: nat, ch: Choice)
    requires Coherent(s) && i < |s.threads| && Clean(s, i)
    ensures Coherent(Act(s, i, ch))
  {
    assert s.threads[i].pc.RootSplit? ==> s.root < |s.blocks|;
    hide Act, Coherent, Shared, ThreadOk;
    match s.threads[i].pc {
      case Idle => QuietRoot(s, i, ch);
      case RootLoad => QuietRoot(s, i, ch);
      case RootLatch(_) => QuietRoot(s, i, ch);
      case RootLen(_) => QuietRootLen(s, i, ch);
      case RootUp(_) => LockRoot(s, i, ch);
      case RootSplit(_) =>
        if s.blocks[s.root].page.Index? { SplitTheRoot(s, i, ch); } else { SplitTheLeafRoot(s, i, ch); }
      case At(_) => QuietAt(s, i, ch);
      case Search(_) => QuietSearch(s, i, ch);
      case Check1(_, _, _) => QuietCheck1(s, i, ch);
      case LatchNext(_, _, _) => QuietLatchNext(s, i, ch);
      case Check2(_, _, _) => QuietCheck2(s, i, ch);
      case NextLen(_, _, _) => QuietNextLen(s, i, ch);
      case UpCur(_, _, _, _) => LockParent(s, i, ch);
      case UpNext(_, _, _, _) => LockChild(s, i, ch);
      case Mark(_, _, _) => MarkChild(s, i, ch);
      case Correct(_, _, _) => SplitTheChild(s, i, ch);
      case DropFrom(_, _) => UnlockChild(s, i, ch);
      case Descend(_, _) => DropParent(s, i, ch);
      case LeafUp(_) => LockLeaf(s, i, ch);
      case PinLoad(_) => QuietRest(s, i, ch);
      case PinCas(_, _) => PinLeaf(s, i, ch);
      case Latched(_, _) => DrawVersion(s, i, ch);
      case Drawn(_, _, _) => ApplyOp(s, i, ch);
      case Applied(_, _) => QuietRest(s, i, ch);
      case Committed(_) => DropLast(s, i, ch);
      case Abort(_) => DropLast(s, i, ch);
      case Underflow => Unreachable(s, i);
      case Broken => Unreachable(s, i);
    }
  }

  /** No thread ever reads past a page, or comes to the underflow correction. */
  lemma {:induction false} Unreachable(s: State, i: nat)
    requires Coherent(s) && i < |s.threads|
    ensures !s.threads[i].pc.Underflow? && !s.threads[i].pc.Broken?
  {
    assert ThreadOk(s, i, s.threads[i]);
  }

  lemma {:induction false} InitialCoherent(s: State)
    requires Initial(s)
    ensures Coherent(s)
  {
    forall i | 0 <= i < |s.threads|
      ensures ThreadOk(s, i, s.threads[i])
    {
    }
    forall i, j | 0 <= i < |s.threads| && 0 <= j < |s.threads|
      ensures Crowd(s, i, j)
    {
    }
  }
}
