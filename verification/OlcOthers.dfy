/** What a step of one thread leaves to all the others: everything they rely on. */
module OlcOthers {
  import opened Tree
  import opened Olc
  import opened OlcInv

  /** A guard of another thread stays good, and what it still vouches for has not changed. */
  lemma {:induction false} HasStays(s: State, u: State, i: nat, j: nat, r: Ref)
    requires Guarantee(s, u, i) && i != j && Has(s, j, r)
    ensures Has(u, j, r)
    ensures Sure(u, r) ==> Sure(s, r) && SameShape(s.blocks[r.page], u.blocks[r.page])
    ensures r.mode != Read ==> u.blocks[r.page] == s.blocks[r.page]
    ensures s.blocks[r.page].page.Leaf? <==> u.blocks[r.page].page.Leaf?
  {
    assert LatchMoves(s.latches[r.page], u.latches[r.page], i);
    assert PageMoves(s, u, i, r.page);
  }

  lemma {:induction false} MarkedStays(s: State, u: State, i: nat, j: nat, r: Ref)
    requires Guarantee(s, u, i) && i != j && HasMarked(s, j, r)
    ensures HasMarked(u, j, r)
    ensures u.blocks[r.page] == s.blocks[r.page]
  {
    assert LatchMoves(s.latches[r.page], u.latches[r.page], i);
    assert PageMoves(s, u, i, r.page);
  }

  lemma {:induction false} SameShapeSameFacts(s: State, u: State, p: PageId)
    requires u.c == s.c && p < |s.blocks| && p < |u.blocks| && SameShape(s.blocks[p], u.blocks[p])
    ensures Full(u, p) == Full(s, p)
    ensures IsIndex(u, p) ==> u.blocks[p].page == s.blocks[p].page
    ensures forall k :: InRange(u.blocks[p], k) == InRange(s.blocks[p], k)
  {
  }

  /** A covering child is one of the children, and not the root. */
  lemma {:induction false} CoveringIsChild(s: State, p: PageId, key: Key, x: PageId)
    requires Shared(s) && IsCovering(s, p, key, x)
    ensures x < |s.blocks| && x != s.root && x != p
    ensures ChildOf(s, p, ChildPos(s.blocks[p].page.keys, key), x)
  {
    RootIsNoChild(s.c, s.blocks, s.root, p, ChildPos(s.blocks[p].page.keys, key));
  }

  lemma {:induction false} CursorStays(s: State, u: State, i: nat, j: nat, r: Ref)
    requires Shared(s) && Guarantee(s, u, i) && i != j && j < |s.threads|
    requires Cursor(s, j, s.threads[j], r)
    requires r.mode == Write ==> forall x :: HasFilled(s, s.threads[j], x) ==> !Trusts(s, s.threads[i], x)
    requires r.mode == Write && s.threads[j].job.Insert? && Full(s, r.page) ==>
             forall x :: IsCovering(s, r.page, s.threads[j].job.key, x) ==> HasFilled(s, s.threads[j], x)
    ensures Cursor(u, j, s.threads[j], r)
  {
    HasStays(s, u, i, j, r);
    var t := s.threads[j];
    if Sure(u, r) {
      SameShapeSameFacts(s, u, r.page);
      if t.job.Insert? && Full(u, r.page) {
        forall x | IsCovering(u, r.page, t.job.key, x)
          ensures !Full(u, x)
        {
          assert IsCovering(s, r.page, t.job.key, x);
          CoveringIsChild(s, r.page, t.job.key, x);
          assert HasFilled(s, t, x);
          assert PageMoves(s, u, i, x);
          SameShapeSameFacts(s, u, x);
        }
      }
    }
  }

  lemma {:induction false} FoundStays(s: State, u: State, i: nat, j: nat, cur: Ref, pos: nat, child: PageId)
    requires Guarantee(s, u, i) && i != j && j < |s.threads| && Has(s, j, cur)
    requires Found(s, s.threads[j], cur, pos, child)
    ensures cur.page < |u.blocks| == |u.latches| && Found(u, s.threads[j], cur, pos, child)
  {
    HasStays(s, u, i, j, cur);
  }

  /** What a good guard is on keeps being the root, or keeps being another page. */
  lemma {:induction false} RootStays(s: State, u: State, i: nat, j: nat, r: Ref)
    requires Guarantee(s, u, i) && i != j && j < |s.threads|
    requires Has(s, j, r) || HasMarked(s, j, r)
    ensures r.page < |u.latches| && (Sure(u, r) && r.page == s.root ==> u.root == s.root)
    ensures r.page != s.root ==> r.page != u.root
  {
    assert LatchMoves(s.latches[r.page], u.latches[r.page], i);
  }

  lemma {:induction false} SizesStay(s: State, u: State, i: nat)
    requires Guarantee(s, u, i)
    ensures u.c == s.c && |s.blocks| <= |u.blocks| && s.clock <= u.clock
  {
  }

  lemma {:induction false} CheckedStays(s: State, u: State, i: nat, j: nat, next: Ref)
    requires Guarantee(s, u, i) && i != j && j < |s.threads| && Checked(s, j, s.threads[j], next)
    ensures Checked(u, j, s.threads[j], next)
    ensures Sure(u, next) ==> Sure(s, next) && Full(u, next.page) == Full(s, next.page)
  {
    HasStays(s, u, i, j, next);
    RootStays(s, u, i, j, next);
    if Sure(u, next) { SameShapeSameFacts(s, u, next.page); }
  }

  lemma {:induction false} HoldsStays(s: State, u: State, i: nat, j: nat, cur: Ref, same: bool)
    requires Guarantee(s, u, i) && i != j && j < |s.threads| && Holds(s, j, s.threads[j], cur, same)
    ensures Holds(u, j, s.threads[j], cur, same)
    ensures u.blocks[cur.page] == s.blocks[cur.page]
  {
    HasStays(s, u, i, j, cur);
  }

  /** The conditions on the write-locked cursor, for every point of the descent loop. */
  lemma {:induction false} StandingStays(s: State, u: State, i: nat, j: nat)
    requires Coherent(s) && Guarantee(s, u, i) && i != j && j < |s.threads|
    requires InDescent(s.threads[j].pc)
    requires Cursor(s, j, s.threads[j], s.threads[j].pc.cur)
    ensures Cursor(u, j, s.threads[j], s.threads[j].pc.cur)
  {
    hide TreeOk, Cursor, SameShape, Trusts, LatchMoves, PageMoves, LogsBelow, ThreadOk;
    assert Crowd(s, i, j);
    CursorStays(s, u, i, j, s.threads[j].pc.cur);
  }

  lemma {:induction false} SearchKeeps(s: State, u: State, i: nat, j: nat)
    requires Coherent(s) && Guarantee(s, u, i) && i != j && j < |s.threads|
    requires var pc := s.threads[j].pc; pc.At? || pc.Search? || pc.Check1? || pc.LatchNext?
    ensures ThreadOk(u, j, s.threads[j])
  {
    var t := s.threads[j];
    assert ThreadOk(s, j, t);
    hide Guarantee, Coherent, Covers, Found, SameShape, LogsBelow;
    StandingStays(s, u, i, j);
    match t.pc {
      case Check1(cur, pos, child) => FoundStays(s, u, i, j, cur, pos, child);
      case LatchNext(cur, pos, child) => FoundStays(s, u, i, j, cur, pos, child); SizesStay(s, u, i);
      case _ =>
    }
  }

  lemma {:induction false} NextKeeps(s: State, u: State, i: nat, j: nat)
    requires Coherent(s) && Guarantee(s, u, i) && i != j && j < |s.threads|
    requires var pc := s.threads[j].pc; pc.Check2? || pc.NextLen? || pc.UpCur? || pc.UpNext?
    ensures ThreadOk(u, j, s.threads[j])
  {
    var t := s.threads[j];
    assert ThreadOk(s, j, t);
    hide Guarantee, Coherent, Covers, Found, SameShape, LogsBelow;
    StandingStays(s, u, i, j);
    FoundStays(s, u, i, j, t.pc.cur, t.pc.pos, t.pc.next.page);
    if t.pc.Check2? { HasStays(s, u, i, j, t.pc.next); } else { CheckedStays(s, u, i, j, t.pc.next); }
  }

  lemma {:induction false} SplitKeeps(s: State, u: State, i: nat, j: nat)
    requires Coherent(s) && Guarantee(s, u, i) && i != j && j < |s.threads|
    requires var pc := s.threads[j].pc; pc.Mark? || pc.Correct? || pc.DropFrom?
    ensures ThreadOk(u, j, s.threads[j])
  {
    var t := s.threads[j];
    assert ThreadOk(s, j, t);
    hide Guarantee, Coherent, Covers, Found, SameShape, LogsBelow;
    StandingStays(s, u, i, j);
    FullStays(s, u, i, j, t.pc.cur);
    match t.pc {
      case Mark(cur, pos, next) =>
        FoundStays(s, u, i, j, cur, pos, next.page); CheckedStays(s, u, i, j, next);
      case Correct(cur, pos, next) =>
        FoundStays(s, u, i, j, cur, pos, next.page); MarkedStays(s, u, i, j, next);
        SizesStay(s, u, i); RootStays(s, u, i, j, next);
      case DropFrom(cur, next) => MarkedStays(s, u, i, j, next);
    }
  }

  lemma {:induction false} RootKeeps(s: State, u: State, i: nat, j: nat)
    requires Coherent(s) && Guarantee(s, u, i) && i != j && j < |s.threads|
    requires var pc := s.threads[j].pc; pc.RootLatch? || pc.RootLen? || pc.RootUp? || pc.RootSplit?
    ensures ThreadOk(u, j, s.threads[j])
  {
    var t := s.threads[j];
    assert ThreadOk(s, j, t);
    if !t.pc.RootLatch? {
      hide Guarantee, Coherent, SameShape;
      HasStays(s, u, i, j, t.pc.cur);
      RootStays(s, u, i, j, t.pc.cur);
      FullStays(s, u, i, j, t.pc.cur);
    }
  }

  lemma {:induction false} LeafKeeps(s: State, u: State, i: nat, j: nat)
    requires Coherent(s) && Guarantee(s, u, i) && i != j && j < |s.threads|
    requires !InDescent(s.threads[j].pc)
    requires var pc := s.threads[j].pc; !pc.RootLatch? && !pc.RootLen? && !pc.RootUp? && !pc.RootSplit?
    ensures ThreadOk(u, j, s.threads[j])
  {
    var t := s.threads[j];
    assert ThreadOk(s, j, t);
    hide Guarantee, Coherent, Covers, Found, SameShape, LogsBelow;
    match t.pc {
      case Descend(cur, next) => HasStays(s, u, i, j, cur); AheadStays(s, u, i, j, next);
      case LeafUp(cur) => AheadStays(s, u, i, j, cur); HasStays(s, u, i, j, cur);
      case PinLoad(cur) => AheadStays(s, u, i, j, cur); HasStays(s, u, i, j, cur);
      case PinCas(cur, _) => AheadStays(s, u, i, j, cur); HasStays(s, u, i, j, cur);
      case Latched(cur, same) => HoldsStays(s, u, i, j, cur, same);
      case Drawn(cur, v, same) => HoldsStays(s, u, i, j, cur, same); SizesStay(s, u, i);
      case Applied(cur, v) => HasStays(s, u, i, j, cur);
      case Committed(cur) => HasStays(s, u, i, j, cur);
      case Abort(cur) => HasStays(s, u, i, j, cur);
      case _ =>
    }
  }

  /** Whatever a thread relies on, another thread's step leaves it alone. */
  lemma {:induction false} OtherKeeps(s: State, u: State, i: nat, j: nat)
    requires Coherent(s) && Guarantee(s, u, i) && i != j && j < |s.threads|
    ensures ThreadOk(u, j, u.threads[j])
  {
    assert u.threads[j] == s.threads[j];
    hide Guarantee, Coherent, ThreadOk;
    match s.threads[j].pc {
      case RootLatch(_) => RootKeeps(s, u, i, j);
      case RootLen(_) => RootKeeps(s, u, i, j);
      case RootUp(_) => RootKeeps(s, u, i, j);
      case RootSplit(_) => RootKeeps(s, u, i, j);
      case At(_) => SearchKeeps(s, u, i, j);
      case Search(_) => SearchKeeps(s, u, i, j);
      case Check1(_, _, _) => SearchKeeps(s, u, i, j);
      case LatchNext(_, _, _) => SearchKeeps(s, u, i, j);
      case Check2(_, _, _) => NextKeeps(s, u, i, j);
      case NextLen(_, _, _) => NextKeeps(s, u, i, j);
      case UpCur(_, _, _, _) => NextKeeps(s, u, i, j);
      case UpNext(_, _, _, _) => NextKeeps(s, u, i, j);
      case Mark(_, _, _) => SplitKeeps(s, u, i, j);
      case Correct(_, _, _) => SplitKeeps(s, u, i, j);
      case DropFrom(_, _) => SplitKeeps(s, u, i, j);
      case _ => LeafKeeps(s, u, i, j);
    }
  }

  lemma {:induction false} FullStays(s: State, u: State, i: nat, j: nat, r: Ref)
    requires Guarantee(s, u, i) && i != j && Has(s, j, r)
    ensures r.page < |u.latches|
    ensures Sure(u, r) ==> Sure(s, r) && Full(u, r.page) == Full(s, r.page)
  {
    HasStays(s, u, i, j, r);
    if Sure(u, r) { SameShapeSameFacts(s, u, r.page); }
  }

  lemma {:induction false} AheadStays(s: State, u: State, i: nat, j: nat, r: Ref)
    requires Coherent(s) && Guarantee(s, u, i) && i != j && j < |s.threads|
    requires Cursor(s, j, s.threads[j], r) && (r.mode == Read || s.blocks[r.page].page.Leaf?)
    ensures Cursor(u, j, s.threads[j], r)
  {
    assert Crowd(s, i, j);
    CursorStays(s, u, i, j, r);
  }

  // ----- keeping away ---------------------------------------------------------------------

  lemma {:induction false} GuardsAgree(s: State, i: nat, t: Thread)
    requires ThreadOk(s, i, t)
    ensures Standing(t.pc).Some? ==> Has(s, i, Standing(t.pc).value)
    ensures Ahead(t.pc).Some? ==> Has(s, i, Ahead(t.pc).value) || HasMarked(s, i, Ahead(t.pc).value)
  {
  }

  /** A thread comes to trust nothing by another thread's step. */
  lemma {:induction false} TrustStays(s: State, u: State, i: nat, j: nat, x: PageId)
    requires Guarantee(s, u, i) && i != j && j < |s.threads| && ThreadOk(s, j, s.threads[j])
    requires Trusts(u, s.threads[j], x)
    ensures Trusts(s, s.threads[j], x)
  {
    var t := s.threads[j];
    GuardsAgree(s, j, t);
    hide ThreadOk;
    var a, b := Standing(t.pc), Ahead(t.pc);
    if a.Some? { HasStays(s, u, i, j, a.value); }
    if b.Some? {
      if HasMarked(s, j, b.value) { MarkedStays(s, u, i, j, b.value); } else { HasStays(s, u, i, j, b.value); }
    }
  }

  /** Nor does it fill a page by another thread's step. */
  lemma {:induction false} FilledStays(s: State, u: State, i: nat, j: nat, x: PageId)
    requires Guarantee(s, u, i) && i != j && j < |s.threads| && ThreadOk(s, j, s.threads[j])
    requires HasFilled(u, s.threads[j], x)
    ensures HasFilled(s, s.threads[j], x)
  {
    var t := s.threads[j];
    GuardsAgree(s, j, t);
    hide ThreadOk;
    HasStays(s, u, i, j, t.pc.cur);
  }

  /** Nobody else trusts a page that a thread has filled. */
  lemma {:induction false} FilledIsHeld(s: State, i: nat, j: nat, p: PageId)
    requires i != j && i < |s.threads| && j < |s.threads|
    requires ThreadOk(s, i, s.threads[i]) && ThreadOk(s, j, s.threads[j])
    requires Standing(s.threads[j].pc).Some? && Standing(s.threads[j].pc).value.mode == Write
    requires p == Standing(s.threads[j].pc).value.page
    ensures !Trusts(s, s.threads[i], p)
  {
    GuardsAgree(s, i, s.threads[i]);
    GuardsAgree(s, j, s.threads[j]);
    hide ThreadOk;
  }

  /** The thread that moves does not get at a child that another is about to go to. */
  lemma {:induction false} MoverKeepsAway(s: State, u: State, i: nat, j: nat)
    requires Coherent(s) && Guarantee(s, u, i) && i != j && j < |s.threads| && TrustMoves(s, u, i)
    ensures KeepsAway(u, u.threads[i], u.threads[j])
  {
    assert Crowd(s, i, j);
    assert ThreadOk(s, i, s.threads[i]) && ThreadOk(s, j, s.threads[j]);
    forall x | HasFilled(u, u.threads[j], x)
      ensures !Trusts(u, u.threads[i], x)
    {
      FilledStays(s, u, i, j, x);
      var w := s.threads[j];
      CoveringIsChild(s, w.pc.cur.page, w.job.key, x);
      FilledIsHeld(s, i, j, w.pc.cur.page);
      if Trusts(u, u.threads[i], x) {
        if p, pos :| ChildOf(s, p, pos, x) && Trusts(s, s.threads[i], p) {
          OnlyParent(s, p, pos, w.pc.cur.page, w.job.key, x);
        }
      }
    }
  }

  lemma {:induction false} OnlyParent(s: State, p: PageId, pos: nat, q: PageId, key: Key, x: PageId)
    requires Shared(s) && ChildOf(s, p, pos, x) && IsCovering(s, q, key, x)
    ensures p == q
  {
    UniqueParent(s.c, s.blocks, s.root, p, pos, q, ChildPos(s.blocks[q].page.keys, key));
  }

  lemma {:induction false} OthersKeepAway(s: State, u: State, i: nat, j: nat, k: nat)
    requires Coherent(s) && Guarantee(s, u, i) && i != j && i != k && j != k && j < |s.threads| && k < |s.threads|
    ensures KeepsAway(u, u.threads[j], u.threads[k])
  {
    assert Crowd(s, j, k);
    assert ThreadOk(s, j, s.threads[j]) && ThreadOk(s, k, s.threads[k]);
    forall x | HasFilled(u, u.threads[k], x)
      ensures !Trusts(u, u.threads[j], x)
    {
      FilledStays(s, u, i, k, x);
      if Trusts(u, u.threads[j], x) { TrustStays(s, u, i, j, x); }
    }
  }

  /** A step that does its own part keeps the whole. */
  lemma {:induction false} StepFits(s: State, u: State, i: nat)
    requires Coherent(s) && i < |s.threads| && Mine(s, u, i)
    ensures Coherent(u)
  {
    forall j | 0 <= j < |u.threads|
      ensures ThreadOk(u, j, u.threads[j])
    {
      if j != i { OtherKeeps(s, u, i, j); }
    }
    forall j, k | 0 <= j < |u.threads| && 0 <= k < |u.threads|
      ensures Crowd(u, j, k)
    {
      if j != k {
        if k != i {
          if j == i { MoverKeepsAway(s, u, i, k); } else { OthersKeepAway(s, u, i, j, k); }
        }
      }
    }
  }
}
