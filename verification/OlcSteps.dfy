/** Each step of the machine in `Olc` does its part: the thread that moves knows what it must know at
    its next point, and changes nothing that others rely on. */
module OlcSteps {
  import opened History
  import opened Tree
  import opened Latch
  import opened Olc
  import opened OlcInv
  import opened OlcOthers

  // ----- steps that only move the thread ----------------------------------------------------

  /** What the thread newly trusts, it reaches by a page it trusts already, or it is the root. */
  ghost predicate Follows(s: State, t: Thread, v: Thread) {
    forall x :: Trusts(s, v, x) ==>
      Trusts(s, t, x) || x == s.root || exists p, pos :: ChildOf(s, p, pos, x) && Trusts(s, t, p)
  }

  lemma {:induction false} QuietStep(s: State, i: nat, v: Thread)
    requires Coherent(s) && i < |s.threads|
    requires ThreadOk(s, i, v) && Follows(s, s.threads[i], v)
    requires forall x :: HasFilled(s, v, x) ==> HasFilled(s, s.threads[i], x)
    ensures Coherent(s.(threads := s.threads[i := v]))
  {
    var u := s.(threads := s.threads[i := v]);
    SameFacts(s, u, i);
    forall p | 0 <= p < |s.blocks|
      ensures PageMoves(s, u, i, p) && LatchMoves(s.latches[p], u.latches[p], i)
    {
    }
    forall x | Trusts(u, v, x)
      ensures Trusts(s, s.threads[i], x) || x == s.root
              || exists p, pos :: ChildOf(s, p, pos, x) && Trusts(s, s.threads[i], p)
    {
      assert Trusts(s, v, x);
    }
    forall j | 0 <= j < |s.threads|
      ensures Crowd(u, j, i)
    {
      assert Crowd(s, j, i);
      FilledAlike(s, u, j, i);
    }
    StepFits(s, u, i);
  }

  ghost predicate SamePages(s: State, u: State) {
    u == s.(threads := u.threads)
  }

  lemma {:induction false} SameGuard(s: State, u: State, i: nat, t: Thread, r: Ref)
    requires SamePages(s, u)
    ensures Has(s, i, r) == Has(u, i, r) && HasMarked(s, i, r) == HasMarked(u, i, r)
    ensures Cursor(s, i, t, r) ==> Cursor(u, i, t, r)
    ensures Checked(s, i, t, r) ==> Checked(u, i, t, r)
  {
    assert forall p :: Full(s, p) == Full(u, p);
    assert forall p, key, x :: IsCovering(u, p, key, x) ==> IsCovering(s, p, key, x);
    hide Full, IsCovering;
  }

  /** Only pages, latches and the clock matter to what a thread knows. */
  lemma {:induction false} SameFacts(s: State, u: State, i: nat)
    requires i < |u.threads| && SamePages(s, u)
    requires ThreadOk(s, i, u.threads[i])
    ensures ThreadOk(u, i, u.threads[i])
  {
    var t := u.threads[i];
    if Standing(t.pc).Some? { SameGuard(s, u, i, t, t.pc.cur); }
    if t.pc.Check2? || Ahead(t.pc).Some? { SameGuard(s, u, i, t, t.pc.next); }
    assert forall p :: Full(s, p) == Full(u, p);
    hide Cursor, Checked, LogsBelow, Full, HasMarked;
  }

  lemma {:induction false} FilledAlike(s: State, u: State, j: nat, i: nat)
    requires |u.threads| == |s.threads| && j < |s.threads| && i < |s.threads|
    requires u == s.(threads := u.threads) && (j != i ==> u.threads[j] == s.threads[j])
    requires Crowd(s, j, i)
    requires forall x :: HasFilled(s, u.threads[i], x) ==> HasFilled(s, s.threads[i], x)
    ensures Crowd(u, j, i)
  {
    if j != i {
      forall x | HasFilled(u, u.threads[i], x)
        ensures !Trusts(u, u.threads[j], x)
      {
        assert HasFilled(s, u.threads[i], x);
      }
    }
  }

  /** The guards of one point are those of another, or some of them. */
  ghost predicate SameGuards(pc: PC, from: PC) {
    && (Standing(pc) == None || Standing(pc) == Standing(from))
    && (Ahead(pc) == None || Ahead(pc) == Ahead(from))
    && (InDescent(pc) ==> InDescent(from))
  }

  /** A thread that takes no new guard only has to know what it must at its next point. */
  lemma {:induction false} QuietMove(s: State, i: nat, pc: PC)
    requires Coherent(s) && i < |s.threads| && SameGuards(pc, s.threads[i].pc)
    requires ThreadOk(s, i, s.threads[i].(pc := pc))
    ensures Coherent(Go(s, i, pc))
  {
    hide Coherent, ThreadOk, Full, IsCovering;
    QuietStep(s, i, s.threads[i].(pc := pc));
  }

  /** An abort needs nothing but the guard. */
  lemma {:induction false} AbortStep(s: State, i: nat, cur: Ref)
    requires Coherent(s) && i < |s.threads| && Standing(s.threads[i].pc) == Some(cur)
    requires Has(s, i, cur) && cur.mode != Pin
    ensures Coherent(Go(s, i, Abort(cur)))
  {
    QuietMove(s, i, Abort(cur));
  }

  lemma {:induction false} QuietRoot(s: State, i: nat, ch: Choice)
    requires Coherent(s) && i < |s.threads|
    requires var pc := s.threads[i].pc; pc.Idle? || pc.RootLoad? || pc.RootLatch?
    ensures Coherent(Act(s, i, ch))
  {
    var t := s.threads[i];
    assert ThreadOk(s, i, t);
    assert s.root < |s.blocks| == |s.latches|;
    hide Coherent;
    match t.pc {
      case Idle =>
        AtRest(s, i, Thread(ch.job, RootLoad));
        hide ThreadOk, Trusts, HasFilled;
        QuietStep(s, i, Thread(ch.job, RootLoad));
      case RootLoad => QuietMove(s, i, RootLatch(s.root));
      case RootLatch(p) =>
        if WriteHeld(s.latches[p]) { QuietMove(s, i, RootLoad); } else { LatchRoot(s, i, ch); }
      case _ =>
    }
  }

  lemma {:induction false} LatchRoot(s: State, i: nat, ch: Choice)
    requires Coherent(s) && i < |s.threads| && s.threads[i].pc.RootLatch?
    requires s.root < |s.latches| && !WriteHeld(s.latches[s.root])
    ensures Coherent(Go(s, i, RootLen(Ref(s.root, s.latches[s.root].counter, Read))))
  {
    var v := s.threads[i].(pc := RootLen(Ref(s.root, s.latches[s.root].counter, Read)));
    assert |s.blocks| == |s.latches|;
    hide Coherent;
    QuietStep(s, i, v);
  }

  lemma {:induction false} QuietRootLen(s: State, i: nat, ch: Choice)
    requires Coherent(s) && i < |s.threads| && s.threads[i].pc.RootLen?
    ensures Coherent(Act(s, i, ch))
  {
    var t := s.threads[i];
    assert ThreadOk(s, i, t);
    assert RootOk(s.blocks, s.root) && |s.latches| == |s.blocks|;
    hide TreeOk, LogsBelow, Shared;
    QuietStep(s, i, Act(s, i, ch).threads[i]);
  }

  /** While the guard is good, the search finds the covering child. */
  lemma {:induction false} SearchFinds(s: State, i: nat, t: Thread, cur: Ref)
    requires Shared(s) && Cursor(s, i, t, cur) && Sure(s, cur) && IsIndex(s, cur.page)
    ensures var b := s.blocks[cur.page].page;
            var pos := ChildPos(b.keys, t.job.key);
            && pos < |b.children| && Found(s, t, cur, pos, b.children[pos])
            && b.children[pos] < |s.blocks| && b.children[pos] != s.root
            && InRange(s.blocks[b.children[pos]], t.job.key)
  {
    ChildCovers(s.c, s.blocks, s.root, cur.page, t.job.key);
    RootIsNoChild(s.c, s.blocks, s.root, cur.page, ChildPos(s.blocks[cur.page].page.keys, t.job.key));
  }

  lemma {:induction false} QuietAt(s: State, i: nat, ch: Choice)
    requires Coherent(s) && i < |s.threads| && s.threads[i].pc.At?
    ensures Coherent(Act(s, i, ch))
  {
    var cur := s.threads[i].pc.cur;
    assert ThreadOk(s, i, s.threads[i]) && |s.latches| == |s.blocks|;
    assert InBounds(s, s.threads[i].pc);
    hide Coherent;
    if Sure(s, cur) { QuietMove(s, i, Search(cur)); } else { AbortStep(s, i, cur); }
  }

  lemma {:induction false} QuietSearch(s: State, i: nat, ch: Choice)
    requires Coherent(s) && i < |s.threads| && s.threads[i].pc.Search?
    ensures Coherent(Act(s, i, ch))
  {
    var t := s.threads[i];
    assert ThreadOk(s, i, t);
    var cur := t.pc.cur;
    assert InBounds(s, t.pc);
    if Sure(s, cur) && IsIndex(s, cur.page) { SearchFinds(s, i, t, cur); }
    hide Coherent, Covers, HasOverflow, ChildPos, InRange;
    QuietMove(s, i, Act(s, i, ch).threads[i].pc);
  }

  lemma {:induction false} QuietCheck1(s: State, i: nat, ch: Choice)
    requires Coherent(s) && i < |s.threads| && s.threads[i].pc.Check1?
    ensures Coherent(Act(s, i, ch))
  {
    var t := s.threads[i];
    assert ThreadOk(s, i, t);
    var cur := t.pc.cur;
    assert InBounds(s, t.pc);
    if Sure(s, cur) {
      SearchFinds(s, i, t, cur);
      hide Coherent, Covers;
      QuietMove(s, i, LatchNext(cur, t.pc.pos, t.pc.child));
    } else {
      hide Coherent;
      AbortStep(s, i, cur);
    }
  }

  lemma {:induction false} QuietLatchNext(s: State, i: nat, ch: Choice)
    requires Coherent(s) && i < |s.threads| && s.threads[i].pc.LatchNext?
    ensures Coherent(Act(s, i, ch))
  {
    var t := s.threads[i];
    assert ThreadOk(s, i, t);
    var cur, child := t.pc.cur, t.pc.child;
    assert InBounds(s, t.pc);
    hide Coherent, Covers, Found;
    if WriteHeld(s.latches[child]) { AbortStep(s, i, cur); }
    else { QuietMove(s, i, Check2(cur, t.pc.pos, Ref(child, s.latches[child].counter, Read))); }
  }

  lemma {:induction false} QuietCheck2(s: State, i: nat, ch: Choice)
    requires Coherent(s) && i < |s.threads| && s.threads[i].pc.Check2?
    ensures Coherent(Act(s, i, ch))
  {
    var t := s.threads[i];
    assert ThreadOk(s, i, t);
    var cur, next := t.pc.cur, t.pc.next;
    if Sure(s, cur) {
      SearchFinds(s, i, t, cur);
      hide TreeOk, Covers, LogsBelow, Coherent;
      var v := t.(pc := NextLen(cur, t.pc.pos, next));
      assert ThreadOk(s, i, v);
      forall x | Trusts(s, v, x)
        ensures Trusts(s, t, x) || x == s.root || exists p, pos :: ChildOf(s, p, pos, x) && Trusts(s, t, p)
      {
        if x == next.page {
          assert ChildOf(s, cur.page, t.pc.pos, x) && SureOn(s, Standing(t.pc), cur.page);
        }
      }
      QuietStep(s, i, v);
    } else {
      AbortStep(s, i, cur);
    }
  }

  lemma {:induction false} QuietNextLen(s: State, i: nat, ch: Choice)
    requires Coherent(s) && i < |s.threads| && s.threads[i].pc.NextLen?
    ensures Coherent(Act(s, i, ch))
  {
    var t := s.threads[i];
    assert ThreadOk(s, i, t);
    assert InBounds(s, t.pc);
    assert Full(s, t.pc.next.page) == HasOverflow(s.c, s.blocks[t.pc.next.page].page);
    assert Sure(s, t.pc.next) ==> !HasUnderflow(s.c, s.blocks[t.pc.next.page].page);
    hide Coherent, HasOverflow, HasUnderflow, Found;
    QuietMove(s, i, Act(s, i, ch).threads[i].pc);
  }

  lemma {:induction false} QuietRest(s: State, i: nat, ch: Choice)
    requires Coherent(s) && i < |s.threads| && (s.threads[i].pc.Applied? || s.threads[i].pc.PinLoad?)
    ensures Coherent(Act(s, i, ch))
  {
    assert ThreadOk(s, i, s.threads[i]);
    assert InBounds(s, s.threads[i].pc);
    hide Coherent, Covers, Full;
    var pc := Act(s, i, ch).threads[i].pc;
    assert Act(s, i, ch) == Go(s, i, pc);
    hide Act, InBounds;
    QuietMove(s, i, pc);
  }

  // ----- steps on one latch word ------------------------------------------------------------

  lemma {:induction false} WordStep(s: State, i: nat, p: PageId, a: Abstract, v: Thread)
    requires Coherent(s) && i < |s.threads| && p < |s.latches|
    requires LatchMoves(s.latches[p], a, i)
    requires var u := Relatch(s, p, a);
             && ThreadOk(u, i, v)
             && (forall x :: Trusts(u, v, x) ==> Trusts(s, s.threads[i], x))
             && (forall x :: HasFilled(u, v, x) ==> HasFilled(s, s.threads[i], x))
    ensures Coherent(Relatch(s, p, a).(threads := s.threads[i := v]))
  {
    var m := Relatch(s, p, a);
    var u := m.(threads := s.threads[i := v]);
    SameFacts(m, u, i);
    forall q | 0 <= q < |s.blocks|
      ensures PageMoves(s, u, i, q) && LatchMoves(s.latches[q], u.latches[q], i)
    {
    }
    assert Guarantee(s, u, i);
    forall x | Trusts(u, v, x)
      ensures Trusts(s, s.threads[i], x)
    {
      assert Trusts(m, v, x);
    }
    forall j | 0 <= j < |s.threads|
      ensures Crowd(u, j, i)
    {
      if j != i { LoneFiller(s, m, u, i, j); }
    }
    StepFits(s, u, i);
  }

  lemma {:induction false} LoneFiller(s: State, m: State, u: State, i: nat, j: nat)
    requires Coherent(s) && i < |s.threads| && j < |s.threads| && i != j && Guarantee(s, u, i)
    requires u == m.(threads := u.threads)
    requires forall x :: HasFilled(m, u.threads[i], x) ==> HasFilled(s, s.threads[i], x)
    ensures KeepsAway(u, u.threads[j], u.threads[i])
  {
    assert Crowd(s, j, i) && ThreadOk(s, j, s.threads[j]);
    forall x | HasFilled(u, u.threads[i], x)
      ensures !Trusts(u, u.threads[j], x)
    {
      assert HasFilled(m, u.threads[i], x);
      if Trusts(u, u.threads[j], x) { TrustStays(s, u, i, j, x); }
    }
  }

  /** What a guard vouches for is a matter of the pages. */
  lemma {:induction false} CoversSame(s: State, u: State, t: Thread, v: Thread, r: Ref)
    requires u.blocks == s.blocks && u.c == s.c && |u.latches| == |s.latches|
    requires r.page < |s.blocks| && r.page < |s.latches|
    requires v.job == t.job && (Sure(u, r) ==> Sure(s, r)) && Covers(s, t, r)
    ensures Covers(u, v, r)
  {
    forall x | IsCovering(u, r.page, t.job.key, x)
      ensures IsCovering(s, r.page, t.job.key, x) && Full(u, x) == Full(s, x)
    {
    }
  }

  lemma {:induction false} LockRoot(s: State, i: nat, ch: Choice)
    requires Coherent(s) && i < |s.threads| && s.threads[i].pc.RootUp?
    ensures Coherent(Act(s, i, ch))
  {
    var t := s.threads[i];
    assert ThreadOk(s, i, t);
    var cur := t.pc.cur;
    if CanLock(s, cur, ch) {
      WordStep(s, i, cur.page, Locked(cur.latch, i), t.(pc := RootSplit(cur.(mode := Write))));
    } else {
      AbortStep(s, i, cur);
    }
  }

  lemma {:induction false} LockParent(s: State, i: nat, ch: Choice)
    requires Coherent(s) && i < |s.threads| && s.threads[i].pc.UpCur?
    ensures Coherent(Act(s, i, ch))
  {
    var t := s.threads[i];
    assert ThreadOk(s, i, t);
    var cur := t.pc.cur;
    var locked := t.(pc := UpNext(cur.(mode := Write), t.pc.pos, t.pc.next, t.pc.over));
    assert InBounds(s, t.pc);
    hide Shared;
    if cur.mode == Write {
      QuietMove(s, i, UpNext(cur, t.pc.pos, t.pc.next, t.pc.over));
    } else if CanLock(s, cur, ch) {
      WordStep(s, i, cur.page, Locked(cur.latch, i), locked);
    } else {
      AbortStep(s, i, cur);
    }
  }

  lemma {:induction false} LockChild(s: State, i: nat, ch: Choice)
    requires Coherent(s) && i < |s.threads| && s.threads[i].pc.UpNext?
    ensures Coherent(Act(s, i, ch))
  {
    var t := s.threads[i];
    assert ThreadOk(s, i, t);
    var cur, next := t.pc.cur, t.pc.next;
    if CanLock(s, next, ch) {
      assert Sure(s, next) && Sure(s, cur);
      assert cur.page != next.page;
      WordStep(s, i, next.page, Locked(next.latch, i), t.(pc := Mark(cur, t.pc.pos, next.(mode := Write))));
    } else {
      AbortStep(s, i, cur);
    }
  }

  lemma {:induction false} MarkChild(s: State, i: nat, ch: Choice)
    requires Coherent(s) && i < |s.threads| && s.threads[i].pc.Mark?
    ensures Coherent(Act(s, i, ch))
  {
    var t := s.threads[i];
    assert ThreadOk(s, i, t);
    var cur, next := t.pc.cur, t.pc.next;
    CoveringIsChild(s, cur.page, t.job.key, next.page);
    WordStep(s, i, next.page, Abstract.Obsolete(next.latch, i), t.(pc := Correct(cur, t.pc.pos, next)));
  }

  lemma {:induction false} UnlockChild(s: State, i: nat, ch: Choice)
    requires Coherent(s) && i < |s.threads| && s.threads[i].pc.DropFrom?
    ensures Coherent(Act(s, i, ch))
  {
    var t := s.threads[i];
    assert ThreadOk(s, i, t);
    var cur, next := t.pc.cur, t.pc.next;
    var u := Relatch(s, next.page, Free(next.latch + 1));
    CoversSame(s, u, t, t.(pc := At(cur)), cur);
    hide Shared, Covers;
    assert u == Release(s, next);
    WordStep(s, i, next.page, Free(next.latch + 1), t.(pc := At(cur)));
  }

  /** Dropping the standing guard. */
  lemma {:induction false} DropStanding(s: State, i: nat, cur: Ref, v: Thread)
    requires Coherent(s) && i < |s.threads| && Has(s, i, cur)
    requires ThreadOk(Release(s, cur), i, v)
    requires forall x :: Trusts(Release(s, cur), v, x) ==> Trusts(s, s.threads[i], x)
    requires forall x :: HasFilled(Release(s, cur), v, x) ==> HasFilled(s, s.threads[i], x)
    ensures Coherent(Release(s, cur).(threads := s.threads[i := v]))
  {
    hide Coherent, ThreadOk, Trusts, HasFilled;
    if cur.mode == Read {
      QuietStep(s, i, v);
    } else {
      WordStep(s, i, cur.page, Free(if cur.mode == Write then cur.latch + 1 else cur.latch), v);
    }
  }

  /** A thread at rest, or about to start over, relies on nothing. */
  lemma {:induction false} AtRest(s: State, i: nat, v: Thread)
    requires v.pc.Idle? || v.pc.RootLoad?
    ensures ThreadOk(s, i, v) && forall x :: !Trusts(s, v, x) && !HasFilled(s, v, x)
  {
  }

  lemma {:induction false} DropLast(s: State, i: nat, ch: Choice)
    requires Coherent(s) && i < |s.threads| && (s.threads[i].pc.Abort? || s.threads[i].pc.Committed?)
    ensures Coherent(Act(s, i, ch))
  {
    var t := s.threads[i];
    assert ThreadOk(s, i, t) && |s.latches| == |s.blocks| && s.root < |s.blocks|;
    GuardsAgree(s, i, t);
    hide Coherent, ThreadOk, Trusts, HasFilled;
    var v := t.(pc := if t.pc.Abort? then RootLoad else Idle);
    AtRest(Release(s, t.pc.cur), i, v);
    DropStanding(s, i, t.pc.cur, v);
  }

  lemma {:induction false} DropParent(s: State, i: nat, ch: Choice)
    requires Coherent(s) && i < |s.threads| && s.threads[i].pc.Descend?
    ensures Coherent(Act(s, i, ch))
  {
    var t := s.threads[i];
    assert ThreadOk(s, i, t);
    var cur, next := t.pc.cur, t.pc.next;
    var v := t.(pc := At(next));
    CoversSame(s, Release(s, cur), t, v, next);
    hide Shared, Covers;
    DropStanding(s, i, cur, v);
  }

  lemma {:induction false} LockLeaf(s: State, i: nat, ch: Choice)
    requires Coherent(s) && i < |s.threads| && s.threads[i].pc.LeafUp?
    ensures Coherent(Act(s, i, ch))
  {
    var t := s.threads[i];
    assert ThreadOk(s, i, t);
    var cur := t.pc.cur;
    if cur.mode == Write {
      QuietMove(s, i, Latched(cur, true));
    } else if CanLock(s, cur, ch) {
      WordStep(s, i, cur.page, Locked(cur.latch, i), t.(pc := Latched(cur.(mode := Write), true)));
    } else {
      AbortStep(s, i, cur);
    }
  }

  lemma {:induction false} PinLeaf(s: State, i: nat, ch: Choice)
    requires Coherent(s) && i < |s.threads| && s.threads[i].pc.PinCas?
    ensures Coherent(Act(s, i, ch))
  {
    var t := s.threads[i];
    assert ThreadOk(s, i, t);
    var cur, n := t.pc.cur, t.pc.loaded;
    if s.latches[cur.page] == Free(n) && !ch.spurious {
      WordStep(s, i, cur.page, Pinned(n, i), t.(pc := Latched(Ref(cur.page, n, Pin), n == cur.latch)));
    } else {
      AbortStep(s, i, cur);
    }
  }
}
