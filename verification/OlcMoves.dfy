/** How one step moves a thread of `Olc`: when it begins to work on a version, and when it is done. */
module OlcMoves {
  import opened History
  import opened Tree
  import opened Olc
  import opened OlcInv
  import opened OlcOwned
  import opened OlcRuns

  ghost predicate Working(pc: PC) {
    pc.Drawn? || pc.Applied?
  }

  /** A job has been taken up and has not been applied yet. */
  ghost predicate Pending(pc: PC) {
    !pc.Idle? && !Done(pc)
  }

  /** The job has been applied; what is left is to end the commit and to unlatch the leaf. */
  ghost predicate Done(pc: PC) {
    pc.Applied? || pc.Committed?
  }

  /** A pending job stays pending, whatever fails, and a job that is done is not begun again. */
  ghost predicate GoesOn(t: Thread, v: Thread) {
    && (Pending(t.pc) ==> v.job == t.job && Pending(v.pc))
    && (Done(t.pc) ==> v.job == t.job && (Done(v.pc) || v.pc.Idle?))
  }

  ghost predicate OnlyMoves(s: State, u: State, i: nat) {
    && |u.threads| == |s.threads|
    && forall j :: 0 <= j < |s.threads| && j != i ==> u.threads[j] == s.threads[j]
  }

  /** Only the draw lets a thread begin to work on a version, and only its publication ends it; only applying a
      job gets it done. */
  lemma {:induction false} TreeStepMoves(s: State, i: nat, ch: Choice)
    requires Inv(s) && i < |s.threads|
    ensures var u := Act(s, i, ch);
            && OnlyMoves(s, u, i)
            && match s.threads[i].pc
               case Latched(_, _) =>
                 if s.clock <= MAX_U64
                 then
                   && u.clock == s.clock + 1 && u.threads[i].pc.Drawn? && u.threads[i].pc.version == s.clock
                   && u.threads[i].job == s.threads[i].job
                 else u == s
               case Drawn(cur, v, _) => u.clock == s.clock && u.threads[i] == s.threads[i].(pc := Applied(cur, v))
               case _ => u.clock == s.clock && !Working(u.threads[i].pc) && GoesOn(s.threads[i], u.threads[i])
  {
    if s.threads[i].pc.Latched? || s.threads[i].pc.Drawn? {
      HoldsAtLeaf(s, i);
      assert InBounds(s, s.threads[i].pc);
      hide Inv;
    } else {
      RestMoves(s, i, ch);
    }
  }

  ghost predicate Idly(s: State, u: State, i: nat) {
    && i < |s.threads| && OnlyMoves(s, u, i) && u.clock == s.clock && !Working(u.threads[i].pc)
    && GoesOn(s.threads[i], u.threads[i])
  }

  lemma {:induction false} SearchMoves(s: State, i: nat, ch: Choice)
    requires i < |s.threads| && InBounds(s, s.threads[i].pc) && !Working(s.threads[i].pc)
    ensures Idly(s, ActRoot(s, i, ch), i) && Idly(s, ActSearch(s, i, ch), i)
  {
    hide InBounds, Divisible, SplitIndexRoot, HasOverflow, ChildPos, Sure;
  }

  lemma {:induction false} DescentMoves(s: State, i: nat, ch: Choice)
    requires i < |s.threads| && InBounds(s, s.threads[i].pc) && !Working(s.threads[i].pc)
    ensures Idly(s, ActNext(s, i, ch), i) && Idly(s, ActSplit(s, i, ch), i)
  {
    hide InBounds, SplitChild, CanSplit, HasOverflow, HasUnderflow, Sure;
  }

  lemma {:induction false} LeafMoves(s: State, i: nat, ch: Choice)
    requires i < |s.threads| && InBounds(s, s.threads[i].pc)
    ensures !Working(s.threads[i].pc) ==> Idly(s, ActLeaf(s, i, ch), i)
    ensures !s.threads[i].pc.Latched? && !s.threads[i].pc.Drawn? ==> Idly(s, ActWrite(s, i), i)
  {
    hide InBounds, Written, Takes;
  }

  lemma {:induction false} RestMoves(s: State, i: nat, ch: Choice)
    requires Inv(s) && i < |s.threads| && !s.threads[i].pc.Latched? && !s.threads[i].pc.Drawn?
    ensures Idly(s, Act(s, i, ch), i)
  {
    assert Done(s.threads[i].pc) ==> InBounds(s, s.threads[i].pc) by { assert ThreadOk(s, i, s.threads[i]); }
    hide Inv, ActRoot, ActSearch, ActNext, ActSplit, ActLeaf, ActWrite;
    if InBounds(s, s.threads[i].pc) {
      LeafMoves(s, i, ch);
      if !s.threads[i].pc.Applied? {
        SearchMoves(s, i, ch);
        DescentMoves(s, i, ch);
      }
    }
  }
}
