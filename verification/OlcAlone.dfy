/** A thread of `Olc` that is left alone finishes: from rest it comes to rest, its operation is applied, and
    every latch is free. So no branch of the machine aborts, waits or gets stuck without a cause. */
module OlcAlone {
  import opened History
  import opened Tree
  import opened Latch
  import opened MvIndex
  import opened Olc
  import opened OlcEffects
  import opened OlcInv
  import opened OlcMoves
  import opened OlcOthers
  import opened OlcOwned
  import opened OlcRuns
  import opened OlcSplits
  import opened OlcSteps

  // ----- steps of one thread --------------------------------------------------------------------

  /** Nothing goes wrong for no reason. */
  function Plainly(job: Job): Choice {
    Choice(job, false, 0, 0, false, false)
  }

  ghost function Steps(s: State, i: nat, ch: Choice, n: nat): State {
    if n == 0 then s
    else
      var u := Steps(s, i, ch, n - 1);
      if i < |u.threads| then Act(u, i, ch) else u
  }

  ghost predicate Reaches(s: State, u: State, i: nat, ch: Choice) {
    exists n: nat :: u == Steps(s, i, ch, n)
  }

  lemma {:induction false} Starts(s: State, i: nat, ch: Choice)
    ensures Reaches(s, s, i, ch)
  {
    assert s == Steps(s, i, ch, 0);
  }

  lemma {:induction false} Goes(s: State, u: State, i: nat, ch: Choice)
    requires Reaches(s, u, i, ch) && i < |u.threads|
    ensures Reaches(s, Act(u, i, ch), i, ch)
  {
    hide Act;
    var n: nat :| u == Steps(s, i, ch, n);
    assert Act(u, i, ch) == Steps(s, i, ch, n + 1);
  }

  /** Everybody else is at rest. */
  ghost predicate Lone(s: State, i: nat) {
    && Inv(s) && i < |s.threads|
    && forall j :: 0 <= j < |s.threads| && j != i ==> s.threads[j].pc.Idle?
  }

  /** The records, the history and the clock are as they were. */
  ghost predicate SameData(s: State, u: State) {
    && s.root < |s.blocks| && u.root < |u.blocks|
    && All(u) == All(s) && u.applied == s.applied && u.clock == s.clock
  }

  lemma {:induction false} LoneStep(s: State, i: nat, ch: Choice)
    requires Lone(s, i) && Clean(s, i)
    ensures Lone(Act(s, i, ch), i)
    ensures !s.threads[i].pc.Latched? && !s.threads[i].pc.Drawn? ==> SameData(s, Act(s, i, ch))
  {
    ActKeepsInv(s, i, ch);
    TreeStepMoves(s, i, ch);
    var events := StepIsAtomic(s, i, ch);
    AllSorted(s);
    AllSorted(Act(s, i, ch));
    hide Act, Inv, All;
  }

  /** What the thread does not hold is free. */
  lemma {:induction false} FreeElse(s: State, i: nat, p: PageId)
    requires Lone(s, i) && p < |s.latches| && !HoldsAt(s.threads[i].pc, p, s.latches[p])
    ensures s.latches[p].Free?
  {
    hide Coherent;
    assert OwnedAt(s, p);
  }

  lemma {:induction false} SameAgain(s: State, u: State, w: State)
    requires SameData(s, u) && SameData(u, w)
    ensures SameData(s, w)
  {
  }

  /** The thread has come this far, alone, from `s`; nothing has been applied yet. */
  ghost predicate Along(s: State, u: State, i: nat, job: Job, pc: PC) {
    Lone(u, i) && Reaches(s, u, i, Plainly(job)) && SameData(s, u) && u.threads[i] == Thread(job, pc)
  }

  /** One step of the way. */
  lemma {:induction false} Onward(s: State, u: State, i: nat, job: Job, pc: PC, then': PC)
    requires Along(s, u, i, job, pc) && Clean(u, i) && !pc.Latched? && !pc.Drawn?
    requires (var w := Act(u, i, Plainly(job)); i < |w.threads| && w.threads[i] == Thread(job, then'))
    ensures Along(s, Act(u, i, Plainly(job)), i, job, then')
  {
    var ch := Plainly(job);
    assert i < |u.threads|;
    hide Act, Inv, SameData, Reaches, Clean;
    LoneStep(u, i, ch);
    Goes(s, u, i, ch);
    SameAgain(s, u, Act(u, i, ch));
  }

  /** A step that only moves the thread to its next point. */
  lemma {:induction false} Onto(s: State, u: State, i: nat, job: Job, pc: PC, then': PC)
    requires Along(s, u, i, job, pc) && Clean(u, i) && !pc.Latched? && !pc.Drawn?
    requires Act(u, i, Plainly(job)) == Go(u, i, then')
    ensures Along(s, Go(u, i, then'), i, job, then')
  {
    assert i < |u.threads|;
    hide Act, Inv, SameData, Reaches, Clean;
    Onward(s, u, i, job, pc, then');
  }

  lemma {:induction false} GoGo(u: State, i: nat, a: PC, b: PC)
    requires i < |u.threads|
    ensures Go(Go(u, i, a), i, b) == Go(u, i, b)
  {
    var t := u.threads[i];
    assert u.threads[i := t.(pc := a)][i := t.(pc := b)] == u.threads[i := t.(pc := b)];
  }

  lemma {:induction false} Known(s: State, u: State, i: nat, job: Job, pc: PC)
    requires Along(s, u, i, job, pc)
    ensures ThreadOk(u, i, Thread(job, pc)) && Shared(u)
  {
    hide ThreadOk, Shared;
    assert ThreadOk(u, i, u.threads[i]);
  }

  // ----- one round of the descent ------------------------------------------------------------------

  /** The child that covers the key, with its latch free. */
  ghost predicate ChildFree(u: State, key: Key, p: PageId, pos: nat, x: PageId) {
    && IsIndex(u, p) && |u.latches| == |u.blocks| && x < |u.blocks| && x != p
    && pos == ChildPos(u.blocks[p].page.keys, key) && IsCovering(u, p, key, x) && u.latches[x].Free?
    && u.blocks[x].height < u.blocks[p].height
  }

  lemma {:induction false} FindsChild(s: State, u: State, i: nat, job: Job, cur: Ref) returns (pos: nat, x: PageId)
    requires Along(s, u, i, job, At(cur)) && cur.page < |u.latches| && Sure(u, cur) && IsIndex(u, cur.page)
    ensures ChildFree(u, job.key, cur.page, pos, x)
  {
    Known(s, u, i, job, At(cur));
    SearchFinds(u, i, Thread(job, At(cur)), cur);
    pos := ChildPos(u.blocks[cur.page].page.keys, job.key);
    x := u.blocks[cur.page].page.children[pos];
    RootIsNoChild(u.c, u.blocks, u.root, cur.page, pos);
    FreeElse(u, i, x);
    assert PageOk(u.c, u.blocks, cur.page);
    assert ChildOk(u.blocks, u.blocks[cur.page], pos);
  }

  /** The point after this one, when nobody interferes. */
  function NextLook(pc: PC, pos: nat, next: Ref): PC {
    match pc
    case At(cur) => Search(cur)
    case Search(cur) => Check1(cur, pos, next.page)
    case Check1(cur, _, _) => LatchNext(cur, pos, next.page)
    case LatchNext(cur, _, _) => Check2(cur, pos, next)
    case Check2(cur, _, _) => NextLen(cur, pos, next)
    case _ => pc
  }

  ghost predicate Looking(u: State, i: nat, job: Job, pc: PC, cur: Ref, pos: nat, next: Ref) {
    && i < |u.threads| && u.threads[i] == Thread(job, pc) && u.root < |u.blocks|
    && cur.page < |u.latches| && Sure(u, cur) && ChildFree(u, job.key, cur.page, pos, next.page)
    && next == Ref(next.page, u.latches[next.page].counter, Read)
    && (pc == At(cur) || pc == Search(cur) || pc == Check1(cur, pos, next.page) || pc == LatchNext(cur, pos, next.page)
        || pc == Check2(cur, pos, next))
  }

  lemma {:induction false} LookMoves(u: State, i: nat, job: Job, pc: PC, cur: Ref, pos: nat, next: Ref)
    requires Looking(u, i, job, pc, cur, pos, next)
    ensures Act(u, i, Plainly(job)) == Go(u, i, NextLook(pc, pos, next))
  {
    hide ChildPos;
  }

  lemma {:induction false} LooksAt(s: State, u: State, i: nat, job: Job, pc: PC, then': PC,
                                   cur: Ref, pos: nat, next: Ref) returns (w: State)
    requires Along(s, u, i, job, pc) && Looking(u, i, job, pc, cur, pos, next) && then' == NextLook(pc, pos, next)
    ensures Along(s, w, i, job, then') && w.blocks == u.blocks && w.latches == u.latches
    ensures w.root == u.root && w.c == u.c
    ensures !then'.NextLen? ==> Looking(w, i, job, then', cur, pos, next)
  {
    LookMoves(u, i, job, pc, cur, pos, next);
    w := Go(u, i, then');
    hide Along, ChildPos, Act;
    Onto(s, u, i, job, pc, then');
  }

  /** Checking, searching, checking, latching the child and checking again. */
  lemma {:induction false} Looks(s: State, u: State, i: nat, job: Job, cur: Ref, pos: nat, next: Ref) returns (w: State)
    requires Along(s, u, i, job, At(cur)) && Looking(u, i, job, At(cur), cur, pos, next)
    ensures Along(s, w, i, job, NextLen(cur, pos, next)) && w.blocks == u.blocks && w.latches == u.latches
    ensures w.root == u.root && w.c == u.c
  {
    hide Along, Looking;
    w := LooksAt(s, u, i, job, At(cur), Search(cur), cur, pos, next);
    w := LooksAt(s, w, i, job, Search(cur), Check1(cur, pos, next.page), cur, pos, next);
    w := LooksAt(s, w, i, job, Check1(cur, pos, next.page), LatchNext(cur, pos, next.page), cur, pos, next);
    w := LooksAt(s, w, i, job, LatchNext(cur, pos, next.page), Check2(cur, pos, next), cur, pos, next);
    w := LooksAt(s, w, i, job, Check2(cur, pos, next), NextLen(cur, pos, next), cur, pos, next);
  }

  /** The child is measured: an insert that finds it full turns to a correction, all else goes down. */
  lemma {:induction false} Measures(s: State, u: State, i: nat, job: Job, cur: Ref, pos: nat, next: Ref)
      returns (w: State)
    requires Along(s, u, i, job, NextLen(cur, pos, next)) && next.page < |u.latches| && Sure(u, next)
    ensures w.blocks == u.blocks && w.latches == u.latches && w.root == u.root && w.c == u.c
    ensures if job.Insert? && Full(u, next.page) then Along(s, w, i, job, UpCur(cur, pos, next, true))
            else Along(s, w, i, job, Descend(cur, next))
  {
    var pc := NextLen(cur, pos, next);
    Known(s, u, i, job, pc);
    assert i < |u.threads| && u.threads[i] == Thread(job, pc);
    assert InBounds(u, pc);
    assert !HasUnderflow(u.c, u.blocks[next.page].page);
    var then' := if job.Insert? && Full(u, next.page) then UpCur(cur, pos, next, true) else Descend(cur, next);
    w := Go(u, i, then');
    hide Along, HasUnderflow, HasOverflow, Shared, ThreadOk;
    Onto(s, u, i, job, pc, then');
  }

  lemma {:induction false} GoesDown(s: State, u: State, i: nat, job: Job, cur: Ref, next: Ref) returns (w: State)
    requires Along(s, u, i, job, Descend(cur, next)) && cur.page != next.page
    requires next.page < |u.latches| && Sure(u, next)
    ensures Stands(s, w, i, job, next) && w.blocks == u.blocks
  {
    var pc := Descend(cur, next);
    Known(s, u, i, job, pc);
    w := Act(u, i, Plainly(job));
    Onward(s, u, i, job, pc, At(next));
  }

  /** The thread is at the head of the loop, with a good guard. */
  ghost predicate Stands(s: State, u: State, i: nat, job: Job, cur: Ref) {
    Along(s, u, i, job, At(cur)) && cur.page < |u.latches| && Sure(u, cur)
  }

  // ----- a correction ------------------------------------------------------------------------------

  lemma {:induction false} LocksParent(s: State, u: State, i: nat, job: Job, cur: Ref, pos: nat, next: Ref)
      returns (w: State, held: Ref)
    requires Along(s, u, i, job, UpCur(cur, pos, next, true)) && cur.page < |u.latches| && Sure(u, cur)
    requires next.page < |u.latches| && next.page != cur.page
    ensures Along(s, w, i, job, UpNext(held, pos, next, true)) && held == Ref(cur.page, held.latch, Write)
    ensures w.blocks == u.blocks && w.root == u.root && w.c == u.c
    ensures |w.latches| == |u.latches| && w.latches[next.page] == u.latches[next.page]
  {
    var pc := UpCur(cur, pos, next, true);
    Known(s, u, i, job, pc);
    held := cur.(mode := Write);
    w := Act(u, i, Plainly(job));
    if cur.mode != Write { FreeElse(u, i, cur.page); }
    hide Shared, Covers, Found, Lone, Reaches, SameData, Checked;
    Onward(s, u, i, job, pc, UpNext(held, pos, next, true));
  }

  lemma {:induction false} LocksChild(s: State, u: State, i: nat, job: Job, cur: Ref, pos: nat, next: Ref)
      returns (w: State, held: Ref)
    requires Along(s, u, i, job, UpNext(cur, pos, next, true)) && next.page < |u.latches|
    requires u.latches[next.page] == Free(next.latch)
    ensures Along(s, w, i, job, Mark(cur, pos, held)) && held.page == next.page
    ensures w.blocks == u.blocks && w.root == u.root && w.c == u.c
  {
    var pc := UpNext(cur, pos, next, true);
    Known(s, u, i, job, pc);
    held := next.(mode := Write);
    w := Act(u, i, Plainly(job));
    hide Shared, Covers, Found, Lone, Reaches, SameData, Checked;
    Onward(s, u, i, job, pc, Mark(cur, pos, held));
  }

  lemma {:induction false} Marks(s: State, u: State, i: nat, job: Job, cur: Ref, pos: nat, next: Ref) returns (w: State)
    requires Along(s, u, i, job, Mark(cur, pos, next))
    ensures Along(s, w, i, job, Correct(cur, pos, next))
    ensures w.blocks == u.blocks && w.root == u.root && w.c == u.c
  {
    var pc := Mark(cur, pos, next);
    Known(s, u, i, job, pc);
    w := Act(u, i, Plainly(job));
    hide Shared, Covers, Found, Lone, Reaches, SameData, Checked;
    Onward(s, u, i, job, pc, Correct(cur, pos, next));
  }

  /** The split: after it, the child that covers the key has room. */
  lemma {:induction false} Corrects(s: State, u: State, i: nat, job: Job, cur: Ref, pos: nat, next: Ref)
      returns (w: State)
    requires Along(s, u, i, job, Correct(cur, pos, next))
    ensures Along(s, w, i, job, DropFrom(cur, next)) && cur.mode == Write
    ensures cur.page < |u.blocks| && cur.page < |w.blocks|
    ensures w.c == u.c && w.blocks[cur.page].height == u.blocks[cur.page].height && IsIndex(w, cur.page)
    ensures forall x :: IsCovering(w, cur.page, job.key, x) ==> !Full(w, x)
  {
    var pc := Correct(cur, pos, next);
    CanCorrect(s, u, i, job, cur, pos, next);
    w := Act(u, i, Plainly(job));
    ActCorrects(u, i, job, cur, pos, next);
    SplitLands(u.c, u.blocks, u.root, cur.page, pos, job.key);
    hide Act, TreeOk, CanSplit, SplitBlock, Inv, ChildPos, Reaches, SameData;
    Onward(s, u, i, job, pc, DropFrom(cur, next));
  }

  lemma {:induction false} CanCorrect(s: State, u: State, i: nat, job: Job, cur: Ref, pos: nat, next: Ref)
    requires Along(s, u, i, job, Correct(cur, pos, next))
    ensures cur.mode == Write && InBounds(u, Correct(cur, pos, next)) && |u.latches| == |u.blocks|
    ensures CanSplit(u.blocks, cur.page, pos) && u.blocks[cur.page].page.children[pos] == next.page
    ensures TreeOk(u.c, u.blocks, u.root) && TreeOk(u.c, SplitChild(u.blocks, cur.page, pos), u.root)
    ensures InRange(u.blocks[cur.page], job.key) && pos == ChildPos(u.blocks[cur.page].page.keys, job.key)
    ensures HasOverflow(u.c, u.blocks[next.page].page)
  {
    var t := Thread(job, Correct(cur, pos, next));
    Known(s, u, i, job, t.pc);
    hide Along;
    CorrectFits(u, i, t);
    CoveringIsChild(u, cur.page, job.key, next.page);
    hide Shared, HasOverflow, SplitBlock, ChildPos, TreeOk, SplitChild;
    SplitChildKeepsTree(u.c, u.blocks, u.root, cur.page, pos);
    RootExists(u.c, u.blocks, u.root);
    hide CanSplit;
  }

  lemma {:induction false} CorrectFits(u: State, i: nat, t: Thread)
    requires Shared(u) && t.pc.Correct? && ThreadOk(u, i, t)
    ensures var cur, pos, next := t.pc.cur, t.pc.pos, t.pc.next;
            && cur.mode == Write && cur.page < |u.blocks| && next.page < |u.blocks| && |u.latches| == |u.blocks|
            && TreeOk(u.c, u.blocks, u.root) && InRange(u.blocks[cur.page], t.job.key)
            && IsCovering(u, cur.page, t.job.key, next.page)
            && pos == ChildPos(u.blocks[cur.page].page.keys, t.job.key)
            && HasOverflow(u.c, u.blocks[next.page].page) && !HasOverflow(u.c, u.blocks[cur.page].page)
  {
    hide TreeOk, ChildPos, HasOverflow;
  }

  lemma {:induction false} RootExists(c: Config, t: seq<Block>, root: PageId)
    requires TreeOk(c, t, root)
    ensures root < |t|
  {
  }

  lemma {:induction false} ActCorrects(u: State, i: nat, job: Job, cur: Ref, pos: nat, next: Ref)
    requires i < |u.threads| && u.threads[i] == Thread(job, Correct(cur, pos, next)) && InBounds(u, u.threads[i].pc)
    requires CanSplit(u.blocks, cur.page, pos) && u.blocks[cur.page].page.children[pos] == next.page
    ensures var w := Act(u, i, Plainly(job));
            && w.blocks == SplitChild(u.blocks, cur.page, pos) && w.c == u.c
            && w.threads == u.threads[i := Thread(job, DropFrom(cur, next))]
  {
  }

  lemma {:induction false} Unmarks(s: State, u: State, i: nat, job: Job, cur: Ref, next: Ref) returns (w: State)
    requires Along(s, u, i, job, DropFrom(cur, next)) && cur.mode == Write
    ensures Stands(s, w, i, job, cur) && w.blocks == u.blocks && w.c == u.c
  {
    var pc := DropFrom(cur, next);
    Known(s, u, i, job, pc);
    w := Act(u, i, Plainly(job));
    hide Shared, Covers, Lone, Reaches, SameData;
    Onward(s, u, i, job, pc, At(cur));
  }

  lemma {:induction false} MakesRoom(s: State, u: State, i: nat, job: Job, cur: Ref, pos: nat, next: Ref)
      returns (w: State, held: Ref)
    requires Along(s, u, i, job, UpCur(cur, pos, next, true)) && cur.page < |u.latches| == |u.blocks| && Sure(u, cur)
    requires next.page < |u.latches| && next.page != cur.page && u.latches[next.page] == Free(next.latch)
    ensures Stands(s, w, i, job, held) && held.page == cur.page < |w.blocks|
    ensures w.blocks[cur.page].height == u.blocks[cur.page].height && IsIndex(w, cur.page)
    ensures forall x :: IsCovering(w, cur.page, job.key, x) ==> !Full(w, x)
  {
    hide Along, Sure, IsCovering, Full;
    w, held := LocksParent(s, u, i, job, cur, pos, next);
    var child;
    w, child := LocksChild(s, w, i, job, held, pos, next);
    w := Marks(s, w, i, job, held, pos, child);
    w := Corrects(s, w, i, job, held, pos, child);
    var v := Unmarks(s, w, i, job, held, child);
    assert forall x :: IsCovering(v, cur.page, job.key, x) ==> !Full(v, x) by {
      hide *;
      AlikeCovering(w, v, cur.page, job.key);
    }
    w := v;
  }

  lemma {:induction false} AlikeCovering(u: State, w: State, p: PageId, key: Key)
    requires w.blocks == u.blocks && w.c == u.c
    ensures forall x :: IsCovering(w, p, key, x) <==> IsCovering(u, p, key, x)
    ensures forall x :: Full(w, x) <==> Full(u, x)
  {
  }

  // ----- down to the leaf --------------------------------------------------------------------------

  /** One round: at most one correction, then a step down. */
  lemma {:induction false} Descends(s: State, u: State, i: nat, job: Job, cur: Ref) returns (w: State, next: Ref)
    requires Stands(s, u, i, job, cur) && IsIndex(u, cur.page)
    ensures Stands(s, w, i, job, next)
    ensures next.page < |w.blocks| && w.blocks[next.page].height < u.blocks[cur.page].height
  {
    var pos;
    pos, next, w := Sees(s, u, i, job, cur);
    if job.Insert? && Full(u, next.page) {
      var v, held := MakesRoom(s, w, i, job, cur, pos, next);
      pos, next, w := Sees(s, v, i, job, held);
    }
    w := GoesDown(s, w, i, job, w.threads[i].pc.cur, next);
  }

  /** From the head of the loop to the measured child. */
  lemma {:induction false} Sees(s: State, u: State, i: nat, job: Job, cur: Ref) returns (pos: nat, next: Ref, w: State)
    requires Stands(s, u, i, job, cur) && IsIndex(u, cur.page)
    ensures w.blocks == u.blocks && w.latches == u.latches && |u.blocks| == |u.latches|
    ensures cur.page != next.page && next.page < |w.latches| && w.latches[next.page] == Free(next.latch)
    ensures next.mode == Read && IsCovering(u, cur.page, job.key, next.page)
    ensures u.blocks[next.page].height < u.blocks[cur.page].height
    ensures if job.Insert? && Full(u, next.page) then Along(s, w, i, job, UpCur(cur, pos, next, true))
            else Along(s, w, i, job, Descend(cur, next))
  {
    var x;
    pos, x := FindsChild(s, u, i, job, cur);
    next := Ref(x, u.latches[x].counter, Read);
    Known(s, u, i, job, At(cur));
    assert Looking(u, i, job, At(cur), cur, pos, next) by { assert i < |u.threads|; }
    hide Looking, Along, Shared, ThreadOk, IsCovering;
    var v := Looks(s, u, i, job, cur, pos, next);
    w := Measures(s, v, i, job, cur, pos, next);
    AlikeCovering(u, v, cur.page, job.key);
  }

  lemma {:induction false} ToLeaf(s: State, u: State, i: nat, job: Job, cur: Ref) returns (w: State, leaf: Ref)
    requires Stands(s, u, i, job, cur) && cur.page < |u.blocks|
    ensures Stands(s, w, i, job, leaf) && leaf.page < |w.blocks| && w.blocks[leaf.page].page.Leaf?
    decreases u.blocks[cur.page].height
  {
    if IsIndex(u, cur.page) {
      hide Stands;
      var next;
      w, next := Descends(s, u, i, job, cur);
      w, leaf := ToLeaf(s, w, i, job, next);
    } else {
      w, leaf := u, cur;
    }
  }

  // ----- the root ----------------------------------------------------------------------------------

  /** A full leaf at the root is split so that the thread is left with the half that covers its key. */
  ghost predicate RootFits(s: State, key: Key) {
    s.root < |s.blocks| && (s.blocks[s.root].page.Leaf? && Full(s, s.root) ==> BelowMiddle(s.blocks[s.root].page, key))
  }

  ghost predicate Alike(s: State, u: State) {
    u.blocks == s.blocks && u.latches == s.latches && u.root == s.root && u.c == s.c
  }

  lemma {:induction false} SetsOut(s: State, i: nat, job: Job) returns (u: State)
    requires Lone(s, i) && s.threads[i].pc.Idle?
    ensures Along(s, u, i, job, RootLoad) && Alike(s, u)
  {
    var ch := Plainly(job);
    LoneStep(s, i, ch);
    Starts(s, i, ch);
    Goes(s, s, i, ch);
    assert InBounds(s, Idle);
    u := Act(s, i, ch);
    hide Inv, All, Reaches;
  }

  lemma {:induction false} LatchesRoot(s: State, u: State, i: nat, job: Job) returns (w: State, cur: Ref)
    requires Along(s, u, i, job, RootLoad)
    ensures Along(s, w, i, job, RootLen(cur)) && Alike(u, w)
    ensures w.root < |w.latches| && cur.page == w.root && w.latches[w.root] == Free(cur.latch) && cur.mode == Read
  {
    Known(s, u, i, job, RootLoad);
    assert InBounds(u, RootLoad) && i < |u.threads|;
    assert u.threads[i] == Thread(job, RootLoad);
    var v := Go(u, i, RootLatch(u.root));
    Onto(s, u, i, job, RootLoad, RootLatch(u.root));
    FreeElse(v, i, u.root);
    cur := Ref(u.root, u.latches[u.root].counter, Read);
    w := Go(v, i, RootLen(cur));
    hide Along, Shared;
    Onto(s, v, i, job, RootLatch(u.root), RootLen(cur));
  }

  lemma {:induction false} MeasuresRoot(s: State, u: State, i: nat, job: Job, cur: Ref) returns (w: State)
    requires Along(s, u, i, job, RootLen(cur)) && cur.page < |u.latches| && Sure(u, cur)
    ensures Along(s, w, i, job, if Full(u, cur.page) then RootUp(cur) else At(cur)) && Alike(u, w)
  {
    Known(s, u, i, job, RootLen(cur));
    assert InBounds(u, RootLen(cur)) && i < |u.threads|;
    assert u.threads[i] == Thread(job, RootLen(cur));
    var then' := if Full(u, cur.page) then RootUp(cur) else At(cur);
    w := Go(u, i, then');
    hide Along, Shared;
    Onto(s, u, i, job, RootLen(cur), then');
  }

  lemma {:induction false} LocksRoot(s: State, u: State, i: nat, job: Job, cur: Ref) returns (w: State, held: Ref)
    requires Along(s, u, i, job, RootUp(cur)) && cur.page < |u.latches| && u.latches[cur.page] == Free(cur.latch)
    ensures Along(s, w, i, job, RootSplit(held)) && held.mode == Write && held.page == cur.page
    ensures w.blocks == u.blocks && w.root == u.root && w.c == u.c
  {
    var pc := RootUp(cur);
    Known(s, u, i, job, pc);
    held := cur.(mode := Write);
    w := Act(u, i, Plainly(job));
    hide Shared, Lone, Reaches, SameData;
    Onward(s, u, i, job, pc, RootSplit(held));
  }

  lemma {:induction false} SplitsRoot(s: State, u: State, i: nat, job: Job, cur: Ref) returns (w: State)
    requires Along(s, u, i, job, RootSplit(cur)) && cur.mode == Write && RootFits(u, job.key)
    ensures Stands(s, w, i, job, cur) && cur.page < |w.blocks|
  {
    w := Act(u, i, Plainly(job));
    hide *;
    RootReady(s, u, i, job, cur);
    NotBroken(u, i, Plainly(job));
    RootActs(u, i, job, cur);
    Onward(s, u, i, job, RootSplit(cur), At(cur));
    StandsLocked(s, w, i, job, cur);
  }

  lemma {:induction false} StandsLocked(s: State, u: State, i: nat, job: Job, cur: Ref)
    requires Along(s, u, i, job, At(cur)) && cur.mode == Write
    ensures Stands(s, u, i, job, cur) && cur.page < |u.blocks|
  {
    Known(s, u, i, job, At(cur));
    hide Shared, Lone, Reaches, SameData, Covers;
  }

  lemma {:induction false} RootReady(s: State, u: State, i: nat, job: Job, cur: Ref)
    requires Along(s, u, i, job, RootSplit(cur)) && RootFits(u, job.key)
    ensures Inv(u) && i < |u.threads| && u.threads[i] == Thread(job, RootSplit(cur)) && Clean(u, i)
    ensures InBounds(u, RootSplit(cur))
  {
    Known(s, u, i, job, RootSplit(cur));
    hide TreeOk, Inv, Reaches, SameData;
    RootExists(u.c, u.blocks, u.root);
  }

  lemma {:induction false} RootActs(u: State, i: nat, job: Job, cur: Ref)
    requires i < |u.threads| && u.threads[i] == Thread(job, RootSplit(cur)) && InBounds(u, RootSplit(cur))
    ensures var w := Act(u, i, Plainly(job));
            w.threads == u.threads[i := Thread(job, At(cur))] || w.threads == u.threads[i := Thread(job, Broken)]
  {
    hide Divisible, SplitIndexRoot, SplitLeafRoot;
  }

  lemma {:induction false} NotBroken(u: State, i: nat, ch: Choice)
    requires Inv(u) && i < |u.threads| && Clean(u, i)
    ensures var w := Act(u, i, ch); i < |w.threads| && !w.threads[i].pc.Broken?
  {
    hide Act, Clean, Coherent, Owned;
    ActKeepsInv(u, i, ch);
    TreeStepMoves(u, i, ch);
    Unreachable(Act(u, i, ch), i);
  }

  lemma {:induction false} FromRoot(s: State, i: nat, job: Job) returns (w: State, cur: Ref)
    requires Lone(s, i) && s.threads[i].pc.Idle? && RootFits(s, job.key)
    ensures Stands(s, w, i, job, cur) && cur.page < |w.blocks|
  {
    var u := SetsOut(s, i, job);
    hide Along, Lone;
    u, cur := LatchesRoot(s, u, i, job);
    w := MeasuresRoot(s, u, i, job, cur);
    if Full(u, cur.page) {
      w, cur := LocksRoot(s, w, i, job, cur);
      w := SplitsRoot(s, w, i, job, cur);
    }
  }

  // ----- the leaf ----------------------------------------------------------------------------------

  lemma {:induction false} TakesLeaf(s: State, u: State, i: nat, job: Job, cur: Ref) returns (w: State, held: Ref)
    requires Stands(s, u, i, job, cur) && cur.page < |u.blocks| && u.blocks[cur.page].page.Leaf?
    ensures Along(s, w, i, job, Latched(held, true))
  {
    Known(s, u, i, job, At(cur));
    assert InBounds(u, At(cur)) && i < |u.threads| && u.threads[i] == Thread(job, At(cur));
    w := Go(u, i, Search(cur));
    Onto(s, u, i, job, At(cur), Search(cur));
    var pc := if job.Insert? then LeafUp(cur) else PinLoad(cur);
    GoGo(u, i, Search(cur), pc);
    Onto(s, w, i, job, Search(cur), pc);
    w := Go(u, i, pc);
    if cur.mode != Write { FreeElse(w, i, cur.page); }
    hide Shared, ThreadOk, Lone, SameData, Reaches;
    if job.Insert? { w, held := LocksLeaf(s, w, i, job, cur); } else { w, held := PinsLeaf(s, w, i, job, cur); }
  }

  lemma {:induction false} LocksLeaf(s: State, u: State, i: nat, job: Job, cur: Ref) returns (w: State, held: Ref)
    requires Along(s, u, i, job, LeafUp(cur)) && cur.page < |u.latches|
    requires cur.mode == Write || u.latches[cur.page] == Free(cur.latch)
    ensures Along(s, w, i, job, Latched(held, true))
  {
    Known(s, u, i, job, LeafUp(cur));
    held := cur.(mode := Write);
    w := Act(u, i, Plainly(job));
    hide Shared, Covers, Lone, Reaches, SameData;
    Onward(s, u, i, job, LeafUp(cur), Latched(held, true));
  }

  lemma {:induction false} PinsLeaf(s: State, u: State, i: nat, job: Job, cur: Ref) returns (w: State, held: Ref)
    requires Along(s, u, i, job, PinLoad(cur)) && cur.page < |u.latches|
    requires cur.mode == Write || u.latches[cur.page] == Free(cur.latch)
    ensures Along(s, w, i, job, Latched(held, true))
  {
    Known(s, u, i, job, PinLoad(cur));
    var n := u.latches[cur.page].counter;
    held := if cur.mode == Write then cur else Ref(cur.page, n, Pin);
    w := Act(u, i, Plainly(job));
    hide Shared, Covers, Lone, Reaches, SameData;
    if cur.mode == Write {
      Onward(s, u, i, job, PinLoad(cur), Latched(held, true));
    } else {
      Onward(s, u, i, job, PinLoad(cur), PinCas(cur, n));
      var v := w;
      w := Act(v, i, Plainly(job));
      Onward(s, v, i, job, PinCas(cur, n), Latched(held, true));
    }
  }

  // ----- the operation -----------------------------------------------------------------------------

  lemma {:induction false} Draws(s: State, u: State, i: nat, job: Job, cur: Ref) returns (w: State)
    requires Along(s, u, i, job, Latched(cur, true)) && s.clock <= MAX_U64
    ensures Lone(w, i) && Reaches(s, w, i, Plainly(job)) && w.threads[i] == Thread(job, Drawn(cur, s.clock, true))
    ensures s.root < |s.blocks| && w.root < |w.blocks|
    ensures All(w) == All(s) && w.applied == s.applied && w.clock == s.clock + 1
  {
    var ch := Plainly(job);
    w := Act(u, i, ch);
    assert Clean(u, i) && i < |u.threads|;
    WriteActs(s, u, i, job, Latched(cur, true));
    hide Act, Inv, Reaches, All, Clean;
    LoneStep(u, i, ch);
    Goes(s, u, i, ch);
    var events := StepIsAtomic(u, i, ch);
    AllSorted(u);
    AllSorted(w);
  }

  lemma {:induction false} WriteActs(s: State, u: State, i: nat, job: Job, pc: PC)
    requires Along(s, u, i, job, pc) && (pc.Latched? ==> s.clock <= MAX_U64)
    ensures var w := Act(u, i, Plainly(job));
            match pc
            case Latched(cur, same) =>
              && w.threads == u.threads[i := Thread(job, Drawn(cur, s.clock, same))]
              && w.applied == u.applied && w.clock == s.clock + 1
            case Applied(cur, _) => w == Go(u, i, Committed(cur))
            case Committed(_) => w.threads == u.threads[i := Thread(job, Idle)]
            case _ => true
  {
    Known(s, u, i, job, pc);
    assert i < |u.threads| && u.threads[i] == Thread(job, pc);
    assert (pc.Latched? || pc.Applied? || pc.Committed?) ==> InBounds(u, pc);
    hide Along, SameData, ThreadOk, Shared, InBounds, ActRoot, ActSearch, ActNext, ActSplit, ActLeaf;
    assert u.clock == s.clock by { assert SameData(s, u) by { assert Along(s, u, i, job, pc); } }
  }

  /** The step that applies the job: it takes effect exactly if it is an insert or the key has a record. */
  lemma {:induction false} Applies(u: State, i: nat, job: Job, cur: Ref, v: Version)
      returns (w: State, events: seq<Event>)
    requires Lone(u, i) && u.threads[i] == Thread(job, Drawn(cur, v, true)) && u.root < |u.blocks|
    ensures Lone(w, i) && w == Act(u, i, Plainly(job)) && w.threads[i] == Thread(job, Applied(cur, v))
    ensures w.root < |w.blocks| && w.clock == u.clock
    ensures events == if job.Insert? || HasRecord(All(u), job.key) then [Event(job.key, OpOf(job, v))] else []
    ensures w.applied == u.applied + events && All(w) == Replayed(All(u), events)
  {
    var ch := Plainly(job);
    w := Act(u, i, ch);
    LoneStep(u, i, ch);
    TreeStepMoves(u, i, ch);
    events := EventsOfJob(u, i, ch);
    HoldsAtLeaf(u, i);
    hide Act, Inv, All, Replayed;
  }

  lemma {:induction false} Finishes(u: State, i: nat, job: Job, cur: Ref, v: Version) returns (w: State)
    requires Lone(u, i) && u.threads[i] == Thread(job, Applied(cur, v))
    ensures Along(u, w, i, job, Idle)
  {
    var c := EndsCommit(u, i, job, cur, v);
    w := Unlatches(u, c, i, job, cur);
  }

  lemma {:induction false} EndsCommit(u: State, i: nat, job: Job, cur: Ref, v: Version) returns (w: State)
    requires Lone(u, i) && u.threads[i] == Thread(job, Applied(cur, v))
    ensures Along(u, w, i, job, Committed(cur))
  {
    Starts(u, i, Plainly(job));
    AllSorted(u);
    assert Along(u, u, i, job, Applied(cur, v)) && Clean(u, i) by { hide Inv, Reaches, All; }
    assert i < |u.threads|;
    hide Act, Lone, Along, Clean;
    WriteActs(u, u, i, job, Applied(cur, v));
    w := Go(u, i, Committed(cur));
    Onto(u, u, i, job, Applied(cur, v), Committed(cur));
  }

  lemma {:induction false} Unlatches(s: State, u: State, i: nat, job: Job, cur: Ref) returns (w: State)
    requires Along(s, u, i, job, Committed(cur))
    ensures Along(s, w, i, job, Idle)
  {
    WriteActs(s, u, i, job, Committed(cur));
    assert Clean(u, i) && i < |u.threads|;
    w := Act(u, i, Plainly(job));
    hide Act, Along, Clean;
    Onward(s, u, i, job, Committed(cur), Idle);
  }

  lemma {:induction false} Joins(s: State, u: State, w: State, i: nat, ch: Choice)
    requires Reaches(s, u, i, ch) && Reaches(u, w, i, ch)
    ensures Reaches(s, w, i, ch)
  {
    var n: nat :| u == Steps(s, i, ch, n);
    var m: nat :| w == Steps(u, i, ch, m);
    StepsAdd(s, i, ch, n, m);
  }

  lemma {:induction false} StepsAdd(s: State, i: nat, ch: Choice, n: nat, m: nat)
    ensures Steps(Steps(s, i, ch, n), i, ch, m) == Steps(s, i, ch, n + m)
  {
    hide Act;
    if m > 0 { StepsAdd(s, i, ch, n, m - 1); }
  }

  lemma {:induction false} AllFree(u: State, i: nat)
    requires Lone(u, i) && u.threads[i].pc.Idle?
    ensures Inv(u) && forall j :: 0 <= j < |u.threads| ==> u.threads[j].pc.Idle?
    ensures forall p :: 0 <= p < |u.latches| ==> u.latches[p].Free?
  {
    forall p | 0 <= p < |u.latches|
      ensures u.latches[p].Free?
    {
      hide Inv;
      FreeElse(u, i, p);
    }
  }

  /** All threads at rest, one of them takes up a job and is left alone, and no compare-and-swap fails for no
      reason: after some steps it is at rest again and all latches are free; the job has been applied under the
      version that the clock showed, exactly if it is an insert or the key had a record. An insert for which a
      full leaf at the root has to be split must belong to the half that stays. */
  lemma {:induction false} AloneFinishes(s: State, i: nat, job: Job) returns (w: State)
    requires Lone(s, i) && s.threads[i].pc.Idle? && RootFits(s, job.key) && s.clock <= MAX_U64
    ensures Reaches(s, w, i, Plainly(job)) && Inv(w)
    ensures i < |w.threads| && forall j :: 0 <= j < |w.threads| ==> w.threads[j].pc.Idle?
    ensures forall p :: 0 <= p < |w.latches| ==> w.latches[p].Free?
    ensures s.root < |s.blocks| && w.root < |w.blocks| && w.clock == s.clock + 1
    ensures var events :=
              if job.Insert? || HasRecord(All(s), job.key) then [Event(job.key, OpOf(job, s.clock))] else [];
            w.applied == s.applied + events && All(w) == Replayed(All(s), events)
  {
    var ch := Plainly(job);
    assert i < |s.threads|;
    var u, cur := FromRoot(s, i, job);
    hide Act, Inv, Coherent, Owned, All, Replayed, Reaches, Stands, Full, HasRecord;
    u, cur := ToLeaf(s, u, i, job, cur);
    u, cur := TakesLeaf(s, u, i, job, cur);
    u := Draws(s, u, i, job, cur);
    var v, events := Applies(u, i, job, cur, s.clock);
    Goes(s, u, i, ch);
    w := Finishes(v, i, job, cur, s.clock);
    Joins(s, v, w, i, ch);
    AllFree(w, i);
  }
}
