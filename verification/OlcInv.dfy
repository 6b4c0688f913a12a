/** What every step of the machine in `Olc` keeps: the tree, the guards, and what each thread may
    rely on as long as its latches are valid. */
module OlcInv {
  import opened History
  import opened Tree
  import opened Latch
  import opened Olc

  // ----- guards ---------------------------------------------------------------------------

  /** The guard agrees with the latch: a reader's counter is not ahead, a writer and a pin holder own
      the word. */
  ghost predicate Has(s: State, i: nat, r: Ref) {
    && r.page < |s.blocks| && |s.latches| == |s.blocks|
    && match r.mode
       case Read => r.latch <= s.latches[r.page].counter
       case Write => s.latches[r.page] == Locked(r.latch, i)
       case Pin => s.latches[r.page] == Pinned(r.latch, i)
  }

  ghost predicate HasMarked(s: State, i: nat, r: Ref) {
    && r.page < |s.blocks| && |s.latches| == |s.blocks| && r.mode == Write
    && s.latches[r.page] == Abstract.Obsolete(r.latch, i)
  }

  ghost predicate IsIndex(s: State, p: PageId) {
    p < |s.blocks| && s.blocks[p].page.Index?
  }

  /** The child that covers the key, in an index page. */
  ghost predicate IsCovering(s: State, p: PageId, key: Key, x: PageId) {
    && IsIndex(s, p)
    && var b := s.blocks[p].page;
       ChildPos(b.keys, key) < |b.children| && x == b.children[ChildPos(b.keys, key)]
  }

  ghost predicate Full(s: State, p: PageId) {
    p < |s.blocks| && HasOverflow(s.c, s.blocks[p].page)
  }

  // ----- what a thread knows --------------------------------------------------------------

  /** If the guard is still good, the page covers the key, and an insert finds room in it. An index page that
      is write-locked may have been filled by the split just made; then the covering child has room. */
  ghost predicate Covers(s: State, t: Thread, r: Ref)
    requires r.page < |s.latches| && r.page < |s.blocks|
  {
    Sure(s, r) ==>
      && InRange(s.blocks[r.page], t.job.key)
      && (t.job.Insert? && Full(s, r.page) ==>
            r.mode == Write && IsIndex(s, r.page) && forall x :: IsCovering(s, r.page, t.job.key, x) ==> !Full(s, x))
  }

  ghost predicate Cursor(s: State, i: nat, t: Thread, r: Ref) {
    Has(s, i, r) && r.mode != Pin && Covers(s, t, r)
  }

  ghost predicate Found(s: State, t: Thread, cur: Ref, pos: nat, child: PageId)
    requires cur.page < |s.latches| && cur.page < |s.blocks|
  {
    && IsIndex(s, cur.page)
    && (Sure(s, cur) ==>
          pos == ChildPos(s.blocks[cur.page].page.keys, t.job.key) && IsCovering(s, cur.page, t.job.key, child))
  }

  /** The child after the second check of its parent. */
  ghost predicate Checked(s: State, i: nat, t: Thread, next: Ref) {
    && Has(s, i, next) && next.mode != Pin && next.page != s.root
    && (Sure(s, next) ==> InRange(s.blocks[next.page], t.job.key))
  }

  /** The leaf a thread holds, pinned or write-locked. If the word had not changed since the guard was
      taken, the leaf still covers the key. */
  ghost predicate Holds(s: State, i: nat, t: Thread, cur: Ref, same: bool) {
    && Has(s, i, cur) && s.blocks[cur.page].page.Leaf?
    && cur.mode != Read && (t.job.Insert? ==> cur.mode == Write)
    && (same ==> InRange(s.blocks[cur.page], t.job.key))
    && (t.job.Insert? ==> same && !Full(s, cur.page))
  }

  ghost predicate ThreadOk(s: State, i: nat, t: Thread) {
    match t.pc
    case Idle | RootLoad => true
    case RootLatch(p) => p == s.root
    case RootLen(cur) => Has(s, i, cur) && cur.mode == Read && (Sure(s, cur) ==> cur.page == s.root)
    case RootUp(cur) =>
      Has(s, i, cur) && cur.mode == Read && (Sure(s, cur) ==> cur.page == s.root && Full(s, cur.page))
    case RootSplit(cur) => Has(s, i, cur) && cur.page == s.root && cur.mode == Write && Full(s, s.root)
    case At(cur) => Cursor(s, i, t, cur)
    case Search(cur) => Cursor(s, i, t, cur)
    case Check1(cur, pos, child) => Cursor(s, i, t, cur) && Found(s, t, cur, pos, child)
    case LatchNext(cur, pos, child) => Cursor(s, i, t, cur) && Found(s, t, cur, pos, child) && child < |s.blocks|
    case Check2(cur, pos, next) =>
      Cursor(s, i, t, cur) && Found(s, t, cur, pos, next.page) && Has(s, i, next) && next.mode == Read
    case NextLen(cur, pos, next) =>
      Cursor(s, i, t, cur) && Found(s, t, cur, pos, next.page) && Checked(s, i, t, next) && next.mode == Read
    case UpCur(cur, pos, next, over) =>
      && Cursor(s, i, t, cur) && Found(s, t, cur, pos, next.page) && Checked(s, i, t, next) && next.mode == Read
      && t.job.Insert? && (Sure(s, next) ==> over && Full(s, next.page))
    case UpNext(cur, pos, next, over) =>
      && Cursor(s, i, t, cur) && Found(s, t, cur, pos, next.page) && Checked(s, i, t, next) && next.mode == Read
      && t.job.Insert? && cur.mode == Write && (Sure(s, next) ==> over && Full(s, next.page))
    case Mark(cur, pos, next) =>
      && Cursor(s, i, t, cur) && Found(s, t, cur, pos, next.page) && Checked(s, i, t, next) && next.mode == Write
      && t.job.Insert? && cur.mode == Write && Full(s, next.page) && !Full(s, cur.page)
    case Correct(cur, pos, next) =>
      && Cursor(s, i, t, cur) && Found(s, t, cur, pos, next.page) && HasMarked(s, i, next) && next.page != s.root
      && t.job.Insert? && cur.mode == Write && Full(s, next.page) && !Full(s, cur.page)
    case DropFrom(cur, next) =>
      Cursor(s, i, t, cur) && HasMarked(s, i, next) && t.job.Insert? && cur.mode == Write && cur.page != next.page
    case Descend(cur, next) =>
      && Has(s, i, cur) && cur.mode != Pin && Cursor(s, i, t, next) && next.mode == Read
    case LeafUp(cur) => Cursor(s, i, t, cur) && s.blocks[cur.page].page.Leaf? && t.job.Insert?
    case PinLoad(cur) => Cursor(s, i, t, cur) && s.blocks[cur.page].page.Leaf? && !t.job.Insert?
    case PinCas(cur, _) =>
      Cursor(s, i, t, cur) && s.blocks[cur.page].page.Leaf? && !t.job.Insert? && cur.mode == Read
    case Latched(cur, same) => Holds(s, i, t, cur, same)
    case Drawn(cur, v, same) => Holds(s, i, t, cur, same) && v < s.clock && LogsBelow(s.blocks[cur.page], v)
    case Applied(cur, v) => Has(s, i, cur) && cur.mode != Read
    case Committed(cur) => Has(s, i, cur) && cur.mode != Read
    case Abort(cur) => Has(s, i, cur) && cur.mode != Pin
    case Underflow => false
    case Broken => false
  }

  // ----- what threads owe each other ------------------------------------------------------

  /** The guard on which the descent stands. */
  ghost function Standing(pc: PC): Option<Ref> {
    if pc.Idle? || pc.RootLoad? || pc.RootLatch? || pc.Underflow? || pc.Broken? then None else Some(pc.cur)
  }

  /** The guard on the next page, once its parent has been checked a second time. */
  ghost function Ahead(pc: PC): Option<Ref> {
    if pc.NextLen? || pc.UpCur? || pc.UpNext? || pc.Mark? || pc.Correct? || pc.DropFrom? || pc.Descend?
    then Some(pc.next) else None
  }

  ghost predicate SureOn(s: State, r: Option<Ref>, x: PageId) {
    r.Some? && r.value.page == x && r.value.mode != Pin && x < |s.latches| && Sure(s, r.value)
  }

  /** The thread reads or writes the page, and could still come to write it. */
  ghost predicate Trusts(s: State, t: Thread, x: PageId) {
    SureOn(s, Standing(t.pc), x) || SureOn(s, Ahead(t.pc), x)
  }

  /** The points of the descent loop at which a split may have filled the page in hand. */
  ghost predicate InDescent(pc: PC) {
    pc.At? || pc.Search? || pc.Check1? || pc.LatchNext? || pc.Check2? || pc.NextLen? || pc.UpCur? || pc.UpNext?
    || pc.Mark? || pc.Correct? || pc.DropFrom?
  }

  /** An insert has filled the page by a split, and still holds it. */
  ghost predicate HasFilled(s: State, t: Thread, x: PageId) {
    && t.job.Insert?
    && InDescent(t.pc)
    && t.pc.cur.mode == Write && Full(s, t.pc.cur.page)
    && IsCovering(s, t.pc.cur.page, t.job.key, x)
  }

  /** While `w` holds a page it has filled, `t` does not get at the child `w` is about to go to. */
  ghost predicate KeepsAway(s: State, t: Thread, w: Thread) {
    forall x :: HasFilled(s, w, x) ==> !Trusts(s, t, x)
  }

  ghost predicate Crowd(s: State, i: nat, j: nat)
    requires i < |s.threads| && j < |s.threads|
  {
    i != j ==> KeepsAway(s, s.threads[i], s.threads[j])
  }

  ghost predicate Shared(s: State) {
    && TreeOk(s.c, s.blocks, s.root)
    && |s.latches| == |s.blocks|
    && (forall p :: 0 <= p < |s.blocks| ==> LogsBelow(s.blocks[p], s.clock))
  }

  ghost predicate Coherent(s: State) {
    && Shared(s)
    && (forall i :: 0 <= i < |s.threads| ==> ThreadOk(s, i, s.threads[i]))
    && (forall i, j :: 0 <= i < |s.threads| && 0 <= j < |s.threads| ==> Crowd(s, i, j))
  }

  // ----- one step, seen by the others -----------------------------------------------------

  ghost predicate OwnedByOther(a: Abstract, i: nat) {
    !a.Free? && a.owner != i
  }

  /** What thread `i` may do to a latch. */
  ghost predicate LatchMoves(a: Abstract, b: Abstract, i: nat) {
    && a.counter <= b.counter
    && (Valid(b, a.counter) ==> Valid(a, a.counter))
    && (OwnedByOther(a, i) ==> b == a)
  }

  /** Everything a descent can see of a page. */
  ghost predicate SameShape(a: Block, b: Block) {
    && a.lo == b.lo && a.hi == b.hi
    && (if a.page.Index? then b.page == a.page else b.page.Leaf? && |a.page.records| == |b.page.records|)
  }

  /** What thread `i` may do to a page. */
  ghost predicate PageMoves(s: State, u: State, i: nat, p: PageId)
    requires p < |s.blocks| <= |u.blocks| && p < |s.latches| <= |u.latches| && i < |s.threads|
  {
    && (u.blocks[p] != s.blocks[p] ==> !s.latches[p].Free? && s.latches[p].owner == i && u.latches[p] == s.latches[p])
    && (!SameShape(s.blocks[p], u.blocks[p]) ==> WriteHeld(s.latches[p]) && Trusts(s, s.threads[i], p))
    && (s.blocks[p].page.Leaf? <==> u.blocks[p].page.Leaf?)
  }

  /** What thread `i` may do to the root: put a new page above it, if it has locked it and nobody else is
      about to latch it. */
  ghost predicate RootMoves(s: State, u: State, i: nat) {
    u.root != s.root ==>
      && s.root < |s.latches| && |s.blocks| <= u.root
      && WriteHeld(s.latches[s.root]) && s.latches[s.root].owner == i
      && NobodyBorrows(s, i)
  }

  ghost predicate Guarantee(s: State, u: State, i: nat) {
    && i < |s.threads| == |u.threads|
    && u.c == s.c && RootMoves(s, u, i) && s.clock <= u.clock
    && |s.blocks| == |s.latches| <= |u.blocks| == |u.latches|
    && (forall j :: 0 <= j < |s.threads| && j != i ==> u.threads[j] == s.threads[j])
    && (forall p :: 0 <= p < |s.latches| ==> LatchMoves(s.latches[p], u.latches[p], i))
    && (forall p :: 0 <= p < |s.blocks| ==> PageMoves(s, u, i, p))
  }

  /** Thread `i` has not come to trust a page but through its parent, or the root. */
  ghost predicate TrustMoves(s: State, u: State, i: nat)
    requires i < |s.threads| && i < |u.threads|
  {
    forall x :: Trusts(u, u.threads[i], x) ==>
      Trusts(s, s.threads[i], x) || x == s.root || exists p, pos :: ChildOf(s, p, pos, x) && Trusts(s, s.threads[i], p)
  }

  ghost predicate ChildOf(s: State, p: PageId, pos: nat, x: PageId) {
    IsIndex(s, p) && pos < |s.blocks[p].page.children| && s.blocks[p].page.children[pos] == x
  }

  ghost predicate Mine(s: State, u: State, i: nat) {
    && Shared(u) && Guarantee(s, u, i)
    && ThreadOk(u, i, u.threads[i])
    && TrustMoves(s, u, i)
    && (forall j :: 0 <= j < |s.threads| ==> Crowd(u, j, i))
  }
}
