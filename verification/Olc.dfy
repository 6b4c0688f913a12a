/** Inserts, updates and deletes by any number of threads, with optimistic latches (olc_query.rs, the split
    code of query.rs, and the write operations of dispatch.rs). Every load, compare-and-swap and store of a
    latch word is one step, and so is every read of a page. */
module Olc {
  import opened History
  import opened Tree
  import opened Latch
  import opened MvIndex

  datatype Job = Insert(key: Key, payload: Payload) | Update(key: Key, payload: Payload) | Remove(key: Key)

  function OpOf(job: Job, v: Version): Op {
    match job
    case Insert(_, payload) => Push(v, payload)
    case Update(_, payload) => Append(v, payload)
    case Remove(_) => Op.Delete(v)
  }

  datatype Mode = Read | Write | Pin

  /** A guard: the page, and the counter in the latch word when the guard was taken. */
  datatype Ref = Ref(page: PageId, latch: nat, mode: Mode)

  /** Where a thread stands. `cur` and `next` are `current_guard` and `next_guard`. `same` is bookkeeping:
      the word on which the leaf was locked or pinned is the word that the guard had latched. */
  datatype PC =
    | Idle
    | RootLoad
    | RootLatch(page: PageId)
    | RootLen(cur: Ref)
    | RootUp(cur: Ref)
    | RootSplit(cur: Ref)
    | At(cur: Ref)
    | Search(cur: Ref)
    | Check1(cur: Ref, pos: nat, child: nat)
    | LatchNext(cur: Ref, pos: nat, child: nat)
    | Check2(cur: Ref, pos: nat, next: Ref)
    | NextLen(cur: Ref, pos: nat, next: Ref)
    | UpCur(cur: Ref, pos: nat, next: Ref, over: bool)
    | UpNext(cur: Ref, pos: nat, next: Ref, over: bool)
    | Mark(cur: Ref, pos: nat, next: Ref)
    | Correct(cur: Ref, pos: nat, next: Ref)
    | DropFrom(cur: Ref, next: Ref)
    | Descend(cur: Ref, next: Ref)
    | LeafUp(cur: Ref)
    | PinLoad(cur: Ref)
    | PinCas(cur: Ref, loaded: nat)
    | Latched(cur: Ref, same: bool)
    | Drawn(cur: Ref, version: Version, same: bool)
    | Applied(cur: Ref, version: Version)
    | Committed(cur: Ref)
    | Abort(cur: Ref)
    | Underflow
    | Broken

  datatype Thread = Thread(job: Job, pc: PC)

  /** `applied` is bookkeeping: the operations in the order in which they reached their chains. */
  datatype State = State(c: Config, root: PageId, blocks: seq<Block>, latches: seq<Abstract>,
                         threads: seq<Thread>, clock: nat, applied: seq<Event>)

  /** What the scheduler and the memory decide: the next job, whether a weak compare-and-swap fails
      for no reason, and what a read of a page returns while the page is being written. */
  datatype Choice = Choice(job: Job, spurious: bool, pos: nat, child: nat, over: bool, under: bool)

  /** A writer reads what is there. So does a reader whose latch is still valid: no write section has
      begun since. Any other read may return anything. */
  predicate Sure(s: State, r: Ref)
    requires r.page < |s.latches|
  {
    r.mode != Read || Valid(s.latches[r.page], r.latch)
  }

  function Go(s: State, i: nat, pc: PC): State
    requires i < |s.threads|
  {
    s.(threads := s.threads[i := s.threads[i].(pc := pc)])
  }

  function Relatch(s: State, p: PageId, a: Abstract): State
    requires p < |s.latches|
  {
    s.(latches := s.latches[p := a])
  }

  /** Dropping a guard. */
  function Release(s: State, r: Ref): State
    requires r.page < |s.latches|
  {
    match r.mode
    case Read => s
    case Write => Relatch(s, r.page, Free(r.latch + 1))
    case Pin => Relatch(s, r.page, Free(r.latch))
  }

  /** The compare-and-swap of `upgrade_write_lock` succeeds only on the very word the guard latched. */
  predicate CanLock(s: State, r: Ref, ch: Choice)
    requires r.page < |s.latches|
  {
    s.latches[r.page] == Free(r.latch) && !ch.spurious
  }

  function Lock(s: State, i: nat, r: Ref): State
    requires r.page < |s.latches|
  {
    Relatch(s, r.page, Locked(r.latch, i))
  }

  /** Every guard of a thread is on a page that exists. */
  predicate InBounds(s: State, pc: PC) {
    && |s.latches| == |s.blocks| && s.root < |s.blocks|
    && (pc.Idle? || pc.RootLoad? || pc.RootLatch? || pc.Underflow? || pc.Broken? || pc.cur.page < |s.blocks|)
    && (pc.RootLatch? ==> pc.page < |s.blocks|)
    && (pc.Check2? || pc.NextLen? || pc.UpCur? || pc.UpNext? || pc.Mark? || pc.Correct? || pc.DropFrom? || pc.Descend?
        ==> pc.next.page < |s.blocks|)
  }

  /** One step of thread `i`. A step that the code could not take safely leads to `Broken`. */
  function Act(s: State, i: nat, ch: Choice): State
    requires i < |s.threads|
  {
    var pc := s.threads[i].pc;
    if !InBounds(s, pc) then Go(s, i, Broken)
    else match pc
      case Idle => s.(threads := s.threads[i := Thread(ch.job, RootLoad)])
      case RootLoad | RootLatch(_) | RootLen(_) | RootUp(_) | RootSplit(_) => ActRoot(s, i, ch)
      case At(_) | Search(_) | Check1(_, _, _) | LatchNext(_, _, _) => ActSearch(s, i, ch)
      case Check2(_, _, _) | NextLen(_, _, _) | Descend(_, _) => ActNext(s, i, ch)
      case UpCur(_, _, _, _) | UpNext(_, _, _, _) => ActSplit(s, i, ch)
      case Mark(_, _, _) | Correct(_, _, _) | DropFrom(_, _) => ActSplit(s, i, ch)
      case LeafUp(_) | PinLoad(_) | PinCas(_, _) => ActLeaf(s, i, ch)
      case Latched(_, _) | Drawn(_, _, _) | Applied(_, _) | Committed(_) => ActWrite(s, i)
      case Abort(cur) => Go(Release(s, cur), i, RootLoad)
      case Underflow => s
      case Broken => s
  }

  /** `retrieve_root_internal`: load the root's address, latch the page, split it if it is full. An index root
      stays at its address; a leaf root gets a new root above it, and the thread goes on with the old page. */
  function ActRoot(s: State, i: nat, ch: Choice): State
    requires i < |s.threads| && InBounds(s, s.threads[i].pc)
  {
    match s.threads[i].pc
    case RootLoad =>
      Go(s, i, RootLatch(s.root))
    case RootLatch(p) =>
      Go(s, i, if WriteHeld(s.latches[p]) then RootLoad else RootLen(Ref(p, s.latches[p].counter, Read)))
    case RootLen(cur) =>
      var over := if Sure(s, cur) then HasOverflow(s.c, s.blocks[cur.page].page) else ch.over;
      Go(s, i, if over then RootUp(cur) else At(cur))
    case RootUp(cur) =>
      if CanLock(s, cur, ch) then Go(Lock(s, i, cur), i, RootSplit(cur.(mode := Write))) else Go(s, i, Abort(cur))
    case RootSplit(cur) =>
      var latches := s.latches + [Free(0), Free(0)];
      if !Divisible(s.blocks[cur.page]) then Go(s, i, Broken)
      else if s.blocks[cur.page].page.Index?
      then Go(s.(blocks := SplitIndexRoot(s.blocks, cur.page), latches := latches), i, At(cur))
      else Go(s.(blocks := SplitLeafRoot(s.blocks, cur.page), root := |s.blocks| + 1, latches := latches), i, At(cur))
    case _ => s
  }

  /** The head of the loop: check the guard, search the page, check again, latch the child. The kind
      of a page never changes, so that read is right in any case. */
  function ActSearch(s: State, i: nat, ch: Choice): State
    requires i < |s.threads| && InBounds(s, s.threads[i].pc)
  {
    var job := s.threads[i].job;
    match s.threads[i].pc
    case At(cur) => Go(s, i, if Sure(s, cur) then Search(cur) else Abort(cur))
    case Search(cur) =>
      (match s.blocks[cur.page].page
       case Leaf(_) => Go(s, i, if job.Insert? then LeafUp(cur) else PinLoad(cur))
       case Index(keys, children) =>
         if !Sure(s, cur) then Go(s, i, Check1(cur, ch.pos, ch.child))
         else var pos := ChildPos(keys, job.key);
              Go(s, i, if pos < |children| then Check1(cur, pos, children[pos]) else Broken))
    case Check1(cur, pos, child) => Go(s, i, if Sure(s, cur) then LatchNext(cur, pos, child) else Abort(cur))
    case LatchNext(cur, pos, child) =>
      if child >= |s.latches| then Go(s, i, Broken)
      else if WriteHeld(s.latches[child]) then Go(s, i, Abort(cur))
      else Go(s, i, Check2(cur, pos, Ref(child, s.latches[child].counter, Read)))
    case _ => s
  }

  /** The parent is checked once more after the child is latched. Then the child is measured (not by
      updates and deletes), and the descent goes on to it or turns to a correction. */
  function ActNext(s: State, i: nat, ch: Choice): State
    requires i < |s.threads| && InBounds(s, s.threads[i].pc)
  {
    match s.threads[i].pc
    case Check2(cur, pos, next) => Go(s, i, if Sure(s, cur) then NextLen(cur, pos, next) else Abort(cur))
    case NextLen(cur, pos, next) =>
      var page := s.blocks[next.page].page;
      var over := if Sure(s, next) then HasOverflow(s.c, page) else ch.over;
      var under := if Sure(s, next) then HasUnderflow(s.c, page) else ch.under;
      Go(s, i, if s.threads[i].job.Insert? && (over || under) then UpCur(cur, pos, next, over) else Descend(cur, next))
    case Descend(cur, next) => Go(Release(s, cur), i, At(next))
    case _ => s
  }

  /** Lock parent and child, mark the child, split it, unlock the child. */
  function ActSplit(s: State, i: nat, ch: Choice): State
    requires i < |s.threads| && InBounds(s, s.threads[i].pc)
  {
    match s.threads[i].pc
    case UpCur(cur, pos, next, over) =>
      if cur.mode == Write then Go(s, i, UpNext(cur, pos, next, over))
      else if CanLock(s, cur, ch) then Go(Lock(s, i, cur), i, UpNext(cur.(mode := Write), pos, next, over))
      else Go(s, i, Abort(cur))
    case UpNext(cur, pos, next, over) =>
      if CanLock(s, next, ch)
      then Go(Lock(s, i, next), i, if over then Mark(cur, pos, next.(mode := Write)) else Underflow)
      else Go(s, i, Abort(cur))
    case Mark(cur, pos, next) =>
      Go(Relatch(s, next.page, Abstract.Obsolete(next.latch, i)), i, Correct(cur, pos, next))
    case Correct(cur, pos, next) =>
      if CanSplit(s.blocks, cur.page, pos) && s.blocks[cur.page].page.children[pos] == next.page
      then Go(s.(blocks := SplitChild(s.blocks, cur.page, pos), latches := s.latches + [Free(0)]), i,
              DropFrom(cur, next))
      else Go(s, i, Broken)
    case DropFrom(cur, next) => Go(Release(s, next), i, At(cur))
    case _ => s
  }

  /** At a leaf: inserts lock it from the latched word; updates and deletes pin whatever word they find,
      without comparing it with their latch. Who has just split a leaf root holds the lock already. */
  function ActLeaf(s: State, i: nat, ch: Choice): State
    requires i < |s.threads| && InBounds(s, s.threads[i].pc)
  {
    match s.threads[i].pc
    case LeafUp(cur) =>
      if cur.mode == Write then Go(s, i, Latched(cur, true))
      else if CanLock(s, cur, ch) then Go(Lock(s, i, cur), i, Latched(cur.(mode := Write), true))
      else Go(s, i, Abort(cur))
    case PinLoad(cur) =>
      Go(s, i, if cur.mode == Write then Latched(cur, true)
               else if s.latches[cur.page].Free? then PinCas(cur, s.latches[cur.page].counter) else Abort(cur))
    case PinCas(cur, loaded) =>
      if s.latches[cur.page] == Free(loaded) && !ch.spurious
      then Go(Relatch(s, cur.page, Pinned(loaded, i)), i, Latched(Ref(cur.page, loaded, Pin), loaded == cur.latch))
      else Go(s, i, Abort(cur))
    case _ => s
  }

  /** Whether the operation finds what it works on: an insert makes its record if there is none. */
  predicate Takes(job: Job, records: seq<Record>) {
    job.Insert? || HasRecord(records, job.key)
  }

  /** Under the latch of the leaf: draw a version, apply the operation, end the commit, unlatch. The
      clock is assumed not to run out. */
  function ActWrite(s: State, i: nat): State
    requires i < |s.threads| && InBounds(s, s.threads[i].pc)
  {
    var job := s.threads[i].job;
    match s.threads[i].pc
    case Latched(cur, same) =>
      if s.clock <= MAX_U64 then Go(s.(clock := s.clock + 1), i, Drawn(cur, s.clock, same)) else s
    case Drawn(cur, v, _) =>
      if s.blocks[cur.page].page.Index? then Go(s, i, Broken)
      else
        var records := s.blocks[cur.page].page.records;
        var op := OpOf(job, v);
        Go(s.(blocks := s.blocks[cur.page := s.blocks[cur.page].(page := Leaf(Written(records, job.key, op)))],
              applied := if Takes(job, records) then s.applied + [Event(job.key, op)] else s.applied),
           i, Applied(cur, v))
    case Applied(cur, _) => Go(s, i, Committed(cur))
    case Committed(cur) => Go(Release(s, cur), i, Idle)
    case _ => s
  }

  // ----- runs -----------------------------------------------------------------------------

  /** The one step that is not safe in any case is the split of a leaf root. It is clean if the key belongs to
      the left half, with which the thread goes on, and nobody else stands between loading the address of the
      root and latching it. */
  ghost predicate Clean(s: State, i: nat)
    requires i < |s.threads|
  {
    s.threads[i].pc.RootSplit? && s.root < |s.blocks| && s.blocks[s.root].page.Leaf? && Divisible(s.blocks[s.root]) ==>
      StaysLeft(s, s.threads[i].job.key) && NobodyBorrows(s, i)
  }

  /** After the split of a leaf root at its middle record, the old page still covers the key. */
  ghost predicate StaysLeft(s: State, key: Key)
    requires s.root < |s.blocks|
  {
    BelowMiddle(s.blocks[s.root].page, key)
  }

  ghost predicate NobodyBorrows(s: State, i: nat) {
    forall j :: 0 <= j < |s.threads| && j != i ==> !s.threads[j].pc.RootLatch?
  }

  ghost predicate StepBy(s: State, u: State, i: nat, ch: Choice) {
    i < |s.threads| && Clean(s, i) && u == Act(s, i, ch)
  }

  ghost predicate Step(s: State, u: State) {
    exists i: nat, ch: Choice :: StepBy(s, u, i, ch)
  }

  /** Logs ascend, and stay below the clock. */
  ghost predicate LogsBelow(b: Block, bound: nat) {
    b.page.Leaf? ==> forall i :: 0 <= i < |b.page.records| ==> LogOk(b.page.records[i], bound)
  }

  ghost predicate LogOk(r: Record, bound: nat) {
    Increasing(r.log) && forall j :: 0 <= j < |r.log| ==> r.log[j].version < bound
  }

  ghost predicate Initial(s: State) {
    && TreeOk(s.c, s.blocks, s.root)
    && |s.latches| == |s.blocks| && (forall p :: 0 <= p < |s.latches| ==> s.latches[p].Free?)
    && (forall p :: 0 <= p < |s.blocks| ==> LogsBelow(s.blocks[p], s.clock))
    && (forall i :: 0 <= i < |s.threads| ==> s.threads[i].pc == Idle)
    && s.applied == []
  }

  ghost predicate Run(states: seq<State>) {
    |states| > 0 && Initial(states[0]) && forall i :: 0 <= i < |states| - 1 ==> Step(states[i], states[i + 1])
  }
}
