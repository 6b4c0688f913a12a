/** A reader walks the interval list, one load at a time, while the holder of the leaf's latch
    keeps appending and deleting. Every store of the writer is a step of its own. */
module VanillaReader {
  import opened History
  import opened Vanilla

  datatype Writer =
    | Resting
    | Allocated(op: Op)   // the new entry exists but is not yet the head
    | ClosedOld(op: Op)   // the old head is closed, the new one not yet published

  datatype Reader = Away | At(cell: nat) | Done(answer: Option<Entry>)

  /** `log` is bookkeeping: the operations that are finished. */
  datatype State = State(cells: seq<Cell>, head: nat, writer: Writer, reader: Reader, log: seq<Op>)

  // ----- steps ----------------------------------------------------------------------------

  /** Versions are drawn under the latch of the leaf, so each is newer than the last. */
  ghost predicate Newer(log: seq<Op>, op: Op) {
    log != [] && log[|log| - 1].version < op.version
  }

  /** One atomic step of the writer. */
  ghost predicate WriterStep(s: State, t: State) {
    && s.head < |s.cells|
    && match s.writer
       case Resting => exists op :: Newer(s.log, op) && Begins(s, t, op)
       case Allocated(op) =>
         t == s.(writer := ClosedOld(op),
                 cells := if s.cells[s.head].delVersion == MAX_U64
                          then s.cells[s.head := s.cells[s.head].(delVersion := op.version)] else s.cells)
       case ClosedOld(op) =>
         t == s.(head := |s.cells| - 1, writer := Resting, log := s.log + [op])
  }

  /** An append or push allocates its entry first; a delete is a single store. */
  ghost predicate Begins(s: State, t: State, op: Op)
    requires s.head < |s.cells|
  {
    match op
    case Delete(w) =>
      var h := s.cells[s.head];
      t == s.(log := s.log + [op],
              cells := if h.insertVersion < w && h.delVersion == MAX_U64
                       then s.cells[s.head := h.(delVersion := w)] else s.cells)
    case _ =>
      t == s.(writer := Allocated(op), cells := s.cells + [Cell(Some(s.head), op.payload, op.version, MAX_U64)])
  }

  /** One atomic step of the reader: load the head, or test an entry and follow its link. */
  ghost predicate ReaderStep(s: State, t: State, v: Version) {
    match s.reader
    case Away => t == s.(reader := At(s.head))
    case At(i) =>
      && i < |s.cells|
      && t == s.(reader :=
           if Covers(s.cells[i], v) then Done(Some(Entry(s.cells[i].insertVersion, s.cells[i].payload)))
           else if s.cells[i].next.Some? then At(s.cells[i].next.value) else Done(None))
    case Done(_) => t == s
  }

  ghost predicate Step(s: State, t: State, v: Version) {
    WriterStep(s, t) || ReaderStep(s, t, v)
  }

  // ----- what the writer's stores amount to -------------------------------------------------

  /** The list is that of the finished operations, up to the stores that the writer has made since. */
  ghost predicate Means(s: State) {
    && ChainLog(s.log) && s.head + 1 == |Entries(s.log)|
    && match s.writer
       case Resting => s.cells == Entries(s.log)
       case Allocated(op) =>
         && Newer(s.log, op) && !op.Delete?
         && s.cells == Prepended(Entries(s.log), op.payload, op.version)
       case ClosedOld(op) =>
         && Newer(s.log, op) && !op.Delete?
         && s.cells == Prepended(Closed(Entries(s.log), op.version), op.payload, op.version)
  }

  ghost predicate Run(states: seq<State>, v: Version) {
    && |states| > 0 && Means(states[0])
    && forall i :: 0 <= i < |states| - 1 ==> Step(states[i], states[i + 1], v)
  }

  lemma {:induction false} DeleteMeans(s: State, t: State, op: Op)
    requires Means(s) && s.writer.Resting? && op.Delete? && Newer(s.log, op) && Begins(s, t, op)
    ensures Means(t)
  {
    EntriesOn(s.log, op);
    HeadIsOld(s.log);
    hide ChainLog, Entries;
  }

  lemma {:induction false} BeginMeans(s: State, t: State, op: Op)
    requires Means(s) && s.writer.Resting? && !op.Delete? && Newer(s.log, op) && Begins(s, t, op)
    ensures Means(t)
  {
    hide ChainLog, Entries;
  }

  lemma {:induction false} CloseMeans(s: State, t: State)
    requires Means(s) && s.writer.Allocated? && WriterStep(s, t)
    ensures Means(t)
  {
    var op := s.writer.op;
    ClosedUnder(Entries(s.log), op.payload, op.version);
    hide ChainLog, Entries, Closed, Prepended;
  }

  lemma {:induction false} PublishMeans(s: State, t: State)
    requires Means(s) && s.writer.ClosedOld? && WriterStep(s, t)
    ensures Means(t)
  {
    EntriesOn(s.log, s.writer.op);
    hide ChainLog, Entries;
  }

  lemma {:induction false} WriterMeans(s: State, t: State)
    requires Means(s) && WriterStep(s, t)
    ensures Means(t) && s.log <= t.log && t.reader == s.reader
  {
    match s.writer {
      case Resting =>
        var op :| Newer(s.log, op) && Begins(s, t, op);
        if op.Delete? { DeleteMeans(s, t, op); } else { BeginMeans(s, t, op); }
      case Allocated(op) => CloseMeans(s, t);
      case ClosedOld(op) => PublishMeans(s, t);
    }
    hide Means;
  }

  /** Closing the old head below an entry that is not the head yet is closing it, and then prepending. */
  lemma {:induction false} ClosedUnder(entries: seq<Cell>, p: Payload, v: Version)
    requires entries != []
    ensures var h := |entries| - 1;
            var more := Prepended(entries, p, v);
            && |more| == |entries| + 1 && Prepended(Closed(entries, v), p, v) ==
            if more[h].delVersion == MAX_U64 then more[h := more[h].(delVersion := v)] else more
  {
  }

  /** In every run the stores of the writer make up its operations: whenever it rests, the list is the one that
      the finished operations leave behind, with the newest entry published. */
  lemma {:induction false} StoresMakeOperations(states: seq<State>, v: Version, n: nat)
    requires Run(states, v) && n < |states|
    ensures Means(states[n])
    ensures states[n].writer.Resting? ==>
      states[n].cells == Entries(states[n].log) && states[n].head + 1 == |states[n].cells|
  {
    hide Means, WriterStep;
    if n > 0 {
      StoresMakeOperations(states, v, n - 1);
      StepMeans(states[n - 1], states[n], v);
    }
    RestsOn(states[n]);
  }

  /** Undisturbed, an append or push is three stores, and a delete is one. */
  lemma {:induction false} OperationAlone(s: State, op: Op) returns (stores: seq<State>)
    requires Means(s) && s.writer.Resting? && Newer(s.log, op)
    ensures |stores| == (if op.Delete? then 2 else 4) && stores[0] == s
    ensures forall i :: 0 <= i < |stores| - 1 ==> WriterStep(stores[i], stores[i + 1])
    ensures var t := stores[|stores| - 1];
            && t.writer.Resting? && t.log == s.log + [op] && t.reader == s.reader
            && t.cells == Entries(t.log) && t.head + 1 == |t.cells|
  {
    MeansLinked(s);
    var h := s.cells[s.head];
    if op.Delete? {
      var a := s.(log := s.log + [op],
                  cells := if h.insertVersion < op.version && h.delVersion == MAX_U64
                           then s.cells[s.head := h.(delVersion := op.version)] else s.cells);
      assert Begins(s, a, op);
      DeleteMeans(s, a, op);
      stores := [s, a];
    } else {
      var a := s.(writer := Allocated(op),
                  cells := s.cells + [Cell(Some(s.head), op.payload, op.version, MAX_U64)]);
      assert Begins(s, a, op);
      BeginMeans(s, a, op);
      var b := a.(writer := ClosedOld(op),
                  cells := if a.cells[a.head].delVersion == MAX_U64
                           then a.cells[a.head := a.cells[a.head].(delVersion := op.version)] else a.cells);
      CloseMeans(a, b);
      var c := b.(head := |b.cells| - 1, writer := Resting, log := b.log + [op]);
      PublishMeans(b, c);
      stores := [s, a, b, c];
    }
    hide Entries;
  }

  lemma {:induction false} RestsOn(s: State)
    requires Means(s)
    ensures s.writer.Resting? ==> s.cells == Entries(s.log) && s.head + 1 == |s.cells|
  {
  }

  lemma {:induction false} StepMeans(s: State, t: State, v: Version)
    requires Means(s) && Step(s, t, v)
    ensures Means(t) && s.log <= t.log
  {
    if WriterStep(s, t) { WriterMeans(s, t); }
  }

  lemma {:induction false} LogsGrow(states: seq<State>, v: Version, m: nat, n: nat)
    requires Run(states, v) && m <= n < |states|
    ensures states[m].log <= states[n].log
  {
    hide Means, WriterStep;
    if m < n {
      LogsGrow(states, v, m, n - 1);
      StoresMakeOperations(states, v, n - 1);
      StepMeans(states[n - 1], states[n], v);
    }
  }

  // ----- what the reader finds --------------------------------------------------------------

  /** The answer of a search from entry `i` in one frozen list. */
  ghost function Answer(cells: seq<Cell>, i: nat, v: Version): Option<Entry>
    requires i < |cells|
  {
    if Covers(cells[i], v) then Some(Entry(cells[i].insertVersion, cells[i].payload))
    else if i == 0 then None
    else Answer(cells, i - 1, v)
  }

  /** Everything at or below the first `base` entries looks the same at `v`; the rest is too new. */
  ghost predicate SameBelow(a: seq<Cell>, b: seq<Cell>, v: Version) {
    && |a| <= |b|
    && (forall i :: 0 <= i < |a| ==>
          && Covers(a[i], v) == Covers(b[i], v)
          && a[i].insertVersion == b[i].insertVersion && a[i].payload == b[i].payload)
    && (forall i :: |a| <= i < |b| ==> b[i].insertVersion > v)
  }

  lemma {:induction false} SameAnswer(a: seq<Cell>, b: seq<Cell>, i: nat, v: Version)
    requires SameBelow(a, b, v) && |a| > 0 && i < |b|
    ensures Answer(b, i, v) == Answer(a, if i < |a| then i else |a| - 1, v)
  {
    if i > 0 { SameAnswer(a, b, i - 1, v); }
  }

  /** The pending answer of the reader is that of the list `start`, on which it might have begun. */
  ghost predicate Inv(start: seq<Cell>, s: State, v: Version) {
    && |start| > 0 && s.head + 1 >= |start| && s.head < |s.cells| && Linked(s.cells)
    && SameBelow(start, s.cells, v)
    && match s.reader
       case Away => true
       case At(i) => i < |s.cells| && Answer(s.cells, i, v) == Answer(start, |start| - 1, v)
       case Done(r) => r == Answer(start, |start| - 1, v)
  }

  /** No operation that is at work in the state has a version up to `v`. */
  ghost predicate WorksAbove(s: State, v: Version) {
    !s.writer.Resting? ==> s.writer.op.version > v
  }

  /** The operations that one log has beyond another are above `v`. */
  ghost predicate GrowsAbove(a: seq<Op>, b: seq<Op>, v: Version) {
    |a| <= |b| && forall j :: |a| <= j < |b| ==> b[j].version > v
  }

  lemma {:induction false} MeansLinked(s: State)
    requires Means(s)
    ensures s.head < |s.cells| && Linked(s.cells)
  {
    EntriesLinked(s.log);
    hide Entries;
  }

  /** Every single store of the writer keeps the pending answer. */
  lemma {:induction false} StoreKeepsInv(start: seq<Cell>, s: State, t: State, v: Version)
    requires v < MAX_U64 && Inv(start, s, v) && WriterStep(s, t) && s.head + 1 <= |s.cells|
    requires t.head < |t.cells| && Linked(t.cells) && s.head <= t.head
    requires WorksAbove(s, v) && WorksAbove(t, v) && GrowsAbove(s.log, t.log, v)
    ensures Inv(start, t, v)
  {
    if s.writer.Resting? {
      var op :| Newer(s.log, op) && Begins(s, t, op);
      if op.Delete? { assert t.log[|s.log|] == op; }
    }
    assert SameBelow(s.cells, t.cells, v);
    if s.reader.At? { SameAnswer(s.cells, t.cells, s.reader.cell, v); }
  }

  /** And every step of the reader leads to an older entry, or to the end. */
  lemma {:induction false} ReadKeepsInv(start: seq<Cell>, s: State, t: State, v: Version)
    requires v < MAX_U64 && Inv(start, s, v) && ReaderStep(s, t, v)
    ensures Inv(start, t, v)
    ensures s.reader.At? ==> t.reader.Done? || (t.reader.At? && t.reader.cell < s.reader.cell)
  {
    if s.reader.Away? { SameAnswer(start, s.cells, s.head, v); }
  }

  lemma {:induction false} AnswerIsReplay(log: seq<Op>, i: nat, v: Version)
    requires ChainLog(log) && v < MAX_U64 && i < |Entries(log)|
    requires forall j :: i < j < |Entries(log)| ==> !Covers(Entries(log)[j], v)
    ensures Answer(Entries(log), i, v) == Replay(log, v)
  {
    var es := Entries(log);
    if Covers(es[i], v) {
      CoveringIsReplay(log, v, i);
    } else if i == 0 {
      UncoveredIsReplay(log, v);
    } else {
      AnswerIsReplay(log, i - 1, v);
    }
  }

  lemma {:induction false} HeadMoves(s: State, t: State)
    requires Means(s) && WriterStep(s, t)
    ensures s.head <= t.head && s.head + 1 <= |s.cells|
  {
    MeansLinked(s);
    hide Entries;
  }

  lemma {:induction false} StartInv(s: State, v: Version)
    requires Means(s) && s.reader.Away? && WorksAbove(s, v) && v < MAX_U64
    ensures Inv(Entries(s.log), s, v)
  {
    MeansLinked(s);
    hide Entries;
  }

  /** From a state in which the reader is still away, as long as nothing up to its version is at work. */
  lemma {:induction false} RunKeepsInv(states: seq<State>, v: Version, k: nat, n: nat)
    requires v < MAX_U64 && Run(states, v) && k <= n < |states| && states[k].reader.Away?
    requires forall m :: k <= m <= n ==> WorksAbove(states[m], v)
    requires GrowsAbove(states[k].log, states[n].log, v)
    ensures Inv(Entries(states[k].log), states[n], v)
  {
    hide Means, WriterStep, Inv, Entries, WorksAbove;
    StoresMakeOperations(states, v, k);
    if n == k {
      StartInv(states[k], v);
    } else {
      var s, t := states[n - 1], states[n];
      LogsGrow(states, v, k, n - 1);
      LogsGrow(states, v, n - 1, n);
      RunKeepsInv(states, v, k, n - 1);
      StoresMakeOperations(states, v, n - 1);
      StoresMakeOperations(states, v, n);
      if WriterStep(s, t) {
        HeadMoves(s, t);
        MeansLinked(t);
        StoreKeepsInv(Entries(states[k].log), s, t, v);
      } else {
        ReadKeepsInv(Entries(states[k].log), s, t, v);
      }
    }
  }

  /** A walk that has not begun when `k` operations are finished, and during which no operation with a version
      up to `v` is at work or finished, answers as these operations replayed up to `v`: also between closing the
      old head and publishing the new one. */
  lemma {:induction false} ConcurrentReadIsReplay(states: seq<State>, v: Version, k: nat, n: nat)
    requires v < MAX_U64 && Run(states, v) && k <= n < |states|
    requires states[k].reader.Away? && states[n].reader.Done?
    requires forall m :: k <= m <= n ==> WorksAbove(states[m], v)
    requires GrowsAbove(states[k].log, states[n].log, v)
    ensures states[n].reader.answer == Replay(states[k].log, v)
  {
    var log := states[k].log;
    RunKeepsInv(states, v, k, n);
    StoresMakeOperations(states, v, k);
    AnswerIsReplay(log, |Entries(log)| - 1, v);
  }
}
