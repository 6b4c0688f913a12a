/** The multi-version index run by one thread (query.rs, dispatch.rs): descents that split full pages
    on the way down, and the operations on top of them. */
module MvIndex {
  import opened History
  import opened Tree
  import opened InOrder
  import Agreement

  /** One operation of the history, on one key. */
  datatype Event = Event(key: Key, op: Op)

  /** A key is missing until it is inserted; afterwards it shows an entry or is deleted. */
  datatype KeyState = Missing | Present(entry: Option<Entry>)

  /** Replays, in order, only the events on `key` with a version at or below `v`. */
  function ReplayKey(history: seq<Event>, key: Key, v: Version): KeyState {
    if history == [] then Missing
    else
      var before := ReplayKey(history[..|history| - 1], key, v);
      var e := history[|history| - 1];
      if e.key != key || e.op.version > v then before
      else match before
           case Missing => if e.op.Push? then Present(Apply(None, e.op)) else Missing
           case Present(s) => Present(Apply(s, e.op))
  }

  function Answer(s: KeyState): Option<Entry> {
    match s
    case Missing => None
    case Present(e) => e
  }

  ghost predicate Dated(history: seq<Event>) {
    forall i, j :: 0 <= i < j < |history| ==> history[i].op.version < history[j].op.version
  }

  /** The sorted sequence of records that a history leaves behind. */
  function Records(history: seq<Event>): seq<Record> {
    if history == [] then []
    else
      var e := history[|history| - 1];
      Written(Records(history[..|history| - 1]), e.key, e.op)
  }

  ghost predicate Sorted(rs: seq<Record>) {
    Within(rs, 0, MAX_KEY + 1)
  }

  /** The log of a key in a sequence of records; empty when there is no record. */
  function LogOf(rs: seq<Record>, key: Key): seq<Op> {
    var pos := LowerBound(Keys(rs), key);
    if pos < |rs| && rs[pos].key == key then rs[pos].log else []
  }

  lemma {:induction false} WrittenSorted(rs: seq<Record>, key: Key, op: Op)
    requires Sorted(rs)
    ensures Sorted(Written(rs, key, op))
  {
    var pos := LowerBound(Keys(rs), key);
    if HasRecord(rs, key) {
      assert Written(rs, key, op) == rs[pos := Record(key, rs[pos].log + [op])];
    } else if op.Push? {
      InsertedSorted(rs, pos, Record(key, [op]));
    }
    hide LowerBound, Inserted;
  }

  /** A write extends the log of its own key and of no other. */
  lemma {:induction false} WrittenLog(rs: seq<Record>, key: Key, op: Op, other: Key)
    requires Sorted(rs)
    ensures LogOf(Written(rs, key, op), other) ==
            if other == key && (op.Push? || HasRecord(rs, key)) then LogOf(rs, other) + [op] else LogOf(rs, other)
    ensures HasRecord(Written(rs, key, op), other) <==>
            HasRecord(rs, other) || (other == key && op.Push?)
  {
    var pos := LowerBound(Keys(rs), key);
    var q := LowerBound(Keys(rs), other);
    if HasRecord(rs, key) {
      ReplacedLog(rs, pos, Record(key, rs[pos].log + [op]), other);
    } else if op.Push? {
      InsertedLog(rs, pos, Record(key, [op]), other);
    }
  }

  lemma {:induction false} ReplacedLog(rs: seq<Record>, pos: nat, r: Record, other: Key)
    requires Sorted(rs) && pos < |rs| && rs[pos].key == r.key
    ensures LogOf(rs[pos := r], other) == if other == r.key then r.log else LogOf(rs, other)
    ensures HasRecord(rs[pos := r], other) == HasRecord(rs, other)
  {
    var q := LowerBound(Keys(rs), other);
    LowerBoundIs(Keys(rs[pos := r]), other, q);
    LowerBoundIs(Keys(rs), r.key, pos);
  }

  lemma {:induction false} InsertedSorted(rs: seq<Record>, pos: nat, r: Record)
    requires Sorted(rs) && pos == LowerBound(Keys(rs), r.key) && !HasRecord(rs, r.key)
    ensures Sorted(Inserted(rs, pos, r))
    ensures forall i :: 0 <= i <= |rs| ==>
      Inserted(rs, pos, r)[i] == if i < pos then rs[i] else if i == pos then r else rs[i - 1]
  {
    hide LowerBound;
  }

  lemma {:induction false} InsertedBound(rs: seq<Record>, pos: nat, r: Record, other: Key)
    requires Sorted(rs) && pos == LowerBound(Keys(rs), r.key) && !HasRecord(rs, r.key)
    ensures LowerBound(Keys(Inserted(rs, pos, r)), other)
         == LowerBound(Keys(rs), other) + if other <= r.key then 0 else 1
  {
    hide LowerBound;
    var ws := Inserted(rs, pos, r);
    var q := LowerBound(Keys(rs), other);
    InsertedSorted(rs, pos, r);
    hide Inserted;
    if other <= r.key {
      assert q <= pos;
      LowerBoundIs(Keys(ws), other, q);
    } else {
      assert q >= pos;
      LowerBoundIs(Keys(ws), other, q + 1);
    }
  }

  lemma {:induction false} InsertedLog(rs: seq<Record>, pos: nat, r: Record, other: Key)
    requires Sorted(rs) && pos == LowerBound(Keys(rs), r.key) && !HasRecord(rs, r.key)
    ensures LogOf(Inserted(rs, pos, r), other) == if other == r.key then r.log else LogOf(rs, other)
    ensures HasRecord(Inserted(rs, pos, r), other) == (other == r.key || HasRecord(rs, other))
  {
    hide LowerBound;
    var q := LowerBound(Keys(rs), other);
    InsertedSorted(rs, pos, r);
    InsertedBound(rs, pos, r, other);
    if other == r.key {
    } else if other < r.key {
      assert q <= pos;
    } else {
      assert q >= pos;
    }
  }

  predicate HasRecord(rs: seq<Record>, key: Key) {
    var pos := LowerBound(Keys(rs), key);
    pos < |rs| && rs[pos].key == key
  }

  /** What the log of a key has to do with the history. */
  ghost predicate LogTells(history: seq<Event>, key: Key, log: seq<Op>, present: bool) {
    && (log == [] || ChainLog(log))
    && present == (log != [])
    && forall i :: 0 <= i < |log| ==> FromHistory(history, log[i])
  }

  ghost predicate FromHistory(history: seq<Event>, op: Op) {
    exists j :: 0 <= j < |history| && history[j].op == op
  }

  lemma {:induction false} TellsOn(history: seq<Event>, key: Key, log: seq<Op>, present: bool)
    requires Dated(history) && history != [] && LogTells(history[..|history| - 1], key, log, present)
    ensures LogTells(history, key, log, present)
    ensures var op := history[|history| - 1].op; present || op.Push? ==> LogTells(history, key, log + [op], true)
  {
    var n := |history| - 1;
    var op := history[n].op;
    forall i | 0 <= i < |log|
      ensures FromHistory(history, log[i]) && log[i].version < op.version
    {
      assert FromHistory(history[..n], log[i]);
      var j :| 0 <= j < n && history[..n][j].op == log[i];
      assert history[j].op == log[i];
    }
    assert FromHistory(history, op) by { assert history[n].op == op; }
  }

  lemma {:induction false} RecordsTell(history: seq<Event>, key: Key)
    requires Dated(history)
    ensures Sorted(Records(history))
    ensures LogTells(history, key, LogOf(Records(history), key), HasRecord(Records(history), key))
  {
    if history != [] {
      hide LowerBound, Written, HasRecord, LogOf, Sorted, LogTells;
      var n := |history| - 1;
      var e := history[n];
      var before := Records(history[..n]);
      RecordsTell(history[..n], key);
      WrittenSorted(before, e.key, e.op);
      WrittenLog(before, e.key, e.op, key);
      TellsOn(history, key, LogOf(before, key), HasRecord(before, key));
    }
  }

  /** After any history, replaying the log of a key is replaying the history of the key: the log
      holds its operations from the first insert on. */
  lemma {:induction false} RecordsReplay(history: seq<Event>, key: Key, v: Version)
    requires Dated(history)
    ensures var log := LogOf(Records(history), key);
            && Replay(log, v) == Answer(ReplayKey(history, key, v))
            && (ReplayKey(history, key, v).Missing? <==> log == [] || log[0].version > v)
  {
    if history != [] {
      hide LowerBound, Written, LogOf, HasRecord;
      var n := |history| - 1;
      var e := history[n];
      var before := Records(history[..n]);
      var prev := LogOf(before, key);
      RecordsReplay(history[..n], key, v);
      RecordsTell(history[..n], key);
      WrittenLog(before, e.key, e.op, key);
      assert (prev + [e.op])[..|prev|] == prev;
      if prev != [] { FirstIsOldest(history, key); }
    }
  }

  lemma {:induction false} HistoryGrows(history: seq<Event>, e: Event)
    ensures Records(history + [e]) == Written(Records(history), e.key, e.op)
    ensures Dated(history) && (forall i :: 0 <= i < |history| ==> history[i].op.version < e.op.version) ==>
              Dated(history + [e])
  {
    hide Written;
    assert (history + [e])[..|history|] == history;
  }

  /** Where there is no record, nothing but a push writes one. */
  lemma {:induction false} NotWritten(t: seq<Block>, leaf: PageId, key: Key, op: Op)
    requires leaf < |t| && t[leaf].page.Leaf? && !HasRecord(t[leaf].page.records, key) && !op.Push?
    ensures Rewritten(t, leaf, Written(t[leaf].page.records, key, op)) == t
  {
    assert Written(t[leaf].page.records, key, op) == t[leaf].page.records;
  }

  ghost predicate EverInserted(history: seq<Event>, key: Key) {
    exists i :: 0 <= i < |history| && history[i].key == key && history[i].op.Push?
  }

  /** A key has a record exactly if it was ever inserted, deleted or not. */
  lemma {:induction false} InsertedHasRecord(history: seq<Event>, key: Key)
    requires Dated(history)
    ensures HasRecord(Records(history), key) <==> EverInserted(history, key)
  {
    if history != [] {
      var n := |history| - 1;
      var e := history[n];
      RecordsTell(history[..n], key);
      InsertedHasRecord(history[..n], key);
      WrittenLog(Records(history[..n]), e.key, e.op, key);
      hide HasRecord, LogOf, Written;
      if i :| 0 <= i < |history| && history[i].key == key && history[i].op.Push? {
        assert i < n ==> history[..n][i] == history[i];
      }
      if i :| 0 <= i < n && history[..n][i].key == key && history[..n][i].op.Push? {
        assert history[i] == history[..n][i];
      }
    }
  }

  lemma {:induction false} FirstIsOldest(history: seq<Event>, key: Key)
    requires Dated(history) && history != []
    ensures var prev := LogOf(Records(history[..|history| - 1]), key);
            prev != [] ==> prev[0].version < history[|history| - 1].op.version
  {
    var n := |history| - 1;
    var prev := LogOf(Records(history[..n]), key);
    RecordsTell(history[..n], key);
    if prev != [] {
      assert FromHistory(history[..n], prev[0]);
    }
  }

  /** What an operation reports. */
  datatype Reason = KeyAlreadyDeleted | KeyDoesNotExist
  datatype Outcome = Updated(version: Version) | Deleted(version: Version) | ZeroAffected(reason: Reason)

  // ----- the index ------------------------------------------------------------------------

  /** The root is a full leaf: the one case in which a descent may return the wrong leaf. */
  predicate FullLeafRoot(c: Config, t: seq<Block>, root: PageId)
    requires root < |t|
  {
    t[root].page.Leaf? && HasOverflow(c, t[root].page)
  }

  /** The descent for `key` ends in the leaf that covers it. A full leaf root is split at its middle record,
      but the descent then returns the left half whatever the key. */
  predicate Lands(c: Config, t: seq<Block>, root: PageId, key: Key)
    requires root < |t|
  {
    FullLeafRoot(c, t, root) ==> BelowMiddle(t[root].page, key)
  }

  class MVBPlusTree {
    const c: Config
    var blocks: seq<Block>
    var root: PageId
    var clock: Version
    ghost var history: seq<Event>

    ghost predicate Valid()
      reads this
    {
      && TreeOk(c, blocks, root)
      && Dated(history)
      && (forall i :: 0 <= i < |history| ==> history[i].op.version < clock)
      && Contents(blocks, root) == Records(history)
    }

    /** A new tree is one empty leaf. */
    constructor (c: Config)
      requires Sizes(c)
      ensures Valid() && history == [] && this.c == c && clock == 1
    {
      this.c := c;
      blocks := [Block(Leaf([]), 0, MAX_KEY + 1, 0)];
      root := 0;
      clock := 1;
      history := [];
    }

    /** Splits a full root. An index root stays at its address; a leaf root gets a new root above
        it, and the old page is what the caller goes on with. */
    method RetrieveRoot() returns (guard: PageId)
      requires TreeOk(c, blocks, root)
      modifies this`blocks, this`root
      ensures TreeOk(c, blocks, root) && Contents(blocks, root) == old(Contents(blocks, root))
      ensures guard == old(root) && guard < |blocks| && !HasOverflow(c, blocks[guard].page)
      ensures blocks[guard].page.Leaf? == old(blocks[root].page.Leaf?)
      ensures old(FullLeafRoot(c, blocks, root)) ==>
                forall key: Key :: InRange(blocks[guard], key) <==> old(BelowMiddle(blocks[root].page, key))
      ensures !old(FullLeafRoot(c, blocks, root)) ==> guard == root
    {
      guard := root;
      if !HasOverflow(c, blocks[root].page) {
        return;
      }
      assert PageOk(c, blocks, root);
      HalvesOk(c, blocks, blocks[root]);
      match blocks[root].page {
        case Index(_, _) =>
          SplitIndexRootKeepsTree(c, blocks, root);
          SplitIndexRootKeepsContents(c, blocks, root);
          blocks := SplitIndexRoot(blocks, root);
        case Leaf(_) =>
          SplitLeafRootKeepsTree(c, blocks, root);
          SplitLeafRootKeepsContents(c, blocks, root);
          blocks, root := SplitLeafRoot(blocks, root), |blocks| + 1;
      }
    }

    /** Splits a full child under a parent that has room. */
    method DoOverflowCorrection(parent: PageId, childPos: nat)
      requires TreeOk(c, blocks, root) && IsChild(blocks, parent, childPos)
      requires !HasOverflow(c, blocks[parent].page)
      requires HasOverflow(c, blocks[blocks[parent].page.children[childPos]].page)
      modifies this`blocks
      ensures old(CanSplit(blocks, parent, childPos))
      ensures blocks == SplitChild(old(blocks), parent, childPos)
      ensures TreeOk(c, blocks, root) && Contents(blocks, root) == old(Contents(blocks, root))
    {
      SplitChildKeepsTree(c, blocks, root, parent, childPos);
      SplitChildKeepsContents(c, blocks, root, parent, childPos);
      blocks := SplitChild(blocks, parent, childPos);
    }

    /** The descent of an insert: full pages are split on the way down, no page is ever underfull,
        and the leaf it ends in has room and covers the key exactly when the descent lands. */
    method TraversalWrite(key: Key) returns (leaf: PageId)
      requires TreeOk(c, blocks, root)
      modifies this`blocks, this`root
      ensures TreeOk(c, blocks, root) && Contents(blocks, root) == old(Contents(blocks, root))
      ensures leaf < |blocks| && blocks[leaf].page.Leaf? && !HasOverflow(c, blocks[leaf].page)
      ensures InRange(blocks[leaf], key) <==> old(Lands(c, blocks, root, key))
    {
      var curr: PageId := RetrieveRoot();
      while blocks[curr].page.Index?
        invariant TreeOk(c, blocks, root) && Contents(blocks, root) == old(Contents(blocks, root))
        invariant curr < |blocks|
        invariant blocks[curr].page.Index? ==> InRange(blocks[curr], key) && old(Lands(c, blocks, root, key))
        invariant InRange(blocks[curr], key) <==> old(Lands(c, blocks, root, key))
        invariant HasOverflow(c, blocks[curr].page) ==> HasRoomBelow(c, blocks, curr, key)
        decreases blocks[curr].height, if HasRoomBelow(c, blocks, curr, key) then 0 else 1
      {
        var childPos := ChildPos(blocks[curr].page.keys, key);
        ChildCovers(c, blocks, root, curr, key);
        var next := blocks[curr].page.children[childPos];
        NeverUnderfull(c, blocks, root, curr, childPos);
        if HasOverflow(c, blocks[next].page) {
          assert PageOk(c, blocks, next);
          HalvesOk(c, blocks, blocks[next]);
          SplitSettles(c, blocks, root, curr, childPos, key);
          DoOverflowCorrection(curr, childPos);
        } else if HasUnderflow(c, blocks[next].page) {
          assert false;
        } else {
          curr := next;
        }
      }
      leaf := curr;
    }

    /** Reads descend without changing anything. */
    method TraversalRead(key: Key) returns (leaf: PageId)
      requires TreeOk(c, blocks, root)
      ensures leaf == LeafFor(c, blocks, root, root, key)
    {
      var curr: PageId := root;
      while blocks[curr].page.Index?
        invariant curr < |blocks| && InRange(blocks[curr], key)
        invariant LeafFor(c, blocks, root, curr, key) == LeafFor(c, blocks, root, root, key)
        decreases blocks[curr].height
      {
        ChildCovers(c, blocks, root, curr, key);
        assert PageOk(c, blocks, curr);
        curr := blocks[curr].page.children[ChildPos(blocks[curr].page.keys, key)];
      }
      leaf := curr;
    }

    /** A drawn version is beyond every version in the index, and is not drawn again. */
    method StartCommit() returns (version: Version)
      requires Valid() && clock < MAX_U64
      modifies this`clock
      ensures Valid() && old(clock) <= version < clock <= old(clock) + 1
      ensures forall i :: 0 <= i < |history| ==> history[i].op.version < version
    {
      version := clock;
      clock := clock + 1;
    }

    /** What an insert does to the leaf it was given, under a version that is new. The index stays in order
        exactly if the leaf covers the key. */
    method WriteNew(leaf: PageId, key: Key, op: Op)
      requires Valid() && leaf < |blocks| && blocks[leaf].page.Leaf? && !HasOverflow(c, blocks[leaf].page)
      requires op.Push? && op.version < clock
      requires forall i :: 0 <= i < |history| ==> history[i].op.version < op.version
      modifies this`blocks, this`history
      ensures history == old(history) + [Event(key, op)]
      ensures Valid() <==> old(InRange(blocks[leaf], key))
    {
      hide TreeOk, Contents, Written, InRange, Dated, Records, HasOverflow;
      PushIsGoodExactly(c, blocks, root, leaf, key, op);
      HistoryGrows(history, Event(key, op));
      blocks := blocks[leaf := blocks[leaf].(page := Leaf(Written(blocks[leaf].page.records, key, op)))];
      history := history + [Event(key, op)];
    }

    /** After an insert the index is intact, and shows the insert, exactly when the descent landed:
        from any index root, and from a leaf root unless it was full and the key belongs right. */
    method Insert(key: Key, payload: Payload) returns (version: Version)
      requires Valid() && clock < MAX_U64
      modifies this
      ensures version == old(clock) && clock == old(clock) + 1
      ensures history == old(history) + [Event(key, Push(version, payload))]
      ensures Valid() <==> old(Lands(c, blocks, root, key))
    {
      var leaf := TraversalWrite(key);
      version := StartCommit();
      hide Valid, TreeOk, Lands, InRange, HasOverflow;
      WriteNew(leaf, key, Push(version, payload));
    }

    /** What updates and deletes do to the leaf they were given, under a version that is new. In a leaf that
        does not cover the key they find nothing. */
    method WriteExisting(leaf: PageId, key: Key, op: Op) returns (affected: bool)
      requires Valid() && leaf < |blocks| && blocks[leaf].page.Leaf? && !op.Push? && op.version < clock
      requires forall i :: 0 <= i < |history| ==> history[i].op.version < op.version
      modifies this`blocks, this`history
      ensures Valid()
      ensures old(InRange(blocks[leaf], key)) ==>
                history == old(history) + [Event(key, op)] && (affected <==> EverInserted(old(history), key))
      ensures !old(InRange(blocks[leaf], key)) ==> history == old(history) && !affected
    {
      ExistingWrite(c, blocks, root, leaf, key, op);
      InsertedHasRecord(history, key);
      HistoryGrows(history, Event(key, op));
      hide TreeOk, Written, HasRecord, EverInserted, Contents;
      affected := HasRecord(blocks[leaf].page.records, key);
      ghost var covers := InRange(blocks[leaf], key);
      if affected {
        blocks := blocks[leaf := blocks[leaf].(page := Leaf(Written(blocks[leaf].page.records, key, op)))];
      } else {
        NotWritten(blocks, leaf, key, op);
      }
      if covers { history := history + [Event(key, op)]; }
    }

    /** An update of a key that was never inserted changes nothing and says so; otherwise it appends to the
        key's chain. When the descent does not land, the update is lost. */
    method Update(key: Key, payload: Payload) returns (version: Version, result: Outcome)
      requires Valid() && clock < MAX_U64
      modifies this
      ensures Valid() && version == old(clock) && clock == old(clock) + 1
      ensures old(Lands(c, blocks, root, key)) ==>
                history == old(history) + [Event(key, Append(version, payload))]
                && (result == Updated(version) <==> EverInserted(old(history), key))
      ensures !old(Lands(c, blocks, root, key)) ==> history == old(history) && result != Updated(version)
      ensures result != Updated(version) ==> result == ZeroAffected(KeyDoesNotExist)
    {
      var leaf := TraversalWrite(key);
      version := StartCommit();
      hide Valid, TreeOk, EverInserted, Lands, InRange;
      var affected := WriteExisting(leaf, key, Append(version, payload));
      result := if affected then Updated(version) else ZeroAffected(KeyDoesNotExist);
    }

    /** A delete of a key that was never inserted is reported as one that is deleted already; a second
        delete of a key is reported as done. The reason `KeyDoesNotExist` is never given. */
    method Delete(key: Key) returns (version: Version, result: Outcome)
      requires Valid() && clock < MAX_U64
      modifies this
      ensures Valid() && version == old(clock) && clock == old(clock) + 1
      ensures old(Lands(c, blocks, root, key)) ==>
                history == old(history) + [Event(key, Op.Delete(version))]
                && (result == Deleted(version) <==> EverInserted(old(history), key))
      ensures !old(Lands(c, blocks, root, key)) ==> history == old(history) && result != Deleted(version)
      ensures result != Deleted(version) ==> result == ZeroAffected(KeyAlreadyDeleted)
    {
      var leaf := TraversalWrite(key);
      version := StartCommit();
      hide Valid, TreeOk, EverInserted, Lands, InRange;
      var affected := WriteExisting(leaf, key, Op.Delete(version));
      result := if affected then Deleted(version) else ZeroAffected(KeyAlreadyDeleted);
    }

    /** A point read at a version: the descent, then a lookup in the chain of the record, whatever its kind
        and the coins it was built with. It returns what the chain shows of the operations on the key, and
        that is what replaying them up to the version gives: time travel through the whole index. */
    method Point(key: Key, v: Version, kind: Agreement.Kind, coins: nat -> bool) returns (r: Option<Entry>)
      requires Valid()
      ensures r == Agreement.Answered(kind, LogOf(Records(history), key), v)
      ensures Agreement.KeepsUp(kind, LogOf(Records(history), key)) && (kind.Vanilla? ==> v < MAX_U64) ==>
                r == Answer(ReplayKey(history, key, v))
    {
      var leaf := TraversalRead(key);
      LeafShowsContents(c, blocks, root, leaf, key);
      RecordsReplay(history, key, v);
      RecordsTell(history, key);
      ghost var log := LogOf(Records(history), key);
      if log != [] && Agreement.KeepsUp(kind, log) && (kind.Vanilla? ==> v < MAX_U64) {
        Agreement.ShownIsReplay(kind, log, v);
      }
      hide TreeOk, Contents, Records, ReplayKey, Agreement.KeepsUp, Agreement.Shown;
      var pos := LowerBound(Keys(blocks[leaf].page.records), key);
      if pos < |blocks[leaf].page.records| && blocks[leaf].page.records[pos].key == key {
        r := Agreement.Look(kind, blocks[leaf].page.records[pos].log, coins, v);
      } else {
        r := None;
      }
    }
  }

  /** The child that covers the key is not full, so a full parent need not take another one. */
  predicate HasRoomBelow(c: Config, t: seq<Block>, p: PageId, key: Key) {
    && p < |t| && t[p].page.Index?
    && var pos := ChildPos(t[p].page.keys, key);
       pos < |t[p].page.children| && t[p].page.children[pos] < |t|
       && !HasOverflow(c, t[t[p].page.children[pos]].page)
  }

  lemma {:induction false} SplitSettles(c: Config, t: seq<Block>, root: PageId, p: PageId, pos: nat, key: Key)
    requires TreeOk(c, t, root) && IsChild(t, p, pos) && InRange(t[p], key)
    requires pos == ChildPos(t[p].page.keys, key)
    requires !HasOverflow(c, t[p].page) && HasOverflow(c, t[t[p].page.children[pos]].page)
    ensures CanSplit(t, p, pos) && HasRoomBelow(c, SplitChild(t, p, pos), p, key)
    ensures InRange(SplitChild(t, p, pos)[p], key)
  {
    SplitChildKeepsTree(c, t, root, p, pos);
    SplitLands(c, t, root, p, pos, key);
    RootIsNoChild(c, t, root, p, pos);
  }

  /** Without garbage collection no page but the root is ever below the underflow threshold. */
  lemma {:induction false} NeverUnderfull(c: Config, t: seq<Block>, root: PageId, p: PageId, pos: nat)
    requires TreeOk(c, t, root) && IsChild(t, p, pos)
    ensures !HasUnderflow(c, t[t[p].page.children[pos]].page)
  {
    RootIsNoChild(c, t, root, p, pos);
  }

  lemma {:induction false} RecordsInRange(b: Block, rs: seq<Record>, pos: nat)
    requires RecordsOk(b, rs)
    ensures pos < |rs| ==> InRange(b, rs[pos].key)
  {
  }

  /** A push outside the leaf's range breaks the tree. */
  lemma {:induction false} MisplacedBreaksTree(c: Config, t: seq<Block>, root: PageId, leaf: PageId, key: Key, op: Op)
    requires TreeOk(c, t, root) && leaf < |t| && t[leaf].page.Leaf? && op.Push? && !InRange(t[leaf], key)
    ensures !TreeOk(c, Rewritten(t, leaf, Written(t[leaf].page.records, key, op)), root)
  {
    var rs := t[leaf].page.records;
    var pos := LowerBound(Keys(rs), key);
    assert PageOk(c, t, leaf);
    RecordsInRange(t[leaf], rs, pos);
    var u := Rewritten(t, leaf, Written(rs, key, op));
    assert u[leaf].page.records[pos].key == key;
    if PageOk(c, u, leaf) {
      RecordsInRange(u[leaf], u[leaf].page.records, pos);
    }
  }

  /** A push keeps the tree exactly if the leaf covers the key; then it is a write to the whole sequence. */
  lemma {:induction false} PushIsGoodExactly(c: Config, t: seq<Block>, root: PageId, leaf: PageId, key: Key, op: Op)
    requires TreeOk(c, t, root) && leaf < |t| && t[leaf].page.Leaf? && !HasOverflow(c, t[leaf].page) && op.Push?
    ensures var u := Rewritten(t, leaf, Written(t[leaf].page.records, key, op));
            && (TreeOk(c, u, root) <==> InRange(t[leaf], key))
            && (InRange(t[leaf], key) ==> Contents(u, root) == Written(Contents(t, root), key, op))
  {
    if InRange(t[leaf], key) {
      LeafWriteKeepsTree(c, t, root, leaf, key, op);
      LeafWriteIsSequenceWrite(c, t, root, leaf, key, op);
    } else {
      MisplacedBreaksTree(c, t, root, leaf, key, op);
    }
  }

  /** What the middle of a sequence shows for a key in its range is what the whole shows. */
  lemma {:induction false} MiddleShows(a: seq<Record>, rs: seq<Record>, b: seq<Record>, lo: int, hi: int, key: Key)
    requires Within(a, 0, lo) && Within(rs, lo, hi) && Within(b, hi, MAX_KEY + 1)
    requires 0 <= lo <= key < hi <= MAX_KEY + 1
    ensures LogOf(rs, key) == LogOf(a + rs + b, key) && HasRecord(rs, key) == HasRecord(a + rs + b, key)
  {
    PositionInTheMiddle(a, rs, b, lo, hi, key);
    hide LowerBound;
    var s := a + rs + b;
    var pos := LowerBound(Keys(rs), key);
    if pos < |rs| {
      assert s[|a| + pos] == rs[pos];
    } else if |a| + pos < |s| {
      assert s[|a| + pos] == b[0];
    }
  }

  /** What a leaf shows for a key in its range is what the whole sequence shows. */
  lemma {:induction false} LeafShowsContents(c: Config, t: seq<Block>, root: PageId, leaf: PageId, key: Key)
    requires TreeOk(c, t, root) && leaf < |t| && t[leaf].page.Leaf? && InRange(t[leaf], key)
    ensures LogOf(t[leaf].page.records, key) == LogOf(Contents(t, root), key)
    ensures HasRecord(t[leaf].page.records, key) == HasRecord(Contents(t, root), key)
  {
    CoveringLeafIsUnique(c, t, root, leaf, key);
    var rs := t[leaf].page.records;
    var a, b := RewriteAround(c, t, root, root, key, rs);
    assert PageOk(c, t, leaf);
    hide LogOf, HasRecord, Contents;
    MiddleShows(a, rs, b, t[leaf].lo, t[leaf].hi, key);
  }

  /** An update or delete, in the covering leaf or not, leaves the tree intact; outside the leaf's
      range it finds nothing. */
  lemma {:induction false} ExistingWrite(c: Config, t: seq<Block>, root: PageId, leaf: PageId, key: Key, op: Op)
    requires TreeOk(c, t, root) && leaf < |t| && t[leaf].page.Leaf? && !op.Push?
    ensures var u := Rewritten(t, leaf, Written(t[leaf].page.records, key, op));
            && TreeOk(c, u, root)
            && (InRange(t[leaf], key) ==>
                  && Contents(u, root) == Written(Contents(t, root), key, op)
                  && HasRecord(t[leaf].page.records, key) == HasRecord(Contents(t, root), key))
            && (!InRange(t[leaf], key) ==> u == t && !HasRecord(t[leaf].page.records, key))
  {
    var rs := t[leaf].page.records;
    LeafWriteKeepsTree(c, t, root, leaf, key, op);
    assert PageOk(c, t, leaf);
    if InRange(t[leaf], key) {
      LeafWriteIsSequenceWrite(c, t, root, leaf, key, op);
      LeafShowsContents(c, t, root, leaf, key);
    } else {
      RecordsInRange(t[leaf], rs, LowerBound(Keys(rs), key));
      assert Rewritten(t, leaf, rs) == t;
    }
  }

  /** The smallest failing run: a full leaf root with keys 1, 2, 3, then an insert of 4. The record
      goes to the left half, where no search for 4 will look. */
  lemma {:induction false} AscendingInsertsGetLost()
    ensures var c := Config(5, 3);
            var leaf := Leaf([Record(1, [Push(1, 0)]), Record(2, [Push(2, 0)]), Record(3, [Push(3, 0)])]);
            var t := [Block(leaf, 0, MAX_KEY + 1, 0)];
            TreeOk(c, t, 0) && !Lands(c, t, 0, 4)
  {
    var c := Config(5, 3);
    var rs := [Record(1, [Push(1, 0)]), Record(2, [Push(2, 0)]), Record(3, [Push(3, 0)])];
    var t := [Block(Leaf(rs), 0, MAX_KEY + 1, 0)];
    assert forall i :: 0 <= i < |rs| ==> rs[i].key == i + 1;
    assert PageOk(c, t, 0);
  }
}
