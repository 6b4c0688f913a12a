/** The interval list (vanilla.rs): every entry carries the version that closed it, with the
    largest version standing for "still live". An address is an index into `entries`. */
module Vanilla {
  import opened History

  datatype Cell = Cell(next: Option<nat>, payload: Payload, insertVersion: Version, delVersion: Version)

  ghost predicate CellOk(entries: seq<Cell>, i: nat)
    requires i < |entries|
  {
    && entries[i].next == (if i == 0 then None else Some(i - 1))
    && entries[i].insertVersion < entries[i].delVersion
    && (i > 0 ==> entries[i - 1].delVersion <= entries[i].insertVersion)
  }

  /** The closed entries are disjoint intervals, in the order of the list. */
  ghost predicate Intervals(entries: seq<Cell>) {
    forall i :: 0 <= i < |entries| ==> CellOk(entries, i)
  }

  ghost predicate Covers(e: Cell, v: Version) {
    e.insertVersion <= v < e.delVersion
  }

  lemma {:induction false} IntervalsAreOrdered(entries: seq<Cell>, i: nat, j: nat)
    requires Intervals(entries) && i < j < |entries|
    ensures entries[i].delVersion <= entries[j].insertVersion
  {
    assert CellOk(entries, j);
    if i + 1 < j {
      IntervalsAreOrdered(entries, i, j - 1);
      assert CellOk(entries, j - 1);
    }
  }

  /** The entries a log leaves in the list, oldest first. */
  function Entries(log: seq<Op>): seq<Cell> {
    if log == [] then []
    else
      var before := Entries(log[..|log| - 1]);
      match log[|log| - 1]
      case Push(v, p) => Prepended(Closed(before, v), p, v)
      case Append(v, p) => Prepended(Closed(before, v), p, v)
      case Delete(v) => Closed(before, v)
  }

  /** Closes the head at `v` when it is still live. */
  function Closed(entries: seq<Cell>, v: Version): seq<Cell> {
    var h := |entries| - 1;
    if entries != [] && entries[h].delVersion == MAX_U64
    then entries[h := entries[h].(delVersion := v)] else entries
  }

  function Prepended(entries: seq<Cell>, p: Payload, v: Version): seq<Cell> {
    entries + [Cell(if entries == [] then None else Some(|entries| - 1), p, v, MAX_U64)]
  }

  /** Every entry leads to the one before it. */
  ghost predicate Linked(entries: seq<Cell>) {
    forall i :: 0 <= i < |entries| ==> entries[i].next == (if i == 0 then None else Some(i - 1))
  }

  lemma {:induction false} EntriesLinked(log: seq<Op>)
    ensures Linked(Entries(log))
  {
    if log != [] {
      EntriesLinked(log[..|log| - 1]);
    }
  }

  lemma {:induction false} EntriesOn(log: seq<Op>, op: Op)
    requires ChainLog(log) && log[|log| - 1].version < op.version
    ensures ChainLog(log + [op]) && (log + [op])[|log|] == op
    ensures var closed := Closed(Entries(log), op.version);
            Entries(log + [op]) == if op.Delete? then closed else Prepended(closed, op.payload, op.version)
  {
    ChainExtends(log, op);
  }

  /** The largest version has not been used: the clock never hands it out (see `DeleteTakesExactly`). */
  ghost predicate Drawn(log: seq<Op>) {
    ChainLog(log) && log[|log| - 1].version < MAX_U64
  }

  /** The head looks live: the log does not end in a delete that took effect. */
  ghost predicate LooksLive(log: seq<Op>)
    requires log != []
  {
    Live(log) || (log[|log| - 1].version == MAX_U64 && Live(log[..|log| - 1]))
  }

  class VersionList {
    var entries: seq<Cell>
    var head: nat
    ghost var log: seq<Op>

    ghost predicate Valid()
      reads this
    {
      ChainLog(log) && entries == Entries(log) && head + 1 == |entries|
    }

    constructor (payload: Payload, version: Version)
      ensures Valid() && log == [Op.Push(version, payload)]
    {
      entries := [Cell(None, payload, version, MAX_U64)];
      head := 0;
      log := [Op.Push(version, payload)];
      new;
      assert Entries(log[..0]) == [];
    }

    method Append(payload: Payload, version: Version)
      requires Valid() && log[|log| - 1].version < version
      modifies this
      ensures Valid() && log == old(log) + [Op.Append(version, payload)]
    {
      ghost var op := Op.Append(version, payload);
      EntriesOn(log, op);
      hide ChainLog, Entries;
      if entries[head].delVersion == MAX_U64 {
        entries := entries[head := entries[head].(delVersion := version)];
      }
      assert entries == Closed(Entries(log), version);
      entries := entries + [Cell(Some(head), payload, version, MAX_U64)];
      head := |entries| - 1;
      log := log + [op];
    }

    method Push(payload: Payload, version: Version)
      requires Valid() && log[|log| - 1].version < version
      modifies this
      ensures Valid() && log == old(log) + [Op.Push(version, payload)]
    {
      ghost var op := Op.Push(version, payload);
      EntriesOn(log, op);
      hide ChainLog, Entries;
      if entries[head].delVersion == MAX_U64 {
        entries := entries[head := entries[head].(delVersion := version)];
      }
      assert entries == Closed(Entries(log), version);
      entries := entries + [Cell(Some(head), payload, version, MAX_U64)];
      head := |entries| - 1;
      log := log + [op];
    }

    method Delete(version: Version)
      requires Valid() && log[|log| - 1].version < version
      modifies this
      ensures Valid() && log == old(log) + [Op.Delete(version)]
    {
      ghost var op := Op.Delete(version);
      EntriesOn(log, op);
      HeadIsOld(log);
      hide ChainLog, Entries;
      if entries[head].insertVersion < version && entries[head].delVersion == MAX_U64 {
        entries := entries[head := entries[head].(delVersion := version)];
      }
      log := log + [op];
    }

    method IsLive() returns (live: bool)
      requires Valid()
      ensures live == LooksLive(log)
    {
      if Drawn(log) { HeadIsOld(log); } else { LargestIsLast(log); }
      live := entries[head].delVersion == MAX_U64;
    }

    /** The first covering entry from the head answers as the replayed history does. */
    method Find(v: Version) returns (r: Option<Entry>)
      requires Valid()
      ensures r == if v < MAX_U64 then Replay(log, v) else None
    {
      var curr := head;
      EntriesLinked(log);
      while true
        invariant 0 <= curr <= head
        invariant forall j :: curr < j <= head ==> !Covers(entries[j], v)
        decreases curr
      {
        if entries[curr].insertVersion <= v && entries[curr].delVersion > v {
          r := Some(Entry(entries[curr].insertVersion, entries[curr].payload));
          CoveringIsReplay(log, v, curr);
          return;
        }
        match entries[curr].next {
          case None => break;
          case Some(next) => curr := next;
        }
      }
      r := None;
      if v < MAX_U64 {
        UncoveredIsReplay(log, v);
      }
    }
  }

  /** The list built from a log: disjoint intervals, newest last; the head is live exactly when
      the log does not end in a delete, and is closed no later than the log ends. */
  lemma {:induction false} EntriesOk(log: seq<Op>)
    requires Drawn(log)
    ensures Intervals(Entries(log)) && |Entries(log)| > 0
    ensures HeadMatches(log)
  {
    var n := |log| - 1;
    if n == 0 {
      assert Entries(log[..0]) == [];
    } else {
      PrefixIncreasing(log, n);
      EntriesOk(log[..n]);
      assert log[n - 1] == log[..n][|log[..n]| - 1] && HeadMatches(log[..n]);
      StaysIntervals(Entries(log[..n]), log[n]);
    }
  }

  /** An operation newer than the head keeps the intervals apart. */
  lemma {:induction false} StaysIntervals(before: seq<Cell>, op: Op)
    requires before != [] && Intervals(before)
    requires var h := before[|before| - 1];
             h.insertVersion < op.version < MAX_U64 && (h.delVersion == MAX_U64 || h.delVersion < op.version)
    ensures Intervals(Closed(before, op.version))
    ensures !op.Delete? ==> Intervals(Prepended(Closed(before, op.version), op.payload, op.version))
  {
    var closed := Closed(before, op.version);
    forall i | 0 <= i < |before|
      ensures CellOk(closed, i)
    {
      assert CellOk(before, i);
    }
    if !op.Delete? {
      var es := Prepended(closed, op.payload, op.version);
      forall i | 0 <= i < |es|
        ensures CellOk(es, i)
      {
        if i < |before| { assert CellOk(closed, i); }
      }
    }
  }

  ghost predicate HeadMatches(log: seq<Op>) {
    var es := Entries(log);
    |es| > 0 && |log| > 0 &&
    var h := es[|es| - 1];
    && h.insertVersion <= log[|log| - 1].version
    && (if Live(log)
        then h == Cell(h.next, log[|log| - 1].payload, log[|log| - 1].version, MAX_U64)
        else h.delVersion <= log[|log| - 1].version)
  }

  lemma {:induction false} HeadIsOld(log: seq<Op>)
    requires Drawn(log)
    ensures HeadMatches(log)
  {
    EntriesOk(log);
  }

  /** An operation under the largest version closes nothing, and what it adds covers nothing. */
  lemma {:induction false} LargestIsLast(log: seq<Op>)
    requires ChainLog(log) && log[|log| - 1].version == MAX_U64
    ensures var n := |log| - 1;
            var op := log[n];
            && Entries(log) == (if op.Delete? then Entries(log[..n])
                                else Prepended(Entries(log[..n]), op.payload, MAX_U64))
            && (n > 0 ==> Drawn(log[..n]) && Entries(log[..n]) != [] && HeadMatches(log[..n]))
            && (n == 0 ==> Entries(log[..n]) == [] && !op.Delete?)
  {
    var n := |log| - 1;
    var before := Entries(log[..n]);
    if n > 0 {
      PrefixIncreasing(log, n);
      assert log[n - 1].version < log[n].version;
      HeadIsOld(log[..n]);
      assert before[|before| - 1 := before[|before| - 1]] == before;
    }
  }

  /** Below its own version, an operation leaves alone what the entries before it cover. */
  lemma {:induction false} OlderCovers(log: seq<Op>, v: Version)
    requires log != [] && v < log[|log| - 1].version
    ensures var before, es := Entries(log[..|log| - 1]), Entries(log);
            && |before| <= |es|
            && (forall i :: 0 <= i < |before| ==>
                  Covers(before[i], v) == Covers(es[i], v) && before[i].insertVersion == es[i].insertVersion
                  && before[i].payload == es[i].payload)
            && (forall i :: |before| <= i < |es| ==> !Covers(es[i], v))
  {
  }

  /** From its own version on, nothing but the entry of the newest operation covers anything. */
  lemma {:induction false} NewestCovers(log: seq<Op>, v: Version, i: nat)
    requires Drawn(log) && log[|log| - 1].version <= v < MAX_U64
    requires i < |Entries(log)| && Covers(Entries(log)[i], v)
    ensures i == |Entries(log)| - 1 && Live(log)
  {
    var es := Entries(log);
    EntriesOk(log);
    if i + 1 < |es| { IntervalsAreOrdered(es, i, |es| - 1); }
    hide Entries, Intervals;
  }

  /** An entry covers `v` exactly when replaying up to `v` ends in that entry. */
  lemma {:induction false} CoveringIsReplay(log: seq<Op>, v: Version, i: nat)
    requires ChainLog(log) && v < MAX_U64
    requires i < |Entries(log)| && Covers(Entries(log)[i], v)
    ensures Replay(log, v) == Some(Entry(Entries(log)[i].insertVersion, Entries(log)[i].payload))
  {
    var n := |log| - 1;
    if v < log[n].version {
      OlderCovers(log, v);
      assert n > 0 by { assert Entries([]) == []; }
      PrefixIncreasing(log, n);
      CoveringIsReplay(log[..n], v, i);
      hide Entries;
    } else {
      NewestCovers(log, v, i);
      HeadIsOld(log);
      hide Entries;
    }
  }

  lemma {:induction false} UncoveredIsReplay(log: seq<Op>, v: Version)
    requires ChainLog(log) && v < MAX_U64
    requires forall i :: 0 <= i < |Entries(log)| ==> !Covers(Entries(log)[i], v)
    ensures Replay(log, v) == None
  {
    var n := |log| - 1;
    var es := Entries(log);
    if log[n].version <= v {
      HeadIsOld(log);
      assert !Covers(es[|es| - 1], v);
    } else if n == 0 {
      assert Replay(log[..0], v) == None;
    } else {
      PrefixIncreasing(log, n);
      OlderCovers(log, v);
      UncoveredIsReplay(log[..n], v);
    }
  }

  /** At the largest version the interval list answers nothing, so it agrees with the history
      exactly when the key ended up deleted. */
  lemma {:induction false} LargestVersionSeesNothing(log: seq<Op>)
    requires ChainLog(log)
    ensures (forall i :: 0 <= i < |Entries(log)| ==> !Covers(Entries(log)[i], MAX_U64))
    ensures Replay(log, MAX_U64) == None <==> !Live(log)
  {
    ReplayIsNewest(log, MAX_U64, |log| - 1);
  }

  /** A delete of a live key takes effect exactly below the largest version: that version doubles as the
      mark for "not deleted". */
  lemma {:induction false} DeleteTakesExactly(log: seq<Op>, v: Version)
    requires Drawn(log) && Live(log) && log[|log| - 1].version < v
    ensures var es := Entries(log + [Op.Delete(v)]);
            && !Live(log + [Op.Delete(v)])
            && es != [] && (es[|es| - 1].delVersion != MAX_U64 <==> v < MAX_U64)
  {
    assert (log + [Op.Delete(v)])[..|log|] == log;
    EntriesOk(log);
    HeadIsOld(log);
  }
}
