/** The skip-map variant (version_index.rs): a map from insert version to record, with the delete
    version packed under a marker bit. The map is kept as its items in key order. */
module SkipIndex {
  import opened History

  const NON_NULL_FLAG: nat := 0x8000_0000_0000_0000

  /** A delete version shares its word with the marker bit: `new` sets the bit, `get` drops it. */
  function DelNew(v: Version): nat {
    if v < NON_NULL_FLAG then v + NON_NULL_FLAG else v
  }

  function DelGet(word: nat): Option<Version> {
    if word < NON_NULL_FLAG then None else Some(word % NON_NULL_FLAG)
  }

  lemma {:induction false} DelRoundTrip(v: Version)
    ensures DelGet(DelNew(v)) == Some(v) <==> v < NON_NULL_FLAG
    ensures DelGet(DelNew(v)).Some? && DelGet(DelNew(v)).value <= v
  {
  }

  datatype Item = Item(key: Version, del: nat, payload: Payload)

  function Back(items: seq<Item>): Item
    requires items != []
  {
    items[|items| - 1]
  }

  function CloseBack(items: seq<Item>, v: Version): seq<Item> {
    if items != [] && DelGet(Back(items).del).None?
    then items[|items| - 1 := Back(items).(del := DelNew(v))] else items
  }

  /** An append to a deleted record is dropped; a push is not. */
  function Items(log: seq<Op>): seq<Item> {
    if log == [] then []
    else
      var before := Items(log[..|log| - 1]);
      match log[|log| - 1]
      case Push(v, p) => CloseBack(before, v) + [Item(v, 0, p)]
      case Append(v, p) =>
        if before != [] && DelGet(Back(before).del).None?
        then CloseBack(before, v) + [Item(v, 0, p)] else before
      case Delete(v) =>
        if before != [] && Back(before).key < v then CloseBack(before, v) else before
  }

  lemma {:induction false} ItemsOn(log: seq<Op>, op: Op)
    requires ChainLog(log) && log[|log| - 1].version < op.version
    ensures ChainLog(log + [op]) && (log + [op])[|log|] == op
    ensures var before := Items(log);
            Items(log + [op]) ==
            match op
            case Push(v, p) => CloseBack(before, v) + [Item(v, 0, p)]
            case Append(v, p) =>
              if before != [] && DelGet(Back(before).del).None?
              then CloseBack(before, v) + [Item(v, 0, p)] else before
            case Delete(v) =>
              if before != [] && Back(before).key < v then CloseBack(before, v) else before
  {
    ChainExtends(log, op);
  }

  /** The last item at or below `v`, unless it was deleted by then. */
  function Find(items: seq<Item>, v: Version): Option<Entry> {
    if items == [] then None
    else
      var last := Back(items);
      if last.key <= v then
        (if DelGet(last.del).None? || DelGet(last.del).value > v then Some(Entry(last.key, last.payload)) else None)
      else Find(items[..|items| - 1], v)
  }

  /** The map keeps its keys in order and every key but the last is closed. */
  ghost predicate Ordered(items: seq<Item>, last: Version) {
    && items != []
    && (forall i, j :: 0 <= i < j < |items| ==> items[i].key < items[j].key)
    && Back(items).key <= last
  }

  /** The class keeps exactly the items of its log. */
  class SkipList {
    var items: seq<Item>
    ghost var log: seq<Op>

    ghost predicate Valid()
      reads this
    {
      ChainLog(log) && items != [] && items == Items(log)
    }

    constructor (payload: Payload, version: Version)
      ensures Valid() && log == [Op.Push(version, payload)]
    {
      items := [Item(version, 0, payload)];
      log := [Op.Push(version, payload)];
      new;
      assert Items(log[..0]) == [];
    }

    method Push(payload: Payload, version: Version)
      requires Valid() && log[|log| - 1].version < version
      modifies this
      ensures Valid() && log == old(log) + [Op.Push(version, payload)]
    {
      ghost var op := Op.Push(version, payload);
      ItemsOn(log, op);
      hide ChainLog, Items, DelGet, DelNew;
      if DelGet(items[|items| - 1].del).None? {
        items := items[|items| - 1 := items[|items| - 1].(del := DelNew(version))];
      }
      assert items == CloseBack(Items(log), version);
      items := items + [Item(version, 0, payload)];
      log := log + [op];
    }

    method Append(payload: Payload, version: Version)
      requires Valid() && log[|log| - 1].version < version
      modifies this
      ensures Valid() && log == old(log) + [Op.Append(version, payload)]
    {
      ghost var op := Op.Append(version, payload);
      ItemsOn(log, op);
      hide ChainLog, Items, DelGet, DelNew;
      if DelGet(items[|items| - 1].del).None? {
        items := items[|items| - 1 := items[|items| - 1].(del := DelNew(version))];
        items := items + [Item(version, 0, payload)];
      }
      log := log + [op];
    }

    method Delete(version: Version)
      requires Valid() && log[|log| - 1].version < version
      modifies this
      ensures Valid() && log == old(log) + [Op.Delete(version)]
    {
      ghost var op := Op.Delete(version);
      ItemsOn(log, op);
      hide ChainLog, Items, DelGet, DelNew;
      if items[|items| - 1].key < version && DelGet(items[|items| - 1].del).None? {
        items := items[|items| - 1 := items[|items| - 1].(del := DelNew(version))];
      }
      log := log + [op];
    }

    method IsLive() returns (live: bool)
      requires Valid()
      ensures Fits(log) ==> live == Live(log)
    {
      if Fits(log) { FitShows(log); }
      live := DelGet(items[|items| - 1].del).None?;
    }

    /** The newest item at or below the version, unless it was deleted by then. */
    method Lookup(v: Version) returns (r: Option<Entry>)
      requires Valid()
      ensures r == Find(items, v)
    {
      var n := |items|;
      assert items[..n] == items;
      while n > 0 && items[n - 1].key > v
        invariant 0 <= n <= |items|
        invariant Find(items[..n], v) == Find(items, v)
      {
        assert items[..n][..n - 1] == items[..n - 1];
        n := n - 1;
      }
      assert n == 0 ==> items[..n] == [];
      r := None;
      if n > 0 {
        var entry := items[n - 1];
        if v >= entry.key && (DelGet(entry.del).None? || DelGet(entry.del).value > v) {
          r := Some(Entry(entry.key, entry.payload));
        }
      }
    }
  }

  lemma {:induction false} ItemsOrdered(log: seq<Op>)
    requires ChainLog(log)
    ensures Ordered(Items(log), log[|log| - 1].version)
  {
    var n := |log| - 1;
    if n == 0 {
      assert Items(log[..0]) == [];
    } else {
      PrefixIncreasing(log, n);
      ItemsOrdered(log[..n]);
    }
  }

  /** Operation `i` keeps the skip map in step with the history: it does not update a deleted
      record, and if it closes a live one its version leaves the marker bit free. */
  ghost predicate StepFits(log: seq<Op>, i: nat)
    requires i < |log|
  {
    && (log[i].Append? ==> Live(log[..i]))
    && (Live(log[..i]) ==> log[i].version < NON_NULL_FLAG)
  }

  ghost predicate Fits(log: seq<Op>) {
    forall i :: 0 <= i < |log| ==> StepFits(log, i)
  }

  lemma {:induction false} FitsPrefix(log: seq<Op>, n: nat)
    requires Fits(log) && n <= |log|
    ensures Fits(log[..n])
  {
    forall i | 0 <= i < n
      ensures StepFits(log[..n], i)
    {
      assert log[..n][..i] == log[..i];
      assert StepFits(log, i);
    }
  }

  /** While every operation fits, the last item shows the end of the log. */
  ghost predicate BackShows(log: seq<Op>) {
    var items := Items(log);
    |items| > 0 && |log| > 0 &&
    var b := Back(items);
    if Live(log)
    then b == Item(log[|log| - 1].version, 0, log[|log| - 1].payload)
    else DelGet(b.del).Some? && DelGet(b.del).value <= log[|log| - 1].version
  }

  lemma {:induction false} FitShows(log: seq<Op>)
    requires ChainLog(log) && Fits(log)
    ensures BackShows(log)
  {
    var n := |log| - 1;
    if n == 0 {
      assert Items(log[..0]) == [];
    } else {
      PrefixIncreasing(log, n);
      FitsPrefix(log, n);
      FitShows(log[..n]);
      ItemsOrdered(log[..n]);
      assert StepFits(log, n);
      DelRoundTrip(log[n].version);
    }
  }

  /** Closing the last item at `w` changes no answer below `w`, provided the marker bit is free. */
  lemma {:induction false} ClosingKeepsOlder(items: seq<Item>, w: Version, v: Version)
    requires v < w < NON_NULL_FLAG
    ensures Find(CloseBack(items, w), v) == Find(items, v)
  {
    DelRoundTrip(w);
    if items != [] {
      assert CloseBack(items, w)[..|items| - 1] == items[..|items| - 1];
    }
  }

  lemma {:induction false} NewestIsTooNew(items: seq<Item>, item: Item, v: Version)
    requires v < item.key
    ensures Find(items + [item], v) == Find(items, v)
  {
    assert (items + [item])[..|items|] == items;
  }

  /** In step, the skip map answers as the replayed history does at every version. */
  lemma {:induction false} FitFindIsReplay(log: seq<Op>, v: Version)
    requires ChainLog(log) && Fits(log)
    ensures Find(Items(log), v) == Replay(log, v)
  {
    var n := |log| - 1;
    FitShows(log);
    ItemsOrdered(log);
    if n == 0 {
      assert Items(log[..0]) == [] && Items(log)[..0] == [];
      assert Replay(log[..0], v) == None;
    } else if log[n].version <= v {
      ReplayIsNewest(log, v, n);
    } else {
      PrefixIncreasing(log, n);
      FitsPrefix(log, n);
      FitFindIsReplay(log[..n], v);
      FitShows(log[..n]);
      ItemsOrdered(log[..n]);
      assert StepFits(log, n);
      var before := Items(log[..n]);
      if Live(log[..n]) { ClosingKeepsOlder(before, log[n].version, v); }
      if !log[n].Delete? {
        NewestIsTooNew(CloseBack(before, log[n].version), Item(log[n].version, 0, log[n].payload), v);
      }
    }
  }

  lemma {:induction false} ClosingLosesMore(items: seq<Item>, w: Version, v: Version)
    requires Find(items, v) == None
    ensures Find(CloseBack(items, w), v) == None
  {
    if items != [] {
      assert CloseBack(items, w)[..|items| - 1] == items[..|items| - 1];
    }
  }

  /** What the skip map has lost it never finds again: later operations only close entries or add
      newer ones. */
  lemma {:induction false} LostStaysLost(log: seq<Op>, m: nat, v: Version)
    requires ChainLog(log) && 0 < m <= |log|
    requires m < |log| ==> v < log[m].version
    requires Find(Items(log[..m]), v) == None
    ensures Find(Items(log), v) == None
  {
    var n := |log| - 1;
    if m == |log| {
      assert log[..m] == log;
    } else {
      PrefixIncreasing(log, n);
      assert log[..n][..m] == log[..m];
      LostStaysLost(log[..n], m, v);
      var before := Items(log[..n]);
      var w := log[n].version;
      ClosingLosesMore(before, w, v);
      assert v < w;
      if !log[n].Delete? {
        NewestIsTooNew(CloseBack(before, w), Item(w, 0, log[n].payload), v);
      }
    }
  }

  /** The first operation that does not fit loses a version that the history still shows. */
  lemma {:induction false} MisfitLoses(log: seq<Op>, m: nat) returns (v: Version)
    requires ChainLog(log) && 0 < m < |log|
    requires Fits(log[..m]) && !StepFits(log, m)
    ensures v <= log[m].version
    ensures Find(Items(log[..m + 1]), v) == None && Replay(log[..m + 1], v).Some?
  {
    var upto := log[..m + 1];
    PrefixIncreasing(log, m + 1);
    PrefixIncreasing(log, m);
    assert upto[..m] == log[..m];
    FitShows(log[..m]);
    ItemsOrdered(log[..m]);
    var before := Items(log[..m]);
    if !Live(log[..m]) {
      v := log[m].version;
      ReplayIsNewest(upto, v, m);
    } else {
      v := log[m].version - 1;
      ReplayIsNewest(upto, v, m - 1);
      var closed := CloseBack(before, log[m].version);
      DelRoundTrip(log[m].version);
      assert DelGet(DelNew(log[m].version)).value < v;
      assert Find(closed, v) == None;
      if !log[m].Delete? {
        NewestIsTooNew(closed, Item(log[m].version, 0, log[m].payload), v);
      }
    }
  }

  /** The skip map agrees with the history at every version exactly when no update hit a deleted
      record and no record was closed at a version that needs the marker bit. */
  lemma {:induction false} AgreesExactlyWhenFits(log: seq<Op>)
    requires ChainLog(log)
    ensures (forall v: Version :: Find(Items(log), v) == Replay(log, v)) <==> Fits(log)
  {
    if Fits(log) {
      forall v: Version
        ensures Find(Items(log), v) == Replay(log, v)
      {
        FitFindIsReplay(log, v);
      }
    } else {
      assert log[..|log|] == log;
      var m := FirstMisfit(log, |log|);
      var v := MisfitLoses(log, m);
      assert log == log[..m + 1] + log[m + 1..];
      var later := log[m + 1..];
      LostStaysLost(log, m + 1, v);
      ReplayIgnoresLater(log[..m + 1], later, v);
      assert Find(Items(log), v) != Replay(log, v);
    }
  }

  lemma {:induction false} FirstMisfit(log: seq<Op>, n: nat) returns (m: nat)
    requires ChainLog(log) && n <= |log| && !Fits(log[..n])
    ensures 0 < m < n && Fits(log[..m]) && !StepFits(log, m)
  {
    if Fits(log[..n - 1]) {
      m := n - 1;
      forall i | 0 <= i < m
        ensures StepFits(log[..n], i)
      {
        assert log[..n][..i] == log[..m][..i];
        assert StepFits(log[..m], i);
      }
      assert log[..n][..m] == log[..m];
      assert StepFits(log, m) == StepFits(log[..n], m);
    } else {
      m := FirstMisfit(log, n - 1);
    }
  }
}
