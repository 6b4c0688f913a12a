/** Reads of the whole index at a version, over real chains of any kind (dispatch.rs, version_index.rs),
    against the replayed history. */
module TimeTravel {
  import opened History
  import opened Tree
  import opened InOrder
  import opened MvIndex
  import opened Agreement
  import opened Scans
  import SkipIndex

  /** For every history, every kind of chain and every coin sequence: the chain of a key, built operation by
      operation, answers as the history replayed up to the version; for the skip map, if it keeps up with the
      operations on the key, for the interval list below the largest version. */
  method FindInChain(kind: Kind, history: seq<Event>, coins: nat -> bool, key: Key, v: Version)
    returns (r: Option<Entry>)
    requires Dated(history)
    ensures r == Answered(kind, LogOf(Records(history), key), v)
    ensures KeepsUp(kind, LogOf(Records(history), key)) && (kind.Vanilla? ==> v < MAX_U64) ==>
              r == Answer(ReplayKey(history, key, v))
  {
    var log := LogOf(Records(history), key);
    AnsweredIsReplayed(kind, history, key, v);
    RecordsTell(history, key);
    hide Records, LogOf, ReplayKey, KeepsUp;
    if log == [] {
      r := None;
    } else {
      r := Look(kind, log, coins, v);
    }
  }

  lemma {:induction false} AnsweredIsReplayed(kind: Kind, history: seq<Event>, key: Key, v: Version)
    requires Dated(history)
    ensures var log := LogOf(Records(history), key);
            KeepsUp(kind, log) && (kind.Vanilla? ==> v < MAX_U64) ==>
              Answered(kind, log, v) == Answer(ReplayKey(history, key, v))
  {
    var log := LogOf(Records(history), key);
    RecordsReplay(history, key, v);
    RecordsTell(history, key);
    hide Records, LogOf, ReplayKey;
    if log != [] && KeepsUp(kind, log) && (kind.Vanilla? ==> v < MAX_U64) { ShownIsReplay(kind, log, v); }
  }

  // ----- scans ----------------------------------------------------------------------------

  /** The match is what the chain of its key shows, and lies in the interval. */
  ghost predicate Sees(history: seq<Event>, lower: Key, upper: Key, v: View, m: Match) {
    && lower <= m.key <= upper
    && var seen := Answered(v.kind, LogOf(Records(history), m.key), v.version);
       seen.Some? && seen.value.payload == m.payload
  }

  /** The match is what the history of its key says, and lies in the interval. */
  ghost predicate Happened(history: seq<Event>, lower: Key, upper: Key, version: Version, m: Match) {
    && lower <= m.key <= upper
    && var seen := Answer(ReplayKey(history, m.key, version));
       seen.Some? && seen.value.payload == m.payload
  }

  ghost predicate KeepsUpWith(kind: Kind, history: seq<Event>, lower: Key, upper: Key) {
    forall key: Key :: lower <= key <= upper ==> KeepsUp(kind, LogOf(Records(history), key))
  }

  /** A record in a sorted sequence holds the log of its key. */
  lemma {:induction false} LogAt(rs: seq<Record>, i: nat)
    requires Sorted(rs) && i < |rs|
    ensures LogOf(rs, rs[i].key) == rs[i].log && HasRecord(rs, rs[i].key)
  {
    LowerBoundIs(Keys(rs), rs[i].key, i);
  }

  lemma {:induction false} RecordsHaveChains(history: seq<Event>)
    requires Dated(history)
    ensures Sorted(Records(history)) && Chains(Records(history))
  {
    var rs := Records(history);
    RecordsTell(history, 0);
    forall i | 0 <= i < |rs|
      ensures ChainLog(rs[i].log)
    {
      RecordsTell(history, rs[i].key);
      LogAt(rs, i);
    }
  }

  /** Every record in the leaves of the index has the chain that its key has in the whole. */
  lemma {:induction false} LeavesHaveChains(c: Config, t: seq<Block>, root: PageId, history: seq<Event>)
    requires TreeOk(c, t, root) && Dated(history) && Contents(t, root) == Records(history)
    ensures AllChains(t)
  {
    forall p | 0 <= p < |t| && t[p].page.Leaf?
      ensures Chains(t[p].page.records)
    {
      var rs := t[p].page.records;
      PageWithin(c, t, root, p);
      assert PageOk(c, t, p);
      forall i | 0 <= i < |rs|
        ensures ChainLog(rs[i].log)
      {
        LogAt(rs, i);
        LeafShowsContents(c, t, root, p, rs[i].key);
        RecordsTell(history, rs[i].key);
      }
    }
  }

  /** The scan finds exactly what the chains of the keys show. */
  lemma {:induction false} HitsAreSeen(history: seq<Event>, lower: Key, upper: Key, v: View, m: Match)
    requires Dated(history)
    ensures var rs := Records(history);
            (exists i :: 0 <= i < |rs| && Hit(rs[i], lower, upper + 1, v) == [m]) <==> Sees(history, lower, upper, v, m)
  {
    var rs := Records(history);
    RecordsHaveChains(history);
    hide Records;
    if i :| 0 <= i < |rs| && Hit(rs[i], lower, upper + 1, v) == [m] {
      LogAt(rs, i);
    }
    if Sees(history, lower, upper, v, m) {
      var pos := LowerBound(Keys(rs), m.key);
      assert Hit(rs[pos], lower, upper + 1, v) == [m];
    }
  }

  lemma {:induction false} SeenHappened(history: seq<Event>, lower: Key, upper: Key, v: View, m: Match)
    requires Dated(history) && KeepsUpWith(v.kind, history, lower, upper)
    requires v.kind.Vanilla? ==> v.version < MAX_U64
    ensures Sees(history, lower, upper, v, m) <==> Happened(history, lower, upper, v.version, m)
  {
    AnsweredIsReplayed(v.kind, history, m.key, v.version);
  }

  /** A scan of the index at a version, either way: both return the same list, ascending, and it holds a key
      and payload exactly if the chain of the key shows the payload; that is, if the history of the key says so. */
  method RangeOverChains(index: MVBPlusTree, lower: Key, upper: Key, v: View, coins: Coins)
    returns (lazy: seq<Match>, breadthFirst: seq<Match>)
    requires index.Valid() && lower <= upper
    ensures lazy == breadthFirst && Rising(lazy)
    ensures forall m :: m in lazy <==> Sees(index.history, lower, upper, v, m)
    ensures KeepsUpWith(v.kind, index.history, lower, upper) && (v.kind.Vanilla? ==> v.version < MAX_U64) ==>
              forall m :: m in lazy <==> Happened(index.history, lower, upper, v.version, m)
  {
    ghost var history := index.history;
    LeavesHaveChains(index.c, index.blocks, index.root, history);
    lazy, breadthFirst := ScansAgree(index.c, index.blocks, index.root, lower, upper, v, coins);
    hide Hit, Contents, Records, TreeOk, Sees, Happened, KeepsUpWith, Rising;
    forall m
      ensures m in lazy <==> Sees(history, lower, upper, v, m)
    {
      HitsAreSeen(history, lower, upper, v, m);
    }
    if KeepsUpWith(v.kind, history, lower, upper) && (v.kind.Vanilla? ==> v.version < MAX_U64) {
      forall m
        ensures m in lazy <==> Happened(history, lower, upper, v.version, m)
      {
        SeenHappened(history, lower, upper, v, m);
      }
    }
  }

  /** With skip maps the index answers every point read of a key as the replayed history if and only if the
      operations on the key fit: no update after a delete, no version up to the marker bit that closes one. */
  lemma {:induction false} SkipMapTravelsExactly(history: seq<Event>, key: Key)
    requires Dated(history)
    ensures var log := LogOf(Records(history), key);
            (forall v: Version :: Answered(SkipMap, log, v) == Answer(ReplayKey(history, key, v)))
            <==> SkipIndex.Fits(log)
  {
    var log := LogOf(Records(history), key);
    RecordsTell(history, key);
    forall v: Version
      ensures Answer(ReplayKey(history, key, v)) == Replay(log, v)
    {
      RecordsReplay(history, key, v);
    }
    hide LogOf, Records, ReplayKey;
    if log == [] {
      assert forall v: Version :: Replay(log, v) == None && Answered(SkipMap, log, v) == None;
    } else {
      SkipIndex.AgreesExactlyWhenFits(log);
      hide SkipIndex.Fits, SkipIndex.Find, SkipIndex.Items;
      if forall v: Version :: Answered(SkipMap, log, v) == Answer(ReplayKey(history, key, v)) {
        forall v: Version
          ensures SkipIndex.Find(SkipIndex.Items(log), v) == Replay(log, v)
        {
          assert Answered(SkipMap, log, v) == Answer(ReplayKey(history, key, v));
        }
      }
      if SkipIndex.Fits(log) {
        forall v: Version
          ensures Answered(SkipMap, log, v) == Answer(ReplayKey(history, key, v))
        {
          assert SkipIndex.Find(SkipIndex.Items(log), v) == Replay(log, v);
        }
      }
    }
  }

  /** Whatever is done later, under later versions, leaves every earlier answer alone. */
  lemma {:induction false} PastStandsStill(history: seq<Event>, later: seq<Event>, key: Key, v: Version)
    requires forall i :: 0 <= i < |later| ==> later[i].op.version > v
    ensures ReplayKey(history + later, key, v) == ReplayKey(history, key, v)
  {
    if later == [] {
      assert history + later == history;
    } else {
      var n := |later| - 1;
      assert (history + later)[..|history + later| - 1] == history + later[..n];
      PastStandsStill(history, later[..n], key, v);
    }
  }
}
