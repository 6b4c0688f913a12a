/** The frugal skip list (frugal.rs): one node per write or tombstone, linked newest to oldest by
    `next`, with a randomly levelled skip pointer `vRidgy`. An address is an index into `nodes`. */
module Frugal {
  import opened History

  type Level = l: nat | l <= MAX_U64

  const FLAT_LEVEL: Level := 0
  const SENTINEL_LEVEL: Level := MAX_U64

  /** Overflow checks are off, so adding one to the sentinel's level gives zero. */
  function WrappingInc(l: Level): Level {
    (l + 1) % (MAX_U64 + 1)
  }

  datatype Node = Node(next: Option<nat>, vRidgy: Option<nat>,
                       payload: Option<Payload>, insertVersion: Version, level: Level)

  /** `r` is the nearest node older than `i` whose level is at least that of `i`. */
  ghost predicate NearestAtLeast(nodes: seq<Node>, i: nat, r: nat)
    requires i < |nodes|
  {
    && r < i
    && nodes[i].level <= nodes[r].level
    && forall j :: r < j < i ==> nodes[j].level < nodes[i].level
  }

  ghost predicate SentinelOk(n: Node) {
    n.next == None && n.vRidgy == None && n.payload.Some? && n.level == SENTINEL_LEVEL
  }

  ghost predicate NodeOk(nodes: seq<Node>, i: nat)
    requires 0 < i < |nodes|
  {
    && nodes[i].next == Some(i - 1)
    && nodes[i].level < i
    && nodes[i].vRidgy.Some? && NearestAtLeast(nodes, i, nodes[i].vRidgy.value)
    && nodes[i - 1].insertVersion < nodes[i].insertVersion
  }

  ghost predicate WellLinked(nodes: seq<Node>) {
    && |nodes| > 0
    && SentinelOk(nodes[0])
    && forall i :: 0 < i < |nodes| ==> NodeOk(nodes, i)
  }

  lemma {:induction false} VersionsIncrease(nodes: seq<Node>, i: nat, j: nat)
    requires WellLinked(nodes) && i <= j < |nodes|
    ensures nodes[i].insertVersion + (j - i) <= nodes[j].insertVersion
  {
    if i < j {
      VersionsIncrease(nodes, i, j - 1);
      assert NodeOk(nodes, j);
    }
  }

  /** Only the oldest node carries the sentinel's level: versions are distinct 64-bit numbers,
      so no chain is long enough for a tower to reach it. */
  lemma {:induction false} OnlyTheSentinelHasItsLevel(nodes: seq<Node>, i: nat)
    requires WellLinked(nodes) && i < |nodes|
    ensures nodes[i].level == SENTINEL_LEVEL <==> i == 0
  {
    if i > 0 {
      assert NodeOk(nodes, i);
      VersionsIncrease(nodes, 0, i);
    }
  }

  /** The reference search: follow `next` until a version is old enough. */
  ghost function LinearWalk(nodes: seq<Node>, from: nat, v: Version): (r: Option<nat>)
    requires WellLinked(nodes) && from < |nodes|
    ensures r.Some? ==> r.value <= from && nodes[r.value].insertVersion <= v
    decreases from
  {
    if nodes[from].insertVersion <= v then Some(from)
    else if from == 0 then None
    else
      assert NodeOk(nodes, from);
      LinearWalk(nodes, nodes[from].next.value, v)
  }

  /** Skipping over nodes that are all too new does not change the linear walk. */
  lemma {:induction false} WalkSkips(nodes: seq<Node>, from: nat, to: nat, v: Version)
    requires WellLinked(nodes) && to <= from < |nodes|
    requires to < from ==> v < nodes[to + 1].insertVersion
    ensures LinearWalk(nodes, from, v) == LinearWalk(nodes, to, v)
    decreases from
  {
    if to < from {
      VersionsIncrease(nodes, to + 1, from);
      assert NodeOk(nodes, from);
      WalkSkips(nodes, from - 1, to, v);
    }
  }

  /** The (payload, version) pairs a log leaves in the list, oldest first. */
  function Pairs(log: seq<Op>): seq<(Option<Payload>, Version)> {
    if log == [] then []
    else
      var before := Pairs(log[..|log| - 1]);
      match log[|log| - 1]
      case Push(v, p) => before + [(Some(p), v)]
      case Append(v, p) => before + [(Some(p), v)]
      case Delete(v) =>
        if before != [] && before[|before| - 1].0.Some? then before + [(None, v)] else before
  }

  lemma {:induction false} PairsOn(log: seq<Op>, op: Op)
    requires ChainLog(log) && log[|log| - 1].version < op.version
    ensures ChainLog(log + [op]) && (log + [op])[|log|] == op
    ensures !op.Delete? ==> Pairs(log + [op]) == Pairs(log) + [(Some(op.payload), op.version)]
  {
    ChainExtends(log, op);
  }

  /** A delete of a dead key leaves no trace. */
  lemma {:induction false} PairsOnDelete(log: seq<Op>, v: Version, last: Option<Payload>)
    requires ChainLog(log) && log[|log| - 1].version < v
    requires var pairs := Pairs(log); pairs != [] && pairs[|pairs| - 1].0 == last
    ensures Pairs(log + [Op.Delete(v)]) == if last.Some? then Pairs(log) + [(None, v)] else Pairs(log)
  {
    ChainExtends(log, Op.Delete(v));
  }

  ghost predicate Holds(nodes: seq<Node>, pairs: seq<(Option<Payload>, Version)>) {
    && |nodes| == |pairs|
    && forall i :: 0 <= i < |nodes| ==> nodes[i].payload == pairs[i].0 && nodes[i].insertVersion == pairs[i].1
  }

  lemma {:induction false} HoldsMore(before: seq<Node>, after: seq<Node>, pairs: seq<(Option<Payload>, Version)>,
      payload: Option<Payload>, version: Version)
    requires Holds(before, pairs) && |after| == |before| + 1 && after[..|before|] == before
    requires after[|before|].payload == payload && after[|before|].insertVersion == version
    ensures Holds(after, pairs + [(payload, version)])
  {
    assert forall i :: 0 <= i < |before| ==> after[i] == after[..|before|][i];
  }

  /** What `find` reports for the node a search stopped at. */
  ghost function Found(nodes: seq<Node>, at: Option<nat>, allowTombstone: bool): Option<nat>
    requires at.Some? ==> at.value < |nodes|
  {
    if at.Some? && (allowTombstone || nodes[at.value].payload.Some?) then at else None
  }

  ghost function AsEntry(nodes: seq<Node>, at: Option<nat>): Option<Entry>
    requires at.Some? ==> at.value < |nodes| && nodes[at.value].payload.Some?
  {
    if at.Some? then Some(Entry(nodes[at.value].insertVersion, nodes[at.value].payload.value)) else None
  }

  class FrugalList {
    var nodes: seq<Node>
    var head: nat
    ghost var log: seq<Op>

    ghost predicate Valid()
      reads this
    {
      && WellLinked(nodes)
      && head == |nodes| - 1
      && ChainLog(log)
      && nodes[head].insertVersion <= log[|log| - 1].version
      && Holds(nodes, Pairs(log))
    }

    constructor (payload: Payload, version: Version)
      ensures Valid() && log == [Op.Push(version, payload)]
      ensures head == 0 && Holds(nodes, [(Some(payload), version)])
    {
      nodes := [Node(None, None, Some(payload), version, SENTINEL_LEVEL)];
      head := 0;
      log := [Op.Push(version, payload)];
      new;
      assert Pairs(log) == [(Some(payload), version)] by {
        assert log[..0] == [];
      }
    }

    method IsLive() returns (live: bool)
      requires Valid()
      ensures live == Live(log)
    {
      PairsEnd(log);
      live := nodes[head].payload.Some?;
    }

    /** `coin` is the toss that decides between a flat node and a tower. */
    method AppendNode(payload: Option<Payload>, version: Version, coin: bool)
      requires WellLinked(nodes) && head == |nodes| - 1
      requires nodes[head].insertVersion < version
      modifies this`nodes, this`head
      ensures WellLinked(nodes) && head == |nodes| - 1
      ensures |nodes| == |old(nodes)| + 1 && nodes[..|old(nodes)|] == old(nodes)
      ensures nodes[head].payload == payload && nodes[head].insertVersion == version
    {
      if coin {
        AppendTower(payload, version);
      } else {
        AppendNext(payload, version);
      }
    }

    method AppendNext(payload: Option<Payload>, version: Version)
      requires WellLinked(nodes) && head == |nodes| - 1
      requires nodes[head].insertVersion < version
      modifies this`nodes, this`head
      ensures WellLinked(nodes) && head == |nodes| - 1
      ensures nodes == old(nodes) + [Node(Some(old(head)), Some(old(head)), payload, version, FLAT_LEVEL)]
    {
      ghost var before := nodes;
      nodes := nodes + [Node(Some(head), Some(head), payload, version, FLAT_LEVEL)];
      head := |nodes| - 1;
      Extends(before, nodes);
    }

    /** The walk over `vRidgy` always ends: it never runs past the sentinel. */
    method AppendTower(payload: Option<Payload>, version: Version)
      requires WellLinked(nodes) && head == |nodes| - 1
      requires nodes[head].insertVersion < version
      modifies this`nodes, this`head
      ensures WellLinked(nodes) && head == |nodes| - 1
      ensures |nodes| == |old(nodes)| + 1 && nodes[..|old(nodes)|] == old(nodes)
      ensures nodes[head].payload == payload && nodes[head].insertVersion == version
      ensures nodes[head].level == WrappingInc(old(nodes[head].level))
    {
      ghost var before := nodes;
      var curr := head;
      var level := WrappingInc(nodes[curr].level);
      OnlyTheSentinelHasItsLevel(nodes, head);
      assert level <= head by {
        if head > 0 { assert NodeOk(nodes, head); }
      }
      assert level < SENTINEL_LEVEL by {
        VersionsIncrease(nodes, 0, head);
      }
      while nodes[curr].level < level
        invariant 0 <= curr <= head && nodes == before && head == |before| - 1
        invariant forall j :: curr < j <= head ==> nodes[j].level < level
        decreases curr
      {
        assert curr != 0;
        assert NodeOk(nodes, curr);
        curr := nodes[curr].vRidgy.value;
      }
      nodes := nodes + [Node(Some(head), Some(curr), payload, version, level)];
      head := |nodes| - 1;
      Extends(before, nodes);
    }

    method Append(payload: Payload, version: Version, coin: bool)
      requires Valid() && log[|log| - 1].version < version
      modifies this
      ensures Valid() && log == old(log) + [Op.Append(version, payload)]
    {
      PairsOn(log, Op.Append(version, payload));
      ghost var was := nodes;
      hide ChainLog, Pairs, WellLinked, Holds;
      AppendNode(Some(payload), version, coin);
      HoldsMore(was, nodes, Pairs(log), Some(payload), version);
      log := log + [Op.Append(version, payload)];
    }

    method Push(payload: Payload, version: Version, coin: bool)
      requires Valid() && log[|log| - 1].version < version
      modifies this
      ensures Valid() && log == old(log) + [Op.Push(version, payload)]
    {
      PairsOn(log, Op.Push(version, payload));
      ghost var was := nodes;
      hide ChainLog, Pairs, WellLinked, Holds;
      AppendNode(Some(payload), version, coin);
      HoldsMore(was, nodes, Pairs(log), Some(payload), version);
      log := log + [Op.Push(version, payload)];
    }

    method Delete(version: Version, coin: bool)
      requires Valid() && log[|log| - 1].version < version
      modifies this
      ensures Valid() && log == old(log) + [Op.Delete(version)]
    {
      PairsOn(log, Op.Delete(version));
      PairsOnDelete(log, version, nodes[head].payload);
      ghost var was, pairs := nodes, Pairs(log);
      hide ChainLog, Pairs, WellLinked, Holds;
      if nodes[head].payload.Some? {
        AppendNode(None, version, coin);
        HoldsMore(was, nodes, pairs, None, version);
      }
      log := log + [Op.Delete(version)];
    }

    /** The skipping search stops at the node the linear walk finds, and every hop goes to a
        strictly older node. */
    method FindFrom(from: Option<nat>, v: Version, allowTombstone: bool) returns (r: Option<nat>)
      requires WellLinked(nodes)
      requires from.Some? ==> from.value < |nodes|
      ensures r == if from.None? then None
                   else Found(nodes, LinearWalk(nodes, from.value, v), allowTombstone)
    {
      if from.None? {
        return None;
      }
      var curr := from.value;
      OnlyTheSentinelHasItsLevel(nodes, curr);
      while nodes[curr].level < SENTINEL_LEVEL && nodes[curr].insertVersion > v
        invariant 0 <= curr <= from.value < |nodes|
        invariant nodes[curr].level == SENTINEL_LEVEL <==> curr == 0
        invariant LinearWalk(nodes, curr, v) == LinearWalk(nodes, from.value, v)
        decreases curr
      {
        assert NodeOk(nodes, curr);
        ghost var was := curr;
        if nodes[curr].vRidgy.Some? && nodes[nodes[curr].vRidgy.value].insertVersion > v {
          curr := nodes[curr].vRidgy.value;
          VersionsIncrease(nodes, curr, curr + 1);
        } else {
          curr := nodes[curr].next.value;
        }
        WalkSkips(nodes, was, curr, v);
        OnlyTheSentinelHasItsLevel(nodes, curr);
      }
      if nodes[curr].insertVersion <= v && (allowTombstone || nodes[curr].payload.Some?) {
        r := Some(curr);
      } else {
        r := None;
      }
    }

    /** A lookup in the list answers as the replayed history does, at every version. */
    method Find(v: Version) returns (r: Option<Entry>)
      requires Valid()
      ensures r == Replay(log, v)
    {
      var at := FindFrom(Some(head), v, false);
      FindIsReplay(nodes, log, v);
      r := if at.None? then None else Some(Entry(nodes[at.value].insertVersion, nodes[at.value].payload.value));
    }

    /** Walks the chain to its tail; newest first. */
    method Collect() returns (items: seq<(Option<Payload>, Version)>)
      requires Valid()
      ensures |items| == |nodes|
      ensures forall j :: 0 <= j < |items| ==> items[j] == (nodes[head - j].payload, nodes[head - j].insertVersion)
    {
      items := [];
      var p: Option<nat> := Some(head);
      while p.Some?
        invariant p.Some? ==> p.value <= head
        invariant |items| <= |nodes|
        invariant |items| == if p.Some? then head - p.value else |nodes|
        invariant forall j :: 0 <= j < |items| ==>
          items[j] == (nodes[head - j].payload, nodes[head - j].insertVersion)
        decreases |nodes| - |items|
      {
        if p.value > 0 { assert NodeOk(nodes, p.value); }
        items := items + [(nodes[p.value].payload, nodes[p.value].insertVersion)];
        p := nodes[p.value].next;
      }
    }

    /** The deep clone: walk the chain to its tail, then append the copies oldest first with
        fresh coin tosses. */
    method Clone(coins: nat -> bool) returns (copy: FrugalList)
      requires Valid()
      ensures fresh(copy) && WellLinked(copy.nodes) && copy.head == |copy.nodes| - 1
      ensures Holds(copy.nodes, Pairs(log))
      ensures forall v: Version, t :: Found(copy.nodes, LinearWalk(copy.nodes, copy.head, v), t)
                                   == Found(nodes, LinearWalk(nodes, head, v), t)
    {
      var items := Collect();
      var tail := items[|items| - 1];
      items := items[..|items| - 1];
      copy := new FrugalList(tail.0.value, tail.1);
      var i := |items|;
      while i > 0
        invariant 0 <= i <= |items| == head
        invariant fresh(copy) && WellLinked(copy.nodes) && copy.head == |copy.nodes| - 1
        invariant |copy.nodes| == |nodes| - i
        invariant forall j :: 0 <= j < |copy.nodes| ==>
          copy.nodes[j].payload == nodes[j].payload && copy.nodes[j].insertVersion == nodes[j].insertVersion
      {
        i := i - 1;
        assert NodeOk(nodes, head - i);
        copy.AppendNode(items[i].0, items[i].1, coins(i));
      }
      hide WellLinked, Holds, Pairs;
      forall v: Version, t
        ensures Found(copy.nodes, LinearWalk(copy.nodes, copy.head, v), t)
             == Found(nodes, LinearWalk(nodes, head, v), t)
      {
        SamePairsSameWalk(copy.nodes, nodes, head, v);
      }
    }
  }

  /** Pushing one more node keeps the older ones as they are. */
  lemma {:induction false} Extends(before: seq<Node>, after: seq<Node>)
    requires WellLinked(before) && |after| == |before| + 1 && after[..|before|] == before
    requires NodeOk(after, |before|)
    ensures WellLinked(after)
  {
    forall i | 0 < i < |after|
      ensures NodeOk(after, i)
    {
      if i < |before| {
        assert NodeOk(before, i);
        assert forall j :: 0 <= j < |before| ==> after[j] == before[j];
      }
    }
  }

  /** The last pair is a tombstone exactly when the log ends in a delete. */
  lemma {:induction false} PairsEnd(log: seq<Op>)
    requires ChainLog(log)
    ensures |Pairs(log)| > 0
    ensures Pairs(log)[|Pairs(log)| - 1].0.Some? == Live(log)
    ensures Pairs(log)[|Pairs(log)| - 1].1 <= log[|log| - 1].version
  {
    var n := |log| - 1;
    if n > 0 {
      PrefixIncreasing(log, n);
      PairsEnd(log[..n]);
    }
  }

  /** The newest pair at or below `v`, as an entry. */
  ghost function NewestPair(pairs: seq<(Option<Payload>, Version)>, v: Version): Option<Entry> {
    if pairs == [] then None
    else
      var last := pairs[|pairs| - 1];
      if last.1 <= v then (if last.0.Some? then Some(Entry(last.1, last.0.value)) else None)
      else NewestPair(pairs[..|pairs| - 1], v)
  }

  lemma {:induction false} NewestPairIsReplay(log: seq<Op>, v: Version)
    requires ChainLog(log)
    ensures NewestPair(Pairs(log), v) == Replay(log, v)
  {
    var n := |log| - 1;
    var pairs := Pairs(log);
    if n == 0 {
      assert log[..0] == [];
      assert pairs[..0] == [];
    } else {
      var before := Pairs(log[..n]);
      PrefixIncreasing(log, n);
      NewestPairIsReplay(log[..n], v);
      PairsEnd(log[..n]);
      if pairs != before {
        assert pairs[..|pairs| - 1] == before;
      } else if log[n].version <= v {
        assert NewestPair(before, v) == None;
      }
    }
  }

  lemma {:induction false} WalkIsNewestPair(nodes: seq<Node>, pairs: seq<(Option<Payload>, Version)>, i: nat,
      v: Version)
    requires WellLinked(nodes) && i < |nodes| && Holds(nodes, pairs)
    ensures AsEntry(nodes, Found(nodes, LinearWalk(nodes, i, v), false)) == NewestPair(pairs[..i + 1], v)
  {
    assert pairs[..i + 1][..i] == pairs[..i];
    if nodes[i].insertVersion > v && i > 0 {
      assert NodeOk(nodes, i);
      WalkIsNewestPair(nodes, pairs, i - 1, v);
    }
  }

  lemma {:induction false} FindIsReplay(nodes: seq<Node>, log: seq<Op>, v: Version)
    requires WellLinked(nodes) && ChainLog(log) && Holds(nodes, Pairs(log))
    ensures AsEntry(nodes, Found(nodes, LinearWalk(nodes, |nodes| - 1, v), false)) == Replay(log, v)
  {
    assert Pairs(log)[..|nodes|] == Pairs(log);
    WalkIsNewestPair(nodes, Pairs(log), |nodes| - 1, v);
    NewestPairIsReplay(log, v);
  }

  /** Two lists holding the same pairs answer every search alike, tombstones included, however
      differently their towers were tossed: the deep clone is indistinguishable from the original. */
  lemma {:induction false} SamePairsSameWalk(a: seq<Node>, b: seq<Node>, i: nat, v: Version)
    requires WellLinked(a) && WellLinked(b) && |a| == |b| && i < |a|
    requires forall j :: 0 <= j < |a| ==> a[j].payload == b[j].payload && a[j].insertVersion == b[j].insertVersion
    ensures LinearWalk(a, i, v) == LinearWalk(b, i, v)
    ensures forall t :: Found(a, LinearWalk(a, i, v), t) == Found(b, LinearWalk(b, i, v), t)
  {
    if a[i].insertVersion > v && i > 0 {
      assert NodeOk(a, i) && NodeOk(b, i);
      SamePairsSameWalk(a, b, i - 1, v);
    }
  }
}
