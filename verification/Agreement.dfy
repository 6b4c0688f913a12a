/** The common interface of the version indexes (version_index.rs): whatever kind a record uses, it
    answers the same. */
module Agreement {
  import opened History
  import Frugal
  import Vanilla
  import SkipIndex

  datatype Kind = FrugalSkipList | Vanilla | SkipMap

  datatype VersionIndex =
    | FrugalIndex(frugal: Frugal.FrugalList)
    | VanillaIndex(vanilla: Vanilla.VersionList)
    | SkipMapIndex(skip: SkipIndex.SkipList)

  /** The index is in order and was built by these operations. */
  ghost predicate BuiltBy(ix: VersionIndex, log: seq<Op>)
    reads match ix case FrugalIndex(f) => {f as object} case VanillaIndex(l) => {l} case SkipMapIndex(s) => {s}
  {
    match ix
    case FrugalIndex(f) => f.Valid() && f.log == log
    case VanillaIndex(l) => l.Valid() && l.log == log
    case SkipMapIndex(s) => s.Valid() && s.log == log
  }

  /** The histories on which lookups in an index of the kind keep up: all of them, but for the skip map. */
  ghost predicate KeepsUp(kind: Kind, log: seq<Op>) {
    kind.SkipMap? ==> SkipIndex.Fits(log)
  }

  /** What an index of the kind shows of a log at a version. */
  function Shown(kind: Kind, log: seq<Op>, v: Version): Option<Entry> {
    match kind
    case FrugalSkipList => Replay(log, v)
    case Vanilla => if v < MAX_U64 then Replay(log, v) else None
    case SkipMap => SkipIndex.Find(SkipIndex.Items(log), v)
  }

  /** All kinds show the replayed history, where they keep up; the interval list not at the largest version. */
  lemma {:induction false} ShownIsReplay(kind: Kind, log: seq<Op>, v: Version)
    requires ChainLog(log) && KeepsUp(kind, log) && (kind.Vanilla? ==> v < MAX_U64)
    ensures Shown(kind, log, v) == Replay(log, v)
  {
    if kind.SkipMap? { SkipIndex.FitFindIsReplay(log, v); }
  }

  /** The same for a key that may have no record. */
  function Answered(kind: Kind, log: seq<Op>, v: Version): Option<Entry> {
    if log == [] then None else Shown(kind, log, v)
  }

  function KindOf(ix: VersionIndex): Kind {
    match ix
    case FrugalIndex(_) => FrugalSkipList
    case VanillaIndex(_) => Vanilla
    case SkipMapIndex(_) => SkipMap
  }

  method New(kind: Kind, op: Op) returns (ix: VersionIndex)
    requires op.Push?
    ensures BuiltBy(ix, [op]) && KindOf(ix) == kind
    ensures fresh(match ix case FrugalIndex(f) => f as object case VanillaIndex(l) => l case SkipMapIndex(s) => s)
  {
    match kind {
      case FrugalSkipList => var f := new Frugal.FrugalList(op.payload, op.version); ix := FrugalIndex(f);
      case Vanilla => var l := new Vanilla.VersionList(op.payload, op.version); ix := VanillaIndex(l);
      case SkipMap => var s := new SkipIndex.SkipList(op.payload, op.version); ix := SkipMapIndex(s);
    }
  }

  /** `push`, `append` and `delete`, dispatched on the kind of index. The coin is for the frugal list. */
  method Dispatch(ix: VersionIndex, op: Op, coin: bool, ghost log: seq<Op>)
    requires BuiltBy(ix, log) && log != [] && log[|log| - 1].version < op.version
    modifies match ix case FrugalIndex(f) => f as object case VanillaIndex(l) => l case SkipMapIndex(s) => s
    ensures BuiltBy(ix, log + [op])
  {
    match ix {
      case FrugalIndex(f) =>
        match op {
          case Push(v, p) => f.Push(p, v, coin);
          case Append(v, p) => f.Append(p, v, coin);
          case Delete(v) => f.Delete(v, coin);
        }
      case VanillaIndex(l) =>
        match op {
          case Push(v, p) => l.Push(p, v);
          case Append(v, p) => l.Append(p, v);
          case Delete(v) => l.Delete(v);
        }
      case SkipMapIndex(s) =>
        match op {
          case Push(v, p) => s.Push(p, v);
          case Append(v, p) => s.Append(p, v);
          case Delete(v) => s.Delete(v);
        }
    }
  }

  method Find(ix: VersionIndex, v: Version, ghost log: seq<Op>) returns (r: Option<Entry>)
    requires BuiltBy(ix, log)
    ensures r == Shown(KindOf(ix), log, v)
    ensures KeepsUp(KindOf(ix), log) && (ix.VanillaIndex? ==> v < MAX_U64) ==> r == Replay(log, v)
  {
    match ix {
      case FrugalIndex(f) => r := f.Find(v);
      case VanillaIndex(l) => r := l.Find(v);
      case SkipMapIndex(s) =>
        r := s.Lookup(v);
        if SkipIndex.Fits(log) { SkipIndex.FitFindIsReplay(log, v); }
    }
  }

  method IsLive(ix: VersionIndex, ghost log: seq<Op>) returns (live: bool)
    requires BuiltBy(ix, log)
    ensures KeepsUp(KindOf(ix), log) && (ix.VanillaIndex? ==> Vanilla.Drawn(log)) ==> live == Live(log)
  {
    match ix {
      case FrugalIndex(f) => live := f.IsLive();
      case VanillaIndex(l) => live := l.IsLive();
      case SkipMapIndex(s) => live := s.IsLive();
    }
  }

  method Build(kind: Kind, log: seq<Op>, coins: nat -> bool) returns (ix: VersionIndex)
    requires ChainLog(log)
    ensures BuiltBy(ix, log) && KindOf(ix) == kind
  {
    ix := New(kind, log[0]);
    var i := 1;
    assert log[..1] == [log[0]];
    while i < |log|
      invariant 1 <= i <= |log|
      invariant BuiltBy(ix, log[..i])
      invariant fresh(match ix case FrugalIndex(f) => f as object case VanillaIndex(l) => l case SkipMapIndex(s) => s)
      invariant KindOf(ix) == kind
    {
      assert log[..i + 1] == log[..i] + [log[i]];
      Dispatch(ix, log[i], coins(i), log[..i]);
      i := i + 1;
    }
    assert log[..|log|] == log;
  }

  /** Looks up one version of a record: its chain, built operation by operation, is asked. */
  method Look(kind: Kind, log: seq<Op>, coins: nat -> bool, v: Version) returns (r: Option<Entry>)
    requires ChainLog(log)
    ensures r == Shown(kind, log, v)
  {
    var ix := Build(kind, log, coins);
    r := Find(ix, v, log);
  }

  /** Builds a chain and asks it for a version, and whether its key is live. */
  method Ask(kind: Kind, log: seq<Op>, coins: nat -> bool, v: Version)
    returns (seen: Option<Entry>, live: bool)
    requires Vanilla.Drawn(log) && v < MAX_U64
    ensures KeepsUp(kind, log) ==> seen == Replay(log, v) && live == Live(log)
  {
    var ix := Build(kind, log, coins);
    hide KeepsUp, BuiltBy;
    seen := Find(ix, v, log);
    live := IsLive(ix, log);
  }

  /** Two indexes of any kinds, built by the same history with any coin tosses, agree on what is
      visible at every version and on whether the key is live. */
  method Compare(a: Kind, b: Kind, log: seq<Op>, coinsA: nat -> bool, coinsB: nat -> bool, v: Version)
    returns (seenA: Option<Entry>, seenB: Option<Entry>, liveA: bool, liveB: bool)
    requires Vanilla.Drawn(log) && v < MAX_U64
    ensures KeepsUp(a, log) ==> seenA == Replay(log, v) && liveA == Live(log)
    ensures KeepsUp(a, log) && KeepsUp(b, log) ==> seenA == seenB && liveA == liveB
  {
    seenA, liveA := Ask(a, log, coinsA, v);
    seenB, liveB := Ask(b, log, coinsB, v);
  }
}
