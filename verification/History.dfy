/** What a version chain has to answer: the operations applied to one key, and what is
    visible at a version. Every version index is compared with `Replay`. */
module History {

  const MAX_U64: nat := 0xFFFF_FFFF_FFFF_FFFF

  /** Versions are 64-bit and unsigned; the largest one marks a live entry in the interval list. */
  type Version = v: nat | v <= MAX_U64

  /** Payloads are opaque to the index. */
  type Payload = int

  datatype Option<+T> = None | Some(value: T)

  /** `Push` is what an insert does to its key, `Append` what an update does. */
  datatype Op =
    | Push(version: Version, payload: Payload)
    | Append(version: Version, payload: Payload)
    | Delete(version: Version)

  /** What a lookup returns: the version that wrote the payload, and the payload. */
  datatype Entry = Entry(version: Version, payload: Payload)

  ghost predicate Increasing(log: seq<Op>) {
    forall i, j :: 0 <= i < j < |log| ==> log[i].version < log[j].version
  }

  /** A chain is created by the insert of its key. */
  ghost predicate ChainLog(log: seq<Op>) {
    |log| > 0 && log[0].Push? && Increasing(log)
  }

  function Apply(state: Option<Entry>, op: Op): Option<Entry> {
    match op
    case Push(v, p) => Some(Entry(v, p))
    case Append(v, p) => Some(Entry(v, p))
    case Delete(_) => None
  }

  /** Replays, oldest first, exactly the operations with a version at or below `v`. */
  function Replay(log: seq<Op>, v: Version): Option<Entry> {
    if log == [] then None
    else
      var before := Replay(log[..|log| - 1], v);
      var op := log[|log| - 1];
      if op.version <= v then Apply(before, op) else before
  }

  /** Whether the key is live after the whole log. */
  function Live(log: seq<Op>): bool {
    |log| > 0 && !log[|log| - 1].Delete?
  }

  lemma {:induction false} PrefixIncreasing(log: seq<Op>, n: nat)
    requires Increasing(log) && n <= |log|
    ensures Increasing(log[..n])
  {
  }

  lemma {:induction false} ChainExtends(log: seq<Op>, op: Op)
    requires ChainLog(log) && log[|log| - 1].version < op.version
    ensures ChainLog(log + [op]) && (log + [op])[|log|] == op && (log + [op])[..|log|] == log
  {
  }

  /** Operations above `v` do not matter, however many there are. */
  lemma {:induction false} ReplayIgnoresLater(log: seq<Op>, later: seq<Op>, v: Version)
    requires forall i :: 0 <= i < |later| ==> later[i].version > v
    ensures Replay(log + later, v) == Replay(log, v)
  {
    if later == [] {
      assert log + later == log;
    } else {
      var n := |later| - 1;
      assert (log + later)[..|log + later| - 1] == log + later[..n];
      ReplayIgnoresLater(log, later[..n], v);
    }
  }

  /** In an increasing log the visible entry is the newest operation at or below `v`, if it writes. */
  lemma {:induction false} ReplayIsNewest(log: seq<Op>, v: Version, i: nat)
    requires Increasing(log) && i < |log|
    requires log[i].version <= v
    requires i + 1 < |log| ==> log[i + 1].version > v
    ensures Replay(log, v) ==
            if log[i].Delete? then None else Some(Entry(log[i].version, log[i].payload))
  {
    var n := |log| - 1;
    if i < n {
      PrefixIncreasing(log, n);
      ReplayIsNewest(log[..n], v, i);
    }
  }
}
