/** The correction of an underfull leaf that is not the last child (query.rs): merge it with its right
    neighbour, or share the records evenly. Pages stand here for the records they hold. */
module LeafUnderflow {
  import opened Tree
  import opened InOrder

  /** The records of all leaves, from left to right. */
  ghost function Joined(leaves: seq<seq<Record>>): seq<Record> {
    if leaves == [] then [] else leaves[0] + Joined(leaves[1..])
  }

  ghost function Bound(keys: seq<Key>, i: nat, lo: int, hi: int): int {
    if i == 0 then lo else if i <= |keys| then keys[i - 1] else hi
  }

  /** The separators part the leaves: each leaf is sorted and lies between its own two. */
  ghost predicate Parted(keys: seq<Key>, leaves: seq<seq<Record>>, lo: int, hi: int) {
    && |leaves| == |keys| + 1 && Ascending(keys)
    && (forall i :: 0 <= i < |keys| ==> lo < keys[i] < hi)
    && forall i :: 0 <= i < |leaves| ==> LeafFits(keys, leaves, lo, hi, i)
  }

  ghost predicate LeafFits(keys: seq<Key>, leaves: seq<seq<Record>>, lo: int, hi: int, i: nat)
    requires i < |leaves|
  {
    Within(leaves[i], Bound(keys, i, lo, hi), Bound(keys, i + 1, lo, hi))
  }

  // ----- choosing the neighbour -----------------------------------------------------------------

  /** All children but one, each with the separator to its right; the last one with the upper fence. */
  function Candidates(keys: seq<Key>, upper: Key, childPos: nat): (cs: seq<(nat, Key)>)
    requires childPos <= |keys|
    ensures |cs| == |keys|
    ensures forall i :: 0 <= i < |cs| ==>
      var at := if i < childPos then i else i + 1;
      cs[i] == (at, if at < |keys| then keys[at] else upper)
  {
    var all := seq(|keys| + 1, i requires 0 <= i <= |keys| => (i, if i < |keys| then keys[i] else upper));
    all[..childPos] + all[childPos + 1..]
  }

  /** Binary search by key: where the key is, or where it would have to be inserted. */
  method BinarySearch(cs: seq<(nat, Key)>, key: Key) returns (index: nat)
    requires forall i, j :: 0 <= i < j < |cs| ==> cs[i].1 < cs[j].1
    ensures index <= |cs|
    ensures forall i :: 0 <= i < index ==> cs[i].1 < key
    ensures forall i :: index <= i < |cs| ==> key <= cs[i].1
  {
    index := 0;
    var end := |cs|;
    while index < end
      invariant 0 <= index <= end <= |cs|
      invariant forall i :: 0 <= i < index ==> cs[i].1 < key
      invariant forall i :: end <= i < |cs| ==> key <= cs[i].1
    {
      var mid := index + (end - index) / 2;
      if cs[mid].1 < key { index := mid + 1; } else { end := mid; }
    }
  }

  /** The child to merge with. */
  method MergeIndex(keys: seq<Key>, upper: Key, childPos: nat) returns (mergeIndex: nat)
    requires Ascending(keys) && childPos < |keys| && forall i :: 0 <= i < |keys| ==> keys[i] < upper
    ensures mergeIndex == childPos + 1
  {
    var candidates := Candidates(keys, upper, childPos);
    var index := BinarySearch(candidates, keys[childPos]);
    assert candidates[childPos].1 > keys[childPos] && (childPos > 0 ==> candidates[childPos - 1].1 < keys[childPos]);
    mergeIndex := candidates[if index < |candidates| then index else |candidates| - 1].0;
  }

  /** Merges two sorted leaves by key, taking from the first as long as its key is smaller. */
  method MergeBy(a: seq<Record>, b: seq<Record>) returns (joined: seq<Record>)
    requires forall i, j :: 0 <= i < |a| && 0 <= j < |b| ==> a[i].key < b[j].key
    ensures joined == a + b
  {
    joined := [];
    var i, j := 0, 0;
    while i < |a| || j < |b|
      invariant 0 <= i <= |a| && 0 <= j <= |b| && (j > 0 ==> i == |a|)
      invariant joined == a[..i] + b[..j]
      decreases |a| - i + |b| - j
    {
      if j == |b| || (i < |a| && a[i].key < b[j].key) {
        joined := joined + [a[i]];
        i := i + 1;
      } else {
        joined := joined + [b[j]];
        j := j + 1;
      }
    }
  }

  // ----- the correction -------------------------------------------------------------------------

  /** `Collapsed`: the parent itself becomes a leaf, which is for the root alone; elsewhere the code calls
      the branch unreachable and panics. */
  datatype Outcome = Collapsed(leaf: seq<Record>) | Panicked | Merged | Redistributed

  function Without<T>(s: seq<T>, at: nat): seq<T>
    requires at < |s|
  {
    s[..at] + s[at + 1..]
  }

  class LeafParent {
    var keys: seq<Key>
    var leaves: seq<seq<Record>>

    constructor (keys: seq<Key>, leaves: seq<seq<Record>>)
      ensures this.keys == keys && this.leaves == leaves
    {
      this.keys := keys;
      this.leaves := leaves;
    }

    method DoUnderflowCorrection(c: Config, isRoot: bool, upper: Key, childPos: nat, ghost lo: int, ghost hi: int)
      returns (outcome: Outcome)
      requires Sizes(c) && Parted(keys, leaves, lo, hi) && childPos < |keys|
      requires forall i :: 0 <= i < |keys| ==> keys[i] < upper
      requires |leaves[childPos + 1]| <= c.numRecords && HasUnderflow(c, Leaf(leaves[childPos]))
      modifies this
      ensures var fit := old(|leaves[childPos]| + |leaves[childPos + 1]|) < c.numRecords;
              && (outcome.Collapsed? <==> fit && old(|keys|) == 1 && isRoot)
              && (outcome.Panicked? <==> fit && old(|keys|) == 1 && !isRoot)
              && (outcome.Merged? <==> fit && old(|keys|) > 1)
      ensures outcome.Collapsed? ==> outcome.leaf == Joined(old(leaves))
      ensures outcome.Collapsed? || outcome.Panicked? ==> keys == old(keys) && leaves == old(leaves)
      ensures outcome.Merged? || outcome.Redistributed? ==>
        Joined(leaves) == Joined(old(leaves)) && Parted(keys, leaves, lo, hi)
      ensures outcome.Merged? ==> keys == Without(old(keys), childPos)
      ensures outcome.Redistributed? ==>
        && |leaves| == old(|leaves|)
        && !HasUnderflow(c, Leaf(leaves[childPos])) && !HasOverflow(c, Leaf(leaves[childPos]))
        && !HasUnderflow(c, Leaf(leaves[childPos + 1])) && !HasOverflow(c, Leaf(leaves[childPos + 1]))
        && leaves == old(leaves)[childPos := leaves[childPos]][childPos + 1 := leaves[childPos + 1]]
    {
      var mergeIndex := MergeIndex(keys, upper, childPos);
      var from, merge := leaves[childPos], leaves[mergeIndex];
      NeighboursInOrder(keys, leaves, lo, hi, childPos);
      var fit := |from| + |merge| < c.numRecords;
      var joined := MergeBy(from, merge);
      if |keys| == 1 && fit {
        JoinedTwo(leaves);
        outcome := if isRoot then Collapsed(from + merge) else Panicked;
        return;
      }
      var left := if childPos < mergeIndex then childPos else mergeIndex;
      var right := if childPos < mergeIndex then mergeIndex else childPos;
      if fit {
        MergedParted(keys, leaves, lo, hi, left);
        JoinedMerged(leaves, left);
        keys := Without(keys, left);
        leaves := Without(leaves, right)[left := joined];
        outcome := Merged;
      } else {
        var mid := |joined| / 2;
        var first, second := joined[..mid], joined[mid..];
        assert joined == first + second;
        SharedParted(keys, leaves, lo, hi, left, mid);
        JoinedShared(leaves, left, first, second);
        keys := keys[left := second[0].key];
        leaves := leaves[left := first][right := second];
        outcome := Redistributed;
      }
    }
  }

  lemma {:induction false} NeighboursInOrder(keys: seq<Key>, leaves: seq<seq<Record>>, lo: int, hi: int, i: nat)
    requires Parted(keys, leaves, lo, hi) && i < |keys|
    ensures Within(leaves[i], Bound(keys, i, lo, hi), keys[i])
    ensures Within(leaves[i + 1], keys[i], Bound(keys, i + 2, lo, hi))
    ensures Bound(keys, i, lo, hi) < keys[i] < Bound(keys, i + 2, lo, hi)
  {
    assert LeafFits(keys, leaves, lo, hi, i) && LeafFits(keys, leaves, lo, hi, i + 1);
  }

  lemma {:induction false} JoinedConcat(a: seq<seq<Record>>, b: seq<seq<Record>>)
    ensures Joined(a + b) == Joined(a) + Joined(b)
  {
    if a == [] {
      assert a + b == b;
    } else {
      assert (a + b)[1..] == a[1..] + b;
      JoinedConcat(a[1..], b);
    }
  }

  lemma {:induction false} JoinedTwo(leaves: seq<seq<Record>>)
    ensures |leaves| == 1 ==> Joined(leaves) == leaves[0]
    ensures |leaves| == 2 ==> Joined(leaves) == leaves[0] + leaves[1]
  {
    if |leaves| == 2 { JoinedTwo(leaves[1..]); }
  }

  /** Merging two neighbours leaves the sequence of all records as it was. */
  lemma {:induction false} JoinedMerged(leaves: seq<seq<Record>>, i: nat)
    requires i + 1 < |leaves|
    ensures Joined(Without(leaves, i + 1)[i := leaves[i] + leaves[i + 1]]) == Joined(leaves)
  {
    hide Joined;
    var l, r := leaves[..i], leaves[i + 2..];
    var both := [leaves[i], leaves[i + 1]];
    JoinedTwo(both);
    JoinedTwo([leaves[i] + leaves[i + 1]]);
    assert leaves == l + (both + r);
    assert Without(leaves, i + 1)[i := leaves[i] + leaves[i + 1]] == l + ([leaves[i] + leaves[i + 1]] + r);
    JoinedConcat(l, both + r);
    JoinedConcat(both, r);
    JoinedConcat(l, [leaves[i] + leaves[i + 1]] + r);
    JoinedConcat([leaves[i] + leaves[i + 1]], r);
  }

  lemma {:induction false} JoinedShared(leaves: seq<seq<Record>>, i: nat, first: seq<Record>, second: seq<Record>)
    requires i + 1 < |leaves| && first + second == leaves[i] + leaves[i + 1]
    ensures Joined(leaves[i := first][i + 1 := second]) == Joined(leaves)
  {
    hide Joined;
    var shared := leaves[i := first][i + 1 := second];
    assert Without(shared, i + 1)[i := shared[i] + shared[i + 1]]
        == Without(leaves, i + 1)[i := leaves[i] + leaves[i + 1]];
    JoinedMerged(leaves, i);
    JoinedMerged(shared, i);
  }

  /** Without the separator between two merged leaves, the separators still part the leaves. */
  lemma {:induction false} MergedParted(keys: seq<Key>, leaves: seq<seq<Record>>, lo: int, hi: int, i: nat)
    requires Parted(keys, leaves, lo, hi) && i < |keys|
    ensures Parted(Without(keys, i), Without(leaves, i + 1)[i := leaves[i] + leaves[i + 1]], lo, hi)
  {
    NeighboursInOrder(keys, leaves, lo, hi, i);
    var ks, ls := Without(keys, i), Without(leaves, i + 1)[i := leaves[i] + leaves[i + 1]];
    WithinConcat(leaves[i], leaves[i + 1], Bound(keys, i, lo, hi), keys[i], Bound(keys, i + 2, lo, hi));
    forall k | 0 <= k < |ls|
      ensures LeafFits(ks, ls, lo, hi, k)
    {
      assert ls[k] == if k < i then leaves[k] else if k == i then leaves[i] + leaves[i + 1] else leaves[k + 1];
      assert Bound(ks, k, lo, hi) == Bound(keys, if k <= i then k else k + 1, lo, hi);
      assert Bound(ks, k + 1, lo, hi) == Bound(keys, if k < i then k + 1 else k + 2, lo, hi);
      if k != i { assert LeafFits(keys, leaves, lo, hi, if k < i then k else k + 1); }
      hide Within;
    }
  }

  /** The first key of the right half is a separator between the halves. */
  lemma {:induction false} SharedParted(keys: seq<Key>, leaves: seq<seq<Record>>, lo: int, hi: int, i: nat, mid: nat)
    requires Parted(keys, leaves, lo, hi) && i < |keys| && 0 < mid < |leaves[i]| + |leaves[i + 1]|
    ensures var joined := leaves[i] + leaves[i + 1];
            Parted(keys[i := joined[mid].key], leaves[i := joined[..mid]][i + 1 := joined[mid..]], lo, hi)
  {
    NeighboursInOrder(keys, leaves, lo, hi, i);
    var joined := leaves[i] + leaves[i + 1];
    WithinConcat(leaves[i], leaves[i + 1], Bound(keys, i, lo, hi), keys[i], Bound(keys, i + 2, lo, hi));
    WithinHalves(joined, Bound(keys, i, lo, hi), Bound(keys, i + 2, lo, hi), mid);
    Reparted(keys, leaves, lo, hi, i, joined[..mid], joined[mid].key, joined[mid..]);
  }

  lemma {:induction false} WithinHalves(rs: seq<Record>, lo: int, hi: int, mid: nat)
    requires Within(rs, lo, hi) && 0 < mid < |rs|
    ensures lo < rs[mid].key < hi
    ensures Within(rs[..mid], lo, rs[mid].key) && Within(rs[mid..], rs[mid].key, hi)
  {
    assert rs[0].key < rs[mid].key;
  }

  /** Two neighbours, and the separator between them, may be replaced within their bounds. */
  lemma {:induction false} Reparted(keys: seq<Key>, leaves: seq<seq<Record>>, lo: int, hi: int, i: nat,
                                    first: seq<Record>, key: Key, second: seq<Record>)
    requires Parted(keys, leaves, lo, hi) && i < |keys|
    requires Bound(keys, i, lo, hi) < key < Bound(keys, i + 2, lo, hi)
    requires Within(first, Bound(keys, i, lo, hi), key) && Within(second, key, Bound(keys, i + 2, lo, hi))
    ensures Parted(keys[i := key], leaves[i := first][i + 1 := second], lo, hi)
  {
    hide Within;
    var ks, ls := keys[i := key], leaves[i := first][i + 1 := second];
    forall k | 0 <= k < |ls|
      ensures LeafFits(ks, ls, lo, hi, k)
    {
      if k != i && k != i + 1 { assert LeafFits(keys, leaves, lo, hi, k); }
    }
  }
}
