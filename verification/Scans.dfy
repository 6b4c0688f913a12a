/** Range scans over a quiescent tree: the lazy scan that walks leaf by leaf with a stack of fences
    (olc_query.rs), and the breadth-first scan (query.rs, dispatch.rs). */
module Scans {
  import opened History
  import opened Tree
  import opened InOrder
  import Agreement

  datatype Match = Match(key: Key, payload: Payload)

  /** What is scanned: chains of one kind, at a version. */
  datatype View = View(kind: Agreement.Kind, version: Version)

  function Shown(r: Record, v: View): Option<Entry> {
    Agreement.Shown(v.kind, r.log, v.version)
  }

  function Hit(r: Record, lo: int, end: int, v: View): seq<Match> {
    if lo <= r.key < end && Shown(r, v).Some? then [Match(r.key, Shown(r, v).value.payload)] else []
  }

  /** The reference scan: one pass over all records, keeping what is visible in `lo <= k < end`. */
  function Scan(rs: seq<Record>, lo: int, end: int, v: View): seq<Match> {
    if rs == [] then [] else Hit(rs[0], lo, end, v) + Scan(rs[1..], lo, end, v)
  }

  lemma {:induction false} ScanConcat(a: seq<Record>, b: seq<Record>, lo: int, end: int, v: View)
    ensures Scan(a + b, lo, end, v) == Scan(a, lo, end, v) + Scan(b, lo, end, v)
  {
    if a == [] {
      assert a + b == b;
    } else {
      assert (a + b)[1..] == a[1..] + b;
      ScanConcat(a[1..], b, lo, end, v);
    }
  }

  lemma {:induction false} ScanNext(rs: seq<Record>, i: nat, lo: int, end: int, v: View)
    requires i < |rs|
    ensures Scan(rs[..i + 1], lo, end, v) == Scan(rs[..i], lo, end, v) + Hit(rs[i], lo, end, v)
  {
    hide Hit;
    assert rs[..i + 1] == rs[..i] + [rs[i]];
    ScanConcat(rs[..i], [rs[i]], lo, end, v);
    assert [rs[i]][1..] == [];
  }

  lemma {:induction false} ScanOutside(a: seq<Record>, lo: int, end: int, v: View)
    requires forall i :: 0 <= i < |a| ==> a[i].key < lo || end <= a[i].key
    ensures Scan(a, lo, end, v) == []
  {
    if a != [] { ScanOutside(a[1..], lo, end, v); }
  }

  lemma {:induction false} ScanSame(a: seq<Record>, lo: int, end: int, lo': int, end': int, v: View)
    requires forall i :: 0 <= i < |a| ==> (lo <= a[i].key < end <==> lo' <= a[i].key < end')
    ensures Scan(a, lo, end, v) == Scan(a, lo', end', v)
  {
    if a != [] { ScanSame(a[1..], lo, end, lo', end', v); }
  }

  lemma {:induction false} HeadSplits(x: Record, lo: int, mid: int, end: int, v: View)
    requires lo <= mid <= end
    ensures Hit(x, lo, end, v) == Hit(x, lo, mid, v) + Hit(x, mid, end, v)
    ensures x.key < mid ==> Hit(x, mid, end, v) == []
  {
  }

  lemma {:induction false} Regrouped(a: seq<Match>, b: seq<Match>, l: seq<Match>, r: seq<Match>)
    requires b == [] || l == []
    ensures (a + b) + (l + r) == (a + l) + (b + r)
  {
  }

  lemma {:induction false} ScanSplit(a: seq<Record>, lo: int, mid: int, end: int, v: View)
    requires Within(a, 0, MAX_KEY + 1) && lo <= mid <= end
    ensures Scan(a, lo, end, v) == Scan(a, lo, mid, v) + Scan(a, mid, end, v)
  {
    if a != [] {
      var x, rest := a[0], a[1..];
      assert Within(rest, 0, MAX_KEY + 1) && forall i :: 0 <= i < |rest| ==> rest[i] == a[i + 1];
      ScanSplit(rest, lo, mid, end, v);
      if x.key >= mid { ScanOutside(rest, lo, mid, v); }
      HeadSplits(x, lo, mid, end, v);
      Regrouped(Hit(x, lo, mid, v), Hit(x, mid, end, v), Scan(rest, lo, mid, v), Scan(rest, mid, end, v));
    }
  }

  /** A scan holds exactly the visible records of the interval. */
  lemma {:induction false} ScanHolds(a: seq<Record>, lo: int, end: int, v: View, m: Match)
    ensures m in Scan(a, lo, end, v) <==> exists i :: 0 <= i < |a| && Hit(a[i], lo, end, v) == [m]
  {
    if a != [] {
      var x, rest := a[0], a[1..];
      ScanHolds(rest, lo, end, v, m);
      InHit(x, lo, end, v, m);
      hide Hit;
      assert m in Scan(a, lo, end, v) <==> m in Hit(x, lo, end, v) || m in Scan(rest, lo, end, v);
      hide Scan;
      if i :| 0 <= i < |rest| && Hit(rest[i], lo, end, v) == [m] {
        assert a[i + 1] == rest[i];
      }
      if i :| 0 <= i < |a| && Hit(a[i], lo, end, v) == [m] {
        assert i > 0 ==> a[i] == rest[i - 1];
      }
    }
  }

  lemma {:induction false} InHit(x: Record, lo: int, end: int, v: View, m: Match)
    ensures m in Hit(x, lo, end, v) <==> Hit(x, lo, end, v) == [m]
  {
  }

  ghost predicate Rising(ms: seq<Match>) {
    forall i, j :: 0 <= i < j < |ms| ==> ms[i].key < ms[j].key
  }

  /** A scan is ascending and without duplicates. */
  lemma {:induction false} ScanRises(a: seq<Record>, lo: int, end: int, v: View)
    requires Within(a, 0, MAX_KEY + 1)
    ensures Rising(Scan(a, lo, end, v))
  {
    if a != [] {
      var x, rest := a[0], a[1..];
      assert Within(rest, 0, MAX_KEY + 1) && forall i :: 0 <= i < |rest| ==> rest[i] == a[i + 1] && x.key < rest[i].key;
      ScanRises(rest, lo, end, v);
      assert Scan(a, lo, end, v) == Hit(x, lo, end, v) + Scan(rest, lo, end, v);
      hide Scan;
      forall m | m in Scan(rest, lo, end, v)
        ensures x.key < m.key
      {
        ScanHolds(rest, lo, end, v, m);
      }
    }
  }

  // ----- one leaf -------------------------------------------------------------------------

  /** First position at which a record is no longer below `bound`. */
  method PartitionPoint(rs: seq<Record>, bound: int) returns (pos: nat)
    requires Within(rs, 0, MAX_KEY + 1)
    ensures pos <= |rs|
    ensures forall i :: 0 <= i < pos ==> rs[i].key < bound
    ensures forall i :: pos <= i < |rs| ==> bound <= rs[i].key
  {
    pos := 0;
    var end := |rs|;
    while pos < end
      invariant 0 <= pos <= end <= |rs|
      invariant forall i :: 0 <= i < pos ==> rs[i].key < bound
      invariant forall i :: end <= i < |rs| ==> bound <= rs[i].key
    {
      var mid := pos + (end - pos) / 2;
      if rs[mid].key < bound { pos := mid + 1; } else { end := mid; }
    }
  }

  ghost predicate Chains(rs: seq<Record>) {
    forall i :: 0 <= i < |rs| ==> ChainLog(rs[i].log)
  }

  /** Every record of the tree has a chain. */
  ghost predicate AllChains(t: seq<Block>) {
    forall p :: 0 <= p < |t| && t[p].page.Leaf? ==> Chains(t[p].page.records)
  }

  /** The coins with which the chain of a key was built. */
  type Coins = Key -> nat -> bool

  /** Looks each record up in its chain. */
  method VisibleIn(rs: seq<Record>, v: View, coins: Coins) returns (ms: seq<Match>)
    requires Within(rs, 0, MAX_KEY + 1) && Chains(rs)
    ensures ms == Scan(rs, 0, MAX_KEY + 1, v)
  {
    ms := [];
    var i := 0;
    while i < |rs|
      invariant 0 <= i <= |rs|
      invariant ms == Scan(rs[..i], 0, MAX_KEY + 1, v)
    {
      ScanNext(rs, i, 0, MAX_KEY + 1, v);
      var found := Agreement.Look(v.kind, rs[i].log, coins(rs[i].key), v.version);
      if found.Some? { ms := ms + [Match(rs[i].key, found.value.payload)]; }
      i := i + 1;
    }
    assert rs[..|rs|] == rs;
  }

  lemma {:induction false} InOrderEnds(rs: seq<Record>, lower: int, end: int, i: nat, j: nat)
    requires lower <= end && i <= |rs| && j <= |rs|
    requires forall k :: 0 <= k < i ==> rs[k].key < lower
    requires forall k :: j <= k < |rs| ==> end <= rs[k].key
    ensures i <= j
  {
    var next := if j < |rs| then rs[j].key else end;
  }

  /** The records of one leaf between the bounds: locate the slice, then look each record up. */
  method LeafResults(rs: seq<Record>, lower: Key, upper: Key, v: View, coins: Coins) returns (ms: seq<Match>)
    requires Within(rs, 0, MAX_KEY + 1) && Chains(rs) && lower <= upper
    ensures ms == Scan(rs, lower, upper + 1, v)
  {
    hide Scan;
    var start := PartitionPoint(rs, lower);
    var end := PartitionPoint(rs, upper + 1);
    InOrderEnds(rs, lower, upper + 1, start, end);
    ms := VisibleIn(rs[start..end], v, coins);
    assert rs == rs[..start] + (rs[start..end] + rs[end..]);
    ScanConcat(rs[..start], rs[start..end] + rs[end..], lower, upper + 1, v);
    ScanConcat(rs[start..end], rs[end..], lower, upper + 1, v);
    ScanOutside(rs[..start], lower, upper + 1, v);
    ScanOutside(rs[end..], lower, upper + 1, v);
    ScanSame(rs[start..end], lower, upper + 1, 0, MAX_KEY + 1, v);
  }

  // ----- the lazy scan --------------------------------------------------------------------

  /** A page on the path, with the fences within which the scan believes it to lie. */
  datatype Stop = Stop(lower: Key, upper: Key, page: PageId)

  ghost predicate StopOk(t: seq<Block>, s: Stop) {
    s.page < |t| && s.lower == t[s.page].lo && s.upper + 1 == t[s.page].hi
  }

  ghost predicate PathOk(t: seq<Block>, root: PageId, path: seq<Stop>) {
    && (forall i :: 0 <= i < |path| ==> StopOk(t, path[i]))
    && (|path| > 0 ==> path[0].page == root)
  }

  predicate Contains(s: Stop, key: Key) {
    s.lower <= key <= s.upper
  }

  /** The fences of the child that the search for `key` picks. */
  function ChildStop(s: Stop, keys: seq<Key>, children: seq<PageId>, key: Key): Stop
    requires ChildPos(keys, key) < |children|
  {
    var pos := ChildPos(keys, key);
    Stop(if pos == 0 then s.lower else keys[pos - 1],
         if pos < |keys| then DecKey(keys[pos]) else s.upper,
         children[pos])
  }

  lemma {:induction false} ChildStopOk(c: Config, t: seq<Block>, root: PageId, s: Stop, key: Key)
    requires TreeOk(c, t, root) && StopOk(t, s) && t[s.page].page.Index? && Contains(s, key)
    ensures var b := t[s.page].page;
            && ChildPos(b.keys, key) < |b.children|
            && StopOk(t, ChildStop(s, b.keys, b.children, key))
            && Contains(ChildStop(s, b.keys, b.children, key), key)
            && t[ChildStop(s, b.keys, b.children, key).page].height < t[s.page].height
  {
    assert PageOk(c, t, s.page);
    ChildCovers(c, t, root, s.page, key);
  }

  /** Climbs until a page on the path covers the key, then descends to the leaf. Entries that the
      descent passes by stay behind it and are cut off at the end. */
  method NextLeafPage(c: Config, t: seq<Block>, root: PageId, start: seq<Stop>, from: nat, nextKey: Key)
    returns (path: seq<Stop>)
    requires TreeOk(c, t, root) && PathOk(t, root, start)
    ensures PathOk(t, root, path) && |path| > 0
    ensures var leaf := path[|path| - 1]; t[leaf.page].page.Leaf? && Contains(leaf, nextKey)
  {
    path := start;
    var parentIndex: nat := from;
    if parentIndex >= |path| {
      path := [Stop(0, MAX_KEY, root)];
      parentIndex := 0;
    }
    while !Contains(path[parentIndex], nextKey)
      invariant parentIndex < |path| && PathOk(t, root, path)
      decreases parentIndex
    {
      assert parentIndex > 0 by {
        assert StopOk(t, path[0]);
      }
      parentIndex := parentIndex - 1;
    }
    assert StopOk(t, path[parentIndex]);
    while t[path[parentIndex].page].page.Index?
      invariant parentIndex < |path| && PathOk(t, root, path)
      invariant StopOk(t, path[parentIndex]) && Contains(path[parentIndex], nextKey)
      decreases t[path[parentIndex].page].height
    {
      var s := path[parentIndex];
      ChildStopOk(c, t, root, s, nextKey);
      var next := ChildStop(s, t[s.page].page.keys, t[s.page].page.children, nextKey);
      parentIndex := parentIndex + 1;
      path := path[..parentIndex] + [next] + path[parentIndex..];
    }
    path := path[..parentIndex + 1];
  }

  /** The pages lie side by side, from the one that covers `lower` to the one that covers `upper`. */
  ghost predicate Tiles(t: seq<Block>, ps: seq<PageId>, lower: int, upper: int) {
    && |ps| > 0
    && (forall i :: 0 <= i < |ps| ==> ps[i] < |t| && t[ps[i]].page.Leaf?)
    && (forall i :: 0 < i < |ps| ==> t[ps[i - 1]].hi == t[ps[i]].lo)
    && InRange(t[ps[0]], lower) && InRange(t[ps[|ps| - 1]], upper)
  }

  /** The pages visited so far lie side by side from `lower` up to just below `next`. */
  ghost predicate Visited(t: seq<Block>, ps: seq<PageId>, lower: int, next: int) {
    if ps == [] then next == lower
    else next > lower && Tiles(t, ps, lower, next - 1) && t[ps[|ps| - 1]].hi == next
  }

  /** A scan that begins in the middle of a sequence and ends with it finds what is in the middle. */
  lemma {:induction false} MiddleIsSlice(a: seq<Record>, rs: seq<Record>, b: seq<Record>, lo: int, hi: int,
      lower: int, end: int, v: View)
    requires Within(a, 0, lo) && Within(rs, lo, hi) && Within(b, hi, MAX_KEY + 1) && lo <= lower <= end
    ensures Scan(a + rs + b, lower, if hi < end then hi else end, v) == Scan(rs, lower, end, v)
  {
    var cut: int := if hi < end then hi else end;
    ScanConcat(a + rs, b, lower, cut, v);
    ScanConcat(a, rs, lower, cut, v);
    ScanOutside(a, lower, cut, v);
    ScanOutside(b, lower, cut, v);
    ScanSame(rs, lower, cut, lower, end, v);
  }

  /** Between two keys, the leaf that covers the lower one holds all there is up to its end. */
  lemma {:induction false} LeafIsSlice(c: Config, t: seq<Block>, root: PageId, leaf: PageId, lower: Key, end: int,
      v: View)
    requires TreeOk(c, t, root) && leaf < |t| && t[leaf].page.Leaf? && InRange(t[leaf], lower) && lower <= end
    ensures Within(t[leaf].page.records, 0, MAX_KEY + 1)
    ensures Scan(Contents(t, root), lower, if t[leaf].hi < end then t[leaf].hi else end, v)
         == Scan(t[leaf].page.records, lower, end, v)
  {
    CoveringLeafIsUnique(c, t, root, leaf, lower);
    var rs := t[leaf].page.records;
    var a, b := RewriteAround(c, t, root, root, lower, rs);
    assert PageOk(c, t, leaf);
    assert Contents(t, root) == a + rs + b && Within(rs, t[leaf].lo, t[leaf].hi);
    hide TreeOk, BlockOk, Scan, Contents, LeafFor, Under, InRange;
    MiddleIsSlice(a, rs, b, t[leaf].lo, t[leaf].hi, lower, end, v);
  }

  lemma {:induction false} SideBySide(c: Config, t: seq<Block>, root: PageId, p: PageId, q: PageId, key: Key)
    requires TreeOk(c, t, root) && p < |t| && q < |t| && t[p].page.Leaf? && t[q].page.Leaf?
    requires t[p].hi == key && InRange(t[q], key)
    ensures t[q].lo == key
  {
    assert PageOk(c, t, p) && PageOk(c, t, q);
    if t[q].lo < key {
      LevelsAreApart(c, t, root, p, q, key - 1);
    }
  }

  /** The tiles between two keys are exactly the leaves whose range meets the interval, each once. */
  lemma {:induction false} TilesAreTheOverlapping(c: Config, t: seq<Block>, root: PageId, ps: seq<PageId>,
      lower: Key, upper: Key, p: PageId)
    requires TreeOk(c, t, root) && Tiles(t, ps, lower, upper) && lower <= upper
    requires p < |t| && t[p].page.Leaf?
    ensures p in ps <==> t[p].lo <= upper && lower < t[p].hi
    ensures forall i, j :: 0 <= i < j < |ps| ==> ps[i] != ps[j]
  {
    forall i, j | 0 <= i < j < |ps|
      ensures t[ps[i]].hi <= t[ps[j]].lo && ps[i] != ps[j]
    {
      TilesAscend(c, t, root, ps, lower, upper, i, j);
    }
    if t[p].lo <= upper && lower < t[p].hi {
      var key := if t[p].lo < lower then lower else t[p].lo;
      assert PageOk(c, t, p);
      var i := TileOf(c, t, root, ps, lower, upper, key);
      assert PageOk(c, t, ps[i]);
      LevelsAreApart(c, t, root, p, ps[i], key);
    }
    if p in ps {
      var i :| 0 <= i < |ps| && ps[i] == p;
      TileMeets(c, t, root, ps, lower, upper, i);
    }
  }

  lemma {:induction false} TileMeets(c: Config, t: seq<Block>, root: PageId, ps: seq<PageId>, lower: int,
      upper: int, i: nat)
    requires TreeOk(c, t, root) && Tiles(t, ps, lower, upper) && lower <= upper && i < |ps|
    ensures t[ps[i]].lo <= upper && lower < t[ps[i]].hi
  {
    assert PageOk(c, t, ps[i]);
    if i > 0 { TilesAscend(c, t, root, ps, lower, upper, 0, i); }
    if i < |ps| - 1 { TilesAscend(c, t, root, ps, lower, upper, i, |ps| - 1); }
  }

  lemma {:induction false} TilesAscend(c: Config, t: seq<Block>, root: PageId, ps: seq<PageId>, lower: int,
      upper: int, i: nat, j: nat)
    requires TreeOk(c, t, root) && Tiles(t, ps, lower, upper) && i < j < |ps|
    ensures t[ps[i]].hi <= t[ps[j]].lo && ps[i] != ps[j]
  {
    assert PageOk(c, t, ps[i]);
    if i + 1 < j {
      TilesAscend(c, t, root, ps, lower, upper, i, j - 1);
      assert PageOk(c, t, ps[j - 1]);
    }
  }

  lemma {:induction false} TileOf(c: Config, t: seq<Block>, root: PageId, ps: seq<PageId>, lower: int, upper: int,
      key: int) returns (i: nat)
    requires TreeOk(c, t, root) && Tiles(t, ps, lower, upper) && lower <= key <= upper
    ensures i < |ps| && InRange(t[ps[i]], key)
  {
    var n := |ps| - 1;
    if t[ps[n]].lo <= key {
      i := n;
    } else {
      i := TileOf(c, t, root, ps[..n], lower, t[ps[n]].lo - 1, key) by {
        assert n > 0;
        assert PageOk(c, t, ps[n - 1]);
      }
    }
  }

  /** Where the lazy scan stands: at the leaf that covers its lower bound, next to the last one visited. */
  ghost predicate LazyStop(t: seq<Block>, leaf: Stop, lower: Key, visited: seq<PageId>) {
    && StopOk(t, leaf) && t[leaf.page].page.Leaf? && Contains(leaf, lower)
    && (visited != [] ==> t[leaf.page].lo == lower)
  }

  /** One leaf further: what it adds to the results and to the visited pages. */
  lemma {:induction false} LazyStep(c: Config, t: seq<Block>, root: PageId, orgLower: Key, lower: Key, upper: Key,
      v: View, leaf: Stop, visited: seq<PageId>)
    requires TreeOk(c, t, root) && AllChains(t) && orgLower <= lower <= upper
    requires LazyStop(t, leaf, lower, visited) && Visited(t, visited, orgLower, lower)
    ensures var end := if leaf.upper < upper then leaf.upper + 1 else upper + 1;
            && leaf.page < |t| && t[leaf.page].page.Leaf? && lower <= leaf.upper
            && Within(t[leaf.page].page.records, 0, MAX_KEY + 1) && Chains(t[leaf.page].page.records)
            && Scan(Contents(t, root), orgLower, lower, v) + Scan(t[leaf.page].page.records, lower, upper + 1, v)
               == Scan(Contents(t, root), orgLower, end, v)
            && Visited(t, visited + [leaf.page], orgLower, leaf.upper + 1)
            && (leaf.upper >= upper ==> Tiles(t, visited + [leaf.page], orgLower, upper))
  {
    hide Scan;
    var all := Contents(t, root);
    var end: int := if leaf.upper < upper then leaf.upper + 1 else upper + 1;
    PageWithin(c, t, root, root);
    LeafIsSlice(c, t, root, leaf.page, lower, upper + 1, v);
    ScanSplit(all, orgLower, lower, end, v);
    hide TreeOk, AllChains, Contents, Within;
    assert Visited(t, visited + [leaf.page], orgLower, leaf.upper + 1);
  }

  ghost predicate LazyPath(t: seq<Block>, root: PageId, path: seq<Stop>, lower: Key, visited: seq<PageId>) {
    PathOk(t, root, path) && |path| > 0 && LazyStop(t, path[|path| - 1], lower, visited)
  }

  /** The first leaf, or the one after the last. */
  method LazyNext(c: Config, t: seq<Block>, root: PageId, start: seq<Stop>, from: nat, lower: Key,
                  ghost visited: seq<PageId>)
    returns (path: seq<Stop>)
    requires TreeOk(c, t, root) && PathOk(t, root, start)
    requires visited == [] || (var p := visited[|visited| - 1]; p < |t| && t[p].page.Leaf? && t[p].hi == lower)
    ensures LazyPath(t, root, path, lower, visited)
  {
    path := NextLeafPage(c, t, root, start, from, lower);
    assert StopOk(t, path[|path| - 1]);
    if visited != [] {
      SideBySide(c, t, root, visited[|visited| - 1], path[|path| - 1].page, lower);
    }
  }

  /** The lazy scan returns exactly the visible records of the interval, in order; it visits every
      overlapping leaf once, and its lower bound strictly rises. */
  method RangeQuery(c: Config, t: seq<Block>, root: PageId, orgLower: Key, upper: Key, v: View, coins: Coins)
    returns (results: seq<Match>, visited: seq<PageId>)
    requires TreeOk(c, t, root) && AllChains(t) && orgLower <= upper
    ensures results == Scan(Contents(t, root), orgLower, upper + 1, v)
    ensures Tiles(t, visited, orgLower, upper)
  {
    var lower := orgLower;
    results, visited := [], [];
    var path := LazyNext(c, t, root, [], 0, orgLower, visited);
    NothingBelow(c, t, root, orgLower, v);
    hide TreeOk, AllChains, Chains, Contents, Within, Scan, Visited, Tiles;
    while true
      invariant orgLower <= lower <= upper
      invariant LazyPath(t, root, path, lower, visited)
      invariant results == Scan(Contents(t, root), orgLower, lower, v)
      invariant Visited(t, visited, orgLower, lower)
      decreases MAX_KEY - lower
    {
      var leaf := path[|path| - 1];
      path := path[..|path| - 1];
      LazyStep(c, t, root, orgLower, lower, upper, v, leaf, visited);
      var ms := LeafResults(t[leaf.page].page.records, lower, upper, v, coins);
      results := results + ms;
      visited := visited + [leaf.page];
      if leaf.upper == MAX_KEY {
        break;
      }
      lower := IncKey(leaf.upper);
      if lower > upper {
        break;
      }
      path := LazyNext(c, t, root, path, |path| - 1, lower, visited);
    }
  }

  lemma {:induction false} NothingBelow(c: Config, t: seq<Block>, root: PageId, lower: Key, v: View)
    requires TreeOk(c, t, root)
    ensures Scan(Contents(t, root), lower, lower, v) == [] && Visited(t, [], lower, lower)
  {
    ScanOutside(Contents(t, root), lower, lower, v);
  }

  // ----- the breadth-first scan -----------------------------------------------------------

  /** The children of an index page that the breadth-first scan goes on with. */
  function Overlapping(keys: seq<Key>, children: seq<PageId>, lower: Key, upper: Key): seq<PageId>
    requires |children| == |keys| + 1 && LowerBound(keys, lower) <= LowerBound(keys, IncKey(upper))
  {
    children[LowerBound(keys, lower)..LowerBound(keys, IncKey(upper)) + 1]
  }

  lemma {:induction false} BoundsInOrder(keys: seq<Key>, k: Key, l: Key)
    requires k <= l
    ensures LowerBound(keys, k) <= LowerBound(keys, l)
  {
    var i, j := LowerBound(keys, k), LowerBound(keys, l);
    var next := if j < |keys| then keys[j] else MAX_KEY;
  }

  /** Leaving out the children before and after changes no scan of the interval. */
  lemma {:induction false} OverlappingSuffice(c: Config, t: seq<Block>, root: PageId, p: PageId, lower: Key,
      upper: Key, v: View)
    requires TreeOk(c, t, root) && p < |t| && t[p].page.Index? && lower <= upper
    ensures var b := t[p].page;
            && |b.children| == |b.keys| + 1 && t[p].height > 0
            && LowerBound(b.keys, lower) <= LowerBound(b.keys, IncKey(upper))
            && Level(t, Overlapping(b.keys, b.children, lower, upper), t[p].height - 1)
            && Scan(Below(t, Overlapping(b.keys, b.children, lower, upper), t[p].height - 1), lower, upper + 1, v)
               == Scan(Under(t, p, t[p].height), lower, upper + 1, v)
  {
    hide Scan, Below, LowerBound;
    assert PageOk(c, t, p);
    var keys, ch, h := t[p].page.keys, t[p].page.children, t[p].height - 1;
    var first, last := LowerBound(keys, lower), LowerBound(keys, IncKey(upper));
    BoundsInOrder(keys, lower, IncKey(upper));
    ChildrenLevel(c, t, t[p]);
    ChildrenWithin(c, t, root, p, 0, first);
    ChildrenWithin(c, t, root, p, last + 1, |ch|);
    assert ch[0..first] == ch[..first] && ch[last + 1..|ch|] == ch[last + 1..];
    assert first > 0 ==> Fence(t[p], first) == keys[first - 1];
    assert last < |keys| ==> Fence(t[p], last + 1) == keys[last];
    DroppedAreOutside(t, ch, first, last, h, lower, upper, v,
                      Fence(t[p], 0), Fence(t[p], first), Fence(t[p], last + 1), Fence(t[p], |ch|));
  }

  lemma {:induction false} DroppedAreOutside(t: seq<Block>, ch: seq<PageId>, first: nat, last: nat, h: nat,
      lower: Key, upper: Key, v: View,
                                             a: int, b: int, d: int, e: int)
    requires first <= last < |ch|
    requires Within(Below(t, ch[..first], h), a, b) && Within(Below(t, ch[last + 1..], h), d, e)
    requires first == 0 || b <= lower
    requires last + 1 == |ch| || d > upper
    ensures Scan(Below(t, ch[first..last + 1], h), lower, upper + 1, v) == Scan(Below(t, ch, h), lower, upper + 1, v)
  {
    hide Scan;
    assert Below(t, [], h) == [];
    hide Below;
    var mid := ch[first..last + 1];
    assert ch == ch[..first] + (mid + ch[last + 1..]);
    BelowConcat(t, ch[..first], mid + ch[last + 1..], h);
    BelowConcat(t, mid, ch[last + 1..], h);
    var l, m, r := Below(t, ch[..first], h), Below(t, mid, h), Below(t, ch[last + 1..], h);
    ScanConcat(l, m + r, lower, upper + 1, v);
    ScanConcat(m, r, lower, upper + 1, v);
    ScanOutside(l, lower, upper + 1, v);
    ScanOutside(r, lower, upper + 1, v);
  }

  /** What the scan of the interval finds below some pages of one level. */
  ghost function Found(t: seq<Block>, ps: seq<PageId>, h: nat, lower: Key, upper: Key, v: View): seq<Match> {
    Scan(Below(t, ps, h), lower, upper + 1, v)
  }

  lemma {:induction false} FoundConcat(t: seq<Block>, ps: seq<PageId>, qs: seq<PageId>, h: nat, lower: Key,
      upper: Key, v: View)
    ensures Found(t, ps + qs, h, lower, upper, v) == Found(t, ps, h, lower, upper, v) + Found(t, qs, h, lower, upper, v)
  {
    hide Scan, Below;
    BelowConcat(t, ps, qs, h);
    ScanConcat(Below(t, ps, h), Below(t, qs, h), lower, upper + 1, v);
  }

  lemma {:induction false} Associate(a: seq<Match>, b: seq<Match>, d: seq<Match>)
    ensures (a + b) + d == a + (b + d)
  {
  }

  lemma {:induction false} FoundHead(t: seq<Block>, ps: seq<PageId>, h: nat, lower: Key, upper: Key, v: View)
    requires ps != []
    ensures Found(t, ps, h, lower, upper, v)
         == Scan(Under(t, ps[0], h), lower, upper + 1, v) + Found(t, ps[1..], h, lower, upper, v)
  {
    hide Scan, Below;
    assert ps == [ps[0]] + ps[1..];
    FoundConcat(t, [ps[0]], ps[1..], h, lower, upper, v);
    BelowOne(t, ps[0], h);
  }

  /** The queue holds the rest `front` of one level, followed by what was kept of the next; leaves
      are only found on the last level. Nothing that the scan must see is left out. */
  ghost predicate Queued(t: seq<Block>, root: PageId, lower: Key, upper: Key, v: View,
                         leaves: seq<PageId>, front: seq<PageId>, back: seq<PageId>, h: nat)
    requires root < |t|
  {
    && Level(t, front, h) && Level(t, leaves, 0)
    && (if h > 0
        then Level(t, back, h - 1) && leaves == []
             && Found(t, back, h - 1, lower, upper, v) + Found(t, front, h, lower, upper, v)
                == FoundInAll(t, root, lower, upper, v)
        else back == []
             && Found(t, leaves, 0, lower, upper, v) + Found(t, front, 0, lower, upper, v)
                == FoundInAll(t, root, lower, upper, v))
  }

  ghost function FoundInAll(t: seq<Block>, root: PageId, lower: Key, upper: Key, v: View): seq<Match>
    requires root < |t|
  {
    Scan(Contents(t, root), lower, upper + 1, v)
  }

  lemma {:induction false} QueueRoot(t: seq<Block>, root: PageId, lower: Key, upper: Key, v: View)
    requires root < |t|
    ensures Queued(t, root, lower, upper, v, [], [root], [], t[root].height)
  {
    var h := t[root].height;
    BelowOne(t, root, h);
    assert Found(t, [root], h, lower, upper, v) == FoundInAll(t, root, lower, upper, v);
    if h > 0 { assert Found(t, [], h - 1, lower, upper, v) == []; }
    assert Found(t, [], 0, lower, upper, v) == [];
  }

  /** An index page is replaced by those of its children that the scan goes on with. */
  lemma {:induction false} QueueIndex(c: Config, t: seq<Block>, root: PageId, lower: Key, upper: Key, v: View,
                                      front: seq<PageId>, back: seq<PageId>, h: nat)
    requires TreeOk(c, t, root) && lower <= upper && Queued(t, root, lower, upper, v, [], front, back, h)
    requires front != [] && front[0] < |t| && t[front[0]].page.Index?
    ensures var b := t[front[0]].page;
            && |b.children| == |b.keys| + 1
            && LowerBound(b.keys, lower) <= LowerBound(b.keys, IncKey(upper))
            && Queued(t, root, lower, upper, v, [], front[1..], back + Overlapping(b.keys, b.children, lower, upper), h)
  {
    hide Scan, Below, LowerBound, FoundInAll;
    var p := front[0];
    assert PageOk(c, t, p);
    OverlappingSuffice(c, t, root, p, lower, upper, v);
    var kept := Overlapping(t[p].page.keys, t[p].page.children, lower, upper);
    FoundConcat(t, back, kept, h - 1, lower, upper, v);
    FoundHead(t, front, h, lower, upper, v);
    Associate(Found(t, back, h - 1, lower, upper, v), Found(t, kept, h - 1, lower, upper, v),
              Found(t, front[1..], h, lower, upper, v));
  }

  lemma {:induction false} QueueLeaf(t: seq<Block>, root: PageId, lower: Key, upper: Key, v: View,
                                     leaves: seq<PageId>, front: seq<PageId>)
    requires root < |t| && Queued(t, root, lower, upper, v, leaves, front, [], 0)
    requires front != []
    ensures Queued(t, root, lower, upper, v, leaves + [front[0]], front[1..], [], 0)
  {
    hide Scan, Below, Found, FoundInAll;
    assert front == [front[0]] + front[1..];
    FoundConcat(t, leaves, [front[0]], 0, lower, upper, v);
    FoundConcat(t, [front[0]], front[1..], 0, lower, upper, v);
    Associate(Found(t, leaves, 0, lower, upper, v), Found(t, [front[0]], 0, lower, upper, v),
              Found(t, front[1..], 0, lower, upper, v));
  }

  lemma {:induction false} FoundNowhere(t: seq<Block>, h: nat, lower: Key, upper: Key, v: View)
    ensures Found(t, [], h, lower, upper, v) == []
  {
  }

  /** Leaves turn up when no index page is left, index pages before any leaf. */
  lemma {:induction false} QueueFront(c: Config, t: seq<Block>, root: PageId, lower: Key, upper: Key, v: View,
                                      leaves: seq<PageId>, front: seq<PageId>, back: seq<PageId>, h: nat)
    requires TreeOk(c, t, root) && Queued(t, root, lower, upper, v, leaves, front, back, h) && front != []
    ensures front[0] < |t|
    ensures t[front[0]].page.Leaf? ==> h == 0 && back == []
    ensures t[front[0]].page.Index? ==> leaves == [] && |t[front[0]].page.children| == |t[front[0]].page.keys| + 1
  {
    hide Scan, Below, Found, FoundInAll;
    assert PageOk(c, t, front[0]);
  }

  /** When a level is used up, the queue holds the next one. */
  lemma {:induction false} QueueTurn(t: seq<Block>, root: PageId, lower: Key, upper: Key, v: View,
                                     leaves: seq<PageId>, back: seq<PageId>, h: nat)
    requires root < |t| && Queued(t, root, lower, upper, v, leaves, [], back, h) && back != []
    ensures h > 0 && Queued(t, root, lower, upper, v, leaves, back, [], h - 1)
  {
    hide Scan, Below, Found, FoundInAll;
    FoundNowhere(t, h, lower, upper, v);
    FoundNowhere(t, h - 1, lower, upper, v);
    if h > 1 { FoundNowhere(t, h - 2, lower, upper, v); }
  }

  lemma {:induction false} QueueDone(t: seq<Block>, root: PageId, lower: Key, upper: Key, v: View,
      leaves: seq<PageId>, h: nat)
    requires root < |t| && Queued(t, root, lower, upper, v, leaves, [], [], h)
    ensures Level(t, leaves, 0)
    ensures Found(t, leaves, 0, lower, upper, v) == FoundInAll(t, root, lower, upper, v)
  {
    hide Scan, Below, Found, FoundInAll;
    FoundNowhere(t, h, lower, upper, v);
    FoundNowhere(t, 0, lower, upper, v);
    if h > 0 { FoundNowhere(t, h - 1, lower, upper, v); }
  }

  /** Level by level from the root, keeping only the children that may overlap. */
  method TraversalReadRange(c: Config, t: seq<Block>, root: PageId, lower: Key, upper: Key, ghost v: View)
    returns (leaves: seq<PageId>)
    requires TreeOk(c, t, root) && lower <= upper
    ensures Level(t, leaves, 0)
    ensures Found(t, leaves, 0, lower, upper, v) == FoundInAll(t, root, lower, upper, v)
  {
    hide Scan, Below, LowerBound, Found, FoundInAll, Queued;
    var path := [root];
    leaves := [];
    ghost var front, back, h := [root], [], t[root].height;
    QueueRoot(t, root, lower, upper, v);
    while path != []
      invariant path == front + back
      invariant Queued(t, root, lower, upper, v, leaves, front, back, h)
      decreases h, |front|
    {
      if front == [] {
        QueueTurn(t, root, lower, upper, v, leaves, back, h);
        front, back, h := back, [], h - 1;
      }
      var page := path[0];
      path := path[1..];
      assert page == front[0] && path == front[1..] + back;
      QueueFront(c, t, root, lower, upper, v, leaves, front, back, h);
      match t[page].page {
        case Index(keys, children) =>
          QueueIndex(c, t, root, lower, upper, v, front, back, h);
          var firstPos := LowerBound(keys, lower);
          var lastPos := LowerBound(keys, IncKey(upper));
          path := path + children[firstPos..lastPos + 1];
          back := back + Overlapping(keys, children, lower, upper);
        case Leaf(_) =>
          QueueLeaf(t, root, lower, upper, v, leaves, front);
          leaves := leaves + [page];
      }
      front := front[1..];
    }
    QueueDone(t, root, lower, upper, v, leaves, h);
  }

  method SkipTo(rs: seq<Record>, lower: Key, upper: Key) returns (i: nat)
    ensures i <= |rs| && forall j :: 0 <= j < i ==> rs[j].key < lower || upper + 1 <= rs[j].key
    ensures i < |rs| ==> lower <= rs[i].key
  {
    i := 0;
    while i < |rs| && !(lower <= rs[i].key <= upper)
      invariant 0 <= i <= |rs|
      invariant forall j :: 0 <= j < i ==> !(lower <= rs[j].key <= upper)
    {
      i := i + 1;
    }
  }

  /** One more record, which is not visible or lies in the interval. */
  lemma {:induction false} ScanTurn(rs: seq<Record>, i: nat, lower: Key, upper: Key, v: View)
    requires i < |rs| && (Shown(rs[i], v).Some? ==> lower <= rs[i].key <= upper)
    ensures Scan(rs[..i + 1], lower, upper + 1, v) ==
            if Shown(rs[i], v).Some?
            then Scan(rs[..i], lower, upper + 1, v) + [Match(rs[i].key, Shown(rs[i], v).value.payload)]
            else Scan(rs[..i], lower, upper + 1, v)
  {
    ScanNext(rs, i, lower, upper + 1, v);
    hide Scan;
  }

  /** One leaf of the breadth-first scan: skip to the interval, look up, stop behind it. */
  method LeafMatches(rs: seq<Record>, lower: Key, upper: Key, v: View, coins: Coins) returns (ms: seq<Match>)
    requires Within(rs, 0, MAX_KEY + 1) && Chains(rs) && lower <= upper
    ensures ms == Scan(rs, lower, upper + 1, v)
  {
    var from := SkipTo(rs, lower, upper);
    var i := from;
    ms := [];
    ScanOutside(rs[..i], lower, upper + 1, v);
    hide Scan, Hit, Within, Agreement.Shown;
    while i < |rs|
      invariant from <= i <= |rs|
      invariant ms == Scan(rs[..i], lower, upper + 1, v)
    {
      var found := Agreement.Look(v.kind, rs[i].log, coins(rs[i].key), v.version);
      if found.Some? && !(lower <= rs[i].key <= upper) {
        break;
      }
      ScanTurn(rs, i, lower, upper, v);
      if found.Some? { ms := ms + [Match(rs[i].key, found.value.payload)]; }
      i := i + 1;
    }
    BehindIsOutside(rs, from, i, lower, upper);
    NothingAfter(rs, i, lower, upper, v);
  }

  /** A record outside the interval that follows one not below it ends the interval. */
  lemma {:induction false} BehindIsOutside(rs: seq<Record>, from: nat, i: nat, lower: Key, upper: Key)
    requires Within(rs, 0, MAX_KEY + 1) && from <= i <= |rs|
    requires from < |rs| ==> lower <= rs[from].key
    requires i < |rs| ==> rs[i].key < lower || upper < rs[i].key
    ensures forall j :: i <= j < |rs| ==> rs[j].key < lower || upper < rs[j].key
  {
  }

  lemma {:induction false} NothingAfter(rs: seq<Record>, i: nat, lower: Key, upper: Key, v: View)
    requires i <= |rs|
    requires forall j :: i <= j < |rs| ==> rs[j].key < lower || upper < rs[j].key
    ensures Scan(rs[..i], lower, upper + 1, v) == Scan(rs, lower, upper + 1, v)
  {
    hide Scan;
    assert rs == rs[..i] + rs[i..];
    ScanConcat(rs[..i], rs[i..], lower, upper + 1, v);
    ScanOutside(rs[i..], lower, upper + 1, v);
  }

  lemma {:induction false} FoundNext(c: Config, t: seq<Block>, root: PageId, leaves: seq<PageId>, i: nat,
      lower: Key, upper: Key, v: View)
    requires TreeOk(c, t, root) && Level(t, leaves, 0) && i < |leaves|
    ensures var page := t[leaves[i]].page;
            && page.Leaf? && Within(page.records, 0, MAX_KEY + 1)
            && Found(t, leaves[..i + 1], 0, lower, upper, v)
               == Found(t, leaves[..i], 0, lower, upper, v) + Scan(page.records, lower, upper + 1, v)
  {
    assert PageOk(c, t, leaves[i]);
    PageWithin(c, t, root, leaves[i]);
    FoundConcat(t, leaves[..i], [leaves[i]], 0, lower, upper, v);
    assert leaves[..i + 1] == leaves[..i] + [leaves[i]];
    hide Scan, TreeOk, BlockOk;
    BelowOne(t, leaves[i], 0);
  }

  /** The breadth-first scan returns what the lazy scan returns. */
  method RangeBreadthFirst(c: Config, t: seq<Block>, root: PageId, lower: Key, upper: Key, v: View, coins: Coins)
    returns (results: seq<Match>)
    requires TreeOk(c, t, root) && AllChains(t) && lower <= upper
    ensures results == Scan(Contents(t, root), lower, upper + 1, v)
  {
    var leaves := TraversalReadRange(c, t, root, lower, upper, v);
    hide Scan, Found;
    results := [];
    FoundNowhere(t, 0, lower, upper, v);
    var i := 0;
    while i < |leaves|
      invariant 0 <= i <= |leaves|
      invariant results == Found(t, leaves[..i], 0, lower, upper, v)
    {
      FoundNext(c, t, root, leaves, i, lower, upper, v);
      var ms := LeafMatches(t[leaves[i]].page.records, lower, upper, v, coins);
      results := results + ms;
      i := i + 1;
    }
    assert leaves[..|leaves|] == leaves;
  }

  /** Both scans of a tree return the same records, in the same order. */
  method ScansAgree(c: Config, t: seq<Block>, root: PageId, lower: Key, upper: Key, v: View, coins: Coins)
    returns (lazy: seq<Match>, breadthFirst: seq<Match>)
    requires TreeOk(c, t, root) && AllChains(t) && lower <= upper
    ensures lazy == breadthFirst && Rising(lazy)
    ensures forall m :: m in lazy <==>
      exists i :: 0 <= i < |Contents(t, root)| && Hit(Contents(t, root)[i], lower, upper + 1, v) == [m]
  {
    var visited;
    lazy, visited := RangeQuery(c, t, root, lower, upper, v, coins);
    breadthFirst := RangeBreadthFirst(c, t, root, lower, upper, v, coins);
    PageWithin(c, t, root, root);
    hide Hit, Contents, Scan, TreeOk;
    ScanRises(Contents(t, root), lower, upper + 1, v);
    forall m
      ensures m in lazy <==>
        exists i :: 0 <= i < |Contents(t, root)| && Hit(Contents(t, root)[i], lower, upper + 1, v) == [m]
    {
      ScanHolds(Contents(t, root), lower, upper + 1, v, m);
    }
  }
}
