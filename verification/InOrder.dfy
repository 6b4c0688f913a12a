/** The records of a tree from left to right: what the splits leave alone, and what a write to the
    covering leaf does to them. */
module InOrder {
  import opened History
  import opened Tree

  /** The records below one page of height `h`, from left to right. */
  ghost function Under(t: seq<Block>, p: PageId, h: nat): seq<Record>
    decreases h, 0
  {
    if p >= |t| then []
    else
      match t[p].page
      case Leaf(records) => records
      case Index(_, children) => if h == 0 then [] else Below(t, children, h - 1)
  }

  /** The records below several pages of height `h`. */
  ghost function Below(t: seq<Block>, ps: seq<PageId>, h: nat): seq<Record>
    decreases h, 1, |ps|
  {
    if ps == [] then [] else Under(t, ps[0], h) + Below(t, ps[1..], h)
  }

  ghost function Contents(t: seq<Block>, root: PageId): seq<Record>
    requires root < |t|
  {
    Under(t, root, t[root].height)
  }

  lemma {:induction false} BelowConcat(t: seq<Block>, ps: seq<PageId>, qs: seq<PageId>, h: nat)
    ensures Below(t, ps + qs, h) == Below(t, ps, h) + Below(t, qs, h)
    decreases |ps|
  {
    if ps == [] {
      assert ps + qs == qs;
    } else {
      assert (ps + qs)[1..] == ps[1..] + qs;
      BelowConcat(t, ps[1..], qs, h);
    }
  }

  lemma {:induction false} BelowOne(t: seq<Block>, p: PageId, h: nat)
    ensures Below(t, [p], h) == Under(t, p, h)
  {
    assert [p][1..] == [];
  }

  lemma {:induction false} BelowTwo(t: seq<Block>, p: PageId, q: PageId, h: nat)
    ensures Below(t, [p, q], h) == Under(t, p, h) + Under(t, q, h)
  {
    hide Under;
    assert [p, q][1..] == [q];
    BelowOne(t, q, h);
  }

  ghost predicate Level(t: seq<Block>, ps: seq<PageId>, h: nat) {
    forall i :: 0 <= i < |ps| ==> ps[i] < |t| && t[ps[i]].height == h
  }

  lemma {:induction false} ChildrenLevel(c: Config, t: seq<Block>, b: Block)
    requires BlockOk(c, t, b) && b.page.Index?
    ensures Level(t, b.page.children, b.height - 1)
  {
    forall i | 0 <= i < |b.page.children|
      ensures b.page.children[i] < |t| && t[b.page.children[i]].height == b.height - 1
    {
      assert ChildOk(t, b, i);
    }
  }

  // ----- order and ranges -----------------------------------------------------------------

  ghost predicate Within(rs: seq<Record>, lo: int, hi: int) {
    && (forall i, j :: 0 <= i < j < |rs| ==> rs[i].key < rs[j].key)
    && (forall i :: 0 <= i < |rs| ==> lo <= rs[i].key < hi)
  }

  lemma {:induction false} WithinConcat(a: seq<Record>, b: seq<Record>, lo: int, mid: int, hi: int)
    requires Within(a, lo, mid) && Within(b, mid, hi) && lo <= mid <= hi
    ensures Within(a + b, lo, hi)
  {
  }

  /** The records below a page ascend and lie in the page's range. */
  lemma {:induction false} PageWithin(c: Config, t: seq<Block>, root: PageId, p: PageId)
    requires TreeOk(c, t, root) && p < |t|
    ensures Within(Under(t, p, t[p].height), t[p].lo, t[p].hi)
    decreases t[p].height, 0
  {
    assert PageOk(c, t, p);
    if t[p].page.Index? {
      ChildrenWithin(c, t, root, p, 0, |t[p].page.children|);
      assert t[p].page.children[0..|t[p].page.children|] == t[p].page.children;
    }
  }

  lemma {:induction false} ChildrenWithin(c: Config, t: seq<Block>, root: PageId, p: PageId, i: nat, j: nat)
    requires TreeOk(c, t, root) && p < |t| && t[p].page.Index? && t[p].height > 0
    requires i <= j <= |t[p].page.children| == |t[p].page.keys| + 1
    ensures Within(Below(t, t[p].page.children[i..j], t[p].height - 1), Fence(t[p], i), Fence(t[p], j))
    ensures Fence(t[p], i) <= Fence(t[p], j)
    decreases t[p].height - 1, 1, j - i
  {
    var b := t[p];
    assert PageOk(c, t, p);
    if i < j {
      var x := b.page.children[i];
      assert ChildOk(t, b, i);
      PageWithin(c, t, root, x);
      ChildrenWithin(c, t, root, p, i + 1, j);
      assert b.page.children[i..j][1..] == b.page.children[i + 1..j];
      assert PageOk(c, t, x);
      WithinConcat(Under(t, x, b.height - 1), Below(t, b.page.children[i + 1..j], b.height - 1),
                   Fence(b, i), Fence(b, i + 1), Fence(b, j));
    }
  }

  /** The leaf that covers a key, found from any page that covers it. */
  ghost function LeafFor(c: Config, t: seq<Block>, root: PageId, p: PageId, key: Key): (leaf: PageId)
    requires TreeOk(c, t, root) && p < |t| && InRange(t[p], key)
    ensures leaf < |t| && t[leaf].page.Leaf? && InRange(t[leaf], key)
    decreases t[p].height
  {
    assert PageOk(c, t, p);
    if t[p].page.Leaf? then p
    else
      ChildCovers(c, t, root, p, key);
      LeafFor(c, t, root, t[p].page.children[ChildPos(t[p].page.keys, key)], key)
  }

  /** Any leaf that covers the key is that leaf. */
  lemma {:induction false} CoveringLeafIsUnique(c: Config, t: seq<Block>, root: PageId, p: PageId, key: Key)
    requires TreeOk(c, t, root) && p < |t| && t[p].page.Leaf? && InRange(t[p], key)
    ensures InRange(t[root], key) && LeafFor(c, t, root, root, key) == p
  {
    assert PageOk(c, t, p) && PageOk(c, t, LeafFor(c, t, root, root, key));
    LevelsAreApart(c, t, root, p, LeafFor(c, t, root, root, key), key);
  }

  lemma {:induction false} Regroup(all: seq<Record>, l: seq<Record>, mid: seq<Record>, r: seq<Record>,
                                   a: seq<Record>, x: seq<Record>, b: seq<Record>)
    requires all == l + mid + r && mid == a + x + b
    ensures all == (l + a) + x + (b + r)
  {
  }

  lemma {:induction false} SplitAround(t: seq<Block>, ps: seq<PageId>, i: nat, h: nat)
    requires i < |ps|
    ensures Below(t, ps, h) == Below(t, ps[..i], h) + Under(t, ps[i], h) + Below(t, ps[i + 1..], h)
  {
    assert ps == ps[..i] + ([ps[i]] + ps[i + 1..]);
    BelowConcat(t, ps[..i], [ps[i]] + ps[i + 1..], h);
    assert ([ps[i]] + ps[i + 1..])[1..] == ps[i + 1..];
  }

  // ----- splits keep the sequence ----------------------------------------------------------

  /** Below any page but the one that is split, the records stay the same. */
  lemma {:induction false} SplitKeepsUnder(c: Config, t: seq<Block>, root: PageId, p: PageId, pos: nat, q: PageId)
    requires TreeOk(c, t, root) && CanSplit(t, p, pos) && q < |t| && q != t[p].page.children[pos]
    ensures Under(SplitChild(t, p, pos), q, t[q].height) == Under(t, q, t[q].height)
    decreases t[q].height, 0, 0
  {
    assert PageOk(c, t, q);
    if q == p {
      SplitKeepsParent(c, t, root, p, pos);
    } else if t[q].page.Index? {
      var ch := t[q].page.children;
      ChildrenLevel(c, t, t[q]);
      forall i | 0 <= i < |ch|
        ensures ch[i] != t[p].page.children[pos]
      {
        if ch[i] == t[p].page.children[pos] { UniqueParent(c, t, root, p, pos, q, i); }
      }
      SplitKeepsBelow(c, t, root, p, pos, ch, t[q].height - 1);
    }
  }

  lemma {:induction false} SplitKeepsBelow(c: Config, t: seq<Block>, root: PageId, p: PageId, pos: nat,
      ps: seq<PageId>, h: nat)
    requires TreeOk(c, t, root) && CanSplit(t, p, pos) && Level(t, ps, h)
    requires t[p].page.children[pos] !in ps
    ensures Below(SplitChild(t, p, pos), ps, h) == Below(t, ps, h)
    decreases h, 1, |ps|
  {
    hide TreeOk, SplitChild, Under;
    if ps != [] {
      SplitKeepsUnder(c, t, root, p, pos, ps[0]);
      SplitKeepsBelow(c, t, root, p, pos, ps[1..], h);
    }
  }

  lemma {:induction false} OtherSiblings(c: Config, t: seq<Block>, root: PageId, p: PageId, pos: nat)
    requires TreeOk(c, t, root) && CanSplit(t, p, pos)
    ensures forall j :: 0 <= j < |t[p].page.children| && j != pos ==>
      t[p].page.children[j] != t[p].page.children[pos]
  {
    forall j | 0 <= j < |t[p].page.children| && j != pos
      ensures t[p].page.children[j] != t[p].page.children[pos]
    {
      SiblingsDiffer(c, t, root, p, pos, j);
    }
  }

  lemma {:induction false} SplitKeepsParent(c: Config, t: seq<Block>, root: PageId, p: PageId, pos: nat)
    requires TreeOk(c, t, root) && CanSplit(t, p, pos)
    ensures var u := SplitChild(t, p, pos);
            && t[p].height > 0
            && u[p].page.Index?
            && Below(u, u[p].page.children, t[p].height - 1) == Below(t, t[p].page.children, t[p].height - 1)
    decreases t[p].height - 1, 2, 0
  {
    var u := SplitChild(t, p, pos);
    assert PageOk(c, t, p);
    RootIsNoChild(c, t, root, p, pos);
    var ch := t[p].page.children;
    var x := ch[pos];
    var h := t[p].height - 1;
    ChildrenLevel(c, t, t[p]);
    OtherSiblings(c, t, root, p, pos);
    assert u[p].page.children == ch[..pos] + ([x, |t|] + ch[pos + 1..]);
    hide TreeOk, BlockOk, Below, Under, SplitChild;
    SplitKeepsBelow(c, t, root, p, pos, ch[..pos], h);
    SplitKeepsBelow(c, t, root, p, pos, ch[pos + 1..], h);
    SplitKeepsChild(c, t, root, p, pos);
    Reassembled(t, u, ch, pos, |t|, h);
  }

  lemma {:induction false} Reassembled(t: seq<Block>, u: seq<Block>, ch: seq<PageId>, pos: nat, y: PageId, h: nat)
    requires pos < |ch|
    requires Below(u, ch[..pos], h) == Below(t, ch[..pos], h)
    requires Below(u, ch[pos + 1..], h) == Below(t, ch[pos + 1..], h)
    requires Below(u, [ch[pos], y], h) == Under(t, ch[pos], h)
    ensures Below(u, ch[..pos] + ([ch[pos], y] + ch[pos + 1..]), h) == Below(t, ch, h)
  {
    hide Below, Under;
    SplitAround(t, ch, pos, h);
    BelowConcat(u, ch[..pos], [ch[pos], y] + ch[pos + 1..], h);
    BelowConcat(u, [ch[pos], y], ch[pos + 1..], h);
  }

  lemma {:induction false} ChildIsLower(c: Config, t: seq<Block>, p: PageId)
    requires p < |t| && BlockOk(c, t, t[p]) && t[p].page.Index?
    ensures p !in t[p].page.children
  {
    ChildrenLevel(c, t, t[p]);
  }

  /** The two halves hold together what the page held. */
  lemma {:induction false} SplitKeepsChild(c: Config, t: seq<Block>, root: PageId, p: PageId, pos: nat)
    requires TreeOk(c, t, root) && CanSplit(t, p, pos) && t[p].height > 0
    ensures var x := t[p].page.children[pos];
            Below(SplitChild(t, p, pos), [x, |t|], t[p].height - 1) == Under(t, x, t[p].height - 1)
    decreases t[p].height - 1, 1, 0
  {
    var u := SplitChild(t, p, pos);
    var x := t[p].page.children[pos];
    var h := t[p].height - 1;
    SplitPages(c, t, root, p, pos);
    BelowTwo(u, x, |t|, h);
    if t[x].page.Index? {
      IndexHalves(c, t, root, p, pos);
    } else {
      hide TreeOk, CanSplit, Below;
      var rs := t[x].page.records;
      assert rs == rs[..|rs| / 2] + rs[|rs| / 2..];
    }
  }

  lemma {:induction false} LevelParts(t: seq<Block>, ps: seq<PageId>, m: nat, h: nat, x: PageId)
    requires Level(t, ps, h) && m <= |ps| && x !in ps
    ensures Level(t, ps[..m], h) && Level(t, ps[m..], h) && x !in ps[..m] && x !in ps[m..]
  {
  }

  lemma {:induction false} IndexHalves(c: Config, t: seq<Block>, root: PageId, p: PageId, pos: nat)
    requires TreeOk(c, t, root) && CanSplit(t, p, pos) && t[p].height > 0
    requires t[t[p].page.children[pos]].page.Index?
    ensures var u, x, h := SplitChild(t, p, pos), t[p].page.children[pos], t[p].height - 1;
            Under(u, x, h) + Under(u, |t|, h) == Under(t, x, h)
    decreases t[p].height - 1, 0, 1
  {
    var u := SplitChild(t, p, pos);
    var x := t[p].page.children[pos];
    var h := t[p].height - 1;
    var ch := t[x].page.children;
    var m := |t[x].page.keys| / 2 + 1;
    assert PageOk(c, t, p) && PageOk(c, t, x) && ChildOk(t, t[p], pos);
    SplitPages(c, t, root, p, pos);
    ChildrenLevel(c, t, t[x]);
    ChildIsLower(c, t, x);
    LevelParts(t, ch, m, h - 1, x);
    hide TreeOk, BlockOk, Below, ChildOk, Under, SplitChild, Level;
    SplitKeepsBelow(c, t, root, p, pos, ch[..m], h - 1);
    SplitKeepsBelow(c, t, root, p, pos, ch[m..], h - 1);
    HalvesUnder(t, u, x, |t|, m, h);
  }

  lemma {:induction false} HalvesUnder(t: seq<Block>, u: seq<Block>, x: PageId, y: PageId, m: nat, h: nat)
    requires x < |t| && x < |u| && y < |u| && h > 0 && t[x].page.Index? && u[x].page.Index? && u[y].page.Index?
    requires m <= |t[x].page.children|
    requires u[x].page.children == t[x].page.children[..m] && u[y].page.children == t[x].page.children[m..]
    requires Below(u, u[x].page.children, h - 1) == Below(t, u[x].page.children, h - 1)
    requires Below(u, u[y].page.children, h - 1) == Below(t, u[y].page.children, h - 1)
    ensures Under(u, x, h) + Under(u, y, h) == Under(t, x, h)
  {
    hide Below;
    var ch := t[x].page.children;
    BelowConcat(t, ch[..m], ch[m..], h - 1);
    assert ch == ch[..m] + ch[m..];
  }

  lemma {:induction false} SplitPages(c: Config, t: seq<Block>, root: PageId, p: PageId, pos: nat)
    requires TreeOk(c, t, root) && CanSplit(t, p, pos)
    ensures var u := SplitChild(t, p, pos);
            var x := t[p].page.children[pos];
            && |u| == |t| + 1
            && match t[x].page
               case Leaf(records) =>
                 u[x].page == Leaf(records[..|records| / 2]) && u[|t|].page == Leaf(records[|records| / 2..])
               case Index(keys, children) =>
                 var m := |keys| / 2 + 1;
                 u[x].page.Index? && u[x].page.children == children[..m]
                 && u[|t|].page.Index? && u[|t|].page.children == children[m..]
  {
    RootIsNoChild(c, t, root, p, pos);
    hide TreeOk;
    var (left, sep, right) := SplitBlock(t[t[p].page.children[pos]]);
    var u := SplitChild(t, p, pos);
    assert u[t[p].page.children[pos]] == left && u[|t|] == right;
  }

  /** Splitting a child leaves the in-order sequence of records unchanged. */
  lemma {:induction false} SplitChildKeepsContents(c: Config, t: seq<Block>, root: PageId, p: PageId, pos: nat)
    requires TreeOk(c, t, root) && CanSplit(t, p, pos)
    ensures Contents(SplitChild(t, p, pos), root) == Contents(t, root)
  {
    RootIsNoChild(c, t, root, p, pos);
    SplitKeepsBelow(c, t, root, p, pos, [root], t[root].height);
    BelowOne(t, root, t[root].height);
    BelowOne(SplitChild(t, p, pos), root, t[root].height);
  }

  lemma {:induction false} RootSplitKeepsBelow(c: Config, t: seq<Block>, root: PageId, ps: seq<PageId>, h: nat)
    requires TreeOk(c, t, root) && Divisible(t[root]) && Level(t, ps, h) && root !in ps
    ensures Below(SplitIndexRoot(t, root), ps, h) == Below(t, ps, h)
    decreases h, |ps|
  {
    if ps != [] {
      RootSplitKeepsBelow(c, t, root, ps[1..], h);
      var q := ps[0];
      assert PageOk(c, t, q);
      if t[q].page.Index? {
        ChildrenLevel(c, t, t[q]);
        forall i | 0 <= i < |t[q].page.children|
          ensures t[q].page.children[i] != root
        {
          RootIsNoChild(c, t, root, q, i);
        }
        RootSplitKeepsBelow(c, t, root, t[q].page.children, h - 1);
      }
    }
  }

  lemma {:induction false} RootPages(t: seq<Block>, root: PageId)
    requires root < |t| && Divisible(t[root]) && t[root].page.Index?
    ensures var u := SplitIndexRoot(t, root);
            var n, m := |t|, |t[root].page.keys| / 2 + 1;
            && |u| == n + 2 && u[root].page.Index? && u[n].page.Index? && u[n + 1].page.Index?
            && u[root].page.children == [n, n + 1] && u[root].height == t[root].height + 1
            && m <= |t[root].page.children|
            && u[n].page.children == t[root].page.children[..m] && u[n + 1].page.children == t[root].page.children[m..]
  {
  }

  lemma {:induction false} SplitIndexRootKeepsContents(c: Config, t: seq<Block>, root: PageId)
    requires TreeOk(c, t, root) && Divisible(t[root]) && t[root].page.Index?
    ensures Contents(SplitIndexRoot(t, root), root) == Contents(t, root)
  {
    var u := SplitIndexRoot(t, root);
    var ch := t[root].page.children;
    var m := |t[root].page.keys| / 2 + 1;
    var h := t[root].height;
    var n := |t|;
    assert PageOk(c, t, root);
    ChildrenLevel(c, t, t[root]);
    ChildIsLower(c, t, root);
    RootPages(t, root);
    hide TreeOk, BlockOk, Below, Under, SplitIndexRoot;
    RootSplitKeepsBelow(c, t, root, ch[..m], h - 1);
    RootSplitKeepsBelow(c, t, root, ch[m..], h - 1);
    RootUnder(t, u, root, n, m, h);
  }

  /** A new root over both halves of a page has below it what the page had. */
  lemma {:induction false} RootUnder(t: seq<Block>, u: seq<Block>, root: PageId, n: PageId, m: nat, h: nat)
    requires root < |t| && root < |u| && n + 1 < |u| && h > 0
    requires t[root].page.Index? && u[root].page.Index? && u[n].page.Index? && u[n + 1].page.Index?
    requires m <= |t[root].page.children| && u[root].page.children == [n, n + 1]
    requires u[n].page.children == t[root].page.children[..m] && u[n + 1].page.children == t[root].page.children[m..]
    requires Below(u, u[n].page.children, h - 1) == Below(t, u[n].page.children, h - 1)
    requires Below(u, u[n + 1].page.children, h - 1) == Below(t, u[n + 1].page.children, h - 1)
    ensures Under(u, root, h + 1) == Under(t, root, h)
  {
    hide Below;
    var ch := t[root].page.children;
    BelowTwo(u, n, n + 1, h);
    BelowConcat(t, ch[..m], ch[m..], h - 1);
    assert ch == ch[..m] + ch[m..];
  }

  lemma {:induction false} SplitLeafRootKeepsContents(c: Config, t: seq<Block>, root: PageId)
    requires TreeOk(c, t, root) && Divisible(t[root]) && t[root].page.Leaf?
    ensures Contents(SplitLeafRoot(t, root), |t| + 1) == Contents(t, root)
  {
    var u := SplitLeafRoot(t, root);
    var n := |t|;
    assert PageOk(c, t, root);
    assert u[n + 1].page.children == [root, n];
    BelowTwo(u, root, n, 0);
  }

  // ----- a write to the covering leaf is a write to the sequence ---------------------------

  lemma {:induction false} LowerBoundIs(keys: seq<Key>, k: Key, pos: nat)
    requires Ascending(keys) && pos <= |keys|
    requires forall i :: 0 <= i < pos ==> keys[i] < k
    requires pos < |keys| ==> k <= keys[pos]
    ensures LowerBound(keys, k) == pos
  {
  }

  lemma {:induction false} StartsAbove(b: seq<Record>, lo: int)
    requires Within(b, lo, MAX_KEY + 1)
    ensures b == [] || b[0].key >= lo
  {
  }

  lemma {:induction false} WrittenFrom(rs: seq<Record>, pos: nat, key: Key, op: Op)
    requires pos == LowerBound(Keys(rs), key)
    ensures Written(rs, key, op) == WrittenAt(rs, pos, key, op)
  {
  }

  lemma {:induction false} WrittenInTheMiddle(a: seq<Record>, x: seq<Record>, b: seq<Record>, lo: int, hi: int,
      key: Key, op: Op)
    requires Within(a, 0, lo) && Within(x, lo, hi) && Within(b, hi, MAX_KEY + 1)
    requires 0 <= lo <= key < hi <= MAX_KEY + 1
    ensures Written(a + x + b, key, op) == a + Written(x, key, op) + b
  {
    hide *;
    var pos := LowerBound(Keys(x), key);
    PositionInTheMiddle(a, x, b, lo, hi, key);
    StartsAbove(b, hi);
    WrittenFrom(a + x + b, |a| + pos, key, op);
    WrittenFrom(x, pos, key, op);
    UpdatedInTheMiddle(a, x, b, pos, key, op);
  }

  lemma {:induction false} PositionInTheMiddle(a: seq<Record>, x: seq<Record>, b: seq<Record>, lo: int, hi: int,
      key: Key)
    requires Within(a, 0, lo) && Within(x, lo, hi) && Within(b, hi, MAX_KEY + 1)
    requires 0 <= lo <= key < hi <= MAX_KEY + 1
    ensures LowerBound(Keys(a + x + b), key) == |a| + LowerBound(Keys(x), key)
  {
    WithinConcat(a, x, 0, lo, hi);
    WithinConcat(a + x, b, 0, hi, MAX_KEY + 1);
    LowerBoundIs(Keys(a + x + b), key, |a| + LowerBound(Keys(x), key));
  }

  lemma {:induction false} UpdatedInTheMiddle(a: seq<Record>, x: seq<Record>, b: seq<Record>, pos: nat, key: Key,
      op: Op)
    requires pos <= |x|
    requires pos == |x| ==> b == [] || b[0].key != key
    ensures WrittenAt(a + x + b, |a| + pos, key, op) == a + WrittenAt(x, pos, key, op) + b
  {
    if pos < |x| && x[pos].key == key {
      ReplacedInTheMiddle(a, x, b, pos, Record(key, x[pos].log + [op]));
    } else if op.Push? {
      InsertedInTheMiddle(a, x, b, pos, Record(key, [op]));
    }
  }

  lemma {:induction false} ReplacedInTheMiddle(a: seq<Record>, x: seq<Record>, b: seq<Record>, pos: nat, r: Record)
    requires pos < |x|
    ensures (a + x + b)[|a| + pos := r] == a + x[pos := r] + b
  {
  }

  lemma {:induction false} InsertedInTheMiddle(a: seq<Record>, x: seq<Record>, b: seq<Record>, pos: nat, r: Record)
    requires pos <= |x|
    ensures Inserted(a + x + b, |a| + pos, r) == a + Inserted(x, pos, r) + b
  {
    assert (a + x + b)[..|a| + pos] == a + x[..pos];
    assert (a + x + b)[|a| + pos..] == x[pos..] + b;
  }

  /** Rewriting the records of one leaf replaces exactly its slice of the sequence. */
  lemma {:induction false} FencesWithin(b: Block, i: nat)
    requires b.page.Index? && KeysOk(b, b.page.keys) && b.lo < b.hi && i <= |b.page.keys|
    ensures b.lo <= Fence(b, i) && Fence(b, i + 1) <= b.hi
  {
  }

  lemma {:induction false} RewriteBelow(c: Config, t: seq<Block>, root: PageId, leaf: PageId, rs: seq<Record>,
      ps: seq<PageId>, h: nat)
    requires TreeOk(c, t, root) && leaf < |t| && t[leaf].page.Leaf? && Level(t, ps, h)
    requires forall i :: 0 <= i < |ps| ==> t[ps[i]].hi <= t[leaf].lo || t[leaf].hi <= t[ps[i]].lo
    ensures Below(Rewritten(t, leaf, rs), ps, h) == Below(t, ps, h)
    decreases h, |ps|
  {
    if ps != [] {
      RewriteBelow(c, t, root, leaf, rs, ps[1..], h);
      var q := ps[0];
      assert PageOk(c, t, q) && PageOk(c, t, leaf);
      assert q != leaf;
      if t[q].page.Index? {
        var ch := t[q].page.children;
        ChildrenLevel(c, t, t[q]);
        forall i | 0 <= i < |ch|
          ensures t[ch[i]].hi <= t[leaf].lo || t[leaf].hi <= t[ch[i]].lo
        {
          assert ChildOk(t, t[q], i);
          FencesWithin(t[q], i);
        }
        hide TreeOk, BlockOk;
        RewriteBelow(c, t, root, leaf, rs, ch, h - 1);
      }
    }
  }

  /** What lies to the left and to the right of the covering leaf, and that rewriting the leaf
      replaces exactly the slice in between. */
  lemma {:induction false} RewriteAround(c: Config, t: seq<Block>, root: PageId, p: PageId, key: Key, rs: seq<Record>)
    returns (a: seq<Record>, b: seq<Record>)
    requires TreeOk(c, t, root) && p < |t| && InRange(t[p], key)
    ensures Surrounds(t, p, LeafFor(c, t, root, p, key), rs, a, b)
    decreases t[p].height
  {
    assert PageOk(c, t, p);
    var leaf := LeafFor(c, t, root, p, key);
    if t[p].page.Leaf? {
      a, b := [], [];
      assert t[leaf].page.records == [] + t[leaf].page.records + [];
      assert rs == [] + rs + [];
    } else {
      var i := ChildPos(t[p].page.keys, key);
      ChildCovers(c, t, root, p, key);
      var a', b' := RewriteAround(c, t, root, t[p].page.children[i], key, rs);
      a, b := WidenAround(c, t, root, p, i, leaf, rs, a', b');
    }
  }

  ghost predicate Surrounds(t: seq<Block>, p: PageId, leaf: PageId, rs: seq<Record>, a: seq<Record>, b: seq<Record>) {
    && p < |t| && leaf < |t| && t[leaf].page.Leaf?
    && Under(t, p, t[p].height) == a + t[leaf].page.records + b
    && Under(Rewritten(t, leaf, rs), p, t[p].height) == a + rs + b
    && Within(a, t[p].lo, t[leaf].lo) && Within(b, t[leaf].hi, t[p].hi)
    && t[p].lo <= t[leaf].lo && t[leaf].hi <= t[p].hi
  }

  ghost function Rewritten(t: seq<Block>, leaf: PageId, rs: seq<Record>): seq<Block>
    requires leaf < |t|
  {
    t[leaf := t[leaf].(page := Leaf(rs))]
  }

  lemma {:induction false} WidenAround(c: Config, t: seq<Block>, root: PageId, p: PageId, i: nat, leaf: PageId,
      rs: seq<Record>, a: seq<Record>, b: seq<Record>)
    returns (l: seq<Record>, r: seq<Record>)
    requires TreeOk(c, t, root) && IsChild(t, p, i) && |t[p].page.children| == |t[p].page.keys| + 1
    requires ChildOk(t, t[p], i) && Surrounds(t, t[p].page.children[i], leaf, rs, a, b)
    ensures Surrounds(t, p, leaf, rs, l, r)
  {
    var x := t[p].page.children[i];
    assert PageOk(c, t, p) && PageOk(c, t, x) && PageOk(c, t, leaf);
    var left, right := AroundChild(c, t, root, p, i, leaf, rs);
    hide TreeOk, Under, BlockOk, Rewritten, RecordsOk;
    WithinConcat(left, a, t[p].lo, t[x].lo, t[leaf].lo);
    WithinConcat(b, right, t[leaf].hi, t[x].hi, t[p].hi);
    hide Within;
    var u := Rewritten(t, leaf, rs);
    Regroup(Under(t, p, t[p].height), left, Under(t, x, t[x].height), right, a, t[leaf].page.records, b);
    Regroup(Under(u, p, t[p].height), left, Under(u, x, t[x].height), right, a, rs, b);
    l, r := left + a, b + right;
  }

  /** The records beside a child that holds the leaf: the rewriting leaves them alone. */
  lemma {:induction false} AroundChild(c: Config, t: seq<Block>, root: PageId, p: PageId, i: nat, leaf: PageId,
      rs: seq<Record>)
    returns (left: seq<Record>, right: seq<Record>)
    requires TreeOk(c, t, root) && IsChild(t, p, i) && |t[p].page.children| == |t[p].page.keys| + 1
    requires ChildOk(t, t[p], i) && leaf < |t| && t[leaf].page.Leaf?
    requires t[t[p].page.children[i]].lo <= t[leaf].lo && t[leaf].hi <= t[t[p].page.children[i]].hi
    ensures var u := Rewritten(t, leaf, rs);
            var x := t[p].page.children[i];
            && Under(t, p, t[p].height) == left + Under(t, x, t[x].height) + right
            && Under(u, p, t[p].height) == left + Under(u, x, t[x].height) + right
            && Within(left, t[p].lo, t[x].lo) && Within(right, t[x].hi, t[p].hi)
            && t[p].lo <= t[x].lo && t[x].hi <= t[p].hi
  {
    assert PageOk(c, t, p);
    var ch := t[p].page.children;
    var h := t[p].height - 1;
    var u := Rewritten(t, leaf, rs);
    assert Under(t, p, t[p].height) == Below(t, ch, h) && Under(u, p, t[p].height) == Below(u, ch, h);
    hide TreeOk, Below, Under, BlockOk, Rewritten;
    left, right := Below(t, ch[..i], h), Below(t, ch[i + 1..], h);
    SiblingsUnchanged(c, t, root, p, i, leaf, rs);
    SplitAround(t, ch, i, h);
    SplitAround(u, ch, i, h);
    assert ch[0..i] == ch[..i] && ch[i + 1..|ch|] == ch[i + 1..];
    ChildrenWithin(c, t, root, p, 0, i);
    ChildrenWithin(c, t, root, p, i + 1, |ch|);
  }

  lemma {:induction false} SiblingsUnchanged(c: Config, t: seq<Block>, root: PageId, p: PageId, i: nat,
      leaf: PageId, rs: seq<Record>)
    requires TreeOk(c, t, root) && IsChild(t, p, i) && leaf < |t| && t[leaf].page.Leaf? && t[p].height > 0
    requires t[t[p].page.children[i]].lo <= t[leaf].lo && t[leaf].hi <= t[t[p].page.children[i]].hi
    ensures var u := Rewritten(t, leaf, rs);
            var ch := t[p].page.children;
            && Below(u, ch[..i], t[p].height - 1) == Below(t, ch[..i], t[p].height - 1)
            && Below(u, ch[i + 1..], t[p].height - 1) == Below(t, ch[i + 1..], t[p].height - 1)
  {
    var ch := t[p].page.children;
    var h := t[p].height - 1;
    assert PageOk(c, t, p);
    ChildrenLevel(c, t, t[p]);
    forall j | 0 <= j < |ch| && j != i
      ensures t[ch[j]].hi <= t[leaf].lo || t[leaf].hi <= t[ch[j]].lo
    {
      assert ChildOk(t, t[p], j) && ChildOk(t, t[p], i);
      FencesAscend(t[p], i, j);
      FencesAscend(t[p], j, i);
    }
    hide TreeOk, BlockOk, Below, Rewritten;
    RewriteBelow(c, t, root, leaf, rs, ch[..i], h);
    RewriteBelow(c, t, root, leaf, rs, ch[i + 1..], h);
  }

  /** A write to a leaf in its range, given what lies around the leaf, is a write to the whole. */
  lemma {:induction false} SurroundedWrite(t: seq<Block>, root: PageId, leaf: PageId, key: Key, op: Op,
      a: seq<Record>, b: seq<Record>)
    requires root < |t| && leaf < |t| && t[leaf].page.Leaf? && InRange(t[leaf], key)
    requires t[root].lo == 0 && t[root].hi == MAX_KEY + 1 && RecordsOk(t[leaf], t[leaf].page.records)
    requires Surrounds(t, root, leaf, Written(t[leaf].page.records, key, op), a, b)
    ensures Contents(Rewritten(t, leaf, Written(t[leaf].page.records, key, op)), root) ==
            Written(Contents(t, root), key, op)
  {
    hide Written, Under;
    WrittenInTheMiddle(a, t[leaf].page.records, b, t[leaf].lo, t[leaf].hi, key, op);
  }

  /** Writing to the leaf that covers the key is writing to the sorted sequence of all records. */
  lemma {:induction false} LeafWriteIsSequenceWrite(c: Config, t: seq<Block>, root: PageId, leaf: PageId, key: Key,
      op: Op)
    requires TreeOk(c, t, root) && leaf < |t| && t[leaf].page.Leaf? && InRange(t[leaf], key)
    ensures Contents(Rewritten(t, leaf, Written(t[leaf].page.records, key, op)), root)
         == Written(Contents(t, root), key, op)
  {
    CoveringLeafIsUnique(c, t, root, leaf, key);
    var a, b := RewriteAround(c, t, root, root, key, Written(t[leaf].page.records, key, op));
    assert PageOk(c, t, leaf);
    hide TreeOk, Written, Contents, LeafFor, Surrounds;
    SurroundedWrite(t, root, leaf, key, op, a, b);
  }
}
