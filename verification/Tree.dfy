/** Pages, the tree they form, and the page splits (node.rs, internal_page.rs, leaf_page.rs and the
    split branches of query.rs). A page address is an index into a sequence of blocks. */
module Tree {
  import opened History

  const MAX_KEY: nat := MAX_U64

  type Key = k: nat | k <= MAX_KEY
  type PageId = nat

  function IncKey(k: Key): Key {
    if k == MAX_KEY then MAX_KEY else k + 1
  }

  function DecKey(k: Key): Key {
    if k == 0 then 0 else k - 1
  }

  /** FAN_OUT and NUM_RECORDS. Smaller pages break the splits (see `SplitsWellExactly`). */
  datatype Config = Config(fanOut: nat, numRecords: nat)

  predicate Sizes(c: Config) {
    c.fanOut >= 5 && c.numRecords >= 3
  }

  /** A record stands for its version chain by the operations that built the chain. */
  datatype Record = Record(key: Key, log: seq<Op>)

  datatype Page = Index(keys: seq<Key>, children: seq<PageId>) | Leaf(records: seq<Record>)

  /** `lo`, `hi` and `height` are bookkeeping: the key range `lo <= k < hi` and the distance to the
      leaves. No operation reads them. */
  datatype Block = Block(page: Page, lo: nat, hi: nat, height: nat)

  function Len(p: Page): nat {
    match p
    case Index(keys, _) => |keys|
    case Leaf(records) => |records|
  }

  predicate HasOverflow(c: Config, p: Page) {
    Len(p) >= if p.Leaf? then c.numRecords else c.fanOut - 2
  }

  predicate HasUnderflow(c: Config, p: Page) {
    Len(p) < (if p.Leaf? then c.numRecords / 2 else (c.fanOut - 1) / 2) - 1
  }

  /** Where a binary search ends: at the first key that is not below `k`. */
  function LowerBound(keys: seq<Key>, k: Key): (pos: nat)
    ensures pos <= |keys|
    ensures forall i :: 0 <= i < pos ==> keys[i] < k
    ensures pos < |keys| ==> k <= keys[pos]
  {
    if keys == [] || k <= keys[0] then 0 else 1 + LowerBound(keys[1..], k)
  }

  function Keys(records: seq<Record>): (keys: seq<Key>)
    ensures |keys| == |records|
    ensures forall i :: 0 <= i < |records| ==> keys[i] == records[i].key
  {
    seq(|records|, i requires 0 <= i < |records| => records[i].key)
  }

  /** The child an index page sends a key to. */
  function ChildPos(keys: seq<Key>, key: Key): nat {
    LowerBound(keys, IncKey(key))
  }

  ghost predicate Ascending(keys: seq<Key>) {
    forall i, j :: 0 <= i < j < |keys| ==> keys[i] < keys[j]
  }

  ghost predicate InRange(b: Block, key: int) {
    b.lo <= key < b.hi
  }

  ghost predicate RecordsOk(b: Block, records: seq<Record>) {
    && (forall i, j :: 0 <= i < j < |records| ==> records[i].key < records[j].key)
    && (forall i :: 0 <= i < |records| ==> InRange(b, records[i].key))
  }

  /** The separator to the left of child `i`, or the end of the range. */
  ghost function Fence(b: Block, i: nat): nat
    requires b.page.Index? && i <= |b.page.keys| + 1
  {
    if i == 0 then b.lo else if i == |b.page.keys| + 1 then b.hi else b.page.keys[i - 1]
  }

  ghost predicate ChildOk(t: seq<Block>, b: Block, i: nat)
    requires b.page.Index? && i < |b.page.children| == |b.page.keys| + 1
  {
    var x := b.page.children[i];
    x < |t| && t[x].height + 1 == b.height && t[x].lo == Fence(b, i) && t[x].hi == Fence(b, i + 1)
  }

  ghost predicate KeysOk(b: Block, keys: seq<Key>) {
    Ascending(keys) && forall i :: 0 <= i < |keys| ==> b.lo < keys[i] < b.hi && keys[i] < MAX_KEY
  }

  ghost predicate BlockOk(c: Config, t: seq<Block>, b: Block) {
    && b.lo < b.hi <= MAX_KEY + 1
    && match b.page
       case Leaf(records) =>
         b.height == 0 && |records| <= c.numRecords && RecordsOk(b, records)
       case Index(keys, children) =>
         && b.height > 0
         && 1 <= |keys| <= c.fanOut - 2 && |children| == |keys| + 1
         && KeysOk(b, keys)
         && forall i :: 0 <= i < |children| ==> ChildOk(t, b, i)
  }

  ghost predicate PageOk(c: Config, t: seq<Block>, p: PageId)
    requires p < |t|
  {
    BlockOk(c, t, t[p])
  }

  ghost predicate Apart(a: Block, b: Block) {
    a.height == b.height ==> a.hi <= b.lo || b.hi <= a.lo
  }

  ghost predicate RootOk(t: seq<Block>, root: PageId) {
    root < |t| && t[root].lo == 0 && t[root].hi == MAX_KEY + 1
  }

  /** The tree: every block is well formed, blocks of one level have disjoint ranges, no block is
      higher than the root, and only the root may be nearly empty. */
  ghost predicate TreeOk(c: Config, t: seq<Block>, root: PageId) {
    && Sizes(c)
    && RootOk(t, root)
    && (forall p :: 0 <= p < |t| ==> PageOk(c, t, p))
    && (forall p, q :: 0 <= p < q < |t| ==> Apart(t[p], t[q]))
    && (forall p :: 0 <= p < |t| ==> t[p].height <= t[root].height)
    && (forall p :: 0 <= p < |t| && p != root ==> !HasUnderflow(c, t[p].page))
  }

  // ----- search ---------------------------------------------------------------------------

  /** Incrementing with saturation still picks the covering child, also for the largest key,
      because no separator is the largest key. */
  lemma {:induction false} ChildCovers(c: Config, t: seq<Block>, root: PageId, p: PageId, key: Key)
    requires TreeOk(c, t, root) && p < |t| && t[p].page.Index? && InRange(t[p], key)
    ensures var pos := ChildPos(t[p].page.keys, key);
            && pos < |t[p].page.children| == |t[p].page.keys| + 1
            && ChildOk(t, t[p], pos) && InRange(t[t[p].page.children[pos]], key)
  {
    assert PageOk(c, t, p);
    assert ChildOk(t, t[p], ChildPos(t[p].page.keys, key));
  }

  /** The saturating search errs exactly when the largest key is itself a separator. */
  lemma {:induction false} SaturationIsSafeExactly(keys: seq<Key>)
    requires Ascending(keys)
    ensures (forall key: Key ::
               var pos := ChildPos(keys, key);
               (pos > 0 ==> keys[pos - 1] <= key) && (pos < |keys| ==> key < keys[pos]))
            <==> MAX_KEY !in keys
  {
    if MAX_KEY in keys {
      var i :| 0 <= i < |keys| && keys[i] == MAX_KEY;
      var pos := ChildPos(keys, MAX_KEY);
      assert i >= pos;
      assert !(pos < |keys| ==> MAX_KEY < keys[pos]);
    }
  }

  lemma {:induction false} LevelsAreApart(c: Config, t: seq<Block>, root: PageId, p: PageId, q: PageId, key: int)
    requires TreeOk(c, t, root) && p < |t| && q < |t| && t[p].height == t[q].height
    requires InRange(t[p], key) && InRange(t[q], key)
    ensures p == q
  {
    if p < q { NotInBoth(t, p, q, key); }
    if q < p { NotInBoth(t, q, p, key); }
  }

  lemma {:induction false} NotInBoth(t: seq<Block>, p: PageId, q: PageId, key: int)
    requires p < q < |t| && t[p].height == t[q].height
    requires forall a, b :: 0 <= a < b < |t| ==> Apart(t[a], t[b])
    ensures !InRange(t[p], key) || !InRange(t[q], key)
  {
    assert Apart(t[p], t[q]);
  }

  lemma {:induction false} UniqueParent(c: Config, t: seq<Block>, root: PageId, p: PageId, i: nat, q: PageId, j: nat)
    requires TreeOk(c, t, root) && p < |t| && q < |t| && t[p].page.Index? && t[q].page.Index?
    requires i < |t[p].page.children| && j < |t[q].page.children|
    requires t[p].page.children[i] == t[q].page.children[j]
    ensures p == q && i == j
  {
    var x := t[p].page.children[i];
    assert PageOk(c, t, p) && PageOk(c, t, q);
    assert ChildOk(t, t[p], i) && ChildOk(t, t[q], j);
    assert PageOk(c, t, x);
    LevelsAreApart(c, t, root, p, q, t[x].lo);
    FencesAscend(t[p], i, j);
    FencesAscend(t[p], j, i);
  }

  lemma {:induction false} FencesAscend(b: Block, i: nat, j: nat)
    requires b.page.Index? && KeysOk(b, b.page.keys) && i <= |b.page.keys| && j <= |b.page.keys|
    ensures i < j ==> Fence(b, i + 1) <= Fence(b, j)
  {
  }

  lemma {:induction false} RootIsNoChild(c: Config, t: seq<Block>, root: PageId, p: PageId, i: nat)
    requires TreeOk(c, t, root) && p < |t| && t[p].page.Index? && i < |t[p].page.children|
    ensures t[p].page.children[i] < |t| && t[p].page.children[i] != root && t[p].page.children[i] != p
  {
    assert PageOk(c, t, p);
    assert ChildOk(t, t[p], i);
  }

  // ----- splits ---------------------------------------------------------------------------

  /** Splitting one page in the middle: what stays, the promoted key, what moves right. An index
      page gives its middle key away, a leaf keeps it as the first key of the right half. */
  function SplitBlock(b: Block): (r: (Block, Key, Block))
    requires if b.page.Leaf? then |b.page.records| > 1
             else |b.page.keys| > 1 && |b.page.children| == |b.page.keys| + 1
    ensures r.0 == Block(r.0.page, b.lo, r.1, b.height) && r.2 == Block(r.2.page, r.1, b.hi, b.height)
  {
    match b.page
    case Leaf(records) =>
      var mid := |records| / 2;
      (Block(Leaf(records[..mid]), b.lo, records[mid].key, b.height), records[mid].key,
       Block(Leaf(records[mid..]), records[mid].key, b.hi, b.height))
    case Index(keys, children) =>
      var mid := |keys| / 2;
      (Block(Index(keys[..mid], children[..mid + 1]), b.lo, keys[mid], b.height), keys[mid],
       Block(Index(keys[mid + 1..], children[mid + 1..]), keys[mid], b.hi, b.height))
  }

  /** The split of an overfull child: the child keeps the left half under its address, the right
      half gets a new address, and the parent gains the separator and the new child. */
  function SplitChild(t: seq<Block>, p: PageId, pos: nat): seq<Block>
    requires CanSplit(t, p, pos)
  {
    var b := t[p];
    var x := b.page.children[pos];
    var (left, sep, right) := SplitBlock(t[x]);
    t[x := left][p := b.(page := Index(Inserted(b.page.keys, pos, sep),
                                       Inserted(b.page.children, pos + 1, |t|)))] + [right]
  }

  predicate CanSplit(t: seq<Block>, p: PageId, pos: nat) {
    && p < |t| && t[p].page.Index?
    && pos < |t[p].page.children| == |t[p].page.keys| + 1
    && var x := t[p].page.children[pos];
       x < |t| && Divisible(t[x])
  }

  predicate IsChild(t: seq<Block>, p: PageId, pos: nat) {
    && p < |t| && t[p].page.Index? && pos < |t[p].page.children| && t[p].page.children[pos] < |t|
  }

  predicate Divisible(b: Block) {
    if b.page.Leaf? then |b.page.records| > 1
    else |b.page.keys| > 1 && |b.page.children| == |b.page.keys| + 1
  }

  function Inserted<T>(s: seq<T>, at: nat, e: T): seq<T>
    requires at <= |s|
  {
    s[..at] + [e] + s[at..]
  }

  /** An index root splits in place: both halves move to new addresses. */
  function SplitIndexRoot(t: seq<Block>, root: PageId): seq<Block>
    requires root < |t| && Divisible(t[root])
  {
    var (left, sep, right) := SplitBlock(t[root]);
    t[root := Block(Index([sep], [|t|, |t| + 1]), t[root].lo, t[root].hi, t[root].height + 1)] + [left, right]
  }

  /** A leaf root keeps its left half; a new root is put above it. */
  function SplitLeafRoot(t: seq<Block>, root: PageId): seq<Block>
    requires root < |t| && Divisible(t[root])
  {
    var (left, sep, right) := SplitBlock(t[root]);
    t[root := left] + [right, Block(Index([sep], [root, |t|]), left.lo, right.hi, left.height + 1)]
  }

  /** The key is below that of the middle record of the leaf. */
  predicate BelowMiddle(p: Page, key: Key) {
    p.Leaf? && p.records != [] && key < p.records[|p.records| / 2].key
  }

  /** The halves make up the page, and the left one is not the longer one: what is promoted from a leaf is the
      first key of the right half, which stays there; what is promoted from an index page is the key between
      the halves. */
  ghost predicate MakeUp(p: Page, left: Page, sep: Key, right: Page) {
    match p
    case Leaf(records) =>
      && left.Leaf? && right.Leaf? && left.records + right.records == records
      && |left.records| == |records| / 2 && right.records != [] && sep == right.records[0].key
    case Index(keys, children) =>
      && left.Index? && right.Index? && left.keys + [sep] + right.keys == keys
      && left.children + right.children == children
      && |left.keys| == |keys| / 2 && |left.children| == |left.keys| + 1
  }

  lemma {:induction false} HalvesMakeUp(b: Block)
    requires Divisible(b)
    ensures var (left, sep, right) := SplitBlock(b); MakeUp(b.page, left.page, sep, right.page)
  {
    if b.page.Index? {
      var keys, mid := b.page.keys, |b.page.keys| / 2;
      assert keys == keys[..mid] + [keys[mid]] + keys[mid + 1..];
    }
  }

  /** Both halves of a page are well formed, and neither over- nor underfull; they make up the page; the
      separator lies strictly inside the range, and is not the largest key. */
  ghost predicate HalvesGood(c: Config, t: seq<Block>, b: Block)
    requires Divisible(b)
  {
    var (left, sep, right) := SplitBlock(b);
    && BlockOk(c, t, left) && BlockOk(c, t, right)
    && !HasOverflow(c, left.page) && !HasOverflow(c, right.page)
    && !HasUnderflow(c, left.page) && !HasUnderflow(c, right.page)
    && MakeUp(b.page, left.page, sep, right.page)
    && b.lo < sep < b.hi && sep < MAX_KEY
  }

  lemma {:induction false} LeafHalvesOk(c: Config, t: seq<Block>, b: Block)
    requires Sizes(c) && BlockOk(c, t, b) && HasOverflow(c, b.page) && b.page.Leaf?
    ensures Divisible(b) && HalvesGood(c, t, b)
  {
    var rs := b.page.records;
    HalvesMakeUp(b);
    assert rs[0].key < rs[|rs| / 2].key < rs[|rs| - 1].key;
  }

  lemma {:induction false} LeftHalfOk(c: Config, t: seq<Block>, b: Block)
    requires Sizes(c) && BlockOk(c, t, b) && HasOverflow(c, b.page) && b.page.Index?
    ensures Divisible(b) && BlockOk(c, t, SplitBlock(b).0)
  {
    var left := SplitBlock(b).0;
    forall i | 0 <= i < |left.page.children|
      ensures ChildOk(t, left, i)
    {
      assert ChildOk(t, b, i);
    }
  }

  lemma {:induction false} RightHalfOk(c: Config, t: seq<Block>, b: Block)
    requires Sizes(c) && BlockOk(c, t, b) && HasOverflow(c, b.page) && b.page.Index?
    ensures Divisible(b) && BlockOk(c, t, SplitBlock(b).2)
  {
    var right := SplitBlock(b).2;
    forall i | 0 <= i < |right.page.children|
      ensures ChildOk(t, right, i)
    {
      assert ChildOk(t, b, |b.page.keys| / 2 + 1 + i);
    }
  }

  lemma {:induction false} HalvesOk(c: Config, t: seq<Block>, b: Block)
    requires Sizes(c) && BlockOk(c, t, b) && HasOverflow(c, b.page)
    ensures Divisible(b) && HalvesGood(c, t, b)
  {
    if b.page.Leaf? {
      LeafHalvesOk(c, t, b);
    } else {
      LeftHalfOk(c, t, b);
      RightHalfOk(c, t, b);
      HalvesMakeUp(b);
      assert b.lo < b.page.keys[|b.page.keys| / 2] < b.hi;
      hide BlockOk, MakeUp;
    }
  }

  /** A block survives a change of the tree that keeps its children's ranges and levels. */
  lemma {:induction false} BlockSurvives(c: Config, t: seq<Block>, u: seq<Block>, b: Block)
    requires BlockOk(c, t, b) && |t| <= |u|
    requires b.page.Index? ==> forall i :: 0 <= i < |b.page.children| ==>
               var x := b.page.children[i];
               x < |t| ==> u[x].lo == t[x].lo && u[x].hi == t[x].hi && u[x].height == t[x].height
    ensures BlockOk(c, u, b)
  {
    if b.page.Index? {
      forall i | 0 <= i < |b.page.children|
        ensures ChildOk(u, b, i)
      {
        assert ChildOk(t, b, i);
      }
    }
  }

  lemma {:induction false} SplitChildKeepsTree(c: Config, t: seq<Block>, root: PageId, p: PageId, pos: nat)
    requires TreeOk(c, t, root) && IsChild(t, p, pos)
    requires !HasOverflow(c, t[p].page)
    requires HasOverflow(c, t[t[p].page.children[pos]].page)
    ensures CanSplit(t, p, pos) && TreeOk(c, SplitChild(t, p, pos), root)
  {
    RootIsNoChild(c, t, root, p, pos);
    var b := t[p];
    var x := b.page.children[pos];
    assert PageOk(c, t, p) && PageOk(c, t, x) && ChildOk(t, b, pos);
    HalvesOk(c, t, t[x]);
    var u := SplitChild(t, p, pos);
    SplitBlocksOk(c, t, root, p, pos);
    SplitBlocksApart(c, t, root, p, pos);
    assert forall q :: 0 <= q < |t| && q != x && q != p ==> u[q] == t[q];
    assert u[p].height == t[p].height;
    assert Len(u[p].page) == Len(t[p].page) + 1;
  }

  /** After the split the key belongs to one of the two halves, and both have room. */
  lemma {:induction false} SplitLands(c: Config, t: seq<Block>, root: PageId, p: PageId, pos: nat, key: Key)
    requires TreeOk(c, t, root) && CanSplit(t, p, pos) && InRange(t[p], key)
    requires pos == ChildPos(t[p].page.keys, key) && HasOverflow(c, t[t[p].page.children[pos]].page)
    requires TreeOk(c, SplitChild(t, p, pos), root)
    ensures var u := SplitChild(t, p, pos);
            var x := t[p].page.children[pos];
            && ChildPos(u[p].page.keys, key) < |u[p].page.children|
            && (var y := u[p].page.children[ChildPos(u[p].page.keys, key)]; y == x || y == |t|)
            && x < |t| && x != p && !HasOverflow(c, u[x].page) && !HasOverflow(c, u[|t|].page)
  {
    var u := SplitChild(t, p, pos);
    var x := t[p].page.children[pos];
    ChildCovers(c, t, root, p, key);
    RootIsNoChild(c, t, root, p, pos);
    assert PageOk(c, t, x);
    HalvesOk(c, t, t[x]);
    var (left, sep, right) := SplitBlock(t[x]);
    assert u[x] == left && u[|t|] == right && u[p].lo == t[p].lo && u[p].hi == t[p].hi;
    assert forall q :: 0 <= q < |t| && q != x && q != p ==> u[q] == t[q];
    ChildCovers(c, u, root, p, key);
    RootIsNoChild(c, u, root, p, ChildPos(u[p].page.keys, key));
    var y := u[p].page.children[ChildPos(u[p].page.keys, key)];
    assert ChildOk(t, t[p], pos);
    hide SplitChild, SplitBlock;
    if y != x && y != |t| {
      LevelsAreApart(c, t, root, y, x, key);
    }
  }

  lemma {:induction false} SplitBlocksOk(c: Config, t: seq<Block>, root: PageId, p: PageId, pos: nat)
    requires TreeOk(c, t, root) && CanSplit(t, p, pos)
    requires !HasOverflow(c, t[p].page)
    requires HasOverflow(c, t[t[p].page.children[pos]].page)
    ensures var u := SplitChild(t, p, pos); forall q :: 0 <= q < |u| ==> PageOk(c, u, q)
  {
    RootIsNoChild(c, t, root, p, pos);
    var b := t[p];
    var x := b.page.children[pos];
    var u := SplitChild(t, p, pos);
    assert PageOk(c, t, x) && PageOk(c, t, p) && ChildOk(t, b, pos);
    HalvesOk(c, t, t[x]);
    var (left, sep, right) := SplitBlock(t[x]);
    assert u[x] == left && u[|t|] == right;
    forall q | 0 <= q < |u|
      ensures PageOk(c, u, q)
    {
      if q == p {
        SplitParentOk(c, t, root, p, pos);
      } else if q == x {
        HalfSurvives(c, t, root, p, pos, left);
      } else if q == |t| {
        HalfSurvives(c, t, root, p, pos, right);
      } else {
        assert u[q] == t[q] && PageOk(c, t, q);
        if t[q].page.Index? {
          forall i | 0 <= i < |t[q].page.children|
            ensures t[q].page.children[i] != x && t[q].page.children[i] < |t|
          {
            RootIsNoChild(c, t, root, q, i);
            if t[q].page.children[i] == x { UniqueParent(c, t, root, p, pos, q, i); }
          }
        }
        BlockSurvives(c, t, u, t[q]);
      }
    }
  }

  lemma {:induction false} HalfSurvives(c: Config, t: seq<Block>, root: PageId, p: PageId, pos: nat, half: Block)
    requires TreeOk(c, t, root) && CanSplit(t, p, pos) && BlockOk(c, t, half)
    requires half.height + 1 == t[p].height == t[t[p].page.children[pos]].height + 1
    ensures BlockOk(c, SplitChild(t, p, pos), half)
  {
    var x := t[p].page.children[pos];
    if half.page.Index? {
      forall i | 0 <= i < |half.page.children|
        ensures half.page.children[i] != x && half.page.children[i] != p && half.page.children[i] < |t|
      {
        assert ChildOk(t, half, i);
      }
    }
    BlockSurvives(c, t, SplitChild(t, p, pos), half);
  }

  lemma {:induction false} SplitParentOk(c: Config, t: seq<Block>, root: PageId, p: PageId, pos: nat)
    requires TreeOk(c, t, root) && CanSplit(t, p, pos)
    requires !HasOverflow(c, t[p].page)
    requires HasOverflow(c, t[t[p].page.children[pos]].page)
    ensures BlockOk(c, SplitChild(t, p, pos), SplitChild(t, p, pos)[p])
  {
    RootIsNoChild(c, t, root, p, pos);
    var b := t[p];
    var x := b.page.children[pos];
    var u := SplitChild(t, p, pos);
    assert PageOk(c, t, x) && PageOk(c, t, p) && ChildOk(t, b, pos);
    HalvesOk(c, t, t[x]);
    var sep := SplitBlock(t[x]).1;
    var d := u[p];
    assert d == b.(page := Index(Inserted(b.page.keys, pos, sep), Inserted(b.page.children, pos + 1, |t|)));
    SeparatorFits(b, pos, sep);
    forall i | 0 <= i < |d.page.children|
      ensures ChildOk(u, d, i)
    {
      SplitParentChildOk(c, t, root, p, pos, i);
    }
  }

  lemma {:induction false} SeparatorFits(b: Block, pos: nat, sep: Key)
    requires b.page.Index? && KeysOk(b, b.page.keys) && pos <= |b.page.keys|
    requires Fence(b, pos) < sep < Fence(b, pos + 1) && b.lo < sep < b.hi && sep < MAX_KEY
    ensures KeysOk(b, Inserted(b.page.keys, pos, sep))
  {
  }

  lemma {:induction false} SplitParentChildOk(c: Config, t: seq<Block>, root: PageId, p: PageId, pos: nat, i: nat)
    requires TreeOk(c, t, root) && CanSplit(t, p, pos)
    requires HasOverflow(c, t[t[p].page.children[pos]].page)
    requires i < |t[p].page.children| + 1
    ensures var u := SplitChild(t, p, pos); ChildOk(u, u[p], i)
  {
    var b := t[p];
    var x := b.page.children[pos];
    var u := SplitChild(t, p, pos);
    var (left, sep, right) := SplitBlock(t[x]);
    RootIsNoChild(c, t, root, p, pos);
    assert PageOk(c, t, p) && ChildOk(t, b, pos);
    assert u[|t|] == right && u[x] == left;
    var d := u[p];
    var j := if i <= pos then i else i - 1;
    assert d.page.children[i] == if i == pos + 1 then |t| else b.page.children[j];
    assert Fence(d, i) == if i <= pos then Fence(b, i) else if i == pos + 1 then sep else Fence(b, j);
    assert Fence(d, i + 1) == if i < pos then Fence(b, i + 1) else if i == pos then sep else Fence(b, j + 1);
    assert ChildOk(t, b, j);
    RootIsNoChild(c, t, root, p, j);
    if j != pos {
      SiblingsDiffer(c, t, root, p, pos, j);
    }
  }

  lemma {:induction false} SiblingsDiffer(c: Config, t: seq<Block>, root: PageId, p: PageId, i: nat, j: nat)
    requires TreeOk(c, t, root) && p < |t| && t[p].page.Index?
    requires i < |t[p].page.children| && j < |t[p].page.children| && i != j
    ensures t[p].page.children[i] != t[p].page.children[j]
  {
    if t[p].page.children[i] == t[p].page.children[j] {
      UniqueParent(c, t, root, p, i, p, j);
    }
  }

  lemma {:induction false} SplitBlocksApart(c: Config, t: seq<Block>, root: PageId, p: PageId, pos: nat)
    requires TreeOk(c, t, root) && CanSplit(t, p, pos)
    requires HasOverflow(c, t[t[p].page.children[pos]].page)
    ensures var u := SplitChild(t, p, pos); forall q, r :: 0 <= q < r < |u| ==> Apart(u[q], u[r])
  {
    RootIsNoChild(c, t, root, p, pos);
    var x := t[p].page.children[pos];
    var u := SplitChild(t, p, pos);
    assert PageOk(c, t, x);
    HalvesOk(c, t, t[x]);
    forall q, r | 0 <= q < r < |u|
      ensures Apart(u[q], u[r])
    {
      if r < |t| {
        assert Apart(t[q], t[r]);
      } else if q < x {
        assert Apart(t[q], t[x]);
      } else if q > x {
        assert Apart(t[x], t[q]);
      }
    }
  }

  lemma {:induction false} SplitIndexRootKeepsTree(c: Config, t: seq<Block>, root: PageId)
    requires TreeOk(c, t, root) && t[root].page.Index? && HasOverflow(c, t[root].page)
    ensures Divisible(t[root]) && TreeOk(c, SplitIndexRoot(t, root), root)
  {
    assert PageOk(c, t, root);
    HalvesOk(c, t, t[root]);
    var u := SplitIndexRoot(t, root);
    var (left, sep, right) := SplitBlock(t[root]);
    assert u[|t|] == left && u[|t| + 1] == right;
    assert forall q :: 0 <= q < |t| && q != root ==> u[q] == t[q];
    forall q | 0 <= q < |u|
      ensures PageOk(c, u, q)
    {
      if q == root {
        assert u[root].page.children == [|t|, |t| + 1];
        assert ChildOk(u, u[root], 0) && ChildOk(u, u[root], 1);
      } else {
        var b := if q < |t| then t[q] else u[q];
        if q < |t| { assert PageOk(c, t, q); }
        assert BlockOk(c, t, b);
        if b.page.Index? {
          forall i | 0 <= i < |b.page.children|
            ensures b.page.children[i] != root && b.page.children[i] < |t|
          {
            assert ChildOk(t, b, i);
          }
        }
        BlockSurvives(c, t, u, b);
      }
    }
    forall q, r | 0 <= q < r < |u|
      ensures Apart(u[q], u[r])
    {
      if r < |t| {
        assert Apart(t[q], t[r]);
      } else if q < root {
        assert Apart(t[q], t[root]);
      } else if root < q < |t| {
        assert Apart(t[root], t[q]);
      }
    }
  }

  lemma {:induction false} SplitLeafRootKeepsTree(c: Config, t: seq<Block>, root: PageId)
    requires TreeOk(c, t, root) && t[root].page.Leaf? && HasOverflow(c, t[root].page)
    ensures Divisible(t[root]) && TreeOk(c, SplitLeafRoot(t, root), |t| + 1)
  {
    assert PageOk(c, t, root);
    HalvesOk(c, t, t[root]);
    var u := SplitLeafRoot(t, root);
    LeafRootIsAlone(c, t, root);
    assert u == [u[0], u[1], u[2]] && u[2].page.children == [0, 1];
    assert ChildOk(u, u[2], 0) && ChildOk(u, u[2], 1);
  }

  lemma {:induction false} LeafRootIsOnly(c: Config, t: seq<Block>, root: PageId, q: PageId)
    requires TreeOk(c, t, root) && t[root].page.Leaf? && q < |t|
    ensures q == root
  {
    assert PageOk(c, t, root) && PageOk(c, t, q);
    LevelsAreApart(c, t, root, q, root, t[q].lo);
  }

  lemma {:induction false} LeafRootIsAlone(c: Config, t: seq<Block>, root: PageId)
    requires TreeOk(c, t, root) && t[root].page.Leaf?
    ensures root == 0 && |t| == 1
  {
    LeafRootIsOnly(c, t, root, 0);
    LeafRootIsOnly(c, t, root, |t| - 1);
  }

  /** Every full page splits well, and a page may have a single separator, as each new root has. */
  ghost predicate SplitsWell(c: Config) {
    1 <= c.fanOut - 2 && forall t, b :: FullBlock(c, t, b) ==> Divisible(b) && HalvesGood(c, t, b)
  }

  ghost predicate FullBlock(c: Config, t: seq<Block>, b: Block) {
    BlockOk(c, t, b) && HasOverflow(c, b.page)
  }

  /** With smaller pages splits go wrong: a leaf of two promotes the largest key, an index page with room
      for two keys is left without any, and a page of one or none cannot be split at all. */
  lemma {:induction false} SplitsWellExactly(c: Config)
    ensures SplitsWell(c) <==> Sizes(c)
  {
    if Sizes(c) {
      forall t, b | FullBlock(c, t, b)
        ensures Divisible(b) && HalvesGood(c, t, b)
      {
        HalvesOk(c, t, b);
      }
    } else if c.numRecords < 3 {
      SmallLeaf(c);
    } else if c.fanOut - 2 >= 1 {
      SmallIndex(c);
    }
  }

  lemma {:induction false} SmallLeaf(c: Config)
    requires c.numRecords < 3
    ensures !SplitsWell(c)
  {
    var records := [Record(0, []), Record(MAX_KEY, [])][..c.numRecords];
    var b := Block(Leaf(records), 0, MAX_KEY + 1, 0);
    assert forall i :: 0 <= i < |records| ==> records[i].key == if i == 0 then 0 else MAX_KEY;
    assert RecordsOk(b, records);
    assert FullBlock(c, [], b);
    assert Divisible(b) ==> SplitBlock(b).1 == MAX_KEY;
  }

  lemma {:induction false} SmallIndex(c: Config)
    requires 3 <= c.fanOut < 5
    ensures !SplitsWell(c)
  {
    var t := [Block(Leaf([]), 0, 1, 0), Block(Leaf([]), 1, if c.fanOut == 3 then 3 else 2, 0),
              Block(Leaf([]), 2, 3, 0)];
    var b := if c.fanOut == 3 then Block(Index([1], [0, 1]), 0, 3, 1) else Block(Index([1, 2], [0, 1, 2]), 0, 3, 1);
    forall i | 0 <= i < |b.page.children|
      ensures ChildOk(t, b, i)
    {
    }
    assert FullBlock(c, t, b);
    assert Divisible(b) ==> SplitBlock(b).2.page.keys == [];
  }

  // ----- leaves ---------------------------------------------------------------------------

  /** Applies an operation to the record of `key`; a push creates the record if it is missing. */
  function Written(records: seq<Record>, key: Key, op: Op): seq<Record> {
    WrittenAt(records, LowerBound(Keys(records), key), key, op)
  }

  function WrittenAt(records: seq<Record>, pos: nat, key: Key, op: Op): seq<Record>
    requires pos <= |records|
  {
    if pos < |records| && records[pos].key == key
    then records[pos := Record(key, records[pos].log + [op])]
    else if op.Push? then Inserted(records, pos, Record(key, [op])) else records
  }

  /** Changing the page of one leaf, within its range and size, keeps the tree. */
  lemma {:induction false} LeafWriteKeepsTree(c: Config, t: seq<Block>, root: PageId, p: PageId, key: Key, op: Op)
    requires TreeOk(c, t, root) && p < |t| && t[p].page.Leaf?
    requires op.Push? ==> InRange(t[p], key) && !HasOverflow(c, t[p].page)
    ensures TreeOk(c, t[p := t[p].(page := Leaf(Written(t[p].page.records, key, op)))], root)
  {
    var b := t[p];
    assert PageOk(c, t, p);
    var rs := b.page.records;
    var ws := Written(rs, key, op);
    var u := t[p := b.(page := Leaf(ws))];
    WrittenOk(b, rs, key, op);
    forall q | 0 <= q < |u|
      ensures PageOk(c, u, q)
    {
      assert PageOk(c, t, q);
      if q != p { BlockSurvives(c, t, u, t[q]); }
    }
    forall q, r | 0 <= q < r < |u|
      ensures Apart(u[q], u[r])
    {
      assert Apart(t[q], t[r]);
    }
    assert Len(u[p].page) >= Len(t[p].page);
  }

  lemma {:induction false} WrittenOk(b: Block, records: seq<Record>, key: Key, op: Op)
    requires RecordsOk(b, records)
    requires op.Push? ==> InRange(b, key)
    ensures RecordsOk(b, Written(records, key, op))
    ensures |records| <= |Written(records, key, op)| <= |records| + 1
    ensures !op.Push? ==> |Written(records, key, op)| == |records|
  {
  }
}
