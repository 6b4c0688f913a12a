/** Pages as the arrays they are (internal_page.rs, leaf_page.rs, shadow_vec.rs): fixed arrays that are
    shifted and overwritten in place, with the length in a slot of its own. */
module PageArrays {
  import opened History
  import opened Tree
  import opened InOrder

  /** A view of part of an array that can grow and shrink. Whoever takes the view writes the length
      back when it is dropped. */
  class ShadowVec<E> {
    const data: array<E>
    const base: nat
    var len: nat

    ghost predicate Valid()
      reads this
    {
      base + len <= data.Length
    }

    ghost function Items(): seq<E>
      reads this, data
      requires Valid()
    {
      data[base..base + len]
    }

    constructor (data: array<E>, base: nat, len: nat)
      requires base + len <= data.Length
      ensures Valid() && this.data == data && this.base == base && this.len == len
    {
      this.data, this.base, this.len := data, base, len;
    }

    /** Shifts the tail one slot up, from its end. */
    method ShiftUp(index: nat)
      requires Valid() && index <= len && base + len < data.Length
      modifies data
      ensures forall k :: 0 <= k < base + index ==> data[k] == old(data[k])
      ensures forall k :: base + index < k <= base + len ==> data[k] == old(data[k - 1])
    {
      var i := len;
      while i > index
        invariant index <= i <= len
        invariant forall k :: 0 <= k < base + i ==> data[k] == old(data[k])
        invariant forall k :: base + i < k <= base + len ==> data[k] == old(data[k - 1])
      {
        data[base + i] := data[base + i - 1];
        i := i - 1;
      }
    }

    /** Writes the gap that the shift has left. */
    method Insert(index: nat, e: E)
      requires Valid() && index <= len && base + len < data.Length
      modifies this`len, data
      ensures Valid() && Items() == Inserted(old(Items()), index, e)
      ensures data[..base] == old(data[..base])
    {
      ShiftUp(index);
      ghost var now := data[..];
      ShiftedIn(old(data[..]), now, base, len, index, e);
      hide Inserted;
      data[base + index] := e;
      assert data[..] == now[base + index := e];
      len := len + 1;
    }

    method Push(e: E)
      requires Valid() && base + len < data.Length
      modifies this`len, data
      ensures Valid() && Items() == old(Items()) + [e]
      ensures data[..base] == old(data[..base])
    {
      data[base + len] := e;
      len := len + 1;
    }

    method Pop() returns (e: E)
      requires Valid() && len > 0
      modifies this`len
      ensures Valid() && old(Items()) == Items() + [e]
    {
      len := len - 1;
      e := data[base + len];
    }

    /** Shifts the tail one slot down. */
    method ShiftDown(index: nat)
      requires Valid() && index < len
      modifies data
      ensures forall k :: 0 <= k < base + index ==> data[k] == old(data[k])
      ensures forall k :: base + index <= k < base + len - 1 ==> data[k] == old(data[k + 1])
    {
      var i := index;
      while i < len - 1
        invariant index <= i <= len - 1
        invariant forall k :: 0 <= k < base + index ==> data[k] == old(data[k])
        invariant forall k :: base + index <= k < base + i ==> data[k] == old(data[k + 1])
        invariant forall k :: base + i < k < base + len ==> data[k] == old(data[k])
      {
        data[base + i] := data[base + i + 1];
        i := i + 1;
      }
    }

    /** The last element is popped; any other is written over by the tail. */
    method Remove(index: nat) returns (e: E)
      requires Valid() && index < len
      modifies this`len, data
      ensures Valid() && e == old(Items())[index]
      ensures Items() == old(Items())[..index] + old(Items())[index + 1..]
      ensures data[..base] == old(data[..base])
    {
      if index == len - 1 {
        e := Pop();
        return;
      }
      e := data[base + index];
      ShiftDown(index);
      len := len - 1;
    }

    method ExtendFromSlice(other: seq<E>)
      requires Valid() && base + len + |other| <= data.Length
      modifies this`len, data
      ensures Valid() && Items() == old(Items()) + other
      ensures data[..base] == old(data[..base])
    {
      var i := 0;
      while i < |other|
        invariant 0 <= i <= |other| && len == old(len)
        invariant forall k :: 0 <= k < base + len ==> data[k] == old(data[k])
        invariant forall k :: 0 <= k < i ==> data[base + len + k] == other[k]
      {
        data[base + len + i] := other[i];
        i := i + 1;
      }
      len := len + |other|;
    }
  }

  /** Once the tail is shifted up, writing the gap inserts the element. */
  lemma {:induction false} ShiftedIn<E>(was: seq<E>, now: seq<E>, base: nat, len: nat, index: nat, e: E)
    requires base + len < |was| == |now| && index <= len
    requires forall k :: 0 <= k < base + index ==> now[k] == was[k]
    requires forall k :: base + index < k <= base + len ==> now[k] == was[k - 1]
    ensures now[base + index := e][base..base + len + 1] == Inserted(was[base..base + len], index, e)
    ensures now[base + index := e][..base] == was[..base]
  {
  }

  /** An index page: slot 0 of the key array holds the number of keys. */
  class InternalPage {
    const keyArray: array<Key>
    const childrenArray: array<PageId>

    ghost predicate Valid()
      reads this, keyArray
    {
      && keyArray.Length == childrenArray.Length > 0
      && keyArray[0] < keyArray.Length
    }

    function KeysLen(): nat
      reads this, keyArray
      requires keyArray.Length > 0
    {
      keyArray[0]
    }

    /** A page without keys has no children either. */
    function ChildrenLen(): nat
      reads this, keyArray
      requires keyArray.Length > 0
    {
      if KeysLen() == 0 then 0 else KeysLen() + 1
    }

    ghost function Contents(): (p: Page)
      reads this, keyArray, childrenArray
      requires Valid()
      ensures p.Index? && |p.keys| == KeysLen() && |p.children| == ChildrenLen()
    {
      Index(keyArray[1..1 + KeysLen()], childrenArray[..ChildrenLen()])
    }

    function KeyAt(i: nat): (k: Key)
      reads this, keyArray, childrenArray
      requires Valid() && i < KeysLen()
      ensures k == Contents().keys[i]
    {
      keyArray[1..][i]
    }

    constructor (fanOut: nat)
      requires fanOut > 0
      ensures Valid() && keyArray.Length == fanOut && fresh(keyArray) && fresh(childrenArray)
      ensures Contents() == Index([], [])
    {
      keyArray := new Key[fanOut](_ => 0);
      childrenArray := new PageId[fanOut](_ => 0);
    }

    method SetKeyLen(len: nat)
      requires Valid() && len < keyArray.Length && len <= MAX_KEY
      modifies keyArray
      ensures Valid() && KeysLen() == len
      ensures keyArray[1..] == old(keyArray[1..])
    {
      keyArray[0] := len;
    }

    method PutChild(at: nat, child: PageId)
      requires Valid() && at <= ChildrenLen() < childrenArray.Length
      modifies childrenArray
      ensures childrenArray[..ChildrenLen() + 1] == Inserted(old(Contents()).children, at, child)
    {
      var children := new ShadowVec<PageId>(childrenArray, 0, ChildrenLen());
      assert children.Items() == Contents().children;
      hide Inserted;
      children.Insert(at, child);
      assert childrenArray[..children.len] == children.Items();
    }

    /** The view writes the new length to slot 0. */
    method PutKey(at: nat, key: Key)
      requires Valid() && at <= KeysLen() && KeysLen() + 1 < keyArray.Length <= MAX_KEY
      modifies keyArray
      ensures Valid() && KeysLen() == old(KeysLen()) + 1
      ensures keyArray[1..1 + KeysLen()] == Inserted(old(Contents()).keys, at, key)
    {
      var keys := new ShadowVec<Key>(keyArray, 1, KeysLen());
      assert keys.Items() == Contents().keys;
      hide Inserted;
      keys.Insert(at, key);
      ghost var all := keyArray[1..];
      assert keys.Items() == all[..keys.len];
      SetKeyLen(keys.len);
      assert keyArray[1..1 + keys.len] == all[..keys.len];
    }

    /** Takes in the right half of a split child: its address goes behind the child, its separator
        before it. The children are inserted while the length still counts the old keys. */
    method InsertChild(pos: nat, sep: Key, child: PageId)
      requires Valid() && 0 < KeysLen() && pos <= KeysLen() && KeysLen() + 2 < keyArray.Length <= MAX_KEY
      modifies keyArray, childrenArray
      ensures Valid()
      ensures Contents() == Index(Inserted(old(Contents()).keys, pos, sep),
                                  Inserted(old(Contents()).children, pos + 1, child))
    {
      PutChild(pos + 1, child);
      assert Contents().keys == old(Contents()).keys;
      PutKey(pos, sep);
    }

    /** Copies the keys and children behind position `mid` to a new page. */
    method CopyUpper(right: InternalPage, mid: nat)
      requires Valid() && mid < KeysLen() && KeysLen() + 1 <= keyArray.Length <= MAX_KEY
      requires right.Valid() && right != this && right.keyArray.Length == keyArray.Length
      requires right.keyArray != keyArray && right.childrenArray != childrenArray
      requires KeysLen() > mid + 1
      modifies right.keyArray, right.childrenArray
      ensures right.Valid() && right.Contents() == Index(Contents().keys[mid + 1..], Contents().children[mid + 1..])
    {
      var n := KeysLen();
      CopyNonoverlapping(childrenArray, mid + 1, right.childrenArray, 0, n - mid);
      CopyNonoverlapping(keyArray, mid + 2, right.keyArray, 1, n - mid - 1);
      ghost var copied := right.keyArray[1..n - mid];
      ghost var all := right.keyArray[1..];
      assert copied == all[..n - mid - 1];
      right.SetKeyLen(n - mid - 1);
      assert right.keyArray[1..n - mid] == all[..n - mid - 1] == Contents().keys[mid + 1..];
      assert right.childrenArray[..n - mid] == Contents().children[mid + 1..];
    }

    /** Forgets the keys from position `mid` on, and the children behind it. */
    method CutTo(mid: nat)
      requires Valid() && 0 < mid < KeysLen() && KeysLen() < keyArray.Length <= MAX_KEY
      modifies keyArray
      ensures Valid() && Contents() == Index(old(Contents()).keys[..mid], old(Contents()).children[..mid + 1])
    {
      ghost var all, n := keyArray[1..], KeysLen();
      assert Contents().keys == all[..n] && all[..n][..mid] == all[..mid];
      SetKeyLen(mid);
      assert keyArray[1..1 + mid] == keyArray[1..][..mid];
    }

    /** The split of a full page: the upper children and keys are copied to the new page, the middle
        key is handed to the parent, and the length of this page is cut. */
    method SplitOff(ghost b: Block) returns (sep: Key, right: InternalPage)
      requires Valid() && KeysLen() > 2 && KeysLen() + 1 <= keyArray.Length <= MAX_KEY
      requires b.page == Contents()
      modifies keyArray
      ensures Valid() && right.Valid() && fresh(right) && fresh(right.keyArray) && fresh(right.childrenArray)
      ensures right.keyArray.Length == keyArray.Length
      ensures MakeUp(old(Contents()), Contents(), sep, right.Contents())
      ensures var (l, k, r) := SplitBlock(b); Contents() == l.page && sep == k && right.Contents() == r.page
    {
      var mid := KeysLen() / 2;
      sep := KeyAt(mid);
      IndexParts(b);
      HalvesMakeUp(b);
      hide SplitBlock, Contents, MakeUp;
      right := new InternalPage(keyArray.Length);
      CopyUpper(right, mid);
      CutTo(mid);
    }

    /** Copies the keys and children up to position `mid` to a new page. */
    method CopyLower(left: InternalPage, mid: nat)
      requires Valid() && 0 < mid < KeysLen() && KeysLen() + 1 <= keyArray.Length <= MAX_KEY
      requires left.Valid() && left != this && left.keyArray.Length == keyArray.Length
      requires left.keyArray != keyArray && left.childrenArray != childrenArray
      modifies left.keyArray, left.childrenArray
      ensures left.Valid() && left.Contents() == Index(Contents().keys[..mid], Contents().children[..mid + 1])
    {
      assert Contents().keys[..mid] == keyArray[1..1 + mid];
      CopyNonoverlapping(childrenArray, 0, left.childrenArray, 0, mid + 1);
      CopyNonoverlapping(keyArray, 1, left.keyArray, 1, mid);
      ghost var all := left.keyArray[1..];
      assert left.keyArray[1..1 + mid] == all[..mid];
      left.SetKeyLen(mid);
      assert left.keyArray[1..1 + mid] == left.keyArray[1..][..mid] == all[..mid];
      assert left.childrenArray[..mid + 1] == Contents().children[..mid + 1];
    }

    /** What the root is left with: one separator between two new pages. */
    method BecomeRoot(sep: Key, leftPage: PageId, rightPage: PageId)
      requires Valid() && 2 < keyArray.Length <= MAX_KEY
      modifies keyArray, childrenArray
      ensures Valid() && Contents() == Index([sep], [leftPage, rightPage])
    {
      childrenArray[0] := leftPage;
      childrenArray[1] := rightPage;
      keyArray[1] := sep;
      SetKeyLen(1);
      assert keyArray[1..2] == [keyArray[1..][0]];
    }

    /** Copies both halves of a page to new pages. */
    method CopyHalves(ghost b: Block) returns (left: InternalPage, sep: Key, right: InternalPage)
      requires Valid() && KeysLen() > 2 && KeysLen() + 1 <= keyArray.Length <= MAX_KEY && b.page == Contents()
      ensures left.Valid() && right.Valid()
      ensures left.keyArray.Length == right.keyArray.Length == keyArray.Length
      ensures fresh(left) && fresh(left.keyArray) && fresh(left.childrenArray)
      ensures fresh(right) && fresh(right.keyArray) && fresh(right.childrenArray)
      ensures var (l, k, r) := SplitBlock(b);
              left.Contents() == l.page && sep == k && right.Contents() == r.page
    {
      var mid := KeysLen() / 2;
      sep := KeyAt(mid);
      IndexParts(b);
      hide SplitBlock, Contents;
      right := new InternalPage(keyArray.Length);
      left := new InternalPage(keyArray.Length);
      CopyUpper(right, mid);
      CopyLower(left, mid);
    }

    /** The split of a full index root: both halves are copied to new pages, and the root, which stays at its
        address, keeps the middle key alone. */
    method SplitRoot(ghost b: Block, leftPage: PageId, rightPage: PageId)
      returns (left: InternalPage, right: InternalPage)
      requires Valid() && KeysLen() > 2 && KeysLen() + 1 <= keyArray.Length <= MAX_KEY && b.page == Contents()
      modifies keyArray, childrenArray
      ensures Valid() && left.Valid() && right.Valid()
      ensures left.keyArray.Length == right.keyArray.Length == keyArray.Length
      ensures fresh(left) && fresh(left.keyArray) && fresh(left.childrenArray)
      ensures fresh(right) && fresh(right.keyArray) && fresh(right.childrenArray)
      ensures var (l, k, r) := SplitBlock(b);
              && left.Contents() == l.page && right.Contents() == r.page
              && Contents() == Index([k], [leftPage, rightPage])
    {
      var sep;
      left, sep, right := CopyHalves(b);
      hide SplitBlock, Contents;
      BecomeRoot(sep, leftPage, rightPage);
    }
  }

  /** The split of an index block, in its keys and children. */
  lemma {:induction false} IndexParts(b: Block)
    requires b.page.Index? && Divisible(b)
    ensures var (l, k, r) := SplitBlock(b);
            var mid := |b.page.keys| / 2;
            && l.page == Index(b.page.keys[..mid], b.page.children[..mid + 1]) && k == b.page.keys[mid]
            && r.page == Index(b.page.keys[mid + 1..], b.page.children[mid + 1..])
  {
  }

  /** `copy_from_nonoverlapping` */
  method CopyNonoverlapping<E>(src: array<E>, from: nat, dst: array<E>, to: nat, n: nat)
    requires src != dst && from + n <= src.Length && to + n <= dst.Length
    modifies dst
    ensures dst[to..to + n] == src[from..from + n]
    ensures forall i :: 0 <= i < dst.Length && !(to <= i < to + n) ==> dst[i] == old(dst[i])
  {
    var i := 0;
    while i < n
      invariant 0 <= i <= n
      invariant forall k :: to <= k < to + i ==> dst[k] == src[k - to + from]
      invariant forall k :: 0 <= k < dst.Length && !(to <= k < to + i) ==> dst[k] == old(dst[k])
    {
      dst[to + i] := src[from + i];
      i := i + 1;
    }
  }

  /** A leaf page. */
  class LeafPage {
    const recordData: array<Record>
    var recordsLen: nat

    ghost predicate Valid()
      reads this
    {
      recordsLen <= recordData.Length
    }

    ghost function Records(): (rs: seq<Record>)
      reads this, recordData
      requires Valid()
      ensures |rs| == recordsLen
    {
      recordData[..recordsLen]
    }

    constructor (numRecords: nat)
      ensures Valid() && recordData.Length == numRecords && fresh(recordData) && Records() == []
    {
      recordData := new Record[numRecords](_ => Record(0, []));
      recordsLen := 0;
    }

    /** Binary search by key. */
    method Search(key: Key) returns (pos: nat)
      requires Valid() && Within(Records(), 0, MAX_KEY + 1)
      ensures pos == LowerBound(Keys(Records()), key)
    {
      pos := 0;
      var end := recordsLen;
      ghost var keys := Keys(Records());
      while pos < end
        invariant 0 <= pos <= end <= recordsLen
        invariant forall i :: 0 <= i < pos ==> keys[i] < key
        invariant forall i :: end <= i < recordsLen ==> key <= keys[i]
      {
        var mid := pos + (end - pos) / 2;
        assert keys[mid] == recordData[mid].key;
        if recordData[mid].key < key { pos := mid + 1; } else { end := mid; }
      }
      LowerBoundIs(keys, key, pos);
    }

    /** Applies an insert, update or delete to the leaf in place; tells whether it found its record, or
        made it. There must be room for one that is new. */
    method Write(key: Key, op: Op) returns (done: bool)
      requires Valid() && Within(Records(), 0, MAX_KEY + 1)
      requires op.Push? ==> recordsLen < recordData.Length
      modifies this`recordsLen, recordData
      ensures Valid() && Records() == Written(old(Records()), key, op)
      ensures done <==> op.Push? || exists r :: r in old(Records()) && r.key == key
    {
      var pos := Search(key);
      ghost var rs := Records();
      if pos < recordsLen && recordData[pos].key == key {
        assert rs[pos].key == key;
        recordData[pos] := Record(key, recordData[pos].log + [op]);
        done := true;
      } else {
        done := op.Push?;
        if op.Push? {
          var records := new ShadowVec<Record>(recordData, 0, recordsLen);
          assert records.Items() == rs;
          records.Insert(pos, Record(key, [op]));
          recordsLen := records.len;
        }
        NotThere(rs, pos, key);
      }
    }

    method SplitOff(ghost b: Block) returns (sep: Key, right: LeafPage)
      requires Valid() && recordsLen > 1 && b.page == Leaf(Records())
      modifies this`recordsLen
      ensures Valid() && right.Valid() && fresh(right) && fresh(right.recordData)
      ensures right.recordData.Length == recordData.Length
      ensures MakeUp(Leaf(old(Records())), Leaf(Records()), sep, Leaf(right.Records()))
      ensures sep == old(Records())[old(recordsLen) / 2].key
      ensures var (l, k, r) := SplitBlock(b); Leaf(Records()) == l.page && sep == k && Leaf(right.Records()) == r.page
    {
      var mid := recordsLen / 2;
      sep := recordData[mid].key;
      right := new LeafPage(recordData.Length);
      CopyNonoverlapping(recordData, mid, right.recordData, 0, recordsLen - mid);
      right.recordsLen := recordsLen - mid;
      recordsLen := mid;
      assert right.Records() == b.page.records[mid..];
      HalvesMakeUp(b);
    }
  }

  lemma {:induction false} NotThere(rs: seq<Record>, pos: nat, key: Key)
    requires Within(rs, 0, MAX_KEY + 1) && pos == LowerBound(Keys(rs), key)
    requires pos == |rs| || rs[pos].key != key
    ensures forall r :: r in rs ==> r.key != key
  {
    hide LowerBound;
    forall r | r in rs
      ensures r.key != key
    {
      var i :| 0 <= i < |rs| && rs[i] == r;
      assert Keys(rs)[i] == r.key;
      assert pos < |rs| ==> Keys(rs)[pos] == rs[pos].key;
    }
  }

  // ----- splits in place, and splits of the tree --------------------------------------------

  datatype PageRef = IndexRef(index: InternalPage) | LeafRef(leaf: LeafPage)

  /** A page and its arrays. */
  ghost function Footprint(r: PageRef): set<object> {
    match r
    case IndexRef(page) => {page, page.keyArray, page.childrenArray}
    case LeafRef(page) => {page, page.recordData}
  }

  /** The arrays hold the page, and are as long as pages are. */
  ghost predicate Stores(c: Config, r: PageRef, p: Page)
    reads Footprint(r)
  {
    match r
    case IndexRef(page) => page.Valid() && page.keyArray.Length == c.fanOut && page.Contents() == p
    case LeafRef(page) => page.Valid() && page.recordData.Length == c.numRecords && Leaf(page.Records()) == p
  }

  ghost predicate StoresAt(c: Config, r: PageRef, t: seq<Block>, p: PageId)
    reads Footprint(r)
  {
    p < |t| && Stores(c, r, t[p].page)
  }

  ghost predicate IsFull(c: Config, b: Block) {
    && Sizes(c) && c.fanOut <= MAX_KEY && Divisible(b) && HasOverflow(c, b.page)
    && (b.page.Index? ==> |b.page.keys| <= c.fanOut - 2)
  }

  ghost predicate HasRoom(c: Config, p: Page, pos: nat) {
    && c.fanOut <= MAX_KEY && p.Index? && pos <= |p.keys| && pos < |p.children|
    && 0 < |p.keys| && |p.keys| + 2 < c.fanOut
  }

  /** An index page with one more separator, and one more child behind it. */
  ghost function Enlarged(p: Page, pos: nat, sep: Key, child: PageId): Page
    requires p.Index? && pos <= |p.keys| && pos < |p.children|
  {
    Index(Inserted(p.keys, pos, sep), Inserted(p.children, pos + 1, child))
  }

  /** The branch for index pages: split the child, and take its right half into the parent. */
  method CorrectIndex(c: Config, parent: InternalPage, pos: nat, child: InternalPage, newPage: PageId,
                      ghost was: Page, ghost b: Block)
    returns (right: InternalPage)
    requires HasRoom(c, was, pos) && IsFull(c, b)
    requires Stores(c, IndexRef(parent), was) && Stores(c, IndexRef(child), b.page)
    requires parent.keyArray != child.keyArray && parent.childrenArray != child.childrenArray
    modifies parent.keyArray, parent.childrenArray, child.keyArray
    ensures var (l, k, r) := SplitBlock(b);
            && Stores(c, IndexRef(child), l.page) && Stores(c, IndexRef(right), r.page)
            && Stores(c, IndexRef(parent), Enlarged(was, pos, k, newPage))
  {
    var sep;
    sep, right := child.SplitOff(b);
    hide SplitBlock, Inserted, IsFull;
    parent.InsertChild(pos, sep, newPage);
  }

  /** The branch for leaves. */
  method CorrectLeaf(c: Config, parent: InternalPage, pos: nat, child: LeafPage, newPage: PageId,
                     ghost was: Page, ghost b: Block)
    returns (right: LeafPage)
    requires HasRoom(c, was, pos) && IsFull(c, b)
    requires Stores(c, IndexRef(parent), was) && Stores(c, LeafRef(child), b.page)
    modifies parent.keyArray, parent.childrenArray, child`recordsLen
    ensures var (l, k, r) := SplitBlock(b);
            && Stores(c, LeafRef(child), l.page) && Stores(c, LeafRef(right), r.page)
            && Stores(c, IndexRef(parent), Enlarged(was, pos, k, newPage))
  {
    var sep;
    sep, right := child.SplitOff(b);
    hide SplitBlock, Inserted, IsFull;
    parent.InsertChild(pos, sep, newPage);
  }

  /** A full child under a parent with room. */
  ghost predicate SplitsAt(c: Config, t: seq<Block>, root: PageId, p: PageId, pos: nat, x: PageId) {
    && TreeOk(c, t, root) && CanSplit(t, p, pos) && t[p].page.children[pos] == x
    && !HasOverflow(c, t[p].page) && HasOverflow(c, t[x].page)
  }

  lemma {:induction false} PagesOfSplit(c: Config, t: seq<Block>, root: PageId, p: PageId, pos: nat, x: PageId)
    requires SplitsAt(c, t, root, p, pos, x) && c.fanOut <= MAX_KEY
    ensures var (l, k, r) := SplitBlock(t[x]);
            var u := SplitChild(t, p, pos);
            && TreeOk(c, u, root) && |u| == |t| + 1 && u[x] == l && u[|t|] == r
            && HasRoom(c, t[p].page, pos) && IsFull(c, t[x]) && u[p].page == Enlarged(t[p].page, pos, k, |t|)
  {
    SplitChildKeepsTree(c, t, root, p, pos);
    RootIsNoChild(c, t, root, p, pos);
    assert PageOk(c, t, p) && PageOk(c, t, x);
    hide TreeOk, KeysOk, RecordsOk;
  }

  /** `do_overflow_correction` on the arrays of the parent and its full child: whatever else the tree holds,
      the three pages are then those of the split tree, which is a tree again. */
  method DoOverflowCorrection(c: Config, parent: InternalPage, pos: nat, child: PageRef, newPage: PageId,
                              ghost t: seq<Block>, ghost root: PageId, ghost p: PageId, ghost x: PageId)
    returns (right: PageRef)
    requires SplitsAt(c, t, root, p, pos, x) && c.fanOut <= MAX_KEY && newPage == |t|
    requires StoresAt(c, IndexRef(parent), t, p) && StoresAt(c, child, t, x)
    requires Footprint(IndexRef(parent)) !! Footprint(child)
    modifies Footprint(IndexRef(parent)), Footprint(child)
    ensures var u := SplitChild(t, p, pos);
            && TreeOk(c, u, root)
            && StoresAt(c, IndexRef(parent), u, p) && StoresAt(c, child, u, x) && StoresAt(c, right, u, newPage)
  {
    PagesOfSplit(c, t, root, p, pos, x);
    hide TreeOk, SplitChild, SplitBlock, Stores;
    match child {
      case IndexRef(page) =>
        var half := CorrectIndex(c, parent, pos, page, newPage, t[p].page, t[x]);
        right := IndexRef(half);
      case LeafRef(page) =>
        var half := CorrectLeaf(c, parent, pos, page, newPage, t[p].page, t[x]);
        right := LeafRef(half);
    }
  }

  /** The split of a full index root on its arrays: the pages are then those of the split tree. */
  method SplitRootInPlace(c: Config, page: InternalPage, ghost t: seq<Block>, ghost root: PageId, newPage: PageId)
    returns (left: InternalPage, right: InternalPage)
    requires TreeOk(c, t, root) && c.fanOut <= MAX_KEY && HasOverflow(c, t[root].page) && newPage == |t|
    requires StoresAt(c, IndexRef(page), t, root)
    modifies page.keyArray, page.childrenArray
    ensures Divisible(t[root])
    ensures var u := SplitIndexRoot(t, root);
            && TreeOk(c, u, root)
            && StoresAt(c, IndexRef(page), u, root)
            && StoresAt(c, IndexRef(left), u, newPage) && StoresAt(c, IndexRef(right), u, newPage + 1)
  {
    SplitIndexRootKeepsTree(c, t, root);
    assert PageOk(c, t, root);
    hide TreeOk;
    left, right := page.SplitRoot(t[root], newPage, newPage + 1);
  }
}
