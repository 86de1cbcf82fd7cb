/** The tree as one mutable object whose operations run one at a time. Pages are
    rewritten in place in the page heap; every method is tied to the atomic
    steps of the protocol and to the ordered map the tree represents. */
module Trees {
  import opened Pages
  import opened Bounds
  import opened Stores
  import opened Ownership
  import opened LinkSteps
  import opened SplitSteps
  import opened BorrowSteps
  import opened MergeSteps
  import opened Abstraction
  import opened LeafSteps
  import opened Traversal
  import opened Protocol
  import opened Linearization
  import opened Backlinks
  import opened Quiescence
  import opened Scans

  datatype Attempt = Done(value: Option<Value>) | Retry
  datatype Fast = Completed(value: Option<Value>) | Structure

  /** Upper-bound search: the child whose interval contains `k`. */
  method FindChild(keys: seq<Key>, k: Key) returns (low: nat)
    requires SortedKeys(keys)
    ensures low == ChildIndex(keys, k)
  {
    low := 0;
    var high := |keys|;
    while low < high
      invariant low <= high <= |keys|
      invariant forall j :: 0 <= j < low ==> keys[j] <= k
      invariant forall j :: high <= j < |keys| ==> k < keys[j]
    {
      var middle := low + (high - low) / 2;
      if k < keys[middle] { high := middle; } else { low := middle + 1; }
    }
    ghost var c := ChildIndex(keys, k);
    assert low < |keys| ==> k < keys[low];
    assert c < |keys| ==> k < keys[c];
  }

  class Tree {
    var pages: seq<Page>
    var root: PageId
    var len: int

    function State(): Store
      reads this
    {
      Store(pages, root, len)
    }

    constructor ()
      ensures Quiet(State()) && Contents(State()) == map[]
    {
      pages, root, len := EmptyStore().pages, EmptyStore().root, EmptyStore().len;
      new;
      FreshIsQuiet();
    }

    // ------------------------------------------------------------- searches

    /** Searches from any handle ever handed out, however stale: ends at the
        leaf that owns `k`, or asks for a restart. */
    method LeafFrom(start: PageId, k: Key) returns (leaf: Option<PageId>)
      requires Inv(State()) && Stores.Valid(State(), start)
      ensures leaf == Traverse(State(), start, k)
    {
      var node := start;
      while true
        invariant Stores.Valid(State(), node)
        invariant Traverse(State(), node, k) == Traverse(State(), start, k)
        decreases pages[node].level, Above(State(), node)
      {
        var page := pages[node];
        RightPrecedes(State(), node, k);
        match RouteOf(page, k) {
          case Restart => return None;
          case Right(next) => node := next;
          case Here =>
            if page.kind.Leaf? { return Some(node); }
            ChildOwns(State(), node, k);
            assert PageOk(State(), node);
            var i := FindChild(page.kind.keys, k);
            node := page.kind.children[i];
        }
      }
    }

    /** The leaf that owns `k`; starting at the root, one pass is enough. */
    method LeafFor(k: Key) returns (leaf: PageId)
      requires Inv(State())
      ensures Live(State(), leaf) && pages[leaf].kind.Leaf? && Owns(pages[leaf], k)
    {
      var found := LeafFrom(root, k);
      leaf := found.value;
    }

    method Get(k: Key) returns (value: Option<Value>)
      requires Inv(State())
      ensures value == Lookup(Contents(State()), k)
    {
      var leaf := LeafFor(k);
      OwnerAnswers(State(), leaf, k);
      match Search(pages[leaf].kind.entries, k) {
        case Found(i) => value := Some(pages[leaf].kind.entries[i].value);
        case Missing(_) => value := None;
      }
    }

    /** Overwrites the value of a present key through its leaf. */
    method GetMut(k: Key, v: Value) returns (previous: Option<Value>)
      requires Quiet(State())
      modifies this`pages
      ensures Quiet(State())
      ensures previous == Lookup(old(Contents(State())), k)
      ensures Contents(State()) == if previous.Some? then old(Contents(State()))[k := v] else old(Contents(State()))
    {
      var leaf := LeafFor(k);
      OwnerAnswers(State(), leaf, k);
      match Search(pages[leaf].kind.entries, k) {
        case Found(i) =>
          var es := pages[leaf].kind.entries;
          previous := Some(es[i].value);
          PutIsQuiet(State(), leaf, k, v);
          pages := pages[leaf := pages[leaf].(kind := Leaf(es[i := Entry(k, v)]))];
          assert State() == PutRecord(old(State()), leaf, k, v);
        case Missing(_) =>
          previous := None;
      }
    }

    // -------------------------------------------------- scans along the leaves

    /** Descends through first children from any handle. */
    method LeftmostFrom(start: PageId) returns (leaf: PageId)
      requires Inv(State()) && Stores.Valid(State(), start)
      ensures Live(State(), leaf) && pages[leaf].kind.Leaf?
      ensures pages[leaf].low == pages[Resolve(State(), start)].low
    {
      leaf := start;
      while !pages[leaf].kind.Leaf?
        invariant Stores.Valid(State(), leaf)
        invariant pages[Resolve(State(), leaf)].low == pages[Resolve(State(), start)].low
        decreases pages[leaf].level, Above(State(), leaf)
      {
        assert PageOk(State(), leaf);
        var next := if pages[leaf].kind.Internal? then pages[leaf].kind.children[0] else pages[leaf].kind.target;
        if pages[leaf].kind.Internal? { ChildInside(State(), leaf, 0); }
        else if pages[next].level == pages[leaf].level { AboveShrinks(State(), leaf, next); }
        leaf := next;
      }
    }

    /** Descends through last children from any handle, then follows right
        links to the end of the level. */
    method RightmostFrom(start: PageId) returns (leaf: PageId)
      requires Inv(State()) && Stores.Valid(State(), start)
      ensures Live(State(), leaf) && pages[leaf].kind.Leaf? && pages[leaf].right.None?
    {
      leaf := start;
      while !pages[leaf].kind.Leaf? || pages[leaf].right.Some?
        invariant Stores.Valid(State(), leaf)
        decreases pages[leaf].level, Above(State(), leaf)
      {
        assert PageOk(State(), leaf);
        var page := pages[leaf];
        var next;
        match page.kind {
          case Internal(_, children) =>
            next := children[|children| - 1];
            ChildInside(State(), leaf, |children| - 1);
          case Leaf(_) => next := page.right.value;
          case Redirect(target) => next := target;
        }
        if pages[next].level == page.level { AboveShrinks(State(), leaf, next); }
        leaf := next;
      }
    }

    /** Scans right from a leaf-level handle, through retired pages, for the
        first record past a bound. */
    method ScanFrom(start: PageId, b: Bound) returns (r: Option<Entry>)
      requires Inv(State()) && Stores.Valid(State(), start) && pages[start].level == 0
      requires NothingBefore(State(), start, b)
      ensures IsLeast(Contents(State()), b, r)
    {
      var node := start;
      while true
        invariant Stores.Valid(State(), node) && pages[node].level == 0
        invariant NothingBefore(State(), node, b)
        decreases Above(State(), node)
      {
        assert PageOk(State(), node);
        var page := pages[node];
        if page.kind.Redirect? {
          ScanMoves(State(), node, b);
          node := page.kind.target;
        } else {
          var index := BoundIndex(page.kind.entries, b);
          if index < |page.kind.entries| {
            ScanFinds(State(), node, b);
            return Some(page.kind.entries[index]);
          }
          if page.right.None? {
            ScanEnds(State(), node, b);
            return None;
          }
          ScanMoves(State(), node, b);
          node := page.right.value;
        }
      }
    }

    method FirstEntry() returns (r: Option<Entry>)
      requires Inv(State())
      ensures IsLeast(Contents(State()), Unbounded, r)
    {
      var leaf := LeftmostFrom(root);
      assert PageOk(State(), leaf);
      ScanStarts(State(), leaf, Unbounded);
      r := ScanFrom(leaf, Unbounded);
    }

    method EntryAtOrAfter(k: Key, inclusive: bool) returns (r: Option<Entry>)
      requires Inv(State())
      ensures IsLeast(Contents(State()), if inclusive then Included(k) else Excluded(k), r)
    {
      var b := if inclusive then Included(k) else Excluded(k);
      var leaf := LeafFor(k);
      assert PageOk(State(), leaf);
      ScanStarts(State(), leaf, b);
      r := ScanFrom(leaf, b);
    }

    method LastEntry() returns (r: Option<Entry>)
      requires Inv(State())
      ensures IsGreatest(Contents(State()), r)
    {
      var leaf := RightmostFrom(root);
      LastLeafHasGreatest(State(), leaf);
      var es := pages[leaf].kind.entries;
      r := if |es| > 0 then Some(es[|es| - 1]) else None;
    }

    // ------------------------------------------------------- fast leaf paths

    method TryInsertWithoutSplit(k: Key, v: Value) returns (r: Fast)
      requires Quiet(State())
      modifies this`pages, this`len
      ensures r.Structure? ==> State() == old(State())
      ensures r.Completed? ==>
                && Quiet(State()) && r.value == Lookup(old(Contents(State())), k)
                && Contents(State()) == old(Contents(State()))[k := v]
    {
      var leaf := LeafFor(k);
      var es := pages[leaf].kind.entries;
      assert PageOk(State(), leaf);
      if Search(es, k).Missing? && |es| == N { return Structure; }
      var replaced := InsertInLeaf(leaf, k, v);
      r := Completed(replaced);
    }

    /** `LeafNode::insert` plus the counter update under the same latch. */
    method StoreRecord(leaf: PageId, k: Key, v: Value) returns (replaced: Option<Value>)
      requires Stores.Valid(State(), leaf) && pages[leaf].kind.Leaf?
      modifies this`pages, this`len
      ensures State() == PutRecord(old(State()), leaf, k, v)
      ensures replaced == LeafGet(old(pages[leaf].kind.entries), k)
    {
      var es := pages[leaf].kind.entries;
      match Search(es, k) {
        case Found(i) =>
          replaced := Some(es[i].value);
          pages := pages[leaf := pages[leaf].(kind := Leaf(es[i := Entry(k, v)]))];
        case Missing(i) =>
          replaced := None;
          pages := pages[leaf := pages[leaf].(kind := Leaf(es[..i] + [Entry(k, v)] + es[i..]))];
          len := len + 1;
      }
    }

    method InsertInLeaf(leaf: PageId, k: Key, v: Value) returns (replaced: Option<Value>)
      requires Quiet(State()) && Stores.Valid(State(), leaf) && pages[leaf].kind.Leaf? && Owns(pages[leaf], k)
      requires Search(pages[leaf].kind.entries, k).Missing? ==> |pages[leaf].kind.entries| < N
      modifies this`pages, this`len
      ensures Quiet(State()) && replaced == Lookup(old(Contents(State())), k)
      ensures Contents(State()) == old(Contents(State()))[k := v]
    {
      PutIsQuiet(State(), leaf, k, v);
      replaced := StoreRecord(leaf, k, v);
    }

    /** `Array::remove` at a leaf plus the counter update. */
    method EraseRecord(leaf: PageId, k: Key) returns (removed: Option<Value>)
      requires Stores.Valid(State(), leaf) && pages[leaf].kind.Leaf?
      requires Search(pages[leaf].kind.entries, k).Found?
      modifies this`pages, this`len
      ensures State() == DropRecord(old(State()), leaf, k)
      ensures removed == LeafGet(old(pages[leaf].kind.entries), k)
    {
      var es := pages[leaf].kind.entries;
      var i := Search(es, k).index;
      removed := Some(es[i].value);
      pages := pages[leaf := pages[leaf].(kind := Leaf(es[..i] + es[i + 1..]))];
      len := len - 1;
    }

    method RemoveFromLeaf(leaf: PageId, k: Key) returns (removed: Option<Value>)
      requires Calm(State()) && Stores.Valid(State(), leaf) && pages[leaf].kind.Leaf? && Owns(pages[leaf], k)
      requires Search(pages[leaf].kind.entries, k).Found? ==> pages[leaf].isRoot || N / 2 < |pages[leaf].kind.entries|
      modifies this`pages, this`len
      ensures Calm(State()) && removed == Lookup(old(Contents(State())), k)
      ensures Contents(State()) == old(Contents(State())) - {k}
      ensures Hollow(State()) <==> Hollow(old(State()))
    {
      if Search(pages[leaf].kind.entries, k).Found? {
        DropIsCalm(State(), leaf, k);
        DropKeepsHollow(State(), leaf, k);
        removed := EraseRecord(leaf, k);
      } else {
        MissingAtOwner(State(), leaf, k);
        removed := None;
      }
    }

    method TryRemoveWithoutRebalance(k: Key) returns (r: Fast)
      requires Quiet(State())
      modifies this`pages, this`len
      ensures r.Structure? ==> State() == old(State())
      ensures r.Completed? ==>
                && Quiet(State()) && r.value == Lookup(old(Contents(State())), k)
                && Contents(State()) == old(Contents(State())) - {k}
    {
      var leaf := LeafFor(k);
      var es := pages[leaf].kind.entries;
      if Search(es, k).Found? && !pages[leaf].isRoot && |es| <= N / 2 { return Structure; }
      var removed := RemoveFromLeaf(leaf, k);
      r := Completed(removed);
    }

    // --------------------------------------------------------------- splits

    /** Splits a full page in place and allocates its right half. */
    method SplitPage(c: PageId) returns (separator: Key, right: PageId, successor: Option<PageId>)
      requires Stores.Valid(State(), c) && Splittable(pages[c])
      modifies this`pages
      ensures var split := SplitOf(old(State()), c);
              && pages == old(pages)[c := split.left] + [split.right]
              && separator == split.separator
      ensures right == |old(pages)| && successor == old(pages[c].right)
    {
      var page := pages[c];
      var rank := RankAfter(pages, page.rank);
      var middle := N / 2;
      var lower, upper;
      match page.kind {
        case Leaf(entries) =>
          upper := Leaf(entries[middle..]);
          lower := Leaf(entries[..middle]);
          separator := entries[middle].key;
        case Internal(keys, children) =>
          separator := keys[middle];
          var rest := keys[..middle] + keys[middle + 1..];
          upper := Internal(rest[middle..], children[middle + 1..]);
          lower := Internal(rest[..middle], children[..middle + 1]);
          assert rest[middle..] == keys[middle + 1..] && rest[..middle] == keys[..middle];
      }
      successor := page.right;
      right := |pages|;
      pages := pages + [Page(false, Some(separator), page.high, Some(c), successor, upper, page.level, rank)];
      pages := pages[c := page.(kind := lower, high := Some(separator), right := Some(right))];
    }

    /** Lets the right link of an active page skip its retired neighbour. */
    method Compact(p: PageId)
      requires Inv(State()) && Live(State(), p) && pages[p].right.Some?
      requires Stores.Valid(State(), pages[p].right.value) && pages[pages[p].right.value].kind.Redirect?
      modifies this`pages
      ensures State() == SetRight(old(State()), p, old(pages[pages[p].right.value].kind.target))
      ensures Inv(State()) && Records(State()) == old(Records(State())) && Shortened(old(State()), State())
      ensures RightAbove(State(), p) < old(RightAbove(State(), p))
      ensures forall q: PageId | Spliced(old(State()), q) :: Spliced(State(), q)
    {
      CompactKeepsInv(State(), p);
      CompactShortens(State(), p);
      var target := pages[pages[p].right.value].kind.target;
      PutRecords(State(), p, pages[p].(right := Some(target)));
      pages := pages[p := pages[p].(right := Some(target))];
    }

    method LinkBack(p: PageId, previous: Option<PageId>)
      requires Inv(State()) && Stores.Valid(State(), p) && (previous.Some? ==> LinksTo(State(), previous.value, p))
      modifies this`pages
      ensures State() == SetPrevious(old(State()), p, previous) && BackMatches(State(), p)
      ensures Inv(State()) && Records(State()) == old(Records(State()))
      ensures forall q: PageId | Spliced(old(State()), q) :: Spliced(State(), q)
    {
      SetPreviousKeepsInv(State(), p, previous);
      PutRecords(State(), p, pages[p].(previous := previous));
      forall q: PageId | Spliced(State(), q)
        ensures Spliced(SetPrevious(State(), p, previous), q)
      {
        SetPreviousKeepsSpliced(State(), p, previous, q);
      }
      pages := pages[p := pages[p].(previous := previous)];
    }

    /** Advances a split successor's back-link, compacting retired pages that
        lie between. Terminates in any heap, chained or not. */
    method RepairSplitBacklink(newRight: PageId, oldSuccessor: Option<PageId>)
      requires Inv(State()) && Stores.Valid(State(), newRight)
      requires oldSuccessor.Some? ==> Stores.Valid(State(), oldSuccessor.value)
      modifies this`pages
      ensures Inv(State()) && Records(State()) == old(Records(State()))
      ensures Live(old(State()), newRight) && old(pages[newRight].right) == oldSuccessor
              && (oldSuccessor.Some? ==> Live(old(State()), oldSuccessor.value))
              ==> State() == RepairSplit(old(State()), newRight, oldSuccessor)
    {
      if oldSuccessor.None? { return; }
      var successor := oldSuccessor.value;
      if pages[newRight].kind.Redirect? || pages[newRight].right != Some(successor) { return; }
      while pages[successor].kind.Redirect?
        invariant Inv(State()) && LinksTo(State(), newRight, successor)
        invariant Records(State()) == old(Records(State()))
        invariant || (State() == old(State()) && successor == oldSuccessor.value)
                  || !Live(old(State()), oldSuccessor.value)
        decreases Above(State(), successor)
      {
        var target := pages[successor].kind.target;
        RetiredNeighbour(State(), newRight);
        AboveShrinks(State(), successor, target);
        ghost var before := State();
        Compact(newRight);
        ShortenedAbove(before, State(), target);
        successor := target;
      }
      LinkBack(successor, Some(newRight));
    }

    /** Splits full child `i` of `p` and publishes the separator in `p`. */
    method SplitAndPublish(p: PageId, i: nat) returns (separator: Key, right: PageId, successor: Option<PageId>)
      requires HasChild(State(), p, i) && Splittable(pages[pages[p].kind.children[i]])
      requires pages[p].kind.children[i] != p
      modifies this`pages
      ensures State() == SplitChild(old(State()), p, i)
      ensures right == |old(pages)| && successor == old(pages[pages[p].kind.children[i]].right)
      ensures separator == SplitOf(old(State()), old(pages[p].kind.children[i])).separator
    {
      var (keys, children) := (pages[p].kind.keys, pages[p].kind.children);
      separator, right, successor := SplitPage(children[i]);
      pages := pages[p := pages[p].(kind := Internal(
        keys[..i] + [separator] + keys[i..],
        children[..i + 1] + [right] + children[i + 1..]))];
    }

    /** The split of a full child together with its link repair. */
    method SplitFullChild(p: PageId, i: nat) returns (separator: Key, right: PageId)
      requires Quiet(State()) && HasChild(State(), p, i) && Occupancy(pages[p]) < N
      requires Occupancy(pages[pages[p].kind.children[i]]) == N
      modifies this`pages
      ensures right == |old(pages)| && Quiet(State()) && KeepsMap(old(State()), State())
      ensures var s := old(State());
              && Splittable(s.pages[s.pages[p].kind.children[i]])
              && (var succ := s.pages[s.pages[p].kind.children[i]].right; succ.Some? ==> Stores.Valid(s, succ.value))
              && separator == SplitOf(s, s.pages[p].kind.children[i]).separator
              && State() == SplitAndRepair(s, p, i)
    {
      SplitAndRepairIsQuiet(State(), p, i);
      SplitChildKeepsInv(State(), p, i);
      var successor;
      separator, right, successor := SplitAndPublish(p, i);
      RepairSplitBacklink(right, successor);
    }

    /** Splits a full root in place and publishes a new root above the halves. */
    method GrowRoot()
      requires Live(State(), root) && Splittable(pages[root])
      modifies this`pages, this`root
      ensures State() == SplitRoot(old(State()))
    {
      ghost var split := SplitOf(State(), root);
      var separator, right, _ := SplitPage(root);
      pages := pages[root := pages[root].(isRoot := false)];
      assert pages == old(pages)[root := split.left.(isRoot := false)] + [split.right];
      var top := Page(true, None, None, None, None, Internal([separator], [root, right]),
                      pages[root].level + 1, TopRank(pages));
      pages := pages + [top];
      root := right + 1;
    }

    /** Splits the root if it is full; a root has no successor to repair. */
    method SplitRootIfFull()
      requires Quiet(State())
      modifies this`pages, this`root
      ensures Quiet(State()) && KeepsMap(old(State()), State())
      ensures Occupancy(pages[root]) < N
    {
      assert PageOk(State(), root);
      if Occupancy(pages[root]) < N { return; }
      SplitRootIsCalm(State());
      GrowRoot();
    }

    /** Picks the child for `k`, splitting it first if it is full. */
    method EnterForInsert(node: PageId, k: Key) returns (next: PageId)
      requires Quiet(State()) && Live(State(), node) && pages[node].kind.Internal?
      requires Owns(pages[node], k) && Occupancy(pages[node]) < N
      modifies this`pages
      ensures Quiet(State()) && KeepsMap(old(State()), State())
      ensures Live(State(), next) && Owns(pages[next], k) && Occupancy(pages[next]) < N
      ensures pages[next].level + 1 == old(pages[node].level)
    {
      ChildOwns(State(), node, k);
      assert PageOk(State(), node);
      var i := FindChild(pages[node].kind.keys, k);
      var child := pages[node].kind.children[i];
      assert PageOk(State(), child);
      if Occupancy(pages[child]) == N {
        SplitHalfEntered(State(), node, i, k);
        var separator, right := SplitFullChild(node, i);
        next := if separator <= k then right else child;
      } else {
        next := child;
      }
    }

    /** One top-down insertion pass. Without interference it fails only on a
        full root, and it meets neither Restart nor Right on its way. */
    method InsertAttempt(k: Key, v: Value) returns (r: Attempt)
      requires Quiet(State())
      modifies this`pages, this`len
      ensures r.Retry? <==> old(Occupancy(pages[root])) == N
      ensures r.Retry? ==> State() == old(State())
      ensures r.Done? ==>
                && Quiet(State()) && r.value == Lookup(old(Contents(State())), k)
                && Contents(State()) == old(Contents(State()))[k := v]
    {
      var node := root;
      assert PageOk(State(), root);
      while true
        invariant Quiet(State()) && Live(State(), node) && Owns(pages[node], k)
        invariant Contents(State()) == old(Contents(State()))
        invariant if old(Occupancy(pages[root])) == N then node == root && State() == old(State())
                  else Occupancy(pages[node]) < N
        decreases pages[node].level
      {
        var page := pages[node];
        assert PageOk(State(), node);
        assert RouteOf(page, k) == Here;
        if Occupancy(page) == N { return Retry; }
        if page.kind.Leaf? {
          var replaced := InsertInLeaf(node, k, v);
          return Done(replaced);
        }
        node := EnterForInsert(node, k);
      }
    }

    /** Inserts or replaces one record. */
    method Insert(k: Key, v: Value) returns (replaced: Option<Value>)
      requires Quiet(State())
      modifies this
      ensures Quiet(State()) && replaced == Lookup(old(Contents(State())), k)
      ensures Contents(State()) == old(Contents(State()))[k := v]
      ensures len == old(len) + if replaced.None? then 1 else 0
    {
      SizeAfterUpdate(Contents(State()), k, v);
      var fast := TryInsertWithoutSplit(k, v);
      if fast.Completed? { return fast.value; }
      SplitRootIfFull();
      var attempt := InsertAttempt(k, v);
      replaced := attempt.value;
    }

    // ------------------------------------------------------ borrow and merge

    method BorrowLeft(p: PageId, i: nat)
      requires HasSiblings(State(), p, i) && CanBorrowLeft(FamilyOf(State(), p, i))
      requires var cs := pages[p].kind.children; cs[i] != p && cs[i + 1] != p && cs[i] != cs[i + 1]
      modifies this`pages
      ensures State() == PutFamily(old(State()), p, i, BorrowFromLeft(FamilyOf(old(State()), p, i), i))
    {
      var (left, right) := (pages[p].kind.children[i], pages[p].kind.children[i + 1]);
      var boundary;
      if pages[left].kind.Leaf? {
        var (l, r) := (pages[left].kind.entries, pages[right].kind.entries);
        var entry := l[|l| - 1];
        boundary := entry.key;
        pages := pages[left := pages[left].(kind := Leaf(l[..|l| - 1]))];
        pages := pages[right := pages[right].(kind := Leaf([entry] + r))];
      } else {
        var (l, r) := (pages[left].kind, pages[right].kind);
        boundary := l.keys[|l.keys| - 1];
        var oldParent := pages[p].kind.keys[i];
        var child := l.children[|l.children| - 1];
        pages := pages[left := pages[left].(kind := Internal(l.keys[..|l.keys| - 1], l.children[..|l.children| - 1]))];
        pages := pages[right := pages[right].(kind := Internal([oldParent] + r.keys, [child] + r.children))];
      }
      pages := pages[p := pages[p].(kind := Internal(pages[p].kind.keys[i := boundary], pages[p].kind.children))];
      pages := pages[left := pages[left].(high := Some(boundary))];
      pages := pages[right := pages[right].(low := Some(boundary))];
    }

    method BorrowRight(p: PageId, i: nat)
      requires HasSiblings(State(), p, i) && CanBorrowRight(FamilyOf(State(), p, i))
      requires var cs := pages[p].kind.children; cs[i] != p && cs[i + 1] != p && cs[i] != cs[i + 1]
      modifies this`pages
      ensures State() == PutFamily(old(State()), p, i, BorrowFromRight(FamilyOf(old(State()), p, i), i))
    {
      var (left, right) := (pages[p].kind.children[i], pages[p].kind.children[i + 1]);
      var boundary;
      if pages[left].kind.Leaf? {
        var (l, r) := (pages[left].kind.entries, pages[right].kind.entries);
        pages := pages[right := pages[right].(kind := Leaf(r[1..]))];
        pages := pages[left := pages[left].(kind := Leaf(l + [r[0]]))];
        boundary := r[1..][0].key;
      } else {
        var (l, r) := (pages[left].kind, pages[right].kind);
        boundary := r.keys[0];
        var oldParent := pages[p].kind.keys[i];
        pages := pages[right := pages[right].(kind := Internal(r.keys[1..], r.children[1..]))];
        pages := pages[left := pages[left].(kind := Internal(l.keys + [oldParent], l.children + [r.children[0]]))];
      }
      pages := pages[p := pages[p].(kind := Internal(pages[p].kind.keys[i := boundary], pages[p].kind.children))];
      pages := pages[left := pages[left].(high := Some(boundary))];
      pages := pages[right := pages[right].(low := Some(boundary))];
    }

    method MergeChildren(p: PageId, i: nat) returns (predecessor: Option<PageId>)
      requires HasSiblings(State(), p, i)
      requires var cs := pages[p].kind.children; cs[i] != p && cs[i + 1] != p && cs[i] != cs[i + 1]
      modifies this`pages
      ensures State() == MergeAt(old(State()), p, i)
      ensures predecessor == old(pages[pages[p].kind.children[i]].previous)
    {
      var (keys, children) := (pages[p].kind.keys, pages[p].kind.children);
      var (left, right) := (children[i], children[i + 1]);
      var separator := keys[i];
      pages := pages[p := pages[p].(kind := Internal(keys[..i] + keys[i + 1..], children[..i] + children[i + 1..]))];
      if pages[left].kind.Leaf? {
        pages := pages[right := pages[right].(kind := Leaf(pages[left].kind.entries + pages[right].kind.entries))];
      } else {
        var (l, r) := (pages[left].kind, pages[right].kind);
        var merged := Internal(l.keys + ([separator] + r.keys), l.children + r.children);
        pages := pages[right := pages[right].(kind := merged)];
        assert l.keys + ([separator] + r.keys) == l.keys + [separator] + r.keys;
      }
      predecessor := pages[left].previous;
      pages := pages[right := pages[right].(low := pages[left].low, previous := predecessor)];
      pages := pages[left := pages[left].(kind := Redirect(right), low := None)];
    }

    /** The search stands at an active page that links to the retired page. */
    method JoinAtRetired(cursor: PageId, retired: PageId, survivor: PageId) returns (next: Option<PageId>)
      requires Inv(State()) && RepairOk(State(), Repair(None, retired, survivor))
      requires LinksTo(State(), cursor, retired)
      modifies this`pages
      ensures Inv(State()) && Records(State()) == old(Records(State())) && Spliced(State(), retired)
      ensures Active(old(pages[survivor])) ==>
                && next.None? && BackMatches(State(), survivor)
                && State() == RepairMerge(old(State()), Some(cursor), survivor)
      ensures old(pages[survivor].kind.Redirect?) ==>
                && next == Some(old(pages[survivor].kind.target))
                && Shortened(old(State()), State()) && !Spliced(old(State()), retired)
    {
      if Spliced(State(), retired) { SplicedIsUnlinked(State(), cursor, retired); }
      RetiredNeighbour(State(), cursor);
      Compact(cursor);
      assert LinksPast(State(), cursor, retired);
      if pages[survivor].kind.Redirect? {
        Compact(cursor);
        next := Some(pages[survivor].kind.target);
      } else {
        LinkBack(survivor, Some(cursor));
        next := None;
      }
    }

    /** The search stands at an active page that links to the survivor. */
    method JoinAtSurvivor(cursor: PageId, retired: PageId, survivor: PageId) returns (next: Option<PageId>)
      requires Inv(State()) && RepairOk(State(), Repair(None, retired, survivor))
      requires LinksTo(State(), cursor, survivor)
      modifies this`pages
      ensures Inv(State()) && Records(State()) == old(Records(State()))
      ensures OnCourse(old(State()), Some(cursor), retired) ==> Spliced(State(), retired)
      ensures Active(old(pages[survivor])) ==> next.None? && BackMatches(State(), survivor)
      ensures old(pages[survivor].kind.Redirect?) ==>
                && next == Some(cursor) && Shortened(old(State()), State())
                && RightAbove(State(), cursor) < old(RightAbove(State(), cursor))
    {
      if LiesLeft(State(), cursor, retired) { assert LinksPast(State(), cursor, retired); }
      if pages[survivor].kind.Redirect? {
        Compact(cursor);
        next := Some(cursor);
      } else {
        LinkBack(survivor, Some(cursor));
        next := None;
      }
    }

    /** The search stands at an active page that links to another page. */
    method PeekAhead(cursor: PageId, retired: PageId, survivor: PageId) returns (next: Option<PageId>)
      requires Inv(State()) && RepairOk(State(), Repair(None, retired, survivor))
      requires Live(State(), cursor) && pages[cursor].right.Some?
      requires pages[cursor].right != Some(retired) && pages[cursor].right != Some(survivor)
      modifies this`pages
      ensures Inv(State()) && Records(State()) == old(Records(State()))
      ensures OnCourse(old(State()), Some(cursor), retired) ==> OnCourse(State(), next, retired)
      ensures Spliced(old(State()), retired) ==> Spliced(State(), retired)
      ensures next.None? ==> BackMatches(State(), survivor)
      ensures next.Some? ==>
                && Live(State(), next.value) && Shortened(old(State()), State())
                && Advances(old(State()), State(), cursor, next.value)
    {
      var ahead := pages[cursor].right.value;
      RetiredNeighbour(State(), cursor);
      assert OrderOk(State(), ahead, retired);
      AboveShrinks(State(), cursor, ahead);
      if pages[ahead].kind.Redirect? {
        Compact(cursor);
        if pages[cursor].right == Some(survivor) && !pages[survivor].kind.Redirect? {
          assert LiesLeft(State(), cursor, retired) ==> LinksPast(State(), cursor, retired);
          LinkBack(survivor, Some(cursor));
          next := None;
        } else {
          next := Some(cursor);
        }
      } else {
        assert LiesLeft(State(), cursor, retired) ==>
                 LiesLeft(State(), ahead, retired) || LinksPast(State(), cursor, retired);
        next := Some(ahead);
      }
    }

    /** One turn of the search at an active page. */
    method SearchTurn(cursor: PageId, retired: PageId, survivor: PageId) returns (next: Option<PageId>)
      requires Inv(State()) && RepairOk(State(), Repair(None, retired, survivor)) && Live(State(), cursor)
      modifies this`pages
      ensures Inv(State()) && Records(State()) == old(Records(State()))
      ensures OnCourse(old(State()), Some(cursor), retired) ==> OnCourse(State(), next, retired)
      ensures Spliced(old(State()), retired) ==> Spliced(State(), retired)
      ensures next.None? ==> BackMatches(State(), survivor)
      ensures next.Some? ==> Shortened(old(State()), State()) && Stores.Valid(State(), next.value)
      ensures next.Some? ==>
                || (Live(State(), next.value) && Advances(old(State()), State(), cursor, next.value))
                || (!Spliced(old(State()), retired) && Spliced(State(), retired)
                    && old(pages[survivor].kind) == Redirect(next.value))
      ensures old(pages[cursor].right) == Some(retired) && Active(old(pages[survivor])) ==>
                next.None? && State() == RepairMerge(old(State()), Some(cursor), survivor)
    {
      assert PageOk(State(), cursor) && PageOk(State(), survivor);
      var right := pages[cursor].right;
      if right.None? {
        assert LiesLeft(State(), cursor, retired) ==> LinksPast(State(), cursor, retired);
        LinkBack(survivor, None);
        next := None;
      } else if right.value == retired {
        next := JoinAtRetired(cursor, retired, survivor);
      } else if right.value == survivor {
        next := JoinAtSurvivor(cursor, retired, survivor);
      } else {
        next := PeekAhead(cursor, retired, survivor);
      }
    }

    /** The search for the link to the retired page: to the right from `start`,
        backtracking through retired pages and compacting the links it passes.
        Pages in `freed` can no longer be reached by back-links. The search ends
        if backtracking comes out at active pages. */
    method SearchFrom(start: PageId, retired: PageId, survivor: PageId, freed: set<PageId>)
      requires Inv(State()) && RepairOk(State(), Repair(Some(start), retired, survivor)) && start !in freed
      requires ComesOut(State(), freed, Repair(Some(start), retired, survivor))
      modifies this`pages
      ensures Inv(State()) && Records(State()) == old(Records(State())) && BackMatches(State(), survivor)
      ensures LiesLeft(old(State()), start, retired) ==> Spliced(State(), retired)
      ensures Active(old(pages[survivor])) && LinksTo(old(State()), start, retired) ==>
                State() == RepairMerge(old(State()), Some(start), survivor)
    {
      var cursor := start;
      ghost var s := State();
      ghost var n: nat :| EscapesIn(s, freed, cursor, n);
      while true
        invariant Inv(State()) && Records(State()) == old(Records(State())) && Shortened(s, State())
        invariant Stores.Valid(s, cursor) && EscapesIn(s, freed, cursor, n)
        invariant LiesLeft(s, start, retired) ==> OnCourse(State(), Some(cursor), retired)
        invariant Active(s.pages[survivor]) && LinksTo(s, start, retired) ==> State() == s && cursor == start
        decreases if Spliced(State(), retired) then 0 else 1, if Active(pages[cursor]) then 0 else n,
                  Above(State(), cursor), RightAbove(State(), cursor)
      {
        if pages[cursor].kind.Redirect? {
          BacktrackTurn(s, State(), freed, cursor, n);
          var (back, target) := (pages[cursor].previous, pages[cursor].kind.target);
          cursor := if back.Some? && back.value !in freed then back.value else target;
          n := n - 1;
        } else {
          assert OnlyRightMoves(s.pages[survivor], pages[survivor]);
          assert OnlyRightMoves(s.pages[retired], pages[retired]);
          ghost var before := State();
          var next := SearchTurn(cursor, retired, survivor);
          if next.None? { return; }
          ShortenedTwice(s, before, State());
          ShortenedAbove(before, State(), cursor);
          assert OnlyRightMoves(s.pages[next.value], pages[next.value]);
          n :| EscapesIn(s, freed, next.value, n);
          cursor := next.value;
        }
      }
    }

    /** Splices a retired page out of the chain of its level. */
    method RepairMergedLink(predecessor: Option<PageId>, retired: PageId, survivor: PageId, freed: set<PageId>)
      requires Inv(State()) && RepairOk(State(), Repair(predecessor, retired, survivor))
      requires ComesOut(State(), freed, Repair(predecessor, retired, survivor))
      modifies this`pages
      ensures Inv(State()) && Records(State()) == old(Records(State())) && BackMatches(State(), survivor)
      ensures predecessor.Some? && predecessor.value !in freed && LiesLeft(old(State()), predecessor.value, retired)
              ==> Spliced(State(), retired)
      ensures Active(old(pages[survivor]))
              && (predecessor.Some? ==>
                    predecessor.value !in freed && LinksTo(old(State()), predecessor.value, retired))
              ==> State() == RepairMerge(old(State()), predecessor, survivor)
    {
      if predecessor.None? || predecessor.value in freed {
        LinkBack(survivor, None);
      } else {
        SearchFrom(predecessor.value, retired, survivor, freed);
      }
    }

    /** Merges children `i` and `i + 1` of `p` and repairs the chain. */
    method MergeAndRepair(p: PageId, i: nat)
      requires Calm(State()) && HasSiblings(State(), p, i)
      requires CanMerge(FamilyOf(State(), p, i)) && CanLose(pages[p])
      modifies this`pages
      ensures KeepsMap(old(State()), State())
      ensures var (s, l) := (old(State()), old(pages[p].kind.children[i]));
              && (s.pages[l].previous.Some? ==> Stores.Valid(s, s.pages[l].previous.value))
              && State() == Quiescence.MergeAndRepair(s, p, i)
    {
      var (left, right) := (pages[p].kind.children[i], pages[p].kind.children[i + 1]);
      MergeIsCalm(State(), p, i);
      SiblingsAdjacent(State(), p, i);
      SiblingsLinked(State(), p, i);
      MergeIsRepairable(State(), p, i);
      var predecessor := MergeChildren(p, i);
      assert predecessor.Some? ==> EscapesIn(State(), {}, predecessor.value, 0);
      RepairMergedLink(predecessor, left, right, {});
    }

    /** Lends one record or child to the needy sibling, which owns `k`. */
    method LendTo(p: PageId, i: nat, leftNeedy: bool, k: Key)
      requires Calm(State()) && HasSiblings(State(), p, i)
      requires var f := FamilyOf(State(), p, i);
               if leftNeedy then CanBorrowRight(f) && Owns(f.left, k) && Minimum(f.left) <= Occupancy(f.left)
               else CanBorrowLeft(f) && Owns(f.right, k) && Minimum(f.right) <= Occupancy(f.right)
      modifies this`pages
      ensures KeepsMap(old(State()), State())
      ensures var next := old(pages[p].kind.children[if leftNeedy then i else i + 1]);
              Enters(old(State()), p, State(), k, next) && Minimum(pages[next]) < Occupancy(pages[next])
    {
      BorrowIsCalm(State(), p, i, !leftNeedy);
      BorrowerEntered(State(), p, i, !leftNeedy, k);
      SiblingsAdjacent(State(), p, i);
      if leftNeedy { BorrowRight(p, i); } else { BorrowLeft(p, i); }
    }

    /** Merges two minimal siblings, one of which owns `k`. */
    method FoldInto(p: PageId, i: nat, k: Key)
      requires Calm(State()) && HasSiblings(State(), p, i)
      requires CanMerge(FamilyOf(State(), p, i)) && CanLose(pages[p])
      requires Owns(pages[pages[p].kind.children[i]], k) || Owns(pages[pages[p].kind.children[i + 1]], k)
      modifies this`pages
      ensures KeepsMap(old(State()), State())
      ensures var next := old(pages[p].kind.children[i + 1]);
              Enters(old(State()), p, State(), k, next) && Minimum(pages[next]) < Occupancy(pages[next])
    {
      SurvivorEntered(State(), p, i, k);
      SurvivorAfterRepair(State(), p, i);
      MergeAndRepair(p, i);
    }

    /** Makes the needy one of the children around separator `i`, which owns
        `k`, safe to lose a record or separator: it is left alone, lent to by
        its sibling, or merged with it. */
    method RefillPair(p: PageId, i: nat, leftNeedy: bool, k: Key) returns (next: PageId)
      requires Calm(State()) && HasSiblings(State(), p, i) && CanLose(pages[p])
      requires Owns(pages[pages[p].kind.children[if leftNeedy then i else i + 1]], k)
      modifies this`pages
      ensures KeepsMap(old(State()), State())
      ensures Live(State(), next) && Owns(pages[next], k) && Minimum(pages[next]) < Occupancy(pages[next])
      ensures pages[next].level + 1 == old(pages[p].level)
    {
      var (left, right) := (pages[p].kind.children[i], pages[p].kind.children[i + 1]);
      SiblingsAdjacent(State(), p, i);
      assert PageOk(State(), left) && PageOk(State(), right);
      var (needy, donor) := if leftNeedy then (left, right) else (right, left);
      if Minimum(pages[needy]) < Occupancy(pages[needy]) {
        next := needy;
      } else if Minimum(pages[donor]) < Occupancy(pages[donor]) {
        LendTo(p, i, leftNeedy, k);
        next := needy;
      } else {
        FoldInto(p, i, k);
        next := right;
      }
    }

    /** The separator around which the child for `k` is paired with its left
        sibling, or, for the first child, with its right sibling. */
    method PairFor(node: PageId, k: Key) returns (pair: Option<(nat, bool)>)
      requires Inv(State()) && Live(State(), node) && pages[node].kind.Internal? && Owns(pages[node], k)
      ensures pair.None? <==> pages[node].kind == Internal([], pages[node].kind.children)
      ensures pair.Some? ==>
                && HasSiblings(State(), node, pair.value.0)
                && Owns(pages[pages[node].kind.children[if pair.value.1 then pair.value.0 else pair.value.0 + 1]], k)
    {
      ChildOwns(State(), node, k);
      assert PageOk(State(), node);
      var i := FindChild(pages[node].kind.keys, k);
      if i > 0 {
        SiblingsAdjacent(State(), node, i - 1);
        return Some((i - 1, false));
      }
      if |pages[node].kind.children| < 2 { return None; }
      SiblingsAdjacent(State(), node, 0);
      return Some((0, true));
    }

    /** Picks the child for `k` and makes it deletion-safe; None when the only
        child has no sibling. */
    method EnterForRemove(node: PageId, k: Key) returns (next: Option<PageId>)
      requires Calm(State()) && Live(State(), node) && pages[node].kind.Internal?
      requires Owns(pages[node], k) && CanLose(pages[node])
      modifies this`pages
      ensures next.None? <==> old(pages[node].kind) == Internal([], old(pages[node].kind.children))
      ensures next.None? ==> State() == old(State())
      ensures next.Some? ==>
                && KeepsMap(old(State()), State())
                && Live(State(), next.value) && Owns(pages[next.value], k)
                && Minimum(pages[next.value]) < Occupancy(pages[next.value])
                && pages[next.value].level + 1 == old(pages[node].level)
    {
      var pair := PairFor(node, k);
      if pair.None? { return None; }
      var child := RefillPair(node, pair.value.0, pair.value.1, k);
      next := Some(child);
    }

    /** One top-down deletion pass. Without interference it fails only on a root
        without separators, and it meets neither Restart nor Right. */
    method RemoveAttempt(k: Key) returns (r: Attempt)
      requires Calm(State())
      modifies this`pages, this`len
      ensures r.Retry? <==> Hollow(old(State()))
      ensures r.Retry? ==> State() == old(State())
      ensures r.Done? ==>
                && Calm(State()) && r.value == Lookup(old(Contents(State())), k)
                && Contents(State()) == old(Contents(State())) - {k}
    {
      var node := root;
      assert PageOk(State(), root);
      while true
        invariant Calm(State()) && Live(State(), node) && Owns(pages[node], k)
        invariant Contents(State()) == old(Contents(State()))
        invariant (node == root && State() == old(State())) ||
                  (!Hollow(old(State())) && Minimum(pages[node]) < Occupancy(pages[node]))
        decreases pages[node].level
      {
        var page := pages[node];
        assert PageOk(State(), node);
        assert RouteOf(page, k) == Here;
        if !page.isRoot && Occupancy(page) <= Minimum(page) { return Retry; }
        if page.kind.Leaf? {
          var removed := RemoveFromLeaf(node, k);
          return Done(removed);
        }
        var next := EnterForRemove(node, k);
        if next.None? { return Retry; }
        node := next.value;
      }
    }

    /** Publishes the sole child of the root in its place. */
    method CollapseEmptyRoot()
      requires KeylessRoot(State()) && pages[root].kind.children[0] != root
      modifies this`pages, this`root
      ensures State() == CollapseRoot(old(State()))
    {
      var child := pages[root].kind.children[0];
      pages := pages[child := pages[child].(low := None, high := None, previous := None, right := None,
                                            isRoot := true)];
      pages := pages[root := pages[root].(isRoot := false, kind := Redirect(child), low := None, high := None,
                                          previous := None, right := None)];
      root := child;
    }

    /** Removes root levels that have no separators left. */
    method ShrinkRoot()
      requires Calm(State())
      modifies this`pages, this`root
      ensures Quiet(State()) && KeepsMap(old(State()), State())
    {
      while pages[root].kind.Internal? && pages[root].kind.keys == []
        invariant Calm(State()) && KeepsMap(old(State()), State())
        decreases pages[root].level
      {
        HollowCollapses(State());
        CollapseEmptyRoot();
      }
    }

    /** Removes one record if present. */
    method Remove(k: Key) returns (removed: Option<Value>)
      requires Quiet(State())
      modifies this
      ensures Quiet(State()) && removed == Lookup(old(Contents(State())), k)
      ensures Contents(State()) == old(Contents(State())) - {k}
      ensures len == old(len) - if removed.Some? then 1 else 0
    {
      var fast := TryRemoveWithoutRebalance(k);
      if fast.Completed? { return fast.value; }
      ShrinkRoot();
      var attempt := RemoveAttempt(k);
      ShrinkRoot();
      removed := attempt.value;
    }
  }

  lemma FreshIsQuiet()
    ensures Quiet(EmptyStore()) && Contents(EmptyStore()) == map[]
  {
    EmptyStoreSound();
    assert ChainOk(EmptyStore(), 0);
  }
}
