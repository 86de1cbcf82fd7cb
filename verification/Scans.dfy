/** Bounded scans along the leaves: what it means for a record to be the next
    one past a bound, and why following links never skips it. */
module Scans {
  import opened Pages
  import opened Bounds
  import opened Stores
  import opened Ownership
  import opened Abstraction
  import opened LeafSteps
  import opened Traversal

  /** `r` is the record of `m` with the least key past `b`, if there is one. */
  ghost predicate IsLeast(m: map<Key, Value>, b: Bound, r: Option<Entry>) {
    && (r.None? ==> forall k :: k in m ==> !AfterStart(b, k))
    && (r.Some? ==>
          && Lookup(m, r.value.key) == Some(r.value.value) && AfterStart(b, r.value.key)
          && forall k :: k in m && AfterStart(b, k) ==> r.value.key <= k)
  }

  /** `r` is the record of `m` with the greatest key, if there is one. */
  ghost predicate IsGreatest(m: map<Key, Value>, r: Option<Entry>) {
    && (r.None? ==> m == map[])
    && (r.Some? ==> Lookup(m, r.value.key) == Some(r.value.value) && forall k :: k in m ==> k <= r.value.key)
  }

  /** Where a record of the map is stored. */
  lemma RecordHome(s: Store, k: Key) returns (q: PageId, i: nat)
    requires Inv(s) && k in Contents(s)
    ensures Live(s, q) && s.pages[q].kind.Leaf? && i < |s.pages[q].kind.entries|
    ensures s.pages[q].kind.entries[i].key == k && Owns(s.pages[q], k) && s.pages[q].level == 0
  {
    RecordsFunctional(s);
    var e :| e in Records(s) && e.key == k;
    q :| q < |s.pages| && e in Entries(s.pages[q]);
    i :| i < |s.pages[q].kind.entries| && s.pages[q].kind.entries[i] == e;
    assert PageOk(s, q);
  }

  /** No leaf to the left of `node` has a record past `b`. */
  ghost predicate NothingBefore(s: Store, node: PageId, b: Bound)
    requires Valid(s, node)
  {
    forall q: PageId, i: nat |
      Live(s, q) && s.pages[q].kind.Leaf? && i < |s.pages[q].kind.entries| && s.pages[q].rank < s.pages[node].rank ::
      !AfterStart(b, s.pages[q].kind.entries[i].key)
  }

  /** A scan may start at the leaf that owns the bound's key, or at a leaf
      without a lower fence. */
  lemma ScanStarts(s: Store, node: PageId, b: Bound)
    requires Inv(s) && Live(s, node) && s.pages[node].kind.Leaf?
    requires if b.Unbounded? then s.pages[node].low.None? else Owns(s.pages[node], b.key)
    ensures NothingBefore(s, node, b)
  {
    forall q: PageId, i: nat |
      Live(s, q) && s.pages[q].kind.Leaf? && i < |s.pages[q].kind.entries| && s.pages[q].rank < s.pages[node].rank
      ensures !AfterStart(b, s.pages[q].kind.entries[i].key)
    {
      assert PageOk(s, q) && PageOk(s, node) && OrderOk(s, q, node);
      assert Owns(s.pages[q], s.pages[q].kind.entries[i].key);
    }
  }

  /** Following the link of a page that has nothing past `b` skips nothing. */
  lemma ScanMoves(s: Store, node: PageId, b: Bound)
    requires Inv(s) && Valid(s, node) && s.pages[node].level == 0 && Link(s.pages[node]).Some?
    requires NothingBefore(s, node, b)
    requires s.pages[node].kind.Leaf? ==> BoundIndex(s.pages[node].kind.entries, b) == |s.pages[node].kind.entries|
    ensures var next := Link(s.pages[node]).value;
            && Valid(s, next) && s.pages[next].level == 0 && Above(s, next) < Above(s, node)
            && NothingBefore(s, next, b)
  {
    assert PageOk(s, node);
    var next := Link(s.pages[node]).value;
    AboveShrinks(s, node, next);
    forall q: PageId, i: nat |
      Live(s, q) && s.pages[q].kind.Leaf? && i < |s.pages[q].kind.entries| && s.pages[q].rank < s.pages[next].rank
      ensures !AfterStart(b, s.pages[q].kind.entries[i].key)
    {
      assert PageOk(s, q) && GapOk(s, node, q) && OrderOk(s, q, node);
      if q == node { BoundIndexMeaning(s.pages[q].kind.entries, b); }
    }
  }

  /** A record of a leaf is a record of the map. */
  lemma LeafRecordInMap(s: Store, node: PageId, i: nat)
    requires Inv(s) && Live(s, node) && s.pages[node].kind.Leaf? && i < |s.pages[node].kind.entries|
    ensures var e := s.pages[node].kind.entries[i];
            Owns(s.pages[node], e.key) && Lookup(Contents(s), e.key) == Some(e.value)
  {
    assert PageOk(s, node);
    assert LeafShape(s.pages[node]);
    OwnerDecides(s, node, s.pages[node].kind.entries[i].key);
    EntryIsFound(s.pages[node].kind.entries, i);
  }

  /** A leaf to the left holds smaller keys only. */
  lemma LeftLeafIsSmaller(s: Store, q: PageId, i: nat, node: PageId, j: nat)
    requires Inv(s) && Live(s, q) && s.pages[q].kind.Leaf? && i < |s.pages[q].kind.entries|
    requires Live(s, node) && s.pages[node].kind.Leaf? && j < |s.pages[node].kind.entries|
    requires s.pages[q].rank < s.pages[node].rank
    ensures s.pages[q].kind.entries[i].key < s.pages[node].kind.entries[j].key
  {
    assert PageOk(s, q) && PageOk(s, node) && OrderOk(s, q, node);
    LeafRecordInMap(s, q, i);
    LeafRecordInMap(s, node, j);
  }

  lemma FirstPastBound(s: Store, node: PageId, b: Bound, i: nat)
    requires Inv(s) && Live(s, node) && s.pages[node].kind.Leaf? && i < |s.pages[node].kind.entries|
    requires AfterStart(b, s.pages[node].kind.entries[i].key)
    ensures var es := s.pages[node].kind.entries;
            BoundIndex(es, b) < |es| && es[BoundIndex(es, b)].key <= es[i].key
  {
    assert PageOk(s, node);
    BoundIndexMeaning(s.pages[node].kind.entries, b);
  }

  lemma ScanPrecedes(s: Store, node: PageId, b: Bound, k: Key)
    requires Inv(s) && Live(s, node) && s.pages[node].kind.Leaf? && NothingBefore(s, node, b)
    requires BoundIndex(s.pages[node].kind.entries, b) < |s.pages[node].kind.entries|
    requires k in Contents(s) && AfterStart(b, k)
    ensures s.pages[node].kind.entries[BoundIndex(s.pages[node].kind.entries, b)].key <= k
  {
    var q, i := RecordHome(s, k);
    if q == node {
      FirstPastBound(s, node, b, i);
    } else {
      assert s.pages[node].rank < s.pages[q].rank by { assert OrderOk(s, node, q); }
      LeftLeafIsSmaller(s, node, BoundIndex(s.pages[node].kind.entries, b), q, i);
    }
  }

  /** The first record past the bound in the leaf a scan stands on. */
  lemma ScanFinds(s: Store, node: PageId, b: Bound)
    requires Inv(s) && Live(s, node) && s.pages[node].kind.Leaf? && NothingBefore(s, node, b)
    requires BoundIndex(s.pages[node].kind.entries, b) < |s.pages[node].kind.entries|
    ensures IsLeast(Contents(s), b, Some(s.pages[node].kind.entries[BoundIndex(s.pages[node].kind.entries, b)]))
  {
    var es := s.pages[node].kind.entries;
    LeafRecordInMap(s, node, BoundIndex(es, b));
    assert SortedEntries(es) by { assert PageOk(s, node); }
    BoundIndexMeaning(es, b);
    forall k | k in Contents(s) && AfterStart(b, k) ensures es[BoundIndex(es, b)].key <= k {
      ScanPrecedes(s, node, b, k);
    }
  }

  /** A scan that runs off the last leaf has seen every record. */
  lemma ScanEnds(s: Store, node: PageId, b: Bound)
    requires Inv(s) && Live(s, node) && s.pages[node].kind.Leaf? && NothingBefore(s, node, b)
    requires BoundIndex(s.pages[node].kind.entries, b) == |s.pages[node].kind.entries| && s.pages[node].right.None?
    ensures IsLeast(Contents(s), b, None)
  {
    assert PageOk(s, node);
    BoundIndexMeaning(s.pages[node].kind.entries, b);
    forall k | k in Contents(s) ensures !AfterStart(b, k) {
      var q, i := RecordHome(s, k);
      assert OrderOk(s, node, q) && OrderOk(s, q, node);
    }
  }

  /** The last record of a leaf, if it has one. */
  function LastOf(p: Page): Option<Entry> {
    if p.kind.Leaf? && p.kind.entries != [] then Some(p.kind.entries[|p.kind.entries| - 1]) else None
  }

  lemma LastLeafBounds(s: Store, node: PageId, k: Key)
    requires Inv(s) && Live(s, node) && s.pages[node].kind.Leaf? && s.pages[node].right.None? && k in Contents(s)
    ensures var es := s.pages[node].kind.entries; es != [] && k <= es[|es| - 1].key
  {
    assert PageOk(s, node);
    var q, i := RecordHome(s, k);
    assert OrderOk(s, node, q) && OrderOk(s, q, node);
    if s.pages[node].kind.entries == [] {
      assert node == s.root;
      RootAlone(s, q);
    }
  }

  /** The last record of the last leaf is the greatest; only an empty map has
      an empty last leaf. */
  lemma LastLeafHasGreatest(s: Store, node: PageId)
    requires Inv(s) && Live(s, node) && s.pages[node].kind.Leaf? && s.pages[node].right.None?
    ensures IsGreatest(Contents(s), LastOf(s.pages[node]))
  {
    var es := s.pages[node].kind.entries;
    if es != [] { LeafRecordInMap(s, node, |es| - 1); }
    forall k | k in Contents(s) ensures es != [] && k <= es[|es| - 1].key { LastLeafBounds(s, node, k); }
    assert es == [] ==> Contents(s) == map[];
  }
}
