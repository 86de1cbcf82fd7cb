/** The abstract map: what the active leaves hold, and how the atomic steps
    change it. */
module Abstraction {
  import opened Pages
  import opened Stores
  import opened Ownership
  import opened LinkSteps
  import opened SplitSteps
  import opened BorrowSteps
  import opened MergeSteps

  /** Two stored records with the same key are the same record. */
  lemma RecordsFunctional(s: Store)
    requires Inv(s)
    ensures Functional(Records(s))
  {
    forall a, b | a in Records(s) && b in Records(s) && a.key == b.key ensures a == b {
      var p: PageId :| p < |s.pages| && a in Entries(s.pages[p]);
      var q: PageId :| q < |s.pages| && b in Entries(s.pages[q]);
      assert PageOk(s, p) && PageOk(s, q);
      OwnerUnique(s, p, q, a.key);
    }
  }

  /** The map a store represents. */
  ghost function Contents(s: Store): map<Key, Value>
    requires Inv(s)
  {
    RecordsFunctional(s);
    AsMap(Records(s))
  }

  /** The length counter is exact. */
  ghost predicate LenOk(s: Store)
    requires Inv(s)
  {
    s.len == |Contents(s)|
  }

  /** The leaf that owns a key decides whether the map has it. */
  lemma OwnerDecides(s: Store, p: PageId, k: Key)
    requires Inv(s) && Valid(s, p) && s.pages[p].kind.Leaf? && Owns(s.pages[p], k)
    ensures var found := Search(s.pages[p].kind.entries, k);
            && (found.Found? <==> k in Contents(s))
            && (found.Found? ==> Contents(s)[k] == s.pages[p].kind.entries[found.index].value)
  {
    RecordsFunctional(s);
    var es := s.pages[p].kind.entries;
    var found := Search(es, k);
    assert PageOk(s, p);
    if found.Found? {
      assert es[found.index] in Entries(s.pages[p]);
      assert es[found.index] in Records(s);
    }
    if k in Contents(s) {
      var e :| e in Records(s) && e.key == k;
      var q: PageId :| q < |s.pages| && e in Entries(s.pages[q]);
      assert PageOk(s, q);
      OwnerUnique(s, p, q, k);
    }
  }

  /** Records move only between the pages of `moved`. */
  lemma RecordsMove(s: Store, t: Store, moved: set<PageId>)
    requires |s.pages| <= |t.pages|
    requires forall q: PageId | q < |s.pages| && q !in moved :: Entries(t.pages[q]) == Entries(s.pages[q])
    requires forall q: PageId | |s.pages| <= q < |t.pages| && q !in moved :: Entries(t.pages[q]) == []
    requires forall q, e | q in moved && q < |s.pages| && e in Entries(s.pages[q]) :: e in Records(t)
    requires forall q, e | q in moved && q < |t.pages| && e in Entries(t.pages[q]) :: e in Records(s)
    ensures Records(s) == Records(t)
  {
  }

  lemma SplitEntries(s: Store, c: PageId)
    requires Valid(s, c) && Splittable(s.pages[c])
    ensures Entries(SplitOf(s, c).left) + Entries(SplitOf(s, c).right) == Entries(s.pages[c])
    ensures forall e ::
              e in Entries(s.pages[c]) <==> e in Entries(SplitOf(s, c).left) || e in Entries(SplitOf(s, c).right)
  {
  }

  /** Replacing a page by two pages that share its records keeps the records. */
  lemma SplitRecords(s: Store, t: Store, c: PageId, left: Page, right: Page)
    requires |s.pages| < |t.pages| && Valid(s, c)
    requires t.pages[c] == left && t.pages[|s.pages|] == right
    requires forall q: PageId | q < |s.pages| && q != c :: Entries(t.pages[q]) == Entries(s.pages[q])
    requires forall q: PageId | |s.pages| < q < |t.pages| :: Entries(t.pages[q]) == []
    requires forall e :: e in Entries(s.pages[c]) <==> e in Entries(left) || e in Entries(right)
    ensures Records(t) == Records(s)
  {
  }

  lemma SplitChildRecords(s: Store, p: PageId, i: nat)
    requires HasChild(s, p, i) && Splittable(s.pages[s.pages[p].kind.children[i]])
    requires s.pages[p].kind.children[i] != p
    ensures Records(SplitChild(s, p, i)) == Records(s)
  {
    var c := s.pages[p].kind.children[i];
    SplitEntries(s, c);
    SplitRecords(s, SplitChild(s, p, i), c, SplitOf(s, c).left, SplitOf(s, c).right);
  }

  lemma SplitRootRecords(s: Store)
    requires Live(s, s.root) && Splittable(s.pages[s.root])
    ensures Records(SplitRoot(s)) == Records(s)
  {
    SplitEntries(s, s.root);
    SplitRecords(s, SplitRoot(s), s.root, SplitOf(s, s.root).left.(isRoot := false), SplitOf(s, s.root).right);
  }

  /** A rewrite of two siblings that keeps their joint records keeps all. */
  lemma FamilyRecords(s: Store, p: PageId, i: nat, g: Family)
    requires Inv(s) && HasSiblings(s, p, i) && g.parent.kind.Internal?
    requires Entries(g.left) + Entries(g.right) == Entries(FamilyOf(s, p, i).left) + Entries(FamilyOf(s, p, i).right)
    ensures Records(PutFamily(s, p, i, g)) == Records(s)
  {
    var (a, b) := (s.pages[p].kind.children[i], s.pages[p].kind.children[i + 1]);
    SiblingsAdjacent(s, p, i);
    var t := PutFamily(s, p, i, g);
    forall e
      ensures e in Entries(s.pages[a]) || e in Entries(s.pages[b])
              <==> e in Entries(t.pages[a]) || e in Entries(t.pages[b])
    {
      assert e in Entries(s.pages[a]) + Entries(s.pages[b]) <==> e in Entries(t.pages[a]) + Entries(t.pages[b]);
    }
    RecordsMove(s, t, {a, b});
  }

  lemma BorrowLeftRecords(s: Store, p: PageId, i: nat)
    requires Inv(s) && HasSiblings(s, p, i) && CanBorrowLeft(FamilyOf(s, p, i))
    ensures Records(PutFamily(s, p, i, BorrowFromLeft(FamilyOf(s, p, i), i))) == Records(s)
  {
    FamilyRecords(s, p, i, BorrowFromLeft(FamilyOf(s, p, i), i));
  }

  lemma BorrowRightRecords(s: Store, p: PageId, i: nat)
    requires Inv(s) && HasSiblings(s, p, i) && CanBorrowRight(FamilyOf(s, p, i))
    ensures Records(PutFamily(s, p, i, BorrowFromRight(FamilyOf(s, p, i), i))) == Records(s)
  {
    FamilyRecords(s, p, i, BorrowFromRight(FamilyOf(s, p, i), i));
  }

  lemma MergeRecords(s: Store, p: PageId, i: nat)
    requires Inv(s) && HasSiblings(s, p, i)
    ensures Records(MergeAt(s, p, i)) == Records(s)
  {
    FamilyRecords(s, p, i, MergeLeftIntoRight(FamilyOf(s, p, i), i, s.pages[p].kind.children[i + 1]));
  }

  lemma CollapseRecords(s: Store)
    requires Inv(s) && KeylessRoot(s)
    ensures Records(CollapseRoot(s)) == Records(s)
  {
    RecordsMove(s, CollapseRoot(s), {});
  }

  lemma PutRecords(s: Store, p: PageId, page: Page)
    requires Valid(s, p) && Entries(page) == Entries(s.pages[p])
    ensures Records(Put(s, p, page)) == Records(s)
  {
    RecordsMove(s, Put(s, p, page), {});
  }
}
