/** Atomic steps that change one page and keep its fences: leaf writes and the
    pointer updates made by the two link repairs. */
module LinkSteps {
  import opened Pages
  import opened Stores

  function Put(s: Store, p: PageId, page: Page): Store
    requires Valid(s, p)
  {
    s.(pages := s.pages[p := page])
  }

  /** The facts about a page that other pages rely on. */
  predicate SameHeader(a: Page, b: Page) {
    && (Active(a) <==> Active(b))
    && a.isRoot == b.isRoot && a.low == b.low && a.high == b.high
    && a.level == b.level && a.rank == b.rank
  }

  /** Replacing a page behind an unchanged header keeps the invariant, provided
      the new link jumps over no active page. */
  lemma PutKeepsInv(s: Store, p: PageId, page: Page)
    requires Inv(s) && Valid(s, p) && SameHeader(s.pages[p], page)
    requires Active(page) ==> Shape(page)
    requires PointersOk(Put(s, p, page), p)
    requires !page.kind.Leaf? ==> page.kind == s.pages[p].kind
    requires forall q: PageId | q < |s.pages| :: GapOk(Put(s, p, page), p, q)
    ensures Inv(Put(s, p, page))
  {
    var t := Put(s, p, page);
    assert PageOk(s, p);
    forall q: PageId | q < |t.pages| ensures PageOk(t, q) {
      assert PageOk(s, q);
      if s.pages[q].kind.Internal? {
        forall i | 0 <= i < |s.pages[q].kind.children| ensures ChildOk(t, t.pages[q], i) {
          assert ChildOk(s, s.pages[q], i);
        }
      }
    }
    forall q: PageId, r: PageId | q < |t.pages| && r < |t.pages| ensures OrderOk(t, q, r) && GapOk(t, q, r) {
      assert OrderOk(s, q, r) && GapOk(s, q, r);
    }
    assert RootOk(t);
  }

  function SetRight(s: Store, p: PageId, t: PageId): Store
    requires Valid(s, p)
  {
    Put(s, p, s.pages[p].(right := Some(t)))
  }

  function SetPrevious(s: Store, p: PageId, q: Option<PageId>): Store
    requires Valid(s, p)
  {
    Put(s, p, s.pages[p].(previous := q))
  }

  /** Where the retired right neighbour of an active page forwards to. */
  lemma RetiredNeighbour(s: Store, p: PageId)
    requires Inv(s) && Live(s, p) && s.pages[p].right.Some?
    ensures Valid(s, s.pages[p].right.value)
    ensures var r := s.pages[s.pages[p].right.value];
            && r.level == s.pages[p].level && s.pages[p].rank < r.rank
            && (r.kind.Redirect? ==>
                  && Valid(s, r.kind.target)
                  && s.pages[r.kind.target].level == r.level
                  && r.rank < s.pages[r.kind.target].rank)
  {
    assert PageOk(s, p);
    var r := s.pages[p].right.value;
    assert PageOk(s, r) && GapOk(s, r, p);
  }

  /** Compacting a right link over a retired page keeps the invariant. */
  lemma CompactKeepsInv(s: Store, p: PageId)
    requires Inv(s) && Live(s, p) && s.pages[p].right.Some?
    requires Valid(s, s.pages[p].right.value) && s.pages[s.pages[p].right.value].kind.Redirect?
    ensures Inv(SetRight(s, p, s.pages[s.pages[p].right.value].kind.target))
  {
    var r := s.pages[p].right.value;
    var t := s.pages[r].kind.target;
    RetiredNeighbour(s, p);
    assert PageOk(s, p);
    var u := SetRight(s, p, t);
    forall q: PageId | q < |s.pages| ensures GapOk(u, p, q) {
      assert GapOk(s, p, q) && GapOk(s, r, q) && OrderOk(s, r, q);
    }
    PutKeepsInv(s, p, s.pages[p].(right := Some(t)));
  }

  /** Back-links are hints: any value inside the heap keeps the invariant. */
  lemma SetPreviousKeepsInv(s: Store, p: PageId, q: Option<PageId>)
    requires Inv(s) && Valid(s, p) && (q.Some? ==> Valid(s, q.value))
    ensures Inv(SetPrevious(s, p, q))
  {
    assert PageOk(s, p);
    var u := SetPrevious(s, p, q);
    forall r: PageId | r < |s.pages| ensures GapOk(u, p, r) {
      assert GapOk(s, p, r);
    }
    PutKeepsInv(s, p, s.pages[p].(previous := q));
  }
}
