/** Moving one record or child between adjacent siblings, together with their
    common fence and the separator in the parent. */
module BorrowSteps {
  import opened Pages
  import opened Stores
  import opened Ownership

  predicate HasSiblings(s: Store, p: PageId, i: nat) {
    && Live(s, p) && s.pages[p].kind.Internal?
    && |s.pages[p].kind.children| == |s.pages[p].kind.keys| + 1
    && i < |s.pages[p].kind.keys|
    && Live(s, s.pages[p].kind.children[i]) && Live(s, s.pages[p].kind.children[i + 1])
    && Siblings(s.pages[s.pages[p].kind.children[i]], s.pages[s.pages[p].kind.children[i + 1]])
  }

  function FamilyOf(s: Store, p: PageId, i: nat): Family
    requires HasSiblings(s, p, i)
  {
    Family(s.pages[p], s.pages[s.pages[p].kind.children[i]], s.pages[s.pages[p].kind.children[i + 1]])
  }

  /** Writes back a parent and two siblings. */
  function PutFamily(s: Store, p: PageId, i: nat, f: Family): Store
    requires HasSiblings(s, p, i)
  {
    var cs := s.pages[p].kind.children;
    s.(pages := s.pages[p := f.parent][cs[i] := f.left][cs[i + 1] := f.right])
  }

  /** The two lending rules: the lender stays at or above its minimum. */
  predicate CanBorrowLeft(f: Family) {
    Siblings(f.left, f.right) && Minimum(f.left) < Occupancy(f.left) && Occupancy(f.right) < N
  }

  predicate CanBorrowRight(f: Family) {
    Siblings(f.left, f.right) && Minimum(f.right) < Occupancy(f.right) && Occupancy(f.left) < N
  }

  /** Shapes of a parent and two neighbours around its separator `i`. */
  predicate GoodFamily(f: Family, i: nat) {
    && f.parent.kind.Internal? && Shape(f.parent) && i < |f.parent.kind.keys|
    && Siblings(f.left, f.right) && Shape(f.left) && Shape(f.right)
    && !f.left.isRoot && !f.right.isRoot
    && f.left.low == ChildLow(f.parent, i) && f.right.high == ChildHigh(f.parent, i + 1)
    && f.left.high == f.right.low == Some(f.parent.kind.keys[i])
  }

  lemma FamilyIsGood(s: Store, p: PageId, i: nat)
    requires Inv(s) && HasSiblings(s, p, i)
    ensures GoodFamily(FamilyOf(s, p, i), i)
  {
    ChildInside(s, p, i);
    ChildInside(s, p, i + 1);
    SiblingsAdjacent(s, p, i);
    assert PageOk(s, p);
    assert PageOk(s, s.pages[p].kind.children[i]) && PageOk(s, s.pages[p].kind.children[i + 1]);
  }

  /** `g` differs from `f` in the fence between the siblings and in the
      contents of the siblings; nothing else about the three pages changes. */
  predicate Rebalanced(f: Family, i: nat, g: Family) {
    && f.parent.kind.Internal? && i < |f.parent.kind.keys|
    && g.left.high.Some?
    && g.left.low == f.left.low && g.right.high == f.right.high
    && g.left.high == g.right.low
    && (g.left.low.Some? ==> g.left.low.value < g.left.high.value)
    && Below(g.left.high.value, g.right.high)
    && g.left == f.left.(kind := g.left.kind, high := g.left.high)
    && g.right == f.right.(kind := g.right.kind, low := g.right.low)
    && g.parent == f.parent.(kind := Internal(f.parent.kind.keys[i := g.left.high.value], f.parent.kind.children))
    && Shape(g.left) && Shape(g.right) && Shape(g.parent)
    && Siblings(g.left, g.right) && (g.left.kind.Leaf? <==> f.left.kind.Leaf?)
  }

  lemma BoundaryInParent(f: Family, i: nat, b: Key)
    requires GoodFamily(f, i)
    requires f.left.low.Some? ==> f.left.low.value < b
    requires Below(b, f.right.high)
    ensures Shape(SetBoundary(f, i, b).parent)
  {
  }

  lemma LeafBorrowLeft(f: Family, i: nat)
    requires GoodFamily(f, i) && f.left.kind.Leaf? && CanBorrowLeft(f)
    ensures Rebalanced(f, i, BorrowFromLeft(f, i))
  {
    var g := BorrowFromLeft(f, i);
    var (l, r) := (f.left.kind.entries, f.right.kind.entries);
    var b := l[|l| - 1].key;
    assert l[0].key < b;
    assert Owns(f.left, l[0].key) && Owns(f.left, b);
    BoundaryInParent(f, i, b);
    forall j | 0 <= j < |l| - 1 ensures Owns(g.left, l[j].key) { assert Owns(f.left, l[j].key); }
    forall j | 0 <= j < |r| ensures Owns(g.right, r[j].key) { assert Owns(f.right, r[j].key); }
  }

  lemma LeafBorrowRight(f: Family, i: nat)
    requires GoodFamily(f, i) && f.left.kind.Leaf? && CanBorrowRight(f)
    ensures Rebalanced(f, i, BorrowFromRight(f, i))
  {
  }

  lemma InternalBorrowLeft(f: Family, i: nat)
    requires GoodFamily(f, i) && f.left.kind.Internal? && CanBorrowLeft(f)
    ensures Rebalanced(f, i, BorrowFromLeft(f, i))
  {
  }

  lemma InternalBorrowRight(f: Family, i: nat)
    requires GoodFamily(f, i) && f.left.kind.Internal? && CanBorrowRight(f)
    ensures Rebalanced(f, i, BorrowFromRight(f, i))
  {
  }

  /** A child with the fences its slot assigns to it. */
  datatype Slot = Slot(child: PageId, low: Option<Key>, high: Option<Key>)

  predicate HasSlot(p: Page, j: nat) {
    p.kind.Internal? && |p.kind.children| == |p.kind.keys| + 1 && j < |p.kind.children|
  }

  function SlotOf(p: Page, j: nat): Slot
    requires HasSlot(p, j)
  {
    Slot(p.kind.children[j], ChildLow(p, j), ChildHigh(p, j))
  }

  /** Slot `j` of two internal siblings read as one run of children. */
  function SlotOfPair(l: Page, r: Page, j: nat): Slot
    requires HasSlot(l, 0) && HasSlot(r, 0) && j < |l.kind.children| + |r.kind.children|
  {
    if j < |l.kind.children| then SlotOf(l, j) else SlotOf(r, j - |l.kind.children|)
  }

  /** The run of children below the two siblings is the same before and after. */
  predicate SameRun(f: Family, g: Family) {
    f.left.kind.Internal? ==>
      && HasSlot(f.left, 0) && HasSlot(f.right, 0) && HasSlot(g.left, 0) && HasSlot(g.right, 0)
      && |f.left.kind.children| + |f.right.kind.children| == |g.left.kind.children| + |g.right.kind.children|
      && forall j :: 0 <= j < |f.left.kind.children| + |f.right.kind.children| ==>
           SlotOfPair(g.left, g.right, j) == SlotOfPair(f.left, f.right, j)
  }

  lemma BorrowLeftSameRun(f: Family, i: nat)
    requires GoodFamily(f, i) && CanBorrowLeft(f)
    ensures SameRun(f, BorrowFromLeft(f, i))
  {
  }

  lemma BorrowRightSameRun(f: Family, i: nat)
    requires GoodFamily(f, i) && CanBorrowRight(f)
    ensures SameRun(f, BorrowFromRight(f, i))
  {
  }

  // ------------------------------------------- effect on the whole heap

  /** Moving the fence between two neighbours keeps the order of a level. */
  lemma BoundaryKeepsOrder(s: Store, p: PageId, i: nat, g: Family, q: PageId, r: PageId)
    requires Inv(s) && HasSiblings(s, p, i) && Rebalanced(FamilyOf(s, p, i), i, g)
    requires Valid(s, q) && Valid(s, r)
    ensures OrderOk(PutFamily(s, p, i, g), q, r)
  {
    var (a, b) := (s.pages[p].kind.children[i], s.pages[p].kind.children[i + 1]);
    SiblingsAdjacent(s, p, i);
    assert OrderOk(s, q, r);
    if q == a { Adjacent(s, a, b, r); assert OrderOk(s, b, r); }
    if r == b { Adjacent(s, a, b, q); assert OrderOk(s, q, a); }
  }

  lemma BoundaryKeepsGap(s: Store, p: PageId, i: nat, g: Family, q: PageId, r: PageId)
    requires Inv(s) && HasSiblings(s, p, i) && Rebalanced(FamilyOf(s, p, i), i, g)
    requires Valid(s, q) && Valid(s, r)
    ensures GapOk(PutFamily(s, p, i, g), q, r)
  {
    SiblingsAdjacent(s, p, i);
    assert PageOk(s, q) && GapOk(s, q, r);
  }

  lemma BorrowKeepsOthers(s: Store, p: PageId, i: nat, g: Family, q: PageId)
    requires Inv(s) && HasSiblings(s, p, i) && Rebalanced(FamilyOf(s, p, i), i, g)
    requires Valid(s, q) && q != p
    requires q != s.pages[p].kind.children[i] && q != s.pages[p].kind.children[i + 1]
    ensures PageOk(PutFamily(s, p, i, g), q)
  {
    SiblingsAdjacent(s, p, i);
    var t := PutFamily(s, p, i, g);
    assert PageOk(s, q);
    if s.pages[q].kind.Internal? {
      forall j | 0 <= j < |s.pages[q].kind.children| ensures ChildOk(t, t.pages[q], j) {
        assert ChildOk(s, s.pages[q], j);
        var x := s.pages[q].kind.children[j];
        if x == s.pages[p].kind.children[i] { ParentUnique(s, p, i, q, j); }
        if x == s.pages[p].kind.children[i + 1] { ParentUnique(s, p, i + 1, q, j); }
      }
    }
  }

  lemma BorrowKeepsParent(s: Store, p: PageId, i: nat, g: Family)
    requires Inv(s) && HasSiblings(s, p, i) && Rebalanced(FamilyOf(s, p, i), i, g)
    ensures PageOk(PutFamily(s, p, i, g), p)
  {
    SiblingsAdjacent(s, p, i);
    FamilyIsGood(s, p, i);
    var t := PutFamily(s, p, i, g);
    assert PageOk(s, p);
    forall j | 0 <= j < |t.pages[p].kind.children| ensures ChildOk(t, t.pages[p], j) {
      ChildInside(s, p, j);
      var x := s.pages[p].kind.children[j];
      if x == s.pages[p].kind.children[i] { ParentUnique(s, p, i, p, j); }
      if x == s.pages[p].kind.children[i + 1] { ParentUnique(s, p, i + 1, p, j); }
    }
  }

  lemma BorrowKeepsSlot(s: Store, p: PageId, i: nat, g: Family, j: nat)
    requires Inv(s) && HasSiblings(s, p, i) && Rebalanced(FamilyOf(s, p, i), i, g)
    requires SameRun(FamilyOf(s, p, i), g) && g.left.kind.Internal? && g.right.kind.Internal?
    requires s.pages[s.pages[p].kind.children[i]].kind.Internal?
    requires j < |g.left.kind.children| + |g.right.kind.children|
    ensures if j < |g.left.kind.children| then ChildOk(PutFamily(s, p, i, g), g.left, j)
            else ChildOk(PutFamily(s, p, i, g), g.right, j - |g.left.kind.children|)
  {
    var (a, b) := (s.pages[p].kind.children[i], s.pages[p].kind.children[i + 1]);
    SiblingsAdjacent(s, p, i);
    var f := FamilyOf(s, p, i);
    assert SlotOfPair(g.left, g.right, j) == SlotOfPair(f.left, f.right, j);
    if j < |f.left.kind.children| { ChildInside(s, a, j); } else { ChildInside(s, b, j - |f.left.kind.children|); }
    var x := SlotOfPair(f.left, f.right, j).child;
    assert x != p && x != a && x != b;
    assert PutFamily(s, p, i, g).pages[x] == s.pages[x];
  }

  lemma BorrowKeepsSiblings(s: Store, p: PageId, i: nat, g: Family)
    requires Inv(s) && HasSiblings(s, p, i) && Rebalanced(FamilyOf(s, p, i), i, g)
    requires SameRun(FamilyOf(s, p, i), g)
    ensures PageOk(PutFamily(s, p, i, g), s.pages[p].kind.children[i])
    ensures PageOk(PutFamily(s, p, i, g), s.pages[p].kind.children[i + 1])
  {
    var (a, b) := (s.pages[p].kind.children[i], s.pages[p].kind.children[i + 1]);
    SiblingsAdjacent(s, p, i);
    var t := PutFamily(s, p, i, g);
    assert PageOk(s, a) && PageOk(s, b) && PageOk(s, p);
    assert t.pages[a] == g.left && t.pages[b] == g.right;
    if g.left.kind.Internal? {
      forall k | 0 <= k < |g.left.kind.children| ensures ChildOk(t, g.left, k) {
        BorrowKeepsSlot(s, p, i, g, k);
      }
      forall k | 0 <= k < |g.right.kind.children| ensures ChildOk(t, g.right, k) {
        BorrowKeepsSlot(s, p, i, g, k + |g.left.kind.children|);
      }
    }
  }

  /** Any rebalancing of two adjacent siblings keeps the invariant. */
  lemma RebalanceKeepsInv(s: Store, p: PageId, i: nat, g: Family)
    requires Inv(s) && HasSiblings(s, p, i) && Rebalanced(FamilyOf(s, p, i), i, g)
    requires SameRun(FamilyOf(s, p, i), g)
    ensures Inv(PutFamily(s, p, i, g))
  {
    var t := PutFamily(s, p, i, g);
    SiblingsAdjacent(s, p, i);
    assert PageOk(s, p);
    forall q: PageId | q < |t.pages| ensures PageOk(t, q) {
      if q == p { BorrowKeepsParent(s, p, i, g); }
      else if q == s.pages[p].kind.children[i] || q == s.pages[p].kind.children[i + 1] {
        BorrowKeepsSiblings(s, p, i, g);
      }
      else { BorrowKeepsOthers(s, p, i, g, q); }
    }
    forall q: PageId, r: PageId | q < |t.pages| && r < |t.pages| ensures OrderOk(t, q, r) && GapOk(t, q, r) {
      BoundaryKeepsOrder(s, p, i, g, q, r);
      BoundaryKeepsGap(s, p, i, g, q, r);
    }
  }

  lemma BorrowLeftRebalances(s: Store, p: PageId, i: nat)
    requires Inv(s) && HasSiblings(s, p, i) && CanBorrowLeft(FamilyOf(s, p, i))
    ensures Rebalanced(FamilyOf(s, p, i), i, BorrowFromLeft(FamilyOf(s, p, i), i))
  {
    FamilyIsGood(s, p, i);
    var f := FamilyOf(s, p, i);
    if f.left.kind.Leaf? { LeafBorrowLeft(f, i); } else { InternalBorrowLeft(f, i); }
  }

  lemma BorrowRightRebalances(s: Store, p: PageId, i: nat)
    requires Inv(s) && HasSiblings(s, p, i) && CanBorrowRight(FamilyOf(s, p, i))
    ensures Rebalanced(FamilyOf(s, p, i), i, BorrowFromRight(FamilyOf(s, p, i), i))
  {
    FamilyIsGood(s, p, i);
    var f := FamilyOf(s, p, i);
    if f.left.kind.Leaf? { LeafBorrowRight(f, i); } else { InternalBorrowRight(f, i); }
  }

  lemma BorrowLeftKeepsInv(s: Store, p: PageId, i: nat)
    requires Inv(s) && HasSiblings(s, p, i) && CanBorrowLeft(FamilyOf(s, p, i))
    ensures Inv(PutFamily(s, p, i, BorrowFromLeft(FamilyOf(s, p, i), i)))
  {
    FamilyIsGood(s, p, i);
    BorrowLeftRebalances(s, p, i);
    BorrowLeftSameRun(FamilyOf(s, p, i), i);
    RebalanceKeepsInv(s, p, i, BorrowFromLeft(FamilyOf(s, p, i), i));
  }

  lemma BorrowRightKeepsInv(s: Store, p: PageId, i: nat)
    requires Inv(s) && HasSiblings(s, p, i) && CanBorrowRight(FamilyOf(s, p, i))
    ensures Inv(PutFamily(s, p, i, BorrowFromRight(FamilyOf(s, p, i), i)))
  {
    FamilyIsGood(s, p, i);
    BorrowRightRebalances(s, p, i);
    BorrowRightSameRun(FamilyOf(s, p, i), i);
    RebalanceKeepsInv(s, p, i, BorrowFromRight(FamilyOf(s, p, i), i));
  }

  // ------------------------------------------------------ the moved fence

  /** Borrowing widens the needy page and adds one record or separator. */
  lemma BorrowLeftWidens(f: Family, i: nat)
    requires GoodFamily(f, i) && CanBorrowLeft(f)
    ensures var g := BorrowFromLeft(f, i);
            && g.right.low.Some? && g.right.low.value <= f.right.low.value && g.right.high == f.right.high
            && Occupancy(g.right) == Occupancy(f.right) + 1
            && Minimum(g.right) == Minimum(f.right) && g.right.level == f.right.level
  {
  }

  lemma BorrowRightWidens(f: Family, i: nat)
    requires GoodFamily(f, i) && CanBorrowRight(f)
    ensures var g := BorrowFromRight(f, i);
            && g.left.high.Some? && f.left.high.value <= g.left.high.value && g.left.low == f.left.low
            && Occupancy(g.left) == Occupancy(f.left) + 1
            && Minimum(g.left) == Minimum(f.left) && g.left.level == f.left.level
  {
  }
}
