/** Retiring a left sibling into its right neighbour, and collapsing a root
    that has no separators left. */
module MergeSteps {
  import opened Pages
  import opened Stores
  import opened Ownership
  import opened BorrowSteps

  /** Both siblings are at their minimum, so one page can hold them both. */
  predicate CanMerge(f: Family) {
    && Siblings(f.left, f.right)
    && Occupancy(f.left) <= Minimum(f.left) && Occupancy(f.right) <= Minimum(f.right)
  }

  function MergeAt(s: Store, p: PageId, i: nat): Store
    requires HasSiblings(s, p, i)
  {
    PutFamily(s, p, i, MergeLeftIntoRight(FamilyOf(s, p, i), i, s.pages[p].kind.children[i + 1]))
  }

  /** Only a parent that can spare a separator merges its children. */
  predicate CanLose(p: Page) {
    p.isRoot || Minimum(p) < Occupancy(p)
  }

  predicate Merged(f: Family, i: nat, rightId: PageId, g: Family) {
    && g.left == f.left.(kind := Redirect(rightId), low := None)
    && g.right == f.right.(kind := g.right.kind, low := f.left.low, previous := f.left.previous)
    && g.parent == f.parent.(kind := g.parent.kind)
    && g.parent.kind.Internal? && Shape(g.parent) && Shape(g.right)
    && Minimum(g.right) < Occupancy(g.right)
  }

  lemma ParentAfterMerge(f: Family, i: nat, rightId: PageId)
    requires GoodFamily(f, i) && CanLose(f.parent)
    ensures Shape(MergeLeftIntoRight(f, i, rightId).parent)
  {
  }

  lemma LeafMerge(f: Family, i: nat, rightId: PageId)
    requires GoodFamily(f, i) && f.left.kind.Leaf? && CanMerge(f)
    ensures Shape(MergeLeftIntoRight(f, i, rightId).right)
    ensures Minimum(f.right) < Occupancy(MergeLeftIntoRight(f, i, rightId).right)
  {
  }

  lemma InternalMerge(f: Family, i: nat, rightId: PageId)
    requires GoodFamily(f, i) && f.left.kind.Internal? && CanMerge(f)
    ensures Shape(MergeLeftIntoRight(f, i, rightId).right)
    ensures Minimum(f.right) < Occupancy(MergeLeftIntoRight(f, i, rightId).right)
  {
  }

  lemma MergeIsGood(s: Store, p: PageId, i: nat)
    requires Inv(s) && HasSiblings(s, p, i) && CanMerge(FamilyOf(s, p, i)) && CanLose(s.pages[p])
    ensures var (f, b) := (FamilyOf(s, p, i), s.pages[p].kind.children[i + 1]);
            GoodFamily(f, i) && Merged(f, i, b, MergeLeftIntoRight(f, i, b))
  {
    FamilyIsGood(s, p, i);
    var (f, b) := (FamilyOf(s, p, i), s.pages[p].kind.children[i + 1]);
    ParentAfterMerge(f, i, b);
    if f.left.kind.Leaf? { LeafMerge(f, i, b); } else { InternalMerge(f, i, b); }
  }

  // ----------------------------------------------------- heap-wide effect

  lemma MergeKeepsOrder(s: Store, p: PageId, i: nat, g: Family, q: PageId, r: PageId)
    requires Inv(s) && HasSiblings(s, p, i)
    requires Merged(FamilyOf(s, p, i), i, s.pages[p].kind.children[i + 1], g)
    requires Valid(s, q) && Valid(s, r)
    ensures OrderOk(PutFamily(s, p, i, g), q, r)
  {
    var (a, b) := (s.pages[p].kind.children[i], s.pages[p].kind.children[i + 1]);
    SiblingsAdjacent(s, p, i);
    assert OrderOk(s, q, r);
    if r == b { Adjacent(s, a, b, q); assert OrderOk(s, q, a); }
  }

  lemma MergeKeepsGap(s: Store, p: PageId, i: nat, g: Family, q: PageId, r: PageId)
    requires Inv(s) && HasSiblings(s, p, i)
    requires Merged(FamilyOf(s, p, i), i, s.pages[p].kind.children[i + 1], g)
    requires Valid(s, q) && Valid(s, r)
    ensures GapOk(PutFamily(s, p, i, g), q, r)
  {
    var (a, b) := (s.pages[p].kind.children[i], s.pages[p].kind.children[i + 1]);
    SiblingsAdjacent(s, p, i);
    assert PageOk(s, q) && GapOk(s, q, r);
    if q == a { Adjacent(s, a, b, r); }
  }

  lemma MergeKeepsOthers(s: Store, p: PageId, i: nat, g: Family, q: PageId)
    requires Inv(s) && HasSiblings(s, p, i)
    requires Merged(FamilyOf(s, p, i), i, s.pages[p].kind.children[i + 1], g)
    requires Valid(s, q) && q != p && q != s.pages[p].kind.children[i + 1]
    ensures PageOk(PutFamily(s, p, i, g), q)
  {
    SiblingsAdjacent(s, p, i);
    var t := PutFamily(s, p, i, g);
    assert PageOk(s, q);
    if t.pages[q].kind.Internal? {
      forall j | 0 <= j < |s.pages[q].kind.children| ensures ChildOk(t, t.pages[q], j) {
        assert ChildOk(s, s.pages[q], j);
        var x := s.pages[q].kind.children[j];
        if x == s.pages[p].kind.children[i] { ParentUnique(s, p, i, q, j); }
        if x == s.pages[p].kind.children[i + 1] { ParentUnique(s, p, i + 1, q, j); }
      }
    }
  }

  /** The slots of a parent after slot `i` was folded into slot `i + 1`. */
  lemma MergedSlots(f: Family, i: nat, rightId: PageId, j: nat)
    requires GoodFamily(f, i) && HasSlot(f.parent, j) && j != i
    ensures var page := MergeLeftIntoRight(f, i, rightId).parent;
            var k := if j < i then j else j - 1;
            && HasSlot(page, k) && page.kind.children[k] == f.parent.kind.children[j]
            && ChildHigh(page, k) == ChildHigh(f.parent, j)
            && ChildLow(page, k) == if j == i + 1 then ChildLow(f.parent, i) else ChildLow(f.parent, j)
  {
  }

  lemma MergeKeepsParentSlot(s: Store, p: PageId, i: nat, j: nat)
    requires Inv(s) && HasSiblings(s, p, i) && CanMerge(FamilyOf(s, p, i)) && CanLose(s.pages[p])
    requires HasSlot(s.pages[p], j) && j != i
    ensures var t := MergeAt(s, p, i);
            var k := if j < i then j else j - 1;
            HasSlot(t.pages[p], k) && ChildOk(t, t.pages[p], k)
  {
    var (a, b) := (s.pages[p].kind.children[i], s.pages[p].kind.children[i + 1]);
    MergeIsGood(s, p, i);
    SiblingsAdjacent(s, p, i);
    MergedSlots(FamilyOf(s, p, i), i, b, j);
    ChildInside(s, p, j);
    var x := s.pages[p].kind.children[j];
    if x == a { ParentUnique(s, p, i, p, j); }
    if x == b { ParentUnique(s, p, i + 1, p, j); }
    assert x != p && x != a && MergeAt(s, p, i).pages[p] == MergeLeftIntoRight(FamilyOf(s, p, i), i, b).parent;
  }

  lemma MergeKeepsParent(s: Store, p: PageId, i: nat)
    requires Inv(s) && HasSiblings(s, p, i) && CanMerge(FamilyOf(s, p, i)) && CanLose(s.pages[p])
    ensures PageOk(MergeAt(s, p, i), p)
  {
    MergeIsGood(s, p, i);
    SiblingsAdjacent(s, p, i);
    var t := MergeAt(s, p, i);
    assert PageOk(s, p);
    forall k | 0 <= k < |t.pages[p].kind.children| ensures ChildOk(t, t.pages[p], k) {
      MergeKeepsParentSlot(s, p, i, if k < i then k else k + 1);
    }
  }

  /** A merged internal page has the children of both siblings, in order. */
  lemma MergedRun(f: Family, i: nat, rightId: PageId, j: nat)
    requires GoodFamily(f, i) && f.left.kind.Internal?
    requires j < |f.left.kind.children| + |f.right.kind.children|
    ensures var page := MergeLeftIntoRight(f, i, rightId).right;
            && HasSlot(page, j)
            && |page.kind.children| == |f.left.kind.children| + |f.right.kind.children|
            && SlotOf(page, j) == SlotOfPair(f.left, f.right, j)
  {
  }

  lemma MergeKeepsSurvivor(s: Store, p: PageId, i: nat)
    requires Inv(s) && HasSiblings(s, p, i) && CanMerge(FamilyOf(s, p, i)) && CanLose(s.pages[p])
    ensures PageOk(MergeAt(s, p, i), s.pages[p].kind.children[i + 1])
  {
    var (a, b) := (s.pages[p].kind.children[i], s.pages[p].kind.children[i + 1]);
    MergeIsGood(s, p, i);
    SiblingsAdjacent(s, p, i);
    var t := MergeAt(s, p, i);
    var f := FamilyOf(s, p, i);
    assert PageOk(s, a) && PageOk(s, b) && PageOk(s, p);
    assert t.pages[b] == MergeLeftIntoRight(f, i, b).right;
    if t.pages[b].kind.Internal? {
      MergedRun(f, i, b, 0);
      forall j | 0 <= j < |t.pages[b].kind.children| ensures ChildOk(t, t.pages[b], j) {
        MergedRun(f, i, b, j);
        if j < |f.left.kind.children| { ChildInside(s, a, j); } else { ChildInside(s, b, j - |f.left.kind.children|); }
        var x := SlotOfPair(f.left, f.right, j).child;
        assert x != p && x != a && x != b;
        assert t.pages[x] == s.pages[x];
      }
    }
  }

  /** Merging two minimal siblings keeps the invariant; the retired page
      forwards to the survivor. */
  lemma MergeKeepsInv(s: Store, p: PageId, i: nat)
    requires Inv(s) && HasSiblings(s, p, i) && CanMerge(FamilyOf(s, p, i)) && CanLose(s.pages[p])
    ensures Inv(MergeAt(s, p, i))
    ensures var b := s.pages[p].kind.children[i + 1];
            Minimum(MergeAt(s, p, i).pages[b]) < Occupancy(MergeAt(s, p, i).pages[b])
  {
    var b := s.pages[p].kind.children[i + 1];
    var g := MergeLeftIntoRight(FamilyOf(s, p, i), i, b);
    var t := MergeAt(s, p, i);
    MergeIsGood(s, p, i);
    SiblingsAdjacent(s, p, i);
    forall q: PageId | q < |t.pages| ensures PageOk(t, q) {
      if q == p { MergeKeepsParent(s, p, i); }
      else if q == b { MergeKeepsSurvivor(s, p, i); }
      else { MergeKeepsOthers(s, p, i, g, q); }
    }
    forall q: PageId, r: PageId | q < |t.pages| && r < |t.pages| ensures OrderOk(t, q, r) && GapOk(t, q, r) {
      MergeKeepsOrder(s, p, i, g, q, r);
      MergeKeepsGap(s, p, i, g, q, r);
    }
  }

  // --------------------------------------------------------- root collapse

  /** A transient internal root that lost its last separator. */
  predicate KeylessRoot(s: Store) {
    && Live(s, s.root) && s.pages[s.root].kind.Internal?
    && s.pages[s.root].kind.keys == [] && |s.pages[s.root].kind.children| == 1
    && Valid(s, s.pages[s.root].kind.children[0])
  }

  /** Publishes the sole child as the root and retires the former root. */
  function CollapseRoot(s: Store): Store
    requires KeylessRoot(s)
  {
    var (r, c) := (s.root, s.pages[s.root].kind.children[0]);
    var top := s.pages[c].(isRoot := true, low := None, high := None, previous := None, right := None);
    var gone := s.pages[r].(isRoot := false, low := None, high := None, previous := None, right := None,
                            kind := Redirect(c));
    s.(pages := s.pages[c := top][r := gone], root := c)
  }

  /** The sole child already covers the whole key space, alone on its level. */
  lemma SoleChild(s: Store, q: PageId)
    requires Inv(s) && KeylessRoot(s) && Valid(s, q)
    ensures var c := s.pages[s.root].kind.children[0];
            && Live(s, c) && c != s.root && s.pages[c].level + 1 == s.pages[s.root].level
            && s.pages[c].low == None && s.pages[c].high == None && s.pages[c].right == None
            && (Live(s, q) && q != s.root ==> s.pages[q].level <= s.pages[c].level)
            && (Live(s, q) && s.pages[q].level == s.pages[c].level ==> q == c)
  {
    var c := s.pages[s.root].kind.children[0];
    ChildInside(s, s.root, 0);
    RootIsNoChild(s, s.root, 0);
    assert PageOk(s, s.root) && PageOk(s, q);
    assert OrderOk(s, q, c) && OrderOk(s, c, q);
  }

  lemma CollapseKeepsPage(s: Store, q: PageId)
    requires Inv(s) && KeylessRoot(s) && Valid(s, q)
    ensures PageOk(CollapseRoot(s), q)
  {
    var (r, c) := (s.root, s.pages[s.root].kind.children[0]);
    SoleChild(s, q);
    assert PageOk(s, q) && PageOk(s, c) && PageOk(s, r);
    var t := CollapseRoot(s);
    if t.pages[q].kind.Internal? {
      forall j | 0 <= j < |t.pages[q].kind.children| ensures ChildOk(t, t.pages[q], j) {
        ChildInside(s, q, j);
        RootIsNoChild(s, q, j);
      }
    }
  }

  lemma CollapseKeepsPairs(s: Store, q: PageId, r: PageId)
    requires Inv(s) && KeylessRoot(s) && Valid(s, q) && Valid(s, r)
    ensures OrderOk(CollapseRoot(s), q, r) && GapOk(CollapseRoot(s), q, r)
  {
    SoleChild(s, q);
    SoleChild(s, r);
    assert PageOk(s, q) && PageOk(s, r);
    assert OrderOk(s, q, r) && GapOk(s, q, r);
  }

  /** Collapsing an empty root level keeps the invariant. */
  lemma CollapseKeepsInv(s: Store)
    requires Inv(s) && KeylessRoot(s)
    ensures Inv(CollapseRoot(s))
  {
    SoleChild(s, s.root);
    var t := CollapseRoot(s);
    forall q: PageId | q < |t.pages| ensures PageOk(t, q) {
      CollapseKeepsPage(s, q);
    }
    forall q: PageId, r: PageId | q < |t.pages| && r < |t.pages| ensures OrderOk(t, q, r) && GapOk(t, q, r) {
      CollapseKeepsPairs(s, q, r);
    }
  }
}
