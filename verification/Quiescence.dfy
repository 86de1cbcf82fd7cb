/** Sibling chains between operations: when each structural step is followed by
    its link repair, every level is a doubly linked list of active pages. */
module Quiescence {
  import opened Pages
  import opened Stores
  import opened Ownership
  import opened LinkSteps
  import opened SplitSteps
  import opened BorrowSteps
  import opened MergeSteps
  import opened Abstraction
  import opened LeafSteps
  import opened Traversal
  import opened Protocol
  import opened Linearization

  /** The right neighbour of an active page is active and points back, and so
      does its predecessor point forward; leftmost pages have no predecessor. */
  ghost predicate ChainOk(s: Store, p: PageId)
    requires Valid(s, p)
  {
    var page := s.pages[p];
    Active(page) ==>
      && (page.right.Some? ==>
            Live(s, page.right.value) && s.pages[page.right.value].previous == Some(p))
      && (page.previous.Some? ==>
            page.low.Some? && Live(s, page.previous.value) && s.pages[page.previous.value].right == Some(p))
  }

  ghost predicate Chained(s: Store) {
    forall p: PageId | p < |s.pages| :: ChainOk(s, p)
  }

  /** State between structural steps whose repairs are complete. */
  ghost predicate Calm(s: Store) {
    Sound(s) && Chained(s)
  }

  /** State between operations that run one at a time. */
  ghost predicate Quiet(s: Store) {
    Calm(s) && !Hollow(s)
  }

  /** In a chained heap the right link leads straight to the page whose interval
      starts where this one ends, and the back-link is its inverse. */
  lemma ChainIsKeyOrder(s: Store, p: PageId)
    requires Inv(s) && Chained(s) && Live(s, p)
    ensures s.pages[p].high.Some? ==>
              && s.pages[p].right.Some? && Live(s, s.pages[p].right.value)
              && s.pages[s.pages[p].right.value].low == s.pages[p].high
              && s.pages[s.pages[p].right.value].level == s.pages[p].level
              && s.pages[s.pages[p].right.value].previous == Some(p)
    ensures s.pages[p].high.None? ==> s.pages[p].right.None?
    ensures s.pages[p].low.None? <==> s.pages[p].previous.None?
  {
    assert PageOk(s, p) && ChainOk(s, p);
    if s.pages[p].high.Some? {
      RightLinkLeadsToNeighbour(s, p);
      assert Resolve(s, s.pages[p].right.value) == s.pages[p].right.value;
    }
    if s.pages[p].low.Some? { LeftNeighbour(s, p); }
  }

  /** A page with a finite lower fence has a predecessor. */
  lemma LeftNeighbour(s: Store, p: PageId)
    requires Inv(s) && Chained(s) && Live(s, p) && s.pages[p].low.Some?
    ensures s.pages[p].previous.Some?
  {
    var q := LeftOf(s, p);
    RightLinkLeadsToNeighbour(s, q);
    assert ChainOk(s, q);
    var r := s.pages[q].right.value;
    assert Resolve(s, r) == r;
    assert PageOk(s, p) && PageOk(s, r);
    OwnerUnique(s, p, r, s.pages[p].low.value);
  }

  // ------------------------------------------------ steps with their repairs

  lemma LeafWriteKeepsChains(s: Store, p: PageId, es: seq<Entry>)
    requires Chained(s) && Valid(s, p) && s.pages[p].kind.Leaf?
    ensures Chained(WriteLeaf(s, p, es))
  {
    var t := WriteLeaf(s, p, es);
    forall q: PageId | q < |t.pages| ensures ChainOk(t, q) { assert ChainOk(s, q); }
  }

  /** A split followed by `repair_split_backlink`. */
  function RepairSplit(s: Store, newId: PageId, succ: Option<PageId>): Store
    requires succ.Some? ==> Valid(s, succ.value)
  {
    if succ.None? then s else SetPrevious(s, succ.value, Some(newId))
  }

  /** The chain around a page that was split in two: `t` differs from `s` in
      the links of `c`, in the new page `n`, and in one back-link. */
  predicate SplicedAfter(s: Store, t: Store, c: PageId, n: PageId) {
    && Live(s, c) && n == |s.pages| < |t.pages|
    && Active(t.pages[c]) && t.pages[c].right == Some(n) && t.pages[c].previous == s.pages[c].previous
    && t.pages[c].low == s.pages[c].low
    && Active(t.pages[n]) && t.pages[n].low.Some?
    && t.pages[n].right == s.pages[c].right && t.pages[n].previous == Some(c)
    && (forall q: PageId | q < |s.pages| && q != c :: BesideSplit(s, t, c, n, q))
    && (forall q: PageId | n < q < |t.pages| :: Active(t.pages[q]) && t.pages[q].right == None == t.pages[q].previous)
  }

  /** A page beside the split keeps its place; the old successor of `c` points
      back to the new half. */
  predicate BesideSplit(s: Store, t: Store, c: PageId, n: PageId, q: PageId)
    requires Valid(s, c) && Valid(s, q) && Valid(t, q)
  {
    && (Active(t.pages[q]) <==> Active(s.pages[q]))
    && t.pages[q].right == s.pages[q].right && t.pages[q].low == s.pages[q].low
    && t.pages[q].previous == if s.pages[c].right == Some(q) then Some(n) else s.pages[q].previous
  }

  lemma SpliceKeepsChain(s: Store, t: Store, c: PageId, n: PageId, q: PageId)
    requires Inv(s) && Chained(s) && SplicedAfter(s, t, c, n) && q < |t.pages|
    ensures ChainOk(t, q)
  {
    assert ChainOk(s, c) && PageOk(s, c);
    if n <= q {
      assert s.pages[c].right.Some? ==> BesideSplit(s, t, c, n, s.pages[c].right.value);
    } else {
      var page := s.pages[q];
      assert ChainOk(s, q) && PageOk(s, q) && OrderOk(s, c, q);
      assert q != c ==> BesideSplit(s, t, c, n, q);
      assert page.previous.Some? && page.previous.value != c ==> BesideSplit(s, t, c, n, page.previous.value);
      assert page.right.Some? && page.right.value != c ==> BesideSplit(s, t, c, n, page.right.value);
    }
  }

  lemma SplitChildPasses(s: Store, p: PageId, i: nat, q: PageId)
    requires HasChild(s, p, i) && Splittable(s.pages[s.pages[p].kind.children[i]])
    requires var c := s.pages[p].kind.children[i];
             Valid(s, q) && c != q && c != p && (s.pages[c].right.Some? ==> Valid(s, s.pages[c].right.value))
    ensures var (c, n) := (s.pages[p].kind.children[i], |s.pages|);
            BesideSplit(s, RepairSplit(SplitChild(s, p, i), n, s.pages[c].right), c, n, q)
  {
  }

  lemma SplitChildSplices(s: Store, p: PageId, i: nat)
    requires Inv(s) && Chained(s) && HasChild(s, p, i) && Splittable(s.pages[s.pages[p].kind.children[i]])
    ensures var (c, n) := (s.pages[p].kind.children[i], |s.pages|);
            && (s.pages[c].right.Some? ==> Valid(s, s.pages[c].right.value))
            && SplicedAfter(s, RepairSplit(SplitChild(s, p, i), n, s.pages[c].right), c, n)
  {
    var (c, n) := (s.pages[p].kind.children[i], |s.pages|);
    assert ChainOk(s, c) && PageOk(s, c);
    ChildInside(s, p, i);
    var t := RepairSplit(SplitChild(s, p, i), n, s.pages[c].right);
    forall q: PageId | q < |s.pages| && q != c ensures BesideSplit(s, t, c, n, q) { SplitChildPasses(s, p, i, q); }
  }

  lemma SplitRootSplices(s: Store)
    requires Inv(s) && Chained(s) && Splittable(s.pages[s.root])
    ensures s.pages[s.root].right == None && SplicedAfter(s, SplitRoot(s), s.root, |s.pages|)
  {
    assert PageOk(s, s.root);
  }

  lemma SplitChildKeepsChains(s: Store, p: PageId, i: nat)
    requires Inv(s) && Chained(s) && HasChild(s, p, i) && Splittable(s.pages[s.pages[p].kind.children[i]])
    ensures var (c, n) := (s.pages[p].kind.children[i], |s.pages|);
            && (s.pages[c].right.Some? ==> Valid(s, s.pages[c].right.value))
            && Chained(RepairSplit(SplitChild(s, p, i), n, s.pages[c].right))
  {
    var (c, n) := (s.pages[p].kind.children[i], |s.pages|);
    SplitChildSplices(s, p, i);
    var t := RepairSplit(SplitChild(s, p, i), n, s.pages[c].right);
    forall q: PageId | q < |t.pages| ensures ChainOk(t, q) { SpliceKeepsChain(s, t, c, n, q); }
  }

  lemma SplitRootKeepsChains(s: Store)
    requires Inv(s) && Chained(s) && Splittable(s.pages[s.root])
    ensures s.pages[s.root].right == None && Chained(SplitRoot(s))
  {
    SplitRootSplices(s);
    var t := SplitRoot(s);
    forall q: PageId | q < |t.pages| ensures ChainOk(t, q) { SpliceKeepsChain(s, t, s.root, |s.pages|, q); }
  }

  /** Borrowing moves the fence between neighbours and leaves links alone. */
  lemma BorrowKeepsChains(s: Store, p: PageId, i: nat, g: Family)
    requires Inv(s) && Chained(s) && HasSiblings(s, p, i) && Rebalanced(FamilyOf(s, p, i), i, g)
    ensures Chained(PutFamily(s, p, i, g))
  {
    SiblingsAdjacent(s, p, i);
    var t := PutFamily(s, p, i, g);
    forall q: PageId | q < |t.pages| ensures ChainOk(t, q) { assert ChainOk(s, q); }
  }

  /** A merge followed by `repair_merged_link`, which finds the retired page at
      the right of its recorded predecessor. */
  function RepairMerge(s: Store, pred: Option<PageId>, survivor: PageId): Store
    requires Valid(s, survivor) && (pred.Some? ==> Valid(s, pred.value))
  {
    SetPrevious(if pred.None? then s else SetRight(s, pred.value, survivor), survivor, pred)
  }

  /** A merge together with its link repair, as one step. */
  function MergeAndRepair(s: Store, p: PageId, i: nat): Store
    requires HasSiblings(s, p, i)
    requires var pred := s.pages[s.pages[p].kind.children[i]].previous; pred.Some? ==> Valid(s, pred.value)
  {
    RepairMerge(MergeAt(s, p, i), s.pages[s.pages[p].kind.children[i]].previous, s.pages[p].kind.children[i + 1])
  }

  /** In a chained heap two siblings around a separator are linked directly. */
  lemma SiblingsLinked(s: Store, p: PageId, i: nat)
    requires Inv(s) && Chained(s) && HasSiblings(s, p, i)
    ensures var (l, r) := (s.pages[p].kind.children[i], s.pages[p].kind.children[i + 1]);
            && l != r && s.pages[l].right == Some(r) && s.pages[r].previous == Some(l)
            && (s.pages[l].previous.Some? ==>
                  var q := s.pages[l].previous.value;
                  Live(s, q) && q != l && q != r && s.pages[q].right == Some(l))
  {
    var (l, r) := (s.pages[p].kind.children[i], s.pages[p].kind.children[i + 1]);
    SiblingsAdjacent(s, p, i);
    ChainIsKeyOrder(s, l);
    var m := s.pages[l].right.value;
    assert PageOk(s, m) && PageOk(s, r);
    OwnerUnique(s, m, r, s.pages[r].low.value);
    assert ChainOk(s, l);
    if s.pages[l].previous.Some? { assert PageOk(s, s.pages[l].previous.value); }
  }

  /** `t` differs from `s` around a page `l` that was folded into `r`. */
  predicate SplicedOut(s: Store, t: Store, l: PageId, r: PageId) {
    && Live(s, l) && Live(s, r) && |t.pages| == |s.pages|
    && !Active(t.pages[l])
    && t.pages[r].right == s.pages[r].right && t.pages[r].low == s.pages[l].low
    && t.pages[r].previous == s.pages[l].previous
    && (forall q: PageId | q < |s.pages| && q != l ::
          && (Active(t.pages[q]) <==> Active(s.pages[q]))
          && t.pages[q].right == if s.pages[l].previous == Some(q) then Some(r) else s.pages[q].right)
    && (forall q: PageId | q < |s.pages| && q != l && q != r ::
          t.pages[q].previous == s.pages[q].previous && t.pages[q].low == s.pages[q].low)
  }

  /** What a merge and its repair do to the links of a surviving page. */
  lemma LinksAfterMerge(s: Store, p: PageId, i: nat, q: PageId)
    requires Inv(s) && Chained(s) && HasSiblings(s, p, i)
    requires Valid(s, q) && q != s.pages[p].kind.children[i]
    ensures var (l, r) := (s.pages[p].kind.children[i], s.pages[p].kind.children[i + 1]);
            && (s.pages[l].previous.Some? ==> Valid(s, s.pages[l].previous.value))
            && var t := MergeAndRepair(s, p, i);
               && |t.pages| == |s.pages| && (Active(t.pages[q]) <==> Active(s.pages[q]))
               && t.pages[q].right == (if s.pages[l].previous == Some(q) then Some(r) else s.pages[q].right)
               && (q != r ==> t.pages[q].previous == s.pages[q].previous && t.pages[q].low == s.pages[q].low)
               && (q == r ==> t.pages[q].previous == s.pages[l].previous && t.pages[q].low == s.pages[l].low)
  {
    SiblingsAdjacent(s, p, i);
    SiblingsLinked(s, p, i);
  }

  lemma MergeSplicesOut(s: Store, p: PageId, i: nat)
    requires Inv(s) && Chained(s) && HasSiblings(s, p, i)
    ensures var (l, r) := (s.pages[p].kind.children[i], s.pages[p].kind.children[i + 1]);
            && (s.pages[l].previous.Some? ==> Valid(s, s.pages[l].previous.value))
            && SplicedOut(s, MergeAndRepair(s, p, i), l, r)
  {
    var (l, r) := (s.pages[p].kind.children[i], s.pages[p].kind.children[i + 1]);
    SiblingsLinked(s, p, i);
    forall q: PageId | q < |s.pages| && q != l
      ensures var t := MergeAndRepair(s, p, i);
              && (Active(t.pages[q]) <==> Active(s.pages[q]))
              && t.pages[q].right == (if s.pages[l].previous == Some(q) then Some(r) else s.pages[q].right)
              && (q != r ==> t.pages[q].previous == s.pages[q].previous && t.pages[q].low == s.pages[q].low)
    {
      LinksAfterMerge(s, p, i, q);
    }
    LinksAfterMerge(s, p, i, r);
    SiblingsAdjacent(s, p, i);
  }

  lemma SpliceOutKeepsChain(s: Store, t: Store, l: PageId, r: PageId, q: PageId)
    requires Inv(s) && Chained(s) && l != r && q < |s.pages|
    requires Live(s, l) && s.pages[l].right == Some(r)
    requires SplicedOut(s, t, l, r)
    ensures ChainOk(t, q)
  {
    assert ChainOk(s, q) && ChainOk(s, l) && ChainOk(s, r);
    assert PageOk(s, q) && PageOk(s, l);
    if s.pages[q].right.Some? && Live(s, q) { assert ChainOk(s, s.pages[q].right.value); }
  }

  lemma MergeKeepsChains(s: Store, p: PageId, i: nat)
    requires Inv(s) && Chained(s) && HasSiblings(s, p, i)
    ensures var (l, r) := (s.pages[p].kind.children[i], s.pages[p].kind.children[i + 1]);
            && (s.pages[l].previous.Some? ==> Valid(s, s.pages[l].previous.value))
            && Chained(MergeAndRepair(s, p, i))
  {
    var (l, r) := (s.pages[p].kind.children[i], s.pages[p].kind.children[i + 1]);
    SiblingsLinked(s, p, i);
    MergeSplicesOut(s, p, i);
    var t := MergeAndRepair(s, p, i);
    forall q: PageId | q < |t.pages| ensures ChainOk(t, q) { SpliceOutKeepsChain(s, t, l, r, q); }
  }

  lemma CollapseKeepsChains(s: Store)
    requires Inv(s) && Chained(s) && KeylessRoot(s)
    ensures Chained(CollapseRoot(s))
  {
    var c := s.pages[s.root].kind.children[0];
    SoleChild(s, c);
    var t := CollapseRoot(s);
    assert PageOk(s, s.root) && ChainOk(s, c) && ChainOk(s, s.root);
    forall q: PageId | q < |t.pages| ensures ChainOk(t, q) {
      assert ChainOk(s, q);
      SoleChild(s, q);
    }
  }

  // ---------------------------------------- whole steps, repair included

  /** A step that keeps the records, the counter and the chains. */
  ghost predicate KeepsMap(s: Store, t: Store)
    requires Inv(s)
  {
    Calm(t) && Contents(t) == Contents(s) && t.len == s.len
  }

  lemma CalmStep(s: Store, t: Store)
    requires Calm(s) && Inv(t) && Records(s) == Records(t) && t.len == s.len && Chained(t)
    ensures KeepsMap(s, t)
  {
    StructuralStep(s, t);
  }

  lemma RepairSplitKeeps(s: Store, newId: PageId, succ: Option<PageId>)
    requires Inv(s) && Valid(s, newId) && (succ.Some? ==> Valid(s, succ.value))
    ensures Inv(RepairSplit(s, newId, succ)) && Records(RepairSplit(s, newId, succ)) == Records(s)
  {
    if succ.Some? {
      SetPreviousKeepsInv(s, succ.value, Some(newId));
      PutRecords(s, succ.value, s.pages[succ.value].(previous := Some(newId)));
    }
  }

  lemma RepairMergeKeeps(s: Store, retired: PageId, pred: Option<PageId>, survivor: PageId)
    requires Inv(s) && Valid(s, survivor) && Valid(s, retired) && s.pages[retired].kind == Redirect(survivor)
    requires pred.Some? ==> Live(s, pred.value) && s.pages[pred.value].right == Some(retired)
    ensures Inv(RepairMerge(s, pred, survivor)) && Records(RepairMerge(s, pred, survivor)) == Records(s)
  {
    var u := if pred.None? then s else SetRight(s, pred.value, survivor);
    if pred.Some? {
      CompactKeepsInv(s, pred.value);
      PutRecords(s, pred.value, u.pages[pred.value]);
    }
    SetPreviousKeepsInv(u, survivor, pred);
    PutRecords(u, survivor, u.pages[survivor].(previous := pred));
  }

  /** After a merge the recorded predecessor still links to the retired page. */
  lemma PredecessorAfterMerge(s: Store, p: PageId, i: nat)
    requires Inv(s) && Chained(s) && HasSiblings(s, p, i)
    ensures var (l, r, t) := (s.pages[p].kind.children[i], s.pages[p].kind.children[i + 1], MergeAt(s, p, i));
            && Valid(t, r) && Valid(t, l) && t.pages[l].kind == Redirect(r)
            && (s.pages[l].previous.Some? ==>
                  Live(t, s.pages[l].previous.value) && t.pages[s.pages[l].previous.value].right == Some(l))
  {
    SiblingsAdjacent(s, p, i);
    SiblingsLinked(s, p, i);
  }

  /** After a merge between operations, the recorded predecessor still links to
      the retired page. */
  lemma MergeIsRepairable(s: Store, p: PageId, i: nat)
    requires Inv(s) && Chained(s) && HasSiblings(s, p, i) && CanMerge(FamilyOf(s, p, i)) && CanLose(s.pages[p])
    ensures var (l, r, t) := (s.pages[p].kind.children[i], s.pages[p].kind.children[i + 1], MergeAt(s, p, i));
            && Inv(t) && RepairOk(t, Repair(s.pages[l].previous, l, r)) && Live(t, r)
            && (s.pages[l].previous.Some? ==> LinksTo(t, s.pages[l].previous.value, l))
  {
    SiblingsAdjacent(s, p, i);
    MergeKeepsInv(s, p, i);
    PredecessorAfterMerge(s, p, i);
  }

  lemma SplitChildIsCalm(s: Store, p: PageId, i: nat)
    requires Calm(s) && HasChild(s, p, i) && Occupancy(s.pages[p]) < N
    requires Occupancy(s.pages[s.pages[p].kind.children[i]]) == N
    ensures Splittable(s.pages[s.pages[p].kind.children[i]])
    ensures var succ := s.pages[s.pages[p].kind.children[i]].right;
            && (succ.Some? ==> Valid(s, succ.value))
            && KeepsMap(s, RepairSplit(SplitChild(s, p, i), |s.pages|, succ))
  {
    var c := s.pages[p].kind.children[i];
    SplitChildKeepsInv(s, p, i);
    SplitChildKeepsChains(s, p, i);
    ChildInside(s, p, i);
    SplitChildRecords(s, p, i);
    RepairSplitKeeps(SplitChild(s, p, i), |s.pages|, s.pages[c].right);
    CalmStep(s, RepairSplit(SplitChild(s, p, i), |s.pages|, s.pages[c].right));
  }

  lemma SplitRootIsCalm(s: Store)
    requires Calm(s) && Occupancy(s.pages[s.root]) == N
    ensures Splittable(s.pages[s.root]) && s.pages[s.root].right == None && KeepsMap(s, SplitRoot(s))
  {
    SplitRootKeepsInv(s);
    SplitRootKeepsChains(s);
    SplitRootRecords(s);
    CalmStep(s, SplitRoot(s));
  }

  lemma BorrowIsCalm(s: Store, p: PageId, i: nat, fromLeft: bool)
    requires Calm(s) && HasSiblings(s, p, i)
    requires if fromLeft then CanBorrowLeft(FamilyOf(s, p, i)) else CanBorrowRight(FamilyOf(s, p, i))
    ensures var f := FamilyOf(s, p, i);
            var g := if fromLeft then BorrowFromLeft(f, i) else BorrowFromRight(f, i);
            KeepsMap(s, PutFamily(s, p, i, g)) && Rebalanced(f, i, g)
  {
    var f := FamilyOf(s, p, i);
    var g := if fromLeft then BorrowFromLeft(f, i) else BorrowFromRight(f, i);
    if fromLeft {
      BorrowLeftRebalances(s, p, i);
      BorrowLeftKeepsInv(s, p, i);
      BorrowLeftRecords(s, p, i);
    } else {
      BorrowRightRebalances(s, p, i);
      BorrowRightKeepsInv(s, p, i);
      BorrowRightRecords(s, p, i);
    }
    BorrowKeepsChains(s, p, i, g);
    CalmStep(s, PutFamily(s, p, i, g));
  }

  lemma MergeIsCalm(s: Store, p: PageId, i: nat)
    requires Calm(s) && HasSiblings(s, p, i) && CanMerge(FamilyOf(s, p, i)) && CanLose(s.pages[p])
    ensures var (l, r) := (s.pages[p].kind.children[i], s.pages[p].kind.children[i + 1]);
            && (s.pages[l].previous.Some? ==> Valid(s, s.pages[l].previous.value))
            && KeepsMap(s, MergeAndRepair(s, p, i))
  {
    var (l, r) := (s.pages[p].kind.children[i], s.pages[p].kind.children[i + 1]);
    var pred := s.pages[l].previous;
    MergeKeepsInv(s, p, i);
    MergeRecords(s, p, i);
    MergeKeepsChains(s, p, i);
    PredecessorAfterMerge(s, p, i);
    RepairMergeKeeps(MergeAt(s, p, i), l, pred, r);
    CalmStep(s, MergeAndRepair(s, p, i));
  }

  lemma CollapseIsCalm(s: Store)
    requires Calm(s) && KeylessRoot(s)
    ensures KeepsMap(s, CollapseRoot(s))
  {
    CollapseKeepsInv(s);
    CollapseRecords(s);
    CollapseKeepsChains(s);
    CalmStep(s, CollapseRoot(s));
  }

  /** A root without separators has one child, one level down. */
  lemma HollowCollapses(s: Store)
    requires Calm(s) && Hollow(s)
    ensures KeylessRoot(s) && s.pages[s.root].kind.children[0] != s.root
    ensures KeepsMap(s, CollapseRoot(s))
    ensures var t := CollapseRoot(s); Valid(t, t.root) && t.pages[t.root].level < s.pages[s.root].level
  {
    assert PageOk(s, s.root) && ChildOk(s, s.pages[s.root], 0);
    CollapseIsCalm(s);
    SoleChild(s, s.root);
  }

  // --------------------------------------------------------- leaf writes

  lemma ChainsIgnoreLen(s: Store, t: Store)
    requires Chained(s) && t.pages == s.pages
    ensures Chained(t)
  {
    forall p: PageId | p < |t.pages| ensures ChainOk(t, p) { assert ChainOk(s, p); }
  }

  /** Inserting or replacing at the owning leaf, between operations. */
  lemma PutIsQuiet(s: Store, p: PageId, k: Key, v: Value)
    requires Quiet(s) && Valid(s, p) && s.pages[p].kind.Leaf? && Owns(s.pages[p], k)
    requires Search(s.pages[p].kind.entries, k).Missing? ==> |s.pages[p].kind.entries| < N
    ensures Quiet(PutRecord(s, p, k, v)) && Contents(PutRecord(s, p, k, v)) == Contents(s)[k := v]
    ensures LeafGet(s.pages[p].kind.entries, k) == Lookup(Contents(s), k)
  {
    PutRecordSound(s, p, k, v);
    var u := WriteLeaf(s, p, LeafPut(s.pages[p].kind.entries, k, v));
    LeafWriteKeepsChains(s, p, LeafPut(s.pages[p].kind.entries, k, v));
    ChainsIgnoreLen(u, PutRecord(s, p, k, v));
  }

  /** Removing at the owning leaf, while the root may be hollow. */
  lemma DropIsCalm(s: Store, p: PageId, k: Key)
    requires Calm(s) && Valid(s, p) && s.pages[p].kind.Leaf? && Owns(s.pages[p], k)
    requires Search(s.pages[p].kind.entries, k).Found?
    requires s.pages[p].isRoot || N / 2 < |s.pages[p].kind.entries|
    ensures Calm(DropRecord(s, p, k)) && Contents(DropRecord(s, p, k)) == Contents(s) - {k}
    ensures LeafGet(s.pages[p].kind.entries, k) == Lookup(Contents(s), k)
  {
    DropRecordSound(s, p, k);
    var u := WriteLeaf(s, p, LeafDrop(s.pages[p].kind.entries, k));
    LeafWriteKeepsChains(s, p, LeafDrop(s.pages[p].kind.entries, k));
    ChainsIgnoreLen(u, DropRecord(s, p, k));
  }

  /** A leaf write leaves the separators of the root alone. */
  lemma DropKeepsHollow(s: Store, p: PageId, k: Key)
    requires Valid(s, p) && s.pages[p].kind.Leaf?
    ensures Hollow(DropRecord(s, p, k)) <==> Hollow(s)
  {
  }

  /** Splitting a full child and repairing the chain, as one step. */
  function SplitAndRepair(s: Store, p: PageId, i: nat): Store
    requires HasChild(s, p, i) && Splittable(s.pages[s.pages[p].kind.children[i]])
    requires var succ := s.pages[s.pages[p].kind.children[i]].right; succ.Some? ==> Valid(s, succ.value)
  {
    RepairSplit(SplitChild(s, p, i), |s.pages|, s.pages[s.pages[p].kind.children[i]].right)
  }

  /** The right neighbour of a child is an active page outside the split. */
  lemma SuccessorApart(s: Store, p: PageId, i: nat)
    requires Inv(s) && Chained(s) && HasChild(s, p, i)
    ensures s.pages[p].kind.children[i] != p
    ensures var succ := s.pages[s.pages[p].kind.children[i]].right;
            succ.Some? ==> Live(s, succ.value) && succ.value != p && succ.value != s.pages[p].kind.children[i]
  {
    var c := s.pages[p].kind.children[i];
    ChildInside(s, p, i);
    assert ChainOk(s, c) && PageOk(s, c);
  }

  lemma SplitAndRepairIsQuiet(s: Store, p: PageId, i: nat)
    requires Quiet(s) && HasChild(s, p, i) && Occupancy(s.pages[p]) < N
    requires Occupancy(s.pages[s.pages[p].kind.children[i]]) == N
    ensures Splittable(s.pages[s.pages[p].kind.children[i]]) && s.pages[p].kind.children[i] != p
    ensures var succ := s.pages[s.pages[p].kind.children[i]].right;
            succ.Some? ==> Live(s, succ.value) && succ.value != p && succ.value != s.pages[p].kind.children[i]
    ensures Quiet(SplitAndRepair(s, p, i)) && KeepsMap(s, SplitAndRepair(s, p, i))
  {
    SuccessorApart(s, p, i);
    RootIsNoChild(s, p, i);
    SplitChildIsCalm(s, p, i);
    SplitStaysFull(s, p, i);
  }

  /** Splitting never empties the root of separators. */
  lemma SplitStaysFull(s: Store, p: PageId, i: nat)
    requires HasChild(s, p, i) && Splittable(s.pages[s.pages[p].kind.children[i]]) && Valid(s, s.root) && !Hollow(s)
    requires s.pages[p].kind.children[i] != p && s.pages[p].kind.children[i] != s.root
    requires var succ := s.pages[s.pages[p].kind.children[i]].right; succ.Some? ==> Valid(s, succ.value)
    ensures !Hollow(SplitAndRepair(s, p, i))
  {
  }

  // ----------------------------------------------- the page entered next

  /** `c` is the page a writer at `p` enters next on behalf of `k`, after a
      step from `s` to `t`. */
  predicate Enters(s: Store, p: PageId, t: Store, k: Key, c: PageId)
    requires Valid(s, p)
  {
    Live(t, c) && Owns(t.pages[c], k) && t.pages[c].level + 1 == s.pages[p].level
  }

  /** After a split the half that owns the key has room. */
  lemma SplitHalfEntered(s: Store, p: PageId, i: nat, k: Key)
    requires Quiet(s) && HasChild(s, p, i) && Occupancy(s.pages[s.pages[p].kind.children[i]]) == N
    requires Owns(s.pages[s.pages[p].kind.children[i]], k)
    ensures Splittable(s.pages[s.pages[p].kind.children[i]])
    ensures var (c, succ) := (s.pages[p].kind.children[i], s.pages[s.pages[p].kind.children[i]].right);
            && (succ.Some? ==> Valid(s, succ.value))
            && var t := SplitAndRepair(s, p, i);
               var target := if SplitOf(s, c).separator <= k then |s.pages| else c;
               Enters(s, p, t, k, target) && Occupancy(t.pages[target]) < N
  {
    var c := s.pages[p].kind.children[i];
    HalvesInShape(s, c);
    SuccessorApart(s, p, i);
    ChildInside(s, p, i);
  }

  /** After a borrow the needy child still owns the key and is above minimum. */
  lemma BorrowerEntered(s: Store, p: PageId, i: nat, fromLeft: bool, k: Key)
    requires Calm(s) && HasSiblings(s, p, i)
    requires var f := FamilyOf(s, p, i);
             if fromLeft then CanBorrowLeft(f) && Owns(f.right, k) && Minimum(f.right) <= Occupancy(f.right)
             else CanBorrowRight(f) && Owns(f.left, k) && Minimum(f.left) <= Occupancy(f.left)
    ensures var (f, cs) := (FamilyOf(s, p, i), s.pages[p].kind.children);
            var t := PutFamily(s, p, i, if fromLeft then BorrowFromLeft(f, i) else BorrowFromRight(f, i));
            var c := if fromLeft then cs[i + 1] else cs[i];
            Enters(s, p, t, k, c) && Minimum(t.pages[c]) < Occupancy(t.pages[c])
  {
    FamilyIsGood(s, p, i);
    SiblingsAdjacent(s, p, i);
    if fromLeft { BorrowLeftWidens(FamilyOf(s, p, i), i); } else { BorrowRightWidens(FamilyOf(s, p, i), i); }
  }

  /** Folding a left sibling into the right one joins their intervals. */
  lemma MergeWidens(f: Family, i: nat, rightId: PageId, k: Key)
    requires GoodFamily(f, i) && Merged(f, i, rightId, MergeLeftIntoRight(f, i, rightId))
    requires Owns(f.left, k) || Owns(f.right, k)
    ensures var g := MergeLeftIntoRight(f, i, rightId);
            Owns(g.right, k) && Active(g.right) && g.right.level == f.right.level
            && Minimum(g.right) < Occupancy(g.right)
  {
  }

  /** The survivor's contents after the merge and the link repair. */
  lemma SurvivorAfterRepair(s: Store, p: PageId, i: nat)
    requires Inv(s) && Chained(s) && HasSiblings(s, p, i)
    ensures var (f, l, r) := (FamilyOf(s, p, i), s.pages[p].kind.children[i], s.pages[p].kind.children[i + 1]);
            && (s.pages[l].previous.Some? ==> Valid(s, s.pages[l].previous.value))
            && var t := MergeAndRepair(s, p, i);
               && Valid(t, r) && t.pages[r] == MergeLeftIntoRight(f, i, r).right
  {
    SiblingsAdjacent(s, p, i);
    SiblingsLinked(s, p, i);
  }

  /** After a merge the survivor owns both intervals and is above minimum. */
  lemma SurvivorEntered(s: Store, p: PageId, i: nat, k: Key)
    requires Calm(s) && HasSiblings(s, p, i) && CanMerge(FamilyOf(s, p, i)) && CanLose(s.pages[p])
    requires Owns(s.pages[s.pages[p].kind.children[i]], k) || Owns(s.pages[s.pages[p].kind.children[i + 1]], k)
    ensures var (l, r) := (s.pages[p].kind.children[i], s.pages[p].kind.children[i + 1]);
            && (s.pages[l].previous.Some? ==> Valid(s, s.pages[l].previous.value))
            && var t := MergeAndRepair(s, p, i);
               Enters(s, p, t, k, r) && Minimum(t.pages[r]) < Occupancy(t.pages[r])
  {
    MergeIsGood(s, p, i);
    ChildInside(s, p, i + 1);
    MergeWidens(FamilyOf(s, p, i), i, s.pages[p].kind.children[i + 1], k);
    SurvivorAfterRepair(s, p, i);
  }
}
