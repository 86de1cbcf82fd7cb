/** Where back-links lead. They are hints, and those of retired pages are never
    brought up to date; but none of them ever leads back to a page that forwards
    to the one it was taken from. So a repair that follows back-links and
    forwarding comes out at an active page in every heap a run can reach. */
module Backlinks {
  import opened Pages
  import opened Stores
  import opened Ownership
  import opened LinkSteps
  import opened SplitSteps
  import opened BorrowSteps
  import opened MergeSteps
  import opened Traversal
  import opened Protocol
  import opened Linearization
  import opened Refinement

  // ---------------------------------------------------------------- forwarding

  /** `y` is `z`, or a retired page that forwards to `z` along its level. */
  ghost predicate Forwards(s: Store, y: PageId, z: PageId)
    requires Inv(s) && Valid(s, y)
    decreases Above(s, y)
  {
    || y == z
    || (s.pages[y].kind.Redirect?
        && (assert PageOk(s, y);
            var t := s.pages[y].kind.target;
            && s.pages[t].level == s.pages[y].level
            && (AboveShrinks(s, y, t); Forwards(s, t, z))))
  }

  lemma {:induction false} ForwardingGoesRight(s: Store, y: PageId, z: PageId)
    requires Inv(s) && Valid(s, y) && Forwards(s, y, z)
    ensures Valid(s, z) && s.pages[y].level == s.pages[z].level
    ensures y != z ==> s.pages[y].rank < s.pages[z].rank
    decreases Above(s, y)
  {
    if y != z {
      assert PageOk(s, y);
      AboveShrinks(s, y, s.pages[y].kind.target);
      ForwardingGoesRight(s, s.pages[y].kind.target, z);
    }
  }

  lemma {:induction false} ForwardingGoesOn(s: Store, y: PageId, z: PageId)
    requires Inv(s) && Valid(s, y) && Forwards(s, y, z) && Valid(s, z) && s.pages[z].kind.Redirect?
    requires Valid(s, s.pages[z].kind.target) && s.pages[s.pages[z].kind.target].level == s.pages[z].level
    ensures Forwards(s, y, s.pages[z].kind.target)
    decreases Above(s, y)
  {
    var t := if y == z then z else s.pages[y].kind.target;
    if y != z {
      assert PageOk(s, y);
      AboveShrinks(s, y, t);
      ForwardingGoesOn(s, t, z);
    } else {
      assert Forwards(s, s.pages[z].kind.target, s.pages[z].kind.target);
    }
  }

  /** Forwarding passes no active page. */
  lemma {:induction false} ForwardingPassesNothing(s: Store, y: PageId, z: PageId, p: PageId)
    requires Inv(s) && Valid(s, y) && Forwards(s, y, z) && Live(s, p) && s.pages[p].level == s.pages[y].level
    requires Valid(s, z) && s.pages[p].rank < s.pages[z].rank
    ensures s.pages[p].rank < s.pages[y].rank
    decreases Above(s, y)
  {
    if y != z {
      var t := s.pages[y].kind.target;
      assert PageOk(s, y) && GapOk(s, y, p) && OrderOk(s, y, p);
      AboveShrinks(s, y, t);
      ForwardingPassesNothing(s, t, z, p);
    }
  }

  // ----------------------------------------------------------- the invariant

  /** The back-link of `z` leads along its level to a page left of `z` and of
      every page that forwards to `z`. */
  ghost predicate BackOk(s: Store, z: PageId)
    requires Inv(s) && Valid(s, z)
  {
    s.pages[z].previous.Some? ==>
      var x := s.pages[z].previous.value;
      && Valid(s, x) && s.pages[x].level == s.pages[z].level
      && forall y: PageId | y < |s.pages| && Forwards(s, y, z) :: s.pages[x].rank < s.pages[y].rank
  }

  ghost predicate BacksOk(s: Store)
    requires Inv(s)
  {
    forall z: PageId | z < |s.pages| :: BackOk(s, z)
  }

  // ------------------------------------------------- what a step does to links

  /** Page `m` is retired by a step and forwards along its level. */
  predicate Retires(s: Store, t: Store, m: PageId)
    requires Valid(s, m) && Valid(t, m)
  {
    && Active(s.pages[m]) && t.pages[m].kind.Redirect?
    && Valid(t, t.pages[m].kind.target) && t.pages[t.pages[m].kind.target].level == t.pages[m].level
  }

  /** The back-link of `z` is gone, as it was, or leads to an active page left
      of `z` on its level. */
  predicate BackMoves(s: Store, t: Store, z: PageId)
    requires Valid(t, z)
  {
    t.pages[z].previous.Some? ==>
      var x := t.pages[z].previous.value;
      || (Valid(s, z) && s.pages[z].previous == Some(x))
      || (Live(t, x) && t.pages[x].level == t.pages[z].level && t.pages[x].rank < t.pages[z].rank)
  }

  ghost predicate KeepsBacks(s: Store, t: Store) {
    && |s.pages| <= |t.pages|
    && (forall n: PageId | |s.pages| <= n < |t.pages| :: Active(t.pages[n]))
    && (forall z: PageId | z < |t.pages| :: BackMoves(s, t, z))
    && (forall m: PageId | m < |s.pages| :: !Retires(s, t, m))
  }

  lemma FreshLinkIsOk(t: Store, z: PageId)
    requires Inv(t) && Valid(t, z) && t.pages[z].previous.Some?
    requires var x := t.pages[z].previous.value;
             Live(t, x) && t.pages[x].level == t.pages[z].level && t.pages[x].rank < t.pages[z].rank
    ensures BackOk(t, z)
  {
    var x := t.pages[z].previous.value;
    forall y: PageId | y < |t.pages| && Forwards(t, y, z) ensures t.pages[x].rank < t.pages[y].rank {
      ForwardingGoesRight(t, y, z);
      ForwardingPassesNothing(t, y, z, x);
    }
  }

  /** If no page retires along its level, nothing new forwards to old pages. */
  lemma {:induction false} ForwardingStays(s: Store, t: Store, y: PageId, z: PageId)
    requires Inv(s) && Inv(t) && Evolves(s, t) && KeepsBacks(s, t)
    requires Valid(s, z) && Valid(t, y) && Forwards(t, y, z)
    ensures Valid(s, y) && Forwards(s, y, z)
    decreases Above(t, y)
  {
    if y != z {
      var u := t.pages[y].kind.target;
      assert PageOk(t, y);
      AboveShrinks(t, y, u);
      ForwardingStays(s, t, u, z);
      assert !Retires(s, t, y);
    }
  }

  lemma BacksStay(s: Store, t: Store)
    requires Inv(s) && Inv(t) && Evolves(s, t) && KeepsBacks(s, t) && BacksOk(s)
    ensures BacksOk(t)
  {
    forall z: PageId | z < |t.pages| ensures BackOk(t, z) {
      assert BackMoves(s, t, z);
      if Valid(s, z) && t.pages[z].previous == s.pages[z].previous {
        assert BackOk(s, z);
        forall y: PageId | y < |t.pages| && Forwards(t, y, z) ensures Valid(s, y) && Forwards(s, y, z) {
          ForwardingStays(s, t, y, z);
        }
      } else if t.pages[z].previous.Some? {
        FreshLinkIsOk(t, z);
      }
    }
  }

  /** Page `l` is folded into its right neighbour `r`, which takes its back-link. */
  predicate FoldsBacks(s: Store, t: Store, l: PageId, r: PageId) {
    && |t.pages| == |s.pages| && l != r && Live(s, l) && Live(s, r) && Live(t, r)
    && t.pages[l].kind == Redirect(r) && s.pages[l].level == s.pages[r].level && s.pages[l].rank < s.pages[r].rank
    && t.pages[r].previous == s.pages[l].previous
    && (forall z: PageId | z < |s.pages| && z != r :: t.pages[z].previous == s.pages[z].previous)
    && (forall m: PageId | m < |s.pages| && m != l :: t.pages[m].kind.Redirect? ==> s.pages[m].kind.Redirect?)
  }

  lemma {:induction false} FoldForwards(s: Store, t: Store, l: PageId, r: PageId, y: PageId, z: PageId)
    requires Inv(s) && Inv(t) && Evolves(s, t) && FoldsBacks(s, t, l, r)
    requires Valid(t, y) && Forwards(t, y, z)
    ensures Forwards(s, y, z) || (z == r && Forwards(s, y, l))
    decreases Above(t, y)
  {
    if y != z {
      var u := t.pages[y].kind.target;
      assert PageOk(t, y);
      AboveShrinks(t, y, u);
      FoldForwards(s, t, l, r, u, z);
      if y == l { assert Forwards(s, r, z) ==> z == r; }
    }
  }

  lemma FoldKeepsBacks(s: Store, t: Store, l: PageId, r: PageId)
    requires Inv(s) && Inv(t) && Evolves(s, t) && FoldsBacks(s, t, l, r) && BacksOk(s)
    ensures BacksOk(t)
  {
    forall z: PageId | z < |t.pages| ensures BackOk(t, z) {
      assert BackOk(s, z) && BackOk(s, l);
      forall y: PageId | y < |t.pages| && Forwards(t, y, z)
        ensures Forwards(s, y, z) || (z == r && Forwards(s, y, l))
        ensures z == r && Forwards(s, y, r) ==> s.pages[l].rank < s.pages[y].rank
      {
        FoldForwards(s, t, l, r, y, z);
        if z == r && Forwards(s, y, r) {
          ForwardingGoesRight(s, y, r);
          ForwardingPassesNothing(s, y, r, l);
        }
      }
      assert Forwards(s, l, l);
    }
  }

  // -------------------------------------------------------- steps of a thread

  /** Kinds and back-links stay as they are, up to which records a leaf holds. */
  predicate SameBacks(s: Store, t: Store) {
    && |t.pages| == |s.pages|
    && forall z: PageId | z < |s.pages| ::
         && (Active(t.pages[z]) <==> Active(s.pages[z]))
         && t.pages[z].previous == s.pages[z].previous
  }

  lemma SameBacksStay(s: Store, t: Store)
    requires SameBacks(s, t)
    ensures KeepsBacks(s, t)
  {
  }

  lemma SetPreviousKeepsBacks(s: Store, p: PageId, q: Option<PageId>)
    requires Inv(s) && Valid(s, p) && (q.Some? ==> LinksTo(s, q.value, p))
    ensures KeepsBacks(s, SetPrevious(s, p, q))
  {
    if q.Some? { assert PageOk(s, q.value); }
  }

  lemma SplitChildKeepsBacks(s: Store, p: PageId, i: nat)
    requires Inv(s) && HasChild(s, p, i) && Splittable(s.pages[s.pages[p].kind.children[i]])
    ensures KeepsBacks(s, SplitChild(s, p, i))
  {
    ChildInside(s, p, i);
  }

  lemma SplitRootKeepsBacks(s: Store)
    requires Inv(s) && Splittable(s.pages[s.root])
    ensures KeepsBacks(s, SplitRoot(s))
  {
  }

  lemma RefillSameBacks(s: Store, node: PageId, i: nat, leftNeedy: bool)
    requires Inv(s) && HasSiblings(s, node, i)
    requires var f := FamilyOf(s, node, i);
             Minimum(f.left) < Occupancy(f.left) || Minimum(f.right) < Occupancy(f.right)
    ensures SameBacks(s, RefillPair(s, node, i, leftNeedy).store)
  {
    SiblingsAdjacent(s, node, i);
  }

  lemma CollapseKeepsBacks(s: Store)
    requires Inv(s) && KeylessRoot(s)
    ensures KeepsBacks(s, CollapseRoot(s))
  {
    SoleChild(s, s.root);
  }

  lemma MergeFoldsBacks(s: Store, p: PageId, i: nat)
    requires Inv(s) && HasSiblings(s, p, i)
    ensures FoldsBacks(s, MergeAt(s, p, i), s.pages[p].kind.children[i], s.pages[p].kind.children[i + 1])
  {
    SiblingsAdjacent(s, p, i);
  }

  lemma InsertKeepsBacks(s: Store, taken: set<Latch>, op: Op, node: PageId)
    requires Inv(s) && Valid(s, node) && op.Insert?
    ensures KeepsBacks(s, InsertVisit(s, taken, op, node).store)
  {
    RoutingIsTotal(s, node);
    assert PageOk(s, node);
    var (page, t) := (s.pages[node], InsertVisit(s, taken, op, node).store);
    if RouteOf(page, op.key).Here? && page.kind.Internal? && t != s {
      ChildOwns(s, node, op.key);
      var i := ChildIndex(page.kind.keys, op.key);
      HalvesInShape(s, page.kind.children[i]);
      assert t == SplitChild(s, node, i);
      SplitChildKeepsBacks(s, node, i);
    } else {
      SameBacksStay(s, t);
    }
  }

  lemma RefillKeepsBacks(s: Store, node: PageId, i: nat, leftNeedy: bool)
    requires Inv(s) && BacksOk(s) && HasSiblings(s, node, i)
    requires var t := RefillPair(s, node, i, leftNeedy).store; Inv(t) && Evolves(s, t)
    ensures BacksOk(RefillPair(s, node, i, leftNeedy).store)
  {
    var (f, t) := (FamilyOf(s, node, i), RefillPair(s, node, i, leftNeedy).store);
    if Minimum(f.left) < Occupancy(f.left) || Minimum(f.right) < Occupancy(f.right) {
      RefillSameBacks(s, node, i, leftNeedy);
      SameBacksStay(s, t);
      BacksStay(s, t);
    } else {
      MergeFoldsBacks(s, node, i);
      FoldKeepsBacks(s, t, s.pages[node].kind.children[i], s.pages[node].kind.children[i + 1]);
    }
  }

  lemma RemoveKeepsBacks(s: Store, taken: set<Latch>, op: Op, node: PageId)
    requires Inv(s) && BacksOk(s) && Valid(s, node) && op.Remove?
    requires var t := RemoveVisit(s, taken, op, node).store; Inv(t) && Evolves(s, t)
    ensures BacksOk(RemoveVisit(s, taken, op, node).store)
  {
    RoutingIsTotal(s, node);
    assert PageOk(s, node);
    var (page, t) := (s.pages[node], RemoveVisit(s, taken, op, node).store);
    if page.kind.Internal? && Owns(page, op.key) && CanLose(page) && PairBelow(s, taken, op.key, node).Some? {
      var pair := PairBelow(s, taken, op.key, node).value;
      assert t == RefillPair(s, node, pair.0, pair.1).store;
      RefillKeepsBacks(s, node, pair.0, pair.1);
    } else {
      assert SameBacks(s, t);
      SameBacksStay(s, t);
      BacksStay(s, t);
    }
  }

  lemma RootKeepsBacks(s: Store, taken: set<Latch>, alive: bool, op: Op, answer: Option<Result>, at: Phase)
    requires Inv(s) && Knows(s, at) && Suits(op, answer, at) && !Searching(at) && !Repairing(at) && !at.Writing?
    ensures KeepsBacks(s, Step(s, taken, alive, op, answer, at).store)
  {
    assert PageOk(s, s.root);
    if at.SplittingRootHeld? && Occupancy(s.pages[s.root]) == N {
      SplitRootKeepsBacks(s);
    } else if at.ShrinkingRoot? {
      ChildInside(s, s.root, 0);
      CollapseKeepsBacks(s);
    } else {
      SameBacksStay(s, Step(s, taken, alive, op, answer, at).store);
    }
  }

  lemma RepairKeepsBacks(s: Store, taken: set<Latch>, alive: bool, op: Op, answer: Option<Result>, at: Phase)
    requires Inv(s) && Knows(s, at) && Suits(op, answer, at) && Repairing(at)
    ensures KeepsBacks(s, Step(s, taken, alive, op, answer, at).store)
  {
    var t := Step(s, taken, alive, op, answer, at).store;
    if at.FixingBackHeld? && Active(s.pages[at.successor]) {
      SetPreviousKeepsBacks(s, at.successor, Some(at.page));
    } else if at.UnlinkingJoin? && Active(s.pages[at.repair.survivor]) {
      SetPreviousKeepsBacks(s, at.repair.survivor, Some(at.cursor));
    } else if at.UnlinkingLast? {
      SetPreviousKeepsBacks(s, at.repair.survivor, None);
    } else {
      SameBacksStay(s, t);
    }
  }

  lemma LatchedKeepsBacks(s: Store, op: Op, node: PageId)
    requires Inv(s) && Valid(s, node) && (Structural(op) || op.Modify?)
    ensures SameBacks(s, LatchedVisit(s, op, node).store)
  {
  }

  /** Every step of every operation leaves back-links in order. */
  lemma StepKeepsBacks(s: Store, taken: set<Latch>, alive: bool, op: Op, answer: Option<Result>, at: Phase)
    requires Inv(s) && BacksOk(s) && Knows(s, at) && Suits(op, answer, at)
    requires var t := Step(s, taken, alive, op, answer, at).store; Inv(t) && Evolves(s, t)
    ensures BacksOk(Step(s, taken, alive, op, answer, at).store)
  {
    var t := Step(s, taken, alive, op, answer, at).store;
    if at.Writing? && op.Remove? {
      RemoveKeepsBacks(s, taken, op, at.node);
    } else {
      if at.Writing? {
        InsertKeepsBacks(s, taken, op, at.node);
      } else if at.Latching? {
        LatchedKeepsBacks(s, op, at.node);
      } else if Repairing(at) {
        RepairKeepsBacks(s, taken, alive, op, answer, at);
      } else if !Searching(at) {
        RootKeepsBacks(s, taken, alive, op, answer, at);
      } else {
        SameBacksStay(s, t);
      }
      BacksStay(s, t);
    }
  }

  // --------------------------------------------------------------- coming out

  /** Where a repair goes on from a retired page: to its back-link, unless that
      page has been freed, and else along its forwarding. */
  function Backtrack(s: Store, freed: set<PageId>, p: PageId): PageId
    requires Valid(s, p) && s.pages[p].kind.Redirect?
  {
    var page := s.pages[p];
    if page.previous.Some? && page.previous.value !in freed then page.previous.value else page.kind.target
  }

  /** From `p`, a repair comes to an active page in at most `n` turns. */
  predicate EscapesIn(s: Store, freed: set<PageId>, p: PageId, n: nat)
    decreases n
  {
    && Valid(s, p)
    && (Active(s.pages[p]) || (n > 0 && EscapesIn(s, freed, Backtrack(s, freed, p), n - 1)))
  }

  /** A turn at a retired page, which right links do not affect. */
  lemma BacktrackTurn(s: Store, t: Store, freed: set<PageId>, p: PageId, n: nat)
    requires Shortened(s, t) && EscapesIn(s, freed, p, n) && !Active(t.pages[p])
    ensures n > 0 && Valid(s, Backtrack(t, freed, p)) && EscapesIn(s, freed, Backtrack(t, freed, p), n - 1)
  {
    assert OnlyRightMoves(s.pages[p], t.pages[p]);
  }

  /** The pages left of every page that forwards to `p`. */
  ghost function LeftOfAll(s: Store, p: PageId): set<PageId>
    requires Inv(s) && Valid(s, p)
  {
    set q: PageId | q < |s.pages|
                    && forall y: PageId | y < |s.pages| && Forwards(s, y, p) :: s.pages[q].rank < s.pages[y].rank
  }

  lemma BacklinkLeavesLess(s: Store, p: PageId, x: PageId)
    requires Inv(s) && Valid(s, p) && BackOk(s, p) && s.pages[p].previous == Some(x)
    ensures Valid(s, x) && s.pages[x].level == s.pages[p].level && LeftOfAll(s, x) < LeftOfAll(s, p)
  {
    assert Forwards(s, x, x);
    assert x in LeftOfAll(s, p) && x !in LeftOfAll(s, x);
  }

  lemma TargetLeavesNoMore(s: Store, p: PageId)
    requires Inv(s) && Valid(s, p) && s.pages[p].kind.Redirect?
    requires Valid(s, s.pages[p].kind.target) && s.pages[s.pages[p].kind.target].level == s.pages[p].level
    ensures LeftOfAll(s, s.pages[p].kind.target) <= LeftOfAll(s, p)
  {
    forall y: PageId | y < |s.pages| && Forwards(s, y, p) ensures Forwards(s, y, s.pages[p].kind.target) {
      ForwardingGoesOn(s, y, p);
    }
  }

  /** Whatever has been freed, following back-links and forwarding from any page
      ends at an active one: a back-link leaves fewer pages to the left of all
      that is forwarded, and forwarding leaves no more of them. */
  lemma {:induction false} BacktrackingEscapes(s: Store, freed: set<PageId>, p: PageId) returns (n: nat)
    requires Inv(s) && BacksOk(s) && Valid(s, p)
    ensures EscapesIn(s, freed, p, n)
    decreases s.pages[p].level, LeftOfAll(s, p), Above(s, p)
  {
    n := 0;
    if s.pages[p].kind.Redirect? {
      assert PageOk(s, p) && BackOk(s, p);
      var q := Backtrack(s, freed, p);
      if s.pages[p].previous == Some(q) {
        BacklinkLeavesLess(s, p, q);
      } else if s.pages[q].level == s.pages[p].level {
        TargetLeavesNoMore(s, p);
        AboveShrinks(s, p, q);
      }
      n := BacktrackingEscapes(s, freed, q);
      n := n + 1;
    }
  }

  /** Wherever a repair may have to backtrack, it comes out. */
  ghost predicate ComesOut(s: Store, freed: set<PageId>, r: Repair)
    requires Valid(s, r.survivor)
  {
    && (r.predecessor.Some? && r.predecessor.value !in freed ==>
          exists n: nat :: EscapesIn(s, freed, r.predecessor.value, n))
    && (s.pages[r.survivor].kind.Redirect? ==>
          exists n: nat :: EscapesIn(s, freed, s.pages[r.survivor].kind.target, n))
  }

  lemma RepairComesOut(s: Store, freed: set<PageId>, r: Repair)
    requires Inv(s) && BacksOk(s) && RepairOk(s, r)
    ensures ComesOut(s, freed, r)
  {
    if r.predecessor.Some? { var n := BacktrackingEscapes(s, freed, r.predecessor.value); }
    assert PageOk(s, r.survivor);
    if s.pages[r.survivor].kind.Redirect? { var n := BacktrackingEscapes(s, freed, s.pages[r.survivor].kind.target); }
  }

  // ---------------------------------------------------- what a repair leaves

  /** Nothing has changed but right links of active pages. */
  predicate Shortened(s: Store, t: Store) {
    && |t.pages| == |s.pages| && t.root == s.root && t.len == s.len
    && forall q: PageId | q < |s.pages| :: OnlyRightMoves(s.pages[q], t.pages[q])
  }

  predicate OnlyRightMoves(a: Page, b: Page) {
    b == a.(right := b.right) && (a.kind.Redirect? ==> b == a)
  }

  predicate LiesLeft(s: Store, c: PageId, q: PageId) {
    Live(s, c) && Valid(s, q) && s.pages[c].level == s.pages[q].level && s.pages[c].rank < s.pages[q].rank
  }

  /** An active page left of `q` links past it, or to nothing. */
  predicate LinksPast(s: Store, c: PageId, q: PageId) {
    && LiesLeft(s, c, q)
    && (s.pages[c].right.Some? ==>
          Valid(s, s.pages[c].right.value) && s.pages[q].rank < s.pages[s.pages[c].right.value].rank)
  }

  /** The chain of active pages passes by `q`. */
  ghost predicate Spliced(s: Store, q: PageId) {
    exists c: PageId :: LinksPast(s, c, q)
  }

  /** No active page links to a page that has been spliced out. */
  lemma SplicedIsUnlinked(s: Store, p: PageId, q: PageId)
    requires Inv(s) && Spliced(s, q) && Live(s, p)
    ensures s.pages[p].right != Some(q)
  {
    var c: PageId :| LinksPast(s, c, q);
    assert PageOk(s, p) && PageOk(s, c);
    assert OrderOk(s, p, c) && OrderOk(s, c, p);
    assert GapOk(s, p, c) && GapOk(s, c, p);
  }

  /** The pages right of the right neighbour of `p`. */
  ghost function RightAbove(s: Store, p: PageId): set<PageId>
    requires Valid(s, p)
  {
    if s.pages[p].right.Some? && Valid(s, s.pages[p].right.value) then Above(s, s.pages[p].right.value) else {}
  }

  lemma CompactShortens(s: Store, p: PageId)
    requires Inv(s) && Live(s, p) && s.pages[p].right.Some?
    requires Valid(s, s.pages[p].right.value) && s.pages[s.pages[p].right.value].kind.Redirect?
    ensures var t := SetRight(s, p, s.pages[s.pages[p].right.value].kind.target);
            && Inv(t) && Shortened(s, t) && RightAbove(t, p) < RightAbove(s, p)
            && forall q: PageId | Spliced(s, q) :: Spliced(t, q)
  {
    var r := s.pages[p].right.value;
    var t := SetRight(s, p, s.pages[r].kind.target);
    CompactKeepsInv(s, p);
    RetiredNeighbour(s, p);
    AboveShrinks(s, r, s.pages[r].kind.target);
    assert Above(t, s.pages[r].kind.target) == Above(s, s.pages[r].kind.target);
    forall q: PageId | Spliced(s, q) ensures Spliced(t, q) {
      var c: PageId :| LinksPast(s, c, q);
      assert LinksPast(t, c, q);
    }
  }

  lemma ShortenedTwice(s: Store, t: Store, u: Store)
    requires Shortened(s, t) && Shortened(t, u)
    ensures Shortened(s, u)
  {
    forall q: PageId | q < |s.pages| ensures OnlyRightMoves(s.pages[q], u.pages[q]) {
      assert OnlyRightMoves(s.pages[q], t.pages[q]) && OnlyRightMoves(t.pages[q], u.pages[q]);
    }
  }

  lemma ShortenedAbove(s: Store, t: Store, p: PageId)
    requires Shortened(s, t) && Valid(s, p)
    ensures Above(t, p) == Above(s, p)
  {
    forall q: PageId | q < |s.pages| ensures t.pages[q].rank == s.pages[q].rank {
      assert OnlyRightMoves(s.pages[q], t.pages[q]);
    }
  }

  /** A turn of a repair at an active page `c` that goes on at `n`: the right
      link of `c` has been shortened, or the search has moved right. */
  ghost predicate Advances(s: Store, t: Store, c: PageId, n: PageId)
    requires Valid(s, c) && Valid(t, c) && Valid(s, n)
  {
    || (n == c && RightAbove(t, c) < RightAbove(s, c))
    || (t == s && Above(s, n) < Above(s, c))
  }

  /** The back-link of `p` is gone or leads to an active page linked to `p`. */
  predicate BackMatches(s: Store, p: PageId) {
    Valid(s, p) && (s.pages[p].previous.Some? ==> LinksTo(s, s.pages[p].previous.value, p))
  }

  /** The search has spliced `q` out or is still to the left of it. */
  ghost predicate OnCourse(s: Store, cursor: Option<PageId>, q: PageId) {
    Spliced(s, q) || (cursor.Some? && LiesLeft(s, cursor.value, q))
  }

  lemma SetPreviousKeepsSpliced(s: Store, p: PageId, x: Option<PageId>, q: PageId)
    requires Valid(s, p) && Spliced(s, q)
    ensures Spliced(SetPrevious(s, p, x), q)
  {
    var c: PageId :| LinksPast(s, c, q);
    assert LinksPast(SetPrevious(s, p, x), c, q);
  }
}
