/** How keys move between leaves as the heap changes. The leaf that owns a key
    has a place on its level, its rank. No step of the protocol ever moves the
    place of a key to the left, except that a leaf borrows from its right
    sibling; and the leftmost page of a level stays leftmost. */
module Motion {
  import opened Pages
  import opened Stores
  import opened Ownership
  import opened LinkSteps
  import opened SplitSteps
  import opened BorrowSteps
  import opened MergeSteps
  import opened Abstraction
  import opened Traversal
  import opened Protocol
  import opened Linearization
  import opened Refinement

  /** The active leaf that owns `k`. */
  ghost function Owner(s: Store, k: Key): (q: PageId)
    requires Inv(s)
    ensures Live(s, q) && s.pages[q].kind.Leaf? && s.pages[q].level == 0 && Owns(s.pages[q], k)
  {
    var q := Traverse(s, s.root, k).value;
    assert PageOk(s, q);
    q
  }

  lemma OwnerIs(s: Store, q: PageId, k: Key)
    requires Inv(s) && Live(s, q) && s.pages[q].level == 0 && Owns(s.pages[q], k)
    ensures Owner(s, k) == q
  {
    OwnerUnique(s, q, Owner(s, k), k);
  }

  /** The place of `k` on the leaf level. */
  ghost function Place(s: Store, k: Key): real
    requires Inv(s)
  {
    s.pages[Owner(s, k)].rank
  }

  // ------------------------------------------------------ rewrites of the heap

  /** A key stays where its owner keeps it. */
  lemma PlaceKept(s: Store, t: Store, k: Key)
    requires Inv(s) && Inv(t)
    requires var q := Owner(s, k);
             Live(t, q) && t.pages[q].level == 0 && t.pages[q].rank == s.pages[q].rank && Owns(t.pages[q], k)
    ensures Place(t, k) == Place(s, k)
  {
    OwnerIs(t, Owner(s, k), k);
  }

  predicate KeepsHeaders(s: Store, t: Store) {
    |t.pages| == |s.pages| && forall q: PageId | q < |s.pages| :: SameHeader(s.pages[q], t.pages[q])
  }

  lemma HeadersKeepPlaces(s: Store, t: Store, k: Key)
    requires Inv(s) && Inv(t) && KeepsHeaders(s, t)
    ensures Place(t, k) == Place(s, k)
  {
    PlaceKept(s, t, k);
  }

  lemma SplitChildAdvances(s: Store, p: PageId, i: nat, k: Key)
    requires Inv(s) && HasChild(s, p, i) && Splittable(s.pages[s.pages[p].kind.children[i]])
    requires Inv(SplitChild(s, p, i))
    ensures Place(s, k) <= Place(SplitChild(s, p, i), k)
  {
    var (c, t) := (s.pages[p].kind.children[i], SplitChild(s, p, i));
    ChildInside(s, p, i);
    if Owner(s, k) == c && SplitOf(s, c).separator <= k {
      OwnerIs(t, |s.pages|, k);
    } else {
      assert PageOk(s, p);
      PlaceKept(s, t, k);
    }
  }

  lemma SplitRootAdvances(s: Store, k: Key)
    requires Inv(s) && Splittable(s.pages[s.root]) && Inv(SplitRoot(s))
    ensures Place(s, k) <= Place(SplitRoot(s), k)
  {
    var t := SplitRoot(s);
    if Owner(s, k) == s.root && SplitOf(s, s.root).separator <= k {
      OwnerIs(t, |s.pages|, k);
    } else {
      PlaceKept(s, t, k);
    }
  }

  lemma BorrowLeftAdvances(s: Store, p: PageId, i: nat, k: Key)
    requires Inv(s) && HasSiblings(s, p, i) && CanBorrowLeft(FamilyOf(s, p, i))
    requires Inv(PutFamily(s, p, i, BorrowFromLeft(FamilyOf(s, p, i), i)))
    ensures Place(s, k) <= Place(PutFamily(s, p, i, BorrowFromLeft(FamilyOf(s, p, i), i)), k)
  {
    var (f, g) := (FamilyOf(s, p, i), BorrowFromLeft(FamilyOf(s, p, i), i));
    var (l, r, t) := (s.pages[p].kind.children[i], s.pages[p].kind.children[i + 1], PutFamily(s, p, i, g));
    FamilyIsGood(s, p, i);
    BorrowLeftWidens(f, i);
    SiblingsAdjacent(s, p, i);
    assert PageOk(s, p);
    if Owner(s, k) == l && g.right.low.value <= k {
      OwnerIs(t, r, k);
    } else {
      PlaceKept(s, t, k);
    }
  }

  /** Borrowing from the right moves exactly the keys between the old and the
      new fence, and moves them left. */
  lemma BorrowRightRetreats(s: Store, p: PageId, i: nat, k: Key)
    requires Inv(s) && HasSiblings(s, p, i) && CanBorrowRight(FamilyOf(s, p, i))
    requires Inv(PutFamily(s, p, i, BorrowFromRight(FamilyOf(s, p, i), i)))
    ensures var (f, g) := (FamilyOf(s, p, i), BorrowFromRight(FamilyOf(s, p, i), i));
            var t := PutFamily(s, p, i, g);
            && g.left.high.Some?
            && if Owner(s, k) == s.pages[p].kind.children[i + 1] && k < g.left.high.value
               then Place(t, k) == f.left.rank < f.right.rank == Place(s, k)
               else Place(t, k) == Place(s, k)
  {
    var (f, g) := (FamilyOf(s, p, i), BorrowFromRight(FamilyOf(s, p, i), i));
    var (l, r, t) := (s.pages[p].kind.children[i], s.pages[p].kind.children[i + 1], PutFamily(s, p, i, g));
    FamilyIsGood(s, p, i);
    BorrowRightWidens(f, i);
    SiblingsAdjacent(s, p, i);
    assert PageOk(s, p);
    if Owner(s, k) == r && k < g.left.high.value {
      OwnerIs(t, l, k);
    } else {
      PlaceKept(s, t, k);
    }
  }

  lemma MergeAdvances(s: Store, p: PageId, i: nat, k: Key)
    requires Inv(s) && HasSiblings(s, p, i) && CanMerge(FamilyOf(s, p, i)) && CanLose(s.pages[p])
    requires Inv(MergeAt(s, p, i))
    ensures Place(s, k) <= Place(MergeAt(s, p, i), k)
  {
    var (l, r, t) := (s.pages[p].kind.children[i], s.pages[p].kind.children[i + 1], MergeAt(s, p, i));
    MergeIsGood(s, p, i);
    SiblingsAdjacent(s, p, i);
    assert PageOk(s, p);
    if Owner(s, k) == l {
      OwnerIs(t, r, k);
    } else {
      PlaceKept(s, t, k);
    }
  }

  lemma CollapseKeepsPlaces(s: Store, k: Key)
    requires Inv(s) && KeylessRoot(s) && Inv(CollapseRoot(s))
    ensures Place(CollapseRoot(s), k) == Place(s, k)
  {
    SoleChild(s, s.root);
    PlaceKept(s, CollapseRoot(s), k);
  }

  // -------------------------------------------------------- steps of a thread

  /** The step of a remover that lets the first child of its page borrow from
      the second one. */
  ghost predicate Lends(s: Store, taken: set<Latch>, op: Op, at: Phase)
    requires Inv(s)
  {
    && at.Writing? && op.Remove?
    && Live(s, at.node) && s.pages[at.node].kind.Internal?
    && Owns(s.pages[at.node], op.key) && CanLose(s.pages[at.node])
    && PairBelow(s, taken, op.key, at.node) == Some((0, true))
    && var f := FamilyOf(s, at.node, 0);
       Occupancy(f.left) <= Minimum(f.left) && Minimum(f.right) < Occupancy(f.right)
  }

  /** Among the keys of the lending leaf, those in front of its second record
      move to the borrower. */
  ghost predicate Retreats(s: Store, taken: set<Latch>, op: Op, at: Phase, k: Key)
    requires Inv(s)
  {
    && Lends(s, taken, op, at)
    && var r := FamilyOf(s, at.node, 0).right;
       r.kind.Leaf? && Owns(r, k) && |r.kind.entries| >= 2 && k < r.kind.entries[1].key
  }

  /** What a step does to the place of a key. */
  ghost predicate MovesPlace(s: Store, taken: set<Latch>, op: Op, at: Phase, k: Key, t: Store)
    requires Inv(s)
  {
    && Inv(t)
    && if Retreats(s, taken, op, at, k)
       then var f := FamilyOf(s, at.node, 0); Place(t, k) == f.left.rank < f.right.rank == Place(s, k)
       else Place(s, k) <= Place(t, k)
  }

  lemma LatchedKeepsHeaders(s: Store, op: Op, node: PageId)
    requires Inv(s) && Valid(s, node) && (Structural(op) || op.Modify?)
    ensures KeepsHeaders(s, LatchedVisit(s, op, node).store)
  {
  }

  lemma UnlinkKeepsHeaders(s: Store, resume: Option<PageId>, r: Repair, cursor: PageId, alive: bool)
    requires Valid(s, cursor)
    ensures KeepsHeaders(s, UnlinkTurn(s, resume, r, cursor, alive).store)
  {
  }

  lemma JoinKeepsHeaders(s: Store, resume: Option<PageId>, r: Repair, cursor: PageId, reason: Reason)
    requires LinksTo(s, cursor, r.survivor)
    ensures KeepsHeaders(s, JoinTurn(s, resume, r, cursor, reason).store)
  {
  }

  lemma RepairKeepsHeaders(s: Store, taken: set<Latch>, alive: bool, op: Op, answer: Option<Result>, at: Phase)
    requires Inv(s) && Knows(s, at) && Suits(op, answer, at) && Repairing(at)
    ensures KeepsHeaders(s, Step(s, taken, alive, op, answer, at).store)
  {
    if at.UnlinkingFrom? {
      UnlinkKeepsHeaders(s, at.resume, at.repair, at.cursor, alive);
    } else if at.UnlinkingJoin? {
      JoinKeepsHeaders(s, at.resume, at.repair, at.cursor, at.reason);
    }
  }

  lemma InsertAdvances(s: Store, taken: set<Latch>, op: Op, node: PageId, k: Key)
    requires Inv(s) && Valid(s, node) && op.Insert? && Inv(InsertVisit(s, taken, op, node).store)
    ensures Place(s, k) <= Place(InsertVisit(s, taken, op, node).store, k)
  {
    RoutingIsTotal(s, node);
    assert PageOk(s, node);
    var (page, t) := (s.pages[node], InsertVisit(s, taken, op, node).store);
    if RouteOf(page, op.key).Here? && page.kind.Internal? && t != s {
      ChildOwns(s, node, op.key);
      var i := ChildIndex(page.kind.keys, op.key);
      HalvesInShape(s, page.kind.children[i]);
      assert t == SplitChild(s, node, i);
      SplitChildAdvances(s, node, i, k);
    } else {
      HeadersKeepPlaces(s, t, k);
    }
  }

  /** A needy child that borrows or merges. */
  lemma RefillMoves(s: Store, node: PageId, i: nat, leftNeedy: bool, k: Key)
    requires Inv(s) && HasSiblings(s, node, i) && CanLose(s.pages[node])
    requires Inv(RefillPair(s, node, i, leftNeedy).store)
    ensures var (f, t) := (FamilyOf(s, node, i), RefillPair(s, node, i, leftNeedy).store);
            if leftNeedy && Occupancy(f.left) <= Minimum(f.left) && Minimum(f.right) < Occupancy(f.right)
               && f.right.kind.Leaf? && Owns(f.right, k)
               && |f.right.kind.entries| >= 2 && k < f.right.kind.entries[1].key
            then Place(t, k) == f.left.rank < f.right.rank == Place(s, k)
            else Place(s, k) <= Place(t, k)
  {
    var f := FamilyOf(s, node, i);
    var (needy, donor) := if leftNeedy then (f.left, f.right) else (f.right, f.left);
    SiblingsAdjacent(s, node, i);
    assert PageOk(s, s.pages[node].kind.children[i + 1]);
    if f.right.kind.Leaf? && Owns(f.right, k) { OwnerIs(s, s.pages[node].kind.children[i + 1], k); }
    if Minimum(needy) < Occupancy(needy) {
    } else if Minimum(donor) < Occupancy(donor) {
      var g := if leftNeedy then BorrowFromRight(f, i) else BorrowFromLeft(f, i);
      assert RefillPair(s, node, i, leftNeedy).store == PutFamily(s, node, i, g);
      if leftNeedy { BorrowRightRetreats(s, node, i, k); } else { BorrowLeftAdvances(s, node, i, k); }
    } else {
      MergeAdvances(s, node, i, k);
    }
  }

  /** A removal that neither borrows nor merges leaves all fences alone. */
  lemma RemoveKeepsHeaders(s: Store, taken: set<Latch>, op: Op, node: PageId)
    requires Inv(s) && Valid(s, node) && op.Remove?
    requires var page := s.pages[node];
             page.kind.Internal? && Owns(page, op.key) && CanLose(page)
             ==> PairBelow(s, taken, op.key, node).None?
    ensures KeepsHeaders(s, RemoveVisit(s, taken, op, node).store)
  {
  }

  lemma RemoveMoves(s: Store, taken: set<Latch>, op: Op, node: PageId, k: Key)
    requires Inv(s) && Valid(s, node) && op.Remove? && Inv(RemoveVisit(s, taken, op, node).store)
    ensures MovesPlace(s, taken, op, Writing(node), k, RemoveVisit(s, taken, op, node).store)
  {
    RoutingIsTotal(s, node);
    var (page, t) := (s.pages[node], RemoveVisit(s, taken, op, node).store);
    if page.kind.Internal? && Owns(page, op.key) && CanLose(page) && PairBelow(s, taken, op.key, node).Some? {
      var pair := PairBelow(s, taken, op.key, node).value;
      RefillMoves(s, node, pair.0, pair.1, k);
    } else {
      RemoveKeepsHeaders(s, taken, op, node);
      HeadersKeepPlaces(s, t, k);
    }
  }

  lemma RootMoves(s: Store, taken: set<Latch>, alive: bool, op: Op, answer: Option<Result>, at: Phase, k: Key)
    requires Inv(s) && Knows(s, at) && Suits(op, answer, at) && !Searching(at) && !Repairing(at) && !at.Writing?
    requires Inv(Step(s, taken, alive, op, answer, at).store)
    ensures Place(s, k) <= Place(Step(s, taken, alive, op, answer, at).store, k)
  {
    assert PageOk(s, s.root);
    if at.SplittingRootHeld? && Occupancy(s.pages[s.root]) == N {
      SplitRootAdvances(s, k);
    } else if at.ShrinkingRoot? {
      ChildInside(s, s.root, 0);
      CollapseKeepsPlaces(s, k);
    }
  }

  /** Steps of all phases other than a visit that may rewrite pages top-down. */
  lemma OtherStepsAdvance(s: Store, taken: set<Latch>, alive: bool, op: Op, answer: Option<Result>, at: Phase, k: Key)
    requires Inv(s) && Knows(s, at) && Suits(op, answer, at) && !at.Writing?
    requires Inv(Step(s, taken, alive, op, answer, at).store)
    ensures Place(s, k) <= Place(Step(s, taken, alive, op, answer, at).store, k)
  {
    var t := Step(s, taken, alive, op, answer, at).store;
    if at.Latching? {
      LatchedKeepsHeaders(s, op, at.node);
      HeadersKeepPlaces(s, t, k);
    } else if Repairing(at) {
      RepairKeepsHeaders(s, taken, alive, op, answer, at);
      HeadersKeepPlaces(s, t, k);
    } else if !Searching(at) {
      RootMoves(s, taken, alive, op, answer, at, k);
    }
  }

  /** Over every step of every operation, the place of a key moves left exactly
      when a leaf borrows from its right sibling and the key lies in front of
      the lender's second record. */
  lemma StepMovesPlace(s: Store, taken: set<Latch>, alive: bool, op: Op, answer: Option<Result>, at: Phase, k: Key)
    requires Inv(s) && Knows(s, at) && Suits(op, answer, at) && Inv(Step(s, taken, alive, op, answer, at).store)
    ensures MovesPlace(s, taken, op, at, k, Step(s, taken, alive, op, answer, at).store)
  {
    if !at.Writing? {
      OtherStepsAdvance(s, taken, alive, op, answer, at, k);
    } else if op.Insert? {
      InsertAdvances(s, taken, op, at.node, k);
    } else {
      RemoveMoves(s, taken, op, at.node, k);
    }
  }

  // ------------------------------------------------------------ hidden records

  /** A record with key `k` is stored left of `node` on the leaf level. */
  ghost predicate Behind(s: Store, node: PageId, k: Key)
    requires Inv(s) && Valid(s, node)
  {
    k in Contents(s) && Place(s, k) < s.pages[node].rank
  }

  lemma BehindIsStoredLeft(s: Store, node: PageId, k: Key)
    requires Inv(s) && Valid(s, node)
    ensures Behind(s, node, k) <==>
            exists q: PageId, e: Entry ::
              Live(s, q) && e in Entries(s.pages[q]) && e.key == k && s.pages[q].rank < s.pages[node].rank
  {
    if Behind(s, node, k) {
      var q := Owner(s, k);
      OwnerDecides(s, q, k);
      var e := s.pages[q].kind.entries[Search(s.pages[q].kind.entries, k).index];
      assert e in Entries(s.pages[q]);
    }
    if q: PageId, e: Entry :|
      Live(s, q) && e in Entries(s.pages[q]) && e.key == k && s.pages[q].rank < s.pages[node].rank
    {
      assert PageOk(s, q);
      OwnerIs(s, q, k);
      OwnerDecides(s, q, k);
    }
  }

  /** The step that carries the record with key `k` from `node`, or from beyond
      it, to a leaf left of `node`. */
  ghost predicate Hides(s: Store, taken: set<Latch>, op: Op, at: Phase, node: PageId, k: Key)
    requires Inv(s) && Valid(s, node)
  {
    && Lends(s, taken, op, at)
    && var f := FamilyOf(s, at.node, 0);
       && f.right.kind.Leaf? && f.left.rank < s.pages[node].rank <= f.right.rank
       && f.right.kind.entries != [] && f.right.kind.entries[0].key == k
  }

  lemma LentIsFirst(s: Store, taken: set<Latch>, op: Op, at: Phase, k: Key)
    requires Inv(s) && Lends(s, taken, op, at) && FamilyOf(s, at.node, 0).right.kind.Leaf? && k in Contents(s)
    ensures var es := FamilyOf(s, at.node, 0).right.kind.entries;
            es != [] && (Retreats(s, taken, op, at, k) <==> es[0].key == k)
  {
    var r := s.pages[at.node].kind.children[1];
    assert PageOk(s, r);
    var es := s.pages[r].kind.entries;
    if Owns(s.pages[r], k) { OwnerDecides(s, r, k); }
    assert Owns(s.pages[r], es[0].key);
  }

  /** Of the stored records only the first one of the lender moves left. */
  lemma RetreatsIffFirst(s: Store, taken: set<Latch>, op: Op, at: Phase, k: Key)
    requires Inv(s) && k in Contents(s)
    ensures Retreats(s, taken, op, at, k) <==>
            && Lends(s, taken, op, at) && FamilyOf(s, at.node, 0).right.kind.Leaf?
            && FamilyOf(s, at.node, 0).right.kind.entries != []
            && FamilyOf(s, at.node, 0).right.kind.entries[0].key == k
  {
    if Lends(s, taken, op, at) && FamilyOf(s, at.node, 0).right.kind.Leaf? { LentIsFirst(s, taken, op, at, k); }
  }

  lemma HidesIffRetreats(s: Store, taken: set<Latch>, op: Op, at: Phase, node: PageId, k: Key)
    requires Inv(s) && Valid(s, node) && k in Contents(s)
    ensures Hides(s, taken, op, at, node, k) <==>
            && Retreats(s, taken, op, at, k)
            && FamilyOf(s, at.node, 0).left.rank < s.pages[node].rank <= FamilyOf(s, at.node, 0).right.rank
  {
    RetreatsIffFirst(s, taken, op, at, k);
  }

  /** A record that is stored before and after a step goes from in front of
      `node` to behind it if and only if the step lets a leaf left of `node`
      borrow it, as the first record of a leaf at or right of `node`. */
  lemma StepHidesIff(s: Store, busy: set<Latch>, taken: set<Latch>, alive: bool, op: Op, answer: Option<Result>,
                     at: Phase, node: PageId, k: Key)
    requires Sound(s) && Knows(s, at) && Suits(op, answer, at) && Ready(at, busy) && busy <= taken
    requires Valid(s, node) && k in Contents(s) && !Behind(s, node, k)
    ensures var t := Step(s, taken, alive, op, answer, at).store;
            && Inv(t) && Valid(t, node)
            && (k in Contents(t) ==> (Behind(t, node, k) <==> Hides(s, taken, op, at, node, k)))
  {
    StepGood(s, busy, taken, alive, op, answer, at);
    StepMovesPlace(s, taken, alive, op, answer, at, k);
    HidesIffRetreats(s, taken, op, at, node, k);
  }

  // --------------------------------------------------------------- left edges

  /** No active page of its level lies left of `node`. */
  ghost predicate LeftEdge(s: Store, node: PageId)
    requires Valid(s, node)
  {
    forall q: PageId | Live(s, q) && s.pages[q].level == s.pages[node].level :: s.pages[node].rank <= s.pages[q].rank
  }

  /** A former root forwards to a leftmost page. */
  ghost predicate EdgesOk(s: Store)
    requires Inv(s)
  {
    forall p: PageId | p < |s.pages| && s.pages[p].kind.Redirect? ::
      Valid(s, s.pages[p].kind.target) &&
      (s.pages[s.pages[p].kind.target].level < s.pages[p].level ==> LeftEdge(s, s.pages[p].kind.target))
  }

  /** A new page lies right of an active page of its level, or right of all. */
  ghost predicate ComesRight(s: Store, t: Store, n: PageId)
    requires Valid(t, n)
  {
    && Active(t.pages[n])
    && (|| (exists c: PageId :: Live(s, c) && s.pages[c].level == t.pages[n].level && s.pages[c].rank < t.pages[n].rank)
        || (forall p: PageId | p < |s.pages| :: s.pages[p].rank < t.pages[n].rank))
  }

  /** A page retired by a step forwards along its level, or to a leftmost page. */
  ghost predicate RetiresWell(s: Store, t: Store, p: PageId)
    requires Valid(s, p) && Valid(t, p)
  {
    Active(s.pages[p]) && t.pages[p].kind.Redirect? ==>
      && Valid(t, t.pages[p].kind.target)
      && (t.pages[t.pages[p].kind.target].level == t.pages[p].level || LeftEdge(t, t.pages[p].kind.target))
  }

  ghost predicate KeepsEdges(s: Store, t: Store) {
    && |s.pages| <= |t.pages|
    && (forall n: PageId | |s.pages| <= n < |t.pages| :: ComesRight(s, t, n))
    && forall p: PageId | p < |s.pages| :: RetiresWell(s, t, p)
  }

  lemma EdgeStays(s: Store, t: Store, node: PageId)
    requires Evolves(s, t) && KeepsEdges(s, t) && Valid(s, node) && LeftEdge(s, node)
    ensures LeftEdge(t, node)
  {
    forall q: PageId | Live(t, q) && t.pages[q].level == t.pages[node].level
      ensures t.pages[node].rank <= t.pages[q].rank
    {
      if q < |s.pages| {
        assert Live(s, q);
      } else {
        assert ComesRight(s, t, q);
      }
    }
  }

  lemma EdgesStay(s: Store, t: Store)
    requires Inv(s) && Inv(t) && Evolves(s, t) && KeepsEdges(s, t) && EdgesOk(s)
    ensures EdgesOk(t)
  {
    forall p: PageId | p < |t.pages| && t.pages[p].kind.Redirect?
      ensures Valid(t, t.pages[p].kind.target)
      ensures t.pages[t.pages[p].kind.target].level < t.pages[p].level ==> LeftEdge(t, t.pages[p].kind.target)
    {
      assert PageOk(t, p);
      assert p >= |s.pages| ==> ComesRight(s, t, p);
      assert p < |s.pages| ==> RetiresWell(s, t, p);
      if !Active(s.pages[p]) && s.pages[s.pages[p].kind.target].level < s.pages[p].level {
        EdgeStays(s, t, s.pages[p].kind.target);
      }
    }
  }

  lemma HeadersKeepEdges(s: Store, t: Store)
    requires KeepsHeaders(s, t)
    ensures KeepsEdges(s, t)
  {
  }

  lemma SplitChildKeepsEdges(s: Store, p: PageId, i: nat)
    requires Inv(s) && HasChild(s, p, i) && Splittable(s.pages[s.pages[p].kind.children[i]])
    ensures KeepsEdges(s, SplitChild(s, p, i))
  {
    var (c, t) := (s.pages[p].kind.children[i], SplitChild(s, p, i));
    ChildInside(s, p, i);
    assert Live(s, c) && s.pages[c].rank < t.pages[|s.pages|].rank;
  }

  lemma SplitRootKeepsEdges(s: Store)
    requires Inv(s) && Splittable(s.pages[s.root])
    ensures KeepsEdges(s, SplitRoot(s))
  {
    var (n, t) := (|s.pages|, SplitRoot(s));
    assert Live(s, s.root) && s.pages[s.root].rank < t.pages[n].rank;
    forall p: PageId | p < n ensures s.pages[p].rank < t.pages[n + 1].rank {
      assert t.pages[..n + 1][p] == t.pages[p];
    }
  }

  lemma FamilyKeepsEdges(s: Store, p: PageId, i: nat, g: Family)
    requires Inv(s) && HasSiblings(s, p, i) && Active(g.parent) && Active(g.left) && Active(g.right)
    ensures KeepsEdges(s, PutFamily(s, p, i, g))
  {
    SiblingsAdjacent(s, p, i);
  }

  lemma MergeKeepsEdges(s: Store, p: PageId, i: nat)
    requires Inv(s) && HasSiblings(s, p, i)
    ensures KeepsEdges(s, MergeAt(s, p, i))
  {
    SiblingsAdjacent(s, p, i);
  }

  lemma CollapseKeepsEdges(s: Store)
    requires Inv(s) && KeylessRoot(s)
    ensures KeepsEdges(s, CollapseRoot(s))
  {
    var (c, t) := (s.pages[s.root].kind.children[0], CollapseRoot(s));
    SoleChild(s, s.root);
    forall q: PageId | Live(t, q) && t.pages[q].level == t.pages[c].level ensures t.pages[c].rank <= t.pages[q].rank {
      SoleChild(s, q);
    }
  }

  lemma InsertKeepsEdges(s: Store, taken: set<Latch>, op: Op, node: PageId)
    requires Inv(s) && Valid(s, node) && op.Insert?
    ensures KeepsEdges(s, InsertVisit(s, taken, op, node).store)
  {
    RoutingIsTotal(s, node);
    assert PageOk(s, node);
    var (page, t) := (s.pages[node], InsertVisit(s, taken, op, node).store);
    if RouteOf(page, op.key).Here? && page.kind.Internal? && t != s {
      ChildOwns(s, node, op.key);
      var i := ChildIndex(page.kind.keys, op.key);
      HalvesInShape(s, page.kind.children[i]);
      assert t == SplitChild(s, node, i);
      SplitChildKeepsEdges(s, node, i);
    } else {
      HeadersKeepEdges(s, t);
    }
  }

  lemma RefillKeepsEdges(s: Store, node: PageId, i: nat, leftNeedy: bool)
    requires Inv(s) && HasSiblings(s, node, i)
    ensures KeepsEdges(s, RefillPair(s, node, i, leftNeedy).store)
  {
    var f := FamilyOf(s, node, i);
    var (needy, donor) := if leftNeedy then (f.left, f.right) else (f.right, f.left);
    if Minimum(needy) < Occupancy(needy) {
      HeadersKeepEdges(s, s);
    } else if Minimum(donor) < Occupancy(donor) {
      FamilyKeepsEdges(s, node, i, if leftNeedy then BorrowFromRight(f, i) else BorrowFromLeft(f, i));
    } else {
      MergeKeepsEdges(s, node, i);
    }
  }

  lemma RemoveKeepsEdges(s: Store, taken: set<Latch>, op: Op, node: PageId)
    requires Inv(s) && Valid(s, node) && op.Remove?
    ensures KeepsEdges(s, RemoveVisit(s, taken, op, node).store)
  {
    RoutingIsTotal(s, node);
    assert PageOk(s, node);
    var (page, t) := (s.pages[node], RemoveVisit(s, taken, op, node).store);
    if page.kind.Internal? && Owns(page, op.key) && CanLose(page) && PairBelow(s, taken, op.key, node).Some? {
      var pair := PairBelow(s, taken, op.key, node).value;
      assert t == RefillPair(s, node, pair.0, pair.1).store;
      RefillKeepsEdges(s, node, pair.0, pair.1);
    } else {
      HeadersKeepEdges(s, t);
    }
  }

  lemma RootKeepsEdges(s: Store, taken: set<Latch>, alive: bool, op: Op, answer: Option<Result>, at: Phase)
    requires Inv(s) && Knows(s, at) && Suits(op, answer, at) && !Searching(at) && !Repairing(at) && !at.Writing?
    ensures KeepsEdges(s, Step(s, taken, alive, op, answer, at).store)
  {
    assert PageOk(s, s.root);
    if at.SplittingRootHeld? && Occupancy(s.pages[s.root]) == N {
      SplitRootKeepsEdges(s);
    } else if at.ShrinkingRoot? {
      ChildInside(s, s.root, 0);
      CollapseKeepsEdges(s);
    } else {
      HeadersKeepEdges(s, s);
    }
  }

  /** Every step leaves leftmost pages leftmost, new pages included. */
  lemma StepKeepsEdges(s: Store, taken: set<Latch>, alive: bool, op: Op, answer: Option<Result>, at: Phase)
    requires Inv(s) && Knows(s, at) && Suits(op, answer, at)
    ensures KeepsEdges(s, Step(s, taken, alive, op, answer, at).store)
  {
    var t := Step(s, taken, alive, op, answer, at).store;
    if at.Writing? {
      if op.Insert? { InsertKeepsEdges(s, taken, op, at.node); } else { RemoveKeepsEdges(s, taken, op, at.node); }
    } else if at.Latching? {
      LatchedKeepsHeaders(s, op, at.node);
      HeadersKeepEdges(s, t);
    } else if Repairing(at) {
      RepairKeepsHeaders(s, taken, alive, op, answer, at);
      HeadersKeepEdges(s, t);
    } else if Searching(at) {
      HeadersKeepEdges(s, s);
    } else {
      RootKeepsEdges(s, taken, alive, op, answer, at);
    }
  }
}
