/** The structural steps leave the abstract map alone, and every step of the
    protocol refines the specification. */
module Refinement {
  import opened Pages
  import opened Stores
  import opened Ownership
  import opened LinkSteps
  import opened SplitSteps
  import opened BorrowSteps
  import opened MergeSteps
  import opened Abstraction
  import opened Traversal
  import opened Protocol
  import opened Linearization

  /** A step that keeps all records and the answer. */
  lemma StructuralGood(s: Store, busy: set<Latch>, op: Op, answer: Option<Result>, t: Store, next: Phase)
    requires Sound(s) && Inv(t) && Records(s) == Records(t) && t.len == s.len
    requires Evolves(s, t) && Respects(s, t, busy)
    requires Knows(t, next) && Suits(op, answer, next)
    ensures GoodStep(s, busy, op, answer, Outcome(t, answer, next))
  {
    StructuralStep(s, t);
  }

  // -------------------------------------------------------------- footprints

  lemma SplitChildFootprint(s: Store, busy: set<Latch>, p: PageId, i: nat)
    requires HasChild(s, p, i) && Splittable(s.pages[s.pages[p].kind.children[i]])
    requires s.pages[p].kind.children[i] != p
    requires PageLatch(p) !in busy && PageLatch(s.pages[p].kind.children[i]) !in busy
    ensures Evolves(s, SplitChild(s, p, i)) && Respects(s, SplitChild(s, p, i), busy)
  {
  }

  lemma SplitRootFootprint(s: Store, busy: set<Latch>)
    requires Live(s, s.root) && Splittable(s.pages[s.root])
    requires RootSlot !in busy && PageLatch(s.root) !in busy
    ensures Evolves(s, SplitRoot(s)) && Respects(s, SplitRoot(s), busy)
  {
  }

  lemma FamilyFootprint(s: Store, busy: set<Latch>, p: PageId, i: nat, g: Family)
    requires Inv(s) && HasSiblings(s, p, i)
    requires var f := FamilyOf(s, p, i);
             && g.parent.level == f.parent.level && g.parent.rank == f.parent.rank
             && g.left.level == f.left.level && g.left.rank == f.left.rank
             && g.right.level == f.right.level && g.right.rank == f.right.rank
    requires PageLatch(p) !in busy && PageLatch(s.pages[p].kind.children[i]) !in busy
    requires PageLatch(s.pages[p].kind.children[i + 1]) !in busy
    ensures Evolves(s, PutFamily(s, p, i, g)) && Respects(s, PutFamily(s, p, i, g), busy)
  {
  }

  lemma CollapseFootprint(s: Store, busy: set<Latch>)
    requires Inv(s) && KeylessRoot(s)
    requires RootSlot !in busy && PageLatch(s.root) !in busy && PageLatch(s.pages[s.root].kind.children[0]) !in busy
    ensures Evolves(s, CollapseRoot(s)) && Respects(s, CollapseRoot(s), busy)
  {
  }

  // ------------------------------------------------------------ write visits

  lemma SplitBelowNext(s: Store, op: Op, node: PageId, i: nat)
    requires Inv(s) && HasChild(s, node, i) && Splittable(s.pages[s.pages[node].kind.children[i]]) && op.Insert?
    ensures var o := SplitBelow(s, op.key, node, i);
            o == GoOn(SplitChild(s, node, i), o.at) && Knows(o.store, o.at) && Suits(op, None, o.at)
  {
    assert PageOk(s, s.pages[node].kind.children[i]);
  }

  lemma SplitBelowGood(s: Store, busy: set<Latch>, op: Op, node: PageId, i: nat)
    requires Sound(s) && HasChild(s, node, i) && Occupancy(s.pages[node]) < N && op.Insert?
    requires Occupancy(s.pages[s.pages[node].kind.children[i]]) == N
    requires PageLatch(node) !in busy && PageLatch(s.pages[node].kind.children[i]) !in busy
    requires Splittable(s.pages[s.pages[node].kind.children[i]])
    ensures GoodStep(s, busy, op, None, SplitBelow(s, op.key, node, i))
  {
    ChildInside(s, node, i);
    SplitChildKeepsInv(s, node, i);
    SplitChildRecords(s, node, i);
    SplitChildFootprint(s, busy, node, i);
    SplitBelowNext(s, op, node, i);
    StructuralGood(s, busy, op, None, SplitChild(s, node, i), SplitBelow(s, op.key, node, i).at);
  }

  lemma InsertBelowGood(s: Store, busy: set<Latch>, taken: set<Latch>, op: Op, node: PageId)
    requires Sound(s) && Live(s, node) && s.pages[node].kind.Internal? && op.Insert? && busy <= taken
    requires Owns(s.pages[node], op.key) && Occupancy(s.pages[node]) < N && PageLatch(node) !in busy
    ensures GoodStep(s, busy, op, None, InsertBelow(s, taken, op, node))
  {
    ChildOwns(s, node, op.key);
    var i := ChildIndex(s.pages[node].kind.keys, op.key);
    var c := s.pages[node].kind.children[i];
    if PageLatch(c) !in taken && Occupancy(s.pages[c]) == N {
      HalvesInShape(s, c);
      SplitBelowGood(s, busy, op, node, i);
    } else {
      ReadOnlyStep(s, busy, op, None, InsertBelow(s, taken, op, node).at);
    }
  }

  lemma InsertVisitGood(s: Store, busy: set<Latch>, taken: set<Latch>, op: Op, node: PageId)
    requires Sound(s) && Valid(s, node) && op.Insert? && PageLatch(node) !in busy && busy <= taken
    ensures GoodStep(s, busy, op, None, InsertVisit(s, taken, op, node))
  {
    RoutingIsTotal(s, node);
    RightPrecedes(s, node, op.key);
    assert PageOk(s, node);
    var page := s.pages[node];
    if !RouteOf(page, op.key).Here? || Occupancy(page) == N {
      ReadOnlyStep(s, busy, op, None, InsertVisit(s, taken, op, node).at);
    } else if page.kind.Leaf? {
      PutGood(s, busy, op, node);
    } else {
      InsertBelowGood(s, busy, taken, op, node);
    }
  }

  lemma BorrowGood(s: Store, busy: set<Latch>, op: Op, node: PageId, i: nat, leftNeedy: bool, target: PageId)
    requires Sound(s) && HasSiblings(s, node, i) && op.Remove? && Valid(s, target)
    requires if leftNeedy then CanBorrowRight(FamilyOf(s, node, i)) else CanBorrowLeft(FamilyOf(s, node, i))
    requires PageLatch(node) !in busy && PageLatch(s.pages[node].kind.children[i]) !in busy
    requires PageLatch(s.pages[node].kind.children[i + 1]) !in busy
    ensures var f := FamilyOf(s, node, i);
            GoodStep(s, busy, op, None,
                     GoOn(PutFamily(s, node, i, if leftNeedy then BorrowFromRight(f, i) else BorrowFromLeft(f, i)),
                          Writing(target)))
  {
    var f := FamilyOf(s, node, i);
    var g := if leftNeedy then BorrowFromRight(f, i) else BorrowFromLeft(f, i);
    if leftNeedy {
      BorrowRightRebalances(s, node, i);
      BorrowRightKeepsInv(s, node, i);
      BorrowRightRecords(s, node, i);
    } else {
      BorrowLeftRebalances(s, node, i);
      BorrowLeftKeepsInv(s, node, i);
      BorrowLeftRecords(s, node, i);
    }
    FamilyFootprint(s, busy, node, i, g);
    StructuralGood(s, busy, op, None, PutFamily(s, node, i, g), Writing(target));
  }

  /** A merge leaves a repair that points from the retired page rightward. */
  lemma MergeLeavesRepair(s: Store, p: PageId, i: nat)
    requires Inv(s) && HasSiblings(s, p, i)
    ensures var (l, r) := (s.pages[p].kind.children[i], s.pages[p].kind.children[i + 1]);
            RepairOk(MergeAt(s, p, i), Repair(s.pages[l].previous, l, r))
  {
    SiblingsAdjacent(s, p, i);
    assert PageOk(s, s.pages[p].kind.children[i]);
  }

  lemma MergeFootprint(s: Store, busy: set<Latch>, p: PageId, i: nat)
    requires Inv(s) && HasSiblings(s, p, i)
    requires PageLatch(p) !in busy && PageLatch(s.pages[p].kind.children[i]) !in busy
    requires PageLatch(s.pages[p].kind.children[i + 1]) !in busy
    ensures Evolves(s, MergeAt(s, p, i)) && Respects(s, MergeAt(s, p, i), busy)
  {
  }

  lemma MergeGood(s: Store, busy: set<Latch>, op: Op, node: PageId, i: nat)
    requires Sound(s) && HasSiblings(s, node, i) && op.Remove?
    requires CanMerge(FamilyOf(s, node, i)) && CanLose(s.pages[node])
    requires PageLatch(node) !in busy && PageLatch(s.pages[node].kind.children[i]) !in busy
    requires PageLatch(s.pages[node].kind.children[i + 1]) !in busy
    ensures var (l, r) := (s.pages[node].kind.children[i], s.pages[node].kind.children[i + 1]);
            GoodStep(s, busy, op, None,
                     GoOn(MergeAt(s, node, i), Unlinking(Some(r), Repair(s.pages[l].previous, l, r))))
  {
    var (l, r) := (s.pages[node].kind.children[i], s.pages[node].kind.children[i + 1]);
    MergeLeavesRepair(s, node, i);
    MergeKeepsInv(s, node, i);
    MergeRecords(s, node, i);
    MergeFootprint(s, busy, node, i);
    StructuralGood(s, busy, op, None, MergeAt(s, node, i), Unlinking(Some(r), Repair(s.pages[l].previous, l, r)));
  }

  lemma RefillPairGood(s: Store, busy: set<Latch>, op: Op, node: PageId, i: nat, leftNeedy: bool)
    requires Sound(s) && HasSiblings(s, node, i) && op.Remove? && CanLose(s.pages[node])
    requires PageLatch(node) !in busy && PageLatch(s.pages[node].kind.children[i]) !in busy
    requires PageLatch(s.pages[node].kind.children[i + 1]) !in busy
    ensures GoodStep(s, busy, op, None, RefillPair(s, node, i, leftNeedy))
  {
    var f := FamilyOf(s, node, i);
    var (l, r) := (s.pages[node].kind.children[i], s.pages[node].kind.children[i + 1]);
    var (needy, donor) := if leftNeedy then (f.left, f.right) else (f.right, f.left);
    if Minimum(needy) < Occupancy(needy) {
      ReadOnlyStep(s, busy, op, None, Writing(if leftNeedy then l else r));
    } else if Minimum(donor) < Occupancy(donor) {
      BorrowGood(s, busy, op, node, i, leftNeedy, if leftNeedy then l else r);
    } else {
      MergeGood(s, busy, op, node, i);
    }
  }

  lemma RemoveBelowGood(s: Store, busy: set<Latch>, taken: set<Latch>, op: Op, node: PageId)
    requires Sound(s) && Live(s, node) && s.pages[node].kind.Internal? && op.Remove? && busy <= taken
    requires CanLose(s.pages[node]) && PageLatch(node) !in busy
    ensures GoodStep(s, busy, op, None, RemoveBelow(s, taken, op, node))
  {
    var pair := PairBelow(s, taken, op.key, node);
    if pair.None? {
      ReadOnlyStep(s, busy, op, None, Shrinking);
    } else {
      RefillPairGood(s, busy, op, node, pair.value.0, pair.value.1);
    }
  }

  lemma SafeRemoveGood(s: Store, busy: set<Latch>, op: Op, node: PageId)
    requires Sound(s) && Live(s, node) && s.pages[node].kind.Leaf? && op.Remove? && CanLose(s.pages[node])
    requires Owns(s.pages[node], op.key) && PageLatch(node) !in busy
    ensures GoodStep(s, busy, op, None, SafeRemove(s, op, node))
  {
    if Search(s.pages[node].kind.entries, op.key).Missing? {
      MissGood(s, busy, op, node, Shrinking);
    } else {
      DropGood(s, busy, op, node, Shrinking);
    }
  }

  lemma RemoveVisitGood(s: Store, busy: set<Latch>, taken: set<Latch>, op: Op, node: PageId)
    requires Sound(s) && Valid(s, node) && op.Remove? && PageLatch(node) !in busy && busy <= taken
    ensures GoodStep(s, busy, op, None, RemoveVisit(s, taken, op, node))
  {
    RoutingIsTotal(s, node);
    RightPrecedes(s, node, op.key);
    var page := s.pages[node];
    if RouteOf(page, op.key).Here? && CanLose(page) {
      if page.kind.Leaf? {
        SafeRemoveGood(s, busy, op, node);
      } else {
        RemoveBelowGood(s, busy, taken, op, node);
      }
    } else {
      ReadOnlyStep(s, busy, op, None, RemoveVisit(s, taken, op, node).at);
    }
  }

  // ---------------------------------------------------------------- the root

  lemma GrowRootGood(s: Store, busy: set<Latch>, op: Op)
    requires Sound(s) && op.Insert? && RootSlot !in busy && PageLatch(s.root) !in busy
    ensures Active(s.pages[s.root]) && Occupancy(s.pages[s.root]) >= N ==> Splittable(s.pages[s.root])
    ensures GoodStep(s, busy, op, None, GrowRoot(s))
  {
    assert PageOk(s, s.root);
    if Occupancy(s.pages[s.root]) < N {
      ReadOnlyStep(s, busy, op, None, Descending);
    } else {
      SplitRootKeepsInv(s);
      SplitRootRecords(s);
      SplitRootFootprint(s, busy);
      StructuralGood(s, busy, op, None, SplitRoot(s), Descending);
    }
  }

  lemma InspectRootGood(s: Store, busy: set<Latch>, op: Op, answer: Option<Result>)
    requires Sound(s) && op.Remove?
    ensures s.pages[s.root].kind.Internal? ==> |s.pages[s.root].kind.children| == |s.pages[s.root].kind.keys| + 1
    ensures GoodStep(s, busy, op, answer, InspectRoot(s, answer))
  {
    assert PageOk(s, s.root);
    var kind := s.pages[s.root].kind;
    if kind.Internal? && kind.keys == [] { assert kind == Internal([], [kind.children[0]]); }
    ReadOnlyStep(s, busy, op, answer, InspectRoot(s, answer).at);
  }

  lemma CollapseGood(s: Store, busy: set<Latch>, op: Op, answer: Option<Result>)
    requires Sound(s) && KeylessRoot(s) && op.Remove?
    requires RootSlot !in busy && PageLatch(s.root) !in busy && PageLatch(s.pages[s.root].kind.children[0]) !in busy
    ensures GoodStep(s, busy, op, answer, Outcome(CollapseRoot(s), answer, Shrinking))
  {
    CollapseKeepsInv(s);
    CollapseRecords(s);
    CollapseFootprint(s, busy);
    StructuralGood(s, busy, op, answer, CollapseRoot(s), Shrinking);
  }

  // ------------------------------------------------------------ link repairs

  /** Compacting the right link of a latched page over a retired neighbour. */
  lemma CompactGood(s: Store, busy: set<Latch>, op: Op, p: PageId, next: Phase)
    requires Sound(s) && Live(s, p) && s.pages[p].right.Some? && PageLatch(p) !in busy
    requires Valid(s, s.pages[p].right.value) && s.pages[s.pages[p].right.value].kind.Redirect?
    requires Suits(op, None, next)
    requires Knows(SetRight(s, p, s.pages[s.pages[p].right.value].kind.target), next)
    ensures GoodStep(s, busy, op, None, GoOn(SetRight(s, p, s.pages[s.pages[p].right.value].kind.target), next))
  {
    var t := SetRight(s, p, s.pages[s.pages[p].right.value].kind.target);
    CompactKeepsInv(s, p);
    PutRecords(s, p, t.pages[p]);
    OnePageStep(s, t, p, busy);
    StructuralGood(s, busy, op, None, t, next);
  }

  lemma SetPreviousGood(s: Store, busy: set<Latch>, op: Op, p: PageId, q: Option<PageId>, next: Phase)
    requires Sound(s) && Valid(s, p) && (q.Some? ==> Valid(s, q.value)) && PageLatch(p) !in busy
    requires Suits(op, None, next) && Knows(SetPrevious(s, p, q), next)
    ensures GoodStep(s, busy, op, None, GoOn(SetPrevious(s, p, q), next))
  {
    var t := SetPrevious(s, p, q);
    SetPreviousKeepsInv(s, p, q);
    PutRecords(s, p, t.pages[p]);
    OnePageStep(s, t, p, busy);
    StructuralGood(s, busy, op, None, t, next);
  }

  lemma BacklinkTurnGood(s: Store, busy: set<Latch>, op: Op, resume: Option<PageId>, page: PageId, succ: PageId)
    requires Sound(s) && Knows(s, FixingBackHeld(resume, page, succ)) && Structural(op)
    requires PageLatch(page) !in busy && PageLatch(succ) !in busy
    ensures GoodStep(s, busy, op, None, BacklinkTurn(s, resume, page, succ))
  {
    assert PageOk(s, succ);
    if s.pages[succ].kind.Redirect? {
      CompactGood(s, busy, op, page, FixingBackHeld(resume, page, s.pages[succ].kind.target));
    } else {
      SetPreviousGood(s, busy, op, succ, Some(page), Resume(resume));
    }
  }

  /** A turn that writes nothing, or compacts the right link of `cursor`. */
  predicate Compacts(s: Store, op: Op, cursor: PageId, o: Outcome)
    requires Valid(s, cursor)
  {
    var page := s.pages[cursor];
    && o.answer.None? && Knows(o.store, o.at) && Suits(op, None, o.at)
    && (|| o.store == s
        || (&& Active(page) && page.right.Some?
            && Valid(s, page.right.value) && s.pages[page.right.value].kind.Redirect?
            && o.store == SetRight(s, cursor, s.pages[page.right.value].kind.target)))
  }

  lemma CompactingTurnGood(s: Store, busy: set<Latch>, op: Op, cursor: PageId, o: Outcome)
    requires Sound(s) && Valid(s, cursor) && PageLatch(cursor) !in busy && Compacts(s, op, cursor, o)
    ensures GoodStep(s, busy, op, None, o)
  {
    if o.store == s {
      ReadOnlyStep(s, busy, op, None, o.at);
    } else {
      CompactGood(s, busy, op, cursor, o.at);
    }
  }

  lemma UnlinkTurnCompacts(s: Store, op: Op, resume: Option<PageId>, r: Repair, cursor: PageId, alive: bool)
    requires Knows(s, UnlinkingFrom(resume, r, cursor)) && PointersOk(s, cursor) && Structural(op)
    ensures Compacts(s, op, cursor, UnlinkTurn(s, resume, r, cursor, alive))
  {
  }

  lemma UnlinkTurnGood(s: Store, busy: set<Latch>, op: Op, resume: Option<PageId>, r: Repair, cursor: PageId,
                       alive: bool)
    requires Sound(s) && Knows(s, UnlinkingFrom(resume, r, cursor)) && PageLatch(cursor) !in busy && Structural(op)
    ensures GoodStep(s, busy, op, None, UnlinkTurn(s, resume, r, cursor, alive))
  {
    assert PageOk(s, cursor);
    UnlinkTurnCompacts(s, op, resume, r, cursor, alive);
    CompactingTurnGood(s, busy, op, cursor, UnlinkTurn(s, resume, r, cursor, alive));
  }

  lemma JoinTurnKnows(s: Store, resume: Option<PageId>, r: Repair, cursor: PageId, reason: Reason)
    requires Knows(s, UnlinkingJoin(resume, r, cursor, reason)) && PointersOk(s, r.survivor)
    ensures var o := JoinTurn(s, resume, r, cursor, reason); Knows(o.store, o.at)
  {
  }

  lemma JoinTurnGood(s: Store, busy: set<Latch>, op: Op, resume: Option<PageId>, r: Repair, cursor: PageId,
                     reason: Reason)
    requires Sound(s) && Knows(s, UnlinkingJoin(resume, r, cursor, reason)) && Structural(op)
    requires PageLatch(cursor) !in busy && PageLatch(r.survivor) !in busy
    ensures GoodStep(s, busy, op, None, JoinTurn(s, resume, r, cursor, reason))
  {
    assert PageOk(s, r.survivor);
    JoinTurnKnows(s, resume, r, cursor, reason);
    var next := JoinTurn(s, resume, r, cursor, reason).at;
    if !s.pages[r.survivor].kind.Redirect? {
      SetPreviousGood(s, busy, op, r.survivor, Some(cursor), next);
    } else if reason.Compacted? {
      ReadOnlyStep(s, busy, op, None, next);
    } else {
      CompactGood(s, busy, op, cursor, next);
    }
  }

  lemma PeekTurnCompacts(s: Store, op: Op, resume: Option<PageId>, r: Repair, cursor: PageId, next: PageId)
    requires Knows(s, UnlinkingPeek(resume, r, cursor, next)) && PointersOk(s, next) && Structural(op)
    ensures Compacts(s, op, cursor, PeekTurn(s, resume, r, cursor, next))
  {
  }

  lemma PeekTurnGood(s: Store, busy: set<Latch>, op: Op, resume: Option<PageId>, r: Repair, cursor: PageId,
                     next: PageId)
    requires Sound(s) && Knows(s, UnlinkingPeek(resume, r, cursor, next)) && Structural(op)
    requires PageLatch(cursor) !in busy
    ensures GoodStep(s, busy, op, None, PeekTurn(s, resume, r, cursor, next))
  {
    assert PageOk(s, next);
    PeekTurnCompacts(s, op, resume, r, cursor, next);
    CompactingTurnGood(s, busy, op, cursor, PeekTurn(s, resume, r, cursor, next));
  }

  // --------------------------------------------------------------- all steps

  /** Latches a thread can use in its next step: none is held by another. */
  ghost predicate Ready(at: Phase, busy: set<Latch>) {
    Holds(at) !! busy && (Wants(at).Some? ==> Wants(at).value !in busy)
  }

  predicate Searching(at: Phase) {
    at.Starting? || at.Reading? || at.Latching? || at.Sinking? || at.Scanning? || at.Returning?
  }

  predicate Repairing(at: Phase) {
    || at.FixingBack? || at.FixingBackHeld? || at.Unlinking? || at.UnlinkingFrom?
    || at.UnlinkingJoin? || at.UnlinkingPeek? || at.UnlinkingLast?
  }

  lemma SearchStepGood(s: Store, busy: set<Latch>, taken: set<Latch>, alive: bool, op: Op, answer: Option<Result>,
                       at: Phase)
    requires Sound(s) && Knows(s, at) && Suits(op, answer, at) && Ready(at, busy) && Searching(at)
    ensures GoodStep(s, busy, op, answer, Step(s, taken, alive, op, answer, at))
  {
    if at.Starting? { ReadOnlyStep(s, busy, op, answer, if op.First? then Sinking(s.root) else Reading(s.root)); }
    else if at.Reading? { ReadVisitGood(s, busy, op, at.node); }
    else if at.Latching? { LatchedVisitGood(s, busy, op, at.node); }
    else if at.Sinking? { SinkVisitGood(s, busy, op, at.node); }
    else if at.Scanning? { ScanVisitGood(s, busy, op, at.node); }
    else { ReadOnlyStep(s, busy, op, answer, Returning); }
  }

  lemma BacklinkStepGood(s: Store, busy: set<Latch>, taken: set<Latch>, alive: bool, op: Op, answer: Option<Result>,
                         at: Phase)
    requires Sound(s) && Knows(s, at) && Suits(op, answer, at) && Ready(at, busy)
    requires at.FixingBack? || at.FixingBackHeld?
    ensures GoodStep(s, busy, op, answer, Step(s, taken, alive, op, answer, at))
  {
    if at.FixingBack? {
      ReadOnlyStep(s, busy, op, None, BacklinkStart(s, at.resume, at.page, at.successor).at);
    } else {
      BacklinkTurnGood(s, busy, op, at.resume, at.page, at.successor);
    }
  }

  lemma UnlinkEndsGood(s: Store, busy: set<Latch>, taken: set<Latch>, alive: bool, op: Op, answer: Option<Result>,
                       at: Phase)
    requires Sound(s) && Knows(s, at) && Suits(op, answer, at) && Ready(at, busy)
    requires at.Unlinking? || at.UnlinkingLast?
    ensures GoodStep(s, busy, op, answer, Step(s, taken, alive, op, answer, at))
  {
    var r := at.repair;
    if at.Unlinking? {
      var cursor := r.predecessor;
      ReadOnlyStep(s, busy, op, None, if cursor.Some? && alive then UnlinkingFrom(at.resume, r, cursor.value)
                                      else UnlinkingLast(at.resume, r));
    } else {
      SetPreviousGood(s, busy, op, r.survivor, None, Resume(at.resume));
    }
  }

  lemma RepairStepGood(s: Store, busy: set<Latch>, taken: set<Latch>, alive: bool, op: Op, answer: Option<Result>,
                       at: Phase)
    requires Sound(s) && Knows(s, at) && Suits(op, answer, at) && Ready(at, busy) && Repairing(at)
    ensures GoodStep(s, busy, op, answer, Step(s, taken, alive, op, answer, at))
  {
    if at.FixingBack? || at.FixingBackHeld? { BacklinkStepGood(s, busy, taken, alive, op, answer, at); }
    else if at.Unlinking? || at.UnlinkingLast? { UnlinkEndsGood(s, busy, taken, alive, op, answer, at); }
    else if at.UnlinkingFrom? { UnlinkTurnGood(s, busy, op, at.resume, at.repair, at.cursor, alive); }
    else if at.UnlinkingJoin? { JoinTurnGood(s, busy, op, at.resume, at.repair, at.cursor, at.reason); }
    else { PeekTurnGood(s, busy, op, at.resume, at.repair, at.cursor, at.next); }
  }

  lemma RootStepGood(s: Store, busy: set<Latch>, taken: set<Latch>, alive: bool, op: Op, answer: Option<Result>,
                     at: Phase)
    requires Sound(s) && Knows(s, at) && Suits(op, answer, at) && Ready(at, busy) && busy <= taken
    requires !Searching(at) && !Repairing(at)
    ensures GoodStep(s, busy, op, answer, Step(s, taken, alive, op, answer, at))
  {
    match at {
      case SplittingRoot => ReadOnlyStep(s, busy, op, answer, SplittingRootHeld(s.root));
      case SplittingRootHeld(_) => GrowRootGood(s, busy, op);
      case Descending => ReadOnlyStep(s, busy, op, answer, Writing(s.root));
      case Writing(node) =>
        if op.Insert? { InsertVisitGood(s, busy, taken, op, node); } else { RemoveVisitGood(s, busy, taken, op, node); }
      case Shrinking => ReadOnlyStep(s, busy, op, answer, ShrinkingSlot(s.root));
      case ShrinkingSlot(_) => InspectRootGood(s, busy, op, answer);
      case ShrinkingRoot(root, child) =>
        ChildInside(s, root, 0);
        CollapseGood(s, busy, op, answer);
    }
  }

  /** Every step of the protocol keeps the tree invariant and the exact record
      count, respects the latches of other threads, and refines the map. */
  lemma StepGood(s: Store, busy: set<Latch>, taken: set<Latch>, alive: bool, op: Op, answer: Option<Result>, at: Phase)
    requires Sound(s) && Knows(s, at) && Suits(op, answer, at) && Ready(at, busy) && busy <= taken
    ensures GoodStep(s, busy, op, answer, Step(s, taken, alive, op, answer, at))
  {
    if Searching(at) { SearchStepGood(s, busy, taken, alive, op, answer, at); }
    else if Repairing(at) { RepairStepGood(s, busy, taken, alive, op, answer, at); }
    else { RootStepGood(s, busy, taken, alive, op, answer, at); }
  }
}
