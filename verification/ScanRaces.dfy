/** Forward scans against concurrent writers. A scan hands over from one leaf to
    the next without holding both, so a record can move behind it. A record that
    is in the map all through a scan step is skipped if and only if a leaf behind
    the scan borrows it from a leaf in front, and it stays behind. */
module ScanRaces {
  import opened Pages
  import opened Bounds
  import opened Stores
  import opened Ownership
  import opened Abstraction
  import opened Traversal
  import opened Protocol
  import opened Linearization
  import opened Refinement
  import opened Systems
  import opened Runs
  import opened Scans
  import opened Motion

  /** The answer of a scan step passes over `k`. */
  predicate Skips(result: Result, k: Key) {
    result.Record? && (result.record.Some? ==> k < result.record.value.key)
  }

  /** A scan step that answers gives the least record past the bound exactly if
      no leaf behind it holds a record past the bound at that moment. */
  lemma ScanIsExactIff(s: Store, op: Op, node: PageId)
    requires Inv(s) && Live(s, node) && s.pages[node].level == 0 && IsScan(op)
    requires ScanVisit(s, op, node).answer.Some?
    ensures ScanVisit(s, op, node).answer.value.Record?
    ensures IsLeast(Contents(s), BoundOf(op), ScanVisit(s, op, node).answer.value.record)
            <==> NothingBefore(s, node, BoundOf(op))
  {
    assert PageOk(s, node);
    var (b, es) := (BoundOf(op), s.pages[node].kind.entries);
    if NothingBefore(s, node, b) {
      if BoundIndex(es, b) < |es| { ScanFinds(s, node, b); } else { ScanEnds(s, node, b); }
    } else {
      var q: PageId, i: nat :| Live(s, q) && s.pages[q].kind.Leaf? && i < |s.pages[q].kind.entries|
        && s.pages[q].rank < s.pages[node].rank && AfterStart(b, s.pages[q].kind.entries[i].key);
      LeafRecordInMap(s, q, i);
      if BoundIndex(es, b) < |es| { LeftLeafIsSmaller(s, q, i, node, BoundIndex(es, b)); }
    }
  }

  /** A seek answered by the leaf that owns its key is exact. */
  lemma OwnerSeekIsExact(s: Store, op: Op, node: PageId)
    requires Inv(s) && Live(s, node) && s.pages[node].kind.Leaf? && op.Seek? && Owns(s.pages[node], op.key)
    requires ReadVisit(s, op, node).answer.Some?
    ensures ReadVisit(s, op, node).answer.value.Record?
    ensures IsLeast(Contents(s), BoundOf(op), ReadVisit(s, op, node).answer.value.record)
  {
    assert PageOk(s, node);
    ScanStarts(s, node, BoundOf(op));
    ScanIsExactIff(s, op, node);
  }

  // ---------------------------------------------------------- steps of a scan

  lemma RecordComesFirst(s: Store, p: PageId, q: PageId, i: nat, k: Key)
    requires Inv(s) && Live(s, p) && s.pages[p].kind.Leaf? && i < |s.pages[p].kind.entries|
    requires Live(s, q) && s.pages[q].level == 0 && Owns(s.pages[q], k)
    requires p != q && s.pages[p].rank <= s.pages[q].rank
    ensures s.pages[p].kind.entries[i].key < k
  {
    assert PageOk(s, p) && OrderOk(s, p, q);
    assert Owns(s.pages[p], s.pages[p].kind.entries[i].key);
  }

  lemma NeighbourComesNext(s: Store, p: PageId, q: PageId)
    requires Inv(s) && Live(s, p) && s.pages[p].kind.Leaf? && Live(s, q) && s.pages[q].level == 0
    requires p != q && s.pages[p].rank <= s.pages[q].rank
    ensures s.pages[p].right.Some? && Valid(s, s.pages[p].right.value)
    ensures s.pages[s.pages[p].right.value].rank <= s.pages[q].rank
  {
    assert PageOk(s, p) && OrderOk(s, p, q) && GapOk(s, p, q);
  }

  /** A leaf of a scan that has `k` in front of it does not skip `k`. */
  lemma LeafKeepsInFront(s: Store, op: Op, node: PageId, k: Key)
    requires Inv(s) && Live(s, node) && s.pages[node].kind.Leaf? && IsScan(op)
    requires k in Contents(s) && AfterStart(BoundOf(op), k) && s.pages[node].rank <= Place(s, k)
    ensures var o := ScanLeaf(s, op, s.pages[node]);
            && (o.answer.Some? ==> o.answer.value.Record? && !Skips(o.answer.value, k))
            && (o.answer.None? ==> o.at.Scanning? && Valid(s, o.at.node) && s.pages[o.at.node].rank <= Place(s, k))
  {
    var (q, b, es) := (Owner(s, k), BoundOf(op), s.pages[node].kind.entries);
    if q == node {
      OwnerDecides(s, q, k);
      FirstPastBound(s, node, b, Search(es, k).index);
    } else if BoundIndex(es, b) < |es| {
      RecordComesFirst(s, node, q, BoundIndex(es, b), k);
    } else {
      NeighbourComesNext(s, node, q);
    }
  }

  /** A leaf of a scan that has left `k` behind skips `k` or leaves it behind. */
  lemma LeafLeavesBehind(s: Store, op: Op, node: PageId, k: Key)
    requires Inv(s) && Live(s, node) && s.pages[node].kind.Leaf? && IsScan(op)
    requires Place(s, k) < s.pages[node].rank
    ensures var o := ScanLeaf(s, op, s.pages[node]);
            && (o.answer.Some? ==> Skips(o.answer.value, k))
            && (o.answer.None? ==> o.at.Scanning? && Valid(s, o.at.node) && Place(s, k) < s.pages[o.at.node].rank)
  {
    var (q, b, es) := (Owner(s, k), BoundOf(op), s.pages[node].kind.entries);
    assert PageOk(s, node) && OrderOk(s, q, node);
    if BoundIndex(es, b) < |es| { LeafRecordInMap(s, node, BoundIndex(es, b)); }
  }

  /** A scan step has `k` in front of it, or not yet come to the leaves. */
  ghost predicate InFront(s: Store, at: Phase, k: Key)
    requires Inv(s) && Knows(s, at)
  {
    at.Scanning? ==> s.pages[at.node].rank <= Place(s, k)
  }

  /** A first-child descent is at the left edge of the tree. */
  ghost predicate OnEdge(s: Store, at: Phase)
    requires Knows(s, at)
  {
    at.Sinking? ==> LeftEdge(s, at.node)
  }

  /** The leaf that owns the bound's key has every key past the bound in front. */
  lemma OwnerStartsInFront(s: Store, op: Op, node: PageId, k: Key)
    requires Inv(s) && Live(s, node) && s.pages[node].level == 0 && op.Seek? && Owns(s.pages[node], op.key)
    requires AfterStart(BoundOf(op), k)
    ensures s.pages[node].rank <= Place(s, k)
  {
    assert OrderOk(s, Owner(s, k), node);
  }

  lemma ReadStepInFront(s: Store, op: Op, node: PageId, k: Key)
    requires Inv(s) && Valid(s, node) && op.Seek? && k in Contents(s) && AfterStart(BoundOf(op), k)
    ensures var o := ReadVisit(s, op, node);
            && o.store == s && Knows(s, o.at)
            && (o.answer.Some? ==> o.answer.value.Record? && !Skips(o.answer.value, k))
            && (o.answer.None? ==> InFront(s, o.at, k) && !o.at.Sinking?)
  {
    RoutingIsTotal(s, node);
    RightPrecedes(s, node, op.key);
    assert PageOk(s, node);
    var page := s.pages[node];
    if RouteOf(page, op.key).Here? {
      if page.kind.Internal? {
        ChildOwns(s, node, op.key);
      } else {
        OwnerStartsInFront(s, op, node, k);
        LeafKeepsInFront(s, op, node, k);
      }
    }
  }

  lemma ScanStepInFront(s: Store, op: Op, node: PageId, k: Key)
    requires Inv(s) && Valid(s, node) && s.pages[node].level == 0 && IsScan(op)
    requires k in Contents(s) && AfterStart(BoundOf(op), k) && s.pages[node].rank <= Place(s, k)
    ensures var o := ScanVisit(s, op, node);
            && o.store == s && Knows(s, o.at)
            && (o.answer.Some? ==> o.answer.value.Record? && !Skips(o.answer.value, k))
            && (o.answer.None? ==> InFront(s, o.at, k) && !o.at.Sinking?)
  {
    assert PageOk(s, node);
    if s.pages[node].kind.Redirect? {
      assert GapOk(s, node, Owner(s, k)) && OrderOk(s, node, Owner(s, k));
    } else {
      LeafKeepsInFront(s, op, node, k);
    }
  }

  lemma ScanStepBehind(s: Store, op: Op, node: PageId, k: Key)
    requires Inv(s) && Valid(s, node) && s.pages[node].level == 0 && IsScan(op) && Place(s, k) < s.pages[node].rank
    ensures var o := ScanVisit(s, op, node);
            && o.store == s
            && (o.answer.Some? ==> Skips(o.answer.value, k))
            && (o.answer.None? ==> o.at.Scanning? && Valid(s, o.at.node) && Place(s, k) < s.pages[o.at.node].rank)
  {
    assert PageOk(s, node);
    if s.pages[node].kind.Leaf? { LeafLeavesBehind(s, op, node, k); }
  }

  /** The leftmost page of a level has no lower fence, nor has its first child. */
  lemma FirstChildOnEdge(s: Store, p: PageId)
    requires Inv(s) && Live(s, p) && s.pages[p].kind.Internal? && LeftEdge(s, p)
    ensures |s.pages[p].kind.children| > 0 && Valid(s, s.pages[p].kind.children[0])
    ensures LeftEdge(s, s.pages[p].kind.children[0])
  {
    assert PageOk(s, p);
    ChildInside(s, p, 0);
    if s.pages[p].low.Some? {
      var q := LeftOf(s, p);
      assert PageOk(s, q) && OrderOk(s, p, q);
    }
    var c := s.pages[p].kind.children[0];
    forall q: PageId | Live(s, q) && s.pages[q].level == s.pages[c].level ensures s.pages[c].rank <= s.pages[q].rank {
      assert OrderOk(s, q, c);
    }
  }

  lemma ForwardOnEdge(s: Store, p: PageId)
    requires Inv(s) && EdgesOk(s) && Valid(s, p) && s.pages[p].kind.Redirect? && LeftEdge(s, p)
    ensures Valid(s, s.pages[p].kind.target) && LeftEdge(s, s.pages[p].kind.target)
  {
    assert PageOk(s, p);
    var c := s.pages[p].kind.target;
    forall q: PageId | Live(s, q) && s.pages[q].level == s.pages[c].level ensures s.pages[c].rank <= s.pages[q].rank {
      assert GapOk(s, p, q) && OrderOk(s, p, q);
    }
  }

  lemma SinkStepOnEdge(s: Store, node: PageId, k: Key)
    requires Inv(s) && EdgesOk(s) && Valid(s, node) && LeftEdge(s, node)
    ensures var o := SinkVisit(s, node);
            o.store == s && o.answer.None? && Knows(s, o.at) && InFront(s, o.at, k) && OnEdge(s, o.at)
  {
    assert PageOk(s, node);
    if s.pages[node].kind.Internal? { FirstChildOnEdge(s, node); }
    if s.pages[node].kind.Redirect? { ForwardOnEdge(s, node); }
  }

  /** A scan step keeps a record in front of it until it answers, and then does
      not skip it. */
  lemma OwnStepInFront(s: Store, taken: set<Latch>, alive: bool, op: Op, at: Phase, k: Key)
    requires Inv(s) && EdgesOk(s) && Knows(s, at) && Suits(op, None, at) && IsScan(op)
    requires k in Contents(s) && AfterStart(BoundOf(op), k) && InFront(s, at, k) && OnEdge(s, at)
    ensures var o := Step(s, taken, alive, op, None, at);
            && o.store == s && Knows(s, o.at)
            && (o.answer.Some? ==> o.answer.value.Record? && !Skips(o.answer.value, k))
            && (o.answer.None? ==> InFront(s, o.at, k) && OnEdge(s, o.at))
  {
    if at.Starting? {
      forall q: PageId | Live(s, q) && s.pages[q].level == s.pages[s.root].level ensures q == s.root {
        RootAlone(s, q);
      }
    }
    else if at.Reading? { ReadStepInFront(s, op, at.node, k); }
    else if at.Sinking? { SinkStepOnEdge(s, at.node, k); }
    else { ScanStepInFront(s, op, at.node, k); }
  }

  /** A scan that has left a record behind stays past it, and skips it once it
      answers. */
  lemma OwnStepBehind(s: Store, taken: set<Latch>, alive: bool, op: Op, at: Phase, k: Key)
    requires Inv(s) && Knows(s, at) && Suits(op, None, at) && IsScan(op) && at.Scanning? && !InFront(s, at, k)
    ensures var o := Step(s, taken, alive, op, None, at);
            && o.store == s && Knows(s, o.at)
            && (o.answer.Some? ==> Skips(o.answer.value, k))
            && (o.answer.None? ==> o.at.Scanning? && !InFront(s, o.at, k))
  {
    assert PageOk(s, at.node);
    ScanStepBehind(s, op, at.node, k);
  }

  /** Whenever a remover lends the first record of the leaf a scan goes on in to
      a leaf behind it, the map keeps the record, and a scan step that answers
      there skips it. */
  lemma BorrowHidesRecord(s: Store, busy: set<Latch>, taken: set<Latch>, alive: bool, op: Op, at: Phase,
                          scan: Op, node: PageId, k: Key)
    requires Sound(s) && Knows(s, at) && Suits(op, None, at) && Ready(at, busy) && busy <= taken
    requires Valid(s, node) && s.pages[node].level == 0 && k in Contents(s) && !Behind(s, node, k)
    requires Hides(s, taken, op, at, node, k) && IsScan(scan)
    ensures var t := Step(s, taken, alive, op, None, at).store;
            && Inv(t) && Valid(t, node) && t.pages[node].level == 0 && Contents(t) == Contents(s)
            && (ScanVisit(t, scan, node).answer.Some? ==> Skips(ScanVisit(t, scan, node).answer.value, k))
  {
    StepGood(s, busy, taken, alive, op, None, at);
    LendingKeepsMap(s, taken, alive, op, at);
    StepHidesIff(s, busy, taken, alive, op, None, at, node, k);
    ScanStepBehind(Step(s, taken, alive, op, None, at).store, scan, node, k);
  }

  /** Lending does not settle the remover's answer. */
  lemma LendingKeepsMap(s: Store, taken: set<Latch>, alive: bool, op: Op, at: Phase)
    requires Inv(s) && Knows(s, at) && Suits(op, None, at) && Lends(s, taken, op, at)
    ensures Step(s, taken, alive, op, None, at).answer.None?
  {
    RoutingIsTotal(s, at.node);
  }

  // -------------------------------------------------------------- whole runs

  /** Leftmost pages at every moment of a run: former roots forward to leftmost
      pages, and first-child descents stand on them. */
  ghost predicate Edged(g: System) {
    && Inv(g.store) && EdgesOk(g.store)
    && forall t :: 0 <= t < |g.threads| && g.threads[t].Running? ==>
         Knows(g.store, g.threads[t].at) && OnEdge(g.store, g.threads[t].at)
  }

  lemma SinkingStepOnEdge(s: Store, taken: set<Latch>, alive: bool, op: Op, answer: Option<Result>, at: Phase)
    requires Inv(s) && EdgesOk(s) && Knows(s, at) && Suits(op, answer, at) && OnEdge(s, at)
    ensures var o := Step(s, taken, alive, op, answer, at);
            o.at.Sinking? ==> o.store == s && Valid(s, o.at.node) && LeftEdge(s, o.at.node)
  {
    if at.Starting? {
      forall q: PageId | Live(s, q) && s.pages[q].level == s.pages[s.root].level ensures q == s.root {
        RootAlone(s, q);
      }
    } else if at.Sinking? {
      SinkStepOnEdge(s, at.node, 0);
    } else {
      OnlySinksFromTop(s, taken, alive, op, answer, at);
    }
  }

  lemma OnlySinksFromTop(s: Store, taken: set<Latch>, alive: bool, op: Op, answer: Option<Result>, at: Phase)
    requires Inv(s) && Knows(s, at) && Suits(op, answer, at) && !at.Starting? && !at.Sinking?
    ensures !Step(s, taken, alive, op, answer, at).at.Sinking?
  {
  }

  lemma WorkKeepsEdged(g: System, u: nat, taken: set<Latch>, alive: bool, h: System)
    requires SystemInv(g) && Edged(g) && u < |g.threads| && Works(g, u, taken, alive, h) && SystemInv(h)
    ensures Edged(h)
  {
    var (op, answer, at) := (g.threads[u].op, g.threads[u].answer, g.threads[u].at);
    StepGood(g.store, BusyFor(g, u), taken, alive, op, answer, at);
    StepKeepsEdges(g.store, taken, alive, op, answer, at);
    EdgesStay(g.store, h.store);
    SinkingStepOnEdge(g.store, taken, alive, op, answer, at);
    forall t | 0 <= t < |h.threads| && h.threads[t].Running?
      ensures Knows(h.store, h.threads[t].at) && OnEdge(h.store, h.threads[t].at)
    {
      assert ThreadOk(h.store, h.threads[t]);
      if t != u && h.threads[t].at.Sinking? { EdgeStays(g.store, h.store, h.threads[t].at.node); }
      if t == u && h.threads[t].at.Sinking? { assert h.store == g.store; }
    }
  }

  lemma UnheldMoveKeepsEdged(g: System, u: nat, next: Thread)
    requires Inv(g.store) && Edged(g) && u < |g.threads| && (next.Running? ==> next.at.Starting?)
    ensures Edged(g.(threads := g.threads[u := next]))
  {
  }

  lemma NextKeepsEdged(g: System, u: nat, h: System)
    requires SystemInv(g) && Edged(g) && Next(g, u, h)
    ensures SystemInv(h) && Edged(h)
  {
    NextKeepsInv(g, u, h);
    if taken, alive :| Works(g, u, taken, alive, h) {
      WorkKeepsEdged(g, u, taken, alive, h);
    } else {
      UnheldMoveKeepsEdged(g, u, h.threads[u]);
    }
  }

  lemma StartsEdged(g: System)
    requires Initial(g)
    ensures SystemInv(g) && Edged(g)
  {
    EmptyStoreSound();
  }

  lemma StepStaysEdged(r: Run, i: nat)
    requires i < |r.who| < |r.states| && StepsAt(r, i) && SystemInv(r.states[i]) && Edged(r.states[i])
    ensures SystemInv(r.states[i + 1]) && Edged(r.states[i + 1])
  {
    NextKeepsEdged(r.states[i], r.who[i], r.states[i + 1]);
  }

  lemma RunsStayEdged(r: Run, i: nat)
    requires IsRun(r) && i < |r.states|
    ensures SystemInv(r.states[i]) && Edged(r.states[i])
  {
    var inv := (g: System) => SystemInv(g) && Edged(g);
    StartsEdged(r.states[0]);
    forall m: nat | m + 1 < |r.states| ensures Carries(r.states, inv, m) {
      if SystemInv(r.states[m]) && Edged(r.states[m]) { StepStaysEdged(r, m); }
    }
    HoldsAlong(r.states, inv, i);
  }

  /** The scan step that thread `t` runs has left the record behind. */
  ghost predicate LeftBehind(g: System, t: nat, k: Key) {
    && t < |g.threads| && g.threads[t].Running? && g.threads[t].at.Scanning?
    && Inv(g.store) && Valid(g.store, g.threads[t].at.node) && Behind(g.store, g.threads[t].at.node, k)
  }

  /** Step `m` of the run lets a leaf behind the scan of thread `t` borrow the
      record with key `k` from a leaf in front of it. */
  ghost predicate HiddenAt(r: Run, t: nat, k: Key, m: nat)
    requires m < |r.who| < |r.states|
  {
    var (g, u, h) := (r.states[m], r.who[m], r.states[m + 1]);
    && t < |g.threads| && u < |g.threads| && u != t
    && g.threads[t].Running? && g.threads[t].at.Scanning? && g.threads[u].Running?
    && Inv(g.store) && Valid(g.store, g.threads[t].at.node)
    && exists taken, alive ::
         && Works(g, u, taken, alive, h)
         && Hides(g.store, taken, g.threads[u].op, g.threads[u].at, g.threads[t].at.node, k)
  }

  predicate RunsOpen(t: Thread, op: Op) {
    t.Running? && t.op == op && t.answer.None?
  }

  /** At state `m` thread `t` has `op` running and no answer yet. */
  predicate OpenAt(r: Run, t: nat, op: Op, m: nat)
    requires m < |r.states|
  {
    t < |r.states[m].threads| && RunsOpen(r.states[m].threads[t], op)
  }

  /** Thread `t` runs one scan step between states `i` and `j`. */
  ghost predicate ScanSpan(r: Run, t: nat, op: Op, result: Result, i: nat, j: nat) {
    && IsRun(r) && i < j < |r.states| && IsScan(op)
    && t < |r.states[i].threads| && r.states[i].threads[t] == Running(op, None, Starting)
    && (forall m: nat | i <= m < j :: OpenAt(r, t, op, m))
    && t < |r.states[j].threads| && r.states[j].threads[t] == Running(op, Some(result), Returning)
  }

  /** What a step of thread `u` leaves as it is. */
  lemma OthersStand(g: System, u: nat, h: System, t: nat)
    requires Next(g, u, h) && t < |g.threads| && t != u
    ensures t < |h.threads| && h.threads[t] == g.threads[t]
  {
  }

  /** The scan's own step, taken apart. */
  lemma OwnStep(g: System, t: nat, h: System, op: Op) returns (taken: set<Latch>, alive: bool)
    requires SystemInv(g) && Next(g, t, h) && t < |g.threads| && RunsOpen(g.threads[t], op)
    ensures Knows(g.store, g.threads[t].at) && Suits(op, None, g.threads[t].at)
    ensures var o := Step(g.store, taken, alive, op, None, g.threads[t].at);
            h.store == o.store && |h.threads| == |g.threads| && h.threads[t] == Running(op, o.answer, o.at)
  {
    assert ThreadOk(g.store, g.threads[t]);
    taken, alive :| Works(g, t, taken, alive, h);
  }

  /** In a scan step that has the record in front of it, its own step does not
      put it behind, and an answer does not skip it. */
  lemma OwnStepKeeps(g: System, t: nat, h: System, op: Op, k: Key)
    requires SystemInv(g) && Edged(g) && Next(g, t, h) && IsScan(op) && AfterStart(BoundOf(op), k)
    requires t < |g.threads| && RunsOpen(g.threads[t], op) && Stored(g, k)
    ensures t < |h.threads| && h.threads[t].Running?
    ensures !LeftBehind(g, t, k) && h.threads[t].answer.None? ==> !LeftBehind(h, t, k)
    ensures h.threads[t].answer.Some? ==>
              h.threads[t].answer.value.Record? && (Skips(h.threads[t].answer.value, k) <==> LeftBehind(g, t, k))
  {
    var taken, alive := OwnStep(g, t, h, op);
    var at := g.threads[t].at;
    if InFront(g.store, at, k) {
      OwnStepInFront(g.store, taken, alive, op, at, k);
    } else {
      OwnStepBehind(g.store, taken, alive, op, at, k);
    }
  }

  /** A step of another thread puts a record behind the scan only by hiding it. */
  lemma OtherStepHides(r: Run, m: nat, t: nat, op: Op, k: Key)
    requires m < |r.who| < |r.states| && StepsAt(r, m) && SystemInv(r.states[m])
    requires t < |r.states[m].threads| && r.who[m] != t && RunsOpen(r.states[m].threads[t], op)
    requires Stored(r.states[m], k) && Stored(r.states[m + 1], k)
    requires !LeftBehind(r.states[m], t, k) && LeftBehind(r.states[m + 1], t, k)
    ensures HiddenAt(r, t, k, m)
  {
    var (g, u, h) := (r.states[m], r.who[m], r.states[m + 1]);
    OthersStand(g, u, h, t);
    assert ThreadOk(g.store, g.threads[t]);
    var taken, alive :| Works(g, u, taken, alive, h);
    StepHidesIff(g.store, BusyFor(g, u), taken, alive, g.threads[u].op, g.threads[u].answer, g.threads[u].at,
                 g.threads[t].at.node, k);
  }

  // -------------------------------------------- records present throughout

  lemma OwnSpanStep(r: Run, t: nat, op: Op, k: Key, m: nat)
    requires IsRun(r) && m < |r.who| && r.who[m] == t && IsScan(op) && AfterStart(BoundOf(op), k)
    requires OpenAt(r, t, op, m) && StoredAt(r, k, m)
    ensures t < |r.states[m + 1].threads| && r.states[m + 1].threads[t].Running?
    ensures var answer := r.states[m + 1].threads[t].answer;
            && (answer.None? && !BehindAt(r, t, k, m) ==> !BehindAt(r, t, k, m + 1))
            && (answer.Some? ==> answer.value.Record? && (Skips(answer.value, k) <==> BehindAt(r, t, k, m)))
  {
    RunsStayEdged(r, m);
    assert StepsAt(r, m);
    OwnStepKeeps(r.states[m], t, r.states[m + 1], op, k);
  }

  lemma OtherSpanStep(r: Run, t: nat, op: Op, k: Key, m: nat)
    requires IsRun(r) && m < |r.who| && r.who[m] != t
    requires OpenAt(r, t, op, m) && StoredAt(r, k, m) && StoredAt(r, k, m + 1)
    ensures t < |r.states[m + 1].threads| && r.states[m + 1].threads[t] == r.states[m].threads[t]
    ensures !BehindAt(r, t, k, m) && BehindAt(r, t, k, m + 1) ==> HiddenAt(r, t, k, m)
  {
    assert StepsAt(r, m);
    OthersStand(r.states[m], r.who[m], r.states[m + 1], t);
    if !BehindAt(r, t, k, m) && BehindAt(r, t, k, m + 1) {
      RunsAreSafe(r, m);
      OtherStepHides(r, m, t, op, k);
    }
  }

  /** Inside a span a record comes to lie behind the scan only by being hidden. */
  lemma SpanGoesOn(r: Run, t: nat, op: Op, result: Result, i: nat, j: nat, k: Key, m: nat)
    requires ScanSpan(r, t, op, result, i, j) && StaysStored(r, k, i, j) && AfterStart(BoundOf(op), k)
    requires i <= m && m + 1 < j
    ensures m < |r.who| < |r.states|
    ensures !BehindAt(r, t, k, m) && BehindAt(r, t, k, m + 1) ==> HiddenAt(r, t, k, m)
  {
    assert OpenAt(r, t, op, m) && OpenAt(r, t, op, m + 1) && StoredAt(r, k, m) && StoredAt(r, k, m + 1);
    if r.who[m] == t { OwnSpanStep(r, t, op, k, m); } else { OtherSpanStep(r, t, op, k, m); }
  }

  /** The answer of a span skips a record exactly if it lies behind the scan. */
  lemma SpanEnds(r: Run, t: nat, op: Op, result: Result, i: nat, m: nat, k: Key)
    requires ScanSpan(r, t, op, result, i, m + 1) && StaysStored(r, k, i, m + 1) && AfterStart(BoundOf(op), k)
    ensures m < |r.who| < |r.states| && result.Record? && (Skips(result, k) <==> BehindAt(r, t, k, m))
  {
    assert OpenAt(r, t, op, m) && StoredAt(r, k, m) && StoredAt(r, k, m + 1);
    if r.who[m] == t { OwnSpanStep(r, t, op, k, m); } else { OtherSpanStep(r, t, op, k, m); }
  }

  /** The last moment at which something was not yet so. */
  lemma {:induction false} LastTurn(f: nat -> bool, i: nat, n: nat) returns (m: nat)
    requires i <= n && !f(i) && f(n)
    ensures i <= m < n && !f(m) && forall x: nat | m < x <= n :: f(x)
    decreases n
  {
    m := n - 1;
    if f(m) { m := LastTurn(f, i, m); }
  }

  ghost predicate BehindAt(r: Run, t: nat, k: Key, m: nat) {
    m < |r.states| && LeftBehind(r.states[m], t, k)
  }

  /** Step `m` hides the record, and it lies behind the scan until before `j`. */
  ghost predicate HiddenSince(r: Run, t: nat, k: Key, m: nat, j: nat)
    requires m < j <= |r.who| < |r.states|
  {
    HiddenAt(r, t, k, m) && forall x: nat | m < x < j :: BehindAt(r, t, k, x)
  }

  lemma StartsInFront(r: Run, t: nat, op: Op, result: Result, i: nat, j: nat, k: Key)
    requires ScanSpan(r, t, op, result, i, j)
    ensures !BehindAt(r, t, k, i)
  {
    assert r.states[i].threads[t].at.Starting?;
  }

  lemma LastTurnBehind(r: Run, t: nat, k: Key, i: nat, n: nat) returns (m: nat)
    requires i <= n && !BehindAt(r, t, k, i) && BehindAt(r, t, k, n)
    ensures i <= m < n && !BehindAt(r, t, k, m) && forall x: nat | m < x <= n :: BehindAt(r, t, k, x)
  {
    var f := (x: nat) => BehindAt(r, t, k, x);
    m := LastTurn(f, i, n);
    forall x: nat | m < x <= n ensures BehindAt(r, t, k, x) { assert f(x); }
  }

  /** A record that lies behind the scan was hidden by an earlier step and has
      been behind ever since. */
  lemma BehindWasHidden(r: Run, t: nat, op: Op, result: Result, i: nat, j: nat, k: Key) returns (m: nat)
    requires ScanSpan(r, t, op, result, i, j) && StaysStored(r, k, i, j) && AfterStart(BoundOf(op), k)
    requires i < j <= |r.who| < |r.states| && BehindAt(r, t, k, j - 1)
    ensures i <= m < j - 1 && HiddenSince(r, t, k, m, j)
  {
    StartsInFront(r, t, op, result, i, j, k);
    m := LastTurnBehind(r, t, k, i, j - 1);
    SpanGoesOn(r, t, op, result, i, j, k, m);
  }

  /** A scan step skips a record that is stored all through it if and only if,
      between two of its own steps, a leaf behind it borrowed that record as the
      first one of a leaf in front, and the record has been behind ever since. */
  lemma SkipsIff(r: Run, t: nat, op: Op, result: Result, i: nat, j: nat, k: Key)
    requires ScanSpan(r, t, op, result, i, j) && StaysStored(r, k, i, j) && AfterStart(BoundOf(op), k)
    ensures j <= |r.who| < |r.states| && result.Record?
    ensures Skips(result, k) <==> exists m: nat | i <= m < j - 1 :: HiddenSince(r, t, k, m, j)
  {
    SpanEnds(r, t, op, result, i, j - 1, k);
    if Skips(result, k) {
      var m := BehindWasHidden(r, t, op, result, i, j, k);
    }
    if m: nat :| i <= m < j - 1 && HiddenSince(r, t, k, m, j) {
      assert BehindAt(r, t, k, j - 1);
    }
  }

  /** No thread is removing anything. */
  predicate NobodyRemoves(g: System) {
    forall u :: 0 <= u < |g.threads| && g.threads[u].Running? ==> !g.threads[u].op.Remove?
  }

  /** While nobody removes, a scan step skips no record that stays stored. */
  lemma NothingSkippedWithoutRemovers(r: Run, t: nat, op: Op, result: Result, i: nat, j: nat, k: Key)
    requires ScanSpan(r, t, op, result, i, j) && StaysStored(r, k, i, j) && AfterStart(BoundOf(op), k)
    requires forall m: nat | i <= m < j :: NobodyRemoves(r.states[m])
    ensures result.Record? && !Skips(result, k)
  {
    SkipsIff(r, t, op, result, i, j, k);
    assert forall m: nat | i <= m < j && HiddenSince(r, t, k, m, j) :: !NobodyRemoves(r.states[m]);
  }
}
