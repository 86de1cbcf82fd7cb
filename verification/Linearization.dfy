/** Each atomic step of a thread either leaves the abstract map alone or applies
    the thread's whole operation to it, with the answer the thread returns. */
module Linearization {
  import opened Pages
  import opened Bounds
  import opened Stores
  import opened Ownership
  import opened Abstraction
  import opened LeafSteps
  import opened Traversal
  import opened Protocol

  /** A thread as the specification sees it. */
  datatype Status = Free | Pending(op: Op) | Applied(op: Op, result: Result)

  function StatusOf(t: Thread): Status {
    match t
    case Idle => Free
    case Running(op, answer, _) => if answer.Some? then Applied(op, answer.value) else Pending(op)
  }

  /** The sequential meaning of an operation. A cursor step promises a record of
      the map beyond its bound, or nothing. */
  ghost predicate Effect(op: Op, m: map<Key, Value>, n: map<Key, Value>, r: Result) {
    match op
    case Get(k) => n == m && r == Answer(Lookup(m, k))
    case Modify(k, v) => n == (if k in m then m[k := v] else m) && r == Answer(Lookup(m, k))
    case Insert(k, v) => n == m[k := v] && r == Answer(Lookup(m, k))
    case Remove(k) => n == m - {k} && r == Answer(Lookup(m, k))
    case _ =>
      && n == m && r.Record?
      && (r.record.Some? ==>
            && Lookup(m, r.record.value.key) == Some(r.record.value.value)
            && AfterStart(BoundOf(op), r.record.value.key))
  }

  /** One step of the specification: invoke, apply, return, or nothing. */
  ghost predicate SpecStep(m: map<Key, Value>, a: Status, n: map<Key, Value>, b: Status) {
    || (m == n && a == b)
    || (m == n && a.Free? && b.Pending?)
    || (m == n && a.Applied? && b.Free?)
    || (a.Pending? && b.Applied? && a.op == b.op && Effect(a.op, m, n, b.result))
  }

  // -------------------------------------------------- how the heap evolves

  /** Facts about allocated pages that no step ever changes. */
  ghost predicate Evolves(s: Store, t: Store) {
    && |s.pages| <= |t.pages|
    && forall p: PageId | p < |s.pages| ::
         && t.pages[p].level == s.pages[p].level
         && t.pages[p].rank == s.pages[p].rank
         && (s.pages[p].kind.Redirect? ==> t.pages[p].kind == s.pages[p].kind)
  }

  /** Latches held by other threads protect what they cover. */
  ghost predicate Respects(s: Store, t: Store, busy: set<Latch>) {
    && (RootSlot in busy ==> t.root == s.root)
    && |s.pages| <= |t.pages|
    && forall p: PageId | p < |s.pages| && PageLatch(p) in busy :: t.pages[p] == s.pages[p]
  }

  /** The invariant together with the exact record counter. */
  ghost predicate Sound(s: Store) {
    Inv(s) && LenOk(s)
  }

  lemma EmptyStoreSound()
    ensures Sound(EmptyStore()) && Contents(EmptyStore()) == map[]
  {
    var s := EmptyStore();
    assert PageOk(s, 0);
    assert OrderOk(s, 0, 0) && GapOk(s, 0, 0);
    assert Inv(s);
    assert Records(s) == {};
    assert Contents(s) == map[];
  }

  /** What every step of a running operation guarantees: either the map and
      the answer stay, or the answer is settled by applying the operation. */
  ghost predicate GoodStep(s: Store, busy: set<Latch>, op: Op, answer: Option<Result>, o: Outcome)
    requires Inv(s)
  {
    && Sound(o.store)
    && Knows(o.store, o.at) && Suits(op, o.answer, o.at)
    && Evolves(s, o.store)
    && Respects(s, o.store, busy)
    && if o.answer == answer then Contents(o.store) == Contents(s)
       else answer.None? && o.answer.Some? && Effect(op, Contents(s), Contents(o.store), o.answer.value)
  }

  /** A structural step: the represented map does not change. */
  lemma StructuralStep(s: Store, t: Store)
    requires Sound(s) && Inv(t) && Records(s) == Records(t) && t.len == s.len
    ensures Sound(t) && Contents(t) == Contents(s)
  {
  }

  lemma SizeAfterUpdate(m: map<Key, Value>, k: Key, v: Value)
    ensures |m[k := v]| == if k in m then |m| else |m| + 1
    ensures k in m ==> |m - {k}| == |m| - 1 && 0 < |m|
  {
  }

  lemma PutRecordSound(s: Store, p: PageId, k: Key, v: Value)
    requires Sound(s) && Valid(s, p) && s.pages[p].kind.Leaf? && Owns(s.pages[p], k)
    requires Search(s.pages[p].kind.entries, k).Missing? ==> |s.pages[p].kind.entries| < N
    ensures Sound(PutRecord(s, p, k, v)) && Contents(PutRecord(s, p, k, v)) == Contents(s)[k := v]
    ensures LeafGet(s.pages[p].kind.entries, k) == Lookup(Contents(s), k)
  {
    PutIsUpdate(s, p, k, v);
    OwnerDecides(s, p, k);
    LenIrrelevant(WriteLeaf(s, p, LeafPut(s.pages[p].kind.entries, k, v)), PutRecord(s, p, k, v));
    SizeAfterUpdate(Contents(s), k, v);
  }

  lemma DropRecordSound(s: Store, p: PageId, k: Key)
    requires Sound(s) && Valid(s, p) && s.pages[p].kind.Leaf? && Owns(s.pages[p], k)
    requires Search(s.pages[p].kind.entries, k).Found?
    requires s.pages[p].isRoot || N / 2 < |s.pages[p].kind.entries|
    ensures Sound(DropRecord(s, p, k)) && Contents(DropRecord(s, p, k)) == Contents(s) - {k}
    ensures LeafGet(s.pages[p].kind.entries, k) == Lookup(Contents(s), k) && 0 < s.len
  {
    DropIsRemoval(s, p, k);
    OwnerDecides(s, p, k);
    LenIrrelevant(WriteLeaf(s, p, LeafDrop(s.pages[p].kind.entries, k)), DropRecord(s, p, k));
    SizeAfterUpdate(Contents(s), k, Contents(s)[k]);
  }

  /** The tree invariant and the map do not depend on the counter. */
  lemma LenIrrelevant(s: Store, t: Store)
    requires Inv(s) && t.pages == s.pages && t.root == s.root
    ensures Inv(t) && Contents(t) == Contents(s)
  {
    forall p: PageId | p < |t.pages| ensures PageOk(t, p) {
      assert PageOk(s, p);
      if s.pages[p].kind.Internal? {
        forall i | 0 <= i < |s.pages[p].kind.children| ensures ChildOk(t, t.pages[p], i) {
          assert ChildOk(s, s.pages[p], i);
        }
      }
    }
    forall p: PageId, q: PageId | p < |t.pages| && q < |t.pages| ensures OrderOk(t, p, q) && GapOk(t, p, q) {
      assert OrderOk(s, p, q) && GapOk(s, p, q);
    }
    assert Records(t) == Records(s);
  }

  // ------------------------------------------------------------- read visits

  /** A step that leaves the heap and the answer alone. */
  lemma ReadOnlyStep(s: Store, busy: set<Latch>, op: Op, answer: Option<Result>, next: Phase)
    requires Sound(s) && Knows(s, next) && Suits(op, answer, next)
    ensures GoodStep(s, busy, op, answer, Outcome(s, answer, next))
  {
  }

  /** A step that applies the whole operation and settles its answer. */
  lemma ApplyingStep(s: Store, busy: set<Latch>, op: Op, t: Store, r: Result, next: Phase,
                     m: map<Key, Value>, n: map<Key, Value>)
    requires Sound(s) && Sound(t) && Evolves(s, t) && Respects(s, t, busy)
    requires Contents(s) == m && Contents(t) == n && Effect(op, m, n, r)
    requires next.Returning? || (next.Shrinking? && op.Remove?)
    ensures GoodStep(s, busy, op, None, Outcome(t, Some(r), next))
  {
  }

  lemma ScanLeafGood(s: Store, busy: set<Latch>, op: Op, node: PageId)
    requires Sound(s) && Valid(s, node) && s.pages[node].kind.Leaf? && IsScan(op)
    ensures GoodStep(s, busy, op, None, ScanLeaf(s, op, s.pages[node]))
  {
    assert PageOk(s, node);
    var es := s.pages[node].kind.entries;
    var i := BoundIndex(es, BoundOf(op));
    if i < |es| {
      assert LeafShape(s.pages[node]);
      OwnerDecides(s, node, es[i].key);
      EntryIsFound(es, i);
      BoundIndexMeaning(es, BoundOf(op));
      ApplyingStep(s, busy, op, s, Record(Some(es[i])), Returning, Contents(s), Contents(s));
    } else if s.pages[node].right.Some? {
      assert s.pages[s.pages[node].right.value].level == 0;
      ReadOnlyStep(s, busy, op, None, Scanning(s.pages[node].right.value));
    } else {
      ApplyingStep(s, busy, op, s, Record(None), Returning, Contents(s), Contents(s));
    }
  }

  lemma ReadVisitGood(s: Store, busy: set<Latch>, op: Op, node: PageId)
    requires Sound(s) && Valid(s, node) && !op.First?
    ensures GoodStep(s, busy, op, None, ReadVisit(s, op, node))
  {
    RoutingIsTotal(s, node);
    RightPrecedes(s, node, op.key);
    var page := s.pages[node];
    if RouteOf(page, op.key).Here? && page.kind.Leaf? && op.Get? {
      OwnerAnswers(s, node, op.key);
      ApplyingStep(s, busy, op, s, ReadVisit(s, op, node).answer.value, Returning, Contents(s), Contents(s));
    } else if RouteOf(page, op.key).Here? && page.kind.Leaf? && op.Seek? {
      ScanLeafGood(s, busy, op, node);
    } else {
      if RouteOf(page, op.key).Here? && page.kind.Internal? { ChildOwns(s, node, op.key); }
      ReadOnlyStep(s, busy, op, None, ReadVisit(s, op, node).at);
    }
  }

  lemma SinkVisitGood(s: Store, busy: set<Latch>, op: Op, node: PageId)
    requires Sound(s) && Valid(s, node) && op.First?
    ensures GoodStep(s, busy, op, None, SinkVisit(s, node))
  {
    assert PageOk(s, node);
    if s.pages[node].kind.Internal? { ChildInside(s, node, 0); }
    ReadOnlyStep(s, busy, op, None, SinkVisit(s, node).at);
  }

  lemma ScanVisitGood(s: Store, busy: set<Latch>, op: Op, node: PageId)
    requires Sound(s) && Valid(s, node) && s.pages[node].level == 0 && IsScan(op)
    ensures GoodStep(s, busy, op, None, ScanVisit(s, op, node))
  {
    assert PageOk(s, node);
    if s.pages[node].kind.Leaf? {
      ScanLeafGood(s, busy, op, node);
    } else {
      ReadOnlyStep(s, busy, op, None, Scanning(s.pages[node].kind.target));
    }
  }

  // ------------------------------------------------------------- leaf writes

  /** Footprint of a step that rewrites one page and perhaps the counter. */
  lemma OnePageStep(s: Store, t: Store, p: PageId, busy: set<Latch>)
    requires Valid(s, p) && |t.pages| == |s.pages| && t.root == s.root
    requires t.pages == s.pages[p := t.pages[p]]
    requires PageLatch(p) !in busy
    requires t.pages[p].level == s.pages[p].level && t.pages[p].rank == s.pages[p].rank
    requires s.pages[p].kind.Redirect? ==> t.pages[p].kind == s.pages[p].kind
    ensures Evolves(s, t) && Respects(s, t, busy)
  {
  }

  lemma PutRecordGood(s: Store, busy: set<Latch>, p: PageId, k: Key, v: Value)
    requires Sound(s) && Valid(s, p) && s.pages[p].kind.Leaf? && Owns(s.pages[p], k)
    requires Search(s.pages[p].kind.entries, k).Missing? ==> |s.pages[p].kind.entries| < N
    requires PageLatch(p) !in busy
    ensures var t := PutRecord(s, p, k, v);
            && Sound(t) && Evolves(s, t) && Respects(s, t, busy)
            && Contents(t) == Contents(s)[k := v]
            && LeafGet(s.pages[p].kind.entries, k) == Lookup(Contents(s), k)
  {
    PutRecordSound(s, p, k, v);
    OnePageStep(s, PutRecord(s, p, k, v), p, busy);
  }

  lemma DropRecordGood(s: Store, busy: set<Latch>, p: PageId, k: Key)
    requires Sound(s) && Valid(s, p) && s.pages[p].kind.Leaf? && Owns(s.pages[p], k)
    requires Search(s.pages[p].kind.entries, k).Found?
    requires s.pages[p].isRoot || N / 2 < |s.pages[p].kind.entries|
    requires PageLatch(p) !in busy
    ensures var t := DropRecord(s, p, k);
            && Sound(t) && Evolves(s, t) && Respects(s, t, busy)
            && Contents(t) == Contents(s) - {k}
            && LeafGet(s.pages[p].kind.entries, k) == Lookup(Contents(s), k)
  {
    DropRecordSound(s, p, k);
    OnePageStep(s, DropRecord(s, p, k), p, busy);
  }

  /** A missing key is answered by None, and removing it changes nothing. */
  lemma MissingAtOwner(s: Store, p: PageId, k: Key)
    requires Sound(s) && Valid(s, p) && s.pages[p].kind.Leaf? && Owns(s.pages[p], k)
    requires Search(s.pages[p].kind.entries, k).Missing?
    ensures LeafGet(s.pages[p].kind.entries, k) == None == Lookup(Contents(s), k)
    ensures Contents(s) - {k} == Contents(s) && k !in Contents(s)
  {
    OwnerDecides(s, p, k);
  }

  lemma PutGood(s: Store, busy: set<Latch>, op: Op, node: PageId)
    requires (op.Insert? || op.Modify?) && PageLatch(node) !in busy
    requires Sound(s) && Valid(s, node) && s.pages[node].kind.Leaf? && Owns(s.pages[node], op.key)
    requires Search(s.pages[node].kind.entries, op.key).Missing? ==> |s.pages[node].kind.entries| < N && op.Insert?
    ensures GoodStep(s, busy, op, None,
                     Return(PutRecord(s, node, op.key, op.value), Answer(LeafGet(s.pages[node].kind.entries, op.key))))
  {
    var m := Contents(s);
    OwnerDecides(s, node, op.key);
    PutRecordGood(s, busy, node, op.key, op.value);
    ApplyingStep(s, busy, op, PutRecord(s, node, op.key, op.value), Answer(Lookup(m, op.key)), Returning,
                 m, m[op.key := op.value]);
  }

  lemma DropGood(s: Store, busy: set<Latch>, op: Op, node: PageId, next: Phase)
    requires op.Remove? && PageLatch(node) !in busy && (next.Returning? || next.Shrinking?)
    requires Sound(s) && Valid(s, node) && s.pages[node].kind.Leaf? && Owns(s.pages[node], op.key)
    requires Search(s.pages[node].kind.entries, op.key).Found?
    requires s.pages[node].isRoot || N / 2 < |s.pages[node].kind.entries|
    ensures GoodStep(s, busy, op, None,
                     Outcome(DropRecord(s, node, op.key),
                             Some(Answer(LeafGet(s.pages[node].kind.entries, op.key))), next))
  {
    var m := Contents(s);
    DropRecordGood(s, busy, node, op.key);
    ApplyingStep(s, busy, op, DropRecord(s, node, op.key), Answer(Lookup(m, op.key)), next, m, m - {op.key});
  }

  lemma MissGood(s: Store, busy: set<Latch>, op: Op, node: PageId, next: Phase)
    requires (op.Remove? && (next.Returning? || next.Shrinking?)) || (op.Modify? && next.Returning?)
    requires Sound(s) && Valid(s, node) && s.pages[node].kind.Leaf? && Owns(s.pages[node], op.key)
    requires Search(s.pages[node].kind.entries, op.key).Missing?
    ensures GoodStep(s, busy, op, None, Outcome(s, Some(Answer(LeafGet(s.pages[node].kind.entries, op.key))), next))
  {
    var m := Contents(s);
    MissingAtOwner(s, node, op.key);
    ApplyingStep(s, busy, op, s, Answer(Lookup(m, op.key)), next, m, m);
  }

  lemma LatchedVisitGood(s: Store, busy: set<Latch>, op: Op, node: PageId)
    requires Sound(s) && Valid(s, node) && (Structural(op) || op.Modify?) && PageLatch(node) !in busy
    ensures GoodStep(s, busy, op, None, LatchedVisit(s, op, node))
  {
    RoutingIsTotal(s, node);
    assert PageOk(s, node);
    if !RouteOf(s.pages[node], op.key).Here? || !s.pages[node].kind.Leaf? {
      ReadOnlyStep(s, busy, op, None, Starting);
    } else {
      var es := s.pages[node].kind.entries;
      var missing := Search(es, op.key).Missing?;
      if op.Insert? && missing && |es| == N {
        ReadOnlyStep(s, busy, op, None, SplittingRoot);
      } else if op.Insert? || (op.Modify? && !missing) {
        PutGood(s, busy, op, node);
      } else if missing {
        MissGood(s, busy, op, node, Returning);
      } else if !s.pages[node].isRoot && |es| <= N / 2 {
        ReadOnlyStep(s, busy, op, None, Shrinking);
      } else {
        DropGood(s, busy, op, node, Returning);
      }
    }
  }
}
