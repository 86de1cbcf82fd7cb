/** A run in which a scan step skips a record that is stored all through it. It
    starts from an empty tree with two threads, for every page capacity. */
module RaceRuns {
  import opened Pages
  import opened Bounds
  import opened Stores
  import opened SplitSteps
  import opened BorrowSteps
  import opened Abstraction
  import opened LeafSteps
  import opened Protocol
  import opened Linearization
  import opened Systems
  import opened Runs
  import opened ScanRaces

  // ------------------------------------------------------------ growing a run

  /** `r` is a run that ends in `g`. */
  ghost predicate RunTo(r: Run, g: System) {
    IsRun(r) && r.states[|r.states| - 1] == g
  }

  function Longer(r: Run, t: nat, h: System): Run {
    Run(r.states + [h], r.who + [t])
  }

  lemma Extend(r: Run, g: System, t: nat, h: System)
    requires RunTo(r, g) && Next(g, t, h)
    ensures RunTo(Longer(r, t, h), h)
  {
    var q := Longer(r, t, h);
    forall i: nat | i < |q.who| ensures StepsAt(q, i) {
      if i < |r.who| { assert StepsAt(r, i); }
    }
  }

  /** Two threads over a store. */
  function Two(s: Store, a: Thread, b: Thread): System {
    System(s, [a, b])
  }

  predicate Free(t: Thread) {
    HeldBy(t) == {}
  }

  lemma NobodyElse(s: Store, a: Thread, b: Thread)
    ensures Free(b) ==> BusyFor(Two(s, a, b), 0) == {}
    ensures Free(a) ==> BusyFor(Two(s, a, b), 1) == {}
  {
  }

  /** The scanning thread moves while the other holds nothing. */
  lemma FirstMoves(r: Run, s: Store, op: Op, at: Phase, b: Thread, o: Outcome)
    requires RunTo(r, Two(s, Running(op, None, at), b)) && Free(b)
    requires Inv(s) && Knows(s, at) && Suits(op, None, at) && o == Step(s, {}, true, op, None, at)
    ensures var h := Two(o.store, Running(op, o.answer, o.at), b);
            RunTo(Longer(r, 0, h), h)
  {
    var (g, h) := (Two(s, Running(op, None, at), b), Two(o.store, Running(op, o.answer, o.at), b));
    RunsAreSafe(r, |r.states| - 1);
    NobodyElse(s, Running(op, None, at), b);
    assert Works(g, 0, {}, true, h);
    Extend(r, g, 0, h);
  }

  /** The writing thread moves while the other holds nothing. */
  lemma SecondMoves(r: Run, s: Store, a: Thread, op: Op, at: Phase, o: Outcome)
    requires RunTo(r, Two(s, a, Running(op, None, at))) && Free(a)
    requires Inv(s) && Knows(s, at) && Suits(op, None, at) && o == Step(s, {}, true, op, None, at)
    ensures var h := Two(o.store, a, Running(op, o.answer, o.at));
            RunTo(Longer(r, 1, h), h)
  {
    var (g, h) := (Two(s, a, Running(op, None, at)), Two(o.store, a, Running(op, o.answer, o.at)));
    RunsAreSafe(r, |r.states| - 1);
    NobodyElse(s, a, Running(op, None, at));
    assert Works(g, 1, {}, true, h);
    Extend(r, g, 1, h);
  }

  lemma SecondInvokes(r: Run, s: Store, a: Thread, op: Op)
    requires RunTo(r, Two(s, a, Idle))
    ensures RunTo(Longer(r, 1, Two(s, a, Running(op, None, Starting))), Two(s, a, Running(op, None, Starting)))
  {
    assert Invokes(Two(s, a, Idle), 1, op, Two(s, a, Running(op, None, Starting)));
    Extend(r, Two(s, a, Idle), 1, Two(s, a, Running(op, None, Starting)));
  }

  lemma SecondReturns(r: Run, s: Store, a: Thread, op: Op, answer: Option<Result>)
    requires RunTo(r, Two(s, a, Running(op, answer, Returning)))
    ensures RunTo(Longer(r, 1, Two(s, a, Idle)), Two(s, a, Idle))
  {
    assert Returns(Two(s, a, Running(op, answer, Returning)), 1, Two(s, a, Idle));
    Extend(r, Two(s, a, Running(op, answer, Returning)), 1, Two(s, a, Idle));
  }

  // ---------------------------------------------------------- filling one leaf

  /** `n` records with keys from `from` on. */
  function Block(from: Key, n: nat, v: Value): seq<Entry> {
    seq(n, j requires 0 <= j < n => Entry(from + j, v))
  }

  /** A tree of one leaf with the keys below `n`. */
  function LeafStore(n: nat, v: Value): Store {
    Store([Page(true, None, None, None, None, Leaf(Block(0, n, v)), 0, 0.0)], 0, n)
  }

  lemma LeafStoreInv(n: nat, v: Value)
    requires n <= N
    ensures Inv(LeafStore(n, v))
  {
    var s := LeafStore(n, v);
    assert PageOk(s, 0) && OrderOk(s, 0, 0) && GapOk(s, 0, 0);
  }

  /** A key above a whole block is missing, and its place is at the end. */
  lemma MissingAbove(from: Key, n: nat, v: Value)
    ensures Search(Block(from, n, v), from + n) == Missing(n)
    ensures LeafPut(Block(from, n, v), from + n, v) == Block(from, n + 1, v)
  {
    var es := Block(from, n, v);
    assert forall j :: 0 <= j < |es| ==> es[j].key < from + n;
    assert es[..n] + [Entry(from + n, v)] + es[n..] == Block(from, n + 1, v);
  }

  /** From a settled leaf to the exclusive latch of the leaf. */
  lemma ReachRootLeaf(r: Run, n: nat, v: Value) returns (q: Run)
    requires n <= N && RunTo(r, Two(LeafStore(n, v), Idle, Idle))
    ensures RunTo(q, Two(LeafStore(n, v), Idle, Running(Insert(n, v), None, Latching(0))))
  {
    var (s, op) := (LeafStore(n, v), Insert(n, v));
    LeafStoreInv(n, v);
    SecondInvokes(r, s, Idle, op);
    q := Longer(r, 1, Two(s, Idle, Running(op, None, Starting)));
    SecondMoves(q, s, Idle, op, Starting, GoOn(s, Reading(0)));
    q := Longer(q, 1, Two(s, Idle, Running(op, None, Reading(0))));
    SecondMoves(q, s, Idle, op, Reading(0), GoOn(s, Latching(0)));
    q := Longer(q, 1, Two(s, Idle, Running(op, None, Latching(0))));
  }

  /** One more key fits into the leaf. */
  lemma InsertFits(r: Run, n: nat, v: Value) returns (q: Run)
    requires n < N && RunTo(r, Two(LeafStore(n, v), Idle, Idle))
    ensures RunTo(q, Two(LeafStore(n + 1, v), Idle, Idle))
  {
    var (s, t, op) := (LeafStore(n, v), LeafStore(n + 1, v), Insert(n, v));
    q := ReachRootLeaf(r, n, v);
    LeafStoreInv(n, v);
    MissingAbove(0, n, v);
    assert PutRecord(s, 0, n, v) == t;
    SecondMoves(q, s, Idle, op, Latching(0), Return(t, Answer(None)));
    q := Longer(q, 1, Two(t, Idle, Running(op, Some(Answer(None)), Returning)));
    SecondReturns(q, t, Idle, op, Some(Answer(None)));
    q := Longer(q, 1, Two(t, Idle, Idle));
  }

  /** The leaf can be filled key by key. */
  lemma {:induction false} FillLeaf(n: nat, v: Value) returns (q: Run)
    requires n <= N
    ensures RunTo(q, Two(LeafStore(n, v), Idle, Idle))
  {
    if n == 0 {
      q := Run([Two(LeafStore(0, v), Idle, Idle)], []);
      assert Block(0, 0, v) == [];
    } else {
      q := FillLeaf(n - 1, v);
      q := InsertFits(q, n - 1, v);
    }
  }

  // --------------------------------------------------------------- the root split

  /** The full leaf after its split, still without the new record. */
  function SplitStore(v: Value): Store {
    SplitRoot(LeafStore(N, v))
  }

  lemma Halves(v: Value)
    ensures Block(0, N, v)[..N / 2] == Block(0, N / 2, v) && Block(0, N, v)[N / 2..] == Block(N / 2, N - N / 2, v)
  {
  }

  /** A root over two leaves, the left one with the fewest records a leaf can
      have, the right one with `n` records. */
  ghost predicate TwoLeaves(s: Store, n: nat, v: Value) {
    && Inv(s) && |s.pages| == 3 && s.root == 2
    && s.pages[0].kind == Leaf(Block(0, N / 2, v)) && s.pages[0].right == Some(1) && !s.pages[0].isRoot
    && s.pages[0].low == None && s.pages[0].high == Some(N / 2) && s.pages[0].level == 0
    && s.pages[1].kind == Leaf(Block(N / 2, n, v)) && s.pages[1].right == None && !s.pages[1].isRoot
    && s.pages[1].low == Some(N / 2) && s.pages[1].high == None && s.pages[1].level == 0
    && s.pages[2].kind == Internal([N / 2], [0, 1]) && s.pages[2].isRoot
    && s.pages[2].low == None == s.pages[2].high && s.pages[2].right == None && s.pages[2].level == 1
  }

  lemma SplitStoreShape(v: Value)
    ensures TwoLeaves(SplitStore(v), N - N / 2, v)
  {
    LeafStoreInv(N, v);
    SplitRootKeepsInv(LeafStore(N, v));
    Halves(v);
  }

  /** The full leaf sends an insertion to the splitting pass. */
  lemma ReachFullRoot(r: Run, v: Value) returns (q: Run)
    requires RunTo(r, Two(LeafStore(N, v), Idle, Idle))
    ensures RunTo(q, Two(LeafStore(N, v), Idle, Running(Insert(N, v), None, SplittingRootHeld(0))))
  {
    var (s, op) := (LeafStore(N, v), Insert(N, v));
    q := ReachRootLeaf(r, N, v);
    LeafStoreInv(N, v);
    MissingAbove(0, N, v);
    SecondMoves(q, s, Idle, op, Latching(0), GoOn(s, SplittingRoot));
    q := Longer(q, 1, Two(s, Idle, Running(op, None, SplittingRoot)));
    SecondMoves(q, s, Idle, op, SplittingRoot, GoOn(s, SplittingRootHeld(0)));
    q := Longer(q, 1, Two(s, Idle, Running(op, None, SplittingRootHeld(0))));
  }

  lemma RootSplits(r: Run, v: Value) returns (q: Run)
    requires RunTo(r, Two(LeafStore(N, v), Idle, Running(Insert(N, v), None, SplittingRootHeld(0))))
    ensures RunTo(q, Two(SplitStore(v), Idle, Running(Insert(N, v), None, Descending)))
  {
    var (s, t, op) := (LeafStore(N, v), SplitStore(v), Insert(N, v));
    LeafStoreInv(N, v);
    SecondMoves(r, s, Idle, op, SplittingRootHeld(0), GoOn(t, Descending));
    q := Longer(r, 1, Two(t, Idle, Running(op, None, Descending)));
  }

  /** The root splits, and the pass goes on to the right leaf. */
  lemma ReachRightLeaf(r: Run, v: Value) returns (q: Run)
    requires RunTo(r, Two(LeafStore(N, v), Idle, Running(Insert(N, v), None, SplittingRootHeld(0))))
    ensures RunTo(q, Two(SplitStore(v), Idle, Running(Insert(N, v), None, Writing(1))))
  {
    var (t, op) := (SplitStore(v), Insert(N, v));
    q := RootSplits(r, v);
    SplitStoreShape(v);
    SecondMoves(q, t, Idle, op, Descending, GoOn(t, Writing(2)));
    q := Longer(q, 1, Two(t, Idle, Running(op, None, Writing(2))));
    EntersRight(t, N - N / 2, v, op);
    SecondMoves(q, t, Idle, op, Writing(2), GoOn(t, Writing(1)));
    q := Longer(q, 1, Two(t, Idle, Running(op, None, Writing(1))));
  }

  lemma EntersRight(s: Store, n: nat, v: Value, op: Op)
    requires TwoLeaves(s, n, v) && n < N && op == Insert(N, v)
    ensures InsertVisit(s, {}, op, 2) == GoOn(s, Writing(1))
  {
    assert ChildIndex([N / 2], N) == 1;
  }

  /** The tree in which the race happens. */
  function RaceStore(v: Value): Store
    requires Valid(SplitStore(v), 1) && SplitStore(v).pages[1].kind.Leaf?
  {
    PutRecord(SplitStore(v), 1, N, v)
  }

  lemma RaceStoreShape(v: Value)
    ensures TwoLeaves(SplitStore(v), N - N / 2, v) && TwoLeaves(RaceStore(v), N - N / 2 + 1, v)
    ensures InsertVisit(SplitStore(v), {}, Insert(N, v), 1) == Return(RaceStore(v), Answer(None))
  {
    SplitStoreShape(v);
    var s := SplitStore(v);
    MissingAbove(N / 2, N - N / 2, v);
    PutIsUpdate(s, 1, N, v);
    LenIrrelevant(WriteLeaf(s, 1, LeafPut(s.pages[1].kind.entries, N, v)), RaceStore(v));
  }

  /** A run to the tree in which the race happens. */
  lemma ReachRace(v: Value) returns (q: Run)
    ensures TwoLeaves(SplitStore(v), N - N / 2, v) && RunTo(q, Two(RaceStore(v), Idle, Idle))
  {
    q := FillLeaf(N, v);
    q := ReachFullRoot(q, v);
    q := ReachRightLeaf(q, v);
    RaceStoreShape(v);
    SecondMoves(q, SplitStore(v), Idle, Insert(N, v), Writing(1), Return(RaceStore(v), Answer(None)));
    q := Longer(q, 1, Two(RaceStore(v), Idle, Running(Insert(N, v), Some(Answer(None)), Returning)));
    SecondReturns(q, RaceStore(v), Idle, Insert(N, v), Some(Answer(None)));
    q := Longer(q, 1, Two(RaceStore(v), Idle, Idle));
  }

  // -------------------------------------------------------------------- the race

  /** The scan looks for the first key from `N / 2` on. */
  function Look(): Op { Seek(N / 2 - 1, false) }

  /** `q` runs to `g`, the scan of thread 0 has been open since state `i`, and
      the record with key `N / 2` has been stored since then. */
  ghost predicate Racing(q: Run, i: nat, g: System) {
    && RunTo(q, g) && i < |q.states|
    && 0 < |q.states[i].threads| && q.states[i].threads[0] == Running(Look(), None, Starting)
    && forall m: nat | i <= m < |q.states| :: OpenAt(q, 0, Look(), m) && StoredAt(q, N / 2, m)
  }

  lemma RacingGrows(q: Run, i: nat, g: System, t: nat, h: System)
    requires Racing(q, i, g) && RunTo(Longer(q, t, h), h)
    requires 0 < |h.threads| && RunsOpen(h.threads[0], Look()) && Stored(h, N / 2)
    ensures Racing(Longer(q, t, h), i, h)
  {
    var p := Longer(q, t, h);
    forall m: nat | i <= m < |p.states| ensures OpenAt(p, 0, Look(), m) && StoredAt(p, N / 2, m) {
      if m < |q.states| {
        assert OpenAt(q, 0, Look(), m) && StoredAt(q, N / 2, m) && p.states[m] == q.states[m];
      }
    }
  }

  lemma ScanMovesOn(q: Run, i: nat, s: Store, at: Phase, b: Thread, next: Phase) returns (p: Run)
    requires Racing(q, i, Two(s, Running(Look(), None, at), b)) && Free(b) && Stored(Two(s, Idle, Idle), N / 2)
    requires Inv(s) && Knows(s, at) && Suits(Look(), None, at) && GoOn(s, next) == Step(s, {}, true, Look(), None, at)
    ensures Racing(p, i, Two(s, Running(Look(), None, next), b))
  {
    var h := Two(s, Running(Look(), None, next), b);
    FirstMoves(q, s, Look(), at, b, GoOn(s, next));
    RacingGrows(q, i, Two(s, Running(Look(), None, at), b), 0, h);
    p := Longer(q, 0, h);
  }

  lemma RemoverMovesOn(q: Run, i: nat, s: Store, a: Phase, op: Op, at: Phase, t: Store, next: Phase) returns (p: Run)
    requires Racing(q, i, Two(s, Running(Look(), None, a), Running(op, None, at))) && Holds(a) == {}
    requires Inv(s) && Knows(s, at) && Suits(op, None, at) && GoOn(t, next) == Step(s, {}, true, op, None, at)
    requires Stored(Two(t, Idle, Idle), N / 2)
    ensures Racing(p, i, Two(t, Running(Look(), None, a), Running(op, None, next)))
  {
    var h := Two(t, Running(Look(), None, a), Running(op, None, next));
    SecondMoves(q, s, Running(Look(), None, a), op, at, GoOn(t, next));
    RacingGrows(q, i, Two(s, Running(Look(), None, a), Running(op, None, at)), 1, h);
    p := Longer(q, 1, h);
  }

  lemma KeyIsStored(s: Store, n: nat, v: Value)
    requires TwoLeaves(s, n, v) && n > 0
    ensures Stored(Two(s, Idle, Idle), N / 2)
  {
    OwnerDecides(s, 1, N / 2);
    assert s.pages[1].kind.entries[0].key == N / 2;
  }

  /** The scan reads its way to the left leaf and leaves it for the right one. */
  lemma ScanReadsLeft(s: Store, n: nat, v: Value)
    requires TwoLeaves(s, n, v)
    ensures ReadVisit(s, Look(), 2) == GoOn(s, Reading(0)) && ReadVisit(s, Look(), 0) == GoOn(s, Scanning(1))
  {
    assert ChildIndex([N / 2], N / 2 - 1) == 0;
    var es := Block(0, N / 2, v);
    BoundIndexMeaning(es, Excluded(N / 2 - 1));
    assert BoundIndex(es, Excluded(N / 2 - 1)) > |es| - 1;
  }

  lemma ScanBegins(r: Run, s: Store) returns (q: Run, i: nat)
    requires RunTo(r, Two(s, Idle, Idle)) && Stored(Two(s, Idle, Idle), N / 2)
    ensures Racing(q, i, Two(s, Running(Look(), None, Starting), Idle))
  {
    var h := Two(s, Running(Look(), None, Starting), Idle);
    assert Invokes(Two(s, Idle, Idle), 0, Look(), h);
    Extend(r, Two(s, Idle, Idle), 0, h);
    q, i := Longer(r, 0, h), |r.states|;
  }

  lemma ScanLeavesLeft(r: Run, s: Store, n: nat, v: Value) returns (q: Run, i: nat)
    requires TwoLeaves(s, n, v) && n > 0 && RunTo(r, Two(s, Idle, Idle))
    ensures Racing(q, i, Two(s, Running(Look(), None, Scanning(1)), Idle))
  {
    KeyIsStored(s, n, v);
    q, i := ScanBegins(r, s);
    ScanReadsLeft(s, n, v);
    q := ScanMovesOn(q, i, s, Starting, Idle, Reading(2));
    q := ScanMovesOn(q, i, s, Reading(2), Idle, Reading(0));
    q := ScanMovesOn(q, i, s, Reading(0), Idle, Scanning(1));
  }

  /** The remover of key 0 finds its leaf at the minimum. */
  lemma RemoverReads(s: Store, n: nat, v: Value)
    requires TwoLeaves(s, n, v)
    ensures ReadVisit(s, Remove(0), 2) == GoOn(s, Reading(0)) && ReadVisit(s, Remove(0), 0) == GoOn(s, Latching(0))
    ensures LatchedVisit(s, Remove(0), 0) == GoOn(s, Shrinking) && InspectRoot(s, None) == GoOn(s, Descending)
  {
    assert ChildIndex([N / 2], 0) == 0;
    assert Block(0, N / 2, v)[0].key == 0;
  }

  lemma RemoverReachesLeaf(r: Run, i: nat, s: Store, n: nat, v: Value) returns (q: Run)
    requires TwoLeaves(s, n, v) && n > 0 && Racing(r, i, Two(s, Running(Look(), None, Scanning(1)), Idle))
    ensures Racing(q, i, Two(s, Running(Look(), None, Scanning(1)), Running(Remove(0), None, Latching(0))))
  {
    var (a, op) := (Running(Look(), None, Scanning(1)), Remove(0));
    KeyIsStored(s, n, v);
    RemoverReads(s, n, v);
    SecondInvokes(r, s, a, op);
    RacingGrows(r, i, Two(s, a, Idle), 1, Two(s, a, Running(op, None, Starting)));
    q := Longer(r, 1, Two(s, a, Running(op, None, Starting)));
    q := RemoverMovesOn(q, i, s, Scanning(1), op, Starting, s, Reading(2));
    q := RemoverMovesOn(q, i, s, Scanning(1), op, Reading(2), s, Reading(0));
    q := RemoverMovesOn(q, i, s, Scanning(1), op, Reading(0), s, Latching(0));
  }

  lemma RemoverFindsRoot(r: Run, i: nat, s: Store, n: nat, v: Value) returns (q: Run)
    requires TwoLeaves(s, n, v) && n > 0
    requires Racing(r, i, Two(s, Running(Look(), None, Scanning(1)), Running(Remove(0), None, Latching(0))))
    ensures Racing(q, i, Two(s, Running(Look(), None, Scanning(1)), Running(Remove(0), None, ShrinkingSlot(2))))
  {
    KeyIsStored(s, n, v);
    RemoverReads(s, n, v);
    q := RemoverMovesOn(r, i, s, Scanning(1), Remove(0), Latching(0), s, Shrinking);
    q := RemoverMovesOn(q, i, s, Scanning(1), Remove(0), Shrinking, s, ShrinkingSlot(2));
  }

  lemma RemoverReachesRoot(r: Run, i: nat, s: Store, n: nat, v: Value) returns (q: Run)
    requires TwoLeaves(s, n, v) && n > 0
    requires Racing(r, i, Two(s, Running(Look(), None, Scanning(1)), Running(Remove(0), None, Latching(0))))
    ensures Racing(q, i, Two(s, Running(Look(), None, Scanning(1)), Running(Remove(0), None, Writing(2))))
  {
    KeyIsStored(s, n, v);
    q := RemoverFindsRoot(r, i, s, n, v);
    RemoverReads(s, n, v);
    q := RemoverMovesOn(q, i, s, Scanning(1), Remove(0), ShrinkingSlot(2), s, Descending);
    q := RemoverMovesOn(q, i, s, Scanning(1), Remove(0), Descending, s, Writing(2));
  }

  /** The heap after the left leaf has borrowed from the right one. */
  function Lent(s: Store): Store
    requires HasSiblings(s, 2, 0) && CanBorrowRight(FamilyOf(s, 2, 0))
  {
    PutFamily(s, 2, 0, BorrowFromRight(FamilyOf(s, 2, 0), 0))
  }

  lemma RemoverLends(s: Store, v: Value)
    requires TwoLeaves(s, N - N / 2 + 1, v)
    ensures HasSiblings(s, 2, 0) && CanBorrowRight(FamilyOf(s, 2, 0))
    ensures RemoveVisit(s, {}, Remove(0), 2) == GoOn(Lent(s), Writing(0))
  {
    assert ChildIndex([N / 2], 0) == 0;
  }

  lemma LentKeepsMap(s: Store, v: Value)
    requires TwoLeaves(s, N - N / 2 + 1, v)
    ensures HasSiblings(s, 2, 0) && CanBorrowRight(FamilyOf(s, 2, 0))
    ensures Inv(Lent(s)) && Contents(Lent(s)) == Contents(s)
    ensures |Lent(s).pages| == 3 && Lent(s).pages[1].level == 0
    ensures Lent(s).pages[1].kind == Leaf(Block(N / 2, N - N / 2 + 1, v)[1..])
  {
    RemoverLends(s, v);
    BorrowRightKeepsInv(s, 2, 0);
    BorrowRightRecords(s, 2, 0);
  }

  /** The scan goes on in the right leaf and finds the record after the one that
      has moved behind it. */
  lemma ScanAnswers(t: Store, n: nat, v: Value)
    requires Inv(t) && Valid(t, 1) && t.pages[1].level == 0
    requires n >= 2 && t.pages[1].kind == Leaf(Block(N / 2, n, v)[1..])
    ensures ScanVisit(t, Look(), 1) == Return(t, Record(Some(Entry(N / 2 + 1, v))))
  {
    var es := Block(N / 2, n, v)[1..];
    assert es[0] == Entry(N / 2 + 1, v);
    BoundIndexMeaning(es, Excluded(N / 2 - 1));
  }

  /** A finished scan that was racing. */
  lemma RaceEnds(q: Run, i: nat, t: Store, b: Thread, result: Result)
    requires Racing(q, i, Two(t, Running(Look(), None, Scanning(1)), b)) && Free(b) && Stored(Two(t, Idle, Idle), N / 2)
    requires Inv(t) && Knows(t, Scanning(1)) && Return(t, result) == Step(t, {}, true, Look(), None, Scanning(1))
    ensures var h := Two(t, Running(Look(), Some(result), Returning), b);
            && i < |q.states| == |Longer(q, 0, h).states| - 1
            && ScanSpan(Longer(q, 0, h), 0, Look(), result, i, |q.states|)
            && StaysStored(Longer(q, 0, h), N / 2, i, |q.states|)
  {
    var h := Two(t, Running(Look(), Some(result), Returning), b);
    FirstMoves(q, t, Look(), Scanning(1), b, Return(t, result));
    var p := Longer(q, 0, h);
    forall m: nat | i <= m < |q.states| ensures OpenAt(p, 0, Look(), m) && StoredAt(p, N / 2, m) {
      assert OpenAt(q, 0, Look(), m) && StoredAt(q, N / 2, m) && p.states[m] == q.states[m];
    }
    assert StoredAt(p, N / 2, |q.states|);
  }

  lemma LendingStep(s: Store, n: nat, v: Value) returns (t: Store)
    requires n == N - N / 2 + 1 && TwoLeaves(s, n, v)
    ensures RemoveVisit(s, {}, Remove(0), 2) == GoOn(t, Writing(0)) && Stored(Two(t, Idle, Idle), N / 2)
    ensures Inv(t) && Valid(t, 1) && t.pages[1].level == 0 && t.pages[1].kind == Leaf(Block(N / 2, n, v)[1..])
  {
    KeyIsStored(s, n, v);
    RemoverLends(s, v);
    LentKeepsMap(s, v);
    t := Lent(s);
  }

  lemma RaceLends(q: Run, i: nat, s: Store, v: Value, t: Store) returns (r: Run)
    requires Inv(s) && Valid(s, 2) && RemoveVisit(s, {}, Remove(0), 2) == GoOn(t, Writing(0))
    requires Stored(Two(t, Idle, Idle), N / 2)
    requires Racing(q, i, Two(s, Running(Look(), None, Scanning(1)), Running(Remove(0), None, Writing(2))))
    ensures Racing(r, i, Two(t, Running(Look(), None, Scanning(1)), Running(Remove(0), None, Writing(0))))
  {
    r := RemoverMovesOn(q, i, s, Scanning(1), Remove(0), Writing(2), t, Writing(0));
  }

  lemma RaceAnswers(q: Run, i: nat, t: Store, n: nat, v: Value, b: Thread) returns (r: Run, j: nat)
    requires Racing(q, i, Two(t, Running(Look(), None, Scanning(1)), b)) && Free(b)
    requires Inv(t) && Valid(t, 1) && t.pages[1].level == 0 && Stored(Two(t, Idle, Idle), N / 2)
    requires n >= 2 && t.pages[1].kind == Leaf(Block(N / 2, n, v)[1..])
    ensures ScanSpan(r, 0, Look(), Record(Some(Entry(N / 2 + 1, v))), i, j) && StaysStored(r, N / 2, i, j)
  {
    var result := Record(Some(Entry(N / 2 + 1, v)));
    ScanAnswers(t, n, v);
    RaceEnds(q, i, t, b, result);
    r, j := Longer(q, 0, Two(t, Running(Look(), Some(result), Returning), b)), |q.states|;
  }

  lemma BothReach(r: Run, s: Store, n: nat, v: Value) returns (q: Run, i: nat)
    requires TwoLeaves(s, n, v) && n > 0 && RunTo(r, Two(s, Idle, Idle))
    ensures Racing(q, i, Two(s, Running(Look(), None, Scanning(1)), Running(Remove(0), None, Writing(2))))
  {
    q, i := ScanLeavesLeft(r, s, n, v);
    q := RemoverReachesLeaf(q, i, s, n, v);
    q := RemoverReachesRoot(q, i, s, n, v);
  }

  lemma BothFinish(q: Run, i: nat, s: Store, n: nat, v: Value) returns (r: Run, j: nat)
    requires n == N - N / 2 + 1 && TwoLeaves(s, n, v)
    requires Racing(q, i, Two(s, Running(Look(), None, Scanning(1)), Running(Remove(0), None, Writing(2))))
    ensures ScanSpan(r, 0, Look(), Record(Some(Entry(N / 2 + 1, v))), i, j) && StaysStored(r, N / 2, i, j)
  {
    var t := LendingStep(s, n, v);
    r, j := LendThenAnswer(q, i, s, n, v, t);
  }

  lemma LendThenAnswer(q: Run, i: nat, s: Store, n: nat, v: Value, t: Store) returns (r: Run, j: nat)
    requires Inv(s) && Valid(s, 2) && RemoveVisit(s, {}, Remove(0), 2) == GoOn(t, Writing(0))
    requires Inv(t) && Valid(t, 1) && t.pages[1].level == 0 && Stored(Two(t, Idle, Idle), N / 2)
    requires n >= 2 && t.pages[1].kind == Leaf(Block(N / 2, n, v)[1..])
    requires Racing(q, i, Two(s, Running(Look(), None, Scanning(1)), Running(Remove(0), None, Writing(2))))
    ensures ScanSpan(r, 0, Look(), Record(Some(Entry(N / 2 + 1, v))), i, j) && StaysStored(r, N / 2, i, j)
  {
    r := RaceLends(q, i, s, v, t);
    r, j := RaceAnswers(r, i, t, n, v, Running(Remove(0), None, Writing(0)));
  }

  /** For every page capacity there is a run, from an empty tree with two
      threads, in which a scan step skips a record that is in the map in every
      state from its call to its return. */
  lemma ScanCanSkipStoredRecord(v: Value) returns (r: Run, i: nat, j: nat)
    ensures var (op, result) := (Seek(N / 2 - 1, false), Record(Some(Entry(N / 2 + 1, v))));
            && ScanSpan(r, 0, op, result, i, j) && StaysStored(r, N / 2, i, j)
            && AfterStart(BoundOf(op), N / 2) && Skips(result, N / 2)
  {
    r := ReachRace(v);
    RaceStoreShape(v);
    r, i := BothReach(r, RaceStore(v), N - N / 2 + 1, v);
    r, j := BothFinish(r, i, RaceStore(v), N - N / 2 + 1, v);
  }
}
