/** Runs of the whole system: any number of threads over one tree, interleaved
    step by step. Every run is a run of an atomic map, the tree invariant holds
    at every step boundary, and no run deadlocks. */
module Systems {
  import opened Pages
  import opened Stores
  import opened Abstraction
  import opened Protocol
  import opened Linearization
  import opened Refinement

  datatype System = System(store: Store, threads: seq<Thread>)

  function HeldBy(t: Thread): set<Latch> {
    if t.Running? then Holds(t.at) else {}
  }

  /** Latches held by threads other than `t`. */
  ghost function BusyFor(g: System, t: nat): set<Latch> {
    set u: nat, l | u < |g.threads| && u != t && l in HeldBy(g.threads[u]) :: l
  }

  // ------------------------------------------------------------ transitions

  predicate Invokes(g: System, t: nat, op: Op, h: System)
    requires t < |g.threads|
  {
    g.threads[t].Idle? && h == g.(threads := g.threads[t := Running(op, None, Starting)])
  }

  predicate Returns(g: System, t: nat, h: System)
    requires t < |g.threads|
  {
    g.threads[t].Running? && g.threads[t].at.Returning? && h == g.(threads := g.threads[t := Idle])
  }

  /** A running thread takes its next step. The second line makes `Step`
      applicable; it holds in every reachable state and so restricts nothing. */
  ghost predicate Works(g: System, t: nat, taken: set<Latch>, alive: bool, h: System)
    requires t < |g.threads|
  {
    && g.threads[t].Running? && !g.threads[t].at.Returning?
    && ThreadOk(g.store, g.threads[t]) && Sound(g.store)
    && Ready(g.threads[t].at, BusyFor(g, t)) && BusyFor(g, t) <= taken
    && var (op, answer, at) := (g.threads[t].op, g.threads[t].answer, g.threads[t].at);
       var o := Step(g.store, taken, alive, op, answer, at);
       h == System(o.store, g.threads[t := Running(op, o.answer, o.at)])
  }

  /** One step of thread `t`. */
  ghost predicate Next(g: System, t: nat, h: System) {
    t < |g.threads| &&
    (|| (exists op :: Invokes(g, t, op, h))
     || Returns(g, t, h)
     || (exists taken, alive :: Works(g, t, taken, alive, h)))
  }

  ghost predicate Initial(g: System) {
    g.store == EmptyStore() && forall t :: 0 <= t < |g.threads| ==> g.threads[t].Idle?
  }

  // -------------------------------------------------------------- invariant

  ghost predicate ThreadOk(s: Store, t: Thread) {
    t.Running? ==> Knows(s, t.at) && Suits(t.op, t.answer, t.at)
  }

  ghost predicate Exclusive(g: System) {
    forall t, u :: 0 <= t < |g.threads| && 0 <= u < |g.threads| && t != u ==>
      HeldBy(g.threads[t]) !! HeldBy(g.threads[u])
  }

  ghost predicate SystemInv(g: System) {
    && Sound(g.store)
    && (forall t :: 0 <= t < |g.threads| ==> ThreadOk(g.store, g.threads[t]))
    && Exclusive(g)
  }

  /** What a thread knows survives the steps of other threads. */
  lemma KnowledgeIsStable(s: Store, t: Store, busy: set<Latch>, at: Phase)
    requires Inv(s) && Knows(s, at) && Evolves(s, t) && Respects(s, t, busy) && Holds(at) <= busy
    ensures Knows(t, at)
  {
    if at.ShrinkingRoot? { assert PageLatch(at.root) in busy && RootSlot in busy; }
    if at.ShrinkingSlot? || at.SplittingRootHeld? { assert RootSlot in busy; }
    if at.FixingBackHeld? { assert PageLatch(at.page) in busy; }
    if at.UnlinkingJoin? || at.UnlinkingPeek? { assert PageLatch(at.cursor) in busy; }
  }

  /** After a visit to one page no latch is kept. */
  lemma VisitHoldsNothing(s: Store, taken: set<Latch>, op: Op, node: PageId)
    requires Inv(s) && Valid(s, node)
    ensures !op.First? ==> Holds(ReadVisit(s, op, node).at) == {}
    ensures op.Insert? ==> Holds(InsertVisit(s, taken, op, node).at) == {}
    ensures op.Remove? ==> Holds(RemoveVisit(s, taken, op, node).at) == {}
  {
  }

  /** A step keeps at most the latches it had and the one it waited for. */
  lemma StepHolds(s: Store, taken: set<Latch>, alive: bool, op: Op, answer: Option<Result>, at: Phase)
    requires Inv(s) && Knows(s, at) && Suits(op, answer, at)
    ensures var o := Step(s, taken, alive, op, answer, at);
            Holds(o.at) <= Holds(at) + (if Wants(at).Some? then {Wants(at).value} else {})
  {
    if at.Reading? || at.Writing? { VisitHoldsNothing(s, taken, op, at.node); }
  }

  lemma StepKeepsExclusive(g: System, t: nat, next: Thread)
    requires t < |g.threads| && Exclusive(g) && HeldBy(next) !! BusyFor(g, t)
    ensures Exclusive(g.(threads := g.threads[t := next]))
  {
    var h := g.(threads := g.threads[t := next]);
    forall u, v | 0 <= u < |h.threads| && 0 <= v < |h.threads| && u != v
      ensures HeldBy(h.threads[u]) !! HeldBy(h.threads[v])
    {
      if u == t {
        assert forall l :: l in HeldBy(g.threads[v]) ==> l in BusyFor(g, t);
      } else if v == t {
        assert forall l :: l in HeldBy(g.threads[u]) ==> l in BusyFor(g, t);
      }
    }
  }

  lemma OtherThreadsOk(g: System, t: nat, s: Store, u: nat)
    requires SystemInv(g) && t < |g.threads| && u < |g.threads| && u != t
    requires Evolves(g.store, s) && Respects(g.store, s, BusyFor(g, t))
    ensures ThreadOk(s, g.threads[u])
  {
    assert ThreadOk(g.store, g.threads[u]);
    if g.threads[u].Running? {
      assert forall l :: l in HeldBy(g.threads[u]) ==> l in BusyFor(g, t);
      KnowledgeIsStable(g.store, s, BusyFor(g, t), g.threads[u].at);
    }
  }

  lemma WorkerIsOk(g: System, t: nat, taken: set<Latch>, alive: bool, h: System)
    requires SystemInv(g) && t < |g.threads| && Works(g, t, taken, alive, h)
    ensures Sound(h.store) && ThreadOk(h.store, h.threads[t])
    ensures Evolves(g.store, h.store) && Respects(g.store, h.store, BusyFor(g, t))
    ensures HeldBy(h.threads[t]) !! BusyFor(g, t)
  {
    var (op, answer, at) := (g.threads[t].op, g.threads[t].answer, g.threads[t].at);
    StepGood(g.store, BusyFor(g, t), taken, alive, op, answer, at);
    StepHolds(g.store, taken, alive, op, answer, at);
  }

  lemma WorkKeepsInv(g: System, t: nat, taken: set<Latch>, alive: bool, h: System)
    requires SystemInv(g) && t < |g.threads| && Works(g, t, taken, alive, h)
    ensures SystemInv(h)
  {
    WorkerIsOk(g, t, taken, alive, h);
    StepKeepsExclusive(g, t, h.threads[t]);
    forall u | 0 <= u < |h.threads| ensures ThreadOk(h.store, h.threads[u]) {
      if u != t { OtherThreadsOk(g, t, h.store, u); }
    }
  }

  /** Invoking or returning touches neither the heap nor any latch. */
  lemma UnheldMoveKeepsInv(g: System, t: nat, next: Thread, h: System)
    requires SystemInv(g) && t < |g.threads| && h == g.(threads := g.threads[t := next])
    requires ThreadOk(g.store, next) && HeldBy(next) == {}
    ensures SystemInv(h)
  {
    StepKeepsExclusive(g, t, next);
    forall u | 0 <= u < |h.threads| ensures ThreadOk(h.store, h.threads[u]) {
      assert ThreadOk(g.store, g.threads[u]);
    }
  }

  lemma NewThreadIsOk(s: Store, op: Op)
    ensures ThreadOk(s, Running(op, None, Starting)) && HeldBy(Running(op, None, Starting)) == {}
  {
  }

  lemma InvokeKeepsInv(g: System, t: nat, op: Op, h: System)
    requires SystemInv(g) && t < |g.threads| && Invokes(g, t, op, h)
    ensures SystemInv(h)
  {
    NewThreadIsOk(g.store, op);
    UnheldMoveKeepsInv(g, t, Running(op, None, Starting), h);
  }

  lemma ReturnKeepsInv(g: System, t: nat, h: System)
    requires SystemInv(g) && t < |g.threads| && Returns(g, t, h)
    ensures SystemInv(h)
  {
    UnheldMoveKeepsInv(g, t, Idle, h);
  }

  /** The invariant holds at every step boundary. */
  lemma NextKeepsInv(g: System, t: nat, h: System)
    requires SystemInv(g) && Next(g, t, h)
    ensures SystemInv(h)
  {
    if op :| Invokes(g, t, op, h) {
      InvokeKeepsInv(g, t, op, h);
    } else if Returns(g, t, h) {
      ReturnKeepsInv(g, t, h);
    } else {
      var taken, alive :| Works(g, t, taken, alive, h);
      WorkKeepsInv(g, t, taken, alive, h);
    }
  }

  // ------------------------------------------------------------ refinement

  /** The specification: an atomic map and the status of each thread. */
  datatype Spec = Spec(contents: map<Key, Value>, threads: seq<Status>)

  ghost function SpecOf(g: System): Spec
    requires Inv(g.store)
  {
    Spec(Contents(g.store), seq(|g.threads|, t requires 0 <= t < |g.threads| => StatusOf(g.threads[t])))
  }

  /** Thread `t` takes one step of the specification; the others stand still. */
  ghost predicate SpecNext(a: Spec, t: nat, b: Spec) {
    && t < |a.threads| == |b.threads|
    && (forall u :: 0 <= u < |a.threads| && u != t ==> a.threads[u] == b.threads[u])
    && SpecStep(a.contents, a.threads[t], b.contents, b.threads[t])
  }

  /** Each step of the system is a step of the atomic map. */
  lemma NextRefinesMap(g: System, t: nat, h: System)
    requires SystemInv(g) && Next(g, t, h)
    ensures SystemInv(h) && SpecNext(SpecOf(g), t, SpecOf(h))
  {
    NextKeepsInv(g, t, h);
    assert ThreadOk(g.store, g.threads[t]);
    if taken, alive :| Works(g, t, taken, alive, h) {
      StepGood(g.store, BusyFor(g, t), taken, alive, g.threads[t].op, g.threads[t].answer, g.threads[t].at);
    }
  }
}
