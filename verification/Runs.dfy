/** Theorems about whole runs: safety at every step boundary, linearizability
    with exactly one effect per operation, and freedom from deadlock. */
module Runs {
  import opened Pages
  import opened Stores
  import opened Ownership
  import opened Abstraction
  import opened Traversal
  import opened Protocol
  import opened Linearization
  import opened Refinement
  import opened Backlinks
  import opened Systems
  import opened Walks

  /** A finite run: `who[i]` is the thread that takes step `i`. */
  datatype Run = Run(states: seq<System>, who: seq<nat>)

  ghost predicate StepsAt(r: Run, i: nat)
    requires i < |r.who| < |r.states|
  {
    Next(r.states[i], r.who[i], r.states[i + 1])
  }

  ghost predicate IsRun(r: Run) {
    && |r.states| == |r.who| + 1
    && Initial(r.states[0])
    && forall i: nat | i < |r.who| :: StepsAt(r, i)
  }

  lemma StartsSafe(g: System)
    requires Initial(g)
    ensures SystemInv(g)
  {
    EmptyStoreSound();
  }

  lemma NextKeepsThreads(g: System, t: nat, h: System)
    requires Next(g, t, h)
    ensures |h.threads| == |g.threads|
  {
  }

  ghost predicate Carries(gs: seq<System>, inv: System -> bool, i: nat)
    requires i + 1 < |gs|
  {
    inv(gs[i]) ==> inv(gs[i + 1])
  }

  /** What holds at first and is carried over each step holds throughout. */
  lemma {:induction false} HoldsAlong(gs: seq<System>, inv: System -> bool, i: nat)
    requires i < |gs| && inv(gs[0]) && forall m: nat | m + 1 < |gs| :: Carries(gs, inv, m)
    ensures inv(gs[i])
    decreases i
  {
    if i > 0 {
      HoldsAlong(gs, inv, i - 1);
      assert Carries(gs, inv, i - 1);
    }
  }

  lemma StepIsSafe(r: Run, i: nat)
    requires i < |r.who| < |r.states| && StepsAt(r, i) && SystemInv(r.states[i])
    ensures SystemInv(r.states[i + 1])
  {
    NextKeepsInv(r.states[i], r.who[i], r.states[i + 1]);
  }

  /** Every reachable state satisfies the tree and thread invariants. */
  lemma RunsAreSafe(r: Run, i: nat)
    requires IsRun(r) && i < |r.states|
    ensures SystemInv(r.states[i])
  {
    var inv := (g: System) => SystemInv(g);
    StartsSafe(r.states[0]);
    forall m: nat | m + 1 < |r.states| ensures Carries(r.states, inv, m) {
      if SystemInv(r.states[m]) { StepIsSafe(r, m); }
    }
    HoldsAlong(r.states, inv, i);
  }

  ghost predicate BackedUp(g: System) {
    Inv(g.store) && BacksOk(g.store)
  }

  lemma StepStaysBackedUp(r: Run, i: nat)
    requires i < |r.who| < |r.states| && StepsAt(r, i) && SystemInv(r.states[i]) && BackedUp(r.states[i])
    ensures BackedUp(r.states[i + 1])
  {
    var (g, t, h) := (r.states[i], r.who[i], r.states[i + 1]);
    if taken, alive :| Works(g, t, taken, alive, h) {
      WorkStaysBackedUp(g, t, taken, alive, h);
    } else {
      assert h.store == g.store;
    }
  }

  lemma WorkStaysBackedUp(g: System, t: nat, taken: set<Latch>, alive: bool, h: System)
    requires SystemInv(g) && t < |g.threads| && Works(g, t, taken, alive, h) && BackedUp(g)
    ensures BackedUp(h)
  {
    var (op, answer, at) := (g.threads[t].op, g.threads[t].answer, g.threads[t].at);
    StepGood(g.store, BusyFor(g, t), taken, alive, op, answer, at);
    StepKeepsBacks(g.store, taken, alive, op, answer, at);
  }

  /** In every reachable heap, a back-link leads left of all that forwards. */
  lemma RunsKeepBacks(r: Run, i: nat)
    requires IsRun(r) && i < |r.states|
    ensures SystemInv(r.states[i]) && BackedUp(r.states[i])
  {
    var inv := (g: System) => SystemInv(g) && BackedUp(g);
    StartsSafe(r.states[0]);
    forall m: nat | m + 1 < |r.states| ensures Carries(r.states, inv, m) {
      if inv(r.states[m]) {
        StepIsSafe(r, m);
        StepStaysBackedUp(r, m);
      }
    }
    HoldsAlong(r.states, inv, i);
  }

  lemma RepairIsKnown(s: Store, at: Phase)
    requires Knows(s, at) && at.Unlinking?
    ensures RepairOk(s, at.repair)
  {
  }

  /** Whenever a thread is about to repair the chain after a merge, the repair
      run on its own would come to its end, whatever has been freed. */
  lemma RepairsComeOut(r: Run, i: nat, t: nat, freed: set<PageId>)
    requires IsRun(r) && i < |r.states| && t < |r.states[i].threads|
    requires r.states[i].threads[t].Running? && r.states[i].threads[t].at.Unlinking?
    ensures var (s, repair) := (r.states[i].store, r.states[i].threads[t].at.repair);
            Inv(s) && RepairOk(s, repair) && ComesOut(s, freed, repair)
  {
    RunsKeepBacks(r, i);
    assert ThreadOk(r.states[i].store, r.states[i].threads[t]);
    RepairIsKnown(r.states[i].store, r.states[i].threads[t].at);
    RepairComesOut(r.states[i].store, freed, r.states[i].threads[t].at.repair);
  }

  /** No step creates or removes a thread. */
  lemma ThreadsStay(r: Run, i: nat)
    requires IsRun(r) && i < |r.states|
    ensures |r.states[i].threads| == |r.states[0].threads|
  {
    var n := |r.states[0].threads|;
    var inv := (g: System) => |g.threads| == n;
    forall m: nat | m + 1 < |r.states| ensures Carries(r.states, inv, m) {
      assert StepsAt(r, m);
      NextKeepsThreads(r.states[m], r.who[m], r.states[m + 1]);
    }
    HoldsAlong(r.states, inv, i);
  }

  /** A run of the atomic map. */
  ghost predicate IsSpecRun(specs: seq<Spec>, who: seq<nat>) {
    && |specs| == |who| + 1
    && specs[0].contents == map[] && (forall t :: 0 <= t < |specs[0].threads| ==> specs[0].threads[t].Free?)
    && forall i :: 0 <= i < |who| ==> SpecNext(specs[i], who[i], specs[i + 1])
  }

  ghost predicate AbstractsAt(r: Run, specs: seq<Spec>, i: nat)
    requires i < |specs| == |r.states|
  {
    Inv(r.states[i].store) && specs[i] == SpecOf(r.states[i])
  }

  ghost predicate Abstracts(r: Run, specs: seq<Spec>) {
    && |specs| == |r.states|
    && forall i: nat | i < |specs| :: AbstractsAt(r, specs, i)
  }

  lemma RunStepRefines(r: Run, i: nat)
    requires IsRun(r) && i < |r.who|
    ensures SystemInv(r.states[i]) && SystemInv(r.states[i + 1])
    ensures SpecNext(SpecOf(r.states[i]), r.who[i], SpecOf(r.states[i + 1]))
  {
    assert StepsAt(r, i);
    RunsAreSafe(r, i);
    NextRefinesMap(r.states[i], r.who[i], r.states[i + 1]);
  }

  lemma StartsEmpty(g: System)
    requires Initial(g)
    ensures Inv(g.store) && SpecOf(g).contents == map[]
    ensures forall t :: 0 <= t < |SpecOf(g).threads| ==> SpecOf(g).threads[t].Free?
  {
  }

  lemma SpecsOfRun(r: Run) returns (specs: seq<Spec>)
    requires IsRun(r)
    ensures Abstracts(r, specs)
  {
    forall i | 0 <= i < |r.states| ensures Inv(r.states[i].store) { RunsAreSafe(r, i); }
    specs := seq(|r.states|, i requires 0 <= i < |r.states| && Inv(r.states[i].store) => SpecOf(r.states[i]));
  }

  /** Every run of the tree is a run of an atomic ordered map, step by step. */
  lemma RunsRefineMap(r: Run) returns (specs: seq<Spec>)
    requires IsRun(r)
    ensures Abstracts(r, specs) && IsSpecRun(specs, r.who)
  {
    specs := SpecsOfRun(r);
    StartsEmpty(r.states[0]);
    assert AbstractsAt(r, specs, 0);
    forall i | 0 <= i < |r.who| ensures SpecNext(specs[i], r.who[i], specs[i + 1]) {
      assert AbstractsAt(r, specs, i) && AbstractsAt(r, specs, i + 1);
      RunStepRefines(r, i);
    }
  }

  // ------------------------------------------------------------ exactly once

  /** Step `m` is the one moment at which thread `t` applies `op`. */
  ghost predicate AppliesAt(specs: seq<Spec>, who: seq<nat>, t: nat, op: Op, result: Result, m: nat)
    requires IsSpecRun(specs, who) && m < |who|
  {
    && t < |specs[m].threads| == |specs[m + 1].threads|
    && specs[m].threads[t] == Pending(op) && specs[m + 1].threads[t] == Applied(op, result)
    && Effect(op, specs[m].contents, specs[m + 1].contents, result)
  }

  lemma {:induction false} ThreadCountConstant(specs: seq<Spec>, who: seq<nat>, i: nat)
    requires IsSpecRun(specs, who) && i < |specs|
    ensures |specs[i].threads| == |specs[0].threads|
  {
    if i > 0 {
      ThreadCountConstant(specs, who, i - 1);
      assert SpecNext(specs[i - 1], who[i - 1], specs[i]);
    }
  }

  /** Status `x` of a thread may be followed by status `y`. */
  predicate Follows(x: Status, y: Status) {
    || x == y
    || (x.Free? && y.Pending?)
    || (x.Pending? && y.Applied? && x.op == y.op)
    || (x.Applied? && y.Free?)
  }

  lemma OneStepFollows(specs: seq<Spec>, who: seq<nat>, t: nat, i: nat)
    requires IsSpecRun(specs, who) && i < |who| && t < |specs[0].threads|
    ensures |specs[i].threads| == |specs[i + 1].threads| == |specs[0].threads|
    ensures Follows(specs[i].threads[t], specs[i + 1].threads[t])
    ensures specs[i].threads[t].Pending? && specs[i + 1].threads[t].Applied? ==>
              AppliesAt(specs, who, t, specs[i].threads[t].op, specs[i + 1].threads[t].result, i)
  {
    ThreadCountConstant(specs, who, i);
    ThreadCountConstant(specs, who, i + 1);
    assert SpecNext(specs[i], who[i], specs[i + 1]);
  }

  /** While a thread is not back to idle, its operation stays the same and its
      answer, once settled, never changes. */
  ghost predicate BusyThroughout(specs: seq<Spec>, t: nat, i: nat, j: nat) {
    forall k :: i <= k <= j && k < |specs| && t < |specs[k].threads| ==> !specs[k].threads[t].Free?
  }

  lemma {:induction false} SettledStaysSettled(specs: seq<Spec>, who: seq<nat>, t: nat, i: nat, j: nat)
    requires IsSpecRun(specs, who) && i <= j < |specs| && t < |specs[0].threads|
    requires BusyThroughout(specs, t, i, j)
    ensures |specs[i].threads| == |specs[j].threads| == |specs[0].threads|
    ensures specs[i].threads[t].Applied? ==> specs[j].threads[t] == specs[i].threads[t]
    ensures specs[j].threads[t].Pending? ==> specs[i].threads[t] == specs[j].threads[t]
  {
    ThreadCountConstant(specs, who, i);
    if i < j {
      SettledStaysSettled(specs, who, t, i, j - 1);
      OneStepFollows(specs, who, t, j - 1);
    }
  }

  /** A thread that never idles in between applies at most one operation. */
  lemma AppliesAtMostOnce(specs: seq<Spec>, who: seq<nat>, t: nat, i: nat, j: nat,
                          n: nat, x: Op, y: Result, m: nat, x': Op, y': Result)
    requires IsSpecRun(specs, who) && i <= n <= m < j < |specs| && t < |specs[0].threads|
    requires BusyThroughout(specs, t, i, j)
    requires AppliesAt(specs, who, t, x, y, n) && AppliesAt(specs, who, t, x', y', m)
    ensures n == m
  {
    if n < m { SettledStaysSettled(specs, who, t, n + 1, m); }
  }

  /** The step at which a pending operation was applied. */
  lemma {:induction false} AppliedSometime(specs: seq<Spec>, who: seq<nat>, t: nat, op: Op, result: Result, i: nat,
                                           j: nat)
    returns (m: nat)
    requires IsSpecRun(specs, who) && i < j < |specs| && t < |specs[0].threads|
    requires BusyThroughout(specs, t, i, j)
    requires |specs[i].threads| == |specs[j].threads| == |specs[0].threads|
    requires specs[i].threads[t] == Pending(op) && specs[j].threads[t] == Applied(op, result)
    ensures i <= m < j && AppliesAt(specs, who, t, op, result, m)
  {
    ThreadCountConstant(specs, who, j - 1);
    OneStepFollows(specs, who, t, j - 1);
    if specs[j - 1].threads[t].Pending? {
      m := j - 1;
      SettledStaysSettled(specs, who, t, i, j - 1);
    } else {
      m := AppliedSometime(specs, who, t, op, result, i, j - 1);
    }
  }

  lemma SpecAppliedOnce(specs: seq<Spec>, who: seq<nat>, t: nat, op: Op, result: Result, i: nat, j: nat)
    returns (m: nat)
    requires IsSpecRun(specs, who) && i < j < |specs| && t < |specs[0].threads|
    requires BusyThroughout(specs, t, i, j)
    requires |specs[i].threads| == |specs[j].threads| == |specs[0].threads|
    requires specs[i].threads[t] == Pending(op) && specs[j].threads[t] == Applied(op, result)
    ensures i <= m < j && AppliesAt(specs, who, t, op, result, m)
    ensures forall n: nat, x: Op, y: Result :: i <= n < j && AppliesAt(specs, who, t, x, y, n) ==> n == m
  {
    m := AppliedSometime(specs, who, t, op, result, i, j);
    forall n: nat, x: Op, y: Result | i <= n < j && AppliesAt(specs, who, t, x, y, n) ensures n == m {
      if n <= m { AppliesAtMostOnce(specs, who, t, i, j, n, x, y, m, op, result); }
      else { AppliesAtMostOnce(specs, who, t, i, j, m, op, result, n, x, y); }
    }
  }

  /** At step `m` thread `t` applies `op` to the map and settles its answer. */
  ghost predicate TakesEffect(r: Run, t: nat, op: Op, result: Result, m: nat)
    requires m < |r.who| < |r.states|
  {
    var (g, h) := (r.states[m], r.states[m + 1]);
    && t < |g.threads| == |h.threads| && Inv(g.store) && Inv(h.store)
    && StatusOf(g.threads[t]) == Pending(op) && StatusOf(h.threads[t]) == Applied(op, result)
    && Effect(op, Contents(g.store), Contents(h.store), result)
  }

  predicate BusyAt(r: Run, t: nat, m: nat)
    requires m < |r.states|
  {
    t < |r.states[m].threads| && r.states[m].threads[t].Running?
  }

  /** Thread `t` runs one call of `op` between states `i` and `j`. */
  ghost predicate CallSpan(r: Run, t: nat, op: Op, result: Result, i: nat, j: nat) {
    && IsRun(r) && i < j < |r.states|
    && t < |r.states[i].threads| && r.states[i].threads[t] == Running(op, None, Starting)
    && t < |r.states[j].threads| && r.states[j].threads[t] == Running(op, Some(result), Returning)
    && forall m: nat | i <= m <= j :: BusyAt(r, t, m)
  }

  lemma SpecAt(r: Run, specs: seq<Spec>, t: nat, m: nat)
    requires IsRun(r) && Abstracts(r, specs) && m < |specs| && t < |r.states[m].threads|
    ensures |specs[m].threads| == |r.states[m].threads| == |r.states[0].threads| == |specs[0].threads|
    ensures specs[m].threads[t] == StatusOf(r.states[m].threads[t])
    ensures Inv(r.states[m].store) && specs[m].contents == Contents(r.states[m].store)
  {
    ThreadsStay(r, m);
    assert AbstractsAt(r, specs, m) && AbstractsAt(r, specs, 0);
  }

  /** A call of the tree, seen by the specification. */
  lemma CallInSpec(r: Run, specs: seq<Spec>, t: nat, op: Op, result: Result, i: nat, j: nat)
    requires CallSpan(r, t, op, result, i, j) && Abstracts(r, specs)
    ensures t < |specs[0].threads| && |specs[i].threads| == |specs[j].threads| == |specs[0].threads|
    ensures BusyThroughout(specs, t, i, j)
    ensures specs[i].threads[t] == Pending(op) && specs[j].threads[t] == Applied(op, result)
  {
    SpecAt(r, specs, t, i);
    SpecAt(r, specs, t, j);
    forall k: nat | i <= k <= j && k < |specs| && t < |specs[k].threads| ensures !specs[k].threads[t].Free? {
      assert BusyAt(r, t, k);
      SpecAt(r, specs, t, k);
    }
  }

  lemma EffectInSpec(r: Run, specs: seq<Spec>, t: nat, op: Op, result: Result, m: nat)
    requires IsRun(r) && Abstracts(r, specs) && IsSpecRun(specs, r.who) && m < |r.who|
    requires t < |r.states[0].threads|
    ensures TakesEffect(r, t, op, result, m) <==> AppliesAt(specs, r.who, t, op, result, m)
  {
    ThreadsStay(r, m);
    ThreadsStay(r, m + 1);
    SpecAt(r, specs, t, m);
    SpecAt(r, specs, t, m + 1);
  }

  /** A call that has come to its return took effect at exactly one step since
      it was made, with exactly the answer it returns, however often it retried. */
  lemma AppliedExactlyOnce(r: Run, t: nat, op: Op, result: Result, i: nat, j: nat) returns (m: nat)
    requires CallSpan(r, t, op, result, i, j)
    ensures j <= |r.who| < |r.states| && i <= m < j && TakesEffect(r, t, op, result, m)
    ensures forall n: nat, x: Op, y: Result :: i <= n < j && TakesEffect(r, t, x, y, n) ==> n == m
  {
    var specs := RunsRefineMap(r);
    CallInSpec(r, specs, t, op, result, i, j);
    m := SpecAppliedOnce(specs, r.who, t, op, result, i, j);
    SpecAt(r, specs, t, i);
    EffectInSpec(r, specs, t, op, result, m);
    forall n: nat, x: Op, y: Result | i <= n < j && TakesEffect(r, t, x, y, n) ensures n == m {
      EffectInSpec(r, specs, t, x, y, n);
    }
  }

  ghost predicate Stored(g: System, k: Key) {
    Inv(g.store) && k in Contents(g.store)
  }

  ghost predicate StoredAt(r: Run, k: Key, m: nat)
    requires m < |r.states|
  {
    Stored(r.states[m], k)
  }

  /** The key is stored in every state from `i` to `j`. */
  ghost predicate StaysStored(r: Run, k: Key, i: nat, j: nat)
    requires j < |r.states|
  {
    forall m: nat | i <= m <= j :: StoredAt(r, k, m)
  }

  /** A key that is in the map all through a lookup is found, however many
      splits, merges and stale pages the lookup runs into, with a value the map
      held during the lookup. */
  lemma PresentKeyIsFound(r: Run, t: nat, k: Key, result: Result, i: nat, j: nat) returns (m: nat)
    requires CallSpan(r, t, Get(k), result, i, j) && StaysStored(r, k, i, j)
    ensures i <= m < j && Stored(r.states[m], k) && result == Answer(Some(Contents(r.states[m].store)[k]))
  {
    m := AppliedExactlyOnce(r, t, Get(k), result, i, j);
    assert StoredAt(r, k, m);
  }

  // -------------------------------------------------------- reachable heaps

  lemma StepEvolves(r: Run, i: nat)
    requires IsRun(r) && i < |r.who|
    ensures Evolves(r.states[i].store, r.states[i + 1].store)
  {
    var (g, t, h) := (r.states[i], r.who[i], r.states[i + 1]);
    RunsAreSafe(r, i);
    assert StepsAt(r, i);
    if taken, alive :| Works(g, t, taken, alive, h) {
      StepGood(g.store, BusyFor(g, t), taken, alive, g.threads[t].op, g.threads[t].answer, g.threads[t].at);
    }
  }

  lemma EvolvesOn(a: Store, b: Store, c: Store)
    requires Evolves(a, b) && Evolves(b, c)
    ensures Evolves(a, c)
  {
  }

  ghost predicate EvolvesAt(ss: seq<Store>, i: nat)
    requires 0 < i < |ss|
  {
    Evolves(ss[i - 1], ss[i])
  }

  lemma {:induction false} EvolvesAlong(ss: seq<Store>, i: nat, j: nat)
    requires i <= j < |ss| && forall m: nat | 0 < m < |ss| :: EvolvesAt(ss, m)
    ensures Evolves(ss[i], ss[j])
    decreases j
  {
    if i < j {
      EvolvesAlong(ss, i, j - 1);
      assert EvolvesAt(ss, j);
      EvolvesOn(ss[i], ss[j - 1], ss[j]);
    }
  }

  /** Pages stay where they were allocated, and a retired page forwards to the
      same page for ever. */
  lemma HeapEvolves(r: Run, i: nat, j: nat)
    requires IsRun(r) && i <= j < |r.states|
    ensures Evolves(r.states[i].store, r.states[j].store)
  {
    var ss := seq(|r.states|, m requires 0 <= m < |r.states| => r.states[m].store);
    forall m: nat | 0 < m < |ss| ensures EvolvesAt(ss, m) { StepEvolves(r, m - 1); }
    EvolvesAlong(ss, i, j);
  }

  /** A handle obtained at any time in a run still leads, in any later heap, to
      a restart or to the one leaf that owns the key, which is the leaf that a
      fresh descent finds; and links of active pages skip nothing. */
  lemma StaleHandlesWork(r: Run, i: nat, j: nat, p: PageId, k: Key)
    requires IsRun(r) && i <= j < |r.states| && Valid(r.states[i].store, p)
    ensures var s := r.states[j].store;
            && Inv(s) && Valid(s, p)
            && (Traverse(s, p, k).Some? ==> Traverse(s, p, k) == Traverse(s, s.root, k))
            && Traverse(s, s.root, k).Some? && Straight(s, s.root, k)
  {
    RunsAreSafe(r, j);
    HeapEvolves(r, i, j);
    SearchesAgree(r.states[j].store, p, k);
  }

  /** The validator counts exactly `len` records, unless the root has lost its
      last separator. */
  ghost predicate Validates(s: Store) {
    && Inv(s) && s.len >= 0
    && ValidateNode(s, s.root, true, 1, None, 0)
       == if Hollow(s) then Rejected("empty internal root was not collapsed")
          else Accepted(Some(1 + s.pages[s.root].level), s.len)
  }

  lemma SoundTreesValidate(s: Store)
    requires Sound(s)
    ensures Validates(s)
  {
    ValidatorAccepts(s);
  }

  /** At every step boundary the parent tree passes the validator, which counts
      exactly `len` records; only a transient empty root is turned down. */
  lemma ReachableTreesValidate(r: Run, i: nat)
    requires IsRun(r) && i < |r.states|
    ensures Validates(r.states[i].store)
  {
    RunsAreSafe(r, i);
    SoundTreesValidate(r.states[i].store);
  }

  // ---------------------------------------------------------------- progress

  /** Root slot first, then pages top-down, then left to right. */
  predicate LatchBefore(s: Store, a: Latch, b: Latch) {
    match (a, b)
    case (RootSlot, PageLatch(_)) => true
    case (PageLatch(p), PageLatch(q)) => Valid(s, p) && Valid(s, q) && Precedes(s, p, q)
    case (_, RootSlot) => false
  }

  /** A thread only waits for latches that come after all those it holds. */
  lemma WaitsForward(s: Store, t: Thread, h: Latch)
    requires Inv(s) && ThreadOk(s, t) && t.Running? && h in Holds(t.at) && Wants(t.at).Some?
    ensures LatchBefore(s, h, Wants(t.at).value)
  {
    match t.at {
      case ShrinkingRoot(root, child) => ChildInside(s, root, 0);
      case FixingBackHeld(_, page, _) => assert PageOk(s, page);
      case UnlinkingJoin(_, _, cursor, _) => assert PageOk(s, cursor);
      case UnlinkingPeek(_, _, cursor, _) => assert PageOk(s, cursor);
      case _ =>
    }
  }

  /** The latch a thread waits for. */
  function Wanted(g: System, t: nat): Option<Latch>
    requires t < |g.threads|
  {
    if g.threads[t].Running? then Wants(g.threads[t].at) else None
  }

  /** Threads each of which waits for a latch that the next one holds. */
  ghost predicate WaitChain(g: System, ts: seq<nat>) {
    && (forall i :: 0 <= i < |ts| ==> ts[i] < |g.threads| && Wanted(g, ts[i]).Some?)
    && (forall i :: 0 < i < |ts| ==> Wanted(g, ts[i - 1]).value in HeldBy(g.threads[ts[i]]))
  }

  lemma HolderWaitsForward(g: System, t: nat, h: Latch)
    requires SystemInv(g) && t < |g.threads| && Wanted(g, t).Some? && h in HeldBy(g.threads[t])
    ensures LatchBefore(g.store, h, Wanted(g, t).value)
  {
    assert ThreadOk(g.store, g.threads[t]);
    WaitsForward(g.store, g.threads[t], h);
  }

  lemma LatchOrder(s: Store, a: Latch, b: Latch, c: Latch)
    requires LatchBefore(s, a, b)
    ensures LatchBefore(s, b, c) ==> LatchBefore(s, a, c)
    ensures !LatchBefore(s, b, a)
  {
  }

  lemma {:induction false} WaitingAdvances(g: System, ts: seq<nat>, m: nat)
    requires SystemInv(g) && WaitChain(g, ts) && 0 < m < |ts|
    ensures LatchBefore(g.store, Wanted(g, ts[0]).value, Wanted(g, ts[m]).value)
  {
    HolderWaitsForward(g, ts[m], Wanted(g, ts[m - 1]).value);
    if m > 1 {
      WaitingAdvances(g, ts, m - 1);
      LatchOrder(g.store, Wanted(g, ts[0]).value, Wanted(g, ts[m - 1]).value, Wanted(g, ts[m]).value);
    }
  }

  /** Waiting never closes a circle: along threads each waiting for a latch the
      next one holds, the latches strictly advance, so the first thread holds
      nothing the last one waits for. */
  lemma WaitingIsAcyclic(g: System, ts: seq<nat>)
    requires SystemInv(g) && |ts| > 1 && WaitChain(g, ts)
    ensures LatchBefore(g.store, Wanted(g, ts[0]).value, Wanted(g, ts[|ts| - 1]).value)
    ensures Wanted(g, ts[|ts| - 1]).value !in HeldBy(g.threads[ts[0]])
  {
    var last := Wanted(g, ts[|ts| - 1]).value;
    WaitingAdvances(g, ts, |ts| - 1);
    if last in HeldBy(g.threads[ts[0]]) {
      HolderWaitsForward(g, ts[0], last);
      LatchOrder(g.store, Wanted(g, ts[0]).value, last, Wanted(g, ts[0]).value);
    }
  }

  /** A latch is above a page if it can still be waited for from there. */
  ghost function Ahead(s: Store, l: Latch): (int, int, set<PageId>) {
    match l
    case RootSlot => (1, 0, {})
    case PageLatch(p) => if Valid(s, p) then (0, s.pages[p].level, Above(s, p)) else (0, 0, {})
  }

  /** A thread can take its next step. */
  ghost predicate CanMove(g: System, t: nat) {
    t < |g.threads| && g.threads[t].Running? && (g.threads[t].at.Returning? || Ready(g.threads[t].at, BusyFor(g, t)))
  }

  lemma {:induction false} FollowWaiting(g: System, t: nat) returns (u: nat)
    requires SystemInv(g) && t < |g.threads| && g.threads[t].Running?
    ensures CanMove(g, u)
    decreases if Wants(g.threads[t].at).Some? then 1 else 0,
              if Wants(g.threads[t].at).Some? then Ahead(g.store, Wants(g.threads[t].at).value).0 else 0,
              if Wants(g.threads[t].at).Some? then Ahead(g.store, Wants(g.threads[t].at).value).1 else 0,
              if Wants(g.threads[t].at).Some? then Ahead(g.store, Wants(g.threads[t].at).value).2 else {}
  {
    var at := g.threads[t].at;
    HoldsAreMine(g, t);
    if Ready(at, BusyFor(g, t)) {
      u := t;
    } else {
      var w := Wants(at).value;
      var v: nat :| v < |g.threads| && v != t && w in HeldBy(g.threads[v]);
      assert ThreadOk(g.store, g.threads[v]) && ThreadOk(g.store, g.threads[t]);
      if Wants(g.threads[v].at).Some? {
        WaitsForward(g.store, g.threads[v], w);
        var x := Wants(g.threads[v].at).value;
        if w.PageLatch? && g.store.pages[x.page].level == g.store.pages[w.page].level {
          AboveShrinks(g.store, w.page, x.page);
        }
      }
      u := FollowWaiting(g, v);
    }
  }

  lemma HoldsAreMine(g: System, t: nat)
    requires SystemInv(g) && t < |g.threads| && g.threads[t].Running?
    ensures Holds(g.threads[t].at) !! BusyFor(g, t)
  {
    forall l | l in BusyFor(g, t) ensures l !in Holds(g.threads[t].at) {
      var u: nat :| u < |g.threads| && u != t && l in HeldBy(g.threads[u]);
      assert HeldBy(g.threads[t]) !! HeldBy(g.threads[u]);
    }
  }

  /** No reachable state is deadlocked: while some operation is running, some
      running operation can take a step. */
  lemma NoDeadlock(r: Run, i: nat, t: nat) returns (u: nat, h: System)
    requires IsRun(r) && i < |r.states| && t < |r.states[i].threads| && r.states[i].threads[t].Running?
    ensures u < |r.states[i].threads| && r.states[i].threads[u].Running? && Next(r.states[i], u, h)
  {
    var g := r.states[i];
    RunsAreSafe(r, i);
    u := FollowWaiting(g, t);
    assert ThreadOk(g.store, g.threads[u]);
    if g.threads[u].at.Returning? {
      h := g.(threads := g.threads[u := Idle]);
      assert Returns(g, u, h);
    } else {
      var o := Step(g.store, BusyFor(g, u), true, g.threads[u].op, g.threads[u].answer, g.threads[u].at);
      h := System(o.store, g.threads[u := Running(g.threads[u].op, o.answer, o.at)]);
      assert Works(g, u, BusyFor(g, u), true, h);
    }
  }
}
