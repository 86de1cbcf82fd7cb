/** Re-seeking cursors: what one step of an iterator means, what a whole
    iteration yields, and what survives arbitrary changes to the map. */
module Cursors {
  import opened Pages
  import opened Bounds
  import opened Stores
  import opened Abstraction
  import opened LeafSteps
  import opened Protocol
  import opened Linearization
  import opened Walks
  import opened Scans

  /** Where a cursor continues, where it must stop, and whether it has. */
  datatype Cursor = Cursor(next: Bound, end: Bound, finished: bool)

  predicate InRange(start: Bound, end: Bound, k: Key) {
    AfterStart(start, k) && BeforeEnd(end, k)
  }

  /** One call on a map that stands still during the call: the least remaining
      record, or exhaustion because no record remains. */
  ghost predicate CursorStep(m: map<Key, Value>, c: Cursor, r: Option<Entry>, d: Cursor) {
    if c.finished then r.None? && d == c
    else if r.Some? then
      && IsLeast(m, c.next, r) && BeforeEnd(c.end, r.value.key)
      && d == Cursor(Excluded(r.value.key), c.end, false)
    else
      && (forall k :: k in m ==> !InRange(c.next, c.end, k))
      && d.finished
  }

  /** The part of a step that holds even when the map changes during a call. */
  predicate CursorMoves(c: Cursor, r: Option<Entry>, d: Cursor) {
    if c.finished || r.None? then r.None? && d.finished
    else InRange(c.next, c.end, r.value.key) && d == Cursor(Excluded(r.value.key), c.end, false)
  }

  /** A cursor continued after a record, as the iterators do after a seek. */
  function Advance(c: Cursor, candidate: Option<Entry>): (Option<Entry>, Cursor) {
    if candidate.Some? && BeforeEnd(c.end, candidate.value.key)
    then (candidate, Cursor(Excluded(candidate.value.key), c.end, false))
    else (None, c.(finished := true))
  }

  /** A seek that runs against any interleaving of writers still moves its
      cursor forward within its range. */
  lemma SeekMovesCursor(m: map<Key, Value>, n: map<Key, Value>, c: Cursor, op: Op, found: Option<Entry>)
    requires IsScan(op) && Effect(op, m, n, Record(found)) && !c.finished && c.next == BoundOf(op)
    ensures CursorMoves(c, Advance(c, found).0, Advance(c, found).1)
    ensures n == m && (found.Some? ==> Lookup(m, found.value.key) == Some(found.value.value))
  {
  }

  /** The states and results of repeated calls. */
  ghost predicate IsHistory(cs: seq<Cursor>, rs: seq<Option<Entry>>) {
    && |cs| == |rs| + 1
    && forall i :: 0 <= i < |rs| ==> CursorMoves(cs[i], rs[i], cs[i + 1])
  }

  lemma {:induction false} Finished(cs: seq<Cursor>, rs: seq<Option<Entry>>, i: nat, j: nat)
    requires IsHistory(cs, rs) && i <= j < |cs| && cs[i].finished
    ensures cs[j].finished
  {
    if i < j {
      Finished(cs, rs, i, j - 1);
      assert CursorMoves(cs[j - 1], rs[j - 1], cs[j]);
    }
  }

  lemma {:induction false} CursorOnlyAdvances(cs: seq<Cursor>, rs: seq<Option<Entry>>, i: nat, j: nat)
    requires IsHistory(cs, rs) && i < j < |cs| && rs[i].Some? && !cs[j].finished
    ensures cs[j].next.Excluded? && rs[i].value.key <= cs[j].next.key
  {
    assert CursorMoves(cs[j - 1], rs[j - 1], cs[j]);
    if i < j - 1 { CursorOnlyAdvances(cs, rs, i, j - 1); }
  }

  /** However the map changes between and during calls, yielded keys strictly
      increase and an exhausted cursor stays exhausted. */
  lemma CursorNeverGoesBack(cs: seq<Cursor>, rs: seq<Option<Entry>>, i: nat, j: nat)
    requires IsHistory(cs, rs) && i < j < |rs|
    ensures rs[i].None? ==> rs[j].None?
    ensures rs[j].Some? ==> rs[i].Some? && rs[i].value.key < rs[j].value.key
  {
    assert CursorMoves(cs[i], rs[i], cs[i + 1]) && CursorMoves(cs[j], rs[j], cs[j + 1]);
    if cs[i + 1].finished { Finished(cs, rs, i + 1, j); }
    if rs[i].Some? && !cs[j].finished { CursorOnlyAdvances(cs, rs, i, j); }
  }

  // ------------------------------------------------------ quiescent iteration

  /** A complete iteration over an unchanging map: it yielded `es` from cursor
      `c` on, and then reported exhaustion. */
  ghost predicate Exhausts(m: map<Key, Value>, c: Cursor, es: seq<Entry>)
    decreases |es|
  {
    if es == [] then exists d :: CursorStep(m, c, None, d)
    else
      && CursorStep(m, c, Some(es[0]), Cursor(Excluded(es[0].key), c.end, false))
      && Exhausts(m, Cursor(Excluded(es[0].key), c.end, false), es[1..])
  }

  lemma {:induction false} IterationIsExact(m: map<Key, Value>, c: Cursor, es: seq<Entry>)
    requires !c.finished && Exhausts(m, c, es)
    ensures SortedEntries(es)
    ensures forall e: Entry :: e in es <==> Lookup(m, e.key) == Some(e.value) && InRange(c.next, c.end, e.key)
    decreases |es|
  {
    if es != [] {
      var (x, d) := (es[0], Cursor(Excluded(es[0].key), c.end, false));
      IterationIsExact(m, d, es[1..]);
      assert forall i :: 0 < i < |es| ==> es[i] == es[1..][i - 1] && es[1..][i - 1] in es[1..];
      forall e: Entry ensures e in es <==> Lookup(m, e.key) == Some(e.value) && InRange(c.next, c.end, e.key) {
        assert e in es <==> e == x || e in es[1..];
      }
    }
  }

  /** The records of a listing whose keys lie in a range. */
  function Within(es: seq<Entry>, start: Bound, end: Bound): seq<Entry> {
    if es == [] then []
    else if InRange(start, end, es[0].key) then [es[0]] + Within(es[1..], start, end)
    else Within(es[1..], start, end)
  }

  lemma {:induction false} WithinHolds(es: seq<Entry>, start: Bound, end: Bound, e: Entry)
    ensures e in Within(es, start, end) <==> e in es && InRange(start, end, e.key)
  {
    if es != [] {
      WithinHolds(es[1..], start, end, e);
      assert e in es <==> e == es[0] || e in es[1..];
    }
  }

  lemma {:induction false} WithinSorted(es: seq<Entry>, start: Bound, end: Bound)
    requires SortedEntries(es)
    ensures SortedEntries(Within(es, start, end))
  {
    if es != [] {
      var rest := Within(es[1..], start, end);
      WithinSorted(es[1..], start, end);
      forall i | 0 <= i < |rest| ensures es[0].key < rest[i].key {
        WithinHolds(es[1..], start, end, rest[i]);
        var j :| 0 <= j < |es[1..]| && es[1..][j] == rest[i];
      }
    }
  }

  lemma WithinMembers(es: seq<Entry>, start: Bound, end: Bound)
    requires SortedEntries(es)
    ensures SortedEntries(Within(es, start, end))
    ensures forall e: Entry :: e in Within(es, start, end) <==> e in es && InRange(start, end, e.key)
  {
  }

  /** `es` lists exactly the records of `m`. */
  ghost predicate Lists(es: seq<Entry>, m: map<Key, Value>) {
    forall e: Entry :: e in es <==> Lookup(m, e.key) == Some(e.value)
  }

  lemma ListedKey(es: seq<Entry>, m: map<Key, Value>, k: Key)
    requires Lists(es, m) && k in m
    ensures Entry(k, m[k]) in es
  {
  }

  /** The first listed record in range is what a cursor yields next. */
  lemma FirstWithin(m: map<Key, Value>, es: seq<Entry>, c: Cursor)
    requires SortedEntries(es) && Lists(es, m) && !c.finished && Within(es, c.next, c.end) != []
    ensures var x := Within(es, c.next, c.end)[0];
            CursorStep(m, c, Some(x), Cursor(Excluded(x.key), c.end, false))
  {
    var w := Within(es, c.next, c.end);
    WithinMembers(es, c.next, c.end);
    assert w[0] in w;
    forall k | k in m && AfterStart(c.next, k) ensures w[0].key <= k {
      ListedKey(es, m, k);
      if BeforeEnd(c.end, k) { assert Entry(k, m[k]) in w; }
    }
  }

  lemma RestWithin(es: seq<Entry>, start: Bound, end: Bound)
    requires SortedEntries(es) && Within(es, start, end) != []
    ensures var w := Within(es, start, end); Within(es, Excluded(w[0].key), end) == w[1..]
  {
    var w := Within(es, start, end);
    var rest := Within(es, Excluded(w[0].key), end);
    WithinMembers(es, start, end);
    WithinMembers(es, Excluded(w[0].key), end);
    assert w[0] in w;
    forall e: Entry ensures e in rest <==> e in w[1..] {
      assert e in w <==> e == w[0] || e in w[1..];
      if e in w[1..] { assert w[0].key < e.key; }
    }
    SortedUnique(rest, w[1..]);
  }

  /** Iterating over an unchanging map yields its records in range, in order. */
  lemma {:induction false} IterationEnds(m: map<Key, Value>, es: seq<Entry>, c: Cursor)
    requires SortedEntries(es) && Lists(es, m) && !c.finished
    ensures Exhausts(m, c, Within(es, c.next, c.end))
    decreases |Within(es, c.next, c.end)|
  {
    var w := Within(es, c.next, c.end);
    if w == [] {
      WithinMembers(es, c.next, c.end);
      forall k | k in m ensures !InRange(c.next, c.end, k) {
        ListedKey(es, m, k);
        assert Entry(k, m[k]) !in w;
      }
      assert CursorStep(m, c, None, c.(finished := true));
    } else {
      FirstWithin(m, es, c);
      RestWithin(es, c.next, c.end);
      IterationEnds(m, es, Cursor(Excluded(w[0].key), c.end, false));
    }
  }

  lemma WalkLists(s: Store)
    requires Inv(s)
    ensures SortedEntries(InOrder(s, s.root)) && Lists(InOrder(s, s.root), Contents(s))
  {
    WalkListsContents(s);
  }

  /** A range over an unchanging tree yields the records between its bounds,
      left to right and each exactly once, and nothing else; with both bounds
      open that is the whole map. */
  lemma RangeIsExact(s: Store, start: Bound, end: Bound, es: seq<Entry>)
    requires Inv(s)
    ensures Exhausts(Contents(s), Cursor(start, end, false), es) <==> es == Within(InOrder(s, s.root), start, end)
  {
    var (m, walk, c) := (Contents(s), InOrder(s, s.root), Cursor(start, end, false));
    WalkLists(s);
    IterationEnds(m, walk, c);
    if Exhausts(m, c, es) {
      IterationIsExact(m, c, es);
      WithinMembers(walk, start, end);
      SortedUnique(es, Within(walk, start, end));
    }
  }

  lemma {:induction false} WithinOpenBounds(es: seq<Entry>)
    ensures Within(es, Unbounded, Unbounded) == es
  {
    if es != [] { WithinOpenBounds(es[1..]); }
  }

  /** A full iteration over an unchanging tree yields every record once. */
  lemma FullIterationIsWalk(s: Store, es: seq<Entry>)
    requires Inv(s)
    ensures Exhausts(Contents(s), Cursor(Unbounded, Unbounded, false), es) <==> es == InOrder(s, s.root)
    ensures |InOrder(s, s.root)| == |Contents(s)|
  {
    RangeIsExact(s, Unbounded, Unbounded, es);
    WithinOpenBounds(InOrder(s, s.root));
    WalkListsContents(s);
  }

  // ------------------------------------------------------------ range bounds

  /** Whether a range may be opened; the two rejected cases panic. */
  datatype BoundsCheck = Opens | StartAboveEnd | EqualAndExcluded

  function ValidateBounds(start: Bound, end: Bound): BoundsCheck {
    if start.Unbounded? || end.Unbounded? then Opens
    else if start.key > end.key then StartAboveEnd
    else if start.key == end.key && start.Excluded? && end.Excluded? then EqualAndExcluded
    else Opens
  }

  /** No key lies in a rejected range, and ranges with two inclusive ends are
      rejected exactly when no key lies in them. */
  lemma RejectedRangesAreEmpty(start: Bound, end: Bound)
    ensures !ValidateBounds(start, end).Opens? ==> forall k :: !InRange(start, end, k)
    ensures start.Included? && end.Included? ==>
              (ValidateBounds(start, end).Opens? <==> exists k :: InRange(start, end, k))
  {
    if start.Included? && end.Included? && ValidateBounds(start, end).Opens? {
      assert InRange(start, end, start.key);
    }
  }
}
