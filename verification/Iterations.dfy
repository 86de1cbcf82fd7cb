/** Whole iterations over a tree that other threads keep changing: which records
    that are stored all the time an iterator yields. */
module Iterations {
  import opened Pages
  import opened Bounds
  import opened Protocol
  import opened Runs
  import opened ScanRaces
  import opened Cursors

  /** One call of an iterator: its scan step, the record found, and the states
      between which it runs. */
  datatype Call = Call(op: Op, found: Option<Entry>, from: nat, to: nat)

  /** Thread `t` makes the call `x` for the cursor `c`, which becomes `d`. */
  ghost predicate CallMoves(r: Run, t: nat, c: Cursor, x: Call, d: Cursor) {
    && !c.finished && ScanSpan(r, t, x.op, Record(x.found), x.from, x.to) && BoundOf(x.op) == c.next
    && d == Advance(c, x.found).1
  }

  /** Thread `t` iterates until its cursor is exhausted; between its calls the
      other threads, and it too, may do whatever they like. */
  ghost predicate Iterates(r: Run, t: nat, cs: seq<Cursor>, xs: seq<Call>) {
    && |cs| == |xs| + 1 && cs[|xs|].finished
    && forall i: nat | i < |xs| :: CallMoves(r, t, cs[i], xs[i], cs[i + 1])
  }

  predicate Yields(c: Cursor, x: Call, k: Key) {
    x.found.Some? && x.found.value.key == k && BeforeEnd(c.end, k)
  }

  /** During the call a borrow carries the record behind the scan for good. */
  ghost predicate Hidden(r: Run, t: nat, x: Call, k: Key) {
    x.to <= |r.who| < |r.states| && exists m: nat | x.from <= m < x.to - 1 :: HiddenSince(r, t, k, m, x.to)
  }

  ghost predicate StoredDuring(r: Run, x: Call, k: Key) {
    x.to <= |r.who| < |r.states| && StaysStored(r, k, x.from, x.to)
  }

  ghost predicate StoredAlways(r: Run, xs: seq<Call>, k: Key) {
    forall n: nat | n < |xs| :: StoredDuring(r, xs[n], k)
  }

  lemma FoundIsPast(r: Run, t: nat, c: Cursor, x: Call, d: Cursor)
    requires CallMoves(r, t, c, x, d)
    ensures x.found.Some? ==> AfterStart(c.next, x.found.value.key)
  {
    forall m: nat | x.from <= m <= x.to ensures BusyAt(r, t, m) {
      assert m < x.to ==> OpenAt(r, t, x.op, m);
    }
    var m := AppliedExactlyOnce(r, t, x.op, Record(x.found), x.from, x.to);
  }

  /** What a call does to a key: one that lay behind the cursor stays there, and
      one in front stays in front unless the call yields it or it is hidden. */
  lemma CallMeetsKey(r: Run, t: nat, c: Cursor, x: Call, d: Cursor, k: Key)
    requires CallMoves(r, t, c, x, d) && StoredDuring(r, x, k) && BeforeEnd(c.end, k)
    ensures !AfterStart(c.next, k) ==> !AfterStart(d.next, k) && !Yields(c, x, k)
    ensures AfterStart(c.next, k) && Hidden(r, t, x, k) ==>
              !Yields(c, x, k) && (d.finished || !AfterStart(d.next, k))
    ensures AfterStart(c.next, k) && !Hidden(r, t, x, k) ==>
              if Yields(c, x, k) then !AfterStart(d.next, k) else AfterStart(d.next, k) && !d.finished
    ensures d.end == c.end
  {
    FoundIsPast(r, t, c, x, d);
    if AfterStart(c.next, k) {
      SkipsIff(r, t, x.op, Record(x.found), x.from, x.to, k);
    }
  }

  lemma {:induction false} PastStaysPast(r: Run, t: nat, cs: seq<Cursor>, xs: seq<Call>, k: Key, i: nat, n: nat)
    requires Iterates(r, t, cs, xs) && i <= n < |cs| && !AfterStart(cs[i].next, k)
    ensures !AfterStart(cs[n].next, k)
    decreases n
  {
    if i < n {
      PastStaysPast(r, t, cs, xs, k, i, n - 1);
      assert CallMoves(r, t, cs[n - 1], xs[n - 1], cs[n]);
      FoundIsPast(r, t, cs[n - 1], xs[n - 1], cs[n]);
    }
  }

  predicate YieldsAt(cs: seq<Cursor>, xs: seq<Call>, k: Key, n: nat) {
    n < |cs| && n < |xs| && Yields(cs[n], xs[n], k)
  }

  ghost predicate YieldedFrom(cs: seq<Cursor>, xs: seq<Call>, k: Key, i: nat) {
    exists n: nat | i <= n < |xs| :: YieldsAt(cs, xs, k, n)
  }

  ghost predicate HiddenAtCall(r: Run, t: nat, cs: seq<Cursor>, xs: seq<Call>, k: Key, n: nat) {
    n < |cs| && n < |xs| && AfterStart(cs[n].next, k) && Hidden(r, t, xs[n], k)
  }

  /** No call from the `i`th on hides the key while the cursor has it in front. */
  ghost predicate NeverHidden(r: Run, t: nat, cs: seq<Cursor>, xs: seq<Call>, k: Key, i: nat) {
    forall n: nat | i <= n < |xs| :: !HiddenAtCall(r, t, cs, xs, k, n)
  }

  lemma FirstCallOfMany(r: Run, t: nat, cs: seq<Cursor>, xs: seq<Call>, k: Key, i: nat)
    requires |cs| == |xs| + 1 && i < |xs|
    ensures YieldedFrom(cs, xs, k, i) <==> YieldsAt(cs, xs, k, i) || YieldedFrom(cs, xs, k, i + 1)
    ensures NeverHidden(r, t, cs, xs, k, i) <==>
              !HiddenAtCall(r, t, cs, xs, k, i) && NeverHidden(r, t, cs, xs, k, i + 1)
  {
  }

  lemma {:induction false} YieldedFromIff(r: Run, t: nat, cs: seq<Cursor>, xs: seq<Call>, k: Key, i: nat)
    requires Iterates(r, t, cs, xs) && StoredAlways(r, xs, k) && i <= |xs| && BeforeEnd(cs[i].end, k)
    ensures YieldedFrom(cs, xs, k, i)
            <==> !cs[i].finished && AfterStart(cs[i].next, k) && NeverHidden(r, t, cs, xs, k, i)
    decreases |xs| - i
  {
    if i < |xs| {
      assert CallMoves(r, t, cs[i], xs[i], cs[i + 1]) && StoredDuring(r, xs[i], k);
      CallMeetsKey(r, t, cs[i], xs[i], cs[i + 1], k);
      FirstCallOfMany(r, t, cs, xs, k, i);
      YieldedFromIff(r, t, cs, xs, k, i + 1);
      if !AfterStart(cs[i + 1].next, k) { PastIsNeverHidden(r, t, cs, xs, k, i + 1); }
    }
  }

  lemma PastIsNeverHidden(r: Run, t: nat, cs: seq<Cursor>, xs: seq<Call>, k: Key, i: nat)
    requires Iterates(r, t, cs, xs) && i <= |xs| && !AfterStart(cs[i].next, k)
    ensures NeverHidden(r, t, cs, xs, k, i)
  {
    forall n: nat | i <= n < |xs| ensures !HiddenAtCall(r, t, cs, xs, k, n) {
      PastStaysPast(r, t, cs, xs, k, i, n);
    }
  }

  /** An iteration that has ended has yielded a key stored during all its calls
      if and only if no call hid the key while the cursor still had it in front. */
  lemma StoredKeyIsYieldedIff(r: Run, t: nat, cs: seq<Cursor>, xs: seq<Call>, k: Key)
    requires Iterates(r, t, cs, xs) && xs != [] && InRange(cs[0].next, cs[0].end, k)
    requires StoredAlways(r, xs, k)
    ensures YieldedFrom(cs, xs, k, 0) <==> NeverHidden(r, t, cs, xs, k, 0)
  {
    assert CallMoves(r, t, cs[0], xs[0], cs[1]);
    YieldedFromIff(r, t, cs, xs, k, 0);
  }

  ghost predicate NobodyRemovesDuring(r: Run, x: Call) {
    x.to <= |r.states| && forall m: nat | x.from <= m < x.to :: NobodyRemoves(r.states[m])
  }

  /** An iteration whose calls overlap no removal yields every key that is
      stored during all of them. */
  lemma NothingMissedWithoutRemovers(r: Run, t: nat, cs: seq<Cursor>, xs: seq<Call>, k: Key)
    requires Iterates(r, t, cs, xs) && xs != [] && InRange(cs[0].next, cs[0].end, k) && StoredAlways(r, xs, k)
    requires forall n: nat | n < |xs| :: NobodyRemovesDuring(r, xs[n])
    ensures YieldedFrom(cs, xs, k, 0)
  {
    StoredKeyIsYieldedIff(r, t, cs, xs, k);
    forall n: nat | n < |xs| ensures !HiddenAtCall(r, t, cs, xs, k, n) {
      assert CallMoves(r, t, cs[n], xs[n], cs[n + 1]) && StoredDuring(r, xs[n], k) && NobodyRemovesDuring(r, xs[n]);
      if AfterStart(cs[n].next, k) {
        NothingSkippedWithoutRemovers(r, t, xs[n].op, Record(xs[n].found), xs[n].from, xs[n].to, k);
        SkipsIff(r, t, xs[n].op, Record(xs[n].found), xs[n].from, xs[n].to, k);
      }
    }
  }
}
