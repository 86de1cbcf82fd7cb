/** The fixed-capacity owning array that pages keep their records in: shifts
    inside one buffer, transfers between buffers, and destructors that unwind. */
module Arrays {
  import opened Pages

  // ------------------------------------------- what each operation means

  /** None stands for a panic, which leaves every array as it was. */
  function Pushed<T>(s: seq<T>, cap: nat, v: T): Option<seq<T>> {
    if |s| < cap then Some(s + [v]) else None
  }

  function Inserted<T>(s: seq<T>, cap: nat, i: nat, v: T): Option<seq<T>> {
    if i <= |s| < cap then Some(s[..i] + [v] + s[i..]) else None
  }

  function Removed<T>(s: seq<T>, i: nat): Option<(seq<T>, T)> {
    if i < |s| then Some((s[..i] + s[i + 1..], s[i])) else None
  }

  function Popped<T>(s: seq<T>): Option<(seq<T>, T)> {
    if s == [] then None else Some((s[..|s| - 1], s[|s| - 1]))
  }

  function Divided<T>(s: seq<T>, at: nat): Option<(seq<T>, seq<T>)> {
    if at <= |s| then Some((s[..at], s[at..])) else None
  }

  function Joined<T>(front: seq<T>, back: seq<T>, cap: nat): Option<seq<T>> {
    if |front| + |back| <= cap then Some(front + back) else None
  }

  /** What clearing drops, last value first, up to and including the first
      value whose destructor unwinds; the rest stays in the array. */
  datatype Cleared<T> = Cleared(rest: seq<T>, dropped: seq<T>, unwound: bool)

  function Clearing<T>(s: seq<T>, unwinds: T -> bool): Cleared<T> {
    if s == [] then Cleared([], [], false)
    else
      var last := s[|s| - 1];
      if unwinds(last) then Cleared(s[..|s| - 1], [last], true)
      else
        var more := Clearing(s[..|s| - 1], unwinds);
        Cleared(more.rest, [last] + more.dropped, more.unwound)
  }

  /** A clearing that went on after `dropped` had been dropped already. */
  function After<T>(dropped: seq<T>, c: Cleared<T>): Cleared<T> {
    Cleared(c.rest, dropped + c.dropped, c.unwound)
  }

  lemma Associative<T>(a: seq<T>, b: seq<T>, c: seq<T>)
    ensures a + (b + c) == a + b + c
  {
  }

  /** One turn of the loop of `clear`. */
  lemma ClearingTurn<T>(s: seq<T>, unwinds: T -> bool, dropped: seq<T>)
    requires s != []
    ensures var (front, last) := (s[..|s| - 1], s[|s| - 1]);
            && (unwinds(last) ==> After(dropped, Clearing(s, unwinds)) == Cleared(front, dropped + [last], true))
            && (!unwinds(last) ==>
                  After(dropped, Clearing(s, unwinds)) == After(dropped + [last], Clearing(front, unwinds)))
  {
    var (front, last) := (s[..|s| - 1], s[|s| - 1]);
    var c := Clearing(s, unwinds);
    if unwinds(last) {
      assert c == Cleared(front, [last], true);
    } else {
      var more := Clearing(front, unwinds);
      assert c == Cleared(more.rest, [last] + more.dropped, more.unwound);
      Associative(dropped, [last], more.dropped);
    }
  }

  function Reversed<T>(s: seq<T>): seq<T> {
    if s == [] then [] else [s[|s| - 1]] + Reversed(s[..|s| - 1])
  }

  /** Clearing drops a suffix of the array from its end; only the last value
      dropped can have unwound, and without an unwinding nothing is left. */
  lemma {:induction false} ClearingDropsSuffix<T>(s: seq<T>, unwinds: T -> bool)
    ensures var c := Clearing(s, unwinds);
            && |c.rest| + |c.dropped| == |s| && c.rest == s[..|c.rest|]
            && c.dropped == Reversed(s[|c.rest|..])
            && (c.unwound <==> c.dropped != [] && unwinds(c.dropped[|c.dropped| - 1]))
            && (forall i :: 0 <= i < |c.dropped| - 1 ==> !unwinds(c.dropped[i]))
            && (!c.unwound ==> c.rest == [])
  {
    if s != [] && !unwinds(s[|s| - 1]) {
      var front := s[..|s| - 1];
      ClearingDropsSuffix(front, unwinds);
      var c := Clearing(front, unwinds);
      var tail := s[|c.rest|..];
      assert tail[..|tail| - 1] == front[|c.rest|..];
      assert front[..|c.rest|] == s[..|c.rest|];
    } else if s != [] {
      var tail := s[|s| - 1..];
      assert tail[..|tail| - 1] == [];
    }
  }

  /** Clearing reaches the first value exactly if no later value unwinds, and it
      runs to its end exactly if no value unwinds. */
  lemma {:induction false} NothingLeaksIff<T>(s: seq<T>, unwinds: T -> bool)
    ensures Clearing(s, unwinds).rest == [] <==> forall i :: 1 <= i < |s| ==> !unwinds(s[i])
    ensures !Clearing(s, unwinds).unwound <==> forall i :: 0 <= i < |s| ==> !unwinds(s[i])
  {
    if s != [] {
      var (front, n) := (s[..|s| - 1], |s| - 1);
      NothingLeaksIff(front, unwinds);
      assert forall i :: 0 <= i < n ==> front[i] == s[i];
    }
  }

  /** If the last of two values unwinds, the one in front of it leaks. */
  lemma DropCanLeak<T>(a: T, b: T, unwinds: T -> bool)
    requires unwinds(b)
    ensures Clearing([a, b], unwinds) == Cleared([a], [b], true)
  {
    assert [a, b][..1] == [a];
  }

  /** All values dropped by clearing again after each unwinding. */
  function ClearedCompletely<T>(s: seq<T>, unwinds: T -> bool): seq<T>
    decreases |s|
  {
    ClearingDropsSuffix(s, unwinds);
    var c := Clearing(s, unwinds);
    if c.unwound then c.dropped + ClearedCompletely(c.rest, unwinds) else c.dropped
  }

  lemma {:induction false} ReversedOfTwo<T>(a: seq<T>, b: seq<T>)
    ensures Reversed(a + b) == Reversed(b) + Reversed(a)
  {
    if b == [] {
      assert a + b == a;
    } else {
      assert (a + b)[..|a + b| - 1] == a + b[..|b| - 1];
      ReversedOfTwo(a, b[..|b| - 1]);
    }
  }

  /** However often destructors unwind, clearing until it succeeds drops every
      value exactly once, last to first: no value is skipped or dropped twice. */
  lemma {:induction false} EveryValueDroppedOnce<T>(s: seq<T>, unwinds: T -> bool)
    ensures ClearedCompletely(s, unwinds) == Reversed(s)
    decreases |s|
  {
    ClearingDropsSuffix(s, unwinds);
    var c := Clearing(s, unwinds);
    assert s == s[..|c.rest|] + s[|c.rest|..];
    if c.unwound {
      EveryValueDroppedOnce(c.rest, unwinds);
      ReversedOfTwo(c.rest, s[|c.rest|..]);
    } else {
      assert s[0..] == s;
    }
  }

  // ------------------------------------------------------------- the buffer

  class Array<T(0)> {
    const buffer: array<T>
    var len: nat

    ghost predicate Valid()
      reads this
    {
      0 < buffer.Length && len <= buffer.Length
    }

    /** The initialised range, which is all the array owns. */
    ghost function Contents(): seq<T>
      reads this, buffer
      requires Valid()
    {
      buffer[..len]
    }

    constructor WithCapacity(cap: nat)
      requires cap > 0
      ensures Valid() && fresh(buffer) && buffer.Length == cap && Contents() == []
    {
      buffer := new T[cap];
      len := 0;
    }

    /** `ptr::copy`: the ranges may overlap. */
    method Shift(src: nat, dst: nat, count: nat)
      requires src + count <= buffer.Length && dst + count <= buffer.Length
      modifies buffer
      ensures forall i :: 0 <= i < buffer.Length ==>
                buffer[i] == if dst <= i < dst + count then old(buffer[src + (i - dst)]) else old(buffer[i])
    {
      forall i | 0 <= i < count {
        buffer[dst + i] := buffer[src + i];
      }
    }

    /** `ptr::copy_nonoverlapping` out of another allocation. */
    method CopyFrom(other: array<T>, src: nat, dst: nat, count: nat)
      requires other != buffer && src + count <= other.Length && dst + count <= buffer.Length
      modifies buffer
      ensures forall i :: 0 <= i < buffer.Length ==>
                buffer[i] == if dst <= i < dst + count then other[src + (i - dst)] else old(buffer[i])
    {
      forall i | 0 <= i < count {
        buffer[dst + i] := other[src + i];
      }
    }

    method Push(v: T) returns (panicked: bool)
      requires Valid()
      modifies this`len, buffer
      ensures Valid() && panicked == Pushed(old(Contents()), buffer.Length, v).None?
      ensures Contents() == if panicked then old(Contents()) else Pushed(old(Contents()), buffer.Length, v).value
    {
      if len == buffer.Length { return true; }
      buffer[len] := v;
      len := len + 1;
      panicked := false;
    }

    method Pop() returns (v: Option<T>)
      requires Valid()
      modifies this`len
      ensures Valid() && v.None? == Popped(old(Contents())).None?
      ensures if v.None? then Contents() == old(Contents()) else Popped(old(Contents())) == Some((Contents(), v.value))
    {
      if len == 0 { return None; }
      len := len - 1;
      v := Some(buffer[len]);
      ghost var was := old(Contents());
      assert Contents() == was[..|was| - 1];
    }

    method Insert(index: nat, v: T) returns (panicked: bool)
      requires Valid()
      modifies this`len, buffer
      ensures Valid() && panicked == Inserted(old(Contents()), buffer.Length, index, v).None?
      ensures Contents()
           == if panicked then old(Contents()) else Inserted(old(Contents()), buffer.Length, index, v).value
    {
      if index > len || len == buffer.Length { return true; }
      Shift(index, index + 1, len - index);
      buffer[index] := v;
      len := len + 1;
      panicked := false;
      ghost var was := old(Contents());
      assert Contents() == was[..index] + [v] + was[index..];
    }

    method Remove(index: nat) returns (v: Option<T>)
      requires Valid()
      modifies this`len, buffer
      ensures Valid() && v.None? == Removed(old(Contents()), index).None?
      ensures if v.None? then Contents() == old(Contents())
              else Removed(old(Contents()), index) == Some((Contents(), v.value))
    {
      if index >= len { return None; }
      v := Some(buffer[index]);
      Shift(index + 1, index, len - index - 1);
      len := len - 1;
      ghost var was := old(Contents());
      assert Contents() == was[..index] + was[index + 1..];
    }

    /** Moves the tail into a new array of the same capacity. */
    method SplitOff(at: nat) returns (other: Option<Array<T>>)
      requires Valid()
      modifies this`len
      ensures Valid() && other.None? == Divided(old(Contents()), at).None?
      ensures other.None? ==> Contents() == old(Contents())
      ensures other.Some? ==>
                && fresh(other.value) && fresh(other.value.buffer) && other.value.Valid()
                && other.value.buffer.Length == buffer.Length
                && Divided(old(Contents()), at) == Some((Contents(), other.value.Contents()))
    {
      if at > len { return None; }
      var tail := new Array<T>.WithCapacity(buffer.Length);
      tail.CopyFrom(buffer, at, 0, len - at);
      tail.len := len - at;
      len := at;
      other := Some(tail);
      assert Contents() == old(Contents())[..at] && tail.Contents() == old(Contents())[at..];
    }

    method AppendFrom(other: Array<T>) returns (panicked: bool)
      requires Valid() && other.Valid() && other != this && other.buffer != buffer
      modifies this`len, buffer, other`len
      ensures Valid() && other.Valid()
      ensures panicked == Joined(old(Contents()), old(other.Contents()), buffer.Length).None?
      ensures if panicked then Contents() == old(Contents()) && other.Contents() == old(other.Contents())
              else && Joined(old(Contents()), old(other.Contents()), buffer.Length) == Some(Contents())
                   && other.Contents() == []
    {
      if len + other.len > buffer.Length { return true; }
      panicked := false;
      if other.len == 0 {
        assert Contents() + other.Contents() == Contents();
        return;
      }
      CopyFrom(other.buffer, 0, len, other.len);
      len := len + other.len;
      other.len := 0;
      assert Contents() == old(Contents()) + old(other.Contents());
    }

    method PrependFrom(other: Array<T>) returns (panicked: bool)
      requires Valid() && other.Valid() && other != this && other.buffer != buffer
      modifies this`len, buffer, other`len
      ensures Valid() && other.Valid()
      ensures panicked == Joined(old(other.Contents()), old(Contents()), buffer.Length).None?
      ensures if panicked then Contents() == old(Contents()) && other.Contents() == old(other.Contents())
              else && Joined(old(other.Contents()), old(Contents()), buffer.Length) == Some(Contents())
                   && other.Contents() == []
    {
      if len + other.len > buffer.Length { return true; }
      panicked := false;
      if other.len == 0 {
        assert other.Contents() + Contents() == Contents();
        return;
      }
      Shift(0, other.len, len);
      CopyFrom(other.buffer, 0, 0, other.len);
      len := len + other.len;
      other.len := 0;
      assert Contents() == old(other.Contents()) + old(Contents());
    }

    /** Drops every value from the end. A value leaves the initialised range
        before its destructor runs, so an unwinding destructor ends the loop
        with the value gone and the rest intact. */
    method Clear(unwinds: T -> bool) returns (dropped: seq<T>, unwound: bool)
      requires Valid()
      modifies this`len
      ensures Valid() && Clearing(old(Contents()), unwinds) == Cleared(Contents(), dropped, unwound)
    {
      dropped := [];
      while len != 0
        invariant Valid()
        invariant Clearing(old(Contents()), unwinds) == After(dropped, Clearing(Contents(), unwinds))
      {
        ghost var was := Contents();
        len := len - 1;
        assert was[..|was| - 1] == Contents() && was[|was| - 1] == buffer[len];
        ClearingTurn(was, unwinds, dropped);
        dropped := dropped + [buffer[len]];
        if unwinds(buffer[len]) { return dropped, true; }
      }
      unwound := false;
    }

    /** Releases the array. A destructor that unwinds skips the rest of the
        release: the values in front of it and the buffer are leaked, and
        nothing is dropped twice. */
    method Drop(unwinds: T -> bool) returns (dropped: seq<T>, leaked: seq<T>, released: bool)
      requires Valid()
      modifies this`len
      ensures old(Contents()) == leaked + Reversed(dropped)
      ensures leaked == [] <==> forall i :: 1 <= i < |old(Contents())| ==> !unwinds(old(Contents())[i])
      ensures released <==> forall i :: 0 <= i < |old(Contents())| ==> !unwinds(old(Contents())[i])
      ensures dropped != [] ==> forall i :: 0 <= i < |dropped| - 1 ==> !unwinds(dropped[i])
    {
      ghost var was := Contents();
      ClearingDropsSuffix(was, unwinds);
      NothingLeaksIff(was, unwinds);
      var unwound;
      dropped, unwound := Clear(unwinds);
      leaked := buffer[..len];
      released := !unwound;
      ReversedTwice(was[|leaked|..]);
      assert was == was[..|leaked|] + was[|leaked|..];
    }
  }

  lemma {:induction false} ReversedTwice<T>(s: seq<T>)
    ensures Reversed(Reversed(s)) == s
  {
    if s != [] {
      var (front, last) := (s[..|s| - 1], s[|s| - 1]);
      ReversedTwice(front);
      ReversedOfTwo([last], Reversed(front));
      assert Reversed([last]) == [last];
    }
  }

  // ----------------------------------------- ownership over whole programs

  /** Where values are: in arrays, in the caller's hands, or dropped. */
  datatype World<T> = World(arrays: seq<seq<T>>, caller: multiset<T>, dropped: multiset<T>)

  datatype Command<T> =
    | Push(a: nat, value: T)
    | Insert(a: nat, index: nat, value: T)
    | Pop(a: nat)
    | Remove(a: nat, index: nat)
    | SplitOff(a: nat, at: nat)
    | AppendFrom(a: nat, b: nat)
    | PrependFrom(a: nat, b: nat)
    | Clear(a: nat)

  /** A command names existing arrays, two different ones for a transfer, and
      passes only a value the caller owns. */
  predicate Allowed<T>(w: World<T>, c: Command<T>) {
    && c.a < |w.arrays|
    && (c.Push? || c.Insert? ==> c.value in w.caller)
    && (c.AppendFrom? || c.PrependFrom? ==> c.b < |w.arrays| && c.a != c.b)
  }

  /** The world after one command; a value passed to a panicking call is
      dropped by the unwinding. */
  ghost function Run<T>(w: World<T>, cap: nat, unwinds: T -> bool, c: Command<T>): World<T>
    requires Allowed(w, c)
  {
    var s := w.arrays[c.a];
    match c
    case Push(a, v) => Store(w, a, Pushed(s, cap, v), v)
    case Insert(a, i, v) => Store(w, a, Inserted(s, cap, i, v), v)
    case Pop(a) => Take(w, a, Popped(s))
    case Remove(a, i) => Take(w, a, Removed(s, i))
    case SplitOff(a, at) =>
      var parts := Divided(s, at);
      if parts.None? then w else w.(arrays := w.arrays[a := parts.value.0] + [parts.value.1])
    case AppendFrom(a, b) => Move(w, a, b, Joined(s, w.arrays[b], cap))
    case PrependFrom(a, b) => Move(w, a, b, Joined(w.arrays[b], s, cap))
    case Clear(a) =>
      var e := Clearing(s, unwinds);
      w.(arrays := w.arrays[a := e.rest], dropped := w.dropped + multiset(e.dropped))
  }

  ghost function Store<T>(w: World<T>, a: nat, out: Option<seq<T>>, v: T): World<T>
    requires a < |w.arrays|
  {
    var w' := w.(caller := w.caller - multiset{v});
    if out.None? then w'.(dropped := w.dropped + multiset{v}) else w'.(arrays := w.arrays[a := out.value])
  }

  ghost function Take<T>(w: World<T>, a: nat, out: Option<(seq<T>, T)>): World<T>
    requires a < |w.arrays|
  {
    if out.None? then w
    else w.(arrays := w.arrays[a := out.value.0], caller := w.caller + multiset{out.value.1})
  }

  ghost function Move<T>(w: World<T>, a: nat, b: nat, out: Option<seq<T>>): World<T>
    requires a < |w.arrays| && b < |w.arrays|
  {
    if out.None? then w else w.(arrays := w.arrays[a := out.value][b := []])
  }

  /** How often `v` occurs in the arrays. */
  ghost function Live<T>(arrays: seq<seq<T>>, v: T): nat {
    if arrays == [] then 0 else multiset(arrays[0])[v] + Live(arrays[1..], v)
  }

  /** In how many places `v` is. */
  ghost function Places<T>(w: World<T>, v: T): nat {
    Live(w.arrays, v) + w.caller[v] + w.dropped[v]
  }

  lemma {:induction false} LiveAfterUpdate<T>(arrays: seq<seq<T>>, a: nat, s: seq<T>, v: T)
    requires a < |arrays|
    ensures Live(arrays[a := s], v) == Live(arrays, v) + multiset(s)[v] - multiset(arrays[a])[v]
  {
    if a > 0 {
      LiveAfterUpdate(arrays[1..], a - 1, s, v);
      assert arrays[a := s][1..] == arrays[1..][a - 1 := s];
    } else {
      assert arrays[0 := s][1..] == arrays[1..];
    }
  }

  lemma {:induction false} LiveAfterAppend<T>(arrays: seq<seq<T>>, s: seq<T>, v: T)
    ensures Live(arrays + [s], v) == Live(arrays, v) + multiset(s)[v]
  {
    if arrays == [] {
      assert (arrays + [s])[1..] == [];
    } else {
      LiveAfterAppend(arrays[1..], s, v);
      assert (arrays + [s])[1..] == arrays[1..] + [s];
    }
  }

  /** Cutting a sequence in two keeps its values. */
  lemma CountOfParts<T>(s: seq<T>, i: nat, v: T)
    requires i <= |s|
    ensures multiset(s)[v] == multiset(s[..i])[v] + multiset(s[i..])[v]
  {
    assert s == s[..i] + s[i..];
  }

  lemma CountOfJoin<T>(a: seq<T>, b: seq<T>, v: T)
    ensures multiset(a + b)[v] == multiset(a)[v] + multiset(b)[v]
  {
  }

  lemma {:induction false} ReversedKeepsValues<T>(s: seq<T>, v: T)
    ensures multiset(Reversed(s))[v] == multiset(s)[v]
  {
    if s != [] {
      var (front, last) := (s[..|s| - 1], s[|s| - 1]);
      ReversedKeepsValues(front, v);
      assert s == front + [last];
      CountOfJoin(front, [last], v);
      CountOfJoin([last], Reversed(front), v);
    }
  }

  /** Storing a value owned by the caller moves it, or drops it on a panic. */
  lemma StoreConserves<T>(w: World<T>, a: nat, out: Option<seq<T>>, x: T, v: T)
    requires a < |w.arrays| && x in w.caller
    requires out.Some? ==> multiset(out.value)[v] == multiset(w.arrays[a])[v] + multiset{x}[v]
    ensures Places(Store(w, a, out, x), v) == Places(w, v)
  {
    assert (w.caller - multiset{x})[v] == w.caller[v] - multiset{x}[v];
    if out.Some? { LiveAfterUpdate(w.arrays, a, out.value, v); }
  }

  lemma InsertedValues<T>(s: seq<T>, cap: nat, i: nat, x: T, v: T)
    requires Inserted(s, cap, i, x).Some?
    ensures multiset(Inserted(s, cap, i, x).value)[v] == multiset(s)[v] + multiset{x}[v]
  {
    CountOfParts(s, i, v);
    CountOfJoin(s[..i] + [x], s[i..], v);
    CountOfJoin(s[..i], [x], v);
  }

  lemma RemovedValues<T>(s: seq<T>, i: nat, v: T)
    requires i < |s|
    ensures multiset(s)[v] == multiset(s[..i] + s[i + 1..])[v] + multiset{s[i]}[v]
  {
    CountOfParts(s, i, v);
    CountOfJoin(s[..i], s[i + 1..], v);
    assert s[i..] == [s[i]] + s[i + 1..];
    CountOfJoin([s[i]], s[i + 1..], v);
  }

  lemma PoppedIsRemoved<T>(s: seq<T>)
    ensures Popped(s) == Removed(s, if s == [] then 0 else |s| - 1)
  {
    if s != [] { assert s[..|s| - 1] + s[|s| - 1 + 1..] == s[..|s| - 1]; }
  }

  lemma TakeConserves<T>(w: World<T>, a: nat, i: nat, v: T)
    requires a < |w.arrays|
    ensures Places(Take(w, a, Removed(w.arrays[a], i)), v) == Places(w, v)
  {
    var s := w.arrays[a];
    if i < |s| {
      RemovedValues(s, i, v);
      LiveAfterUpdate(w.arrays, a, s[..i] + s[i + 1..], v);
    }
  }

  lemma MoveConserves<T>(w: World<T>, a: nat, b: nat, out: Option<seq<T>>, v: T)
    requires a < |w.arrays| && b < |w.arrays| && a != b
    requires out.Some? ==> multiset(out.value)[v] == multiset(w.arrays[a])[v] + multiset(w.arrays[b])[v]
    ensures Places(Move(w, a, b, out), v) == Places(w, v)
  {
    if out.Some? {
      LiveAfterUpdate(w.arrays, a, out.value, v);
      LiveAfterUpdate(w.arrays[a := out.value], b, [], v);
    }
  }

  lemma DivideConserves<T>(arrays: seq<seq<T>>, a: nat, at: nat, v: T)
    requires a < |arrays| && at <= |arrays[a]|
    ensures Live(arrays[a := arrays[a][..at]] + [arrays[a][at..]], v) == Live(arrays, v)
  {
    CountOfParts(arrays[a], at, v);
    LiveAfterUpdate(arrays, a, arrays[a][..at], v);
    LiveAfterAppend(arrays[a := arrays[a][..at]], arrays[a][at..], v);
  }

  lemma ClearConserves<T>(arrays: seq<seq<T>>, unwinds: T -> bool, a: nat, v: T)
    requires a < |arrays|
    ensures var e := Clearing(arrays[a], unwinds);
            Live(arrays[a := e.rest], v) + multiset(e.dropped)[v] == Live(arrays, v)
  {
    var s := arrays[a];
    var e := Clearing(s, unwinds);
    ClearingDropsSuffix(s, unwinds);
    CountOfParts(s, |e.rest|, v);
    ReversedKeepsValues(s[|e.rest|..], v);
    LiveAfterUpdate(arrays, a, e.rest, v);
  }

  lemma ArrivalConserves<T>(w: World<T>, cap: nat, unwinds: T -> bool, c: Command<T>, v: T)
    requires Allowed(w, c) && (c.Push? || c.Insert?)
    ensures Places(Run(w, cap, unwinds, c), v) == Places(w, v)
  {
    var s := w.arrays[c.a];
    if c.Push? {
      CountOfJoin(s, [c.value], v);
      StoreConserves(w, c.a, Pushed(s, cap, c.value), c.value, v);
    } else {
      if Inserted(s, cap, c.index, c.value).Some? { InsertedValues(s, cap, c.index, c.value, v); }
      StoreConserves(w, c.a, Inserted(s, cap, c.index, c.value), c.value, v);
    }
  }

  lemma TransferConserves<T>(w: World<T>, cap: nat, unwinds: T -> bool, c: Command<T>, v: T)
    requires Allowed(w, c) && (c.AppendFrom? || c.PrependFrom?)
    ensures Places(Run(w, cap, unwinds, c), v) == Places(w, v)
  {
    var (s, o) := (w.arrays[c.a], w.arrays[c.b]);
    if c.AppendFrom? {
      CountOfJoin(s, o, v);
      MoveConserves(w, c.a, c.b, Joined(s, o, cap), v);
    } else {
      CountOfJoin(o, s, v);
      MoveConserves(w, c.a, c.b, Joined(o, s, cap), v);
    }
  }

  /** One command neither creates, duplicates nor loses a value. */
  lemma CommandConserves<T>(w: World<T>, cap: nat, unwinds: T -> bool, c: Command<T>, v: T)
    requires Allowed(w, c)
    ensures Places(Run(w, cap, unwinds, c), v) == Places(w, v)
  {
    var s := w.arrays[c.a];
    if c.Push? || c.Insert? { ArrivalConserves(w, cap, unwinds, c, v); }
    else if c.AppendFrom? || c.PrependFrom? { TransferConserves(w, cap, unwinds, c, v); }
    else if c.Pop? { PoppedIsRemoved(s); TakeConserves(w, c.a, if s == [] then 0 else |s| - 1, v); }
    else if c.Remove? { TakeConserves(w, c.a, c.index, v); }
    else if c.Clear? { ClearConserves(w.arrays, unwinds, c.a, v); }
    else if c.at <= |s| { DivideConserves(w.arrays, c.a, c.at, v); }
  }

  /** The worlds a program passes through. */
  ghost predicate IsProgram<T>(ws: seq<World<T>>, cap: nat, unwinds: T -> bool, cs: seq<Command<T>>) {
    && |ws| == |cs| + 1
    && forall i :: 0 <= i < |cs| ==> Allowed(ws[i], cs[i]) && ws[i + 1] == Run(ws[i], cap, unwinds, cs[i])
  }

  /** Over any program, panics and unwinding destructors included, a value that
      starts out in one place is always in exactly one: a live slot, the
      caller's hands, or dropped. */
  lemma {:induction false} ValuesHaveOneOwner<T>(ws: seq<World<T>>, cap: nat, unwinds: T -> bool,
                                                 cs: seq<Command<T>>, v: T)
    requires IsProgram(ws, cap, unwinds, cs)
    ensures Places(ws[|cs|], v) == Places(ws[0], v)
    decreases |cs|
  {
    if cs != [] {
      var n := |cs| - 1;
      assert IsProgram(ws[..n + 1], cap, unwinds, cs[..n]);
      ValuesHaveOneOwner(ws[..n + 1], cap, unwinds, cs[..n], v);
      CommandConserves(ws[n], cap, unwinds, cs[n], v);
    }
  }

  predicate Fits<T>(arrays: seq<seq<T>>, cap: nat) {
    forall a :: 0 <= a < |arrays| ==> |arrays[a]| <= cap
  }

  lemma UpdateFits<T>(arrays: seq<seq<T>>, cap: nat, a: nat, s: seq<T>)
    requires Fits(arrays, cap) && a < |arrays| && |s| <= cap
    ensures Fits(arrays[a := s], cap)
  {
  }

  lemma StoreFits<T>(w: World<T>, cap: nat, a: nat, out: Option<seq<T>>, v: T)
    requires a < |w.arrays| && Fits(w.arrays, cap) && (out.Some? ==> |out.value| <= cap)
    ensures Fits(Store(w, a, out, v).arrays, cap)
  {
  }

  lemma MoveFits<T>(w: World<T>, cap: nat, a: nat, b: nat, out: Option<seq<T>>)
    requires a < |w.arrays| && b < |w.arrays| && Fits(w.arrays, cap) && (out.Some? ==> |out.value| <= cap)
    ensures Fits(Move(w, a, b, out).arrays, cap)
  {
  }

  lemma CommandFits<T>(w: World<T>, cap: nat, unwinds: T -> bool, c: Command<T>)
    requires Allowed(w, c) && Fits(w.arrays, cap)
    ensures Fits(Run(w, cap, unwinds, c).arrays, cap)
  {
    var s := w.arrays[c.a];
    match c {
      case Push(a, v) => StoreFits(w, cap, a, Pushed(s, cap, v), v);
      case Insert(a, i, v) => StoreFits(w, cap, a, Inserted(s, cap, i, v), v);
      case Pop(a) => if s != [] { UpdateFits(w.arrays, cap, a, Popped(s).value.0); }
      case Remove(a, i) => if i < |s| { UpdateFits(w.arrays, cap, a, Removed(s, i).value.0); }
      case SplitOff(a, at) => if at <= |s| { UpdateFits(w.arrays, cap, a, s[..at]); }
      case AppendFrom(a, b) => MoveFits(w, cap, a, b, Joined(s, w.arrays[b], cap));
      case PrependFrom(a, b) => MoveFits(w, cap, a, b, Joined(w.arrays[b], s, cap));
      case Clear(a) =>
        ClearingDropsSuffix(s, unwinds);
        UpdateFits(w.arrays, cap, a, Clearing(s, unwinds).rest);
    }
  }

  /** No program overfills an array. */
  lemma {:induction false} CapacityIsRespected<T>(ws: seq<World<T>>, cap: nat, unwinds: T -> bool, cs: seq<Command<T>>)
    requires IsProgram(ws, cap, unwinds, cs) && Fits(ws[0].arrays, cap)
    ensures Fits(ws[|cs|].arrays, cap)
    decreases |cs|
  {
    if cs != [] {
      var n := |cs| - 1;
      assert IsProgram(ws[..n + 1], cap, unwinds, cs[..n]);
      CapacityIsRespected(ws[..n + 1], cap, unwinds, cs[..n]);
      CommandFits(ws[n], cap, unwinds, cs[n]);
    }
  }

  // --------------------------------------------- programs of array methods

  /** Arrays that a program works on: separate objects of one capacity. */
  ghost predicate Apart<T(0)>(arrays: seq<Array<T>>, cap: nat)
    reads set a: Array<T> | a in arrays
  {
    && (forall i :: 0 <= i < |arrays| ==> arrays[i].Valid() && arrays[i].buffer.Length == cap)
    && forall i, j :: 0 <= i < j < |arrays| ==> arrays[i] != arrays[j] && arrays[i].buffer != arrays[j].buffer
  }

  ghost function ContentsOf<T(0)>(arrays: seq<Array<T>>): (ss: seq<seq<T>>)
    requires forall i :: 0 <= i < |arrays| ==> arrays[i].Valid()
    reads set a: Array<T> | a in arrays, set a: Array<T> | a in arrays :: a.buffer
    ensures |ss| == |arrays| && forall i :: 0 <= i < |arrays| ==> ss[i] == arrays[i].Contents()
  {
    seq(|arrays|, i requires 0 <= i < |arrays| && arrays[i].Valid()
                    reads set a: Array<T> | a in arrays, set a: Array<T> | a in arrays :: a.buffer
                    => arrays[i].Contents())
  }

  /** Values a command takes from the caller. */
  function Given<T>(c: Command<T>): multiset<T> {
    if c.Push? || c.Insert? then multiset{c.value} else multiset{}
  }

  function Got<T>(v: Option<T>): multiset<T> {
    if v.Some? then multiset{v.value} else multiset{}
  }

  /** What array methods return and drop, read as a step of the world from `w`
      to `x`. */
  ghost predicate Matches<T>(w: World<T>, x: World<T>, c: Command<T>, ss: seq<seq<T>>, out: Option<T>, gone: seq<T>) {
    && x.arrays == ss
    && x.caller == w.caller - Given(c) + Got(out)
    && x.dropped == w.dropped + multiset(gone)
  }

  /** Adding a value. */
  method PerformPut<T(0)>(arrays: seq<Array<T>>, c: Command<T>, unwinds: T -> bool, ghost cap: nat, ghost w: World<T>)
    returns (after: seq<Array<T>>, out: Option<T>, gone: seq<T>)
    requires Apart(arrays, cap) && w.arrays == ContentsOf(arrays) && Allowed(w, c) && (c.Push? || c.Insert?)
    modifies set a: Array<T> | a in arrays, set a: Array<T> | a in arrays :: a.buffer
    ensures Apart(after, cap) && Matches(w, Run(w, cap, unwinds, c), c, ContentsOf(after), out, gone)
  {
    var panicked;
    if c.Push? {
      panicked := arrays[c.a].Push(c.value);
    } else {
      panicked := arrays[c.a].Insert(c.index, c.value);
    }
    after, out, gone := arrays, None, if panicked then [c.value] else [];
    assert ContentsOf(arrays) == w.arrays[c.a := arrays[c.a].Contents()];
  }

  /** Taking a value, from the end. */
  method PerformPop<T(0)>(arrays: seq<Array<T>>, c: Command<T>, unwinds: T -> bool, ghost cap: nat, ghost w: World<T>)
    returns (after: seq<Array<T>>, out: Option<T>, gone: seq<T>)
    requires Apart(arrays, cap) && w.arrays == ContentsOf(arrays) && Allowed(w, c) && c.Pop?
    modifies set a: Array<T> | a in arrays, set a: Array<T> | a in arrays :: a.buffer
    ensures Apart(after, cap) && Matches(w, Run(w, cap, unwinds, c), c, ContentsOf(after), out, gone)
  {
    out := arrays[c.a].Pop();
    after, gone := arrays, [];
    assert ContentsOf(arrays) == w.arrays[c.a := arrays[c.a].Contents()];
  }

  /** Taking a value, from anywhere. */
  method PerformRemove<T(0)>(arrays: seq<Array<T>>, c: Command<T>, unwinds: T -> bool, ghost cap: nat,
                         ghost w: World<T>)
    returns (after: seq<Array<T>>, out: Option<T>, gone: seq<T>)
    requires Apart(arrays, cap) && w.arrays == ContentsOf(arrays) && Allowed(w, c) && c.Remove?
    modifies set a: Array<T> | a in arrays, set a: Array<T> | a in arrays :: a.buffer
    ensures Apart(after, cap) && Matches(w, Run(w, cap, unwinds, c), c, ContentsOf(after), out, gone)
  {
    out := arrays[c.a].Remove(c.index);
    after, gone := arrays, [];
    assert ContentsOf(arrays) == w.arrays[c.a := arrays[c.a].Contents()];
  }

  /** Moving everything to the end of another array. */
  method PerformAppend<T(0)>(arrays: seq<Array<T>>, c: Command<T>, unwinds: T -> bool, ghost cap: nat,
                         ghost w: World<T>)
    returns (after: seq<Array<T>>, out: Option<T>, gone: seq<T>)
    requires Apart(arrays, cap) && w.arrays == ContentsOf(arrays) && Allowed(w, c) && c.AppendFrom?
    modifies set a: Array<T> | a in arrays, set a: Array<T> | a in arrays :: a.buffer
    ensures Apart(after, cap) && Matches(w, Run(w, cap, unwinds, c), c, ContentsOf(after), out, gone)
  {
    var panicked := arrays[c.a].AppendFrom(arrays[c.b]);
    after, out, gone := arrays, None, [];
    assert ContentsOf(arrays) == w.arrays[c.a := arrays[c.a].Contents()][c.b := arrays[c.b].Contents()];
  }

  /** Moving everything to the front of another array. */
  method PerformPrepend<T(0)>(arrays: seq<Array<T>>, c: Command<T>, unwinds: T -> bool, ghost cap: nat,
                          ghost w: World<T>)
    returns (after: seq<Array<T>>, out: Option<T>, gone: seq<T>)
    requires Apart(arrays, cap) && w.arrays == ContentsOf(arrays) && Allowed(w, c) && c.PrependFrom?
    modifies set a: Array<T> | a in arrays, set a: Array<T> | a in arrays :: a.buffer
    ensures Apart(after, cap) && Matches(w, Run(w, cap, unwinds, c), c, ContentsOf(after), out, gone)
  {
    var panicked := arrays[c.a].PrependFrom(arrays[c.b]);
    after, out, gone := arrays, None, [];
    assert ContentsOf(arrays) == w.arrays[c.a := arrays[c.a].Contents()][c.b := arrays[c.b].Contents()];
  }

  /** Splitting an array in two. */
  method PerformSplit<T(0)>(arrays: seq<Array<T>>, c: Command<T>, unwinds: T -> bool, ghost cap: nat, ghost w: World<T>)
    returns (after: seq<Array<T>>, out: Option<T>, gone: seq<T>)
    requires Apart(arrays, cap) && w.arrays == ContentsOf(arrays) && Allowed(w, c) && c.SplitOff?
    modifies set a: Array<T> | a in arrays, set a: Array<T> | a in arrays :: a.buffer
    ensures Apart(after, cap) && Matches(w, Run(w, cap, unwinds, c), c, ContentsOf(after), out, gone)
  {
    var other := arrays[c.a].SplitOff(c.at);
    after, out, gone := arrays, None, [];
    assert ContentsOf(arrays) == w.arrays[c.a := arrays[c.a].Contents()];
    if other.Some? {
      after := arrays + [other.value];
      assert ContentsOf(after) == ContentsOf(arrays) + [other.value.Contents()];
    }
  }

  /** Dropping values. */
  method PerformClear<T(0)>(arrays: seq<Array<T>>, c: Command<T>, unwinds: T -> bool, ghost cap: nat, ghost w: World<T>)
    returns (after: seq<Array<T>>, out: Option<T>, gone: seq<T>)
    requires Apart(arrays, cap) && w.arrays == ContentsOf(arrays) && Allowed(w, c) && c.Clear?
    modifies set a: Array<T> | a in arrays, set a: Array<T> | a in arrays :: a.buffer
    ensures Apart(after, cap) && Matches(w, Run(w, cap, unwinds, c), c, ContentsOf(after), out, gone)
  {
    var unwound;
    gone, unwound := arrays[c.a].Clear(unwinds);
    after, out := arrays, None;
    assert ContentsOf(arrays) == w.arrays[c.a := arrays[c.a].Contents()];
  }

  /** One command carried out by the array methods is one step of the world: the
      arrays end up with the contents the world has, and what the methods return
      and drop is what the world hands to the caller and drops. */
  method Perform<T(0)>(arrays: seq<Array<T>>, c: Command<T>, unwinds: T -> bool, ghost cap: nat, ghost w: World<T>)
    returns (after: seq<Array<T>>, out: Option<T>, gone: seq<T>)
    requires Apart(arrays, cap) && w.arrays == ContentsOf(arrays) && Allowed(w, c)
    modifies set a: Array<T> | a in arrays, set a: Array<T> | a in arrays :: a.buffer
    ensures Apart(after, cap) && Matches(w, Run(w, cap, unwinds, c), c, ContentsOf(after), out, gone)
  {
    if c.Push? || c.Insert? {
      after, out, gone := PerformPut(arrays, c, unwinds, cap, w);
    } else if c.Pop? {
      after, out, gone := PerformPop(arrays, c, unwinds, cap, w);
    } else if c.Remove? {
      after, out, gone := PerformRemove(arrays, c, unwinds, cap, w);
    } else if c.AppendFrom? {
      after, out, gone := PerformAppend(arrays, c, unwinds, cap, w);
    } else if c.PrependFrom? {
      after, out, gone := PerformPrepend(arrays, c, unwinds, cap, w);
    } else if c.SplitOff? {
      after, out, gone := PerformSplit(arrays, c, unwinds, cap, w);
    } else {
      after, out, gone := PerformClear(arrays, c, unwinds, cap, w);
    }
  }
}
