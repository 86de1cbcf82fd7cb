/** The tree read from left to right: its records in key order, the checks of
    the exhaustive validator, and how many records and pages a tree can have. */
module Walks {
  import opened Pages
  import opened Stores
  import opened Ownership
  import opened Abstraction

  /** The records below `p`, left to right. */
  ghost function InOrder(s: Store, p: PageId): seq<Entry>
    requires Inv(s) && Live(s, p)
    decreases s.pages[p].level, 1, 0
  {
    if s.pages[p].kind.Leaf? then s.pages[p].kind.entries else InOrderFrom(s, p, 0)
  }

  /** The records below children `i..` of `p`. */
  ghost function InOrderFrom(s: Store, p: PageId, i: nat): seq<Entry>
    requires Inv(s) && Live(s, p) && s.pages[p].kind.Internal? && i <= |s.pages[p].kind.children|
    decreases s.pages[p].level, 0, |s.pages[p].kind.children| - i
  {
    if i == |s.pages[p].kind.children| then []
    else
      ChildInside(s, p, i);
      InOrder(s, s.pages[p].kind.children[i]) + InOrderFrom(s, p, i + 1)
  }

  /** Sorted records whose keys lie in `[low, high)`. */
  predicate SortedWithin(es: seq<Entry>, low: Option<Key>, high: Option<Key>) {
    SortedEntries(es) && forall i :: 0 <= i < |es| ==> AtOrAbove(es[i].key, low) && Below(es[i].key, high)
  }

  lemma AppendSorted(a: seq<Entry>, b: seq<Entry>, low: Option<Key>, mid: Key, high: Option<Key>)
    requires SortedWithin(a, low, Some(mid)) && SortedWithin(b, Some(mid), high)
    requires (low.Some? ==> low.value <= mid) && (high.Some? ==> mid <= high.value)
    ensures SortedWithin(a + b, low, high)
  {
  }

  lemma {:induction false} WalkSorted(s: Store, p: PageId)
    requires Inv(s) && Live(s, p)
    ensures SortedWithin(InOrder(s, p), s.pages[p].low, s.pages[p].high)
    decreases s.pages[p].level, 1, 0
  {
    assert PageOk(s, p);
    if s.pages[p].kind.Internal? { WalkFromSorted(s, p, 0); }
  }

  lemma {:induction false} WalkFromSorted(s: Store, p: PageId, i: nat)
    requires Inv(s) && Live(s, p) && s.pages[p].kind.Internal?
    requires i < |s.pages[p].kind.children| == |s.pages[p].kind.keys| + 1
    ensures SortedWithin(InOrderFrom(s, p, i), ChildLow(s.pages[p], i), s.pages[p].high)
    decreases s.pages[p].level, 0, |s.pages[p].kind.children| - i
  {
    ChildInside(s, p, i);
    var c := s.pages[p].kind.children[i];
    WalkSorted(s, c);
    if i + 1 < |s.pages[p].kind.children| {
      WalkFromSorted(s, p, i + 1);
      assert PageOk(s, p);
      AppendSorted(InOrder(s, c), InOrderFrom(s, p, i + 1),
                   ChildLow(s.pages[p], i), s.pages[p].kind.keys[i], s.pages[p].high);
    } else {
      assert InOrderFrom(s, p, i + 1) == [];
      assert InOrderFrom(s, p, i) == InOrder(s, c);
    }
  }

  /** The walk meets exactly the stored records in the interval of `p`. */
  lemma {:induction false} WalkMeets(s: Store, p: PageId, e: Entry)
    requires Inv(s) && Live(s, p)
    ensures e in InOrder(s, p) <==> e in Records(s) && Owns(s.pages[p], e.key)
    decreases s.pages[p].level, 1, 0
  {
    assert PageOk(s, p);
    if s.pages[p].kind.Internal? {
      WalkFromMeets(s, p, 0, e);
    } else {
      if e in InOrder(s, p) { assert e in Entries(s.pages[p]); }
      if e in Records(s) && Owns(s.pages[p], e.key) {
        var q: PageId :| q < |s.pages| && e in Entries(s.pages[q]);
        assert PageOk(s, q);
        OwnerUnique(s, p, q, e.key);
      }
    }
  }

  lemma {:induction false} WalkFromMeets(s: Store, p: PageId, i: nat, e: Entry)
    requires Inv(s) && Live(s, p) && s.pages[p].kind.Internal?
    requires i < |s.pages[p].kind.children| == |s.pages[p].kind.keys| + 1
    ensures e in InOrderFrom(s, p, i) <==>
            e in Records(s) && AtOrAbove(e.key, ChildLow(s.pages[p], i)) && Below(e.key, s.pages[p].high)
    decreases s.pages[p].level, 0, |s.pages[p].kind.children| - i
  {
    ChildInside(s, p, i);
    var c := s.pages[p].kind.children[i];
    WalkMeets(s, c, e);
    assert PageOk(s, p);
    if i + 1 < |s.pages[p].kind.children| {
      WalkFromMeets(s, p, i + 1, e);
      assert i > 0 ==> s.pages[p].kind.keys[i - 1] < s.pages[p].kind.keys[i];
    } else {
      assert InOrderFrom(s, p, i + 1) == [];
    }
  }

  /** Sorted sequences with the same members are equal. */
  lemma {:induction false} SortedUnique(a: seq<Entry>, b: seq<Entry>)
    requires SortedEntries(a) && SortedEntries(b)
    requires forall e: Entry :: e in a <==> e in b
    ensures a == b
  {
    if a == [] {
      assert forall i :: 0 <= i < |b| ==> b[i] in b;
    } else {
      assert a[0] in b;
      assert b != [] && b[0] in a;
      assert a[0] == b[0];
      forall e: Entry ensures e in a[1..] <==> e in b[1..] {
        assert e in a <==> e == a[0] || e in a[1..];
        assert e in b <==> e == b[0] || e in b[1..];
        assert a[0] !in a[1..] && b[0] !in b[1..];
      }
      SortedUnique(a[1..], b[1..]);
    }
  }

  /** Stores that hold the same records read the same from left to right: every
      structural step keeps the concatenation of the leaves. */
  lemma SameRecordsSameWalk(s: Store, t: Store)
    requires Inv(s) && Inv(t) && Records(s) == Records(t)
    ensures InOrder(s, s.root) == InOrder(t, t.root)
  {
    WalkSorted(s, s.root);
    WalkSorted(t, t.root);
    forall e: Entry ensures e in InOrder(s, s.root) <==> e in InOrder(t, t.root) {
      WalkMeets(s, s.root, e);
      WalkMeets(t, t.root, e);
    }
    SortedUnique(InOrder(s, s.root), InOrder(t, t.root));
  }

  lemma {:induction false} SortedCount(es: seq<Entry>, m: map<Key, Value>)
    requires SortedEntries(es)
    requires forall e: Entry :: e in es <==> e.key in m && m[e.key] == e.value
    ensures |es| == |m|
  {
    if es == [] {
      forall k ensures k !in m {
        var v := if k in m then Some(m[k]) else None;
        assert v.Some? ==> Entry(k, v.value) !in es;
      }
      assert m == map[];
    } else {
      var x := es[0];
      assert x in es;
      var n := m - {x.key};
      assert m == n[x.key := x.value];
      forall e: Entry ensures e in es[1..] <==> e.key in n && n[e.key] == e.value {
        assert e in es <==> e == x || e in es[1..];
        assert e in es[1..] ==> x.key < e.key;
      }
      SortedCount(es[1..], n);
    }
  }

  /** The walk lists the map in key order, each record once. */
  lemma WalkListsContents(s: Store)
    requires Inv(s)
    ensures SortedEntries(InOrder(s, s.root))
    ensures forall e: Entry :: e in InOrder(s, s.root) <==> e.key in Contents(s) && Contents(s)[e.key] == e.value
    ensures |InOrder(s, s.root)| == |Contents(s)|
  {
    WalkSorted(s, s.root);
    RecordsFunctional(s);
    forall e: Entry ensures e in InOrder(s, s.root) <==> e.key in Contents(s) && Contents(s)[e.key] == e.value {
      WalkMeets(s, s.root, e);
    }
    SortedCount(InOrder(s, s.root), Contents(s));
  }

  // ------------------------------------------------------------- size bounds

  function Pow(b: nat, e: nat): nat {
    if e == 0 then 1 else b * Pow(b, e - 1)
  }

  /** Fewest and most children of an internal page that is not the root. */
  const FEWEST: nat := (N - 1) / 2 + 1
  const MOST: nat := N + 1

  function LeastBelow(level: nat): nat { (N / 2) * Pow(FEWEST, level) }
  function MostBelow(level: nat): nat { N * Pow(MOST, level) }

  lemma MulMonotone(a: nat, b: nat, c: nat, d: nat)
    requires a <= b && c <= d
    ensures a * c <= b * d
  {
  }

  lemma PowStep(x: nat, b: nat, level: nat)
    ensures x * Pow(b, level + 1) == b * (x * Pow(b, level))
  {
  }

  lemma OneMore(n: nat, a: nat, b: nat, x: nat, rest: nat)
    requires n > 0 && a <= x <= b && (n - 1) * a <= rest <= (n - 1) * b
    ensures n * a <= x + rest <= n * b
  {
  }

  /** Records below `i..` children, given bounds for each child. */
  lemma {:induction false} CountFrom(s: Store, p: PageId, i: nat)
    requires Inv(s) && Live(s, p) && s.pages[p].kind.Internal? && i <= |s.pages[p].kind.children|
    ensures s.pages[p].level > 0
    ensures var n := |s.pages[p].kind.children| - i;
            n * LeastBelow(s.pages[p].level - 1) <= |InOrderFrom(s, p, i)| <= n * MostBelow(s.pages[p].level - 1)
    decreases s.pages[p].level, 0, |s.pages[p].kind.children| - i
  {
    assert PageOk(s, p);
    if i < |s.pages[p].kind.children| {
      ChildInside(s, p, i);
      RootIsNoChild(s, p, i);
      CountBelow(s, s.pages[p].kind.children[i]);
      CountFrom(s, p, i + 1);
      var c := s.pages[p].kind.children[i];
      assert |InOrderFrom(s, p, i)| == |InOrder(s, c)| + |InOrderFrom(s, p, i + 1)|;
      OneMore(|s.pages[p].kind.children| - i, LeastBelow(s.pages[p].level - 1), MostBelow(s.pages[p].level - 1),
              |InOrder(s, c)|, |InOrderFrom(s, p, i + 1)|);
    }
  }

  /** A page that is not the root stands for between `(N/2) * FEWEST^level` and
      `N * (N+1)^level` records; the upper bound holds for the root too. */
  lemma {:induction false} CountBelow(s: Store, p: PageId)
    requires Inv(s) && Live(s, p)
    ensures |InOrder(s, p)| <= MostBelow(s.pages[p].level)
    ensures p != s.root ==> LeastBelow(s.pages[p].level) <= |InOrder(s, p)|
    decreases s.pages[p].level, 1, 0
  {
    assert PageOk(s, p);
    if s.pages[p].kind.Internal? {
      CountFrom(s, p, 0);
      var (n, l) := (|s.pages[p].kind.children|, s.pages[p].level - 1);
      PowStep(N, MOST, l);
      PowStep(N / 2, FEWEST, l);
      MulMonotone(n, MOST, MostBelow(l), MostBelow(l));
      if p != s.root { MulMonotone(FEWEST, n, LeastBelow(l), LeastBelow(l)); }
    }
  }

  lemma RootCount(s: Store)
    requires Inv(s) && s.pages[s.root].kind.Internal? && s.pages[s.root].kind.keys != []
    ensures s.pages[s.root].level > 0
    ensures 2 * LeastBelow(s.pages[s.root].level - 1) <= |InOrder(s, s.root)|
  {
    assert PageOk(s, s.root);
    CountFrom(s, s.root, 0);
    var l := LeastBelow(s.pages[s.root].level - 1);
    MulMonotone(2, |s.pages[s.root].kind.children|, l, l);
  }

  /** With `h >= 2` levels and a root that has a separator, the number of
      records lies between `2 * (N/2) * FEWEST^(h-2)` and `N * (N+1)^(h-1)`. */
  lemma SizeBounds(s: Store, h: nat)
    requires Inv(s) && LenOk(s) && s.pages[s.root].level == h - 1
    ensures s.len <= N * Pow(N + 1, h - 1)
    ensures h >= 2 && Occupancy(s.pages[s.root]) > 0 ==> 2 * ((N / 2) * Pow((N - 1) / 2 + 1, h - 2)) <= s.len
  {
    WalkListsContents(s);
    CountBelow(s, s.root);
    if h >= 2 && Occupancy(s.pages[s.root]) > 0 {
      assert PageOk(s, s.root);
      RootCount(s);
    }
  }

  lemma LeastIsPositive(level: nat)
    ensures LeastBelow(level) >= 1
  {
    PowPositive(FEWEST, level);
    MulMonotone(1, N / 2, 1, Pow(FEWEST, level));
  }

  lemma {:induction false} PowPositive(b: nat, e: nat)
    requires b > 0
    ensures Pow(b, e) >= 1
  {
    if e > 0 {
      PowPositive(b, e - 1);
      MulMonotone(1, b, 1, Pow(b, e - 1));
    }
  }

  // --------------------------------------------------------------- validator

  datatype Verdict = Accepted(leafDepth: Option<nat>, count: nat) | Rejected(reason: string)

  predicate Increasing(es: seq<Entry>) {
    forall i :: 0 < i < |es| ==> es[i - 1].key < es[i].key
  }

  predicate IncreasingKeys(ks: seq<Key>) {
    forall i :: 0 < i < |ks| ==> ks[i - 1] < ks[i]
  }

  /** The recursive validator: ordering, fences, occupancy, depth and count. */
  function ValidateNode(s: Store, p: PageId, isRoot: bool, depth: nat, leafDepth: Option<nat>, count: nat): Verdict
    requires Inv(s) && Valid(s, p)
    decreases s.pages[p].level, 1, 0
  {
    var page := s.pages[p];
    if Occupancy(page) > N then Rejected("page exceeds stable capacity")
    else if page.isRoot != isRoot then Rejected("page root-role marker is inconsistent")
    else if !isRoot && Occupancy(page) < Minimum(page) then Rejected("non-root page is below minimum occupancy")
    else match page.kind
      case Redirect(_) => Rejected("parent tree reaches a retired page")
      case Leaf(entries) =>
        if leafDepth.Some? && leafDepth.value != depth then Rejected("leaves do not share one depth")
        else if !Increasing(entries) then Rejected("leaf records are not strictly ordered")
        else if exists i :: 0 <= i < |entries| && !Owns(page, entries[i].key)
        then Rejected("leaf record lies outside page fences")
        else Accepted(Some(depth), count + |entries|)
      case Internal(keys, children) =>
        if |children| != |keys| + 1 then Rejected("internal child/key cardinality mismatch")
        else if isRoot && keys == [] then Rejected("empty internal root was not collapsed")
        else if !IncreasingKeys(keys) then Rejected("internal separators are not ordered")
        else if exists i :: 0 <= i < |keys| && !Owns(page, keys[i]) then Rejected("separator lies outside page fences")
        else ValidateChildren(s, p, 0, depth, leafDepth, count)
  }

  function ValidateChildren(s: Store, p: PageId, i: nat, depth: nat, leafDepth: Option<nat>, count: nat): Verdict
    requires Inv(s) && Live(s, p) && s.pages[p].kind.Internal?
    requires |s.pages[p].kind.children| == |s.pages[p].kind.keys| + 1 && i <= |s.pages[p].kind.children|
    decreases s.pages[p].level, 0, |s.pages[p].kind.children| - i
  {
    if i == |s.pages[p].kind.children| then Accepted(leafDepth, count)
    else
      ChildInside(s, p, i);
      var c := s.pages[p].kind.children[i];
      if s.pages[c].low != ChildLow(s.pages[p], i) || s.pages[c].high != ChildHigh(s.pages[p], i)
      then Rejected("child fences disagree with parent bounds")
      else
        var v := ValidateNode(s, c, false, depth + 1, leafDepth, count);
        if v.Rejected? then v else ValidateChildren(s, p, i + 1, depth, v.leafDepth, v.count)
  }

  lemma {:induction false} NodeAccepted(s: Store, p: PageId, depth: nat, leafDepth: Option<nat>, count: nat)
    requires Inv(s) && Live(s, p) && (p == s.root ==> s.pages[p].kind.Leaf? || s.pages[p].kind.keys != [])
    requires leafDepth.Some? ==> leafDepth.value == depth + s.pages[p].level
    ensures ValidateNode(s, p, p == s.root, depth, leafDepth, count)
         == Accepted(Some(depth + s.pages[p].level), count + |InOrder(s, p)|)
    decreases s.pages[p].level, 1, 0
  {
    assert PageOk(s, p);
    var page := s.pages[p];
    if page.kind.Internal? {
      assert forall i :: 0 <= i < |page.kind.keys| ==> Owns(page, page.kind.keys[i]);
      ChildrenAccepted(s, p, 0, depth, leafDepth, count);
    }
  }

  lemma {:induction false} ChildrenAccepted(s: Store, p: PageId, i: nat, depth: nat, leafDepth: Option<nat>, count: nat)
    requires Inv(s) && Live(s, p) && s.pages[p].kind.Internal?
    requires |s.pages[p].kind.children| == |s.pages[p].kind.keys| + 1 && i <= |s.pages[p].kind.children|
    requires leafDepth.Some? ==> leafDepth.value == depth + s.pages[p].level
    requires i == |s.pages[p].kind.children| ==> leafDepth.Some?
    ensures ValidateChildren(s, p, i, depth, leafDepth, count)
         == Accepted(Some(depth + s.pages[p].level), count + |InOrderFrom(s, p, i)|)
    decreases s.pages[p].level, 0, |s.pages[p].kind.children| - i
  {
    if i < |s.pages[p].kind.children| {
      ChildInside(s, p, i);
      RootIsNoChild(s, p, i);
      var c := s.pages[p].kind.children[i];
      NodeAccepted(s, c, depth + 1, leafDepth, count);
      ChildrenAccepted(s, p, i + 1, depth, Some(depth + s.pages[p].level), count + |InOrder(s, c)|);
    }
  }

  lemma HollowRootRejected(s: Store)
    requires Inv(s) && Hollow(s)
    ensures ValidateNode(s, s.root, true, 1, None, 0) == Rejected("empty internal root was not collapsed")
  {
    assert PageOk(s, s.root);
  }

  lemma OtherRootAccepted(s: Store)
    requires Inv(s) && !Hollow(s)
    ensures ValidateNode(s, s.root, true, 1, None, 0)
         == Accepted(Some(1 + s.pages[s.root].level), |InOrder(s, s.root)|)
  {
    NodeAccepted(s, s.root, 1, None, 0);
  }

  /** The validator rejects a tree exactly when its root is an internal page
      that lost its last separator; otherwise it counts the map's records. */
  lemma ValidatorAccepts(s: Store)
    requires Inv(s)
    ensures Hollow(s) ==>
              ValidateNode(s, s.root, true, 1, None, 0) == Rejected("empty internal root was not collapsed")
    ensures !Hollow(s) ==>
              (ValidateNode(s, s.root, true, 1, None, 0)
               == Accepted(Some(1 + s.pages[s.root].level), |Contents(s)|))
  {
    if Hollow(s) {
      HollowRootRejected(s);
    } else {
      OtherRootAccepted(s);
      WalkListsContents(s);
    }
  }
}
