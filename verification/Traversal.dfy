/** Searches over a frozen heap: where stale handles lead, why searches end,
    and why the pointer graph has no cycle. */
module Traversal {
  import opened Pages
  import opened Stores
  import opened Ownership

  /** Strong pointers: child slots, the right link, a forwarding target. */
  predicate Edge(s: Store, p: PageId, q: PageId)
    requires Valid(s, p)
  {
    || (s.pages[p].kind.Internal? && q in s.pages[p].kind.children)
    || s.pages[p].right == Some(q)
    || (s.pages[p].kind.Redirect? && s.pages[p].kind.target == q)
  }

  /** `q` is on a lower level than `p`, or further right on the same level. */
  predicate Precedes(s: Store, p: PageId, q: PageId)
    requires Valid(s, p) && Valid(s, q)
  {
    || s.pages[q].level < s.pages[p].level
    || (s.pages[q].level == s.pages[p].level && s.pages[p].rank < s.pages[q].rank)
  }

  lemma EdgePrecedes(s: Store, p: PageId, q: PageId)
    requires Inv(s) && Valid(s, p) && Edge(s, p, q)
    ensures Valid(s, q) && Precedes(s, p, q)
  {
    assert PageOk(s, p);
    if s.pages[p].kind.Internal? && q in s.pages[p].kind.children {
      var i :| 0 <= i < |s.pages[p].kind.children| && s.pages[p].kind.children[i] == q;
      assert ChildOk(s, s.pages[p], i);
    }
  }

  ghost predicate IsPath(s: Store, path: seq<PageId>) {
    && |path| > 0
    && (forall i :: 0 <= i < |path| ==> Valid(s, path[i]))
    && (forall i :: 0 < i < |path| ==> Edge(s, path[i - 1], path[i]))
  }

  /** No path of strong pointers returns to its start: pages can be reclaimed
      by reference counting, and no search runs in circles. */
  lemma {:induction false} PointersAcyclic(s: Store, path: seq<PageId>)
    requires Inv(s) && IsPath(s, path) && |path| > 1
    ensures Precedes(s, path[0], path[|path| - 1]) && path[0] != path[|path| - 1]
  {
    var n := |path|;
    EdgePrecedes(s, path[n - 2], path[n - 1]);
    if n > 2 {
      assert IsPath(s, path[..n - 1]);
      PointersAcyclic(s, path[..n - 1]);
    }
  }

  /** Pages of higher rank; shrinks along every rightward step. */
  ghost function Above(s: Store, p: PageId): set<PageId>
    requires Valid(s, p)
  {
    set q: PageId | q < |s.pages| && s.pages[p].rank < s.pages[q].rank
  }

  lemma AboveShrinks(s: Store, p: PageId, q: PageId)
    requires Valid(s, p) && Valid(s, q) && s.pages[p].rank < s.pages[q].rank
    ensures Above(s, q) < Above(s, p)
  {
    assert q in Above(s, p) && q !in Above(s, q);
  }

  // ------------------------------------------------------ routing one page

  /** A finite upper fence always comes with a right link, so routing never
      misses its successor. */
  lemma RoutingIsTotal(s: Store, p: PageId)
    requires Inv(s) && Valid(s, p)
    ensures Active(s.pages[p]) && s.pages[p].high.Some? ==> s.pages[p].right.Some?
  {
    assert PageOk(s, p);
  }

  lemma RightPrecedes(s: Store, p: PageId, k: Key)
    requires Inv(s) && Valid(s, p)
    ensures Active(s.pages[p]) && s.pages[p].high.Some? ==> s.pages[p].right.Some?
    ensures RouteOf(s.pages[p], k).Right? ==>
              var n := RouteOf(s.pages[p], k).next;
              && Valid(s, n) && Precedes(s, p, n)
              && (s.pages[n].level == s.pages[p].level ==> Above(s, n) < Above(s, p))
  {
    assert PageOk(s, p);
    if RouteOf(s.pages[p], k).Right? {
      var n := RouteOf(s.pages[p], k).next;
      if s.pages[n].level == s.pages[p].level { AboveShrinks(s, p, n); }
    }
  }

  /** The child slot a search descends into. */
  function ChildFor(p: Page, k: Key): PageId
    requires p.kind.Internal? && |p.kind.children| == |p.kind.keys| + 1
  {
    p.kind.children[ChildIndex(p.kind.keys, k)]
  }

  /** Descending keeps ownership of the key. */
  lemma ChildOwns(s: Store, p: PageId, k: Key)
    requires Inv(s) && Live(s, p) && s.pages[p].kind.Internal? && Owns(s.pages[p], k)
    ensures |s.pages[p].kind.children| == |s.pages[p].kind.keys| + 1
    ensures var c := ChildFor(s.pages[p], k);
            && Live(s, c) && Owns(s.pages[c], k) && s.pages[c].level + 1 == s.pages[p].level
  {
    assert PageOk(s, p);
    assert ChildOk(s, s.pages[p], ChildIndex(s.pages[p].kind.keys, k));
  }

  // ------------------------------------------------------ whole searches

  /** The search from an arbitrary handle `p`: the leaf it ends at, or None
      when it must restart from the root. */
  ghost function Traverse(s: Store, p: PageId, k: Key): (r: Option<PageId>)
    requires Inv(s) && Valid(s, p)
    ensures r.Some? ==> Live(s, r.value) && s.pages[r.value].kind.Leaf? && Owns(s.pages[r.value], k)
    ensures Live(s, p) && Owns(s.pages[p], k) ==> r.Some?
    decreases s.pages[p].level, Above(s, p)
  {
    RightPrecedes(s, p, k);
    match RouteOf(s.pages[p], k)
    case Restart => None
    case Right(next) => Traverse(s, next, k)
    case Here =>
      if s.pages[p].kind.Leaf? then Some(p)
      else
        ChildOwns(s, p, k);
        Traverse(s, ChildFor(s.pages[p], k), k)
  }

  /** Every page a search visits answers `Here`. */
  ghost predicate Straight(s: Store, p: PageId, k: Key)
    requires Inv(s) && Valid(s, p)
    decreases s.pages[p].level
  {
    RoutingIsTotal(s, p);
    RouteOf(s.pages[p], k).Here? &&
    if s.pages[p].kind.Internal? then
      ChildOwns(s, p, k);
      Straight(s, ChildFor(s.pages[p], k), k)
    else true
  }

  lemma {:induction false} OwnersAreStraight(s: Store, p: PageId, k: Key)
    requires Inv(s) && Live(s, p) && Owns(s.pages[p], k)
    ensures Straight(s, p, k)
    decreases s.pages[p].level
  {
    RoutingIsTotal(s, p);
    if s.pages[p].kind.Internal? {
      ChildOwns(s, p, k);
      OwnersAreStraight(s, ChildFor(s.pages[p], k), k);
    }
  }

  /** A fresh descent from the root slot meets neither Restart nor Right, and a
      search from any handle that does not restart ends at the same leaf. */
  lemma SearchesAgree(s: Store, p: PageId, k: Key)
    requires Inv(s) && Valid(s, p)
    ensures Straight(s, s.root, k) && Traverse(s, s.root, k).Some?
    ensures Traverse(s, p, k).Some? ==> Traverse(s, p, k) == Traverse(s, s.root, k)
  {
    OwnersAreStraight(s, s.root, k);
    if Traverse(s, p, k).Some? {
      var (a, b) := (Traverse(s, p, k).value, Traverse(s, s.root, k).value);
      assert PageOk(s, a) && PageOk(s, b);
      OwnerUnique(s, a, b, k);
    }
  }

  // -------------------------------------------------------- sibling chains

  /** The active page a handle forwards to. */
  ghost function Resolve(s: Store, p: PageId): (r: PageId)
    requires Inv(s) && Valid(s, p)
    ensures Live(s, r)
    decreases s.pages[p].level, Above(s, p)
  {
    if Active(s.pages[p]) then p
    else
      assert PageOk(s, p);
      var t := s.pages[p].kind.target;
      if s.pages[t].level < s.pages[p].level then Resolve(s, t)
      else
        AboveShrinks(s, p, t);
        Resolve(s, t)
  }

  /** No active page of the level of `p` has a rank strictly between. */
  ghost predicate NothingBetween(s: Store, p: PageId, r: PageId)
    requires Valid(s, p) && Valid(s, r)
  {
    forall q: PageId | Live(s, q) && s.pages[q].level == s.pages[p].level ::
      !(s.pages[p].rank < s.pages[q].rank < s.pages[r].rank)
  }

  lemma {:induction false} ResolveSkipsNothing(s: Store, p: PageId, r: PageId)
    requires Inv(s) && Live(s, p) && Valid(s, r)
    requires s.pages[r].level == s.pages[p].level && s.pages[p].rank < s.pages[r].rank
    requires NothingBetween(s, p, r)
    ensures var m := Resolve(s, r);
            && s.pages[m].level == s.pages[p].level && s.pages[p].rank < s.pages[m].rank
            && NothingBetween(s, p, m)
    decreases Above(s, r)
  {
    if !Active(s.pages[r]) {
      assert PageOk(s, r) && GapOk(s, r, p);
      var t := s.pages[r].kind.target;
      forall q: PageId | Live(s, q) && s.pages[q].level == s.pages[p].level
        ensures !(s.pages[p].rank < s.pages[q].rank < s.pages[t].rank)
      {
        assert GapOk(s, r, q) && OrderOk(s, r, q);
      }
      AboveShrinks(s, r, t);
      ResolveSkipsNothing(s, p, t);
    }
  }

  /** Some active page of each level below the root owns any given key. */
  lemma {:induction false} LevelCovers(s: Store, p: PageId, k: Key, level: nat) returns (q: PageId)
    requires Inv(s) && Live(s, p) && Owns(s.pages[p], k) && level <= s.pages[p].level
    ensures Live(s, q) && Owns(s.pages[q], k) && s.pages[q].level == level
    decreases s.pages[p].level
  {
    if level == s.pages[p].level {
      q := p;
    } else {
      assert PageOk(s, p);
      ChildOwns(s, p, k);
      q := LevelCovers(s, ChildFor(s.pages[p], k), k, level);
    }
  }

  /** The active page whose interval ends where the one of `p` starts. */
  lemma LeftOf(s: Store, p: PageId) returns (q: PageId)
    requires Inv(s) && Live(s, p) && s.pages[p].low.Some?
    ensures Live(s, q) && s.pages[q].level == s.pages[p].level && s.pages[q].high == s.pages[p].low
  {
    assert PageOk(s, p);
    q := LevelCovers(s, s.root, s.pages[p].low.value - 1, s.pages[p].level);
    assert PageOk(s, q);
    assert OrderOk(s, p, q) && OrderOk(s, q, p);
  }

  /** Following the right link of an active page through retired pages ends at
      the active page of its level whose interval starts where its own ends. */
  lemma RightLinkLeadsToNeighbour(s: Store, p: PageId)
    requires Inv(s) && Live(s, p) && s.pages[p].high.Some?
    ensures s.pages[p].right.Some? && Valid(s, s.pages[p].right.value)
    ensures var m := Resolve(s, s.pages[p].right.value);
            s.pages[m].level == s.pages[p].level && s.pages[m].low == s.pages[p].high
  {
    assert PageOk(s, p);
    var r := s.pages[p].right.value;
    forall q: PageId | Live(s, q) && s.pages[q].level == s.pages[p].level
      ensures !(s.pages[p].rank < s.pages[q].rank < s.pages[r].rank)
    {
      assert GapOk(s, p, q);
    }
    ResolveSkipsNothing(s, p, r);
    var m := Resolve(s, r);
    var q := LevelCovers(s, s.root, s.pages[p].high.value, s.pages[p].level);
    assert PageOk(s, m) && PageOk(s, q);
    assert OrderOk(s, p, m) && OrderOk(s, m, q) && OrderOk(s, q, p) && OrderOk(s, p, q);
  }

  /** Every page ever allocated is either retired or in the parent tree: an
      active page other than the root has exactly one parent slot. */
  lemma ParentExists(s: Store, c: PageId) returns (p: PageId, i: nat)
    requires Inv(s) && Live(s, c) && c != s.root
    ensures Live(s, p) && s.pages[p].kind.Internal? && i < |s.pages[p].kind.children|
    ensures s.pages[p].kind.children[i] == c
    ensures forall q: PageId, j: nat | Live(s, q) && s.pages[q].kind.Internal? && j < |s.pages[q].kind.children| ::
              s.pages[q].kind.children[j] == c ==> q == p && j == i
  {
    assert PageOk(s, c);
    var k := if s.pages[c].low.Some? then s.pages[c].low.value
             else if s.pages[c].high.Some? then s.pages[c].high.value - 1 else 0;
    p := LevelCovers(s, s.root, k, s.pages[c].level + 1);
    assert PageOk(s, p);
    ChildOwns(s, p, k);
    i := ChildIndex(s.pages[p].kind.keys, k);
    OwnerUnique(s, s.pages[p].kind.children[i], c, k);
    forall q: PageId, j: nat | Live(s, q) && s.pages[q].kind.Internal? && j < |s.pages[q].kind.children|
                               && s.pages[q].kind.children[j] == c
      ensures q == p && j == i
    {
      ParentUnique(s, q, j, p, i);
    }
  }
}
