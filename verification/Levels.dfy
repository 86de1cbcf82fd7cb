/** One level of the tree as a list of pages: its fences tile the key space, it
    holds every active page of the level, and it is as long as the chain walk
    of the validator may be. */
module Levels {
  import opened Pages
  import opened Stores
  import opened Ownership
  import opened Abstraction
  import opened Traversal
  import opened Walks
  import opened Quiescence

  /** The pages of level `l` below `p`, left to right. */
  ghost function LevelPages(s: Store, p: PageId, l: nat): seq<PageId>
    requires Inv(s) && Live(s, p) && l <= s.pages[p].level
    decreases s.pages[p].level, 1, 0
  {
    assert PageOk(s, p);
    if s.pages[p].level == l then [p] else LevelPagesFrom(s, p, l, 0)
  }

  ghost function LevelPagesFrom(s: Store, p: PageId, l: nat, i: nat): seq<PageId>
    requires Inv(s) && Live(s, p) && s.pages[p].kind.Internal? && l < s.pages[p].level
    requires i <= |s.pages[p].kind.children|
    decreases s.pages[p].level, 0, |s.pages[p].kind.children| - i
  {
    if i == |s.pages[p].kind.children| then []
    else
      ChildInside(s, p, i);
      LevelPages(s, s.pages[p].kind.children[i], l) + LevelPagesFrom(s, p, l, i + 1)
  }

  /** Page `j` of a list starts where the page before it ends. */
  ghost predicate Adjoins(s: Store, ps: seq<PageId>, j: nat)
    requires 0 < j < |ps| && Valid(s, ps[j - 1]) && Valid(s, ps[j])
  {
    s.pages[ps[j - 1]].high.Some? && s.pages[ps[j - 1]].high == s.pages[ps[j]].low
  }

  /** Active pages of level `l` whose intervals cover `[low, high)` in order. */
  ghost predicate Tiles(s: Store, ps: seq<PageId>, l: nat, low: Option<Key>, high: Option<Key>) {
    && ps != [] && (forall j :: 0 <= j < |ps| ==> Live(s, ps[j]) && s.pages[ps[j]].level == l)
    && s.pages[ps[0]].low == low && s.pages[ps[|ps| - 1]].high == high
    && forall j: nat | 0 < j < |ps| :: Adjoins(s, ps, j)
  }

  lemma TilesJoin(s: Store, a: seq<PageId>, b: seq<PageId>, l: nat, low: Option<Key>, mid: Key, high: Option<Key>)
    requires Tiles(s, a, l, low, Some(mid)) && Tiles(s, b, l, Some(mid), high)
    ensures Tiles(s, a + b, l, low, high)
  {
    forall j: nat | 0 < j < |a + b| ensures Adjoins(s, a + b, j) {
      if j < |a| {
        assert Adjoins(s, a, j);
      } else if j > |a| {
        assert Adjoins(s, b, j - |a|);
      }
    }
  }

  /** The pages of a level tile the interval of their common ancestor. */
  lemma {:induction false} LevelTiles(s: Store, p: PageId, l: nat)
    requires Inv(s) && Live(s, p) && l <= s.pages[p].level
    ensures Tiles(s, LevelPages(s, p, l), l, s.pages[p].low, s.pages[p].high)
    decreases s.pages[p].level, 1, 0
  {
    assert PageOk(s, p);
    if s.pages[p].level > l { LevelTilesFrom(s, p, l, 0); }
  }

  lemma {:induction false} LevelTilesFrom(s: Store, p: PageId, l: nat, i: nat)
    requires Inv(s) && Live(s, p) && s.pages[p].kind.Internal? && l < s.pages[p].level
    requires i < |s.pages[p].kind.children| == |s.pages[p].kind.keys| + 1
    ensures Tiles(s, LevelPagesFrom(s, p, l, i), l, ChildLow(s.pages[p], i), s.pages[p].high)
    decreases s.pages[p].level, 0, |s.pages[p].kind.children| - i
  {
    ChildInside(s, p, i);
    var c := s.pages[p].kind.children[i];
    LevelTiles(s, c, l);
    if i + 1 < |s.pages[p].kind.children| {
      LevelTilesFrom(s, p, l, i + 1);
      TilesJoin(s, LevelPages(s, c, l), LevelPagesFrom(s, p, l, i + 1), l,
                ChildLow(s.pages[p], i), s.pages[p].kind.keys[i], s.pages[p].high);
    } else {
      assert LevelPagesFrom(s, p, l, i + 1) == [];
      assert LevelPagesFrom(s, p, l, i) == LevelPages(s, c, l);
    }
  }

  lemma {:induction false} BelowSlot(s: Store, p: PageId, l: nat, i: nat, j: nat, q: PageId)
    requires Inv(s) && Live(s, p) && s.pages[p].kind.Internal? && l < s.pages[p].level
    requires i <= j < |s.pages[p].kind.children| && Live(s, s.pages[p].kind.children[j])
    requires l <= s.pages[s.pages[p].kind.children[j]].level
    requires q in LevelPages(s, s.pages[p].kind.children[j], l)
    ensures q in LevelPagesFrom(s, p, l, i)
    decreases j - i
  {
    if i < j { BelowSlot(s, p, l, i + 1, j, q); }
  }

  /** A page is listed below every ancestor level page that shares a key. */
  lemma {:induction false} LevelHas(s: Store, p: PageId, q: PageId, k: Key)
    requires Inv(s) && Live(s, p) && Live(s, q) && s.pages[q].level <= s.pages[p].level
    requires Owns(s.pages[p], k) && Owns(s.pages[q], k)
    ensures q in LevelPages(s, p, s.pages[q].level)
    decreases s.pages[p].level
  {
    assert PageOk(s, p);
    if s.pages[p].level == s.pages[q].level {
      OwnerUnique(s, p, q, k);
    } else {
      ChildOwns(s, p, k);
      LevelHas(s, ChildFor(s.pages[p], k), q, k);
      BelowSlot(s, p, s.pages[q].level, 0, ChildIndex(s.pages[p].kind.keys, k), q);
    }
  }

  /** The list of a level holds each of its active pages. */
  lemma LevelComplete(s: Store, q: PageId)
    requires Inv(s) && Live(s, q)
    ensures s.pages[q].level <= s.pages[s.root].level && q in LevelPages(s, s.root, s.pages[q].level)
  {
    assert PageOk(s, q) && PageOk(s, s.root);
    var page := s.pages[q];
    LevelHas(s, s.root, q,
             if page.low.Some? then page.low.value else if page.high.Some? then page.high.value - 1 else 0);
  }

  // ------------------------------------------------------------------- width

  lemma {:induction false} LevelNoWiderThanRecords(s: Store, p: PageId, l: nat)
    requires Inv(s) && Live(s, p) && p != s.root && l <= s.pages[p].level
    ensures |LevelPages(s, p, l)| <= |InOrder(s, p)|
    decreases s.pages[p].level, 1, 0
  {
    assert PageOk(s, p);
    CountBelow(s, p);
    LeastIsPositive(s.pages[p].level);
    if s.pages[p].level > l { SlotsNoWiderThanRecords(s, p, l, 0); }
  }

  lemma {:induction false} SlotsNoWiderThanRecords(s: Store, p: PageId, l: nat, i: nat)
    requires Inv(s) && Live(s, p) && s.pages[p].kind.Internal? && l < s.pages[p].level
    requires i <= |s.pages[p].kind.children|
    ensures |LevelPagesFrom(s, p, l, i)| <= |InOrderFrom(s, p, i)|
    decreases s.pages[p].level, 0, |s.pages[p].kind.children| - i
  {
    if i < |s.pages[p].kind.children| {
      ChildInside(s, p, i);
      RootIsNoChild(s, p, i);
      LevelNoWiderThanRecords(s, s.pages[p].kind.children[i], l);
      SlotsNoWiderThanRecords(s, p, l, i + 1);
    }
  }

  /** No level has more pages than the map has records, save the root's own:
      a walk along a level never exceeds the validator's traversal limit. */
  lemma LevelWidth(s: Store, l: nat)
    requires Inv(s) && LenOk(s) && l <= s.pages[s.root].level
    ensures |LevelPages(s, s.root, l)| <= if s.len > 1 then s.len else 1
  {
    WalkListsContents(s);
    assert PageOk(s, s.root);
    if s.pages[s.root].level > l { SlotsNoWiderThanRecords(s, s.root, l, 0); }
  }

  // ------------------------------------------------------------------ chains

  /** Page `j` of a level list is linked to its neighbours in the list. */
  ghost predicate LinkedAt(s: Store, ps: seq<PageId>, j: nat)
    requires j < |ps| && Valid(s, ps[j])
  {
    && s.pages[ps[j]].previous == (if j == 0 then None else Some(ps[j - 1]))
    && s.pages[ps[j]].right == (if j == |ps| - 1 then None else Some(ps[j + 1]))
  }

  /** The right chain of every level is exactly its pages in key order, with
      the back-links as its inverse. */
  lemma ChainFollowsLevel(s: Store, l: nat, j: nat)
    requires Inv(s) && Chained(s) && l <= s.pages[s.root].level && j < |LevelPages(s, s.root, l)|
    ensures Tiles(s, LevelPages(s, s.root, l), l, None, None)
    ensures LinkedAt(s, LevelPages(s, s.root, l), j)
  {
    var ps := LevelPages(s, s.root, l);
    LevelTiles(s, s.root, l);
    ChainIsKeyOrder(s, ps[j]);
    assert PageOk(s, ps[j]);
    if j + 1 < |ps| {
      assert Adjoins(s, ps, j + 1);
      NextInLevel(s, ps[j], ps[j + 1], s.pages[ps[j]].right.value);
    }
    if j > 0 {
      assert Adjoins(s, ps, j);
      ChainIsKeyOrder(s, ps[j - 1]);
      NextInLevel(s, ps[j - 1], ps[j], s.pages[ps[j - 1]].right.value);
    }
  }

  /** Only one active page of a level starts where another one ends. */
  lemma NextInLevel(s: Store, p: PageId, q: PageId, r: PageId)
    requires Inv(s) && Live(s, p) && Live(s, q) && Live(s, r) && s.pages[p].high.Some?
    requires s.pages[q].level == s.pages[r].level == s.pages[p].level
    requires s.pages[q].low == s.pages[p].high == s.pages[r].low
    ensures q == r
  {
    assert PageOk(s, q) && PageOk(s, r);
    OwnerUnique(s, q, r, s.pages[p].high.value);
  }

  /** Conversely, a heap whose level lists are all linked is chained. */
  lemma LinkedLevelsAreChained(s: Store)
    requires Inv(s)
    requires forall l: nat | l <= s.pages[s.root].level ::
               Tiles(s, LevelPages(s, s.root, l), l, None, None) &&
               forall j: nat | j < |LevelPages(s, s.root, l)| :: LinkedAt(s, LevelPages(s, s.root, l), j)
    ensures Chained(s)
  {
    forall q: PageId | q < |s.pages| ensures ChainOk(s, q) {
      if Active(s.pages[q]) {
        LevelComplete(s, q);
        var ps := LevelPages(s, s.root, s.pages[q].level);
        var j: nat :| j < |ps| && ps[j] == q;
        assert LinkedAt(s, ps, j);
        if j > 0 { assert Adjoins(s, ps, j) && LinkedAt(s, ps, j - 1); }
        if j + 1 < |ps| { assert LinkedAt(s, ps, j + 1); }
      }
    }
  }
}
