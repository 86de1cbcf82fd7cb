/** The page heap and the invariant that every atomic step keeps. */
module Stores {
  import opened Pages

  datatype Store = Store(pages: seq<Page>, root: PageId, len: int)

  predicate Valid(s: Store, p: PageId) {
    p < |s.pages|
  }

  /** `p` is an allocated page that has not been retired. */
  predicate Live(s: Store, p: PageId) {
    p < |s.pages| && Active(s.pages[p])
  }

  // ------------------------------------------------------- page conditions

  predicate LeafShape(p: Page)
    requires p.kind.Leaf?
  {
    && SortedEntries(p.kind.entries)
    && forall i :: 0 <= i < |p.kind.entries| ==> Owns(p, p.kind.entries[i].key)
  }

  predicate InternalShape(p: Page)
    requires p.kind.Internal?
  {
    && |p.kind.children| == |p.kind.keys| + 1
    && SortedKeys(p.kind.keys)
    && forall i :: 0 <= i < |p.kind.keys| ==>
         && (p.low.Some? ==> p.low.value < p.kind.keys[i])
         && Below(p.kind.keys[i], p.high)
  }

  /** Conditions on an active page that mention no other page. */
  predicate Shape(p: Page) {
    && (p.kind.Leaf? <==> p.level == 0)
    && (p.low.Some? && p.high.Some? ==> p.low.value < p.high.value)
    && (p.high.Some? <==> p.right.Some?)
    && Occupancy(p) <= N
    && (!p.isRoot ==> Minimum(p) <= Occupancy(p))
    && (p.kind.Leaf? ==> LeafShape(p))
    && (p.kind.Internal? ==> InternalShape(p))
  }

  /** The pointer a search follows to leave a page without descending. */
  function Link(p: Page): Option<PageId> {
    if p.kind.Redirect? then Some(p.kind.target) else p.right
  }

  /** Pointers stay inside the heap and lead down or to the right. */
  predicate PointersOk(s: Store, p: PageId)
    requires Valid(s, p)
  {
    var page := s.pages[p];
    && (page.previous.Some? ==> Valid(s, page.previous.value))
    && (page.right.Some? ==>
          && Valid(s, page.right.value)
          && s.pages[page.right.value].level == page.level
          && page.rank < s.pages[page.right.value].rank)
    && (page.kind.Redirect? ==>
          && Valid(s, page.kind.target)
          && (|| s.pages[page.kind.target].level < page.level
              || (s.pages[page.kind.target].level == page.level
                  && page.rank < s.pages[page.kind.target].rank)))
  }

  /** Child `i` of `p` is active, one level down, and has exactly the fences
      its parent assigns to it. */
  predicate ChildOk(s: Store, p: Page, i: nat)
    requires p.kind.Internal? && |p.kind.children| == |p.kind.keys| + 1 && i < |p.kind.children|
  {
    var c := p.kind.children[i];
    && Live(s, c)
    && s.pages[c].level + 1 == p.level
    && s.pages[c].low == ChildLow(p, i)
    && s.pages[c].high == ChildHigh(p, i)
  }

  predicate RoleOk(s: Store, p: PageId)
    requires Valid(s, p) && Valid(s, s.root)
  {
    && (s.pages[p].isRoot <==> p == s.root)
    && (Active(s.pages[p]) ==>
          && s.pages[p].level <= s.pages[s.root].level
          && (s.pages[p].level == s.pages[s.root].level ==> p == s.root))
  }

  predicate PageOk(s: Store, p: PageId)
    requires Valid(s, p) && Valid(s, s.root)
  {
    && PointersOk(s, p)
    && RoleOk(s, p)
    && (Active(s.pages[p]) ==> Shape(s.pages[p]))
    && (s.pages[p].kind.Internal? ==>
          forall i :: 0 <= i < |s.pages[p].kind.children| ==> ChildOk(s, s.pages[p], i))
  }

  /** Conditions on two pages: ranks are distinct, and active pages of a level
      are ordered by rank exactly as their intervals are ordered. */
  predicate OrderOk(s: Store, p: PageId, q: PageId)
    requires Valid(s, p) && Valid(s, q)
  {
    && (p != q ==> s.pages[p].rank != s.pages[q].rank)
    && (Active(s.pages[p]) && Active(s.pages[q])
        && s.pages[p].level == s.pages[q].level && s.pages[p].rank < s.pages[q].rank
        ==> Before(s.pages[p].high, s.pages[q].low))
  }

  /** The link of `p` never jumps over an active page `q` of its level, and a
      forwarding page that leads to a lower level has no active page to its
      left on its own level. */
  predicate GapOk(s: Store, p: PageId, q: PageId)
    requires Valid(s, p) && Valid(s, q)
  {
    var (a, b) := (s.pages[p], s.pages[q]);
    Active(b) && a.level == b.level && Link(a).Some? && Valid(s, Link(a).value) ==>
      if s.pages[Link(a).value].level == a.level
      then !(a.rank < b.rank < s.pages[Link(a).value].rank)
      else a.rank < b.rank
  }

  predicate RootOk(s: Store) {
    && Live(s, s.root)
    && s.pages[s.root].low == None
    && s.pages[s.root].high == None
  }

  /** The structural invariant. */
  ghost predicate Inv(s: Store) {
    && RootOk(s)
    && (forall p: PageId | p < |s.pages| :: PageOk(s, p))
    && (forall p: PageId, q: PageId | p < |s.pages| && q < |s.pages| :: OrderOk(s, p, q))
    && (forall p: PageId, q: PageId | p < |s.pages| && q < |s.pages| :: GapOk(s, p, q))
  }

  /** The root is an internal page without separators. */
  predicate Hollow(s: Store) {
    Valid(s, s.root) && s.pages[s.root].kind.Internal? && s.pages[s.root].kind.keys == []
  }

  /** A fresh tree: one empty root leaf covering the whole key space. */
  function EmptyStore(): Store {
    Store([Page(true, None, None, None, None, Leaf([]), 0, 0.0)], 0, 0)
  }

  // ----------------------------------------------------------------- ranks

  /** The least rank in use above `r`, or some number above `r`. */
  function NextRank(pages: seq<Page>, r: real): (g: real)
    ensures r < g
    ensures forall i :: 0 <= i < |pages| && r < pages[i].rank ==> g <= pages[i].rank
  {
    if pages == [] then r + 1.0
    else
      var rest := NextRank(pages[1..], r);
      if r < pages[0].rank < rest then pages[0].rank else rest
  }

  /** A rank between `r` and every rank in use above it. */
  function RankAfter(pages: seq<Page>, r: real): (f: real)
    ensures r < f
    ensures forall i :: 0 <= i < |pages| ==> pages[i].rank <= r || f < pages[i].rank
  {
    (r + NextRank(pages, r)) / 2.0
  }

  /** A rank above every rank in use. */
  function TopRank(pages: seq<Page>): (t: real)
    ensures forall i :: 0 <= i < |pages| ==> pages[i].rank < t
  {
    if pages == [] then 0.0
    else
      var rest := TopRank(pages[1..]);
      if pages[0].rank < rest then rest else pages[0].rank + 1.0
  }

  // ---------------------------------------------------------------- records

  function Entries(p: Page): seq<Entry> {
    if p.kind.Leaf? then p.kind.entries else []
  }

  /** All records stored in active leaves. */
  ghost function Records(s: Store): set<Entry> {
    set p: PageId, e | p < |s.pages| && e in Entries(s.pages[p]) :: e
  }

  ghost predicate Functional(r: set<Entry>) {
    forall a, b | a in r && b in r && a.key == b.key :: a == b
  }

  ghost function AsMap(r: set<Entry>): map<Key, Value>
    requires Functional(r)
  {
    map e | e in r :: e.key := e.value
  }
}
