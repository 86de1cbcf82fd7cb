/** Page types of the tree and the page-local algorithms: routing, searching,
    splitting, and the three sibling rewrites. */
module Pages {

  /** Page capacity. The constant is left unspecified, so every result holds
      for each capacity a map can be instantiated with. */
  type Capacity = n: nat | 3 <= n witness 3
  const N: Capacity

  type Key = int
  type Value(==, !new)
  type PageId = nat

  datatype Option<+T> = None | Some(value: T)

  datatype Entry = Entry(key: Key, value: Value)

  datatype Kind =
    | Internal(keys: seq<Key>, children: seq<PageId>)
    | Leaf(entries: seq<Entry>)
    | Redirect(target: PageId)

  /** One latched page. `level` and `rank` are auxiliary: they are fixed when
      the page is allocated, order the pages top-down and left-to-right in the
      proofs, and no algorithm ever branches on them. */
  datatype Page = Page(
    isRoot: bool,
    low: Option<Key>,
    high: Option<Key>,
    previous: Option<PageId>,
    right: Option<PageId>,
    kind: Kind,
    level: nat,
    rank: real)

  predicate Active(p: Page) {
    !p.kind.Redirect?
  }

  function Occupancy(p: Page): nat {
    match p.kind
    case Internal(keys, _) => |keys|
    case Leaf(entries) => |entries|
    case Redirect(_) => 0
  }

  function Minimum(p: Page): nat {
    match p.kind
    case Internal(_, _) => (N - 1) / 2
    case Leaf(_) => N / 2
    case Redirect(_) => 0
  }

  // ---------------------------------------------------------------- fences

  predicate AtOrAbove(k: Key, low: Option<Key>) {
    low.Some? ==> low.value <= k
  }

  predicate Below(k: Key, high: Option<Key>) {
    high.Some? ==> k < high.value
  }

  /** The half-open interval `[low, high)` of a page contains `k`. */
  predicate Owns(p: Page, k: Key) {
    AtOrAbove(k, p.low) && Below(k, p.high)
  }

  /** An interval ending at `high` lies entirely before one starting at `low`. */
  predicate Before(high: Option<Key>, low: Option<Key>) {
    high.Some? && low.Some? && high.value <= low.value
  }

  /** Fences of the `i`-th child of an internal page. */
  function ChildLow(p: Page, i: nat): Option<Key>
    requires p.kind.Internal? && i <= |p.kind.keys|
  {
    if i == 0 then p.low else Some(p.kind.keys[i - 1])
  }

  function ChildHigh(p: Page, i: nat): Option<Key>
    requires p.kind.Internal? && i <= |p.kind.keys|
  {
    if i == |p.kind.keys| then p.high else Some(p.kind.keys[i])
  }

  // --------------------------------------------------------------- routing

  datatype Route = Restart | Right(next: PageId) | Here

  /** The two-fence stale-route check. `right` must be present whenever the
      upper fence is finite; the page invariant provides that. */
  function RouteOf(p: Page, k: Key): Route
    requires Active(p) && p.high.Some? ==> p.right.Some?
  {
    if p.kind.Redirect? then Right(p.kind.target)
    else if !AtOrAbove(k, p.low) then Restart
    else if !Below(k, p.high) then Right(p.right.value)
    else Here
  }

  predicate SortedKeys(ks: seq<Key>) {
    forall i, j :: 0 <= i < j < |ks| ==> ks[i] < ks[j]
  }

  predicate SortedEntries(es: seq<Entry>) {
    forall i, j :: 0 <= i < j < |es| ==> es[i].key < es[j].key
  }

  /** Number of leading separators that are not above `k`. */
  function ChildIndex(ks: seq<Key>, k: Key): (i: nat)
    ensures i <= |ks|
    ensures forall j :: 0 <= j < i ==> ks[j] <= k
    ensures i < |ks| ==> k < ks[i]
  {
    if ks == [] || k < ks[0] then 0 else 1 + ChildIndex(ks[1..], k)
  }

  /** Number of leading records whose key is below `k`. */
  function LowerBound(es: seq<Entry>, k: Key): (i: nat)
    ensures i <= |es|
    ensures forall j :: 0 <= j < i ==> es[j].key < k
    ensures i < |es| ==> k <= es[i].key
  {
    if es == [] || k <= es[0].key then 0 else 1 + LowerBound(es[1..], k)
  }

  datatype SearchResult = Found(index: nat) | Missing(index: nat)

  /** The record holding `k`, or the place where it belongs. */
  function Search(es: seq<Entry>, k: Key): (r: SearchResult)
    ensures r.Found? ==> r.index < |es| && es[r.index].key == k
    ensures r.Missing? ==> r.index <= |es|
    ensures SortedEntries(es) && r.Missing? ==> forall e :: e in es ==> e.key != k
  {
    var i := LowerBound(es, k);
    if i < |es| && es[i].key == k then Found(i) else Missing(i)
  }

  // ---------------------------------------------------------------- splits

  datatype Split = Split(left: Page, separator: Key, right: Page)

  /** Splits a full page `self` into itself and the new page `newId`. */
  function SplitFull(p: Page, self: PageId, newId: PageId, rank: real): Split
    requires Active(p) && Occupancy(p) == N
    requires p.kind.Internal? ==> |p.kind.children| == |p.kind.keys| + 1
  {
    var m := N / 2;
    match p.kind
    case Leaf(entries) =>
      SplitAt(p, self, newId, rank, entries[m].key, Leaf(entries[..m]), Leaf(entries[m..]))
    case Internal(keys, children) =>
      SplitAt(p, self, newId, rank, keys[m],
              Internal(keys[..m], children[..m + 1]), Internal(keys[m + 1..], children[m + 1..]))
  }

  function SplitAt(p: Page, self: PageId, newId: PageId, rank: real,
                   separator: Key, lower: Kind, upper: Kind): Split
  {
    Split(
      p.(kind := lower, high := Some(separator), right := Some(newId)),
      separator,
      Page(false, Some(separator), p.high, Some(self), p.right, upper, p.level, rank))
  }

  /** Installs a split sibling right after child `i`. */
  function InsertSplit(p: Page, i: nat, separator: Key, newId: PageId): Page
    requires p.kind.Internal? && |p.kind.children| == |p.kind.keys| + 1 && i <= |p.kind.keys|
  {
    p.(kind := Internal(
      p.kind.keys[..i] + [separator] + p.kind.keys[i..],
      p.kind.children[..i + 1] + [newId] + p.kind.children[i + 1..]))
  }

  // -------------------------------------------------------------- siblings

  /** A parent and two adjacent children of it, around separator `i`. */
  datatype Family = Family(parent: Page, left: Page, right: Page)

  predicate Siblings(left: Page, right: Page) {
    || (left.kind.Leaf? && right.kind.Leaf?)
    || (left.kind.Internal? && right.kind.Internal?
        && |left.kind.children| == |left.kind.keys| + 1
        && |right.kind.children| == |right.kind.keys| + 1)
  }

  function SetBoundary(f: Family, i: nat, b: Key): Family
    requires f.parent.kind.Internal? && i < |f.parent.kind.keys|
  {
    Family(
      f.parent.(kind := Internal(f.parent.kind.keys[i := b], f.parent.kind.children)),
      f.left.(high := Some(b)),
      f.right.(low := Some(b)))
  }

  function BorrowFromLeft(f: Family, i: nat): Family
    requires f.parent.kind.Internal? && i < |f.parent.kind.keys|
    requires Siblings(f.left, f.right) && Occupancy(f.left) > 0
  {
    var (l, r) := (f.left.kind, f.right.kind);
    if l.Leaf? then
      var last := |l.entries| - 1;
      var moved := l.entries[last];
      SetBoundary(Family(f.parent,
                         f.left.(kind := Leaf(l.entries[..last])),
                         f.right.(kind := Leaf([moved] + r.entries))), i, moved.key)
    else
      var last := |l.keys| - 1;
      SetBoundary(Family(f.parent,
                         f.left.(kind := Internal(l.keys[..last], l.children[..last + 1])),
                         f.right.(kind := Internal([f.parent.kind.keys[i]] + r.keys,
                                                   [l.children[last + 1]] + r.children))), i, l.keys[last])
  }

  function BorrowFromRight(f: Family, i: nat): Family
    requires f.parent.kind.Internal? && i < |f.parent.kind.keys|
    requires Siblings(f.left, f.right)
    requires if f.right.kind.Leaf? then Occupancy(f.right) > 1 else Occupancy(f.right) > 0
  {
    var (l, r) := (f.left.kind, f.right.kind);
    if l.Leaf? then
      SetBoundary(Family(f.parent,
                         f.left.(kind := Leaf(l.entries + [r.entries[0]])),
                         f.right.(kind := Leaf(r.entries[1..]))), i, r.entries[1].key)
    else
      SetBoundary(Family(f.parent,
                         f.left.(kind := Internal(l.keys + [f.parent.kind.keys[i]],
                                                  l.children + [r.children[0]])),
                         f.right.(kind := Internal(r.keys[1..], r.children[1..]))), i, r.keys[0])
  }

  /** Moves everything from the left sibling into the right one and turns the
      left sibling into a forwarding page. */
  function MergeLeftIntoRight(f: Family, i: nat, rightId: PageId): Family
    requires f.parent.kind.Internal? && i < |f.parent.kind.keys|
    requires |f.parent.kind.children| == |f.parent.kind.keys| + 1
    requires Siblings(f.left, f.right)
  {
    var (ks, cs) := (f.parent.kind.keys, f.parent.kind.children);
    var (l, r) := (f.left.kind, f.right.kind);
    var merged := if l.Leaf? then Leaf(l.entries + r.entries)
                  else Internal(l.keys + [ks[i]] + r.keys, l.children + r.children);
    Family(
      f.parent.(kind := Internal(ks[..i] + ks[i + 1..], cs[..i] + cs[i + 1..])),
      f.left.(kind := Redirect(rightId), low := None),
      f.right.(kind := merged, low := f.left.low, previous := f.left.previous))
  }
}
