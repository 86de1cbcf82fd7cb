/** Splitting a full child under its parent, and splitting a full root. */
module SplitSteps {
  import opened Pages
  import opened Stores
  import opened Ownership
  import opened LinkSteps

  predicate HasChild(s: Store, p: PageId, i: nat) {
    && Live(s, p) && s.pages[p].kind.Internal?
    && |s.pages[p].kind.children| == |s.pages[p].kind.keys| + 1
    && i < |s.pages[p].kind.children|
    && Live(s, s.pages[p].kind.children[i])
  }

  predicate Splittable(p: Page) {
    && Active(p) && Occupancy(p) == N
    && (p.kind.Internal? ==> |p.kind.children| == |p.kind.keys| + 1)
  }

  /** Splits page `c`; the new page gets the next free id. */
  function SplitOf(s: Store, c: PageId): Split
    requires Valid(s, c) && Splittable(s.pages[c])
  {
    SplitFull(s.pages[c], c, |s.pages|, RankAfter(s.pages, s.pages[c].rank))
  }

  /** Splits full child `i` of `p` and publishes the separator in `p`. */
  function SplitChild(s: Store, p: PageId, i: nat): Store
    requires HasChild(s, p, i) && Splittable(s.pages[s.pages[p].kind.children[i]])
  {
    var c := s.pages[p].kind.children[i];
    var split := SplitOf(s, c);
    s.(pages := s.pages[c := split.left]
                       [p := InsertSplit(s.pages[p], i, split.separator, |s.pages|)] + [split.right])
  }

  /** What a split promises about its two halves. */
  predicate GoodSplit(p: Page, split: Split) {
    && Shape(split.left) && Shape(split.right)
    && Minimum(split.left) <= Occupancy(split.left)
    && Occupancy(split.left) < N && Occupancy(split.right) < N
    && (p.low.Some? ==> p.low.value < split.separator)
    && Below(split.separator, p.high)
  }

  lemma LeafHalves(p: Page, self: PageId, newId: PageId, rank: real)
    requires p.kind.Leaf? && Shape(p) && Occupancy(p) == N
    ensures GoodSplit(p, SplitFull(p, self, newId, rank))
  {
    var split := SplitFull(p, self, newId, rank);
    var es := p.kind.entries;
    var m := N / 2;
    assert es[0].key < es[m].key;
    assert Owns(p, es[0].key) && Owns(p, es[m].key);
    forall i | 0 <= i < m ensures Owns(split.left, es[i].key) {
      assert Owns(p, es[i].key);
    }
    forall i | 0 <= i < N - m ensures Owns(split.right, split.right.kind.entries[i].key) {
      assert Owns(p, es[m + i].key);
    }
  }

  lemma InternalHalves(p: Page, self: PageId, newId: PageId, rank: real)
    requires p.kind.Internal? && Shape(p) && Occupancy(p) == N
    ensures GoodSplit(p, SplitFull(p, self, newId, rank))
  {
  }

  /** Both halves of a split satisfy every page-local condition. */
  lemma HalvesInShape(s: Store, c: PageId)
    requires Inv(s) && Live(s, c) && Occupancy(s.pages[c]) == N
    ensures Splittable(s.pages[c]) && GoodSplit(s.pages[c], SplitOf(s, c))
  {
    assert PageOk(s, c);
    var rank := RankAfter(s.pages, s.pages[c].rank);
    if s.pages[c].kind.Leaf? {
      LeafHalves(s.pages[c], c, |s.pages|, rank);
    } else {
      InternalHalves(s.pages[c], c, |s.pages|, rank);
    }
  }

  /** A parent with room stays in shape when it receives a separator that lies
      strictly inside the interval of child `i`. */
  lemma ParentInShape(p: Page, i: nat, separator: Key, newId: PageId)
    requires p.kind.Internal? && Shape(p) && Occupancy(p) < N && i <= |p.kind.keys|
    requires ChildLow(p, i).Some? ==> ChildLow(p, i).value < separator
    requires Below(separator, ChildHigh(p, i))
    ensures Shape(InsertSplit(p, i, separator, newId))
  {
  }

  /** Headers of the two pages that replace `whole` when it splits. */
  predicate SplitHeaders(pages: seq<Page>, whole: Page, left: Page, right: Page) {
    && Active(whole) && Active(left) && Active(right)
    && left.level == whole.level == right.level && left.rank == whole.rank
    && left.low == whole.low && left.high.Some? && left.high == right.low && right.high == whole.high
    && left.right == Some(|pages|) && right.right == whole.right
    && whole.rank < right.rank
    && (whole.low.Some? ==> whole.low.value < left.high.value)
    && Below(left.high.value, whole.high)
    && forall j :: 0 <= j < |pages| ==> pages[j].rank <= whole.rank || right.rank < pages[j].rank
  }

  lemma SplitOfHeaders(s: Store, c: PageId)
    requires Inv(s) && Live(s, c) && Occupancy(s.pages[c]) == N
    ensures Splittable(s.pages[c])
    ensures SplitHeaders(s.pages, s.pages[c], SplitOf(s, c).left, SplitOf(s, c).right)
  {
    HalvesInShape(s, c);
  }

  /** `t` is `s` with `c` replaced by two halves, the right one in the first new
      slot; the other pages keep their headers and links. */
  predicate Replaces(s: Store, t: Store, c: PageId, left: Page, right: Page) {
    && Live(s, c) && SplitHeaders(s.pages, s.pages[c], left, right)
    && |s.pages| < |t.pages| && t.pages[c] == left && t.pages[|s.pages|] == right
    && forall j :: 0 <= j < |s.pages| && j != c ==>
         SameHeader(s.pages[j], t.pages[j]) && Link(s.pages[j]) == Link(t.pages[j])
  }

  lemma SplitKeepsOrder(s: Store, t: Store, c: PageId, left: Page, right: Page, q: PageId, r: PageId)
    requires Inv(s) && Replaces(s, t, c, left, right)
    requires q <= |s.pages| && r <= |s.pages|
    ensures OrderOk(t, q, r)
  {
    var n := |s.pages|;
    var (q0, r0) := (if q == n then c else q, if r == n then c else r);
    assert OrderOk(s, q0, r0) && OrderOk(s, q0, c) && OrderOk(s, c, r0);
  }

  lemma SplitKeepsGap(s: Store, t: Store, c: PageId, left: Page, right: Page, q: PageId, r: PageId)
    requires Inv(s) && Replaces(s, t, c, left, right)
    requires q <= |s.pages| && r <= |s.pages|
    ensures GapOk(t, q, r)
  {
    var n := |s.pages|;
    var (q0, r0) := (if q == n then c else q, if r == n then c else r);
    assert PageOk(s, q0) && OrderOk(s, q0, r0) && OrderOk(s, q0, c) && GapOk(s, q0, r0);
  }

  /** The halves of an internal page keep its child slots, with their fences. */
  lemma HalvesKeepSlots(p: Page, self: PageId, newId: PageId, rank: real, j: nat)
    requires p.kind.Internal? && Shape(p) && Occupancy(p) == N && j < |p.kind.children|
    ensures var split := SplitFull(p, self, newId, rank);
            var (half, k) := if j <= N / 2 then (split.left, j) else (split.right, j - N / 2 - 1);
            && half.kind.Internal? && |half.kind.children| == |half.kind.keys| + 1
            && k < |half.kind.children| && half.kind.children[k] == p.kind.children[j]
            && ChildLow(half, k) == ChildLow(p, j) && ChildHigh(half, k) == ChildHigh(p, j)
  {
  }

  /** The slots of a parent after child `i` was split at `separator`. */
  lemma SplitSlots(p: Page, i: nat, separator: Key, newId: PageId, j: nat)
    requires p.kind.Internal? && |p.kind.children| == |p.kind.keys| + 1 && i <= |p.kind.keys|
    requires j <= |p.kind.children|
    ensures var t := InsertSplit(p, i, separator, newId);
            && |t.kind.children| == |t.kind.keys| + 1 && j < |t.kind.children|
            && (j <= i ==> t.kind.children[j] == p.kind.children[j] && ChildLow(t, j) == ChildLow(p, j))
            && (j < i ==> ChildHigh(t, j) == ChildHigh(p, j))
            && (j == i ==> ChildHigh(t, j) == Some(separator))
            && (j == i + 1 ==> t.kind.children[j] == newId && ChildLow(t, j) == Some(separator))
            && (j > i + 1 ==> t.kind.children[j] == p.kind.children[j - 1] && ChildLow(t, j) == ChildLow(p, j - 1))
            && (j > i ==> ChildHigh(t, j) == ChildHigh(p, j - 1))
  {
  }

  /** Pages outside the split, including the other children of the parent. */
  lemma SplitKeepsOthers(s: Store, p: PageId, i: nat, q: PageId)
    requires Inv(s) && HasChild(s, p, i) && Splittable(s.pages[s.pages[p].kind.children[i]])
    requires Valid(s, q) && q != p && q != s.pages[p].kind.children[i]
    ensures PageOk(SplitChild(s, p, i), q)
  {
    var c := s.pages[p].kind.children[i];
    var t := SplitChild(s, p, i);
    assert PageOk(s, q);
    RootIsNoChild(s, p, i);
    if s.pages[q].kind.Internal? {
      forall j | 0 <= j < |s.pages[q].kind.children| ensures ChildOk(t, t.pages[q], j) {
        assert ChildOk(s, s.pages[q], j);
        if s.pages[q].kind.children[j] == c { ParentUnique(s, p, i, q, j); }
      }
    }
  }

  lemma SplitKeepsParentSlot(s: Store, p: PageId, i: nat, j: nat)
    requires Inv(s) && HasChild(s, p, i) && j <= |s.pages[p].kind.children|
    requires Occupancy(s.pages[s.pages[p].kind.children[i]]) == N
    ensures Splittable(s.pages[s.pages[p].kind.children[i]])
    ensures var (t, page) := (SplitChild(s, p, i), SplitChild(s, p, i).pages[p]);
            && page.kind.Internal? && |page.kind.children| == |page.kind.keys| + 1
            && j < |page.kind.children| && ChildOk(t, page, j)
  {
    var c := s.pages[p].kind.children[i];
    HalvesInShape(s, c);
    ChildInside(s, p, i);
    SplitSlots(s.pages[p], i, SplitOf(s, c).separator, |s.pages|, j);
    var k := if j <= i then j else j - 1;
    ChildInside(s, p, k);
    var x := s.pages[p].kind.children[k];
    if x == c { ParentUnique(s, p, i, p, k); }
    assert x != p;
    assert x != c ==> SplitChild(s, p, i).pages[x] == s.pages[x];
  }

  lemma SplitKeepsParent(s: Store, p: PageId, i: nat)
    requires Inv(s) && HasChild(s, p, i) && Occupancy(s.pages[p]) < N
    requires Occupancy(s.pages[s.pages[p].kind.children[i]]) == N
    ensures Splittable(s.pages[s.pages[p].kind.children[i]])
    ensures PageOk(SplitChild(s, p, i), p)
  {
    var c := s.pages[p].kind.children[i];
    HalvesInShape(s, c);
    ChildInside(s, p, i);
    RootIsNoChild(s, p, i);
    assert PageOk(s, p);
    var t := SplitChild(s, p, i);
    ParentInShape(s.pages[p], i, SplitOf(s, c).separator, |s.pages|);
    forall j | 0 <= j < |t.pages[p].kind.children| ensures ChildOk(t, t.pages[p], j) {
      SplitKeepsParentSlot(s, p, i, j);
    }
  }

  lemma SplitKeepsHalfSlot(s: Store, p: PageId, i: nat, j: nat)
    requires Inv(s) && HasChild(s, p, i)
    requires var c := s.pages[s.pages[p].kind.children[i]];
             Occupancy(c) == N && c.kind.Internal? && j < |c.kind.children|
    ensures Splittable(s.pages[s.pages[p].kind.children[i]])
    ensures var t := SplitChild(s, p, i);
            var (h, k) := if j <= N / 2 then (s.pages[p].kind.children[i], j) else (|s.pages|, j - N / 2 - 1);
            && t.pages[h].kind.Internal? && |t.pages[h].kind.children| == |t.pages[h].kind.keys| + 1
            && k < |t.pages[h].kind.children| && ChildOk(t, t.pages[h], k)
  {
    var c := s.pages[p].kind.children[i];
    HalvesInShape(s, c);
    ChildInside(s, p, i);
    var t := SplitChild(s, p, i);
    assert t.pages[c] == SplitOf(s, c).left && t.pages[|s.pages|] == SplitOf(s, c).right;
    HalvesKeepSlots(s.pages[c], c, |s.pages|, RankAfter(s.pages, s.pages[c].rank), j);
    ChildInside(s, c, j);
    var x := s.pages[c].kind.children[j];
    assert x != p && x != c;
    assert t.pages[x] == s.pages[x];
  }

  lemma SplitKeepsHalves(s: Store, p: PageId, i: nat)
    requires Inv(s) && HasChild(s, p, i)
    requires Occupancy(s.pages[s.pages[p].kind.children[i]]) == N
    ensures Splittable(s.pages[s.pages[p].kind.children[i]])
    ensures PageOk(SplitChild(s, p, i), s.pages[p].kind.children[i])
    ensures PageOk(SplitChild(s, p, i), |s.pages|)
  {
    var c := s.pages[p].kind.children[i];
    HalvesInShape(s, c);
    ChildInside(s, p, i);
    RootIsNoChild(s, p, i);
    assert PageOk(s, c) && PageOk(s, p);
    var t := SplitChild(s, p, i);
    if s.pages[c].kind.Internal? {
      forall k | 0 <= k < |t.pages[c].kind.children| ensures ChildOk(t, t.pages[c], k) {
        SplitKeepsHalfSlot(s, p, i, k);
      }
      forall k | 0 <= k < |t.pages[|s.pages|].kind.children| ensures ChildOk(t, t.pages[|s.pages|], k) {
        SplitKeepsHalfSlot(s, p, i, k + N / 2 + 1);
      }
    }
  }

  /** Splitting a full child under a parent with room keeps the invariant. */
  lemma SplitChildKeepsInv(s: Store, p: PageId, i: nat)
    requires Inv(s) && HasChild(s, p, i) && Occupancy(s.pages[p]) < N
    requires Occupancy(s.pages[s.pages[p].kind.children[i]]) == N
    ensures Splittable(s.pages[s.pages[p].kind.children[i]])
    ensures Inv(SplitChild(s, p, i))
  {
    var c := s.pages[p].kind.children[i];
    SplitOfHeaders(s, c);
    ChildInside(s, p, i);
    RootIsNoChild(s, p, i);
    var t := SplitChild(s, p, i);
    var split := SplitOf(s, c);
    forall q: PageId | q < |t.pages| ensures PageOk(t, q) {
      if q == p { SplitKeepsParent(s, p, i); }
      else if q == c || q == |s.pages| { SplitKeepsHalves(s, p, i); }
      else { SplitKeepsOthers(s, p, i, q); }
    }
    assert Replaces(s, t, c, split.left, split.right);
    forall q: PageId, r: PageId | q < |t.pages| && r < |t.pages| ensures OrderOk(t, q, r) && GapOk(t, q, r) {
      SplitKeepsOrder(s, t, c, split.left, split.right, q, r);
      SplitKeepsGap(s, t, c, split.left, split.right, q, r);
    }
  }

  // ------------------------------------------------------------ root split

  /** Splits the full root and publishes a new root above the two halves. */
  function SplitRoot(s: Store): Store
    requires Live(s, s.root) && Splittable(s.pages[s.root])
  {
    var n := |s.pages|;
    var split := SplitOf(s, s.root);
    var halves := s.pages[s.root := split.left.(isRoot := false)] + [split.right];
    var top := Page(true, None, None, None, None,
                    Internal([split.separator], [s.root, n]),
                    s.pages[s.root].level + 1, TopRank(halves));
    s.(pages := halves + [top], root := n + 1)
  }

  lemma SplitRootSlot(s: Store, j: nat)
    requires Inv(s) && Occupancy(s.pages[s.root]) == N
    requires s.pages[s.root].kind.Internal? && j < |s.pages[s.root].kind.children|
    ensures Splittable(s.pages[s.root])
    ensures var t := SplitRoot(s);
            var (h, k) := if j <= N / 2 then (s.root, j) else (|s.pages|, j - N / 2 - 1);
            && t.pages[h].kind.Internal? && |t.pages[h].kind.children| == |t.pages[h].kind.keys| + 1
            && k < |t.pages[h].kind.children| && ChildOk(t, t.pages[h], k)
  {
    var r := s.root;
    HalvesInShape(s, r);
    assert PageOk(s, r);
    var t := SplitRoot(s);
    assert t.pages[r] == SplitOf(s, r).left.(isRoot := false) && t.pages[|s.pages|] == SplitOf(s, r).right;
    HalvesKeepSlots(s.pages[r], r, |s.pages|, RankAfter(s.pages, s.pages[r].rank), j);
    ChildInside(s, r, j);
    RootIsNoChild(s, r, j);
    var x := s.pages[r].kind.children[j];
    assert t.pages[x] == s.pages[x];
  }

  lemma SplitRootHalves(s: Store)
    requires Inv(s) && Occupancy(s.pages[s.root]) == N
    ensures Splittable(s.pages[s.root])
    ensures PageOk(SplitRoot(s), s.root) && PageOk(SplitRoot(s), |s.pages|)
  {
    var r := s.root;
    HalvesInShape(s, r);
    assert PageOk(s, r);
    var t := SplitRoot(s);
    assert t.pages[r] == SplitOf(s, r).left.(isRoot := false) && t.pages[|s.pages|] == SplitOf(s, r).right;
    if s.pages[r].kind.Internal? {
      forall k | 0 <= k < |t.pages[r].kind.children| ensures ChildOk(t, t.pages[r], k) {
        SplitRootSlot(s, k);
      }
      forall k | 0 <= k < |t.pages[|s.pages|].kind.children| ensures ChildOk(t, t.pages[|s.pages|], k) {
        SplitRootSlot(s, k + N / 2 + 1);
      }
    }
  }

  lemma SplitRootOthers(s: Store, q: PageId)
    requires Inv(s) && Occupancy(s.pages[s.root]) == N && Valid(s, q) && q != s.root
    ensures Splittable(s.pages[s.root]) && PageOk(SplitRoot(s), q)
  {
    HalvesInShape(s, s.root);
    var t := SplitRoot(s);
    assert PageOk(s, q);
    if s.pages[q].kind.Internal? {
      forall j | 0 <= j < |s.pages[q].kind.children| ensures ChildOk(t, t.pages[q], j) {
        assert ChildOk(s, s.pages[q], j);
        RootIsNoChild(s, q, j);
      }
    }
  }

  lemma SplitRootTop(s: Store)
    requires Inv(s) && Occupancy(s.pages[s.root]) == N
    ensures Splittable(s.pages[s.root])
    ensures RootOk(SplitRoot(s)) && PageOk(SplitRoot(s), SplitRoot(s).root)
  {
    HalvesInShape(s, s.root);
    assert PageOk(s, s.root);
  }

  /** The new root stands above every page in rank and level. */
  lemma SplitRootPairs(s: Store, q: PageId, r: PageId)
    requires Inv(s) && Occupancy(s.pages[s.root]) == N
    requires q < |s.pages| + 2 && r < |s.pages| + 2
    ensures Splittable(s.pages[s.root])
    ensures OrderOk(SplitRoot(s), q, r) && GapOk(SplitRoot(s), q, r)
  {
    SplitOfHeaders(s, s.root);
    var t := SplitRoot(s);
    var split := SplitOf(s, s.root);
    assert t.pages[..|s.pages| + 1] == s.pages[s.root := split.left.(isRoot := false)] + [split.right];
    assert forall j :: 0 <= j <= |s.pages| ==> t.pages[j] == t.pages[..|s.pages| + 1][j];
    if q <= |s.pages| && r <= |s.pages| {
      assert Replaces(s, t, s.root, split.left.(isRoot := false), split.right);
      SplitKeepsOrder(s, t, s.root, split.left.(isRoot := false), split.right, q, r);
      SplitKeepsGap(s, t, s.root, split.left.(isRoot := false), split.right, q, r);
    } else {
      assert q < |s.pages| ==> PageOk(s, q);
      assert r < |s.pages| ==> PageOk(s, r);
    }
  }

  /** Growing the tree by one level keeps the invariant. */
  lemma SplitRootKeepsInv(s: Store)
    requires Inv(s) && Occupancy(s.pages[s.root]) == N
    ensures Splittable(s.pages[s.root]) && Inv(SplitRoot(s))
  {
    HalvesInShape(s, s.root);
    var t := SplitRoot(s);
    SplitRootTop(s);
    forall q: PageId | q < |t.pages| ensures PageOk(t, q) {
      if q == s.root || q == |s.pages| { SplitRootHalves(s); }
      else if q < |s.pages| { SplitRootOthers(s, q); }
    }
    forall q: PageId, r: PageId | q < |t.pages| && r < |t.pages| ensures OrderOk(t, q, r) && GapOk(t, q, r) {
      SplitRootPairs(s, q, r);
    }
  }
}
