/** What the invariant says about who owns a key: intervals of a level are
    disjoint, a page has at most one parent slot, neighbours are adjacent. */
module Ownership {
  import opened Pages
  import opened Stores

  /** A level never holds two active pages owning the same key. */
  lemma OwnerUnique(s: Store, p: PageId, q: PageId, k: Key)
    requires Inv(s) && Live(s, p) && Live(s, q)
    requires s.pages[p].level == s.pages[q].level
    requires Owns(s.pages[p], k) && Owns(s.pages[q], k)
    ensures p == q
  {
    assert OrderOk(s, p, q) && OrderOk(s, q, p);
  }

  /** The interval of a child lies inside the interval of its parent. */
  lemma ChildInside(s: Store, p: PageId, i: nat)
    requires Inv(s) && Live(s, p) && s.pages[p].kind.Internal?
    requires i < |s.pages[p].kind.children|
    ensures |s.pages[p].kind.children| == |s.pages[p].kind.keys| + 1
    ensures ChildOk(s, s.pages[p], i)
    ensures var c := s.pages[s.pages[p].kind.children[i]];
            && Shape(c)
            && (s.pages[p].low.Some? ==> c.low.Some? && s.pages[p].low.value <= c.low.value)
            && (s.pages[p].high.Some? ==> c.high.Some? && c.high.value <= s.pages[p].high.value)
  {
    assert PageOk(s, p);
    assert ChildOk(s, s.pages[p], i);
    assert PageOk(s, s.pages[p].kind.children[i]);
  }

  /** A page occupies at most one child slot in the whole heap. */
  lemma ParentUnique(s: Store, p: PageId, i: nat, q: PageId, j: nat)
    requires Inv(s) && Live(s, p) && s.pages[p].kind.Internal? && i < |s.pages[p].kind.children|
    requires Live(s, q) && s.pages[q].kind.Internal? && j < |s.pages[q].kind.children|
    requires s.pages[p].kind.children[i] == s.pages[q].kind.children[j]
    ensures p == q && i == j
  {
    ChildInside(s, p, i);
    ChildInside(s, q, j);
    assert PageOk(s, p) && OrderOk(s, p, q) && OrderOk(s, q, p);
  }

  /** The root is nobody's child. */
  lemma RootIsNoChild(s: Store, p: PageId, i: nat)
    requires Inv(s) && Live(s, p) && s.pages[p].kind.Internal? && i < |s.pages[p].kind.children|
    ensures s.pages[p].kind.children[i] != s.root
  {
    ChildInside(s, p, i);
    assert PageOk(s, p);
  }

  /** Pages whose fences meet are neighbours: the left one has the smaller
      rank and no active page of their level lies between them. */
  lemma Adjacent(s: Store, p: PageId, q: PageId, r: PageId)
    requires Inv(s) && Live(s, p) && Live(s, q) && Valid(s, r)
    requires s.pages[p].level == s.pages[q].level
    requires s.pages[p].high.Some? && s.pages[p].high == s.pages[q].low
    ensures s.pages[p].rank < s.pages[q].rank
    ensures Live(s, r) && s.pages[r].level == s.pages[p].level ==>
              !(s.pages[p].rank < s.pages[r].rank < s.pages[q].rank)
  {
    assert PageOk(s, p) && PageOk(s, q) && PageOk(s, r);
    assert OrderOk(s, p, q) && OrderOk(s, q, p);
    assert OrderOk(s, p, r) && OrderOk(s, r, q);
  }

  /** Children `i` and `i + 1` of a page are neighbours. */
  lemma SiblingsAdjacent(s: Store, p: PageId, i: nat)
    requires Inv(s) && Live(s, p) && s.pages[p].kind.Internal?
    requires i + 1 < |s.pages[p].kind.children|
    ensures |s.pages[p].kind.children| == |s.pages[p].kind.keys| + 1
    ensures var (l, r) := (s.pages[p].kind.children[i], s.pages[p].kind.children[i + 1]);
            && Live(s, l) && Live(s, r) && l != r && l != p && r != p
            && s.pages[l].level == s.pages[r].level
            && s.pages[l].level + 1 == s.pages[p].level
            && s.pages[l].high == s.pages[r].low == Some(s.pages[p].kind.keys[i])
            && s.pages[l].rank < s.pages[r].rank
            && Siblings(s.pages[l], s.pages[r])
            && l != s.root && r != s.root
  {
    ChildInside(s, p, i);
    ChildInside(s, p, i + 1);
    RootIsNoChild(s, p, i);
    RootIsNoChild(s, p, i + 1);
    Adjacent(s, s.pages[p].kind.children[i], s.pages[p].kind.children[i + 1], p);
  }

  /** The root is the only active page of its level. */
  lemma RootAlone(s: Store, p: PageId)
    requires Inv(s) && Live(s, p) && s.pages[p].level == s.pages[s.root].level
    ensures p == s.root
  {
    assert PageOk(s, p);
  }
}
