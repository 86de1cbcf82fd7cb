/** The exhaustive check of a tree at rest. It accepts exactly the states that
    the operations leave behind when they run one at a time. */
module Validators {
  import opened Pages
  import opened Stores
  import opened Ownership
  import opened Abstraction
  import opened Walks
  import opened Quiescence
  import opened Levels
  import opened Trees

  /** Number of levels, counted down the first children. */
  method Height(tree: Tree) returns (height: nat)
    requires Inv(tree.State())
    ensures height == tree.pages[tree.root].level + 1
  {
    height := 1;
    var node := tree.root;
    while tree.pages[node].kind.Internal?
      invariant Live(tree.State(), node) && height + tree.pages[node].level == tree.pages[tree.root].level + 1
      decreases tree.pages[node].level
    {
      assert PageOk(tree.State(), node);
      ChildInside(tree.State(), node, 0);
      node := tree.pages[node].kind.children[0];
      height := height + 1;
    }
    assert PageOk(tree.State(), node);
  }

  /** All pages of a level list are linked to their neighbours. */
  ghost predicate AllLinked(s: Store, l: nat)
    requires Inv(s) && l <= s.pages[s.root].level
  {
    var ps := LevelPages(s, s.root, l);
    Tiles(s, ps, l, None, None) && forall j: nat | j < |ps| :: LinkedAt(s, ps, j)
  }

  /** What the walk along a level has checked before it looks at its page `j`. */
  ghost predicate WalkedTo(s: Store, ps: seq<PageId>, j: nat, previous: Option<PageId>, current: PageId)
    requires forall i :: 0 <= i < |ps| ==> Valid(s, ps[i])
  {
    && j < |ps|
    && previous == (if j == 0 then None else Some(ps[j - 1]))
    && (if j == 0 then current == ps[0] else Valid(s, ps[j - 1]) && s.pages[ps[j - 1]].right == Some(current))
    && (forall i: nat | i + 1 < j :: LinkedAt(s, ps, i))
    && (j > 0 ==> s.pages[ps[j - 1]].previous == if j == 1 then None else Some(ps[j - 2]))
  }

  /** A page that passes the fence check is the next one of its level. */
  lemma PageReached(s: Store, l: nat, ps: seq<PageId>, j: nat, current: PageId)
    requires Inv(s) && Tiles(s, ps, l, None, None) && j < |ps|
    requires if j == 0 then current == ps[0] else s.pages[ps[j - 1]].right == Some(current)
    ensures Valid(s, current) && s.pages[current].level == l
    ensures j == 0 ==> s.pages[current].low.None?
    ensures Live(s, current) && (j > 0 ==> s.pages[ps[j - 1]].high == s.pages[current].low) <==> current == ps[j]
  {
    if j > 0 {
      assert PageOk(s, ps[j - 1]) && Adjoins(s, ps, j);
      if Live(s, current) && s.pages[ps[j - 1]].high == s.pages[current].low {
        NextInLevel(s, ps[j - 1], ps[j], current);
      }
    }
  }

  /** Only the last page of a level has no right link. */
  lemma RightEnds(s: Store, l: nat, ps: seq<PageId>, j: nat)
    requires Inv(s) && Tiles(s, ps, l, None, None) && j < |ps|
    ensures s.pages[ps[j]].right.None? <==> j == |ps| - 1
    ensures s.pages[ps[j]].right.None? <==> s.pages[ps[j]].high.None?
  {
    assert PageOk(s, ps[j]);
    if j + 1 < |ps| { assert Adjoins(s, ps, j + 1); }
  }

  /** Walks one level along its right links, checking fences and back-links. */
  method ValidateLevel(tree: Tree, start: PageId, ghost l: nat, limit: int) returns (ok: bool)
    requires Inv(tree.State()) && l <= tree.pages[tree.root].level
    requires Live(tree.State(), start) && tree.pages[start].level == l && tree.pages[start].low.None?
    requires |LevelPages(tree.State(), tree.root, l)| <= limit
    ensures ok <==> AllLinked(tree.State(), l)
  {
    ghost var (s, ps) := (tree.State(), LevelPages(tree.State(), tree.root, l));
    LevelTiles(s, s.root, l);
    LeftmostUnique(s, start, ps[0]);
    assert PageOk(s, s.root);
    var current := start;
    var previous: Option<PageId> := None;
    var visited := 0;
    while true
      invariant WalkedTo(s, ps, visited, previous, current)
      decreases |ps| - visited
    {
      PageReached(s, l, ps, visited, current);
      assert visited > 0 ==> (LinkedAt(s, ps, visited - 1) <==> current == ps[visited]);
      if visited + 1 > limit { return false; }
      var page := tree.pages[current];
      if page.kind.Redirect? { return false; }
      if previous.None? {
        if page.low.Some? || page.previous.Some? {
          assert !LinkedAt(s, ps, 0);
          return false;
        }
      } else {
        if tree.pages[previous.value].high != page.low { return false; }
        if page.previous != previous {
          assert !LinkedAt(s, ps, visited);
          return false;
        }
      }
      RightEnds(s, l, ps, visited);
      if page.right.None? {
        assert LinkedAt(s, ps, visited);
        return page.high.None?;
      }
      previous := Some(current);
      current := page.right.value;
      visited := visited + 1;
    }
  }

  lemma LeftmostUnique(s: Store, p: PageId, q: PageId)
    requires Inv(s) && Live(s, p) && Live(s, q) && s.pages[p].level == s.pages[q].level
    requires s.pages[p].low.None? && s.pages[q].low.None?
    ensures p == q
  {
    assert OrderOk(s, p, q) && OrderOk(s, q, p);
  }

  /** A chained heap links every level; one unlinked level breaks the chain. */
  lemma ChainedLinksLevel(s: Store, l: nat)
    requires Inv(s) && Chained(s) && l <= s.pages[s.root].level
    ensures AllLinked(s, l)
  {
    LevelTiles(s, s.root, l);
    assert PageOk(s, s.root);
    forall j: nat | j < |LevelPages(s, s.root, l)| ensures LinkedAt(s, LevelPages(s, s.root, l), j) {
      ChainFollowsLevel(s, l, j);
    }
  }

  lemma UnlinkedLevelBreaksChain(s: Store, l: nat)
    requires Inv(s) && l <= s.pages[s.root].level && !AllLinked(s, l)
    ensures !Chained(s)
  {
    if Chained(s) { ChainedLinksLevel(s, l); }
  }

  lemma FirstChild(s: Store, p: PageId)
    requires Inv(s) && Live(s, p) && s.pages[p].level > 0 && s.pages[p].low.None?
    ensures s.pages[p].kind.Internal? && |s.pages[p].kind.children| > 0
    ensures var c := s.pages[p].kind.children[0];
            Live(s, c) && s.pages[c].level + 1 == s.pages[p].level && s.pages[c].low.None?
  {
    assert PageOk(s, p);
    ChildInside(s, p, 0);
  }

  ghost predicate LinkedFrom(s: Store, bottom: nat)
    requires Inv(s)
  {
    forall l: nat | bottom <= l <= s.pages[s.root].level :: AllLinked(s, l)
  }

  lemma OneMoreLevel(s: Store, l: nat)
    requires Inv(s) && l <= s.pages[s.root].level && AllLinked(s, l) && LinkedFrom(s, l + 1)
    ensures LinkedFrom(s, l)
  {
  }

  lemma LinkedEverywhere(s: Store)
    requires Inv(s) && LinkedFrom(s, 0)
    ensures Chained(s)
  {
    forall l: nat | l <= s.pages[s.root].level
      ensures Tiles(s, LevelPages(s, s.root, l), l, None, None)
      ensures forall j: nat | j < |LevelPages(s, s.root, l)| :: LinkedAt(s, LevelPages(s, s.root, l), j)
    {
      assert AllLinked(s, l);
    }
    LinkedLevelsAreChained(s);
  }

  /** Checks the sibling links of every level, top down: accepts exactly the
      heaps whose every level is a doubly linked list of its active pages. */
  method ValidateSiblingLevels(tree: Tree, height: nat) returns (ok: bool)
    requires Inv(tree.State()) && LenOk(tree.State()) && height == tree.pages[tree.root].level + 1
    ensures ok <==> Chained(tree.State())
  {
    ghost var s := tree.State();
    var levelStart := tree.root;
    var limit := tree.len + height + 2;
    var level := 0;
    while level < height
      invariant 0 <= level <= height
      invariant level < height ==>
                  && Live(s, levelStart) && s.pages[levelStart].level == height - 1 - level
                  && s.pages[levelStart].low.None?
      invariant LinkedFrom(s, height - level)
    {
      ghost var l: nat := height - 1 - level;
      LevelWidth(s, l);
      var linked := ValidateLevel(tree, levelStart, l, limit);
      if !linked {
        UnlinkedLevelBreaksChain(s, l);
        return false;
      }
      OneMoreLevel(s, l);
      if level + 1 < height {
        FirstChild(s, levelStart);
        levelStart := tree.pages[levelStart].kind.children[0];
      }
      level := level + 1;
    }
    LinkedEverywhere(s);
    ok := true;
  }

  /** The whole check. Given the structural invariant, it accepts exactly the
      quiet states: exact counter, exact chains, and a root with a separator. */
  method Validate(tree: Tree) returns (ok: bool)
    requires Inv(tree.State())
    ensures ok <==> Quiet(tree.State())
  {
    ghost var s := tree.State();
    assert PageOk(s, s.root);
    var page := tree.pages[tree.root];
    if page.low.Some? || page.high.Some? || page.previous.Some? || page.right.Some? {
      assert !ChainOk(s, s.root);
      return false;
    }
    if !page.isRoot || page.kind.Redirect? { return false; }
    ValidatorAccepts(s);
    var verdict := ValidateNode(tree.State(), tree.root, true, 1, None, 0);
    if verdict.Rejected? || verdict.count != tree.len { return false; }
    var height := Height(tree);
    ok := ValidateSiblingLevels(tree, height);
  }
}
