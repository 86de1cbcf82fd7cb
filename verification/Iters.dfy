/** The iterator and the range iterator over a tree. */
module Iters {
  import opened Pages
  import opened Bounds
  import opened Stores
  import opened Abstraction
  import opened Cursors
  import opened Trees

  class Iter {
    const tree: Tree
    var last: Option<Key>
    var finished: bool

    function State(): Cursor
      reads this
    {
      Cursor(if last.None? then Unbounded else Excluded(last.value), Unbounded, finished)
    }

    constructor (tree: Tree)
      ensures this.tree == tree && State() == Cursor(Unbounded, Unbounded, false)
    {
      this.tree := tree;
      last := None;
      finished := false;
    }

    /** Seeks the least key above the previous result in whatever the tree has
        become since. */
    method Next() returns (r: Option<Entry>)
      requires Inv(tree.State())
      modifies this`last, this`finished
      ensures CursorStep(Contents(tree.State()), old(State()), r, State())
    {
      if finished { return None; }
      if last.None? {
        r := tree.FirstEntry();
      } else {
        r := tree.EntryAtOrAfter(last.value, false);
      }
      if r.None? {
        finished := true;
      } else {
        last := Some(r.value.key);
      }
    }
  }

  class Range {
    const tree: Tree
    const start: Bound
    const end: Bound
    var last: Option<Key>
    var started: bool
    var finished: bool

    ghost predicate Valid()
      reads this
    {
      (!started ==> last.None?) && (started && !finished ==> last.Some?)
    }

    function State(): Cursor
      reads this
    {
      Cursor(if last.Some? then Excluded(last.value) else start, end, finished)
    }

    constructor (tree: Tree, start: Bound, end: Bound)
      ensures this.tree == tree && this.end == end && Valid() && State() == Cursor(start, end, false)
      ensures !started
    {
      this.tree, this.start, this.end := tree, start, end;
      last := None;
      started := false;
      finished := false;
    }

    /** Opens a range unless its bounds are rejected. */
    static method Open(tree: Tree, start: Bound, end: Bound) returns (range: Option<Range>)
      ensures range.Some? <==> ValidateBounds(start, end).Opens?
      ensures range.Some? ==>
                && fresh(range.value) && range.value.Valid() && range.value.tree == tree
                && range.value.State() == Cursor(start, end, false)
    {
      if !ValidateBounds(start, end).Opens? { return None; }
      var cursor := new Range(tree, start, end);
      range := Some(cursor);
    }

    /** Applies the start bound once, then re-seeks after each result. */
    method Next() returns (r: Option<Entry>)
      requires Valid() && Inv(tree.State())
      modifies this`last, this`started, this`finished
      ensures Valid() && CursorStep(Contents(tree.State()), old(State()), r, State())
    {
      if finished { return None; }
      var candidate;
      if !started {
        started := true;
        match start {
          case Unbounded => candidate := tree.FirstEntry();
          case Included(k) => candidate := tree.EntryAtOrAfter(k, true);
          case Excluded(k) => candidate := tree.EntryAtOrAfter(k, false);
        }
      } else {
        candidate := tree.EntryAtOrAfter(last.value, false);
      }
      if candidate.None? || !BeforeEnd(end, candidate.value.key) {
        finished := true;
        return None;
      }
      last := Some(candidate.value.key);
      r := candidate;
    }
  }
}
