/** The concurrent protocol. Any number of threads run map operations over one
    heap; a thread moves in atomic steps, each of which covers the work between
    acquiring a latch and next waiting for one or giving latches up. */
module Protocol {
  import opened Pages
  import opened Bounds
  import opened Stores
  import opened Ownership
  import opened LinkSteps
  import opened SplitSteps
  import opened BorrowSteps
  import opened MergeSteps
  import opened LeafSteps
  import opened Traversal

  datatype Op =
    | Get(key: Key)
    | Modify(key: Key, value: Value)
    | Insert(key: Key, value: Value)
    | Remove(key: Key)
    | Seek(key: Key, inclusive: bool)
    | First

  datatype Result = Answer(value: Option<Value>) | Record(record: Option<Entry>)

  datatype Latch = RootSlot | PageLatch(page: PageId)

  datatype Repair = Repair(predecessor: Option<PageId>, retired: PageId, survivor: PageId)

  /** Why a thread that latches a predecessor also waits for the survivor. */
  datatype Reason = FoundRetired | FoundSurvivor | Compacted

  /** Where a running operation is. */
  datatype Phase =
    | Starting
    | Reading(node: PageId)
    | Latching(node: PageId)
    | Sinking(node: PageId)
    | Scanning(node: PageId)
    | SplittingRoot
    | SplittingRootHeld(root: PageId)
    | Descending
    | Writing(node: PageId)
    | FixingBack(resume: Option<PageId>, page: PageId, successor: PageId)
    | FixingBackHeld(resume: Option<PageId>, page: PageId, successor: PageId)
    | Unlinking(resume: Option<PageId>, repair: Repair)
    | UnlinkingFrom(resume: Option<PageId>, repair: Repair, cursor: PageId)
    | UnlinkingJoin(resume: Option<PageId>, repair: Repair, cursor: PageId, reason: Reason)
    | UnlinkingPeek(resume: Option<PageId>, repair: Repair, cursor: PageId, next: PageId)
    | UnlinkingLast(resume: Option<PageId>, repair: Repair)
    | Shrinking
    | ShrinkingSlot(root: PageId)
    | ShrinkingRoot(root: PageId, child: PageId)
    | Returning

  /** A thread: idle, or running an operation whose answer may be settled. */
  datatype Thread = Idle | Running(op: Op, answer: Option<Result>, at: Phase)

  /** The latch a phase must obtain to take its next step. */
  function Wants(at: Phase): Option<Latch> {
    match at
    case Unlinking(_, _) | Returning => None
    case Starting | SplittingRoot | Descending | Shrinking => Some(RootSlot)
    case Reading(node) => Some(PageLatch(node))
    case Latching(node) => Some(PageLatch(node))
    case Sinking(node) => Some(PageLatch(node))
    case Scanning(node) => Some(PageLatch(node))
    case Writing(node) => Some(PageLatch(node))
    case SplittingRootHeld(root) => Some(PageLatch(root))
    case FixingBack(_, page, _) => Some(PageLatch(page))
    case FixingBackHeld(_, _, successor) => Some(PageLatch(successor))
    case UnlinkingFrom(_, _, cursor) => Some(PageLatch(cursor))
    case UnlinkingJoin(_, repair, _, _) => Some(PageLatch(repair.survivor))
    case UnlinkingPeek(_, _, _, next) => Some(PageLatch(next))
    case UnlinkingLast(_, repair) => Some(PageLatch(repair.survivor))
    case ShrinkingSlot(root) => Some(PageLatch(root))
    case ShrinkingRoot(_, child) => Some(PageLatch(child))
  }

  /** The exclusive latches a phase keeps while it waits for the next one. */
  function Holds(at: Phase): set<Latch> {
    match at
    case SplittingRootHeld(_) => {RootSlot}
    case ShrinkingSlot(_) => {RootSlot}
    case ShrinkingRoot(root, _) => {RootSlot, PageLatch(root)}
    case FixingBackHeld(_, page, _) => {PageLatch(page)}
    case UnlinkingJoin(_, _, cursor, _) => {PageLatch(cursor)}
    case UnlinkingPeek(_, _, cursor, _) => {PageLatch(cursor)}
    case _ => {}
  }

  // ------------------------------------------------------ thread-local facts

  predicate Structural(op: Op) {
    op.Insert? || op.Remove?
  }

  /** One step of a cursor: `entry_at_or_after`, or `first_entry`. */
  predicate IsScan(op: Op) {
    op.Seek? || op.First?
  }

  /** Where the records a cursor step looks for begin. */
  function BoundOf(op: Op): Bound
    requires IsScan(op)
  {
    if op.First? then Unbounded else if op.inclusive then Included(op.key) else Excluded(op.key)
  }

  predicate ResumeOk(s: Store, resume: Option<PageId>) {
    resume.Some? ==> Valid(s, resume.value)
  }

  predicate RepairOk(s: Store, r: Repair) {
    && (r.predecessor.Some? ==> Valid(s, r.predecessor.value))
    && Valid(s, r.retired) && Valid(s, r.survivor)
    && s.pages[r.retired].kind == Redirect(r.survivor)
    && s.pages[r.retired].level == s.pages[r.survivor].level
    && s.pages[r.retired].rank < s.pages[r.survivor].rank
  }

  predicate LinksTo(s: Store, p: PageId, q: PageId) {
    Live(s, p) && Valid(s, q) && s.pages[p].right == Some(q)
  }

  /** What a phase knows about the heap. Facts about pages it does not latch
      hold forever; the others hold while it keeps the latch. */
  predicate Knows(s: Store, at: Phase) {
    match at
    case Reading(node) => Valid(s, node)
    case Latching(node) => Valid(s, node)
    case Sinking(node) => Valid(s, node)
    case Scanning(node) => Valid(s, node) && s.pages[node].level == 0
    case Writing(node) => Valid(s, node)
    case SplittingRootHeld(root) => Valid(s, root) && s.root == root
    case FixingBack(resume, page, succ) => ResumeOk(s, resume) && Valid(s, page) && Valid(s, succ)
    case FixingBackHeld(resume, page, succ) => ResumeOk(s, resume) && LinksTo(s, page, succ)
    case Unlinking(resume, repair) => ResumeOk(s, resume) && RepairOk(s, repair)
    case UnlinkingFrom(resume, repair, cursor) => ResumeOk(s, resume) && RepairOk(s, repair) && Valid(s, cursor)
    case UnlinkingJoin(resume, repair, cursor, _) =>
      ResumeOk(s, resume) && RepairOk(s, repair) && LinksTo(s, cursor, repair.survivor)
    case UnlinkingPeek(resume, repair, cursor, next) =>
      ResumeOk(s, resume) && RepairOk(s, repair) && LinksTo(s, cursor, next)
    case UnlinkingLast(resume, repair) => ResumeOk(s, resume) && RepairOk(s, repair)
    case ShrinkingSlot(root) => Valid(s, root) && s.root == root
    case ShrinkingRoot(root, child) =>
      Valid(s, root) && s.root == root && s.pages[root].kind == Internal([], [child])
    case _ => true
  }

  /** Which operations reach a phase, and with a settled answer or without. */
  predicate Suits(op: Op, answer: Option<Result>, at: Phase) {
    if at.Returning? then answer.Some?
    else if at.Shrinking? || at.ShrinkingSlot? || at.ShrinkingRoot? then op.Remove?
    else
      && answer.None?
      && (at.Reading? ==> !op.First?)
      && (at.Sinking? ==> op.First?)
      && (at.Scanning? ==> IsScan(op))
      && (at.Latching? ==> Structural(op) || op.Modify?)
      && (at.SplittingRoot? || at.SplittingRootHeld? ==> op.Insert?)
      && (!at.Starting? && !at.Reading? && !at.Latching? && !at.Sinking? && !at.Scanning? ==> Structural(op))
  }

  // ------------------------------------------------------------------ steps

  datatype Outcome = Outcome(store: Store, answer: Option<Result>, at: Phase)

  /** The operation goes on in another phase, its answer still open. */
  function GoOn(s: Store, at: Phase): Outcome {
    Outcome(s, None, at)
  }

  function Return(s: Store, r: Result): Outcome {
    Outcome(s, Some(r), Returning)
  }

  function Resume(resume: Option<PageId>): Phase {
    if resume.Some? then Writing(resume.value) else Descending
  }

  /** Inserts or replaces at a leaf, counting a new record. */
  function PutRecord(s: Store, p: PageId, k: Key, v: Value): Store
    requires Valid(s, p) && s.pages[p].kind.Leaf?
  {
    var es := s.pages[p].kind.entries;
    WriteLeaf(s, p, LeafPut(es, k, v)).(len := if Search(es, k).Missing? then s.len + 1 else s.len)
  }

  function DropRecord(s: Store, p: PageId, k: Key): Store
    requires Valid(s, p) && s.pages[p].kind.Leaf?
  {
    WriteLeaf(s, p, LeafDrop(s.pages[p].kind.entries, k)).(len := s.len - 1)
  }

  // ------------------------------------------------------------ read visits

  function ScanLeaf(s: Store, op: Op, page: Page): Outcome
    requires IsScan(op) && page.kind.Leaf?
  {
    var i := BoundIndex(page.kind.entries, BoundOf(op));
    if i < |page.kind.entries| then Return(s, Record(Some(page.kind.entries[i])))
    else if page.right.None? then Return(s, Record(None))
    else GoOn(s, Scanning(page.right.value))
  }

  /** One page of the latch-free descent. */
  function ReadVisit(s: Store, op: Op, node: PageId): Outcome
    requires Inv(s) && Valid(s, node) && !op.First?
  {
    RoutingIsTotal(s, node);
    var page := s.pages[node];
    match RouteOf(page, op.key)
    case Restart => GoOn(s, Starting)
    case Right(next) => GoOn(s, Reading(next))
    case Here =>
      if page.kind.Internal? then
        ChildOwns(s, node, op.key);
        GoOn(s, Reading(ChildFor(page, op.key)))
      else if op.Get? then Return(s, Answer(LeafGet(page.kind.entries, op.key)))
      else if op.Seek? then ScanLeaf(s, op, page)
      else GoOn(s, Latching(node))
  }

  /** One page of the first-child descent. */
  function SinkVisit(s: Store, node: PageId): Outcome
    requires Inv(s) && Valid(s, node)
  {
    assert PageOk(s, node);
    var page := s.pages[node];
    match page.kind
    case Internal(_, children) => GoOn(s, Sinking(children[0]))
    case Leaf(_) => GoOn(s, Scanning(node))
    case Redirect(target) => GoOn(s, Sinking(target))
  }

  /** The next leaf of a forward scan. */
  function ScanVisit(s: Store, op: Op, node: PageId): Outcome
    requires Inv(s) && Valid(s, node) && s.pages[node].level == 0 && IsScan(op)
  {
    assert PageOk(s, node);
    var page := s.pages[node];
    if page.kind.Redirect? then GoOn(s, Scanning(page.kind.target)) else ScanLeaf(s, op, page)
  }

  // -------------------------------------------------------------- fast path

  /** At the owning leaf: replace or insert unless a split is needed. */
  function FastInsert(s: Store, op: Op, node: PageId): Outcome
    requires Valid(s, node) && s.pages[node].kind.Leaf? && op.Insert?
  {
    var es := s.pages[node].kind.entries;
    if Search(es, op.key).Missing? && |es| == N then GoOn(s, SplittingRoot)
    else Return(PutRecord(s, node, op.key, op.value), Answer(LeafGet(es, op.key)))
  }

  function FastModify(s: Store, op: Op, node: PageId): Outcome
    requires Valid(s, node) && s.pages[node].kind.Leaf? && op.Modify?
  {
    var es := s.pages[node].kind.entries;
    Return(if Search(es, op.key).Found? then PutRecord(s, node, op.key, op.value) else s, Answer(LeafGet(es, op.key)))
  }

  /** At the owning leaf: remove unless the leaf is at its minimum. */
  function FastRemove(s: Store, op: Op, node: PageId): Outcome
    requires Valid(s, node) && s.pages[node].kind.Leaf? && op.Remove?
  {
    var es := s.pages[node].kind.entries;
    if Search(es, op.key).Missing? then Return(s, Answer(LeafGet(es, op.key)))
    else if !s.pages[node].isRoot && |es| <= N / 2 then GoOn(s, Shrinking)
    else Return(DropRecord(s, node, op.key), Answer(LeafGet(es, op.key)))
  }

  /** One exclusively latched leaf, revalidated. */
  function LatchedVisit(s: Store, op: Op, node: PageId): Outcome
    requires Inv(s) && Valid(s, node) && (Structural(op) || op.Modify?)
  {
    RoutingIsTotal(s, node);
    if !RouteOf(s.pages[node], op.key).Here? || !s.pages[node].kind.Leaf? then GoOn(s, Starting)
    else if op.Modify? then FastModify(s, op, node)
    else if op.Insert? then FastInsert(s, op, node)
    else FastRemove(s, op, node)
  }

  // -------------------------------------------------------------- slow path

  /** At a leaf with room. */
  function RoomyInsert(s: Store, op: Op, node: PageId): Outcome
    requires Valid(s, node) && s.pages[node].kind.Leaf? && op.Insert?
  {
    Return(PutRecord(s, node, op.key, op.value), Answer(LeafGet(s.pages[node].kind.entries, op.key)))
  }

  /** At a leaf that is safe to shrink. */
  function SafeRemove(s: Store, op: Op, node: PageId): Outcome
    requires Valid(s, node) && s.pages[node].kind.Leaf? && op.Remove?
  {
    var es := s.pages[node].kind.entries;
    Outcome(if Search(es, op.key).Missing? then s else DropRecord(s, node, op.key),
            Some(Answer(LeafGet(es, op.key))), Shrinking)
  }

  /** Splits child `i` of `node` and moves on to the half that owns `k`. */
  function SplitBelow(s: Store, k: Key, node: PageId, i: nat): Outcome
    requires HasChild(s, node, i) && Splittable(s.pages[s.pages[node].kind.children[i]])
  {
    var c := s.pages[node].kind.children[i];
    var target := if SplitOf(s, c).separator <= k then |s.pages| else c;
    GoOn(SplitChild(s, node, i),
         if s.pages[c].right.Some? then FixingBack(Some(target), |s.pages|, s.pages[c].right.value)
         else Writing(target))
  }

  /** Full-child repair under the parent, or a plain descent. */
  function InsertBelow(s: Store, busy: set<Latch>, op: Op, node: PageId): Outcome
    requires Inv(s) && Live(s, node) && s.pages[node].kind.Internal? && op.Insert?
    requires Owns(s.pages[node], op.key) && Occupancy(s.pages[node]) < N
  {
    ChildOwns(s, node, op.key);
    var i := ChildIndex(s.pages[node].kind.keys, op.key);
    var c := s.pages[node].kind.children[i];
    if PageLatch(c) in busy || s.pages[c].kind.Redirect? then GoOn(s, SplittingRoot)
    else if Occupancy(s.pages[c]) == N then
      HalvesInShape(s, c);
      SplitBelow(s, op.key, node, i)
    else GoOn(s, Writing(c))
  }

  function InsertVisit(s: Store, busy: set<Latch>, op: Op, node: PageId): Outcome
    requires Inv(s) && Valid(s, node) && op.Insert?
  {
    RoutingIsTotal(s, node);
    assert PageOk(s, node);
    var page := s.pages[node];
    match RouteOf(page, op.key)
    case Restart => GoOn(s, SplittingRoot)
    case Right(next) => GoOn(s, Writing(next))
    case Here =>
      if Occupancy(page) == N then GoOn(s, SplittingRoot)
      else if page.kind.Leaf? then RoomyInsert(s, op, node)
      else InsertBelow(s, busy, op, node)
  }

  /** Makes the needy one of the two children around separator `i` safe to
      lose a record or separator, then moves on to it. */
  function RefillPair(s: Store, node: PageId, i: nat, leftNeedy: bool): Outcome
    requires HasSiblings(s, node, i)
  {
    var f := FamilyOf(s, node, i);
    var (l, r) := (s.pages[node].kind.children[i], s.pages[node].kind.children[i + 1]);
    var (needy, donor) := if leftNeedy then (f.left, f.right) else (f.right, f.left);
    var target := if leftNeedy then l else r;
    if Minimum(needy) < Occupancy(needy) then GoOn(s, Writing(target))
    else if Minimum(donor) < Occupancy(donor) then
      GoOn(PutFamily(s, node, i, if leftNeedy then BorrowFromRight(f, i) else BorrowFromLeft(f, i)), Writing(target))
    else
      GoOn(MergeAt(s, node, i), Unlinking(Some(r), Repair(f.left.previous, l, r)))
  }

  /** The separator around which the child for `k` is paired with a sibling,
      and whether the child is the left one; None if there is no sibling or a
      page of the pair cannot be latched or is retired. */
  function PairBelow(s: Store, busy: set<Latch>, k: Key, node: PageId): (pair: Option<(nat, bool)>)
    requires Inv(s) && Live(s, node) && s.pages[node].kind.Internal?
    ensures pair.Some? ==>
              && HasSiblings(s, node, pair.value.0)
              && PageLatch(s.pages[node].kind.children[pair.value.0]) !in busy
              && PageLatch(s.pages[node].kind.children[pair.value.0 + 1]) !in busy
  {
    assert PageOk(s, node);
    var cs := s.pages[node].kind.children;
    var i := ChildIndex(s.pages[node].kind.keys, k);
    if i == 0 && |cs| < 2 then None
    else
      var j := if i > 0 then i - 1 else 0;
      SiblingsAdjacent(s, node, j);
      if PageLatch(cs[j]) in busy || PageLatch(cs[j + 1]) in busy
         || s.pages[cs[j]].kind.Redirect? || s.pages[cs[j + 1]].kind.Redirect?
      then None
      else Some((j, i == 0))
  }

  function RemoveBelow(s: Store, busy: set<Latch>, op: Op, node: PageId): Outcome
    requires Inv(s) && Live(s, node) && s.pages[node].kind.Internal? && op.Remove?
  {
    var pair := PairBelow(s, busy, op.key, node);
    if pair.None? then GoOn(s, Shrinking) else RefillPair(s, node, pair.value.0, pair.value.1)
  }

  function RemoveVisit(s: Store, busy: set<Latch>, op: Op, node: PageId): Outcome
    requires Inv(s) && Valid(s, node) && op.Remove?
  {
    RoutingIsTotal(s, node);
    assert PageOk(s, node);
    var page := s.pages[node];
    match RouteOf(page, op.key)
    case Restart => GoOn(s, Shrinking)
    case Right(next) => GoOn(s, Writing(next))
    case Here =>
      if !page.isRoot && Occupancy(page) <= Minimum(page) then GoOn(s, Shrinking)
      else if page.kind.Leaf? then SafeRemove(s, op, node)
      else RemoveBelow(s, busy, op, node)
  }

  // --------------------------------------------------------------- the root

  /** Root slot and root page latched: grow the tree if the root is full. */
  function GrowRoot(s: Store): Outcome
    requires Valid(s, s.root)
    requires Active(s.pages[s.root]) && Occupancy(s.pages[s.root]) >= N ==> Splittable(s.pages[s.root])
  {
    if s.pages[s.root].kind.Redirect? then GoOn(s.(root := s.pages[s.root].kind.target), SplittingRoot)
    else if Occupancy(s.pages[s.root]) < N then GoOn(s, Descending)
    else
      GoOn(SplitRoot(s),
           if s.pages[s.root].right.Some? then FixingBack(None, |s.pages|, s.pages[s.root].right.value)
           else Descending)
  }

  /** Root slot and root page latched: look for an empty root level. */
  function InspectRoot(s: Store, answer: Option<Result>): Outcome
    requires Valid(s, s.root)
    requires s.pages[s.root].kind.Internal? ==> |s.pages[s.root].kind.children| == |s.pages[s.root].kind.keys| + 1
  {
    var kind := s.pages[s.root].kind;
    if kind.Redirect? then Outcome(s, answer, ShrinkingRoot(s.root, kind.target))
    else if kind.Internal? && kind.keys == [] then Outcome(s, answer, ShrinkingRoot(s.root, kind.children[0]))
    else Outcome(s, answer, if answer.Some? then Returning else Descending)
  }

  // ----------------------------------------------------------- link repairs

  /** `repair_split_backlink`, first latch. */
  function BacklinkStart(s: Store, resume: Option<PageId>, page: PageId, succ: PageId): Outcome
    requires Valid(s, page)
  {
    GoOn(s, if s.pages[page].kind.Redirect? || s.pages[page].right != Some(succ) then Resume(resume)
            else FixingBackHeld(resume, page, succ))
  }

  /** `repair_split_backlink`, one turn of its loop. */
  function BacklinkTurn(s: Store, resume: Option<PageId>, page: PageId, succ: PageId): Outcome
    requires LinksTo(s, page, succ)
  {
    if s.pages[succ].kind.Redirect? then
      var target := s.pages[succ].kind.target;
      GoOn(SetRight(s, page, target), FixingBackHeld(resume, page, target))
    else
      GoOn(SetPrevious(s, succ, Some(page)), Resume(resume))
  }

  /** `repair_merged_link`, the latch on the current predecessor candidate. */
  function UnlinkTurn(s: Store, resume: Option<PageId>, r: Repair, cursor: PageId, alive: bool): Outcome
    requires Valid(s, cursor)
  {
    var page := s.pages[cursor];
    if page.kind.Redirect? then
      GoOn(s, UnlinkingFrom(resume, r, if page.previous.Some? && alive then page.previous.value else page.kind.target))
    else if page.right.None? then GoOn(s, UnlinkingLast(resume, r))
    else if page.right.value == r.retired then
      GoOn(SetRight(s, cursor, r.survivor), UnlinkingJoin(resume, r, cursor, FoundRetired))
    else if page.right.value == r.survivor then GoOn(s, UnlinkingJoin(resume, r, cursor, FoundSurvivor))
    else GoOn(s, UnlinkingPeek(resume, r, cursor, page.right.value))
  }

  /** `repair_merged_link`, predecessor and survivor both latched. */
  function JoinTurn(s: Store, resume: Option<PageId>, r: Repair, cursor: PageId, reason: Reason): Outcome
    requires LinksTo(s, cursor, r.survivor)
  {
    if s.pages[r.survivor].kind.Redirect? then
      var target := s.pages[r.survivor].kind.target;
      match reason
      case FoundRetired => GoOn(SetRight(s, cursor, target), UnlinkingFrom(resume, r, target))
      case FoundSurvivor => GoOn(SetRight(s, cursor, target), UnlinkingFrom(resume, r, cursor))
      case Compacted => GoOn(s, UnlinkingFrom(resume, r, cursor))
    else
      GoOn(SetPrevious(s, r.survivor, Some(cursor)), Resume(resume))
  }

  /** `repair_merged_link`, predecessor and some other successor latched. */
  function PeekTurn(s: Store, resume: Option<PageId>, r: Repair, cursor: PageId, next: PageId): Outcome
    requires LinksTo(s, cursor, next)
  {
    if s.pages[next].kind.Redirect? then
      var target := s.pages[next].kind.target;
      GoOn(SetRight(s, cursor, target),
           if target == r.survivor then UnlinkingJoin(resume, r, cursor, Compacted)
           else UnlinkingFrom(resume, r, cursor))
    else GoOn(s, UnlinkingFrom(resume, r, next))
  }

  // -------------------------------------------------------------- all steps

  /** The next atomic step of a running operation, taken only when the latch it
      wants is not in `busy`, the latches held by other threads. A try-latch
      fails on every latch in `taken`, which includes `busy` and whatever short
      read latches others hold at that moment. `alive` tells whether a weak
      back-link can still be upgraded. */
  function Step(s: Store, taken: set<Latch>, alive: bool, op: Op, answer: Option<Result>, at: Phase): Outcome
    requires Inv(s) && Knows(s, at) && Suits(op, answer, at)
  {
    match at
    case Starting => GoOn(s, if op.First? then Sinking(s.root) else Reading(s.root))
    case Reading(node) => ReadVisit(s, op, node)
    case Latching(node) => LatchedVisit(s, op, node)
    case Sinking(node) => SinkVisit(s, node)
    case Scanning(node) => ScanVisit(s, op, node)
    case SplittingRoot => GoOn(s, SplittingRootHeld(s.root))
    case SplittingRootHeld(_) => assert PageOk(s, s.root); GrowRoot(s)
    case Descending => GoOn(s, Writing(s.root))
    case Writing(node) => if op.Insert? then InsertVisit(s, taken, op, node) else RemoveVisit(s, taken, op, node)
    case FixingBack(resume, page, succ) => BacklinkStart(s, resume, page, succ)
    case FixingBackHeld(resume, page, succ) => BacklinkTurn(s, resume, page, succ)
    case Unlinking(resume, r) =>
      GoOn(s, if r.predecessor.Some? && alive then UnlinkingFrom(resume, r, r.predecessor.value)
              else UnlinkingLast(resume, r))
    case UnlinkingFrom(resume, r, cursor) => UnlinkTurn(s, resume, r, cursor, alive)
    case UnlinkingJoin(resume, r, cursor, reason) => JoinTurn(s, resume, r, cursor, reason)
    case UnlinkingPeek(resume, r, cursor, next) => PeekTurn(s, resume, r, cursor, next)
    case UnlinkingLast(resume, r) => GoOn(SetPrevious(s, r.survivor, None), Resume(resume))
    case Shrinking => Outcome(s, answer, ShrinkingSlot(s.root))
    case ShrinkingSlot(_) => assert PageOk(s, s.root); InspectRoot(s, answer)
    case ShrinkingRoot(root, child) =>
      assert PageOk(s, root) && ChildOk(s, s.pages[root], 0);
      Outcome(CollapseRoot(s), answer, Shrinking)
    case Returning => Outcome(s, answer, Returning)
  }
}
