# A verified model of the b-link tree

This project models `b-link`, a concurrent ordered map kept in a latch-crabbed
B-link tree, and proves what the map promises. Three source files are modelled:
the tree (`src/node.rs`), its re-seeking cursors (`src/iter.rs`) and the
fixed-capacity owning array its pages are built on (`src/array.rs`).

Every result holds for each page capacity `N >= 3` (`Pages.N` is a constant
without a value), for any number of threads and for arbitrary values.

Check everything with `dafny verify dfyconfig.toml`.

## How the model is laid out

Pages and the heap:

- `Pages.dfy`: a page with its fences, links and kind, routing, searching,
  splitting and the three sibling rewrites.
- `Stores.dfy`: the page heap, the structural invariant `Inv` and the stored
  records. A page id is an index; pages are never reused. Each page carries two
  auxiliary values that no algorithm reads: its level, and a rank that orders
  the pages of a level from left to right (a new right half goes directly after
  its left half, a retired page keeps its place).
- `Ownership.dfy`, `LinkSteps.dfy`, `SplitSteps.dfy`, `BorrowSteps.dfy`,
  `MergeSteps.dfy`, `LeafSteps.dfy`: each atomic rewrite of the heap and the
  proof that it keeps `Inv`.
- `Abstraction.dfy`: the map a heap represents, and that no structural rewrite
  changes it.
- `Traversal.dfy`: searches from arbitrarily stale handles, acyclicity of the
  strong pointers, and where right links lead.
- `Bounds.dfy`: bounds on keys and positions in sorted leaves.

The concurrent protocol:

- `Protocol.dfy`: operations as state machines. One step covers the work
  between acquiring a latch and either waiting for the next one or letting go;
  latches held while waiting, failing try-latches and failing weak upgrades are
  explicit.
- `Linearization.dfy`, `Refinement.dfy`: every step either leaves the map alone
  or applies the whole operation to it, with the answer the thread returns.
- `Motion.dfy`: where keys move as the heap changes; the only step that moves a
  key to the left, and the leftmost pages.
- `Backlinks.dfy`: where back-links lead, retired pages included, and why a
  repair that backtracks through them comes out.
- `Systems.dfy`, `Runs.dfy`: any interleaving of any number of threads; safety at
  every step boundary, linearizability with exactly one effect per operation,
  stale handles over whole runs, repairs that can end, no deadlock.

One operation at a time:

- `Quiescence.dfy`: each structural step together with its link repair keeps
  every level a doubly linked list (`Quiet`).
- `Trees.dfy`: class `Tree`, the operations as imperative methods over the heap.
- `Walks.dfy`, `Levels.dfy`, `Validators.dfy`: the tree read left to right, its
  size bounds, and the exhaustive validator, which accepts exactly the quiet
  states.

Cursors and storage:

- `Scans.dfy`, `Cursors.dfy`, `Iters.dfy`: bounded scans and the two iterators.
- `ScanRaces.dfy`: scans against concurrent writers, and exactly when a scan
  skips a record that is stored all through it.
- `RaceRuns.dfy`: a run, from the empty tree, in which that happens.
- `Iterations.dfy`: what whole iterations yield while writers are at work.
- `Arrays.dfy`: class `Array` over one buffer, overlapping shifts, ownership
  transfer and unwinding destructors.

## Where code and documentation disagree

The documentation of the iterator (`src/iter.rs`, lines 24 to 27) says that it
observes every record that remains present while the cursor passes it. The code
does not guarantee this: `entry_at_or_after` drops one leaf before it latches
the next, and in between a remover can borrow the first record of the next leaf
into the leaf already left behind. `RaceRuns.ScanCanSkipStoredRecord` gives a run
for every page capacity, from an empty tree with two threads, in which a scan
step skips a record that is in the map in every state from its call to its
return. `ScanRaces.SkipsIff` states the exact condition, over all runs: a scan
step skips a record stored all through it if and only if, between two of its own
steps, a first child left of the scan borrowed that record as the first one of a
leaf at or right of it, and the record has stayed behind since. No other step of
any operation can do this (`Motion.StepHidesIff`). For whole iterations,
`Iterations.StoredKeyIsYieldedIff` states that an iterator yields a record stored
during its calls exactly if no call skips it so; an iteration that overlaps no
removal is complete (`Iterations.NothingMissedWithoutRemovers`). Order holds in
any case: `Cursors.CursorNeverGoesBack`.

A comment in `Drop` of `Array` (`src/array.rs`, lines 410 and 411) takes it that
`clear` has removed every value. When a destructor unwinds, the values before it
and the buffer are leaked instead. `Arrays.NothingLeaksIff` states exactly when:
no value leaks if and only if no value but the first one unwinds, and the buffer
is released if and only if none unwinds; `Arrays.DropCanLeak` is an instance that
leaks. No value is ever dropped twice (`Arrays.EveryValueDroppedOnce`).

## Model

| member | source | states |
|---|---|---|
| Pages.ChildIndex | src/node.rs:331-350 | the child slot is the number of separators not above the key, so equality selects the right child |
| Pages.Search | src/node.rs:370-379 | a search in a sorted leaf finds the record with the key or proves that none has it |
| Ownership.OwnerUnique | src/node.rs:58-63 | two active pages of a level never own the same key |
| Ownership.ParentUnique | src/node.rs:1506-1533 | an active page fills at most one child slot of the whole heap |
| Ownership.SiblingsAdjacent | src/node.rs:1237-1260 | two adjacent children are active pages of one kind whose fences meet at the separator between them |
| SplitSteps.HalvesInShape | src/node.rs:263-301 | for every N >= 3, odd or even, both halves of a full page meet the minimum, have room, keep order and lie on their side of a separator strictly inside the page |
| SplitSteps.HalvesKeepSlots | src/node.rs:282-298 | an internal split keeps every child with exactly the fences it had |
| SplitSteps.SplitSlots | src/node.rs:353-366 | publishing a separator shifts the later slots and changes no fence but the one it splits |
| SplitSteps.SplitChildKeepsInv | src/node.rs:705-738 | splitting a full child under a parent with room keeps the whole heap invariant |
| SplitSteps.SplitRootKeepsInv | src/node.rs:896-927 | growing the tree by a new root keeps the whole heap invariant |
| BorrowSteps.BorrowLeftRebalances | src/node.rs:1150-1192 | borrowing from the left moves the common fence and the parent separator together and leaves three pages in shape |
| BorrowSteps.BorrowRightRebalances | src/node.rs:1195-1231 | borrowing from the right moves the common fence and the parent separator together and leaves three pages in shape |
| BorrowSteps.BorrowLeftSameRun | src/node.rs:1172-1186 | the run of grandchildren below the two siblings, with their fences, is the same before and after |
| BorrowSteps.BorrowRightSameRun | src/node.rs:1211-1225 | the run of grandchildren below the two siblings, with their fences, is the same before and after |
| BorrowSteps.BorrowLeftKeepsInv | src/node.rs:793-833 | the borrow under its parent latch keeps the whole heap invariant |
| BorrowSteps.BorrowRightKeepsInv | src/node.rs:846-882 | the borrow under its parent latch keeps the whole heap invariant |
| MergeSteps.MergeIsGood | src/node.rs:1237-1289 | two minimal siblings and a separator fit into one page, which ends above its minimum and owns both intervals |
| MergeSteps.MergedRun | src/node.rs:1257-1274 | a merged internal page has the children of both siblings, in order, with their fences |
| MergeSteps.MergeKeepsInv | src/node.rs:1237-1289 | retiring the left sibling into the right one keeps the whole heap invariant |
| MergeSteps.SoleChild | src/node.rs:943-950 | the only child of a root without separators already covers all keys, has no right neighbour and no peer on its level |
| MergeSteps.CollapseKeepsInv | src/node.rs:930-964 | publishing the sole child as the root keeps the whole heap invariant |
| LinkSteps.CompactKeepsInv | src/node.rs:1318-1323 | letting a right link skip a retired page jumps over no active page and keeps the invariant |
| LinkSteps.SetPreviousKeepsInv | src/node.rs:1326-1327 | back-links are hints: any value inside the heap keeps the invariant |
| Abstraction.RecordsFunctional | src/node.rs:13-24 | no key is stored twice |
| Abstraction.OwnerDecides | src/node.rs:429-446 | the leaf that owns a key decides whether the map has it, and with which value |
| Abstraction.SplitChildRecords | src/node.rs:263-323 | a child split keeps the set of records |
| Abstraction.SplitRootRecords | src/node.rs:188-208 | a root split keeps the set of records |
| Abstraction.BorrowLeftRecords | src/node.rs:1150-1192 | borrowing from the left keeps the set of records |
| Abstraction.BorrowRightRecords | src/node.rs:1195-1231 | borrowing from the right keeps the set of records |
| Abstraction.MergeRecords | src/node.rs:1237-1289 | a merge keeps the set of records |
| Abstraction.CollapseRecords | src/node.rs:930-964 | a root collapse keeps the set of records |
| LeafSteps.LeafPutEffect | src/node.rs:382-399 | inserting or replacing keeps the leaf sorted, changes only the record of that key, and grows the leaf exactly for a new key |
| LeafSteps.LeafDropEffect | src/node.rs:779-787 | removing keeps the leaf sorted and removes exactly the record of that key |
| LeafSteps.OwnerAnswers | src/node.rs:429-446 | the owning leaf answers a lookup for the whole map |
| LeafSteps.PutIsUpdate | src/node.rs:623-637 | a write at the owning leaf is an update of the map at that key and keeps the invariant |
| LeafSteps.DropIsRemoval | src/node.rs:655-667 | a removal at the owning leaf removes that key from the map and keeps the invariant |
| Traversal.EdgePrecedes | src/node.rs:75-82 | every strong pointer leads to a lower level, or rightward on the same level |
| Traversal.PointersAcyclic | src/node.rs:84-85 | no path of strong pointers returns to its start, retired pages and former roots included |
| Traversal.RoutingIsTotal | src/node.rs:244-252 | the expectation in routing never fails: a finite high fence comes with a right link |
| Traversal.RightPrecedes | src/node.rs:229-255 | a rightward route stays in the heap and makes progress in the order of levels and ranks |
| Traversal.ChildOwns | src/node.rs:331-350 | descending keeps ownership of the key and goes down one level |
| Traversal.Traverse | src/node.rs:966-1000 | a search from any page in any heap terminates, at an active leaf that owns the key or at a restart; from an owner it never restarts |
| Traversal.SearchesAgree | src/node.rs:966-1000 | a fresh descent meets neither Restart nor Right, and every search that does not restart ends at the same leaf |
| Traversal.ResolveSkipsNothing | src/node.rs:49-53 | following retired pages of a level rightward passes no active page |
| Traversal.RightLinkLeadsToNeighbour | src/node.rs:58-63 | the right link, followed through retired pages, ends at the active page of the level whose interval starts where this one ends |
| Traversal.ParentExists | src/node.rs:1444-1450 | every page that is not retired, except the root, is in the parent tree, in exactly one slot |
| Linearization.PutRecordSound | src/node.rs:631-636 | insertion with its counter update keeps the counter equal to the size of the map |
| Linearization.DropRecordSound | src/node.rs:1083-1086 | removal with its counter update keeps the counter exact, and the counter never underflows |
| Bounds.SeekIndexMeaning | src/node.rs:537-541 | the records from the seek position on are exactly those past the bound |
| Linearization.ReadVisitGood | src/node.rs:966-1000 | a read visit to any page keeps the map, or answers get with the value the map has at that moment |
| Linearization.SinkVisitGood | src/node.rs:1003-1022 | each step of the first-child descent of first_entry keeps the map and stays in the heap |
| Linearization.ScanVisitGood | src/node.rs:534-563 | a scan step keeps the map and answers only with a record that is in the map and past the bound |
| Linearization.LatchedVisitGood | src/node.rs:1060-1080 | a latched leaf visit applies get_mut, insert or remove to the map exactly, or changes nothing |
| Refinement.InsertVisitGood | src/node.rs:671-749 | each step of the splitting descent applies the insertion exactly once or keeps the map, whatever try-latch fails |
| Refinement.RemoveVisitGood | src/node.rs:752-894 | each step of the rebalancing descent applies the removal exactly once or keeps the map, whatever try-latch fails |
| Refinement.GrowRootGood | src/node.rs:897-927 | the root split step keeps invariant, counter and map |
| Refinement.CollapseGood | src/node.rs:930-964 | the root collapse step keeps invariant, counter and map |
| Refinement.BacklinkTurnGood | src/node.rs:1316-1329 | each turn of the split repair keeps invariant, counter and map against any interleaving |
| Refinement.UnlinkTurnGood | src/node.rs:1345-1371 | each turn of the merge repair at a predecessor keeps invariant, counter and map, also when weak upgrades fail |
| Refinement.JoinTurnGood | src/node.rs:1371-1394 | the merge repair at the survivor keeps invariant, counter and map, also when the survivor has been retired |
| Refinement.PeekTurnGood | src/node.rs:1396-1416 | the merge repair at another successor keeps invariant, counter and map |
| Refinement.StepGood | src/node.rs:427-964 | every step of every operation keeps invariant and counter, respects the latches of other threads, and either keeps the map or applies the operation with its answer |
| Systems.KnowledgeIsStable | src/node.rs:1300-1316 | what a thread relies on between two steps survives the steps of all other threads |
| Systems.StepHolds | src/node.rs:705-964 | a step keeps no latch beyond those it had and the one it waited for |
| Systems.NextKeepsInv | src/node.rs:427-964 | the tree and thread invariants hold after every step of every thread |
| Systems.NextRefinesMap | src/node.rs:427-964 | every step of the system is a step of an atomic map |
| Runs.RunsAreSafe | src/node.rs:1444-1538 | every reachable state satisfies the tree invariant, the exact counter and mutual exclusion |
| Runs.RunsRefineMap | src/node.rs:427-894 | every run of any number of threads is, step by step, a run of an atomic ordered map |
| Runs.AppliedExactlyOnce | src/node.rs:567-615 | in every run, a call that returns takes effect at exactly one step between its call and its return, with the answer it returns, and no other operation of the thread takes effect there |
| Runs.PresentKeyIsFound | src/node.rs:966-1000 | in every run, a lookup of a key stored in every state from its call to its return answers with the value the key had at one of those states |
| Runs.HeapEvolves | src/node.rs:49-53 | allocated pages keep their place and a retired page forwards to the same page for ever |
| Motion.StepMovesPlace | src/node.rs:618-964 | over every step of every operation, the leaf that owns a key moves left exactly when a first child borrows from its right sibling and the key lies in front of the lender's second record, and then to that child |
| Motion.BehindIsStoredLeft | src/node.rs:533-560 | a record lies behind a page if and only if a leaf left of that page stores it |
| Motion.StepHidesIff | src/node.rs:846-882 | a record kept by a step goes from in front of a page to behind it if and only if the step lets a first child left of that page borrow it as the first record of a leaf at or right of the page |
| Motion.StepKeepsEdges | src/node.rs:1003-1022 | leftmost pages stay leftmost: new pages come to the right of old ones, and a former root forwards to a leftmost page |
| Backlinks.StepKeepsBacks | src/node.rs:1276-1282 | no step of any operation makes a back-link, be it of a retired page, lead to or past a page that forwards to the one it was taken from |
| Backlinks.BacktrackingEscapes | src/node.rs:1348-1360 | following live back-links, and forwarding where there is none, ends at an active page, whichever pages have been freed |
| Runs.RepairsComeOut | src/node.rs:1333-1418 | in every reachable heap a pending merge repair meets the condition under which the repair, run on its own, ends |
| Runs.StaleHandlesWork | src/node.rs:228-255 | a handle obtained at any time in a run leads, in every later heap, to a restart or to the leaf a fresh descent finds |
| Runs.ReachableTreesValidate | src/node.rs:1444-1538 | at every step boundary the parent tree passes the validator, which counts exactly len records; only a transient root without separators is turned down |
| Runs.WaitsForward | src/node.rs:1341-1344 | a thread only waits for latches that come after all those it holds: root slot, then top-down, then left to right |
| Runs.WaitingIsAcyclic | src/node.rs:701-853 | threads waiting for one another never form a circle |
| Runs.NoDeadlock | src/node.rs:567-964 | while any operation is running in a reachable state, some running operation can take a step |
| Walks.WalkSorted | src/node.rs:1471-1487 | the leaves read left to right are strictly sorted and lie inside the fences |
| Walks.WalkListsContents | src/node.rs:1128-1140 | the leaves read left to right list the map in key order, each record once |
| Walks.SameRecordsSameWalk | src/node.rs:1150-1289 | a rewrite that keeps the records keeps their left-to-right concatenation |
| Walks.SizeBounds | src/node.rs:219-226 | with h levels the map has at most N*(N+1)^(h-1) records, and at least 2*(N/2)*((N-1)/2+1)^(h-2) if the root has a separator |
| Walks.ValidatorAccepts | src/node.rs:1444-1538 | the node validator turns a tree down exactly when its root has lost its last separator, and otherwise counts the records of the map at one leaf depth |
| Levels.LevelTiles | src/node.rs:1562-1590 | the pages of a level tile the key space in order |
| Levels.LevelComplete | src/node.rs:1562-1590 | the pages of a level below the root are all its active pages |
| Levels.LevelWidth | src/node.rs:1542-1558 | no level has more than max(1, len) pages, so the cycle limit is never hit falsely |
| Levels.ChainFollowsLevel | src/node.rs:1542-1628 | in a chained heap the right chain of a level is exactly its pages in key order, free of retired pages, with the back-links as its inverse |
| Levels.LinkedLevelsAreChained | src/node.rs:1542-1628 | conversely, if every level list is linked the heap is chained |
| Validators.Height | src/node.rs:1090-1111 | counting first children gives the number of levels |
| Validators.ValidateLevel | src/node.rs:1556-1612 | the walk along a level accepts exactly the levels whose pages are linked both ways |
| Validators.ValidateSiblingLevels | src/node.rs:1542-1628 | the sibling check accepts exactly the heaps whose every level is a doubly linked list of its active pages |
| Validators.Validate | src/node.rs:1115-1146 | the whole check accepts exactly the states in which counter, chains and root are in order |
| Quiescence.ChainIsKeyOrder | src/node.rs:1542-1628 | the right neighbour of a page is active, starts where it ends and points back |
| Quiescence.SplitChildIsCalm | src/node.rs:1292-1330 | a child split with its repair restores every chain and keeps map and counter |
| Quiescence.SplitRootIsCalm | src/node.rs:897-927 | a root split keeps every chain, map and counter |
| Quiescence.BorrowIsCalm | src/node.rs:1150-1231 | a borrow keeps every chain, map and counter |
| Quiescence.MergeIsCalm | src/node.rs:1333-1418 | a merge with its repair restores every chain and keeps map and counter |
| Quiescence.CollapseIsCalm | src/node.rs:930-964 | a root collapse keeps every chain, map and counter |
| Quiescence.SplitHalfEntered | src/node.rs:721-738 | the half entered after a split owns the key and has room |
| Quiescence.BorrowerEntered | src/node.rs:809-882 | the child entered after a borrow still owns the key and is above its minimum |
| Quiescence.SurvivorEntered | src/node.rs:817-882 | the survivor of a merge owns the key and is above its minimum |
| Trees.FindChild | src/node.rs:331-350 | the binary search returns the child slot of the key |
| Trees.Tree.constructor | src/node.rs:404-414 | a new tree is quiet and represents the empty map |
| Trees.Tree.LeafFrom | src/node.rs:967-1000 | the descent loop from any handle terminates with the result of the search |
| Trees.Tree.LeafFor | src/node.rs:967-1000 | one descent from the root finds the leaf that owns the key |
| Trees.Tree.Get | src/node.rs:429-446 | get returns what the map holds |
| Trees.Tree.GetMut | src/node.rs:449-466 | writing through get_mut updates a present key and nothing else |
| Trees.Tree.LeftmostFrom | src/node.rs:1003-1022 | the first-child descent from any handle ends at a leaf with the same lower fence |
| Trees.Tree.RightmostFrom | src/node.rs:1026-1056 | the last-child descent from any handle ends at the last leaf |
| Trees.Tree.ScanFrom | src/node.rs:534-563 | the scan through leaves and retired pages returns the least record past the bound |
| Trees.Tree.FirstEntry | src/node.rs:469-495 | first_entry returns the record with the least key, or nothing for an empty map |
| Trees.Tree.EntryAtOrAfter | src/node.rs:524-564 | entry_at_or_after returns the least record at or after the key, or strictly after it |
| Trees.Tree.LastEntry | src/node.rs:498-521 | last_entry returns the record with the greatest key, or nothing for an empty map |
| Trees.Tree.TryInsertWithoutSplit | src/node.rs:618-639 | the fast insertion updates the map, or leaves the tree untouched when a split is needed |
| Trees.Tree.TryRemoveWithoutRebalance | src/node.rs:642-668 | the fast removal updates the map, or leaves the tree untouched when rebalancing is needed |
| Trees.Tree.StoreRecord | src/node.rs:382-399 | the leaf insertion rewrites one leaf and counts a new record |
| Trees.Tree.EraseRecord | src/node.rs:779-787 | the leaf removal rewrites one leaf and discounts the record |
| Trees.Tree.SplitPage | src/node.rs:263-323 | the in-place split produces exactly the two specified halves and hands out the old successor |
| Trees.Tree.RepairSplitBacklink | src/node.rs:1292-1330 | the split repair terminates in any heap, keeps invariant and records, and between operations sets exactly the successor's back-link |
| Trees.Tree.SplitFullChild | src/node.rs:712-738 | splitting a full child with its repair ends in a quiet tree with the same map |
| Trees.Tree.GrowRoot | src/node.rs:908-921 | the in-place root split produces exactly the specified heap |
| Trees.Tree.SplitRootIfFull | src/node.rs:897-927 | afterwards the root has room, in a quiet tree with the same map |
| Trees.Tree.EnterForInsert | src/node.rs:700-745 | the child entered owns the key and has room, after a split if needed |
| Trees.Tree.InsertAttempt | src/node.rs:671-749 | one pass inserts exactly; it asks for a retry if and only if the root was full |
| Trees.Tree.Insert | src/node.rs:567-590 | insert updates the map, returns the replaced value, keeps the tree quiet and counts a new key |
| Trees.Tree.BorrowLeft | src/node.rs:1150-1192 | the in-place borrow produces exactly the specified three pages |
| Trees.Tree.BorrowRight | src/node.rs:1195-1231 | the in-place borrow produces exactly the specified three pages |
| Trees.Tree.MergeChildren | src/node.rs:1237-1289 | the in-place merge produces exactly the specified three pages and hands out the predecessor |
| Trees.Tree.SearchTurn | src/node.rs:1362-1416 | a turn at an active page keeps invariant and records and ends the repair, shortens the right link, moves right, or splices out the retired page and goes on behind its retired survivor |
| Trees.Tree.SearchFrom | src/node.rs:1345-1417 | the search loop with all its branches ends wherever backtracking comes out; from a page left of the retired one it splices that page out of the chain |
| Trees.Tree.RepairMergedLink | src/node.rs:1333-1418 | the merge repair keeps invariant and records, leaves the survivor with a back-link that is matched by a right link or none, and between operations does exactly the splice |
| Trees.Tree.MergeAndRepair | src/node.rs:817-833 | merging with its repair keeps map, counter and chains |
| Trees.Tree.RefillPair | src/node.rs:806-882 | the needy child is left alone, lent to or merged, and the page entered owns the key above its minimum |
| Trees.Tree.PairFor | src/node.rs:790-853 | the first child is paired with its right sibling, any other child with its left one, and there is no pair exactly below a root without separators |
| Trees.Tree.EnterForRemove | src/node.rs:788-892 | the child entered owns the key and is above its minimum |
| Trees.Tree.RemoveAttempt | src/node.rs:752-894 | one pass removes exactly; it asks for a retry if and only if the root had no separators |
| Trees.Tree.CollapseEmptyRoot | src/node.rs:943-961 | the in-place collapse produces exactly the specified heap |
| Trees.Tree.ShrinkRoot | src/node.rs:930-964 | afterwards the root has a separator or is a leaf, in a quiet tree with the same map |
| Trees.Tree.Remove | src/node.rs:594-615 | remove deletes the key from the map, returns its value, keeps the tree quiet and discounts a present key |
| Scans.ScanStarts | src/node.rs:533-534 | no leaf left of the owner of the bound has a record past the bound |
| Scans.ScanMoves | src/node.rs:548-558 | following a right link or a retired page skips no record past the bound |
| Scans.ScanFinds | src/node.rs:543-545 | the first record past the bound in the current leaf is the least of the map |
| Scans.ScanEnds | src/node.rs:548-549 | a scan that leaves the last leaf has seen every record |
| Scans.LastLeafHasGreatest | src/node.rs:498-521 | the last record of the last leaf is the greatest, and that leaf is empty only for an empty map |
| ScanRaces.OwnerSeekIsExact | src/node.rs:533-546 | a seek answered by the leaf that owns its key is exact |
| ScanRaces.SkipsIff | src/node.rs:533-560 | in every run, a scan step skips a record stored all through it if and only if between two of its own steps a borrow has carried that record behind it, where it has stayed |
| ScanRaces.NothingSkippedWithoutRemovers | src/iter.rs:24-27 | a scan step during which nobody removes skips no record that stays stored |
| ScanRaces.BorrowHidesRecord | src/node.rs:846-882 | the step in which a remover lends such a record keeps the map, and a scan that answers at its page afterwards skips the record |
| RaceRuns.ScanCanSkipStoredRecord | src/iter.rs:24-27 | for every capacity there is a run from the empty tree in which a scan step skips a record that is stored in every state from its call to its return |
| Cursors.SeekMovesCursor | src/iter.rs:59-75 | a seek, or the first call without a bound, linearized anywhere moves its cursor forward inside its range |
| Cursors.CursorNeverGoesBack | src/iter.rs:19-27 | whatever happens to the map, yielded keys strictly increase and exhaustion is final |
| Cursors.IterationIsExact | src/iter.rs:59-75 | a complete iteration over an unchanging map yields, sorted, exactly the records in range |
| Cursors.IterationEnds | src/iter.rs:59-75 | every iteration over an unchanging map comes to its end, having yielded the records in range |
| Cursors.RangeIsExact | src/iter.rs:141-174 | over an unchanging tree a range yields the leaves' records between its bounds, left to right, and nothing else |
| Cursors.FullIterationIsWalk | src/iter.rs:59-75 | over an unchanging tree the iterator yields every record exactly once, in order |
| Cursors.RejectedRangesAreEmpty | src/iter.rs:332-348 | a rejected range contains no key, and with two inclusive ends exactly the empty ranges are rejected |
| Iterations.StoredKeyIsYieldedIff | src/iter.rs:24-27 | in every run, an iteration that has ended yielded a key of its range that was stored during all its calls if and only if no call hid the key while the cursor still had it in front |
| Iterations.NothingMissedWithoutRemovers | src/iter.rs:24-27 | an iteration whose calls overlap no removal yields every key of its range that is stored during them |
| Iters.Iter.constructor | src/iter.rs:46-52 | a new iterator stands before the first key |
| Iters.Iter.Next | src/iter.rs:59-75 | next yields the least record above the last one, whatever the tree has become, or finishes for good |
| Iters.Range.Open | src/iter.rs:118-128 | a range opens exactly if its bounds are accepted |
| Iters.Range.Next | src/iter.rs:141-174 | next applies the start bound once, then yields the least record above the last one inside the end bound, or finishes for good |
| Arrays.Array.WithCapacity | src/array.rs:47-69 | a new array is empty and has the requested capacity |
| Arrays.Array.Shift | src/array.rs:284-287 | the overlapping copy moves a whole range at once |
| Arrays.Array.Push | src/array.rs:257-268 | push appends, or panics on a full array without changing it |
| Arrays.Array.Pop | src/array.rs:320-330 | pop takes the last value, or nothing |
| Arrays.Array.Insert | src/array.rs:275-292 | insert shifts the suffix right, or panics without changing anything |
| Arrays.Array.Remove | src/array.rs:299-317 | remove takes the value and shifts the suffix left, or panics without changing anything |
| Arrays.Array.SplitOff | src/array.rs:125-149 | split_off moves the tail into a new array of the same capacity |
| Arrays.Array.AppendFrom | src/array.rs:158-185 | append_from moves everything to the end and empties the other array |
| Arrays.Array.PrependFrom | src/array.rs:196-230 | prepend_from moves everything to the front, in order, and empties the other array |
| Arrays.Array.Clear | src/array.rs:237-250 | clear drops from the end and stops at an unwinding destructor with that value gone and the rest intact |
| Arrays.Array.Drop | src/array.rs:401-417 | dropping an array accounts for every value once, as dropped or leaked; none leaks if and only if no value but the first unwinds, and the buffer is released if and only if none unwinds |
| Arrays.NothingLeaksIff | src/array.rs:237-250 | clearing leaves nothing behind if and only if no value but the first unwinds, and does not unwind if and only if no value does |
| Arrays.DropCanLeak | src/array.rs:401-417 | of two values the first leaks if the second unwinds |
| Arrays.ClearingDropsSuffix | src/array.rs:237-250 | clearing drops a suffix in reverse order; only the last value dropped can have unwound |
| Arrays.EveryValueDroppedOnce | src/array.rs:232-250 | clearing until it succeeds drops every value exactly once, however often destructors unwind |
| Arrays.CommandConserves | src/array.rs:125-330 | no operation creates, duplicates or loses a value |
| Arrays.ValuesHaveOneOwner | src/array.rs:125-330 | over any program of operations, panics and unwinding included, each value is always in as many places as at the start: once in a live slot, with the caller, or dropped |
| Arrays.CapacityIsRespected | src/array.rs:21-24 | no program overfills an array |
| Arrays.Perform | src/array.rs:125-330 | an operation carried out on arrays in memory is exactly one step of such a program, so the three results above hold of the arrays |

## Left out

- Trees.Tree.RepairMergedLink: ends in a heap that nobody else changes; while other threads keep changing the heap no bound on its turns is claimed.
- Trees.Tree.SplitRootIfFull: the branch for a retired page in the root slot and the successor repair after a root split are in `Protocol.GrowRoot` only; between operations the root is active and has no successor.
- Trees.Tree.LeafFor: the restart loop around the descent is not repeated, because a descent that starts at the root of a frozen heap never restarts.
- Walks.ValidatorAccepts: the validator is stated for heaps that satisfy the structural invariant; on other heaps it might not end.
- Validators.Validate: for the same reason, the validators are characterised on heaps that satisfy the structural invariant.
- Validators.ValidateLevel: as above, and with a limit no smaller than the width of the level.
- Validators.ValidateSiblingLevels: as above, and with an exact counter, which its caller has compared by then.
- Trees.Tree.GetMut: one overwrite with a given value stands for whatever a caller does through the guard.
- Linearization.ScanVisitGood: one step promises a record past its bound, not the least one; which records the whole scan can skip is `ScanRaces.SkipsIff`.
- Runs.NoDeadlock: assumes that no entry guards are held by callers, and that shared latches are short; a caller that keeps guards can block itself, as the repository says.
- Termination of retry loops under contention: it depends on the scheduler.
- Exact back-links and redirect-free chains while repairs and other writers interleave: the protocol treats back-links as hints, and no search depends on them.
- `last_entry` as a concurrent operation: it is modelled one operation at a time; it re-latches its leaf after a split may have landed.
- Reclaiming pages: ids are never reused, so a weak back-link that can no longer be upgraded is a choice of the environment (`alive` in `Protocol.Step`).
- Short shared read latches do not block others in the protocol, except that a try-latch may fail on them.
- Key comparisons and key destructors that unwind in the middle of a rewrite.
- Memory orderings of the counter and the latches, allocation layouts, zero-sized values and integer overflow of lengths.
- Pages hold their records, separators and children as sequences; that `Array` implements those sequences is proved separately in `Arrays.dfy`.
- Keys are integers: any total order would do, but borrowed lookup types and key orders that break the order laws are not modelled.
- `src/map.rs`, `src/set.rs` and `src/handle.rs`: facades and guard wrappers over the operations above.
