# Balloon designer editor store, modelled in Dafny

This project models the scene-state engine of a balloon-decoration design editor. That engine is the
Pinia store `src/stores/editor.store.js` plus the balloon-type catalog store `src/stores/catalog.store.js`.
The model covers these parts of the editor store:

- the node array and its draw order (`reindexZ`, `reorderByIds`, `reorderGroupChildIds`);
- the selection (`select`, `toggleSelect`, `setSelection`, `clearSelection`, `boxSelect`, `deleteSelected`);
- logical groups (`_cleanupGroups`, `groupSelection`, `ungroupSelection`, `selectGroup`);
- the snapshot undo/redo history with debounced commits and nested batches;
- the clipboard and the cascading paste session (`copySelected`, `pasteFromClipboard`, `endPasteSession`,
  `tickPasteSession`, `duplicateSelected`, `duplicateSelectedMany`);
- `alignSelection` and `distributeSelection`;
- snap-to-guide scoring (`snapBoxToGuides`, `featureWeightX`, `featureWeightY`);
- the bill of materials (`computeMaterials`) and the `materialsSummary` getter.

The stores are classes whose methods update their fields in place: `Editor.EditorStore` and
`Catalog.CatalogStore`. Each class method is proved against pure functions in the other modules:

- `Scene`, `Selection`, `Groups`, `ZOrder`, `History`, `Paste`, `Align`, `Snap` and `Materials` hold those functions;
- `Geometry` and `Boxes` hold rectangle and bounding-box geometry;
- `Sorting` holds the stable sort that `Array.prototype.sort` performs.

Loops in the source become `while` loops with invariants, for example:

- the bounds loop of `copySelected`;
- the placement loops of paste and duplicate;
- the `updateNode` loops of align and distribute;
- the nested scoring loops of `snapBoxToGuides`;
- the counting loops of the materials.

The store invariant `Editor.EditorStore.Valid` is kept by every action. It says:

- node ids are distinct and below the id counter;
- `zIndex` equals the array position;
- the selection names distinct existing nodes, and the primary id is one of them;
- the history stacks hold at most 80 snapshots and are never left locked;
- the paste session is well formed;
- group ids lie below the group counter.

## Model

| member | source | states |
|---|---|---|
| Geometry.RectsIntersect | src/stores/editor.store.js:1478-1485 | for rectangles of non-negative size, true exactly when their projections overlap on both axes; rectangles that only touch count as intersecting |
| Geometry.IntersectSymmetric | src/stores/editor.store.js:1478-1485 | the intersection test does not depend on argument order |
| Common.ToLower | src/stores/editor.store.js:117 | lower-casing keeps the length, maps each capital letter to its lower-case letter and leaves every other character alone |
| Common.Trim | src/stores/editor.store.js:423 | the result is the input with its leading and trailing ECMAScript white space and line terminators removed, and nothing else: a slice of the input with only white space before and after it; it never starts or ends with white space and is empty exactly when the input is all white space |
| Scene.IndexOf | src/stores/editor.store.js:196 | the position of the first node carrying the id; none exactly when no node carries it |
| Scene.MetaOf | src/stores/editor.store.js:181-186 | a missing shape field takes its default (46, 60, knot, ellipse); a given one is kept |
| Scene.UpdateNode | src/stores/editor.store.js:195-200 | `updateNode` on the array: an unknown id changes nothing; ids, draw order and group links are never touched; with distinct ids, exactly the node with that id is patched |
| Scene.UpdateFreshLast | src/stores/editor.store.js:1102-1118 | updating a node just appended with a fresh id patches that node and nothing else |
| Scene.SameIdsAndZ | src/stores/editor.store.js:198 | two node lists that agree on ids and zIndex have the same ids and are equally well formed |
| Scene.UpdateAllKeepsShape | src/stores/editor.store.js:1257-1270 | a run of `updateNode` calls keeps the length, and each node's id, zIndex and group link |
| Scene.UpdateAllDistinct | src/stores/editor.store.js:1257-1270 | updates aimed at distinct ids commute: each node ends up patched by its own update |
| Scene.PatchFor | src/stores/editor.store.js:1269 | an id no update names gets no patch; with distinct target ids, it gets exactly its own update's patch |
| Scene.PermutationKeepsIdsDistinct | src/stores/editor.store.js:499-511 | a reordered node list keeps distinct ids |
| Scene.VisibleNodes | src/stores/editor.store.js:96-98 | `visibleNodes` holds exactly the visible nodes, in node-array order |
| Scene.SelectedNodes | src/stores/editor.store.js:91-94 | `selectedNodes` holds exactly the nodes whose id is selected, in node-array order |
| Scene.SelectedNodesDistinct | src/stores/editor.store.js:91-94 | the selected nodes of a list with distinct ids have distinct ids |
| Selection.Selectable | src/stores/editor.store.js:272-277 | an id ends up selected exactly when it was asked for and names a node; the result is a subsequence of the node ids, so it follows node-array order |
| Selection.SelectableIgnoresOrder | src/stores/editor.store.js:272-277 | `setSelection` depends only on which ids are given: two id lists with the same members (in any order, with any repeats) select the same list |
| Selection.SelectableIsSelectedIds | src/stores/editor.store.js:272-277 | the ids `setSelection` keeps are exactly the ids of the `selectedNodes` getter over the same list, position by position |
| Selection.SelectableDistinct | src/stores/editor.store.js:272-277 | the selection `setSelection` produces has no repeats |
| Selection.Without | src/stores/editor.store.js:264 | removing an id removes exactly that id, keeps the others in their order (a subsequence) and keeps the list free of repeats; an absent id changes nothing |
| Selection.Added | src/stores/editor.store.js:253-255 | adding to an ordered set keeps the old ids as a prefix; a new id is appended last, a present one changes nothing; no repeats appear |
| Selection.AddedAll | src/stores/editor.store.js:324-326 | the appended selection holds exactly the old ids and the hits, without repeats; the old ids stay as a prefix and the new ones follow in hit order; it is empty only when both are |
| Selection.Toggled | src/stores/editor.store.js:263-267 | the toggled id's membership flips and every other id's membership stays; an unselected id is appended last; removing one keeps the rest in their order |
| Selection.ToggleTwiceRestores | src/stores/editor.store.js:259-270 | toggling an unselected id twice gives back the original selection |
| Selection.BoxHits | src/stores/editor.store.js:302-317 | an id is hit exactly when a visible node with that id has a box that meets the rectangle; the hits name existing nodes without repeats, in node-array order (a subsequence of the node ids) |
| Selection.SelectAppended | src/stores/editor.store.js:1123 | selecting the ids of freshly appended nodes selects exactly those ids, in their order |
| Groups.KeepExisting | src/stores/editor.store.js:404 | a member list keeps exactly its existing ids, in their order (a subsequence of the list) |
| Groups.MembersFiltered | src/stores/editor.store.js:403-405 | each group keeps only its existing members; nothing else about it changes |
| Groups.Populated | src/stores/editor.store.js:407 | exactly the groups with at least two members survive, in their order (a subsequence of the list) |
| Groups.Detached | src/stores/editor.store.js:409-412 | a node's group link is cleared exactly when it names a group that no longer exists |
| Groups.DetachedKeepsIds | src/stores/editor.store.js:409-412 | clearing links touches neither ids nor draw order |
| Groups.CleanupEstablishesConsistency | src/stores/editor.store.js:399-415 | `_cleanupGroups` leaves groups consistent from any starting state: every group has at least two existing members, and every back-link and the selected group name a surviving group |
| Groups.FindGroup | src/stores/editor.store.js:473 | the position of the first group with the id; none exactly when no group has it |
| Groups.KeepExistingAll | src/stores/editor.store.js:404 | a member list that names only existing nodes survives the filter unchanged |
| Groups.GroupableMembers | src/stores/editor.store.js:418-419 | the members of a new group are exactly the selected unlocked nodes |
| Groups.Joined | src/stores/editor.store.js:427 | exactly the members get the new group link; nothing else changes |
| Groups.Affected | src/stores/editor.store.js:443-447 | a group is affected exactly when some selected node links to it |
| Groups.Released | src/stores/editor.store.js:452-455 | exactly the selected nodes lose their group link |
| Groups.DropMembers | src/stores/editor.store.js:459 | a member list keeps exactly its unselected ids, in their order (a subsequence of the list) |
| Groups.Shrunk | src/stores/editor.store.js:457-460 | exactly the affected groups drop the selected members |
| Groups.GroupLabel | src/stores/editor.store.js:423 | the label is the trimmed name, or `Grupo <count + 1>` when the name is blank; it never starts with white space |
| ZOrder.Reindexed | src/stores/editor.store.js:495-497 | after `reindexZ` each zIndex is its array position and nothing else changes |
| ZOrder.ReindexedKeepsIds | src/stores/editor.store.js:495-497 | reindexing keeps the ids and their distinctness |
| ZOrder.UnlistedMembers | src/stores/editor.store.js:506 | the trailing nodes are exactly the nodes whose id is not listed, in their old relative order (a subsequence of the input), with distinct ids |
| ZOrder.RepeatedIdDuplicatesNode | src/stores/editor.store.js:499-511 | as written, a repeated id pushes the same node twice: two nodes and order [a, a] give three entries, which is not a permutation |
| ZOrder.Picked | src/stores/editor.store.js:502-505 | the listed nodes, each once, are exactly the nodes whose id is listed |
| ZOrder.PickedInOrder | src/stores/editor.store.js:502-505 | the ids of the listed nodes follow the order of the given list (a subsequence of it) |
| ZOrder.Reordered | src/stores/editor.store.js:499-508 | the result is a permutation of the nodes with distinct ids |
| ZOrder.ReorderedOrder | src/stores/editor.store.js:499-508 | the reordered array splits into a prefix of listed nodes whose ids follow the order given, and a suffix of the unlisted nodes in their old relative order |
| ZOrder.AsWrittenAgrees | src/stores/editor.store.js:499-508 | on an id list without repeats, `reorderByIds` as written and the corrected reorder give the same array, so they differ only on repeated ids |
| ZOrder.DistinctSameElements | src/stores/editor.store.js:506 | two repeat-free lists with the same elements are permutations of each other |
| ZOrder.ReorderByIds | src/stores/editor.store.js:499-511 | `reorderByIds` keeps the length and the ids, and leaves a dense draw order with distinct ids; position i holds the node at position i of the reorder, with zIndex i |
| ZOrder.UnlistedSnoc | src/stores/editor.store.js:506 | one more input node joins the trailing nodes exactly when its id is not listed |
| ZOrder.ReorderNodes | src/stores/editor.store.js:500-506 | the two loops compute the corrected reorder |
| ZOrder.Reverse | src/stores/editor.store.js:1427 | position i of the reversal is position n-1-i of the input |
| ZOrder.IdsNotIn | src/stores/editor.store.js:1431 | the filtered stack holds exactly the ids not in the group |
| ZOrder.IdsNotInInOrder | src/stores/editor.store.js:1431 | the filtered stack keeps the surviving ids in their stacking order (a subsequence of the stack) |
| ZOrder.PositionOf | src/stores/editor.store.js:1436 | `indexOf`: the first position of the id, none exactly when it is absent |
| ZOrder.MinPosition | src/stores/editor.store.js:1436-1437 | the front-most position of a group member; none when no member is in the stack |
| ZOrder.FilterKeepsCleanPrefix | src/stores/editor.store.js:1431 | a leading run of ids the filter keeps survives it unchanged |
| ZOrder.InsertPosInCleanPrefix | src/stores/editor.store.js:1435-1437 | the insert position taken in the full stack splits the filtered stack at the same node |
| ZOrder.RestackedFront | src/stores/editor.store.js:1427-1443 | the new front-to-back stack is the filtered stack split at `insertPos` with the group's ids inserted there as one block, and everything in front of `insertPos` is the old stack unchanged |
| ZOrder.RestackedKeepsOthers | src/stores/editor.store.js:1427-1443 | taking the group's ids back out of the new stack leaves exactly the other nodes in their old front-to-back order, a subsequence of the old stack |
| ZOrder.RestackedListsEveryNode | src/stores/editor.store.js:1439-1446 | every node id is listed in the restacked order, so `reorderByIds` appends nothing after it |
| Sorting.InsertSorted | src/stores/editor.store.js:941 | inserting into a sorted list keeps it sorted and adds exactly the new element |
| Sorting.InsertAfterTies | src/stores/editor.store.js:941 | the new element goes behind every element with the same key |
| Sorting.InsertionSortedSorts | src/stores/editor.store.js:941 | insertion sort yields a sorted permutation |
| Sorting.StableSort | src/stores/editor.store.js:941 | the comparator sort yields a sorted permutation of its input |
| Sorting.StableSortKeepsTies | src/stores/editor.store.js:941 | stability: elements with equal keys keep their relative order |
| Sorting.WithKeyAppend | src/stores/editor.store.js:941 | the elements with a key, taken from a concatenation, are those of each part in order |
| Boxes.BoundsAttained | src/stores/editor.store.js:1028-1040 | each running minimum or maximum bounds every node's edge on its side and is attained by some node |
| Boxes.BoundsSnoc | src/stores/editor.store.js:1036-1039 | one more node folds into the bounds with one more min or max |
| Boxes.BoundingBox | src/stores/editor.store.js:1023-1042 | the bounds loop computes the box of the node list |
| Boxes.BoundsContainNodes | src/stores/editor.store.js:1042 | the computed box contains every node's box |
| History.Trimmed | src/stores/editor.store.js:1344-1346 | the splice keeps the newest entries, at most 80 of them |
| History.Pushed | src/stores/editor.store.js:1332-1349 | `_pushHistory`: under the lock, or when the live state equals the top of the past, nothing changes; otherwise the live state goes on top, the past is trimmed to 80 and the future is emptied |
| History.Scheduled | src/stores/editor.store.js:1351-1364 | `scheduleHistoryCommit`: under the lock nothing; inside a batch only the batch flag; otherwise the debounce timer is armed; the stacks are untouched |
| History.TimerFired | src/stores/editor.store.js:1360-1363 | the debounce timer's callback disarms it and pushes the live state |
| History.BatchBegun | src/stores/editor.store.js:1366-1368 | the batch depth rises by one and nothing else changes |
| History.BatchEnded | src/stores/editor.store.js:1370-1376 | the depth drops by one but not below zero; the end that reaches zero with a pending commit clears the flag and pushes once |
| History.UndoStep | src/stores/editor.store.js:1389-1390 | the top of the past moves to the front of the future |
| History.RedoStep | src/stores/editor.store.js:1407-1408 | the front of the future moves back on top of the past |
| History.Undone | src/stores/editor.store.js:1378-1393 | an undo leaves no timer armed, at least one snapshot in the past, and with no timer pending it is exactly the undo step |
| History.RedoAfterUndo | src/stores/editor.store.js:1378-1415 | with no commit pending, redo after undo restores both stacks exactly |
| History.UndoAfterRedo | src/stores/editor.store.js:1378-1415 | undo after redo restores both stacks exactly |
| History.OperationsKeepHistoryValid | src/stores/editor.store.js:1332-1415 | every history operation keeps the stacks within 80 and leaves no batch flag outside a batch |
| History.ScheduledTimesAdd | src/stores/editor.store.js:1351-1364 | commit requests made in two runs add up |
| History.BatchDefersCommits | src/stores/editor.store.js:1354-1357 | inside a batch, any number of commit requests only raise the batch flag |
| History.BatchCommitsOnce | src/stores/editor.store.js:1351-1376 | an outermost batch with n commit requests ends with exactly one push of the final state, or no change when n is 0 |
| History.DebounceCollapses | src/stores/editor.store.js:1359-1363 | repeated requests outside a batch arm a single timer |
| History.EmptyBatchChangesNothing | src/stores/editor.store.js:1366-1376 | a batch with no commit request changes nothing |
| History.ScheduledIdempotent | src/stores/editor.store.js:1351-1364 | requesting a commit twice is the same as requesting it once |
| History.BatchOutcome | src/stores/editor.store.js:1351-1376 | a batch with commit requests pushes once when outermost, and only flags the enclosing batch when nested |
| Paste.ClipOf | src/stores/editor.store.js:1044-1057 | a clip records the node's offset from the box corner, its type (default `round-11`) and its colour (default black) |
| Paste.Copied | src/stores/editor.store.js:1023-1059 | the clipboard holds the bounding box of the selected nodes and one clip per node, in order |
| Paste.MaterializedSnoc | src/stores/editor.store.js:1101-1121 | placing one more clip appends one more node at its offset, with the next id and draw position |
| Paste.CopyPasteKeepsLayout | src/stores/editor.store.js:1019-1129 | copy then paste translates the copied nodes rigidly, keeping rotation, scale, shape and visibility; pasting at the box corner puts each copy on its original |
| Paste.SessionOpened | src/stores/editor.store.js:1071-1087 | a multi paste on a closed session opens it at the paste point (200 for a missing coordinate) with count 0; any other paste only timestamps it |
| Paste.SessionAfterPaste | src/stores/editor.store.js:1071-1125 | a multi paste counts one more cascade step; the session stays well formed |
| Paste.CascadeCounts | src/stores/editor.store.js:1071-1125 | n multi pastes keep the first paste's base point and count n steps |
| Paste.CascadeOrigin | src/stores/editor.store.js:1089-1095 | paste k of a cascade lands at the base point plus `offset * k` on both axes |
| Paste.FreshSessionDoesNotExpire | src/stores/editor.store.js:1142-1156 | a session used at t does not expire before t plus 4000 ms |
| Paste.RoundsLength | src/stores/editor.store.js:1186-1218 | n rounds create n copies of every clip |
| Paste.RepeatCount | src/stores/editor.store.js:1168-1169 | the repeat count lies in 1..200; a finite count is floored and clamped (1 below 1, 200 from 201 on, its floor in between); a non-finite one gives 3 |
| Catalog.Loaded | src/stores/catalog.store.js:22-40 | `init` keeps a stored array and falls back to the defaults for missing, empty, malformed or non-array storage |
| Catalog.PersistedTableReloads | src/stores/catalog.store.js:22-44 | a persisted table reloads as itself, without writing back |
| Catalog.ValidCost | src/stores/catalog.store.js:50-51 | the stored cost is the new cost when finite and non-negative, 0 otherwise, and never negative |
| Catalog.FindType | src/stores/catalog.store.js:47 | the position of the first type with the id; none when no type has it |
| Catalog.CostUpdated | src/stores/catalog.store.js:46-53 | an unknown id changes nothing; otherwise only the first matching entry's cost changes, to the validated cost |
| Catalog.CostUpdateIdempotent | src/stores/catalog.store.js:46-53 | setting the same cost twice equals setting it once |
| Catalog.CatalogStore.constructor | src/stores/catalog.store.js:17-19 | the store starts with an empty table over the given storage |
| Catalog.CatalogStore.Persist | src/stores/catalog.store.js:42-44 | storage holds the serialized table |
| Catalog.CatalogStore.Init | src/stores/catalog.store.js:22-40 | the table is what storage yields; the defaults are written back only when nothing was stored |
| Catalog.CatalogStore.UpdateTypeCost | src/stores/catalog.store.js:46-53 | the table gets the validated cost, and is persisted only when the id exists |
| Catalog.CatalogStore.ResetToDefaults | src/stores/catalog.store.js:55-58 | the table and storage both hold the defaults |
| Align.Unlocked | src/stores/editor.store.js:1228 | exactly the unlocked nodes remain |
| Align.AlignUpdates | src/stores/editor.store.js:1257-1270 | one move per movable node, in order, to its align target; none for fewer than two |
| Align.AxisOrder | src/stores/editor.store.js:1277-1279 | the movable nodes sorted by their coordinate on the axis, as a permutation |
| Align.DistributeUpdates | src/stores/editor.store.js:1293-1298 | one move per interior sorted node, in order, to its slot; none for fewer than three |
| Align.UpdatesOfMembers | src/stores/editor.store.js:1257-1270 | updates addressed one per member: each member gets its own patch and every other node is left alone |
| Align.PatchOfMember | src/stores/editor.store.js:1269 | a node receives a patch exactly when it is a member, and then its own member's patch |
| Align.AlignTargetMeets | src/stores/editor.store.js:1249-1268 | left/right put the node's edge on the extreme edge; the centre modes put its centre on the middle of the combined box; the other coordinate stays; an unknown mode leaves the node where it is |
| Align.MovedEdges | src/stores/editor.store.js:1233-1247 | a moved node's edges lie half its box away from its new centre |
| Align.AlignMovesOnlyMovable | src/stores/editor.store.js:1227-1274 | align moves exactly the unlocked selected nodes, each to its target, and leaves every other node as it was |
| Align.AlignTargetsPresent | src/stores/editor.store.js:1269 | every align update names a node of the scene |
| Align.DistributeEvenly | src/stores/editor.store.js:1276-1302 | distribute spaces the sorted nodes evenly between the first and the last, which stay put; only the axis coordinate of interior nodes changes |
| Align.DistributeTargetsPresent | src/stores/editor.store.js:1296-1297 | every distribute update names a node of the scene |
| Align.DistributeSorted | src/stores/editor.store.js:1291-1298 | sorted node k ends up at slot k, with only its axis coordinate changed |
| Align.DistributeOthers | src/stores/editor.store.js:1293-1298 | nodes outside the sorted list are left alone |
| Align.InteriorUpdates | src/stores/editor.store.js:1294 | the updates reach exactly the interior sorted nodes |
| Align.AxisMoveSets | src/stores/editor.store.js:1296-1297 | an axis move sets that coordinate and nothing else |
| Align.SlotEnds | src/stores/editor.store.js:1288-1295 | the first slot is the first node's coordinate and the last slot the last node's |
| Snap.FeatureWeight | src/stores/editor.store.js:1499-1523 | centre features weigh 0 center-first and 1 edges-first; edges on the axis the reverse; never more than 2 |
| Snap.SourceWeight | src/stores/editor.store.js:1548-1554 | node guides weigh 0, canvas guides 1, others 2 |
| Snap.PairsForMembers | src/stores/editor.store.js:1559-1566 | one feature's pairs are exactly its pairings with the guides within the tolerance |
| Snap.CandidatesMembers | src/stores/editor.store.js:1557-1587 | the candidates are exactly the feature-guide pairings within the tolerance |
| Snap.BestIndex | src/stores/editor.store.js:1568-1585 | the running best is a candidate nothing beats, and strictly beats every candidate before it, so on a full tie the first one found wins |
| Snap.Best | src/stores/editor.store.js:1556-1587 | a winner exists exactly when some candidate does; it is one of them and none is better |
| Snap.SnapBoxToGuides | src/stores/editor.store.js:1527-1528 | with guide snapping off there is no snap |
| Snap.WinnerIsBestPair | src/stores/editor.store.js:1556-1587 | an axis has a winner exactly when some feature lies within the tolerance of some guide; the winner is such a pair, its delta is the guide minus the feature, and no pair within the tolerance is better |
| Snap.SnapXFound | src/stores/editor.store.js:1620-1625 | a guide is reported on x exactly when some feature is within the tolerance of some guide; otherwise dx is 0 |
| Snap.SnapXWinner | src/stores/editor.store.js:1620-1625 | the reported x guide moves the box by its value minus some feature's, within the tolerance, and no pair beats it |
| Snap.SnapYFound | src/stores/editor.store.js:1589-1625 | a guide is reported on y exactly when some feature is within the tolerance of some guide; otherwise dy is 0 |
| Snap.SnapYWinner | src/stores/editor.store.js:1589-1625 | the reported y guide moves the box by its value minus some feature's, within the tolerance, and no pair beats it |
| Snap.EdgesFirstPrefersNodeGuide | src/stores/editor.store.js:1527-1626 | edges-first, with the left edge at 100 and guides at 98 (node) and 102 (canvas), the node guide wins and the box moves by -2 |
| Snap.NodeGuideWinsX | src/stores/editor.store.js:1556-1587 | in that example the node guide's pair wins the x axis |
| Snap.PairsForAppend | src/stores/editor.store.js:1559 | the pairs for a concatenation of guide lists are those of each part, in order |
| Snap.CandidatesAppend | src/stores/editor.store.js:1557 | the candidates for a concatenation of feature lists are those of each part, in order |
| Snap.BestSnoc | src/stores/editor.store.js:1568-1585 | the winner with one more candidate is one replacement step from the winner before it |
| Snap.GuideStep | src/stores/editor.store.js:1559-1586 | one more guide of the inner loop takes one replacement step when within the tolerance |
| Snap.FeatureStep | src/stores/editor.store.js:1557-1587 | one more feature's pairs follow those of the features before it |
| Snap.ScanAxis | src/stores/editor.store.js:1556-1587 | the nested loops of one axis find that axis's winner |
| Snap.ScanFeature | src/stores/editor.store.js:1559-1586 | the inner loop folds one feature's pairs into the running best |
| Snap.TryGuide | src/stores/editor.store.js:1560-1585 | a guide beyond the tolerance is skipped; otherwise its pair seeds an empty best or replaces a strictly worse one |
| Snap.SnapToGuides | src/stores/editor.store.js:1527-1626 | the x loops and then the y loops compute `snapBoxToGuides` |
| Materials.Bump | src/stores/editor.store.js:120-121 | a count map counts one more of the key, appending a new key last; the total rises by one and keys stay distinct |
| Materials.Tallied | src/stores/editor.store.js:116-126 | one entry per distinct key in first-occurrence order, each holding its number of occurrences; the counts add up to the number of keys |
| Materials.LastType | src/stores/editor.store.js:909 | the catalog lookup returns the last type with that id, as `new Map` keeps the last entry per key, and nothing when no type has it |
| Materials.LineFor | src/stores/editor.store.js:944-956 | a type row holds the type's count, catalog name and unit cost, and its subtotal is count times cost when the cost is positive |
| Materials.AnyPriced | src/stores/editor.store.js:981 | true exactly when some row has a positive unit cost |
| Materials.TalliedCost | src/stores/editor.store.js:943-957 | pricing the type counts is pricing each counted node once |
| Materials.Lines | src/stores/editor.store.js:943-957 | one priced row per type count, in order, whose subtotals sum to the cost of the counts and whose quantities sum to the counts' total |
| Materials.UnpricedLinesCostNothing | src/stores/editor.store.js:981-990 | with no priced row, the subtotals sum to 0 |
| Materials.NestedBump | src/stores/editor.store.js:123-125 | the type's colour map is created on first sight and counts the colour once more; every other type's map is unchanged |
| Materials.NestedTypesFollowTypeTally | src/stores/editor.store.js:116-126 | the per-type colour maps appear in the same order as the type counts |
| Materials.NestedColorsAreTallies | src/stores/editor.store.js:116-126 | each type's colour map is exactly the colour count of that type's nodes |
| Materials.SumOfPermutation | src/stores/editor.store.js:127-133 | reordering a list (as the `sort` calls do) keeps any sum over it |
| Materials.SumQtyPermutation | src/stores/editor.store.js:130 | reordering count entries keeps their total |
| Materials.ColorLine | src/stores/editor.store.js:959-977 | a colour row keeps its type, its total is the sum of its colour counts, and its colours are a permutation of the map |
| Materials.Counted | src/stores/editor.store.js:911-917 | hidden nodes count only with `includeHidden`, locked ones only with `includeLocked` |
| Materials.BillColorCounts | src/stores/editor.store.js:907-941 | the total is the number of counted nodes; the colour rows are the colour counts, largest first, covering every counted node and adding up to the total |
| Materials.BillCosts | src/stores/editor.store.js:943-990 | the type rows are the priced type counts reordered largest first, their quantities add up to the total; the estimate is the sum over the counted nodes of their type's positive cost; `hasCosts` holds exactly when some row is priced |
| Materials.BillTypeRows | src/stores/editor.store.js:943-957 | every type row is a counted type with its number of nodes, catalog name, unit cost and positive-cost subtotal, and every counted type has a row |
| Materials.BillTypeColorRows | src/stores/editor.store.js:959-979 | every counted type has a per-type colour row and every row belongs to a counted type; each row holds exactly that type's colour counts and counts that type's nodes |
| Materials.TypeRowsCover | src/stores/editor.store.js:959-979 | every counted type has a row among the sorted per-type colour rows |
| Materials.NestedCountIsTypeCount | src/stores/editor.store.js:965 | a type's colour counts add up to that type's count |
| Materials.SummaryTotals | src/stores/editor.store.js:108-146 | the summary's total is the number of visible nodes; its colour and type lists are the colour and type counts of the visible nodes, sorted largest first, each adding up to the total |
| Materials.SummaryTypeColorRows | src/stores/editor.store.js:136-143 | a per-type colour row for every visible type and no other, each holding that type's colour counts largest first and its number of nodes; the rows are sorted by that number, largest first |
| Materials.CountNodes | src/stores/editor.store.js:927-937 | the counting loop fills the three count maps of its node list |
| Materials.CountsStep | src/stores/editor.store.js:931-936 | counting one more node bumps each of the three maps once |
| Materials.PriceTypes | src/stores/editor.store.js:943-957 | the pricing pass builds the priced rows and sums their subtotals into the estimate |
| Materials.ComputeMaterials | src/stores/editor.store.js:907-992 | `computeMaterials` returns the bill of the counted nodes, whose rows `BillColorCounts`, `BillCosts`, `BillTypeRows` and `BillTypeColorRows` tie to the counts and the catalog |
| Materials.MaterialsSummary | src/stores/editor.store.js:108-146 | `materialsSummary` returns the summary of the visible nodes, whose lists `SummaryTotals` and `SummaryTypeColorRows` tie to the counts |
| Editor.PushKeeps | src/stores/editor.store.js:1332-1349 | a push keeps the history valid and every stacked snapshot well formed |
| Editor.UndoKeeps | src/stores/editor.store.js:1378-1400 | an undo keeps the history valid and unlocked, and every stacked snapshot well formed |
| Editor.BatchEndKeeps | src/stores/editor.store.js:1370-1376 | ending a batch keeps the history valid, the lock as it was, and the snapshots well formed |
| Editor.CleanupKeepsInvariant | src/stores/editor.store.js:399-415 | `_cleanupGroups` keeps the node list well formed, its ids, and every group id below the counter |
| Editor.ReindexedKeepsGroups | src/stores/editor.store.js:294 | renumbering the draw order leaves group membership as consistent as it was |
| Editor.UnlistedReindexed | src/stores/editor.store.js:291-294 | the nodes left after deleting are well formed once reindexed, and hold exactly the unselected ids |
| Editor.DeleteOutcome | src/stores/editor.store.js:288-296 | `deleteSelected` removes exactly the selected ids, keeps the list well formed, leaves groups consistent with what remains, and keeps only groups that existed |
| Editor.CollectBoxHits | src/stores/editor.store.js:302-317 | the hit loop collects the box hits |
| Editor.AddEach | src/stores/editor.store.js:324-326 | the append loop adds every hit |
| Editor.FilterMembers | src/stores/editor.store.js:403-405 | the first cleanup loop filters every group's members |
| Editor.DetachAll | src/stores/editor.store.js:410-412 | the last cleanup loop clears the stale links |
| Editor.JoinAll | src/stores/editor.store.js:427 | the member loop links every member to the new group |
| Editor.ReleaseAll | src/stores/editor.store.js:452-455 | the first ungroup loop unlinks every selected node |
| Editor.ShrinkAll | src/stores/editor.store.js:457-460 | the second ungroup loop shrinks every affected group |
| Editor.GroupIdNotBelow | src/stores/editor.store.js:395-397 | the group counter is not yet a group id, so a new group id is fresh |
| Editor.NewGroupSurvives | src/stores/editor.store.js:417-437 | the new group survives the reconciliation unchanged |
| Editor.GroupSelectionOutcome | src/stores/editor.store.js:417-437 | grouping two or more nodes keeps a group holding exactly the selected unlocked nodes; each points at it and nothing else about a member changes; ids and draw order are kept; the groups are consistent with the new group selected; no other new group id appears |
| Editor.IdsAsSet | src/stores/editor.store.js:440 | the set holds exactly the listed ids |
| Editor.UngroupOutcome | src/stores/editor.store.js:439-468 | ungrouping keeps ids and draw order, unlinks every selected node, keeps only existing groups, and leaves groups consistent |
| Editor.UngroupedGroupsDropSelected | src/stores/editor.store.js:457-465 | no group that held a selected node still lists a selected node |
| Editor.ReorderKeepsWellFormed | src/stores/editor.store.js:499-511 | `reorderByIds` keeps the list well formed and its ids |
| Editor.PastedSelected | src/stores/editor.store.js:1123 | selecting the pasted ids selects exactly the pasted nodes |
| Editor.PlacedByAddAndUpdate | src/stores/editor.store.js:1102-1118 | `addNode` then `updateNode` for a clip builds the placed node |
| Editor.FirstPastedId | src/stores/editor.store.js:1126 | the first pasted node takes the first fresh id |
| Editor.RoundsDoneStep | src/stores/editor.store.js:1186-1218 | one more duplicate round appends its nodes, records their ids, selects them and requests two commits per node |
| Editor.UpdatedStep | src/stores/editor.store.js:1257-1270 | one more `updateNode` call of the align/distribute loop extends the applied prefix |
| Editor.EditorStore.constructor | src/stores/editor.store.js:16-85 | the initial store satisfies the store invariant |
| Editor.EditorStore.PushHistory | src/stores/editor.store.js:1332-1349 | the history becomes the pushed history of the live snapshot, and stays valid |
| Editor.EditorStore.ScheduleHistoryCommit | src/stores/editor.store.js:1351-1364 | the history becomes the scheduled history, and stays valid |
| Editor.EditorStore.FireHistoryTimer | src/stores/editor.store.js:1360-1363 | the timer's callback commits the live snapshot, and the history stays valid |
| Editor.EditorStore.BeginHistoryBatch | src/stores/editor.store.js:1366-1368 | one level deeper; the store invariant is kept |
| Editor.EditorStore.EndHistoryBatch | src/stores/editor.store.js:1370-1376 | one level shallower with the deferred commit at the outermost end; the store invariant is kept |
| Editor.EditorStore.CloseBatch | src/stores/editor.store.js:1371-1375 | the body of `endHistoryBatch` computes the ended batch |
| Editor.EditorStore.MarkDirty | src/stores/editor.store.js:156-161 | unless restoring, the autosave flag is raised and a commit is requested |
| Editor.EditorStore.InitHistory | src/stores/editor.store.js:1305-1308 | the live snapshot becomes the only past entry and the future is empty |
| Editor.EditorStore.RestoreSnapshot | src/stores/editor.store.js:1319-1330 | nodes, view and settings come from the snapshot, the selection is cleared, an open paste session ends and the lock is released |
| Editor.EditorStore.Undo | src/stores/editor.store.js:1378-1400 | an undo proceeds exactly when allowed, restores the new top of the past, clears the selection and marks autosave; otherwise nothing changes |
| Editor.EditorStore.UndoAllowed | src/stores/editor.store.js:1383-1399 | an allowed undo flushes a pending commit, steps the history back, restores the new top, clears the selection and marks autosave |
| Editor.EditorStore.StepBack | src/stores/editor.store.js:1383-1391 | the history part of an undo: a pending commit is flushed, then the top of the past moves to the future, as `Undone` |
| Editor.EditorStore.RedoAllowed | src/stores/editor.store.js:1407-1414 | an allowed redo moves the front of the future back onto the past and restores it, clearing the selection and marking autosave |
| Editor.EditorStore.Redo | src/stores/editor.store.js:1402-1415 | a redo proceeds exactly when the future is non-empty and restores the snapshot it moves back; otherwise nothing changes |
| Editor.EditorStore.UndoThenRedo | src/stores/editor.store.js:1378-1415 | with no commit pending, undo then redo returns both stacks and the live state to where they were |
| Editor.EditorStore.ClearSelection | src/stores/editor.store.js:279-284 | nothing and no group is selected; an open paste session ends |
| Editor.EditorStore.Select | src/stores/editor.store.js:243-257 | an unknown id changes nothing; otherwise the id becomes primary and is the whole selection or is added to it |
| Editor.EditorStore.ToggleSelect | src/stores/editor.store.js:259-270 | an unknown id changes nothing; otherwise its membership flips and the primary is the last selected id |
| Editor.EditorStore.SetSelection | src/stores/editor.store.js:272-277 | the selection is the existing asked-for ids in node order; the primary is the last |
| Editor.EditorStore.BoxSelect | src/stores/editor.store.js:299-328 | a missing or empty rectangle changes nothing; otherwise the hits replace the selection or are added to it, and the primary is the last |
| Editor.EditorStore.ReindexZ | src/stores/editor.store.js:495-497 | the nodes are renumbered in place |
| Editor.EditorStore.AddNode | src/stores/editor.store.js:164-193 | a node with a fresh id and the defaults goes on top, becomes the only selection, and a commit is requested |
| Editor.EditorStore.UpdateNode | src/stores/editor.store.js:195-200 | the node with the id is patched and a commit is requested; an unknown id changes nothing |
| Editor.EditorStore.ReorderByIds | src/stores/editor.store.js:499-511 | the nodes are reordered and renumbered, and a commit is requested |
| Editor.EditorStore.ReorderGroupChildIds | src/stores/editor.store.js:1417-1449 | an unknown group changes nothing; otherwise the member list takes the given order and the stack is rebuilt with the members as one block where the front-most one stood, the other nodes keeping their order (`RestackedKeepsOthers`) |
| Editor.EditorStore.CleanupGroups | src/stores/editor.store.js:399-415 | the groups are pruned, stale links and a stale selected group are cleared, and the store invariant is kept |
| Editor.EditorStore.DeleteSelected | src/stores/editor.store.js:288-296 | with a selection, the selected nodes go, the selection and the selected group are cleared, an active paste session ends, groups are reconciled, the draw order renumbered, the store marked dirty and a commit requested; otherwise nothing changes |
| Editor.EditorStore.EndPasteSession | src/stores/editor.store.js:1133-1140 | every session field is reset |
| Editor.EditorStore.TickPasteSession | src/stores/editor.store.js:1142-1156 | an open session idle for more than 4000 ms ends, and the result says whether it did |
| Editor.EditorStore.NextGroupId | src/stores/editor.store.js:395-397 | the new group id is carried by no existing group |
| Editor.EditorStore.FormGroup | src/stores/editor.store.js:425-432 | the members are linked, the group appended and selected, and the batch leaves the history as it was |
| Editor.EditorStore.GroupSelection | src/stores/editor.store.js:417-437 | fewer than two selected unlocked nodes change nothing; otherwise they form a new group with a fresh id, which is selected, groups are reconciled and a commit is requested |
| Editor.EditorStore.MakeGroup | src/stores/editor.store.js:421-436 | a selection that makes a group gets a fresh group id, which the new group carries and which is selected; the history is left as it was |
| Editor.EditorStore.Ungroup | src/stores/editor.store.js:450-465 | the batch and the reconciliation leave the ungrouped nodes and groups |
| Editor.EditorStore.UngroupSelection | src/stores/editor.store.js:439-468 | it ungroups exactly when a selected node is grouped, then reconciles and requests a commit; otherwise nothing changes |
| Editor.EditorStore.UngroupAndMark | src/stores/editor.store.js:450-467 | ungrouping a grouped selection leaves the ungrouped nodes and groups and requests one commit |
| Editor.EditorStore.SelectGroup | src/stores/editor.store.js:470-477 | an unknown group changes nothing; otherwise it is selected together with its existing members |
| Editor.EditorStore.CopySelected | src/stores/editor.store.js:1019-1063 | with a selection, the clipboard holds the selection's box and clips; otherwise the clipboard stays |
| Editor.EditorStore.PlaceClips | src/stores/editor.store.js:1101-1121 | the clips are appended at the origin with consecutive fresh ids, two commit requests per clip |
| Editor.EditorStore.PlaceAndSelect | src/stores/editor.store.js:1099-1123 | the clips are placed and the new nodes become the selection |
| Editor.EditorStore.PasteBatch | src/stores/editor.store.js:1097-1129 | a paste batch places and selects the clips and commits once when outermost |
| Editor.EditorStore.PasteFromClipboard | src/stores/editor.store.js:1065-1130 | an empty clipboard changes nothing; otherwise the session is opened or timestamped, the clips land at the paste origin as one batch, become the selection, a multi paste counts a step, and the first new id is returned |
| Editor.EditorStore.PasteClips | src/stores/editor.store.js:1071-1129 | a non-empty clipboard lands at the paste origin as one batch with consecutive fresh ids, becomes the selection, and the session counts the paste; the first new id is returned |
| Editor.EditorStore.DuplicateSelected | src/stores/editor.store.js:1160-1165 | with a selection, it is copied and pasted once at (200 + offset, 200 + offset): the copies are appended with consecutive fresh ids, the id counter advances by their number, they become the selection with the last one primary, and the store is marked dirty; otherwise nothing changes |
| Editor.EditorStore.DuplicateSelectedMany | src/stores/editor.store.js:1167-1224 | with a selection, it is copied to the clipboard and pasted `RepeatCount(count)` times in one batch, round k shifted by k steps: the copies are appended with consecutive fresh ids and the counter advances by their number, every new id is returned, the last round is selected with its last copy primary, the store is marked dirty and the batch commits once; otherwise nothing changes |
| Editor.EditorStore.CopyAndRepeat | src/stores/editor.store.js:1171-1224 | with a selection: the clipboard holds its copy, then the rounds are placed from the copied box's corner as above |
| Editor.EditorStore.RepeatClipboard | src/stores/editor.store.js:1174-1224 | with a non-empty clipboard: the rounds are placed from its box's corner, in one batch that commits once when outermost |
| Editor.EditorStore.RoundsBatch | src/stores/editor.store.js:1184-1221 | the rounds run as one batch that commits once when outermost |
| Editor.EditorStore.PlaceRounds | src/stores/editor.store.js:1186-1218 | the rounds loop completes all the rounds |
| Editor.EditorStore.ApplyUpdates | src/stores/editor.store.js:1257-1270 | the `updateNode` loop applies every update in order, one commit request each |
| Editor.EditorStore.UpdateBatch | src/stores/editor.store.js:1231-1273 | the updates run as one batch that commits once when outermost |
| Editor.EditorStore.AlignSelection | src/stores/editor.store.js:1227-1274 | fewer than two movable nodes change nothing; otherwise one batch moves each to its align target |
| Editor.EditorStore.DistributeSelection | src/stores/editor.store.js:1276-1302 | fewer than three movable nodes change nothing; otherwise one batch spaces the interior ones evenly |

## Left out

- Identifiers: node and group ids are natural numbers handed out by two counters (`nodeSeq`, `groupSeq`) instead of the random strings of `uid()` and `_groupUid()`.
  - What the model keeps is freshness: a new id is carried by no existing node or group.
  - Consequences: `String(id)` conversions in `reorderGroupChildIds` and `selectGroup` have no counterpart.
  - The `filter(Boolean)` of `groupSelection` removes nothing, since a `uid()` string is never empty.
  - `selectGroup`'s blank-id early return is the unknown-group case.
- Timers and the clock: `Date.now()` is a `now` parameter. The history debounce timer is the `timerPending` flag and the method `FireHistoryTimer`. `debounceMs` is not modelled.
- Autosave: autosave scheduling and persistence (`scheduleAutosave` and the autosave timer) are left out. Only the `autosave.isDirty` flag is kept.
- Outside collaborators: `store.settings` and `getTolerance()` are read by `snapBoxToGuides` and the feature weights. They become the `settings` and `tol` parameters.
- Catalog storage: `localStorage` is the `storage` field of the catalog store, and `JSON.parse` is the `Parsed` datatype. `structuredClone` is value copying.
- Numbers: numbers are mathematical reals; floating-point rounding is not modelled.
  - `Number(...)` on non-finite input is modelled only where the source branches on finiteness: `addNode`'s coordinates, the repeat count and the cost update.
  - `Number(stepX || 0)` in `duplicateSelectedMany` is a real step.
  - `Number.isFinite` guards on copied scale and opacity assume finite node fields.
- Node fields: node fields are always present and typed. `??` defaults on missing fields therefore never apply, and a non-string colour (which the materials count as `#000000`) does not occur.
- Deep copies: `deepClone` and JSON comparison of snapshots are structural equality of values.
- Boxes.BoundingBox: the bounds loop is seeded from the first node instead of plus and minus infinity. The two agree on every non-empty selection, which is the only case `copySelected` reaches.
- Clipboard fields: `clipboard.node`, the first clip kept for display, is not modelled.
- Dead branch: the `!clips.length || !bbox` branch of `duplicateSelectedMany` cannot be taken after a successful copy, and is not modelled.
- Editor.EditorStore.PasteFromClipboard: the paste session is written once, after the batch. The source updates it before the batch and counts the step inside it. Nothing in the batch reads the session, and snapshots do not hold it, so the end state is the same.
- `reorderGroupChildIds`: the first of its two definitions (lines 513-546) is superseded by the second (lines 1417-1449), which is the one modelled. Both compute the same stack order.
- Materials inputs: `computeMaterials` and `materialsSummary` take the node list as a parameter. `Array.isArray(catalogTypes)` is the typed catalog list.
- Strings: `toLowerCase` is modelled for ASCII letters only.
- `exportMaterialsJson`, PNG export, design import/export, the view actions and the lock/visibility actions are outside the modelled core.
- Snapshot contents: snapshots hold nodes, view and settings but not groups. An undo can therefore bring back nodes whose group link names a group that is gone, and the model keeps that behaviour.
- Scene.SelectedNodes: `select(id, { append: true })` on an id that is already selected keeps its place. The primary id is then selected but need not be the last one, and the selection invariant says only that.
- `groupSelection` does not take members out of the groups they were in before. Those groups keep listing them until a later reconciliation, and the model keeps that behaviour.
- Scene.UpdateNode: only the patches the store itself passes are modelled (a move on one or both axes, and the rotation, scale, opacity, lock and visibility a paste copies). The source's `Object.assign(node, patch)` would copy any field a caller gives, including `id`, `zIndex` and `groupId`; that ids, draw order and group links are never touched holds for these patches, not for an arbitrary object.
- Editor.EditorStore.UpdateNode: takes the same modelled patches as `Scene.UpdateNode`, so a caller that patches `id`, `zIndex`, `groupId`, `color` or `typeId` through `updateNode` is not modelled.
- `alignSelection` and `distributeSelection` call no `markDirty` of their own. Their commits come from the `updateNode` calls inside the batch.

## Findings

| source | as written | input that shows it | evidently intended | confidence | as-written member | corrected member |
|---|---|---|---|---|---|---|
| src/stores/editor.store.js:502-506 | `reorderByIds` pushes a node once for every occurrence of its id in `orderedIds`, so a repeated id duplicates that node in `nodes` | nodes a, b and `orderedIds` = [a.id, a.id] give [a, a, b] | each node once, so the result is a permutation of the nodes | medium, not executed | ZOrder.RepeatedIdDuplicatesNode | ZOrder.Reordered |
