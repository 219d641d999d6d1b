# Depsgraph update flush

This project models the update flush of Blender's dependency graph (the file
`deg_eval_flush.cc`) in Dafny and proves properties of it.

Once some operations have been tagged as directly modified (the graph's
`entry_tags`), `deg_graph_flush_updates` spreads the "needs update" flag from
them along the outgoing relations:

- it resets the per-pass markers (`flush_prepare`);
- it queues the entry operations (`flush_schedule_entrypoints`);
- it works through that queue. Each visited operation is tagged. Its ID node
  is informed once, merging the original datablock's recalc tags into the
  copy-on-write datablock (`flush_handle_id_node`). Its component is handled
  once, tagging its sibling operations and, for a bone component, re-entering
  the pose solver (`flush_handle_component_node`). Its unscheduled children
  are then scheduled, the first one bypassing the queue
  (`flush_schedule_children`).

`deg_graph_clear_tags` clears the pending-update bits of every operation and
empties the entry tags.

## How the model is built

- `deg_types.dfy`: the graph's fixed shape (operations with their outgoing
  relations and owner, components with their owner ID, operations, entry
  operation and copy-on-write dependency, ID nodes with their component hash),
  plus the flag bits and `find_component`. Nodes are indices into the graph's
  vectors. A component lists exactly the operations whose owner it is, as
  `op_node->owner` and `comp_node->operations` agree in the source.
- `deg_eval_flush.dfy`: the class `Depsgraph`. It holds the per-node state
  that the flush changes as arrays (operation flag and scheduled marker,
  component state, ID done marker, copy-on-write tag) and the entry tags as a
  set. Every function of the source file is a method with a loop where the
  source loops.
  - The inner `while (op_node != NULL)` loop of `deg_graph_flush_updates` is
    `FlushFromOperation`; its body is `FlushVisit`.
  - The outer `while (!queue.empty())` loop is `FlushQueue`.
  - The loop over a component's operations is `FlushTagOperations`.
  - A ghost `trace` records each operation's admission into the traversal
    and each call the flush makes into code this model does not contain.
- `deg_flush_spec.dfy`: each step as a pure function over a snapshot of that
  state (`FlushState`). The methods `FlushHandleIdNode`, `FlushTagOperations`,
  `FlushHandleComponentNode`, `FlushScheduleChildren`, `FlushVisit` and
  `GraphClearOperation` are proved to act exactly as their step functions.
  The other methods (`FlushInitOperationNode`, `FlushInitIdNode`,
  `FlushPrepare`, `FlushScheduleEntrypoints`, `FlushFromOperation`,
  `FlushQueue`, `FlushUpdates`, `ClearTags`) state their new state directly,
  or through the pass invariant `PassInv`.
- `deg_flush_proofs.dfy`: what each step function changes, field by field.
- `deg_flush_pass.dfy`: the invariant of the traversal loops (`PassInv`), its
  preservation by one visit, the measure by which the loops end (`Remaining`:
  unscheduled operations and untouched components) and what holds once the
  queue is empty.
- `deg_flush_order.dfy`: a small graph on which the order of the entries
  changes the final flags (see "## Left out").

What the proofs establish about a flush of a non-empty entry set:

- Every operation reachable from an entry operation ends with NEEDS_UPDATE.
- Every scheduled operation has been processed: it has NEEDS_UPDATE, its
  component is DONE and all its children are scheduled.
- No component is left SCHEDULED. Component states only move NONE→SCHEDULED→DONE
  or NONE→DONE.
- A handled bone component's pose component has been handled as well, so the
  pose component's entry operation ends with NEEDS_UPDATE unless it is a
  PARTICLE_SETTINGS_EVAL operation.
- Each ID node's copy-on-write tag is its old value merged once with the
  original's recalc bits, and only for IDs whose handler ran, that is, IDs
  that own a visited operation. Through the bone rule, that visited operation
  can be a pose component's entry operation that no entry reaches.
- No flag loses a bit. A flag that gained NEEDS_UPDATE belongs to a handled
  component.
- Each operation is admitted into the traversal at most once. Each handler's
  foreign calls happen at most once per node.

The code does not promise that *only* reachable operations end up tagged:
the component handler tags every non-PARTICLE sibling of a reached operation
(lines 157-167), and the bone rule pushes the pose component's entry
operation without marking it scheduled (lines 175-178). The model follows the
code, and `RevisitIdle` shows that a second visit of that entry operation is
harmless.

## Model

| member | source | states |
|---|---|---|
| DegEvalFlush.Depsgraph.FlushInitOperationNode | source/blender/depsgraph/intern/eval/deg_eval_flush.cc:68-73 | Only operation `i`'s scheduled marker is cleared. Every other marker is kept. |
| DegEvalFlush.Depsgraph.FlushInitIdNode | source/blender/depsgraph/intern/eval/deg_eval_flush.cc:75-83 | The ID's done marker is cleared. Exactly the components in its hash become NONE; all other components keep their state. |
| DegEvalFlush.Depsgraph.FlushPrepare | source/blender/depsgraph/intern/eval/deg_eval_flush.cc:85-97 | Afterwards no operation is scheduled, no ID node is done and every component is NONE. Flags and tags are outside its frame. |
| DegEvalFlush.Depsgraph.FlushScheduleEntrypoints | source/blender/depsgraph/intern/eval/deg_eval_flush.cc:99-107 | The queue grows at the back by the entry operations, each exactly once. Exactly these become scheduled, and each is recorded as admitted. |
| DegEvalFlush.Depsgraph.FlushHandleIdNode | source/blender/depsgraph/intern/eval/deg_eval_flush.cc:109-132 | The state becomes `HandleId`: on the first call the ID is marked done and tag_cow becomes tag_cow \| (tag_orig & LIB_TAG_ID_RECALC_ALL); later calls change nothing. The editors update (when expanded) and the two recalc hooks are recorded on the first call only. |
| DegEvalFlush.Depsgraph.FlushTagOperations | source/blender/depsgraph/intern/eval/deg_eval_flush.cc:156-167 | The flags become `TagOperations` of the old flags: each of the component's operations gains NEEDS_UPDATE unless its opcode is PARTICLE_SETTINGS_EVAL. |
| DegEvalFlush.Depsgraph.FlushHandleComponentNode | source/blender/depsgraph/intern/eval/deg_eval_flush.cc:135-180 | State and queue become `HandleComponent`. The copy-on-write component's tag_update is recorded exactly when the component was not done, copy-on-write is in use and the component depends on it. |
| DegEvalFlush.Depsgraph.FlushScheduleChildren | source/blender/depsgraph/intern/eval/deg_eval_flush.cc:188-206 | The result, markers and queue become `ScheduleChildren`: the first newly scheduled child is returned, the others are pushed on the queue's front, and each newly scheduled child is recorded as admitted. |
| DegEvalFlush.Depsgraph.FlushVisit | source/blender/depsgraph/intern/eval/deg_eval_flush.cc:238-251 | One turn of the inner loop acts as `Visit` and records `VisitTrace`: tag, ID handler, component handler, schedule children. |
| DegEvalFlush.Depsgraph.FlushFromOperation | source/blender/depsgraph/intern/eval/deg_eval_flush.cc:236-252 | The inner loop keeps `PassInv` and ends with no current operation. Afterwards either what remains has shrunk, or the queue is unchanged. |
| DegEvalFlush.Depsgraph.FlushQueue | source/blender/depsgraph/intern/eval/deg_eval_flush.cc:235-253 | The outer loop keeps `PassInv` and ends with an empty queue. Its termination is proved. |
| DegEvalFlush.Depsgraph.FlushUpdates | source/blender/depsgraph/intern/eval/deg_eval_flush.cc:213-254 | With no entry tags nothing changes and nothing is recorded. Otherwise `PassInv` holds at the end and every reachable operation has NEEDS_UPDATE. No component is SCHEDULED, and a handled bone's pose component is handled with its siblings tagged. The pose component's entry operation then has NEEDS_UPDATE unless it is PARTICLE_SETTINGS_EVAL. |
| DegEvalFlush.Depsgraph.GraphClearOperation | source/blender/depsgraph/intern/eval/deg_eval_flush.cc:256-262 | Only operation `i`'s flag changes: to `ClearPendingBits` of its old value. |
| DegEvalFlush.Depsgraph.ClearTags | source/blender/depsgraph/intern/eval/deg_eval_flush.cc:265-273 | Every flag loses DIRECTLY_MODIFIED and NEEDS_UPDATE and keeps its other bits. The entry tags become empty. |
| DegTypes.FindIn | source/blender/depsgraph/intern/eval/deg_eval_flush.cc:152-153 | The result is None exactly when no listed component has the type. Otherwise it is the first listed component of that type. |
| DegTypes.FindComponent | source/blender/depsgraph/intern/eval/deg_eval_flush.cc:172-173 | Lookup by type in the ID's component hash: the result is a component of the ID with that type, or None exactly when there is none. |
| DegTypes.PoseEntry | source/blender/depsgraph/intern/eval/deg_eval_flush.cc:171-176 | The operation the bone rule pushes, the pose component's entry operation, is one of the operations that component lists and owns. |
| DegTypes.PoseComponent | source/blender/depsgraph/intern/eval/deg_eval_flush.cc:171-174 | A bone component's pose component is another component of the same ID, and its type is EVAL_POSE. |
| DegTypes.CowComponent | source/blender/depsgraph/intern/eval/deg_eval_flush.cc:151-154 | The copy-on-write component of a component's ID has type COPY_ON_WRITE and the same owner. |
| DegFlushSpec.ClearPendingBits | source/blender/depsgraph/intern/eval/deg_eval_flush.cc:261 | Both pending bits are clear, and the flag is unchanged apart from those two bits. |
| DegFlushSpec.DeferredAppend | source/blender/depsgraph/intern/eval/deg_eval_flush.cc:196-200 | A further newly scheduled child lands at the queue's front. The first one never reaches the queue. |
| DegFlushSpec.ScanPush | source/blender/depsgraph/intern/eval/deg_eval_flush.cc:195-203 | Admitting an unscheduled target marks it, appends it to the admitted children and pushes it on the queue unless it is the first. |
| DegFlushProofs.WithNeedsUpdateIdempotent | source/blender/depsgraph/intern/eval/deg_eval_flush.cc:240 | Setting NEEDS_UPDATE is idempotent, sets the bit, and does nothing to a flag that already has it. |
| DegFlushProofs.TagOperationsAt | source/blender/depsgraph/intern/eval/deg_eval_flush.cc:157-167 | After tagging, an operation has NEEDS_UPDATE added exactly when it belongs to the component and is not PARTICLE_SETTINGS_EVAL. Every other flag is unchanged. |
| DegFlushProofs.ScanAllFacts | source/blender/depsgraph/intern/eval/deg_eval_flush.cc:188-206 | Afterwards every target is scheduled and nothing else changes. The newly scheduled children are exactly the targets that were unscheduled, each once. The returned one is the first unscheduled target in relation order. |
| DegFlushProofs.HandleComponentEffect | source/blender/depsgraph/intern/eval/deg_eval_flush.cc:141-179 | A done component is left alone. Otherwise it becomes DONE and its non-PARTICLE operations are tagged. For a bone, the pose component is scheduled and its entry pushed on the queue's front exactly when the pose component was NONE. Markers, ID state and tags are untouched. |
| DegFlushProofs.HandleComponentOnce | source/blender/depsgraph/intern/eval/deg_eval_flush.cc:141-145 | A second call of the component handler changes nothing. |
| DegFlushProofs.HandleIdEffect | source/blender/depsgraph/intern/eval/deg_eval_flush.cc:113-125 | The ID becomes done. Its copy-on-write tag is merged only if it was not done, and nothing else changes. A second call changes nothing. |
| DegFlushProofs.VisitEffect | source/blender/depsgraph/intern/eval/deg_eval_flush.cc:238-251 | One visit, field by field: markers, ID state, tags, flags, component states, next operation and queue. |
| DegFlushProofs.VisitQueue | source/blender/depsgraph/intern/eval/deg_eval_flush.cc:238-251 | A visit continues with the first newly scheduled child. The queue gains, at its front, the other new children and the pose entry when the bone rule fires. |
| DegFlushProofs.VisitMarks | source/blender/depsgraph/intern/eval/deg_eval_flush.cc:175-177 | A visit marks every child scheduled, and the pose component SCHEDULED when the bone rule fires. |
| DegFlushProofs.DeferredMembers | source/blender/depsgraph/intern/eval/deg_eval_flush.cc:196-200 | The children pushed on the queue are exactly the newly scheduled ones other than the returned one. |
| DegFlushProofs.VisitMonotone | source/blender/depsgraph/intern/eval/deg_eval_flush.cc:238-251 | A visit never clears a scheduled marker, a done marker or a flag bit. Component states only advance (NONE→SCHEDULED→DONE). |
| DegFlushPass.VisitKeepsWork | source/blender/depsgraph/intern/eval/deg_eval_flush.cc:238-251 | The queue and the next operation stay within the graph. |
| DegFlushPass.VisitKeepsEntries | source/blender/depsgraph/intern/eval/deg_eval_flush.cc:238-251 | Entry operations stay scheduled. |
| DegFlushPass.VisitKeepsProcessed | source/blender/depsgraph/intern/eval/deg_eval_flush.cc:238-251 | A processed operation (tagged, component done, children scheduled) stays processed. |
| DegFlushPass.VisitProcesses | source/blender/depsgraph/intern/eval/deg_eval_flush.cc:238-251 | The visited operation is processed afterwards, including a PARTICLE_SETTINGS_EVAL one. |
| DegFlushPass.RevisitIdle | source/blender/depsgraph/intern/eval/deg_eval_flush.cc:175-178 | Visiting a processed operation again changes nothing and calls nothing. |
| DegFlushPass.VisitKeepsClosed | source/blender/depsgraph/intern/eval/deg_eval_flush.cc:235-253 | Every scheduled operation stays either queued or current, or processed. |
| DegFlushPass.VisitKeepsFlags | source/blender/depsgraph/intern/eval/deg_eval_flush.cc:238-251 | Each flag is its value at the start of the pass, or that value plus NEEDS_UPDATE when its component has been handled. |
| DegFlushPass.VisitKeepsDoneHandled | source/blender/depsgraph/intern/eval/deg_eval_flush.cc:141-179 | Every DONE component has its ID done and its non-PARTICLE operations tagged. For a bone, its pose component is not NONE. |
| DegFlushPass.VisitKeepsScheduledPending | source/blender/depsgraph/intern/eval/deg_eval_flush.cc:175-178 | A SCHEDULED component's entry operation is still queued or current. |
| DegFlushPass.VisitKeepsTags | source/blender/depsgraph/intern/eval/deg_eval_flush.cc:117-125 | Each copy-on-write tag is the pass's initial value, merged with the original's recalc bits exactly when the ID is done. |
| DegFlushPass.VisitKeepsOccurred | source/blender/depsgraph/intern/eval/deg_eval_flush.cc:238-251 | An event that has happened stays justified by the state. |
| DegFlushPass.VisitTraceParts | source/blender/depsgraph/intern/eval/deg_eval_flush.cc:244-251 | In order: the ID handler's calls, the component handler's call, then the admissions. |
| DegFlushPass.HandlerTraceDistinct | source/blender/depsgraph/intern/eval/deg_eval_flush.cc:126-131 | The handlers' calls in one visit are pairwise distinct and are not admissions. |
| DegFlushPass.IdTraceNew | source/blender/depsgraph/intern/eval/deg_eval_flush.cc:113-131 | The ID handler records exactly the events of an ID that is newly done. |
| DegFlushPass.ComponentTraceNew | source/blender/depsgraph/intern/eval/deg_eval_flush.cc:141-155 | The component handler records exactly the tag_update of a component that is newly done. |
| DegFlushPass.AdmissionsNew | source/blender/depsgraph/intern/eval/deg_eval_flush.cc:193-203 | The admissions are exactly the newly scheduled operations. |
| DegFlushPass.VisitTraceNew | source/blender/depsgraph/intern/eval/deg_eval_flush.cc:238-251 | A visit's events are pairwise distinct, and each becomes justified by the new state without having been justified before. |
| DegFlushPass.VisitKeepsTrace | source/blender/depsgraph/intern/eval/deg_eval_flush.cc:235-253 | The pass's events stay exactly the happened ones, each once: every operation is admitted and every handler call made at most once per pass. |
| DegFlushPass.PassStart | source/blender/depsgraph/intern/eval/deg_eval_flush.cc:224-227 | After reset and entry scheduling, `PassInv` holds with the entries queued and admitted. |
| DegFlushPass.PassPop | source/blender/depsgraph/intern/eval/deg_eval_flush.cc:236-237 | Taking the queue's front as the current operation keeps `PassInv`. |
| DegFlushPass.PassVisit | source/blender/depsgraph/intern/eval/deg_eval_flush.cc:238-252 | One turn of the inner loop keeps `PassInv`. |
| DegFlushPass.VisitProgress | source/blender/depsgraph/intern/eval/deg_eval_flush.cc:235-253 | A visit never enlarges what remains. When nothing is used up, the loop ends and the queue is as it was. |
| DegFlushPass.RemainingMonotone | source/blender/depsgraph/intern/eval/deg_eval_flush.cc:235-253 | Markers that stay set and states that only advance never add to what remains. |
| DegFlushPass.RemainingDrops | source/blender/depsgraph/intern/eval/deg_eval_flush.cc:235-253 | What remains shrinks strictly when an operation becomes scheduled or a component leaves NONE. |
| DegFlushPass.PassStep | source/blender/depsgraph/intern/eval/deg_eval_flush.cc:238-252 | `PassInv` holds again after a visit, and the measure of the two loops decreases. |
| DegFlushPass.ClosedReach | source/blender/depsgraph/intern/eval/deg_eval_flush.cc:188-206 | If scheduled markers are closed under outgoing relations, they contain every operation on a path from a scheduled one. |
| DegFlushPass.EndProcessed | source/blender/depsgraph/intern/eval/deg_eval_flush.cc:235 | Once the queue is empty, every scheduled operation has been processed. |
| DegFlushPass.EndReach | source/blender/depsgraph/intern/eval/deg_eval_flush.cc:213-254 | Every entry operation, and every operation reachable from one, ends with NEEDS_UPDATE. |
| DegFlushPass.EndComponents | source/blender/depsgraph/intern/eval/deg_eval_flush.cc:171-179 | No component is left SCHEDULED. A handled bone's pose component has been handled, and its non-PARTICLE operations are tagged. So is its entry operation, unless it is PARTICLE_SETTINGS_EVAL. |
| DegFlushPass.PassEnd | source/blender/depsgraph/intern/eval/deg_eval_flush.cc:213-254 | All of the end-of-pass facts above, from `PassInv` with an empty queue. |
| DegFlushOrder.BoneFirstTagsChild | source/blender/depsgraph/intern/eval/deg_eval_flush.cc:171-178 | On the example graph, with b and P scheduled and every component NONE, visiting b, then E (pushed by the bone rule), then y, then P empties the queue, and y ends with NEEDS_UPDATE. |
| DegFlushOrder.PoseFirstMissesChild | source/blender/depsgraph/intern/eval/deg_eval_flush.cc:157-178 | On the same graph and state, visiting P and then b empties the queue, and y does not gain NEEDS_UPDATE: the bone rule finds the pose component DONE and pushes nothing. |

## Left out

- Threading: `BLI_task_parallel_range` in `flush_prepare` and
  `deg_graph_clear_tags` runs here as a sequential loop. The 256-element
  threshold only picks threaded or not, so it is not modelled.
- GSet and GHash iteration order. `FlushScheduleEntrypoints` takes an
  arbitrary remaining entry at each step. An ID node's component hash is a
  sequence; `find_component` by type returns the first match in it, and only
  the type is used (the components it looks up have no name).
- FlushScheduleEntrypoints: the order in which the entries are queued is not
  fixed. Only "each entry exactly once, at the back" is stated, since the
  source's order is that of the hash set.
- FlushScheduleEntrypoints: the final NEEDS_UPDATE set can depend on that
  order, so the model proves no order-independence. Take one ID with a bone
  component {b}, an EVAL_POSE component {E, P} whose entry operation is E,
  and a component {y}, with the relation E -> y, and the entries b and P.
  Queued as [b, P], b's bone rule (lines 171-178) pushes E, E schedules y,
  and y ends with NEEDS_UPDATE (`BoneFirstTagsChild`). Queued as [P, b], P's
  visit makes the pose component DONE and tags E only as a sibling
  (lines 157-167). b's bone rule then pushes nothing, and y is never tagged
  (`PoseFirstMissesChild`). Both lemmas are in `deg_flush_order.dfy`.
- The effects of the calls into other code: `deg_editors_id_update`,
  `lib_id_recalc_tag`, `lib_id_recalc_data_tag` and the copy-on-write
  component's `tag_update` are only recorded as events in the ghost trace.
  Their bodies are not part of this model, so any flags they set or entry
  tags they add are not modelled.
- `deg_copy_on_write_is_expanded`, `depends_on_cow` and `get_entry_operation`
  are given per node in the graph's shape. `DEG_depsgraph_use_copy_on_write`
  is the parameter `useCow`.
- A NULL entry operation: the shape requires every EVAL_POSE component to have
  one. The source would push NULL and skip it.
- The `BLI_assert` on the pose component's lookup becomes the precondition
  `PoseComponentsPresent`. The unchecked dereference of the copy-on-write
  component's lookup becomes `CowComponentsPresent` when `useCow` holds. The
  non-NULL asserts on `bmain` and `graph` have no counterpart, since there are
  no null references here.
- The editor update context (`bmain`, scene, view layer) is only passed along
  by the source and is not modelled.
- The flag and tag bit values come from headers that are not part of this
  model:
  - NEEDS_UPDATE and DIRECTLY_MODIFIED are bits 0 and 1;
  - LIB_TAG_ID_RECALC and LIB_TAG_ID_RECALC_DATA are bits 12 and 13.
- `IDDepsNode::done` is an int holding 0 or 1 and is a boolean here.
