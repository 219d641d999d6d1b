/** deg_eval_flush.cc: the depsgraph update flush, in place on the graph's
    per-node state. Operations, components and ID nodes are indices into the
    graph's vectors; their mutable fields are arrays indexed the same way. */
module DegEvalFlush {
  import opened DegTypes
  import opened DegFlushSpec
  import opened DegFlushProofs
  import opened DegFlushPass

  class Depsgraph {
    /** The graph's shape; the flush never changes it. */
    const topo: Topology

    /** OperationDepsNode::flag and OperationDepsNode::scheduled. */
    const opFlag: array<bv32>
    const opScheduled: array<bool>
    /** ComponentDepsNode::done. */
    const compDone: array<ComponentState>
    /** IDDepsNode::done, and the tag of each ID's copy-on-write datablock. */
    const idDone: array<bool>
    const idTagCow: array<bv32>

    /** Depsgraph::entry_tags: the directly modified operations. */
    var entryTags: set<nat>

    /** Every admission and foreign call made so far, oldest first. */
    ghost var trace: seq<Event>

    ghost predicate Valid()
      reads this`entryTags
    {
      WellFormed(topo) && Shaped()
    }

    /** The arrays have the graph's sizes and are distinct objects. */
    ghost predicate Shaped()
      reads this`entryTags
    {
      opFlag.Length == |topo.operations| && opScheduled.Length == |topo.operations| &&
      compDone.Length == |topo.components| &&
      idDone.Length == |topo.idNodes| && idTagCow.Length == |topo.idNodes| &&
      ArraysSeparate() &&
      forall e :: e in entryTags ==> e < |topo.operations|
    }

    /** The five state arrays are distinct objects. */
    ghost predicate ArraysSeparate()
    {
      var f: object, s: object, c: object, d: object, g: object :=
        opFlag, opScheduled, compDone, idDone, idTagCow;
      f != s && f != c && f != d && f != g &&
      s != c && s != d && s != g &&
      c != d && c != g &&
      d != g
    }

    /** The per-node state as a value. */
    ghost function State(): (s: FlushState)
      reads opFlag, opScheduled, compDone, idDone, idTagCow
    {
      FlushState(opFlag[..], opScheduled[..], compDone[..], idDone[..], idTagCow[..])
    }

    /** A graph of shape `t` with the given operation flags and copy-on-write
        tags, nothing scheduled, and no entry tags. */
    constructor (t: Topology, flags: seq<bv32>, tags: seq<bv32>)
      requires WellFormed(t) && |flags| == |t.operations| && |tags| == |t.idNodes|
      ensures Valid() && topo == t && entryTags == {} && trace == []
      ensures fresh(opFlag) && fresh(opScheduled) && fresh(compDone) && fresh(idDone) && fresh(idTagCow)
      ensures opFlag[..] == flags && idTagCow[..] == tags
    {
      topo := t;
      opFlag := new bv32[|flags|](i requires 0 <= i < |flags| => flags[i]);
      opScheduled := new bool[|t.operations|];
      compDone := new ComponentState[|t.components|](_ => StateNone);
      idDone := new bool[|t.idNodes|];
      idTagCow := new bv32[|tags|](i requires 0 <= i < |tags| => tags[i]);
      entryTags := {};
      trace := [];
    }

    // -------------------------------------------------------------------
    // flush_prepare

    /** flush_init_operation_node_func */
    method FlushInitOperationNode(i: nat)
      requires Valid() && i < opScheduled.Length
      modifies opScheduled
      ensures opScheduled[..] == old(opScheduled[..])[i := false]
    {
      opScheduled[i] := false;
    }

    /** flush_init_id_node_func: clear the ID's done marker and reset every
        component in its hash. */
    method FlushInitIdNode(i: nat)
      requires Valid() && i < idDone.Length
      modifies idDone, compDone
      ensures idDone[..] == old(idDone[..])[i := false]
      ensures forall c :: 0 <= c < compDone.Length ==>
        compDone[c] == if c in topo.idNodes[i].components then StateNone else old(compDone[c])
    {
      idDone[i] := false;
      var comps := topo.idNodes[i].components;
      for k := 0 to |comps|
        modifies compDone
        invariant forall c :: 0 <= c < compDone.Length ==>
          compDone[c] == if c in comps[..k] then StateNone else old(compDone[c])
      {
        compDone[comps[k]] := StateNone;
        assert forall c :: c in comps[..k + 1] <==> c in comps[..k] || c == comps[k] by {
          assert comps[..k + 1] == comps[..k] + [comps[k]];
        }
      }
      assert comps[..|comps|] == comps;
    }

    /** flush_prepare: reset every scheduled marker, every ID's done marker
        and every component's state; flags and tags are left alone. The two
        parallel ranges are sequential loops here. */
    method FlushPrepare()
      requires Valid() && ComponentsListed(topo)
      modifies opScheduled, idDone, compDone
      ensures forall i :: 0 <= i < opScheduled.Length ==> !opScheduled[i]
      ensures forall i :: 0 <= i < idDone.Length ==> !idDone[i]
      ensures forall c :: 0 <= c < compDone.Length ==> compDone[c] == StateNone
    {
      for i := 0 to opScheduled.Length
        modifies opScheduled
        invariant forall j :: 0 <= j < i ==> !opScheduled[j]
      {
        FlushInitOperationNode(i);
      }
      for i := 0 to idDone.Length
        modifies idDone, compDone
        invariant forall j :: 0 <= j < i ==> !idDone[j]
        invariant forall c :: 0 <= c < compDone.Length && topo.components[c].owner < i ==>
          compDone[c] == StateNone
      {
        FlushInitIdNode(i);
      }
    }

    // -------------------------------------------------------------------
    // flush_schedule_entrypoints

    /** Push every entry-tagged operation onto the back of the queue and mark it
        scheduled. The hash's iteration order is not modelled: each entry is
        picked arbitrarily from those still to do. */
    method FlushScheduleEntrypoints(queue: seq<nat>) returns (queue': seq<nat>, ghost added: seq<nat>)
      requires Valid()
      modifies opScheduled, this`trace
      ensures queue' == queue + added
      ensures Distinct(added) && forall x :: x in added <==> x in entryTags
      ensures opScheduled[..] == MarkAll(old(opScheduled[..]), added)
      ensures trace == old(trace) + AdmitAll(added)
    {
      queue' := queue;
      added := [];
      var rest := entryTags;
      while rest != {}
        invariant rest <= entryTags
        invariant forall x :: x in added <==> x in entryTags && x !in rest
        invariant Distinct(added)
        invariant queue' == queue + added
        invariant opScheduled[..] == MarkAll(old(opScheduled[..]), added)
        invariant trace == old(trace) + AdmitAll(added)
        decreases rest
      {
        var op :| op in rest;
        queue' := queue' + [op];
        opScheduled[op] := true;
        trace := trace + [Admitted(op)];
        AdmitAllAppend(added, op);
        added := added + [op];
        rest := rest - {op};
      }
    }

    // -------------------------------------------------------------------
    // flush_handle_id_node

    method FlushHandleIdNode(id: nat)
      requires Valid() && id < idDone.Length
      modifies idDone, idTagCow, this`trace
      ensures State() == HandleId(topo, old(State()), id)
      ensures trace == old(trace) + HandleIdTrace(topo, old(State()), id)
    {
      // The ID is informed only once.
      if idDone[id] {
        return;
      }
      idDone[id] := true;
      idTagCow[id] := MergeRecalcTags(idTagCow[id], topo.idNodes[id].tagOrig);
      if topo.idNodes[id].cowExpanded {
        trace := trace + [EditorsIdUpdate(id)];
      }
      trace := trace + [RecalcTag(id)];
      trace := trace + [RecalcDataTag(id)];
    }

    // -------------------------------------------------------------------
    // flush_handle_component_node

    /** The loop of flush_handle_component_node over the component's
        operations: tag each one unless its opcode skips upstream flushing. */
    method FlushTagOperations(ops: seq<nat>)
      requires opFlag.Length == |topo.operations|
      requires forall k :: 0 <= k < |ops| ==> ops[k] < opFlag.Length
      modifies opFlag
      ensures opFlag[..] == TagOperations(topo, old(opFlag[..]), ops)
    {
      ghost var flag0 := opFlag[..];
      for k := 0 to |ops|
        invariant opFlag[..] == TagPrefix(topo, flag0, ops, k)
      {
        var op := ops[k];
        if SkipsUpstreamFlush(topo.operations[op].opcode) {
          continue;
        }
        opFlag[op] := WithNeedsUpdate(opFlag[op]);
      }
    }

    method FlushHandleComponentNode(id: nat, comp: nat, useCow: bool, queue: seq<nat>)
      returns (queue': seq<nat>)
      requires Valid() && PoseComponentsPresent(topo) && (useCow ==> CowComponentsPresent(topo))
      requires comp < compDone.Length && id == topo.components[comp].owner
      modifies opFlag, compDone, this`trace
      ensures (State(), queue') == HandleComponent(topo, old(State()), comp, queue)
      ensures trace == old(trace) + HandleComponentTrace(topo, useCow, old(State()), comp)
    {
      ghost var s0 := State();
      queue' := queue;
      // The component is handled only once.
      if compDone[comp] == StateDone {
        return;
      }
      ghost var events := HandleComponentTrace(topo, useCow, s0, comp);
      compDone[comp] := StateDone;
      if useCow && topo.components[comp].dependsOnCow {
        var cowComp := FindComponent(topo, id, CopyOnWrite);
        trace := trace + [CowTagUpdate(comp, cowComp.value)];
      }
      assert trace == old(trace) + events;
      // Tag the component's operations, except those that must not receive
      // tags flushed upstream.
      var ops := topo.components[comp].operations;
      FlushTagOperations(ops);
      ghost var s1 := s0.(compDone := s0.compDone[comp := StateDone], flag := TagOperations(topo, s0.flag, ops));
      assert State() == s1;
      HandleComponentSteps(topo, s0, comp, queue, s1);
      // A change to one bone re-runs the whole pose solver.
      if topo.components[comp].ctype == Bone {
        var poseComp := FindComponent(topo, id, EvalPose).value;
        assert poseComp == PoseComponent(topo, comp);
        if compDone[poseComp] == StateNone {
          queue' := [topo.components[poseComp].entry.value] + queue';
          compDone[poseComp] := StateScheduled;
          assert State() == s1.(compDone := s1.compDone[poseComp := StateScheduled]);
        }
      }
    }

    // -------------------------------------------------------------------
    // flush_schedule_children

    method FlushScheduleChildren(op: nat, queue: seq<nat>) returns (result: Option<nat>, queue': seq<nat>)
      requires Shaped() && op < opScheduled.Length && OutlinksInRange(topo, op)
      modifies opScheduled, this`trace
      ensures ChildStep(result, State(), queue') == ScheduleChildren(topo, old(State()), op, queue)
      ensures trace == old(trace) + AdmitAll(ScanAll(old(opScheduled[..]), topo.operations[op].outlinks).admitted)
    {
      var ts := topo.operations[op].outlinks;
      ghost var s0 := State();
      ghost var sched0 := opScheduled[..];
      ghost var n: seq<nat> := [];
      result := None;
      queue' := queue;
      for i := 0 to |ts|
        modifies opScheduled
        invariant ScanPrefix(sched0, ts, i) == Scan(opScheduled[..], n)
        invariant result == if n == [] then None else Some(n[0])
        invariant queue' == Deferred(n) + queue
      {
        var toNode := ts[i];
        if !opScheduled[toNode] {
          ScanPush(sched0, ts, i, opScheduled[..], n, queue);
          if result.Some? {
            queue' := [toNode] + queue';
          } else {
            result := Some(toNode);
          }
          ghost var marked := opScheduled[..];
          opScheduled[toNode] := true;
          assert opScheduled[..] == marked[toNode := true];
          n := n + [toNode];
        }
      }
      assert ts == topo.operations[op].outlinks && ScanAll(sched0, ts) == Scan(opScheduled[..], n);
      assert State() == s0.(scheduled := opScheduled[..]);
      assert ScheduleChildren(topo, s0, op, queue) == ChildStep(result, State(), queue');
      trace := trace + AdmitAll(n);
    }

    // -------------------------------------------------------------------
    // deg_graph_flush_updates

    /** The body of the inner loop: tag the operation, inform its ID and
        component, and schedule its children; the child to handle next, if
        any, is returned. */
    method FlushVisit(op: nat, useCow: bool, queue: seq<nat>) returns (next: Option<nat>, queue': seq<nat>)
      requires Valid() && PoseComponentsPresent(topo) && (useCow ==> CowComponentsPresent(topo))
      requires op < opFlag.Length
      modifies opFlag, opScheduled, compDone, idDone, idTagCow, this`trace
      ensures ChildStep(next, State(), queue') == Visit(topo, old(State()), op, queue)
      ensures trace == old(trace) + VisitTrace(topo, useCow, old(State()), op)
    {
      ghost var s0 := State();
      ghost var t0 := trace;
      // Tag the operation as required for update.
      opFlag[op] := WithNeedsUpdate(opFlag[op]);
      ghost var s1 := State();
      assert s1 == s0.(flag := s0.flag[op := WithNeedsUpdate(s0.flag[op])]);
      // Inform the owning ID and component.
      var comp := topo.operations[op].owner;
      var id := topo.components[comp].owner;
      FlushHandleIdNode(id);
      ghost var s2 := State();
      ghost var t1 := trace;
      queue' := FlushHandleComponentNode(id, comp, useCow, queue);
      ghost var s3 := State();
      ghost var q3 := queue';
      ghost var t2 := trace;
      VisitSteps(topo, useCow, s0, op, queue, s1, s2, s3, q3);
      assert OutlinksInRange(topo, op);
      // Flush to the nodes along the relations.
      next, queue' := FlushScheduleChildren(op, queue');
      AppendAssoc(t0, t1[|t0|..], t2[|t1|..]);
      AppendAssoc(t0, t1[|t0|..] + t2[|t1|..], trace[|t2|..]);
    }

    /** The inner loop of deg_graph_flush_updates: handle `op`, then keep
        handling the child each visit returns until there is none. `t0` is
        the trace before the pass and `tr` the pass's events so far. */
    method FlushFromOperation(op: nat, useCow: bool, queue: seq<nat>, ghost f0: seq<bv32>,
                              ghost tags0: seq<bv32>, ghost t0: seq<Event>, ghost tr: seq<Event>)
      returns (queue': seq<nat>, ghost tr': seq<Event>)
      requires Valid() && trace == t0 + tr
      requires PassInv(topo, useCow, entryTags, f0, tags0, State(), queue, Some(op), tr)
      modifies opFlag, opScheduled, compDone, idDone, idTagCow, this`trace
      ensures trace == t0 + tr'
      ensures PassInv(topo, useCow, entryTags, f0, tags0, State(), queue', None, tr')
      ensures Remaining(State()) < old(Remaining(State())) ||
              (Remaining(State()) == old(Remaining(State())) && queue' == queue)
    {
      ghost var r0 := Remaining(State());
      var cur := Some(op);
      queue' := queue;
      tr' := tr;
      while cur.Some?
        invariant trace == t0 + tr'
        invariant PassInv(topo, useCow, entryTags, f0, tags0, State(), queue', cur, tr')
        invariant Remaining(State()) < r0 || (Remaining(State()) == r0 && queue' == queue)
        decreases Remaining(State()), if cur.Some? then 1 else 0
      {
        var x := cur.value;
        ghost var s := State();
        ghost var q := queue';
        ghost var vt := VisitTrace(topo, useCow, s, x);
        cur, queue' := FlushVisit(x, useCow, queue');
        PassStep(topo, useCow, entryTags, f0, tags0, s, q, x, tr', State(), queue', cur);
        AppendAssoc(t0, tr', vt);
        tr' := tr' + vt;
      }
    }

    /** deg_graph_flush_updates: flush from the entry-tagged operations
        outwards until every affected operation is tagged. */
    method FlushUpdates(useCow: bool) returns (ghost events: seq<Event>)
      requires Valid() && ComponentsListed(topo) && PoseComponentsPresent(topo)
      requires useCow ==> CowComponentsPresent(topo)
      modifies opFlag, opScheduled, compDone, idDone, idTagCow, this`trace
      ensures trace == old(trace) + events
      ensures entryTags == {} ==> State() == old(State()) && events == []
      ensures entryTags != {} ==>
        PassInv(topo, useCow, entryTags, old(opFlag[..]), old(idTagCow[..]), State(), [], None, events)
      ensures entryTags != {} ==> forall i :: 0 <= i < |topo.operations| && Reachable(topo, entryTags, i) ==>
        HasNeedsUpdate(State().flag[i])
      ensures entryTags != {} ==> forall c :: 0 <= c < |topo.components| ==> State().compDone[c] != StateScheduled
      ensures entryTags != {} ==> forall c ::
        0 <= c < |topo.components| && State().compDone[c] == StateDone && topo.components[c].ctype == Bone ==>
        State().compDone[PoseComponent(topo, c)] == StateDone && SiblingsTagged(topo, State(), PoseComponent(topo, c))
      ensures entryTags != {} ==> forall c ::
        0 <= c < |topo.components| && State().compDone[c] == StateDone && topo.components[c].ctype == Bone &&
        !SkipsUpstreamFlush(topo.operations[PoseEntry(topo, c)].opcode) ==>
        HasNeedsUpdate(State().flag[PoseEntry(topo, c)])
    {
      events := [];
      // Nothing to update.
      if entryTags == {} {
        return;
      }
      ghost var f0 := opFlag[..];
      ghost var tags0 := idTagCow[..];
      // Reset all markers, then queue the entry operations.
      FlushPrepare();
      ghost var sched0 := opScheduled[..];
      var queue: seq<nat>;
      ghost var added: seq<nat>;
      queue, added := FlushScheduleEntrypoints([]);
      assert forall i :: 0 <= i < opScheduled.Length ==> (opScheduled[i] <==> i in entryTags) by {
        assert opScheduled[..] == MarkAll(sched0, added);
      }
      events := AdmitAll(added);
      PassStart(topo, useCow, entryTags, State(), added);
      events := FlushQueue(useCow, queue, f0, tags0, old(trace), events);
      PassEnd(topo, useCow, entryTags, f0, tags0, State(), events);
    }

    /** The outer loop of deg_graph_flush_updates: handle operations from the
        front of the queue until it is empty. */
    method FlushQueue(useCow: bool, queue: seq<nat>, ghost f0: seq<bv32>, ghost tags0: seq<bv32>,
                      ghost t0: seq<Event>, ghost tr: seq<Event>) returns (ghost tr': seq<Event>)
      requires Valid() && trace == t0 + tr
      requires PassInv(topo, useCow, entryTags, f0, tags0, State(), queue, None, tr)
      modifies opFlag, opScheduled, compDone, idDone, idTagCow, this`trace
      ensures trace == t0 + tr'
      ensures PassInv(topo, useCow, entryTags, f0, tags0, State(), [], None, tr')
    {
      var q := queue;
      tr' := tr;
      while q != []
        invariant trace == t0 + tr'
        invariant PassInv(topo, useCow, entryTags, f0, tags0, State(), q, None, tr')
        decreases Remaining(State()), |q|
      {
        PassPop(topo, useCow, entryTags, f0, tags0, State(), q, tr');
        q, tr' := FlushFromOperation(q[0], useCow, q[1..], f0, tags0, t0, tr');
      }
    }

    // -------------------------------------------------------------------
    // graph_clear_func, deg_graph_clear_tags

    /** graph_clear_func: clear the operation's "pending update" bits. */
    method GraphClearOperation(i: nat)
      requires Valid() && i < opFlag.Length
      modifies opFlag
      ensures opFlag[..] == old(opFlag[..])[i := ClearPendingBits(old(opFlag[i]))]
    {
      opFlag[i] := opFlag[i] & !(DIRECTLY_MODIFIED | NEEDS_UPDATE);
    }

    /** deg_graph_clear_tags: clear the pending-update bits of every operation,
        then every entry tag. */
    method ClearTags()
      requires Valid()
      modifies opFlag, this`entryTags
      ensures Valid() && entryTags == {}
      ensures forall i :: 0 <= i < opFlag.Length ==> opFlag[i] == ClearPendingBits(old(opFlag[i]))
    {
      for i := 0 to opFlag.Length
        invariant Valid()
        invariant forall j :: 0 <= j < opFlag.Length ==>
          opFlag[j] == if j < i then ClearPendingBits(old(opFlag[j])) else old(opFlag[j])
      {
        GraphClearOperation(i);
      }
      entryTags := {};
    }
  }
}
