/** A graph on which the order of the entry operations changes which flags a
    flush sets. One ID owns three components: a bone component {b}, an
    EVAL_POSE component {E, P} whose entry operation is E, and a third
    component {y} with the relation E -> y. The entries are b and P.

    Queued as [b, P], b's bone rule pushes E, E schedules y, and y ends with
    NEEDS_UPDATE. Queued as [P, b], P's visit makes the pose component DONE
    (E is tagged only as P's sibling), b's bone rule then pushes nothing, and
    y keeps the flag it had. */
module DegFlushOrder {
  import opened DegTypes
  import opened DegFlushSpec
  import opened DegFlushProofs

  /** Operations: 0 = b, 1 = E, 2 = P, 3 = y. Components: 0 = bone,
      1 = EVAL_POSE, 2 = the component of y. */
  ghost predicate OrderShape(t: Topology)
  {
    |t.operations| == 4 && |t.components| == 3 && |t.idNodes| == 1 &&
    t.operations[0] == OperationNode([], 0, OtherOpcode(0)) &&
    t.operations[1] == OperationNode([3], 1, OtherOpcode(0)) &&
    t.operations[2] == OperationNode([], 1, OtherOpcode(0)) &&
    t.operations[3] == OperationNode([], 2, OtherOpcode(0)) &&
    t.components[0] == ComponentNode(0, Bone, [0], None, false) &&
    t.components[1] == ComponentNode(0, EvalPose, [1, 2], Some(1), false) &&
    t.components[2] == ComponentNode(0, OtherComponent(0), [3], None, false) &&
    t.idNodes[0] == IdNode([0, 1, 2], 0, false)
  }

  /** The state flush_prepare and the scheduling of the entries b and P
      leave: only b and P are scheduled and every component is NONE. */
  ghost predicate ExampleStart(t: Topology, s: FlushState)
  {
    Fits(t, s) && s.scheduled == [true, false, true, false] &&
    s.compDone == [StateNone, StateNone, StateNone]
  }

  /** The example graph exists, with a state in which y is not tagged. */
  lemma OrderShapeExists()
    ensures exists t, s ::
      OrderShape(t) && ExampleStart(t, s) && !HasNeedsUpdate(s.flag[3])
  {
    var t := Topology(
      [OperationNode([], 0, OtherOpcode(0)), OperationNode([3], 1, OtherOpcode(0)),
       OperationNode([], 1, OtherOpcode(0)), OperationNode([], 2, OtherOpcode(0))],
      [ComponentNode(0, Bone, [0], None, false),
       ComponentNode(0, EvalPose, [1, 2], Some(1), false),
       ComponentNode(0, OtherComponent(0), [3], None, false)],
      [IdNode([0, 1, 2], 0, false)]);
    var s := FlushState([0, 0, 0, 0], [true, false, true, false],
                        [StateNone, StateNone, StateNone], [false], [0]);
    assert OrderShape(t) && ExampleStart(t, s) && !HasNeedsUpdate(s.flag[3]);
  }

  /** The example is well formed. */
  lemma OrderWellFormed(t: Topology)
    requires OrderShape(t)
    ensures WellFormed(t)
  {
    assert OperationsWellFormed(t) by {
      forall i | 0 <= i < |t.operations|
        ensures t.operations[i].owner < |t.components| && OutlinksInRange(t, i)
      {
      }
    }
    assert IdNodesWellFormed(t);
  }

  /** The bone's pose component is 1. */
  lemma OrderShapeFacts(t: Topology)
    requires OrderShape(t)
    ensures WellFormed(t) && PoseComponentsPresent(t) && PoseComponent(t, 0) == 1
  {
    OrderWellFormed(t);
    assert t.idNodes[0].components[1..] == [1, 2];
    assert FindIn(t, [1, 2], EvalPose) == Some(1);
    assert FindComponent(t, 0, EvalPose) == Some(1);
    forall c | 0 <= c < |t.components| && t.components[c].ctype == Bone
      ensures FindComponent(t, t.components[c].owner, EvalPose).Some?
    {
      assert t.components[1].ctype != Bone && t.components[2].ctype != Bone;
    }
  }

  /** The scans of the example's relations: only E has a child, y. */
  lemma OrderScans(t: Topology, sched: seq<bool>)
    requires OrderShape(t) && |sched| == 4
    ensures ScanAll(sched, t.operations[0].outlinks) == Scan(sched, [])
    ensures ScanAll(sched, t.operations[2].outlinks) == Scan(sched, [])
    ensures ScanAll(sched, t.operations[3].outlinks) == Scan(sched, [])
    ensures !sched[3] ==> ScanAll(sched, t.operations[1].outlinks) == Scan(sched[3 := true], [3])
    ensures Deferred([]) == [] && Deferred([3]) == []
  {
    assert ScanPrefix(sched, [3], 0) == Scan(sched, []);
    assert ScanAll(sched, [3]) == ScanPrefix(sched, [3], 1);
    assert [3][1..] == [];
  }

  /** Visiting b while the pose component is untouched: the pose component is
      scheduled and E goes to the queue's front. */
  lemma VisitBoneOpensPose(t: Topology, s: FlushState, q: seq<nat>)
    requires OrderShape(t) && Fits(t, s)
    requires s.compDone[0] == StateNone && s.compDone[1] == StateNone
    ensures WellFormed(t) && PoseComponentsPresent(t)
    ensures var r := Visit(t, s, 0, q);
      Fits(t, r.state) && r.next == None && r.queue == [1] + q &&
      r.state.compDone == s.compDone[0 := StateDone][1 := StateScheduled] &&
      r.state.scheduled == s.scheduled && r.state.flag[3] == s.flag[3]
  {
    OrderShapeFacts(t);
    OrderScans(t, s.scheduled);
    VisitEffect(t, s, 0, q);
  }

  /** Visiting b once the pose component is DONE: nothing is pushed. */
  lemma VisitBoneAfterPose(t: Topology, s: FlushState, q: seq<nat>)
    requires OrderShape(t) && Fits(t, s) && s.compDone[1] == StateDone
    ensures WellFormed(t) && PoseComponentsPresent(t)
    ensures var r := Visit(t, s, 0, q);
      Fits(t, r.state) && r.next == None && r.queue == q && r.state.flag[3] == s.flag[3]
  {
    OrderShapeFacts(t);
    OrderScans(t, s.scheduled);
    VisitEffect(t, s, 0, q);
  }

  /** Visiting E while y is unscheduled: the pose component becomes DONE and
      y is returned as the next operation. */
  lemma VisitPoseEntry(t: Topology, s: FlushState, q: seq<nat>)
    requires OrderShape(t) && Fits(t, s) && !s.scheduled[3]
    ensures WellFormed(t) && PoseComponentsPresent(t)
    ensures var r := Visit(t, s, 1, q);
      Fits(t, r.state) && r.next == Some(3) && r.queue == q &&
      r.state.compDone[1] == StateDone
  {
    OrderShapeFacts(t);
    OrderScans(t, s.scheduled);
    VisitEffect(t, s, 1, q);
  }

  /** Visiting P: the pose component becomes DONE, y is left alone. */
  lemma VisitPose(t: Topology, s: FlushState, q: seq<nat>)
    requires OrderShape(t) && Fits(t, s)
    ensures WellFormed(t) && PoseComponentsPresent(t)
    ensures var r := Visit(t, s, 2, q);
      Fits(t, r.state) && r.next == None && r.queue == q &&
      r.state.compDone[1] == StateDone && r.state.flag[3] == s.flag[3]
  {
    OrderShapeFacts(t);
    OrderScans(t, s.scheduled);
    VisitEffect(t, s, 2, q);
  }

  /** Visiting y tags it. */
  lemma VisitChild(t: Topology, s: FlushState, q: seq<nat>)
    requires OrderShape(t) && Fits(t, s)
    ensures WellFormed(t) && PoseComponentsPresent(t)
    ensures var r := Visit(t, s, 3, q);
      Fits(t, r.state) && r.next == None && r.queue == q && HasNeedsUpdate(r.state.flag[3])
  {
    OrderShapeFacts(t);
    OrderScans(t, s.scheduled);
    VisitEffect(t, s, 3, q);
  }

  /** The entries queued as [b, P], after flush_prepare: the traversal pops
      b, then E (pushed by b's bone rule), follows E's child y, then pops P;
      the queue is then empty and y has NEEDS_UPDATE. */
  lemma BoneFirstTagsChild(t: Topology, s: FlushState)
    requires OrderShape(t) && ExampleStart(t, s)
    ensures WellFormed(t) && PoseComponentsPresent(t)
    ensures var r1 := Visit(t, s, 0, [2]);
      Fits(t, r1.state) && r1.next == None && r1.queue == [1, 2] &&
      var r2 := Visit(t, r1.state, 1, [2]);
      Fits(t, r2.state) && r2.next == Some(3) && r2.queue == [2] &&
      var r3 := Visit(t, r2.state, 3, [2]);
      Fits(t, r3.state) && r3.next == None && r3.queue == [2] &&
      var r4 := Visit(t, r3.state, 2, []);
      Fits(t, r4.state) && r4.next == None && r4.queue == [] && HasNeedsUpdate(r4.state.flag[3])
  {
    VisitBoneOpensPose(t, s, [2]);
    var r1 := Visit(t, s, 0, [2]);
    VisitPoseEntry(t, r1.state, [2]);
    var r2 := Visit(t, r1.state, 1, [2]);
    VisitChild(t, r2.state, [2]);
    var r3 := Visit(t, r2.state, 3, [2]);
    VisitPose(t, r3.state, []);
  }

  /** The same entries queued as [P, b]: the traversal pops P, then b, whose
      bone rule finds the pose component DONE; the queue is then empty and y
      has not gained NEEDS_UPDATE. */
  lemma PoseFirstMissesChild(t: Topology, s: FlushState)
    requires OrderShape(t) && ExampleStart(t, s) && !HasNeedsUpdate(s.flag[3])
    ensures WellFormed(t) && PoseComponentsPresent(t)
    ensures var r1 := Visit(t, s, 2, [0]);
      Fits(t, r1.state) && r1.next == None && r1.queue == [0] &&
      var r2 := Visit(t, r1.state, 0, []);
      Fits(t, r2.state) && r2.next == None && r2.queue == [] && !HasNeedsUpdate(r2.state.flag[3])
  {
    VisitPose(t, s, [0]);
    var r1 := Visit(t, s, 2, [0]);
    VisitBoneAfterPose(t, r1.state, []);
  }
}
