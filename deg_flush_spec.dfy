/** The update flush as pure functions over a snapshot of the per-node state.
    Each function is one step of deg_eval_flush.cc; the class in
    deg_eval_flush.dfy runs the same steps in place and is tied to these. */
module DegFlushSpec {
  import opened DegTypes

  /** The flush's mutable per-node state: operation flags and scheduled
      markers, component states, ID-node done markers and the tag of each
      ID's copy-on-write datablock. */
  datatype FlushState = FlushState(
    flag: seq<bv32>,
    scheduled: seq<bool>,
    compDone: seq<ComponentState>,
    idDone: seq<bool>,
    tagCow: seq<bv32>)

  /** What the pass does that is observable outside the flag store: an
      operation entering the traversal (entry scheduling or scheduling as a
      child), and the calls into code this model does not contain. */
  datatype Event =
    | Admitted(op: nat)
    | EditorsIdUpdate(id: nat)
    | RecalcTag(id: nat)
    | RecalcDataTag(id: nat)
    | CowTagUpdate(comp: nat, cow: nat)

  ghost predicate Fits(t: Topology, s: FlushState)
  {
    |s.flag| == |t.operations| && |s.scheduled| == |t.operations| &&
    |s.compDone| == |t.components| &&
    |s.idDone| == |t.idNodes| && |s.tagCow| == |t.idNodes|
  }

  ghost predicate Distinct<T>(s: seq<T>)
  {
    forall i, j :: 0 <= i < j < |s| ==> s[i] != s[j]
  }

  lemma AppendAssoc<T>(a: seq<T>, b: seq<T>, c: seq<T>)
    ensures (a + b) + c == a + (b + c)
  {
  }

  function Reverse<T>(s: seq<T>): (r: seq<T>)
    ensures |r| == |s|
  {
    if s == [] then [] else [s[|s| - 1]] + Reverse(s[..|s| - 1])
  }

  lemma {:induction false} ReverseAt<T>(s: seq<T>, k: nat)
    requires k < |s|
    ensures Reverse(s)[k] == s[|s| - 1 - k]
  {
    if k > 0 {
      ReverseAt(s[..|s| - 1], k - 1);
    }
  }

  lemma ReverseAppend<T>(s: seq<T>, x: T)
    ensures Reverse(s + [x]) == [x] + Reverse(s)
  {
    assert (s + [x])[..|s|] == s;
  }

  /** `x` is in the reverse of `s` exactly when it is in `s`. */
  lemma ReverseMembers<T>(s: seq<T>)
    ensures forall x :: x in Reverse(s) <==> x in s
  {
    forall x ensures x in Reverse(s) <==> x in s {
      if x in s {
        var k :| 0 <= k < |s| && s[k] == x;
        ReverseAt(s, |s| - 1 - k);
      }
      if x in Reverse(s) {
        var k :| 0 <= k < |s| && Reverse(s)[k] == x;
        ReverseAt(s, k);
      }
    }
  }

  /** The admissions of the operations `ops`, in order. */
  function AdmitAll(ops: seq<nat>): (r: seq<Event>)
    ensures |r| == |ops|
  {
    if ops == [] then [] else AdmitAll(ops[..|ops| - 1]) + [Admitted(ops[|ops| - 1])]
  }

  lemma {:induction false} AdmitAllAt(ops: seq<nat>, k: nat)
    requires k < |ops|
    ensures AdmitAll(ops)[k] == Admitted(ops[k])
  {
    if k < |ops| - 1 {
      AdmitAllAt(ops[..|ops| - 1], k);
    }
  }

  lemma AdmitAllAppend(ops: seq<nat>, x: nat)
    ensures AdmitAll(ops + [x]) == AdmitAll(ops) + [Admitted(x)]
  {
    assert (ops + [x])[..|ops|] == ops;
  }

  // ---------------------------------------------------------------------
  // flush_handle_id_node

  /** The ID handler: on first visit mark the ID done and merge the original
      datablock's recalc tags into the copy-on-write datablock's tag. */
  function HandleId(t: Topology, s: FlushState, id: nat): (r: FlushState)
    requires Fits(t, s) && id < |t.idNodes|
  {
    if s.idDone[id] then s
    else s.(idDone := s.idDone[id := true],
            tagCow := s.tagCow[id := MergeRecalcTags(s.tagCow[id], t.idNodes[id].tagOrig)])
  }

  /** The foreign calls the ID handler makes. */
  function HandleIdTrace(t: Topology, s: FlushState, id: nat): (r: seq<Event>)
    requires Fits(t, s) && id < |t.idNodes|
  {
    if s.idDone[id] then []
    else (if t.idNodes[id].cowExpanded then [EditorsIdUpdate(id)] else []) +
         [RecalcTag(id), RecalcDataTag(id)]
  }

  // ---------------------------------------------------------------------
  // flush_handle_component_node

  /** The flags after the first `k` operations of `ops` have been visited,
      each tagged unless its opcode skips upstream flushing. */
  function TagPrefix(t: Topology, flag: seq<bv32>, ops: seq<nat>, k: nat): (r: seq<bv32>)
    requires |flag| == |t.operations| && k <= |ops|
    ensures |r| == |flag|
  {
    if k == 0 then flag
    else
      var f := TagPrefix(t, flag, ops, k - 1);
      var op := ops[k - 1];
      if op < |f| && !SkipsUpstreamFlush(t.operations[op].opcode) then f[op := WithNeedsUpdate(f[op])]
      else f
  }

  /** The flags after tagging every operation of `ops`. */
  function TagOperations(t: Topology, flag: seq<bv32>, ops: seq<nat>): (r: seq<bv32>)
    requires |flag| == |t.operations|
    ensures |r| == |flag|
  {
    TagPrefix(t, flag, ops, |ops|)
  }

  /** The component handler: on first visit mark the component done, tag its
      operations, and for a bone component re-enter the pose solver through
      its entry operation if the pose component is still untouched. */
  function HandleComponent(t: Topology, s: FlushState, c: nat, q: seq<nat>): (r: (FlushState, seq<nat>))
    requires WellFormed(t) && PoseComponentsPresent(t) && Fits(t, s) && c < |t.components|
  {
    if s.compDone[c] == StateDone then (s, q)
    else
      var comp := t.components[c];
      var s1 := s.(compDone := s.compDone[c := StateDone],
                   flag := TagOperations(t, s.flag, comp.operations));
      if comp.ctype == Bone then
        var pose := PoseComponent(t, c);
        if s1.compDone[pose] == StateNone then
          (s1.(compDone := s1.compDone[pose := StateScheduled]),
           [t.components[pose].entry.value] + q)
        else (s1, q)
      else (s1, q)
  }

  /** The component handler's result once the component is marked done and
      its operations tagged, giving `s1`. */
  lemma HandleComponentSteps(t: Topology, s: FlushState, c: nat, q: seq<nat>, s1: FlushState)
    requires WellFormed(t) && PoseComponentsPresent(t) && Fits(t, s) && c < |t.components|
    requires s.compDone[c] != StateDone
    requires s1 == s.(compDone := s.compDone[c := StateDone],
                      flag := TagOperations(t, s.flag, t.components[c].operations))
    ensures t.components[c].ctype != Bone ==> HandleComponent(t, s, c, q) == (s1, q)
    ensures t.components[c].ctype == Bone && s1.compDone[PoseComponent(t, c)] == StateNone ==>
      HandleComponent(t, s, c, q) ==
        (s1.(compDone := s1.compDone[PoseComponent(t, c) := StateScheduled]),
         [t.components[PoseComponent(t, c)].entry.value] + q)
    ensures t.components[c].ctype == Bone && s1.compDone[PoseComponent(t, c)] != StateNone ==>
      HandleComponent(t, s, c, q) == (s1, q)
  {
  }

  /** The foreign call the component handler makes: the copy-on-write
      component's tag_update, when copy-on-write is in use and the component
      depends on it. */
  function HandleComponentTrace(t: Topology, useCow: bool, s: FlushState, c: nat): (r: seq<Event>)
    requires WellFormed(t) && (useCow ==> CowComponentsPresent(t)) && Fits(t, s) && c < |t.components|
  {
    if s.compDone[c] == StateDone then []
    else if useCow && t.components[c].dependsOnCow then [CowTagUpdate(c, CowComponent(t, c))]
    else []
  }

  // ---------------------------------------------------------------------
  // flush_schedule_children

  /** What a scan of the outgoing relations has done so far: the scheduled
      markers, and the targets it has newly scheduled, in order. */
  datatype Scan = Scan(marked: seq<bool>, admitted: seq<nat>)

  /** The scan after the first `i` targets of `ts`: a target not yet
      scheduled is marked and admitted. */
  function ScanPrefix(sched: seq<bool>, ts: seq<nat>, i: nat): (r: Scan)
    requires i <= |ts|
    ensures |r.marked| == |sched|
  {
    if i == 0 then Scan(sched, [])
    else
      var p := ScanPrefix(sched, ts, i - 1);
      var x := ts[i - 1];
      if x < |p.marked| && !p.marked[x] then Scan(p.marked[x := true], p.admitted + [x])
      else p
  }

  /** The scan over all of `ts`. */
  function ScanAll(sched: seq<bool>, ts: seq<nat>): (r: Scan)
    ensures |r.marked| == |sched|
  {
    ScanPrefix(sched, ts, |ts|)
  }

  /** `sched` with every target of `ts` marked scheduled. */
  function MarkAll(sched: seq<bool>, ts: seq<nat>): (r: seq<bool>)
    ensures |r| == |sched|
  {
    seq(|sched|, i requires 0 <= i < |sched| => sched[i] || i in ts)
  }

  /** The newly scheduled children other than the first, in the order the
      pushes onto the queue's front leave them. */
  function Deferred(n: seq<nat>): (r: seq<nat>)
  {
    if n == [] then [] else Reverse(n[1..])
  }

  lemma DeferredAppend(n: seq<nat>, x: nat)
    ensures Deferred(n + [x]) == if n == [] then [] else [x] + Deferred(n)
  {
    if n != [] {
      assert (n + [x])[1..] == n[1..] + [x];
      ReverseAppend(n[1..], x);
    } else {
      assert (n + [x])[1..] == [];
    }
  }

  /** One step of the scan that admits the target `ts[i]`, and where the
      pushes onto the queue leave it. */
  lemma ScanPush(sched: seq<bool>, ts: seq<nat>, i: nat, marked: seq<bool>, n: seq<nat>, q: seq<nat>)
    requires i < |ts| && ScanPrefix(sched, ts, i) == Scan(marked, n)
    requires ts[i] < |marked| && !marked[ts[i]]
    ensures ScanPrefix(sched, ts, i + 1) == Scan(marked[ts[i] := true], n + [ts[i]])
    ensures Deferred(n + [ts[i]]) + q == if n == [] then Deferred(n) + q else [ts[i]] + (Deferred(n) + q)
  {
    DeferredAppend(n, ts[i]);
    if n != [] {
      AppendAssoc([ts[i]], Deferred(n), q);
    }
  }

  datatype ChildStep = ChildStep(next: Option<nat>, state: FlushState, queue: seq<nat>)

  /** Schedule the children of `op`: the first newly scheduled target is
      returned to be handled at once, each later one is pushed onto the
      front of the queue. */
  function ScheduleChildren(t: Topology, s: FlushState, op: nat, q: seq<nat>): (r: ChildStep)
    requires Fits(t, s) && op < |t.operations|
  {
    var sc := ScanAll(s.scheduled, t.operations[op].outlinks);
    var n := sc.admitted;
    ChildStep(if n == [] then None else Some(n[0]),
              s.(scheduled := sc.marked),
              Deferred(n) + q)
  }

  // ---------------------------------------------------------------------
  // One turn of the inner loop of deg_graph_flush_updates

  /** Tag `op`, run the ID and component handlers of its owners, then
      schedule its children. */
  function Visit(t: Topology, s: FlushState, op: nat, q: seq<nat>): (r: ChildStep)
    requires WellFormed(t) && PoseComponentsPresent(t) && Fits(t, s) && op < |t.operations|
  {
    var s1 := s.(flag := s.flag[op := WithNeedsUpdate(s.flag[op])]);
    var c := t.operations[op].owner;
    var s2 := HandleId(t, s1, t.components[c].owner);
    var (s3, q3) := HandleComponent(t, s2, c, q);
    ScheduleChildren(t, s3, op, q3)
  }

  function VisitTrace(t: Topology, useCow: bool, s: FlushState, op: nat): (r: seq<Event>)
    requires WellFormed(t) && PoseComponentsPresent(t) && (useCow ==> CowComponentsPresent(t)) && Fits(t, s) && op < |t.operations|
  {
    var s1 := s.(flag := s.flag[op := WithNeedsUpdate(s.flag[op])]);
    var c := t.operations[op].owner;
    var s2 := HandleId(t, s1, t.components[c].owner);
    var (s3, q3) := HandleComponent(t, s2, c, []);
    HandleIdTrace(t, s1, t.components[c].owner) + HandleComponentTrace(t, useCow, s2, c) +
    AdmitAll(ScanAll(s3.scheduled, t.operations[op].outlinks).admitted)
  }

  /** A visit and its events, given the states after each of its steps. */
  lemma VisitSteps(t: Topology, useCow: bool, s: FlushState, op: nat, q: seq<nat>,
                   s1: FlushState, s2: FlushState, s3: FlushState, q3: seq<nat>)
    requires WellFormed(t) && PoseComponentsPresent(t) && (useCow ==> CowComponentsPresent(t))
    requires Fits(t, s) && op < |t.operations|
    requires s1 == s.(flag := s.flag[op := WithNeedsUpdate(s.flag[op])])
    requires s2 == HandleId(t, s1, t.components[t.operations[op].owner].owner)
    requires (s3, q3) == HandleComponent(t, s2, t.operations[op].owner, q)
    ensures Visit(t, s, op, q) == ScheduleChildren(t, s3, op, q3)
    ensures VisitTrace(t, useCow, s, op) ==
      HandleIdTrace(t, s1, t.components[t.operations[op].owner].owner) +
      HandleComponentTrace(t, useCow, s2, t.operations[op].owner) +
      AdmitAll(ScanAll(s3.scheduled, t.operations[op].outlinks).admitted)
  {
    assert HandleComponent(t, s2, t.operations[op].owner, []).0 == s3;
  }

  // ---------------------------------------------------------------------
  // graph_clear_func

  /** An operation flag with the "pending update" bits cleared. */
  function ClearPendingBits(f: bv32): (r: bv32)
    ensures r & DIRECTLY_MODIFIED == 0 && r & NEEDS_UPDATE == 0
    ensures r | DIRECTLY_MODIFIED | NEEDS_UPDATE == f | DIRECTLY_MODIFIED | NEEDS_UPDATE
  {
    f & !(DIRECTLY_MODIFIED | NEEDS_UPDATE)
  }
}
