/** Properties of the flush's step functions: what each step function
    changes, field by field. */
module DegFlushProofs {
  import opened DegTypes
  import opened DegFlushSpec

  // ---------------------------------------------------------------------
  // Flag bits

  lemma WithNeedsUpdateIdempotent(f: bv32)
    ensures WithNeedsUpdate(WithNeedsUpdate(f)) == WithNeedsUpdate(f)
    ensures HasNeedsUpdate(WithNeedsUpdate(f))
    ensures HasNeedsUpdate(f) ==> WithNeedsUpdate(f) == f
  {
  }

  // ---------------------------------------------------------------------
  // Tagging a component's operations

  lemma {:induction false} TagPrefixAt(t: Topology, flag: seq<bv32>, ops: seq<nat>, k: nat, i: nat)
    requires |flag| == |t.operations| && k <= |ops| && i < |flag|
    ensures TagPrefix(t, flag, ops, k)[i] ==
      if i in ops[..k] && !SkipsUpstreamFlush(t.operations[i].opcode) then WithNeedsUpdate(flag[i])
      else flag[i]
  {
    if k > 0 {
      TagPrefixAt(t, flag, ops, k - 1, i);
      assert ops[..k] == ops[..k - 1] + [ops[k - 1]];
      WithNeedsUpdateIdempotent(flag[i]);
    }
  }

  /** Tagging sets NEEDS_UPDATE on exactly the listed operations whose
      opcode does not skip upstream flushing, and changes nothing else. */
  lemma TagOperationsAt(t: Topology, flag: seq<bv32>, ops: seq<nat>, i: nat)
    requires |flag| == |t.operations| && i < |flag|
    ensures TagOperations(t, flag, ops)[i] ==
      if i in ops && !SkipsUpstreamFlush(t.operations[i].opcode) then WithNeedsUpdate(flag[i])
      else flag[i]
  {
    TagPrefixAt(t, flag, ops, |ops|, i);
    assert ops[..|ops|] == ops;
  }

  // ---------------------------------------------------------------------
  // Scanning the outgoing relations

  /** Position `k` of `ts` holds the first target not scheduled in `sched`. */
  ghost predicate FirstUnscheduled(sched: seq<bool>, ts: seq<nat>, k: int)
  {
    0 <= k < |ts| && ts[k] < |sched| && !sched[ts[k]] &&
    forall j :: 0 <= j < k ==> ts[j] >= |sched| || sched[ts[j]]
  }

  lemma {:induction false} ScanPrefixFacts(sched: seq<bool>, ts: seq<nat>, i: nat)
    requires i <= |ts|
    ensures var p := ScanPrefix(sched, ts, i);
      (forall j :: 0 <= j < |sched| ==> p.marked[j] == (sched[j] || j in ts[..i])) &&
      (forall x: nat :: x in p.admitted <==> x < |sched| && !sched[x] && x in ts[..i]) &&
      Distinct(p.admitted) &&
      (p.admitted != [] ==> exists k :: k < i && FirstUnscheduled(sched, ts, k) && ts[k] == p.admitted[0])
  {
    if i > 0 {
      ScanPrefixFacts(sched, ts, i - 1);
      var p := ScanPrefix(sched, ts, i - 1);
      var x := ts[i - 1];
      assert ts[..i] == ts[..i - 1] + [x];
      if x < |p.marked| && !p.marked[x] {
        if p.admitted == [] {
          forall j | 0 <= j < i - 1 ensures ts[j] >= |sched| || sched[ts[j]] {
            assert ts[j] in ts[..i - 1];
          }
          assert FirstUnscheduled(sched, ts, i - 1);
        }
      }
    }
  }

  /** flush_schedule_children: every target is scheduled afterwards and
      nothing else changes; the newly scheduled targets are exactly those
      that were unscheduled, each once; the first of them is the first
      unscheduled target in outlink order. */
  lemma ScanAllFacts(sched: seq<bool>, ts: seq<nat>)
    ensures var p := ScanAll(sched, ts);
      p.marked == MarkAll(sched, ts) &&
      (forall x: nat :: x in p.admitted <==> x < |sched| && !sched[x] && x in ts) &&
      Distinct(p.admitted) &&
      (p.admitted != [] ==> exists k :: FirstUnscheduled(sched, ts, k) && ts[k] == p.admitted[0])
  {
    ScanPrefixFacts(sched, ts, |ts|);
    assert ts[..|ts|] == ts;
  }

  // ---------------------------------------------------------------------
  // Admissions

  lemma AdmitAllMembers(ops: seq<nat>)
    ensures forall e :: e in AdmitAll(ops) <==> e.Admitted? && e.op in ops
  {
    forall e ensures e in AdmitAll(ops) <==> e.Admitted? && e.op in ops {
      if e in AdmitAll(ops) {
        var k :| 0 <= k < |ops| && AdmitAll(ops)[k] == e;
        AdmitAllAt(ops, k);
      }
      if e.Admitted? && e.op in ops {
        var k :| 0 <= k < |ops| && ops[k] == e.op;
        AdmitAllAt(ops, k);
      }
    }
  }

  lemma AdmitAllDistinct(ops: seq<nat>)
    requires Distinct(ops)
    ensures Distinct(AdmitAll(ops))
  {
    forall i, j | 0 <= i < j < |ops| ensures AdmitAll(ops)[i] != AdmitAll(ops)[j] {
      AdmitAllAt(ops, i);
      AdmitAllAt(ops, j);
    }
  }

  lemma DistinctConcat<T>(a: seq<T>, b: seq<T>)
    requires Distinct(a) && Distinct(b)
    requires forall x :: x in a ==> x !in b
    ensures Distinct(a + b)
  {
    forall i, j | 0 <= i < j < |a + b| ensures (a + b)[i] != (a + b)[j] {
      if i < |a| && j >= |a| {
        assert (a + b)[i] in a;
        assert (a + b)[j] == b[j - |a|];
      }
    }
  }

  // ---------------------------------------------------------------------
  // What one handler call changes

  /** flush_handle_component_node, field by field: a done component is left
      alone; otherwise it becomes done, its operations are tagged unless
      their opcode skips upstream flushing, and for a bone component the
      pose component is scheduled and its entry pushed on the queue's front
      exactly when the pose component was untouched. */
  lemma HandleComponentEffect(t: Topology, s: FlushState, c: nat, q: seq<nat>)
    requires WellFormed(t) && PoseComponentsPresent(t) && Fits(t, s) && c < |t.components|
    ensures var (r, q') := HandleComponent(t, s, c, q);
      var comp := t.components[c];
      Fits(t, r) &&
      r.scheduled == s.scheduled && r.idDone == s.idDone && r.tagCow == s.tagCow &&
      (s.compDone[c] == StateDone ==> r == s && q' == q) &&
      (s.compDone[c] != StateDone ==>
        (forall i :: 0 <= i < |s.flag| ==>
          r.flag[i] == if i in comp.operations && !SkipsUpstreamFlush(t.operations[i].opcode)
                       then WithNeedsUpdate(s.flag[i]) else s.flag[i]) &&
        (if comp.ctype == Bone && s.compDone[PoseComponent(t, c)] == StateNone
         then r.compDone == s.compDone[c := StateDone][PoseComponent(t, c) := StateScheduled] &&
              q' == [t.components[PoseComponent(t, c)].entry.value] + q
         else r.compDone == s.compDone[c := StateDone] && q' == q))
  {
    if s.compDone[c] != StateDone {
      forall i | 0 <= i < |s.flag|
        ensures TagOperations(t, s.flag, t.components[c].operations)[i] ==
          if i in t.components[c].operations && !SkipsUpstreamFlush(t.operations[i].opcode)
          then WithNeedsUpdate(s.flag[i]) else s.flag[i]
      {
        TagOperationsAt(t, s.flag, t.components[c].operations, i);
      }
    }
  }

  /** A second call of the component handler changes nothing. */
  lemma HandleComponentOnce(t: Topology, s: FlushState, c: nat, q: seq<nat>)
    requires WellFormed(t) && PoseComponentsPresent(t) && Fits(t, s) && c < |t.components|
    ensures var (r, q') := HandleComponent(t, s, c, q);
      Fits(t, r) && HandleComponent(t, r, c, q') == (r, q')
  {
    HandleComponentEffect(t, s, c, q);
  }

  /** flush_handle_id_node: on the first call the ID is marked done and the
      original's recalc bits are merged into the copy-on-write tag; a second
      call changes nothing. Flags, markers and component states are never
      touched. */
  lemma HandleIdEffect(t: Topology, s: FlushState, id: nat)
    requires Fits(t, s) && id < |t.idNodes|
    ensures var r := HandleId(t, s, id);
      Fits(t, r) &&
      r.flag == s.flag && r.scheduled == s.scheduled && r.compDone == s.compDone &&
      r.idDone == s.idDone[id := true] &&
      r.tagCow == (if s.idDone[id] then s.tagCow
                   else s.tagCow[id := MergeRecalcTags(s.tagCow[id], t.idNodes[id].tagOrig)]) &&
      HandleId(t, r, id) == r
  {
    if s.idDone[id] {
      assert s.idDone[id := true] == s.idDone;
    }
  }

  // ---------------------------------------------------------------------
  // One turn of the inner loop

  /** The pose component a visit of an operation of component `c`
      schedules, if any. */
  ghost predicate SchedulesPose(t: Topology, s: FlushState, c: nat)
    requires WellFormed(t) && PoseComponentsPresent(t) && Fits(t, s) && c < |t.components|
  {
    s.compDone[c] != StateDone && t.components[c].ctype == Bone &&
    s.compDone[PoseComponent(t, c)] == StateNone
  }

  /** A visit of operation `x`, field by field. */
  lemma VisitEffect(t: Topology, s: FlushState, x: nat, q: seq<nat>)
    requires WellFormed(t) && PoseComponentsPresent(t) && Fits(t, s) && x < |t.operations|
    ensures var r := Visit(t, s, x, q);
      var c := t.operations[x].owner;
      var id := t.components[c].owner;
      var sc := ScanAll(s.scheduled, t.operations[x].outlinks);
      Fits(t, r.state) &&
      r.state.scheduled == sc.marked &&
      r.state.idDone == s.idDone[id := true] &&
      r.state.tagCow == (if s.idDone[id] then s.tagCow
                         else s.tagCow[id := MergeRecalcTags(s.tagCow[id], t.idNodes[id].tagOrig)]) &&
      (forall i :: 0 <= i < |s.flag| ==>
        r.state.flag[i] ==
          if i == x || (s.compDone[c] != StateDone && i in t.components[c].operations &&
                        !SkipsUpstreamFlush(t.operations[i].opcode))
          then WithNeedsUpdate(s.flag[i]) else s.flag[i]) &&
      r.state.compDone == (if s.compDone[c] == StateDone then s.compDone
                           else if SchedulesPose(t, s, c)
                           then s.compDone[c := StateDone][PoseComponent(t, c) := StateScheduled]
                           else s.compDone[c := StateDone]) &&
      r.next == (if sc.admitted == [] then None else Some(sc.admitted[0])) &&
      r.queue == Deferred(sc.admitted) +
                 (if SchedulesPose(t, s, c) then [t.components[PoseComponent(t, c)].entry.value] + q else q)
  {
    var s1 := s.(flag := s.flag[x := WithNeedsUpdate(s.flag[x])]);
    var c := t.operations[x].owner;
    var id := t.components[c].owner;
    HandleIdEffect(t, s1, id);
    var s2 := HandleId(t, s1, id);
    HandleComponentEffect(t, s2, c, q);
    forall i | 0 <= i < |s.flag|
      ensures Visit(t, s, x, q).state.flag[i] ==
          if i == x || (s.compDone[c] != StateDone && i in t.components[c].operations &&
                        !SkipsUpstreamFlush(t.operations[i].opcode))
          then WithNeedsUpdate(s.flag[i]) else s.flag[i]
    {
      WithNeedsUpdateIdempotent(s.flag[i]);
    }
  }

  /** What a visit of operation `x` hands on: the first newly scheduled
      child, and the queue with the other new children and the pose
      component's entry, if it is scheduled, pushed on its front. */
  lemma VisitQueue(t: Topology, s: FlushState, x: nat, q: seq<nat>)
    requires WellFormed(t) && PoseComponentsPresent(t) && Fits(t, s) && x < |t.operations|
    ensures var r := Visit(t, s, x, q);
      var c := t.operations[x].owner;
      var n := ScanAll(s.scheduled, t.operations[x].outlinks).admitted;
      r.next == (if n == [] then None else Some(n[0])) &&
      r.queue == Deferred(n) +
                 (if SchedulesPose(t, s, c) then [t.components[PoseComponent(t, c)].entry.value] + q else q)
  {
    VisitEffect(t, s, x, q);
  }

  /** A visit schedules every child it admits, and the pose component when
      it schedules one. */
  lemma VisitMarks(t: Topology, s: FlushState, x: nat, q: seq<nat>)
    requires WellFormed(t) && PoseComponentsPresent(t) && Fits(t, s) && x < |t.operations|
    ensures var r := Visit(t, s, x, q).state;
      var c := t.operations[x].owner;
      |r.scheduled| == |s.scheduled| && |r.compDone| == |s.compDone| &&
      r.scheduled == ScanAll(s.scheduled, t.operations[x].outlinks).marked &&
      (SchedulesPose(t, s, c) ==> r.compDone[PoseComponent(t, c)] == StateScheduled)
  {
    VisitEffect(t, s, x, q);
  }

  /** The operations pushed on the queue are the newly scheduled ones other
      than the first. */
  lemma DeferredMembers(n: seq<nat>)
    requires Distinct(n)
    ensures forall y :: y in Deferred(n) <==> y in n && y != n[0]
  {
    if n != [] {
      ReverseMembers(n[1..]);
      forall y | y in n && y != n[0] ensures y in n[1..] {
        var k :| 0 <= k < |n| && n[k] == y;
        assert n[1..][k - 1] == y;
      }
      forall y | y in n[1..] ensures y != n[0] {
        var k :| 0 <= k < |n[1..]| && n[1..][k] == y;
        assert n[k + 1] == y;
      }
    }
  }

  /** A component's state only moves forward: from NONE to anything, from
      SCHEDULED to DONE, or not at all. */
  predicate Advances(a: ComponentState, b: ComponentState)
  {
    a == b || a == StateNone || (a == StateScheduled && b == StateDone)
  }

  /** A visit never takes anything back: scheduled markers, done markers and
      NEEDS_UPDATE stay set, and component states only advance. */
  lemma VisitMonotone(t: Topology, s: FlushState, x: nat, q: seq<nat>)
    requires WellFormed(t) && PoseComponentsPresent(t) && Fits(t, s) && x < |t.operations|
    ensures var r := Visit(t, s, x, q).state;
      Fits(t, r) &&
      (forall i :: 0 <= i < |s.scheduled| && s.scheduled[i] ==> r.scheduled[i]) &&
      (forall id :: 0 <= id < |s.idDone| && s.idDone[id] ==> r.idDone[id]) &&
      (forall i :: 0 <= i < |s.flag| ==> r.flag[i] == s.flag[i] || r.flag[i] == WithNeedsUpdate(s.flag[i])) &&
      (forall i :: 0 <= i < |s.flag| && HasNeedsUpdate(s.flag[i]) ==> HasNeedsUpdate(r.flag[i])) &&
      (forall c :: 0 <= c < |s.compDone| ==> Advances(s.compDone[c], r.compDone[c]))
  {
    VisitEffect(t, s, x, q);
    ScanAllFacts(s.scheduled, t.operations[x].outlinks);
    forall i | 0 <= i < |s.flag| ensures HasNeedsUpdate(s.flag[i]) ==> HasNeedsUpdate(WithNeedsUpdate(s.flag[i])) {
      WithNeedsUpdateIdempotent(s.flag[i]);
    }
  }
}
