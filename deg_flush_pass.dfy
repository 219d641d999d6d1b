/** The invariant of the traversal loop of deg_graph_flush_updates, its
    preservation by one visit, the measure that makes the loops end, and
    what holds once the queue is empty. */
module DegFlushPass {
  import opened DegTypes
  import opened DegFlushSpec
  import opened DegFlushProofs

  /** The graph facts the pass relies on. */
  ghost predicate GraphOk(t: Topology, useCow: bool)
  {
    WellFormed(t) && PoseComponentsPresent(t) && (useCow ==> CowComponentsPresent(t))
  }

  /** Operation `i` is waiting in the queue or is the one being handled. */
  ghost predicate InWork(q: seq<nat>, cur: Option<nat>, i: nat)
  {
    i in q || cur == Some(i)
  }

  ghost predicate WorkInRange(t: Topology, q: seq<nat>, cur: Option<nat>)
  {
    (forall k :: 0 <= k < |q| ==> q[k] < |t.operations|) &&
    (cur.Some? ==> cur.value < |t.operations|)
  }

  ghost predicate OutlinksScheduled(t: Topology, s: FlushState, i: nat)
    requires Fits(t, s) && i < |t.operations|
  {
    forall k :: 0 <= k < |t.operations[i].outlinks| ==>
      t.operations[i].outlinks[k] < |s.scheduled| && s.scheduled[t.operations[i].outlinks[k]]
  }

  /** Operation `i` has been visited: it is tagged, its component has been
      handled and all its children are scheduled. */
  ghost predicate Processed(t: Topology, s: FlushState, i: nat)
    requires WellFormed(t) && Fits(t, s) && i < |t.operations|
  {
    HasNeedsUpdate(s.flag[i]) && s.compDone[t.operations[i].owner] == StateDone &&
    OutlinksScheduled(t, s, i)
  }

  /** Every scheduled operation is still to be visited or has been. */
  ghost predicate Closed(t: Topology, s: FlushState, q: seq<nat>, cur: Option<nat>)
    requires WellFormed(t) && Fits(t, s)
  {
    forall i :: 0 <= i < |t.operations| && s.scheduled[i] ==> InWork(q, cur, i) || Processed(t, s, i)
  }

  ghost predicate EntriesScheduled(t: Topology, entries: set<nat>, s: FlushState)
    requires Fits(t, s)
  {
    forall e :: e in entries ==> e < |t.operations| && s.scheduled[e]
  }

  /** Each flag is its value at the start of the pass, or that value with
      NEEDS_UPDATE added inside a handled component. */
  ghost predicate FlagsGrown(t: Topology, f0: seq<bv32>, s: FlushState)
    requires WellFormed(t) && Fits(t, s)
  {
    |f0| == |t.operations| &&
    forall i :: 0 <= i < |t.operations| ==>
      s.flag[i] == f0[i] ||
      (s.flag[i] == WithNeedsUpdate(f0[i]) && s.compDone[t.operations[i].owner] == StateDone)
  }

  /** Every operation of component `c` that takes upstream tags is tagged. */
  ghost predicate SiblingsTagged(t: Topology, s: FlushState, c: nat)
    requires WellFormed(t) && Fits(t, s) && c < |t.components|
  {
    forall k :: 0 <= k < |t.components[c].operations| &&
                !SkipsUpstreamFlush(t.operations[t.components[c].operations[k]].opcode) ==>
      HasNeedsUpdate(s.flag[t.components[c].operations[k]])
  }

  /** What handling component `c` has left behind. */
  ghost predicate ComponentHandled(t: Topology, s: FlushState, c: nat)
    requires WellFormed(t) && PoseComponentsPresent(t) && Fits(t, s) && c < |t.components|
  {
    s.idDone[t.components[c].owner] && SiblingsTagged(t, s, c) &&
    (t.components[c].ctype == Bone ==> s.compDone[PoseComponent(t, c)] != StateNone)
  }

  ghost predicate DoneHandled(t: Topology, s: FlushState)
    requires WellFormed(t) && PoseComponentsPresent(t) && Fits(t, s)
  {
    forall c :: 0 <= c < |t.components| && s.compDone[c] == StateDone ==> ComponentHandled(t, s, c)
  }

  /** A scheduled component's entry operation is still to be visited. */
  ghost predicate ScheduledPending(t: Topology, s: FlushState, q: seq<nat>, cur: Option<nat>)
    requires Fits(t, s)
  {
    forall c :: 0 <= c < |t.components| && s.compDone[c] == StateScheduled ==>
      t.components[c].entry.Some? && InWork(q, cur, t.components[c].entry.value)
  }

  /** Each copy-on-write tag is its value at the start of the pass, merged
      with the original's recalc bits once the ID has been handled. */
  ghost predicate TagsMerged(t: Topology, tags0: seq<bv32>, s: FlushState)
    requires Fits(t, s)
  {
    |tags0| == |t.idNodes| &&
    forall id :: 0 <= id < |t.idNodes| ==>
      s.tagCow[id] == if s.idDone[id] then MergeRecalcTags(tags0[id], t.idNodes[id].tagOrig) else tags0[id]
  }

  /** The event `e` has happened in a pass that has reached state `s`. */
  ghost predicate Occurred(t: Topology, useCow: bool, s: FlushState, e: Event)
    requires GraphOk(t, useCow) && Fits(t, s)
  {
    match e
    case Admitted(op) => op < |s.scheduled| && s.scheduled[op]
    case EditorsIdUpdate(id) => id < |s.idDone| && s.idDone[id] && t.idNodes[id].cowExpanded
    case RecalcTag(id) => id < |s.idDone| && s.idDone[id]
    case RecalcDataTag(id) => id < |s.idDone| && s.idDone[id]
    case CowTagUpdate(c, cow) =>
      useCow && c < |s.compDone| && t.components[c].dependsOnCow && s.compDone[c] == StateDone &&
      cow == CowComponent(t, c)
  }

  /** The pass's events so far are those that have happened, each once. */
  ghost predicate TraceMatches(t: Topology, useCow: bool, s: FlushState, tr: seq<Event>)
    requires GraphOk(t, useCow) && Fits(t, s)
  {
    Distinct(tr) && forall e :: e in tr <==> Occurred(t, useCow, s, e)
  }

  /** The invariant of the traversal: `entries` are the entry tags, `f0`
      and `tags0` the flags and copy-on-write tags at the start of the pass,
      `q` the queue, `cur` the operation being handled and `tr` the pass's
      events. */
  ghost predicate PassInv(t: Topology, useCow: bool, entries: set<nat>, f0: seq<bv32>, tags0: seq<bv32>,
                          s: FlushState, q: seq<nat>, cur: Option<nat>, tr: seq<Event>)
  {
    GraphOk(t, useCow) && Fits(t, s) && WorkInRange(t, q, cur) &&
    EntriesScheduled(t, entries, s) && Closed(t, s, q, cur) && FlagsGrown(t, f0, s) &&
    DoneHandled(t, s) && ScheduledPending(t, s, q, cur) && TagsMerged(t, tags0, s) &&
    TraceMatches(t, useCow, s, tr)
  }

  // ---------------------------------------------------------------------
  // One visit keeps each part of the invariant

  /** Indices below `m` stay below `m` when two sequences are joined. */
  lemma ConcatBelow(a: seq<nat>, b: seq<nat>, m: nat)
    requires forall k :: 0 <= k < |a| ==> a[k] < m
    requires forall k :: 0 <= k < |b| ==> b[k] < m
    ensures forall k :: 0 <= k < |a + b| ==> (a + b)[k] < m
  {
  }

  lemma VisitKeepsWork(t: Topology, s: FlushState, x: nat, q: seq<nat>)
    requires WellFormed(t) && PoseComponentsPresent(t) && Fits(t, s) && WorkInRange(t, q, Some(x))
    ensures var r := Visit(t, s, x, q); WorkInRange(t, r.queue, r.next)
  {
    var c := t.operations[x].owner;
    var n := ScanAll(s.scheduled, t.operations[x].outlinks).admitted;
    VisitQueue(t, s, x, q);
    ScanAllFacts(s.scheduled, t.operations[x].outlinks);
    DeferredMembers(n);
    var d := Deferred(n);
    forall k | 0 <= k < |d| ensures d[k] < |t.operations| {
      assert d[k] in d;
    }
    if n != [] {
      assert n[0] in n;
    }
    if SchedulesPose(t, s, c) {
      var pose := PoseComponent(t, c);
      ConcatBelow([t.components[pose].entry.value], q, |t.operations|);
      ConcatBelow(d, [t.components[pose].entry.value] + q, |t.operations|);
    } else {
      ConcatBelow(d, q, |t.operations|);
    }
  }

  lemma VisitKeepsEntries(t: Topology, entries: set<nat>, s: FlushState, x: nat, q: seq<nat>)
    requires WellFormed(t) && PoseComponentsPresent(t) && Fits(t, s) && x < |t.operations|
    requires EntriesScheduled(t, entries, s)
    ensures EntriesScheduled(t, entries, Visit(t, s, x, q).state)
  {
    VisitMonotone(t, s, x, q);
  }

  /** What was processed stays processed. */
  lemma VisitKeepsProcessed(t: Topology, s: FlushState, x: nat, q: seq<nat>, i: nat)
    requires WellFormed(t) && PoseComponentsPresent(t) && Fits(t, s) && x < |t.operations|
    requires i < |t.operations| && Processed(t, s, i)
    ensures Processed(t, Visit(t, s, x, q).state, i)
  {
    VisitMonotone(t, s, x, q);
  }

  /** The visited operation is processed afterwards. */
  lemma VisitProcesses(t: Topology, s: FlushState, x: nat, q: seq<nat>)
    requires WellFormed(t) && PoseComponentsPresent(t) && Fits(t, s) && x < |t.operations|
    ensures Processed(t, Visit(t, s, x, q).state, x)
  {
    VisitEffect(t, s, x, q);
    WithNeedsUpdateIdempotent(s.flag[x]);
    var ts := t.operations[x].outlinks;
    ScanAllFacts(s.scheduled, ts);
    forall k | 0 <= k < |ts| ensures Visit(t, s, x, q).state.scheduled[ts[k]] {
      assert ts[k] in ts;
    }
  }

  /** Visiting an operation again once it has been processed changes
      nothing and calls nothing: the pose entry the bone rule pushes without
      scheduling it can be reached twice, and the second visit is idle. */
  lemma RevisitIdle(t: Topology, useCow: bool, s: FlushState, x: nat, q: seq<nat>)
    requires GraphOk(t, useCow) && Fits(t, s) && x < |t.operations|
    requires DoneHandled(t, s) && Processed(t, s, x)
    ensures Visit(t, s, x, q) == ChildStep(None, s, q)
    ensures VisitTrace(t, useCow, s, x) == []
  {
    var c := t.operations[x].owner;
    var ts := t.operations[x].outlinks;
    assert ComponentHandled(t, s, c);
    WithNeedsUpdateIdempotent(s.flag[x]);
    assert s.flag[x := WithNeedsUpdate(s.flag[x])] == s.flag;
    ScanAllFacts(s.scheduled, ts);
    var sc := ScanAll(s.scheduled, ts);
    assert sc.admitted == [];
    forall i | 0 <= i < |s.scheduled| ensures sc.marked[i] == s.scheduled[i] {
      if i in ts {
        var k :| 0 <= k < |ts| && ts[k] == i;
      }
    }
    assert sc.marked == s.scheduled;
    assert Deferred(sc.admitted) + q == q;
  }

  lemma VisitKeepsClosed(t: Topology, s: FlushState, x: nat, q: seq<nat>)
    requires WellFormed(t) && PoseComponentsPresent(t) && Fits(t, s) && WorkInRange(t, q, Some(x))
    requires Closed(t, s, q, Some(x))
    ensures var r := Visit(t, s, x, q); Closed(t, r.state, r.queue, r.next)
  {
    var r := Visit(t, s, x, q);
    var ts := t.operations[x].outlinks;
    var n := ScanAll(s.scheduled, ts).admitted;
    VisitEffect(t, s, x, q);
    ScanAllFacts(s.scheduled, ts);
    DeferredMembers(n);
    forall i | 0 <= i < |t.operations| && r.state.scheduled[i]
      ensures InWork(r.queue, r.next, i) || Processed(t, r.state, i)
    {
      if i == x {
        VisitProcesses(t, s, x, q);
      } else if s.scheduled[i] {
        if i in q {
          assert i in r.queue;
        } else {
          VisitKeepsProcessed(t, s, x, q, i);
        }
      } else {
        assert i in n;
        if i != n[0] {
          assert i in r.queue;
        }
      }
    }
  }

  lemma VisitKeepsFlags(t: Topology, f0: seq<bv32>, s: FlushState, x: nat, q: seq<nat>)
    requires WellFormed(t) && PoseComponentsPresent(t) && Fits(t, s) && x < |t.operations|
    requires FlagsGrown(t, f0, s)
    ensures FlagsGrown(t, f0, Visit(t, s, x, q).state)
  {
    var r := Visit(t, s, x, q).state;
    var c := t.operations[x].owner;
    VisitEffect(t, s, x, q);
    VisitMonotone(t, s, x, q);
    forall i | 0 <= i < |t.operations|
      ensures r.flag[i] == f0[i] ||
              (r.flag[i] == WithNeedsUpdate(f0[i]) && r.compDone[t.operations[i].owner] == StateDone)
    {
      WithNeedsUpdateIdempotent(f0[i]);
      if r.flag[i] != s.flag[i] {
        if i != x {
          var k :| 0 <= k < |t.components[c].operations| && t.components[c].operations[k] == i;
        }
        assert t.operations[i].owner == c;
      }
    }
  }

  lemma VisitKeepsDoneHandled(t: Topology, s: FlushState, x: nat, q: seq<nat>)
    requires WellFormed(t) && PoseComponentsPresent(t) && Fits(t, s) && x < |t.operations|
    requires DoneHandled(t, s)
    ensures DoneHandled(t, Visit(t, s, x, q).state)
  {
    var r := Visit(t, s, x, q).state;
    var c := t.operations[x].owner;
    VisitEffect(t, s, x, q);
    VisitMonotone(t, s, x, q);
    forall d | 0 <= d < |t.components| && r.compDone[d] == StateDone
      ensures ComponentHandled(t, r, d)
    {
      if s.compDone[d] == StateDone {
        assert ComponentHandled(t, s, d);
        if t.components[d].ctype == Bone {
          assert Advances(s.compDone[PoseComponent(t, d)], r.compDone[PoseComponent(t, d)]);
        }
      } else {
        assert d == c;
        forall k | 0 <= k < |t.components[c].operations| &&
                   !SkipsUpstreamFlush(t.operations[t.components[c].operations[k]].opcode)
          ensures HasNeedsUpdate(r.flag[t.components[c].operations[k]])
        {
          WithNeedsUpdateIdempotent(s.flag[t.components[c].operations[k]]);
        }
      }
    }
  }

  lemma VisitKeepsScheduledPending(t: Topology, s: FlushState, x: nat, q: seq<nat>)
    requires WellFormed(t) && PoseComponentsPresent(t) && Fits(t, s) && x < |t.operations|
    requires ScheduledPending(t, s, q, Some(x))
    ensures var r := Visit(t, s, x, q); ScheduledPending(t, r.state, r.queue, r.next)
  {
    var r := Visit(t, s, x, q);
    var c := t.operations[x].owner;
    VisitEffect(t, s, x, q);
    forall d | 0 <= d < |t.components| && r.state.compDone[d] == StateScheduled
      ensures t.components[d].entry.Some? && InWork(r.queue, r.next, t.components[d].entry.value)
    {
      if s.compDone[d] == StateScheduled {
        assert d != c;
        var e := t.components[d].entry.value;
        assert e != x;
        assert e in q;
      }
    }
  }

  lemma VisitKeepsTags(t: Topology, tags0: seq<bv32>, s: FlushState, x: nat, q: seq<nat>)
    requires WellFormed(t) && PoseComponentsPresent(t) && Fits(t, s) && x < |t.operations|
    requires TagsMerged(t, tags0, s)
    ensures TagsMerged(t, tags0, Visit(t, s, x, q).state)
  {
    VisitEffect(t, s, x, q);
  }

  /** What happened stays happened. */
  lemma VisitKeepsOccurred(t: Topology, useCow: bool, s: FlushState, x: nat, q: seq<nat>, e: Event)
    requires GraphOk(t, useCow) && Fits(t, s) && x < |t.operations|
    requires Occurred(t, useCow, s, e)
    ensures Fits(t, Visit(t, s, x, q).state) && Occurred(t, useCow, Visit(t, s, x, q).state, e)
  {
    VisitMonotone(t, s, x, q);
  }

  /** A visit's events: the ID handler's, the component handler's, then the
      admissions of the newly scheduled children. */
  lemma VisitTraceParts(t: Topology, useCow: bool, s: FlushState, x: nat)
    requires GraphOk(t, useCow) && Fits(t, s) && x < |t.operations|
    ensures var c := t.operations[x].owner;
      VisitTrace(t, useCow, s, x) ==
        HandleIdTrace(t, s, t.components[c].owner) + HandleComponentTrace(t, useCow, s, c) +
        AdmitAll(ScanAll(s.scheduled, t.operations[x].outlinks).admitted)
  {
    var s1 := s.(flag := s.flag[x := WithNeedsUpdate(s.flag[x])]);
    var c := t.operations[x].owner;
    var id := t.components[c].owner;
    HandleIdEffect(t, s1, id);
    HandleComponentEffect(t, HandleId(t, s1, id), c, []);
  }

  /** The handlers' events are pairwise distinct and are not admissions. */
  lemma HandlerTraceDistinct(t: Topology, useCow: bool, s: FlushState, c: nat)
    requires GraphOk(t, useCow) && Fits(t, s) && c < |t.components|
    ensures var ht := HandleIdTrace(t, s, t.components[c].owner) + HandleComponentTrace(t, useCow, s, c);
      Distinct(ht) && forall e :: e in ht ==> !e.Admitted?
  {
    DistinctConcat(HandleIdTrace(t, s, t.components[c].owner), HandleComponentTrace(t, useCow, s, c));
  }

  /** The ID handler's events are those of the ID that newly happen. */
  lemma IdTraceNew(t: Topology, useCow: bool, s: FlushState, x: nat, q: seq<nat>, e: Event)
    requires GraphOk(t, useCow) && Fits(t, s) && x < |t.operations|
    requires e.EditorsIdUpdate? || e.RecalcTag? || e.RecalcDataTag?
    ensures var r := Visit(t, s, x, q).state;
      Fits(t, r) &&
      (e in HandleIdTrace(t, s, t.components[t.operations[x].owner].owner) <==>
       Occurred(t, useCow, r, e) && !Occurred(t, useCow, s, e))
  {
    VisitEffect(t, s, x, q);
  }

  /** The component handler's event is the copy-on-write update that newly
      happens. */
  lemma ComponentTraceNew(t: Topology, useCow: bool, s: FlushState, x: nat, q: seq<nat>, e: Event)
    requires GraphOk(t, useCow) && Fits(t, s) && x < |t.operations|
    requires e.CowTagUpdate?
    ensures var r := Visit(t, s, x, q).state;
      Fits(t, r) &&
      (e in HandleComponentTrace(t, useCow, s, t.operations[x].owner) <==>
       Occurred(t, useCow, r, e) && !Occurred(t, useCow, s, e))
  {
    var c := t.operations[x].owner;
    VisitEffect(t, s, x, q);
    if s.compDone[c] != StateDone && t.components[c].ctype == Bone {
      assert PoseComponent(t, c) != c;
    }
  }

  /** The admissions are those of the newly scheduled children. */
  lemma AdmissionsNew(t: Topology, useCow: bool, s: FlushState, x: nat, q: seq<nat>, e: Event)
    requires GraphOk(t, useCow) && Fits(t, s) && x < |t.operations|
    requires e.Admitted?
    ensures var r := Visit(t, s, x, q).state;
      Fits(t, r) &&
      (e in AdmitAll(ScanAll(s.scheduled, t.operations[x].outlinks).admitted) <==>
       Occurred(t, useCow, r, e) && !Occurred(t, useCow, s, e))
  {
    var ts := t.operations[x].outlinks;
    VisitEffect(t, s, x, q);
    ScanAllFacts(s.scheduled, ts);
    AdmitAllMembers(ScanAll(s.scheduled, ts).admitted);
  }

  /** The events of one visit are the ones that newly happen, each once:
      the ID handler's calls when the ID is first reached, the component's
      copy-on-write update when it is first handled, and one admission per
      newly scheduled child. */
  lemma VisitTraceNew(t: Topology, useCow: bool, s: FlushState, x: nat, q: seq<nat>)
    requires GraphOk(t, useCow) && Fits(t, s) && x < |t.operations|
    ensures var r := Visit(t, s, x, q).state;
      var vt := VisitTrace(t, useCow, s, x);
      Fits(t, r) && Distinct(vt) &&
      forall e :: e in vt <==> Occurred(t, useCow, r, e) && !Occurred(t, useCow, s, e)
  {
    var r := Visit(t, s, x, q).state;
    var c := t.operations[x].owner;
    var ts := t.operations[x].outlinks;
    var n := ScanAll(s.scheduled, ts).admitted;
    var it := HandleIdTrace(t, s, t.components[c].owner);
    var ct := HandleComponentTrace(t, useCow, s, c);
    VisitMonotone(t, s, x, q);
    ScanAllFacts(s.scheduled, ts);
    AdmitAllMembers(n);
    AdmitAllDistinct(n);
    VisitTraceParts(t, useCow, s, x);
    HandlerTraceDistinct(t, useCow, s, c);
    DistinctConcat(it + ct, AdmitAll(n));
    forall e ensures e in it + ct + AdmitAll(n) <==> Occurred(t, useCow, r, e) && !Occurred(t, useCow, s, e) {
      if e.Admitted? {
        AdmissionsNew(t, useCow, s, x, q, e);
      } else if e.CowTagUpdate? {
        ComponentTraceNew(t, useCow, s, x, q, e);
      } else {
        IdTraceNew(t, useCow, s, x, q, e);
      }
    }
  }

  lemma VisitKeepsTrace(t: Topology, useCow: bool, s: FlushState, x: nat, q: seq<nat>, tr: seq<Event>)
    requires GraphOk(t, useCow) && Fits(t, s) && x < |t.operations|
    requires TraceMatches(t, useCow, s, tr)
    ensures Fits(t, Visit(t, s, x, q).state) &&
            TraceMatches(t, useCow, Visit(t, s, x, q).state, tr + VisitTrace(t, useCow, s, x))
  {
    var r := Visit(t, s, x, q).state;
    var vt := VisitTrace(t, useCow, s, x);
    VisitTraceNew(t, useCow, s, x, q);
    DistinctConcat(tr, vt);
    forall e ensures e in tr + vt <==> Occurred(t, useCow, r, e) {
      if e in tr {
        VisitKeepsOccurred(t, useCow, s, x, q, e);
      }
    }
  }

  // ---------------------------------------------------------------------
  // The loops

  /** The invariant once the entry operations are queued: nothing handled
      yet, every component untouched, exactly the entries scheduled and
      admitted, each once. */
  lemma PassStart(t: Topology, useCow: bool, entries: set<nat>, s: FlushState, added: seq<nat>)
    requires GraphOk(t, useCow) && Fits(t, s)
    requires forall i :: 0 <= i < |t.operations| ==> (s.scheduled[i] <==> i in entries)
    requires forall c :: 0 <= c < |t.components| ==> s.compDone[c] == StateNone
    requires forall id :: 0 <= id < |t.idNodes| ==> !s.idDone[id]
    requires forall e :: e in entries ==> e < |t.operations|
    requires Distinct(added) && forall x :: x in added <==> x in entries
    ensures PassInv(t, useCow, entries, s.flag, s.tagCow, s, added, None, AdmitAll(added))
  {
    AdmitAllMembers(added);
    AdmitAllDistinct(added);
    forall e ensures e in AdmitAll(added) <==> Occurred(t, useCow, s, e) {
    }
    forall k | 0 <= k < |added| ensures added[k] < |t.operations| {
      assert added[k] in added;
    }
  }

  /** Taking the front of the queue as the operation to handle. */
  lemma PassPop(t: Topology, useCow: bool, entries: set<nat>, f0: seq<bv32>, tags0: seq<bv32>,
                s: FlushState, q: seq<nat>, tr: seq<Event>)
    requires PassInv(t, useCow, entries, f0, tags0, s, q, None, tr) && q != []
    ensures PassInv(t, useCow, entries, f0, tags0, s, q[1..], Some(q[0]), tr)
  {
    assert forall i :: i in q <==> i == q[0] || i in q[1..] by {
      assert q == [q[0]] + q[1..];
    }
  }

  /** One turn of the inner loop keeps the invariant. */
  lemma PassVisit(t: Topology, useCow: bool, entries: set<nat>, f0: seq<bv32>, tags0: seq<bv32>,
                  s: FlushState, q: seq<nat>, x: nat, tr: seq<Event>)
    requires PassInv(t, useCow, entries, f0, tags0, s, q, Some(x), tr)
    ensures var r := Visit(t, s, x, q);
      PassInv(t, useCow, entries, f0, tags0, r.state, r.queue, r.next, tr + VisitTrace(t, useCow, s, x))
  {
    VisitKeepsWork(t, s, x, q);
    VisitKeepsEntries(t, entries, s, x, q);
    VisitKeepsClosed(t, s, x, q);
    VisitKeepsFlags(t, f0, s, x, q);
    VisitKeepsDoneHandled(t, s, x, q);
    VisitKeepsScheduledPending(t, s, x, q);
    VisitKeepsTags(t, tags0, s, x, q);
    VisitKeepsTrace(t, useCow, s, x, q, tr);
  }

  /** A node the pass can still use up: an unscheduled operation or an
      untouched component. */
  datatype Node = OpNode(op: nat) | CompNode(comp: nat)

  ghost function Remaining(s: FlushState): (r: set<Node>)
  {
    (set i | 0 <= i < |s.scheduled| && !s.scheduled[i] :: OpNode(i)) +
    (set c | 0 <= c < |s.compDone| && s.compDone[c] == StateNone :: CompNode(c))
  }

  /** A visit never adds to what remains; it uses something up whenever it
      continues with a child or pushes onto the queue, and otherwise leaves
      the queue as it was. */
  lemma VisitProgress(t: Topology, s: FlushState, x: nat, q: seq<nat>)
    requires WellFormed(t) && PoseComponentsPresent(t) && Fits(t, s) && x < |t.operations|
    ensures var r := Visit(t, s, x, q);
      Remaining(r.state) <= Remaining(s) &&
      (Remaining(r.state) == Remaining(s) ==> r.next == None && r.queue == q)
  {
    var r := Visit(t, s, x, q).state;
    var c := t.operations[x].owner;
    var ts := t.operations[x].outlinks;
    var n := ScanAll(s.scheduled, ts).admitted;
    VisitMonotone(t, s, x, q);
    RemainingMonotone(s, r);
    VisitQueue(t, s, x, q);
    if n != [] {
      VisitMarks(t, s, x, q);
      ScanAllFacts(s.scheduled, ts);
      assert n[0] in n;
      RemainingDrops(s, r, OpNode(n[0]));
    } else if SchedulesPose(t, s, c) {
      VisitMarks(t, s, x, q);
      RemainingDrops(s, r, CompNode(PoseComponent(t, c)));
    }
  }

  /** Scheduled markers that stay set and component states that only
      advance never add to what remains. */
  lemma RemainingMonotone(s: FlushState, r: FlushState)
    requires |r.scheduled| == |s.scheduled| && |r.compDone| == |s.compDone|
    requires forall i :: 0 <= i < |s.scheduled| && s.scheduled[i] ==> r.scheduled[i]
    requires forall c :: 0 <= c < |s.compDone| ==> Advances(s.compDone[c], r.compDone[c])
    ensures Remaining(r) <= Remaining(s)
  {
  }

  /** What remains shrinks when one of its nodes is used up. */
  lemma RemainingDrops(s: FlushState, r: FlushState, nd: Node)
    requires Remaining(r) <= Remaining(s)
    requires match nd
      case OpNode(i) => i < |s.scheduled| && !s.scheduled[i] && i < |r.scheduled| && r.scheduled[i]
      case CompNode(c) => c < |s.compDone| && s.compDone[c] == StateNone && c < |r.compDone| && r.compDone[c] != StateNone
    ensures Remaining(r) < Remaining(s)
  {
    assert nd in Remaining(s) && nd !in Remaining(r);
  }

  /** One turn of the inner loop, stated for the state, queue and next
      operation it produces: the invariant holds again, and what remains
      shrinks unless the loop ends with the queue as it was. */
  lemma PassStep(t: Topology, useCow: bool, entries: set<nat>, f0: seq<bv32>, tags0: seq<bv32>,
                 s: FlushState, q: seq<nat>, x: nat, tr: seq<Event>,
                 s': FlushState, q': seq<nat>, next: Option<nat>)
    requires PassInv(t, useCow, entries, f0, tags0, s, q, Some(x), tr)
    requires ChildStep(next, s', q') == Visit(t, s, x, q)
    ensures PassInv(t, useCow, entries, f0, tags0, s', q', next, tr + VisitTrace(t, useCow, s, x))
    ensures Remaining(s') < Remaining(s) || (Remaining(s') == Remaining(s) && next == None && q' == q)
  {
    PassVisit(t, useCow, entries, f0, tags0, s, q, x, tr);
    VisitProgress(t, s, x, q);
  }

  // ---------------------------------------------------------------------
  // Once the queue is empty

  /** A path along outgoing relations. */
  ghost predicate IsPath(t: Topology, p: seq<nat>)
  {
    |p| > 0 && (forall k :: 0 <= k < |p| ==> p[k] < |t.operations|) &&
    forall k :: 0 <= k < |p| - 1 ==> p[k + 1] in t.operations[p[k]].outlinks
  }

  /** Operation `i` is an entry operation or is reachable from one. */
  ghost predicate Reachable(t: Topology, entries: set<nat>, i: nat)
  {
    exists p :: IsPath(t, p) && p[0] in entries && p[|p| - 1] == i
  }

  /** Scheduled markers closed under outgoing relations contain everything
      reachable from a scheduled operation. */
  lemma {:induction false} ClosedReach(t: Topology, s: FlushState, p: seq<nat>)
    requires WellFormed(t) && Fits(t, s) && IsPath(t, p) && s.scheduled[p[0]]
    requires forall i :: 0 <= i < |t.operations| && s.scheduled[i] ==> OutlinksScheduled(t, s, i)
    ensures s.scheduled[p[|p| - 1]]
  {
    if |p| > 1 {
      var p' := p[..|p| - 1];
      assert IsPath(t, p');
      ClosedReach(t, s, p');
      var last := p[|p| - 2];
      assert p[(|p| - 2) + 1] in t.operations[last].outlinks;
      var k :| 0 <= k < |t.operations[last].outlinks| && t.operations[last].outlinks[k] == p[|p| - 1];
    }
  }

  /** With nothing left in the work, every scheduled operation has been
      processed. */
  lemma EndProcessed(t: Topology, s: FlushState)
    requires WellFormed(t) && Fits(t, s) && Closed(t, s, [], None)
    ensures forall i :: 0 <= i < |t.operations| && s.scheduled[i] ==> Processed(t, s, i)
  {
    forall i | 0 <= i < |t.operations| && s.scheduled[i] ensures Processed(t, s, i) {
      assert !InWork([], None, i);
    }
  }

  /** Entry operations scheduled and every scheduled operation processed:
      everything reachable from an entry is tagged. */
  lemma EndReach(t: Topology, entries: set<nat>, s: FlushState)
    requires WellFormed(t) && Fits(t, s) && EntriesScheduled(t, entries, s)
    requires forall i :: 0 <= i < |t.operations| && s.scheduled[i] ==> Processed(t, s, i)
    ensures forall i :: 0 <= i < |t.operations| && Reachable(t, entries, i) ==> HasNeedsUpdate(s.flag[i])
  {
    forall i | 0 <= i < |t.operations| && Reachable(t, entries, i) ensures HasNeedsUpdate(s.flag[i]) {
      var p :| IsPath(t, p) && p[0] in entries && p[|p| - 1] == i;
      ClosedReach(t, s, p);
    }
  }

  /** With nothing left in the work, no component is scheduled, and a
      handled bone component's pose component has been handled, so its entry
      operation is tagged unless its opcode skips upstream flushing. */
  lemma EndComponents(t: Topology, s: FlushState)
    requires WellFormed(t) && PoseComponentsPresent(t) && Fits(t, s)
    requires DoneHandled(t, s) && ScheduledPending(t, s, [], None)
    ensures forall c :: 0 <= c < |t.components| ==> s.compDone[c] != StateScheduled
    ensures forall c :: 0 <= c < |t.components| && s.compDone[c] == StateDone && t.components[c].ctype == Bone ==>
      s.compDone[PoseComponent(t, c)] == StateDone && SiblingsTagged(t, s, PoseComponent(t, c))
    ensures forall c ::
      0 <= c < |t.components| && s.compDone[c] == StateDone && t.components[c].ctype == Bone &&
      !SkipsUpstreamFlush(t.operations[PoseEntry(t, c)].opcode) ==>
      HasNeedsUpdate(s.flag[PoseEntry(t, c)])
  {
    forall c | 0 <= c < |t.components| && s.compDone[c] == StateDone && t.components[c].ctype == Bone
      ensures s.compDone[PoseComponent(t, c)] == StateDone && SiblingsTagged(t, s, PoseComponent(t, c))
      ensures !SkipsUpstreamFlush(t.operations[PoseEntry(t, c)].opcode) ==> HasNeedsUpdate(s.flag[PoseEntry(t, c)])
    {
      var pose := PoseComponent(t, c);
      assert ComponentHandled(t, s, c);
      assert ComponentHandled(t, s, pose);
      var e := PoseEntry(t, c);
      var k :| 0 <= k < |t.components[pose].operations| && t.components[pose].operations[k] == e;
    }
  }

  /** What holds when the traversal has ended: every entry operation and
      every operation reachable from one is tagged, every scheduled operation
      has been processed, no component is left scheduled, and a handled bone
      component's pose component has been handled too, so its operations
      that take upstream tags are tagged, its entry operation among them. */
  lemma PassEnd(t: Topology, useCow: bool, entries: set<nat>, f0: seq<bv32>, tags0: seq<bv32>,
                s: FlushState, tr: seq<Event>)
    requires PassInv(t, useCow, entries, f0, tags0, s, [], None, tr)
    ensures forall i :: 0 <= i < |t.operations| && Reachable(t, entries, i) ==> HasNeedsUpdate(s.flag[i])
    ensures forall i :: 0 <= i < |t.operations| && s.scheduled[i] ==> Processed(t, s, i)
    ensures forall c :: 0 <= c < |t.components| ==> s.compDone[c] != StateScheduled
    ensures forall c :: 0 <= c < |t.components| && s.compDone[c] == StateDone && t.components[c].ctype == Bone ==>
      s.compDone[PoseComponent(t, c)] == StateDone && SiblingsTagged(t, s, PoseComponent(t, c))
    ensures forall c ::
      0 <= c < |t.components| && s.compDone[c] == StateDone && t.components[c].ctype == Bone &&
      !SkipsUpstreamFlush(t.operations[PoseEntry(t, c)].opcode) ==>
      HasNeedsUpdate(s.flag[PoseEntry(t, c)])
  {
    EndProcessed(t, s);
    EndReach(t, entries, s);
    EndComponents(t, s);
  }
}
