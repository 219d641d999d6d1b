/** Node kinds, flag bits and the fixed shape of a dependency graph, as the
    update flush sees it: operation nodes with outgoing relations, the
    component that owns each operation, and the ID node that owns each
    component. Nodes are named by their index in the graph's vectors. */
module DegTypes {

  datatype Option<T> = None | Some(value: T)

  /** Operation codes. The flush singles out one of them. */
  datatype Opcode = ParticleSettingsEval | OtherOpcode(code: nat)

  /** Component types the flush looks at by name; all others are opaque. */
  datatype ComponentType = Bone | EvalPose | CopyOnWrite | OtherComponent(code: nat)

  /** COMPONENT_STATE_NONE, COMPONENT_STATE_SCHEDULED, COMPONENT_STATE_DONE. */
  datatype ComponentState = StateNone | StateScheduled | StateDone

  /** An operation node: its outgoing relations (by target index), its owner
      component and its opcode. */
  datatype OperationNode = OperationNode(outlinks: seq<nat>, owner: nat, opcode: Opcode)

  /** A component node: its owner ID node, its type, the operations it holds,
      the result of get_entry_operation() and of depends_on_cow(). */
  datatype ComponentNode = ComponentNode(
    owner: nat,
    ctype: ComponentType,
    operations: seq<nat>,
    entry: Option<nat>,
    dependsOnCow: bool)

  /** An ID node: its components (the values of its component hash), the tag
      of the original datablock, and whether the copy-on-write datablock is
      expanded (deg_copy_on_write_is_expanded). */
  datatype IdNode = IdNode(components: seq<nat>, tagOrig: bv32, cowExpanded: bool)

  datatype Topology = Topology(
    operations: seq<OperationNode>,
    components: seq<ComponentNode>,
    idNodes: seq<IdNode>)

  /** Operation flag bits (eDepsOperation_Flag). */
  const NEEDS_UPDATE: bv32 := 1
  const DIRECTLY_MODIFIED: bv32 := 2

  /** ID tag bits copied from the original to the copy-on-write datablock. */
  const LIB_TAG_ID_RECALC: bv32 := 0x1000
  const LIB_TAG_ID_RECALC_DATA: bv32 := 0x2000
  const LIB_TAG_ID_RECALC_ALL: bv32 := LIB_TAG_ID_RECALC | LIB_TAG_ID_RECALC_DATA

  /** The copy-on-write tag after copying the original's recalc bits into it. */
  function MergeRecalcTags(tagCow: bv32, tagOrig: bv32): (r: bv32)
  {
    tagCow | (tagOrig & LIB_TAG_ID_RECALC_ALL)
  }

  /** Opcodes whose operations are not tagged when a sibling operation in the
      same component is reached: tags are not flushed "upstream" into them. */
  predicate SkipsUpstreamFlush(op: Opcode)
  {
    op.ParticleSettingsEval?
  }

  /** An operation flag with NEEDS_UPDATE set. */
  function WithNeedsUpdate(f: bv32): (r: bv32)
  {
    f | NEEDS_UPDATE
  }

  predicate HasNeedsUpdate(f: bv32)
  {
    f & NEEDS_UPDATE != 0
  }

  /** All component indices in `comps` name a component of `t`. */
  ghost predicate ComponentsInRange(t: Topology, comps: seq<nat>)
  {
    forall k :: 0 <= k < |comps| ==> comps[k] < |t.components|
  }

  /** Position `k` holds the first component of type `ty` in `comps`. */
  ghost predicate FirstOfType(t: Topology, comps: seq<nat>, ty: ComponentType, k: int)
    requires ComponentsInRange(t, comps)
  {
    0 <= k < |comps| && t.components[comps[k]].ctype == ty &&
    forall j :: 0 <= j < k ==> t.components[comps[j]].ctype != ty
  }

  /** The first component in `comps` whose type is `ty`. */
  function FindIn(t: Topology, comps: seq<nat>, ty: ComponentType): (r: Option<nat>)
    requires ComponentsInRange(t, comps)
    ensures r.Some? ==> r.value in comps && t.components[r.value].ctype == ty
    ensures r.None? <==> forall c :: c in comps ==> t.components[c].ctype != ty
    ensures r.Some? ==> exists k :: FirstOfType(t, comps, ty, k) && comps[k] == r.value
  {
    if comps == [] then None
    else if t.components[comps[0]].ctype == ty then Some(comps[0])
    else
      var r := FindIn(t, comps[1..], ty);
      assert forall c :: c in comps[1..] ==> c in comps;
      FirstMatchShift(t, comps, ty, r);
      r
  }

  /** A first match in the tail of `comps` is a first match in `comps` when
      the head does not match. */
  lemma FirstMatchShift(t: Topology, comps: seq<nat>, ty: ComponentType, r: Option<nat>)
    requires ComponentsInRange(t, comps) && comps != [] && t.components[comps[0]].ctype != ty
    requires r.Some? ==> exists k :: FirstOfType(t, comps[1..], ty, k) && comps[1..][k] == r.value
    ensures r.Some? ==> exists k :: FirstOfType(t, comps, ty, k) && comps[k] == r.value
  {
    if r.Some? {
      var k :| FirstOfType(t, comps[1..], ty, k) && comps[1..][k] == r.value;
      assert comps[k + 1] == r.value;
      forall j | 0 <= j < k + 1 ensures t.components[comps[j]].ctype != ty {
        if j > 0 { assert comps[j] == comps[1..][j - 1]; }
      }
      assert FirstOfType(t, comps, ty, k + 1);
    }
  }

  /** IDDepsNode::find_component(type) for a component without a name. */
  function FindComponent(t: Topology, id: nat, ty: ComponentType): (r: Option<nat>)
    requires id < |t.idNodes| && ComponentsInRange(t, t.idNodes[id].components)
    ensures r.Some? ==> r.value in t.idNodes[id].components && t.components[r.value].ctype == ty
    ensures r.None? <==> forall c :: c in t.idNodes[id].components ==> t.components[c].ctype != ty
  {
    FindIn(t, t.idNodes[id].components, ty)
  }

  /** The outgoing relations of operation `op` point into the graph. */
  ghost predicate OutlinksInRange(t: Topology, op: nat)
    requires op < |t.operations|
  {
    forall k :: 0 <= k < |t.operations[op].outlinks| ==> t.operations[op].outlinks[k] < |t.operations|
  }

  /** The operation vector's links point into the graph. */
  ghost predicate OperationsWellFormed(t: Topology)
  {
    forall i :: 0 <= i < |t.operations| ==>
      t.operations[i].owner < |t.components| &&
      forall k :: 0 <= k < |t.operations[i].outlinks| ==> t.operations[i].outlinks[k] < |t.operations|
  }

  /** ID nodes list only components they own. */
  ghost predicate IdNodesWellFormed(t: Topology)
  {
    forall id :: 0 <= id < |t.idNodes| ==>
      ComponentsInRange(t, t.idNodes[id].components) &&
      forall k :: 0 <= k < |t.idNodes[id].components| ==>
        t.components[t.idNodes[id].components[k]].owner == id
  }

  /** Components list exactly the operations they own and point at their
      owner; the entry operation of a component belongs to it; a
      pose-evaluation component has an entry. */
  ghost predicate ComponentsWellFormed(t: Topology)
  {
    forall c :: 0 <= c < |t.components| ==>
      var comp := t.components[c];
      comp.owner < |t.idNodes| &&
      (forall k :: 0 <= k < |comp.operations| ==>
         comp.operations[k] < |t.operations| && t.operations[comp.operations[k]].owner == c) &&
      (forall i :: 0 <= i < |t.operations| && t.operations[i].owner == c ==> i in comp.operations) &&
      (comp.entry.Some? ==> comp.entry.value < |t.operations| &&
                             t.operations[comp.entry.value].owner == c) &&
      (comp.ctype == EvalPose ==> comp.entry.Some?)
  }

  ghost predicate WellFormed(t: Topology)
  {
    OperationsWellFormed(t) && IdNodesWellFormed(t) && ComponentsWellFormed(t)
  }

  /** Every component is a value of its owner's component hash. */
  ghost predicate ComponentsListed(t: Topology)
    requires WellFormed(t)
  {
    forall c :: 0 <= c < |t.components| ==> c in t.idNodes[t.components[c].owner].components
  }

  /** The ID of every bone component has a pose-evaluation component (the
      source asserts that the lookup succeeds). */
  ghost predicate PoseComponentsPresent(t: Topology)
    requires WellFormed(t)
  {
    forall c :: 0 <= c < |t.components| && t.components[c].ctype == Bone ==>
      FindComponent(t, t.components[c].owner, EvalPose).Some?
  }

  /** With copy-on-write enabled, a component that depends on it is only
      handled when its ID has a copy-on-write component (the source
      dereferences the lookup without a check). */
  ghost predicate CowComponentsPresent(t: Topology)
    requires WellFormed(t)
  {
    forall c :: 0 <= c < |t.components| && t.components[c].dependsOnCow ==>
      FindComponent(t, t.components[c].owner, CopyOnWrite).Some?
  }

  /** The pose-evaluation component of the ID that owns component `c`. */
  function PoseComponent(t: Topology, c: nat): (r: nat)
    requires WellFormed(t) && PoseComponentsPresent(t)
    requires c < |t.components| && t.components[c].ctype == Bone
    ensures r < |t.components| && r != c
    ensures t.components[r].ctype == EvalPose && t.components[r].owner == t.components[c].owner
  {
    var id := t.components[c].owner;
    var r := FindComponent(t, id, EvalPose).value;
    assert exists k :: 0 <= k < |t.idNodes[id].components| && t.idNodes[id].components[k] == r;
    r
  }

  /** The entry operation of the pose component of bone component `c`: the
      operation the bone rule pushes. It is one of the pose component's
      operations. */
  function PoseEntry(t: Topology, c: nat): (r: nat)
    requires WellFormed(t) && PoseComponentsPresent(t)
    requires c < |t.components| && t.components[c].ctype == Bone
    ensures r < |t.operations| && t.operations[r].owner == PoseComponent(t, c)
    ensures r in t.components[PoseComponent(t, c)].operations
  {
    var pose := PoseComponent(t, c);
    var r := t.components[pose].entry.value;
    assert t.operations[r].owner == pose;
    r
  }

  /** The copy-on-write component of the ID that owns component `c`. */
  function CowComponent(t: Topology, c: nat): (r: nat)
    requires WellFormed(t) && CowComponentsPresent(t)
    requires c < |t.components| && t.components[c].dependsOnCow
    ensures r < |t.components| && t.components[r].ctype == CopyOnWrite
    ensures t.components[r].owner == t.components[c].owner
  {
    var id := t.components[c].owner;
    var r := FindComponent(t, id, CopyOnWrite).value;
    assert exists k :: 0 <= k < |t.idNodes[id].components| && t.idNodes[id].components[k] == r;
    r
  }
}
