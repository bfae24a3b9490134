/**
Group scheduling in CFQ (block/cfq-iosched.c): activation of groups along their path to the root,
the weights that become effective only on activation, and the share of disk time each group gets.
*/
module Cfq {
  import opened Common

  type Gid = nat

  const ONE: nat := 4096            // 1 << CFQ_SERVICE_SHIFT

  /** struct cfq_group. A weight of zero in `newWeight` and `newLeafWeight` means no change is due. */
  datatype Group = Group(
    parent: Option<Gid>,
    onTree: bool,
    nrActive: int,
    childrenWeight: int,
    weight: nat,
    newWeight: nat,
    leafWeight: nat,
    newLeafWeight: nat,
    vfraction: nat,
    vdisktime: nat)

  type Tree = seq<Group>

  /** One hierarchy: group 0 is the root, and every other group comes after its parent. */
  ghost predicate Rooted(gs: Tree) {
    forall i :: 0 <= i < |gs| ==>
      (gs[i].parent.None? <==> i == 0) && (gs[i].parent.Some? ==> gs[i].parent.value < i)
  }

  // ---------------------------------------------------------------- operations

  /** cfq_update_group_weight. */
  function UpdateWeight(g: Group): Group {
    if g.newWeight != 0 then g.(weight := g.newWeight, newWeight := 0) else g
  }

  /** cfq_update_group_leaf_weight. */
  function UpdateLeafWeight(g: Group): Group {
    if g.newLeafWeight != 0 then g.(leafWeight := g.newLeafWeight, newLeafWeight := 0) else g
  }

  function Joined(g: Group, weight: int): Group {
    g.(nrActive := g.nrActive + 1, childrenWeight := g.childrenWeight + weight)
  }

  function Parted(g: Group, weight: int): Group {
    g.(nrActive := g.nrActive - 1, childrenWeight := g.childrenWeight - weight)
  }

  /** Group `pos` has just become active: tell its parent, and so on up. */
  function ActivateUp(gs: Tree, pos: Gid): (r: Tree)
    requires pos < |gs| && Rooted(gs)
    ensures |r| == |gs| && Rooted(r)
    decreases pos
  {
    match gs[pos].parent
    case None => gs
    case Some(p) =>
      var gs1 := gs[pos := UpdateWeight(gs[pos])];
      var gs2 := gs1[p := Joined(gs1[p], gs1[pos].weight)];
      if gs[p].nrActive == 0 then ActivateUp(gs2, p) else gs2
  }

  function Div(a: int, b: int): int { if b <= 0 then 0 else a / b }

  /** `vfr` compounded with the share of every group on the way from `pos` to the root. */
  function Compound(gs: Tree, pos: Gid, vfr: int): int
    requires pos < |gs| && Rooted(gs)
    decreases pos
  {
    match gs[pos].parent
    case None => vfr
    case Some(p) => Compound(gs, p, Div(vfr * gs[pos].weight, gs[p].childrenWeight))
  }

  /** The fraction cfq_group_service_tree_add computes, before the max with 1. */
  function Fraction(gs: Tree, i: Gid): int
    requires i < |gs| && Rooted(gs)
  {
    Compound(gs, i, Div(ONE * gs[i].leafWeight, gs[i].childrenWeight))
  }

  /** The bookkeeping of cfq_group_service_tree_add. */
  function Enter(gs: Tree, i: Gid): (r: Tree)
    requires i < |gs| && Rooted(gs)
    ensures |r| == |gs| && Rooted(r)
  {
    var g := UpdateLeafWeight(gs[i]);
    var gs1 := gs[i := Joined(g.(onTree := true), g.leafWeight)];
    if gs[i].nrActive == 0 then ActivateUp(gs1, i) else gs1
  }

  /** cfq_group_service_tree_add. */
  function Add(gs: Tree, i: Gid): (r: Tree)
    requires i < |gs| && Rooted(gs)
    ensures |r| == |gs| && Rooted(r)
  {
    var gs1 := Enter(gs, i);
    var f := Fraction(gs1, i);
    gs1[i := gs1[i].(vfraction := if f < 1 then 1 else f)]
  }

  /** Group `pos` has just become inactive: tell its parent, and so on up. */
  function DeactivateUp(gs: Tree, pos: Gid): (r: Tree)
    requires pos < |gs| && Rooted(gs)
    ensures |r| == |gs| && Rooted(r)
    decreases pos
  {
    var gs1 := gs[pos := gs[pos].(vfraction := 0)];
    match gs1[pos].parent
    case None => gs1
    case Some(p) =>
      var gs2 := gs1[p := Parted(gs1[p], gs1[pos].weight)];
      if gs2[p].nrActive == 0 then DeactivateUp(gs2, p) else gs2
  }

  /** cfq_group_service_tree_del. */
  function Del(gs: Tree, i: Gid): (r: Tree)
    requires i < |gs| && Rooted(gs)
    ensures |r| == |gs| && Rooted(r)
  {
    var gs1 := gs[i := Parted(gs[i].(onTree := false), gs[i].leafWeight)];
    if gs1[i].nrActive == 0 then DeactivateUp(gs1, i) else gs1
  }

  /** An unsigned int, and the sizes an unsigned long may have. */
  type U32 = n: int | 0 <= n < 0x1_0000_0000

  datatype Long = Long32 | Long64

  const U64_SIZE: nat := 0x1_0000_0000_0000_0000

  function LongSize(long: Long): nat { if long.Long32? then 0x1_0000_0000 else U64_SIZE }

  /** cfqg_scale_charge: the first shift is done in an unsigned long, the second in 64 bits. */
  function ScaleCharge(long: Long, charge: U32, vfraction: nat): nat {
    Div((charge * ONE) % LongSize(long) * ONE % U64_SIZE, vfraction)
  }

  /** cfq_group_served. */
  function Served(gs: Tree, i: Gid, charge: U32, long: Long): (r: Tree)
    requires i < |gs| && Rooted(gs)
    ensures |r| == |gs| && Rooted(r)
  {
    var gs1 := Del(gs, i);
    Add(gs1[i := gs1[i].(vdisktime := gs1[i].vdisktime + ScaleCharge(long, charge, gs[i].vfraction))], i)
  }

  // ---------------------------------------------------------------- runs

  datatype Event =
    | NewGroup(p: Gid, weight: nat, leafWeight: nat)
    | SetWeight(i: Gid, weight: nat)
    | SetLeafWeight(i: Gid, weight: nat)
    | AddEv(i: Gid)
    | DelEv(i: Gid)
    | ServedEv(i: Gid, charge: U32, long: Long)

  predicate Enabled(gs: Tree, e: Event) {
    match e
    case NewGroup(p, w, l) => p < |gs| && w > 0 && l > 0
    case SetWeight(i, _) => i < |gs|
    case SetLeafWeight(i, _) => i < |gs|
    case AddEv(i) => i < |gs| && !gs[i].onTree
    case DelEv(i) => i < |gs| && gs[i].onTree
    case ServedEv(i, _, _) => i < |gs| && gs[i].onTree
  }

  function Fresh(parent: Option<Gid>, weight: nat, leafWeight: nat): Group {
    Group(parent, false, 0, 0, weight, 0, leafWeight, 0, 0, 0)
  }

  function Next(gs: Tree, e: Event): (r: Tree)
    requires Rooted(gs)
    ensures Rooted(r) && |gs| <= |r|
  {
    if !Enabled(gs, e) then gs
    else
      match e
      case NewGroup(p, w, l) => gs + [Fresh(Some(p), w, l)]
      case SetWeight(i, w) => gs[i := gs[i].(newWeight := w)]
      case SetLeafWeight(i, w) => gs[i := gs[i].(newLeafWeight := w)]
      case AddEv(i) => Add(gs, i)
      case DelEv(i) => Del(gs, i)
      case ServedEv(i, charge, long) => Served(gs, i, charge, long)
  }

  function Run(gs: Tree, events: seq<Event>): (r: Tree)
    requires Rooted(gs)
    ensures Rooted(r) && |gs| <= |r|
    decreases |events|
  {
    if events == [] then gs else Run(Next(gs, events[0]), events[1..])
  }

  function Init(weight: nat, leafWeight: nat): Tree { [Fresh(None, weight, leafWeight)] }
}
