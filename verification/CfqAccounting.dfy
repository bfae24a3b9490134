/**
The accounting of the group hierarchy, over every sequence of additions, removals, charges and
deferred weight changes.
*/
module CfqAccounting {
  import opened Common
  import opened Cfq

  // ---------------------------------------------------------------- what a group should know

  predicate ActiveKid(g: Group, i: Gid) { g.parent == Some(i) && g.nrActive > 0 }

  /** The active children of group `i` among the first `n` groups: how many, and their weights. */
  function KidCount(gs: Tree, i: Gid, n: nat): nat
    requires n <= |gs|
  {
    if n == 0 then 0 else KidCount(gs, i, n - 1) + (if ActiveKid(gs[n - 1], i) then 1 else 0)
  }

  function KidWeight(gs: Tree, i: Gid, n: nat): nat
    requires n <= |gs|
  {
    if n == 0 then 0 else KidWeight(gs, i, n - 1) + (if ActiveKid(gs[n - 1], i) then gs[n - 1].weight else 0)
  }

  function Own(g: Group): nat { if g.onTree then 1 else 0 }

  function OwnWeight(g: Group): nat { if g.onTree then g.leafWeight else 0 }

  /** nr_active and children_weight of group `i` fall short of what they should be by `n` and `w`. */
  predicate Short(gs: Tree, i: Gid, n: int, w: int)
    requires i < |gs|
  {
    && gs[i].nrActive == Own(gs[i]) + KidCount(gs, i, |gs|) - n
    && gs[i].childrenWeight == OwnWeight(gs[i]) + KidWeight(gs, i, |gs|) - w
  }

  ghost predicate Weighted(gs: Tree) {
    forall i :: 0 <= i < |gs| ==> gs[i].weight > 0 && gs[i].leafWeight > 0
  }

  /** Every group but `hole` is accounted for. */
  ghost predicate AccountedBut(gs: Tree, hole: Option<Gid>) {
    && Rooted(gs) && Weighted(gs)
    && forall i :: 0 <= i < |gs| && Some(i) != hole ==> Short(gs, i, 0, 0)
  }

  ghost predicate Accounted(gs: Tree) { AccountedBut(gs, None) }

  // ---------------------------------------------------------------- sums

  lemma {:induction false} KidUpdate(gs: Tree, j: Gid, g: Group, i: Gid, n: nat)
    requires j < n <= |gs|
    ensures KidCount(gs[j := g], i, n) ==
      KidCount(gs, i, n) - (if ActiveKid(gs[j], i) then 1 else 0) + (if ActiveKid(g, i) then 1 else 0)
    ensures KidWeight(gs[j := g], i, n) ==
      KidWeight(gs, i, n) - (if ActiveKid(gs[j], i) then gs[j].weight else 0)
      + (if ActiveKid(g, i) then g.weight else 0)
    decreases n
  {
    if j < n - 1 {
      KidUpdate(gs, j, g, i, n - 1);
    } else {
      KidSame(gs, gs[j := g], i, n - 1);
    }
  }

  lemma {:induction false} KidSame(gs: Tree, gs': Tree, i: Gid, n: nat)
    requires n <= |gs| && n <= |gs'| && forall k :: 0 <= k < n ==> gs'[k] == gs[k]
    ensures KidCount(gs', i, n) == KidCount(gs, i, n) && KidWeight(gs', i, n) == KidWeight(gs, i, n)
    decreases n
  {
    if n > 0 { KidSame(gs, gs', i, n - 1); }
  }

  lemma {:induction false} KidIncluded(gs: Tree, i: Gid, j: Gid, n: nat)
    requires j < n <= |gs| && ActiveKid(gs[j], i)
    ensures KidCount(gs, i, n) >= 1 && KidWeight(gs, i, n) >= gs[j].weight
    decreases n
  {
    if j < n - 1 { KidIncluded(gs, i, j, n - 1); }
  }

  lemma {:induction false} NoKids(gs: Tree, i: Gid, n: nat)
    requires n <= |gs|
    ensures KidCount(gs, i, n) == 0 ==> KidWeight(gs, i, n) == 0
    ensures KidCount(gs, i, n) > 0 && Weighted(gs) ==> KidWeight(gs, i, n) > 0
    decreases n
  {
    if n > 0 { NoKids(gs, i, n - 1); }
  }

  // ---------------------------------------------------------------- activation

  /** One level: the parent of a freshly activated group catches up with it. */
  lemma JoinLevel(gs: Tree, pos: Gid, p: Gid)
    requires AccountedBut(gs, Some(p)) && pos < |gs| && gs[pos].parent == Some(p) && gs[pos].nrActive == 1
    requires p < |gs| && Short(gs, p, 1, gs[pos].weight)
    ensures var gs1 := gs[pos := UpdateWeight(gs[pos])];
      var gs2 := gs1[p := Joined(gs1[p], gs1[pos].weight)];
      && Weighted(gs2) && Rooted(gs2) && Short(gs2, p, 0, 0) && gs2[p].nrActive >= 1
      && (forall i :: 0 <= i < |gs| && Some(i) != gs[p].parent ==> Short(gs2, i, 0, 0))
      && (gs[p].parent.Some? && gs[p].nrActive == 0 ==> Short(gs2, gs[p].parent.value, 1, gs2[p].weight))
      && (gs[p].parent.Some? && gs[p].nrActive > 0 ==> Short(gs2, gs[p].parent.value, 0, 0))
  {
    hide KidCount, KidWeight;
    var u := UpdateWeight(gs[pos]);
    var gs1 := gs[pos := u];
    var q := Joined(gs1[p], u.weight);
    var gs2 := gs1[p := q];
    KidUpdate(gs, pos, u, p, |gs|);
    KidUpdate(gs1, p, q, p, |gs|);
    KidIncluded(gs, p, pos, |gs|);
    forall i | 0 <= i < |gs| && i != p
      ensures Short(gs2, i, if gs[p].parent == Some(i) && gs[p].nrActive == 0 then 1 else 0,
                            if gs[p].parent == Some(i) && gs[p].nrActive == 0 then gs[p].weight else 0)
    {
      assert Short(gs, i, 0, 0);
      KidUpdate(gs, pos, u, i, |gs|);
      KidUpdate(gs1, p, q, i, |gs|);
    }
  }

  lemma {:induction false} ActivateUpAccounts(gs: Tree, pos: Gid)
    requires pos < |gs| && AccountedBut(gs, gs[pos].parent) && gs[pos].nrActive == 1
    requires gs[pos].parent.Some? ==> Short(gs, gs[pos].parent.value, 1, gs[pos].weight)
    ensures Accounted(ActivateUp(gs, pos))
    decreases pos
  {
    hide Short;
    if gs[pos].parent.Some? {
      var p := gs[pos].parent.value;
      JoinLevel(gs, pos, p);
      var gs1 := gs[pos := UpdateWeight(gs[pos])];
      var gs2 := gs1[p := Joined(gs1[p], gs1[pos].weight)];
      if gs[p].nrActive == 0 { ActivateUpAccounts(gs2, p); }
    }
  }

  /** nr_active is the number of reasons to be active, hence never negative, and an inactive group has
      nothing left in children_weight. */
  lemma AccountFacts(gs: Tree, i: Gid)
    requires i < |gs| && Rooted(gs) && Weighted(gs) && Short(gs, i, 0, 0)
    ensures gs[i].nrActive >= 0 && (gs[i].onTree ==> gs[i].nrActive >= 1)
    ensures gs[i].nrActive == 0 ==> gs[i].childrenWeight == 0
    ensures gs[i].nrActive > 0 ==> gs[i].childrenWeight > 0
    ensures gs[i].onTree ==> gs[i].childrenWeight >= gs[i].leafWeight
  {
    NoKids(gs, i, |gs|);
  }

  lemma EnterAccounts(gs: Tree, i: Gid)
    requires Accounted(gs) && i < |gs| && !gs[i].onTree
    ensures Accounted(Enter(gs, i))
    ensures Enter(gs, i)[i].onTree
  {
    hide KidCount, KidWeight;
    var g := UpdateLeafWeight(gs[i]);
    var h := Joined(g.(onTree := true), g.leafWeight);
    var gs1 := gs[i := h];
    assert Short(gs, i, 0, 0);
    AccountFacts(gs, i);
    forall j | 0 <= j < |gs|
      ensures Short(gs1, j, if gs[i].parent == Some(j) && gs[i].nrActive == 0 then 1 else 0,
                            if gs[i].parent == Some(j) && gs[i].nrActive == 0 then h.weight else 0)
    {
      assert Short(gs, j, 0, 0);
      KidUpdate(gs, i, h, j, |gs|);
    }
    if gs[i].nrActive == 0 {
      ActivateUpAccounts(gs1, i);
      ActivateUpFrame(gs1, i, i);
    }
  }

  /** The way up leaves the groups after `pos` alone, and changes no membership. */
  lemma {:induction false} ActivateUpFrame(gs: Tree, pos: Gid, j: Gid)
    requires pos < |gs| && Rooted(gs) && j < |gs|
    ensures ActivateUp(gs, pos)[j].onTree == gs[j].onTree
    ensures ActivateUp(gs, pos)[j].leafWeight == gs[j].leafWeight
    ensures ActivateUp(gs, pos)[j].vdisktime == gs[j].vdisktime
    ensures ActivateUp(gs, pos)[j].vfraction == gs[j].vfraction
    ensures j > pos ==> ActivateUp(gs, pos)[j] == gs[j]
    decreases pos
  {
    if gs[pos].parent.Some? {
      var p := gs[pos].parent.value;
      var gs1 := gs[pos := UpdateWeight(gs[pos])];
      var gs2 := gs1[p := Joined(gs1[p], gs1[pos].weight)];
      if gs[p].nrActive == 0 { ActivateUpFrame(gs2, p, j); }
    }
  }

  /** Fields the accounting does not look at. */
  lemma AccountsSame(gs: Tree, j: Gid, g: Group)
    requires Accounted(gs) && j < |gs|
    requires g == gs[j].(vfraction := g.vfraction, vdisktime := g.vdisktime,
                         newWeight := g.newWeight, newLeafWeight := g.newLeafWeight)
    ensures Accounted(gs[j := g])
  {
    hide KidCount, KidWeight;
    var gs' := gs[j := g];
    forall i | 0 <= i < |gs| ensures Short(gs', i, 0, 0) {
      assert Short(gs, i, 0, 0);
      KidUpdate(gs, j, g, i, |gs|);
    }
  }

  lemma AddAccounts(gs: Tree, i: Gid)
    requires Accounted(gs) && i < |gs| && !gs[i].onTree
    ensures Rooted(gs) && Accounted(Add(gs, i)) && Add(gs, i)[i].onTree
  {
    hide Accounted, Fraction, Enter;
    AccountedRooted(gs);
    EnterAccounts(gs, i);
    var gs1 := Enter(gs, i);
    AccountsSame(gs1, i, Add(gs, i)[i]);
  }

  // ---------------------------------------------------------------- deactivation

  /** One level: the parent of a group that has become inactive lets go of it. */
  lemma PartLevel(gs: Tree, pos: Gid, p: Gid)
    requires AccountedBut(gs, Some(p)) && pos < |gs| && gs[pos].parent == Some(p) && gs[pos].nrActive == 0
    requires p < |gs| && Short(gs, p, -1, -(gs[pos].weight as int))
    ensures var gs1 := gs[pos := gs[pos].(vfraction := 0)];
      var gs2 := gs1[p := Parted(gs1[p], gs1[pos].weight)];
      && Weighted(gs2) && Rooted(gs2) && Short(gs2, p, 0, 0) && gs[p].nrActive >= 1
      && (forall i :: 0 <= i < |gs| && Some(i) != gs[p].parent ==> Short(gs2, i, 0, 0))
      && (gs[p].parent.Some? && gs2[p].nrActive == 0 ==> Short(gs2, gs[p].parent.value, -1, -(gs2[p].weight as int)))
      && (gs[p].parent.Some? && gs2[p].nrActive > 0 ==> Short(gs2, gs[p].parent.value, 0, 0))
  {
    hide KidCount, KidWeight;
    var u := gs[pos].(vfraction := 0);
    var gs1 := gs[pos := u];
    var q := Parted(gs1[p], u.weight);
    var gs2 := gs1[p := q];
    KidUpdate(gs, pos, u, p, |gs|);
    KidUpdate(gs1, p, q, p, |gs|);
    forall i | 0 <= i < |gs| && i != p
      ensures Short(gs2, i, if gs[p].parent == Some(i) && q.nrActive == 0 then -1 else 0,
                            if gs[p].parent == Some(i) && q.nrActive == 0 then -(q.weight as int) else 0)
    {
      assert Short(gs, i, 0, 0);
      KidUpdate(gs, pos, u, i, |gs|);
      KidUpdate(gs1, p, q, i, |gs|);
    }
  }

  lemma {:induction false} DeactivateUpAccounts(gs: Tree, pos: Gid)
    requires pos < |gs| && AccountedBut(gs, gs[pos].parent) && gs[pos].nrActive == 0
    requires gs[pos].parent.Some? ==> Short(gs, gs[pos].parent.value, -1, -(gs[pos].weight as int))
    ensures Accounted(DeactivateUp(gs, pos))
    decreases pos
  {
    hide Short;
    var gs1 := gs[pos := gs[pos].(vfraction := 0)];
    if gs[pos].parent.Some? {
      var p := gs[pos].parent.value;
      PartLevel(gs, pos, p);
      var gs2 := gs1[p := Parted(gs1[p], gs1[pos].weight)];
      PartsNonNegative(gs2, p);
      if gs2[p].nrActive == 0 { DeactivateUpAccounts(gs2, p); }
    } else {
      AccountsSame(gs, pos, gs1[pos]);
    }
  }

  lemma PartsNonNegative(gs: Tree, p: Gid)
    requires p < |gs| && Short(gs, p, 0, 0)
    ensures gs[p].nrActive >= 0
  {
  }

  lemma {:induction false} DeactivateUpFrame(gs: Tree, pos: Gid, j: Gid)
    requires pos < |gs| && Rooted(gs) && j < |gs|
    ensures var g := DeactivateUp(gs, pos)[j];
      && g.onTree == gs[j].onTree && g.leafWeight == gs[j].leafWeight && g.newLeafWeight == gs[j].newLeafWeight
      && g.weight == gs[j].weight && g.newWeight == gs[j].newWeight && g.vdisktime == gs[j].vdisktime
      && (j > pos ==> g == gs[j])
    decreases pos
  {
    var gs1 := gs[pos := gs[pos].(vfraction := 0)];
    if gs[pos].parent.Some? {
      var p := gs[pos].parent.value;
      var gs2 := gs1[p := Parted(gs1[p], gs1[pos].weight)];
      if gs2[p].nrActive == 0 { DeactivateUpFrame(gs2, p, j); }
    }
  }

  lemma DelAccounts(gs: Tree, i: Gid)
    requires Accounted(gs) && i < |gs| && gs[i].onTree
    ensures Accounted(Del(gs, i)) && !Del(gs, i)[i].onTree
  {
    hide KidCount, KidWeight;
    var h := Parted(gs[i].(onTree := false), gs[i].leafWeight);
    var gs1 := gs[i := h];
    assert Short(gs, i, 0, 0);
    AccountFacts(gs, i);
    forall j | 0 <= j < |gs|
      ensures Short(gs1, j, if gs[i].parent == Some(j) && h.nrActive == 0 then -1 else 0,
                            if gs[i].parent == Some(j) && h.nrActive == 0 then -(h.weight as int) else 0)
    {
      assert Short(gs, j, 0, 0);
      KidUpdate(gs, i, h, j, |gs|);
    }
    if h.nrActive == 0 {
      DeactivateUpAccounts(gs1, i);
      DeactivateUpFrame(gs1, i, i);
    }
  }

  // ---------------------------------------------------------------- every run

  lemma NewAccounts(gs: Tree, p: Gid, w: nat, l: nat)
    requires Accounted(gs) && p < |gs| && w > 0 && l > 0
    ensures Accounted(gs + [Fresh(Some(p), w, l)])
  {
    var gs' := gs + [Fresh(Some(p), w, l)];
    forall i | 0 <= i < |gs'| ensures Short(gs', i, 0, 0) {
      KidSame(gs, gs', i, |gs|);
      if i < |gs| {
        assert Short(gs, i, 0, 0);
      } else {
        Childless(gs, i, |gs|);
      }
    }
  }

  lemma {:induction false} Childless(gs: Tree, i: Gid, n: nat)
    requires n <= |gs| <= i && Rooted(gs)
    ensures KidCount(gs, i, n) == 0 && KidWeight(gs, i, n) == 0
    decreases n
  {
    if n > 0 { Childless(gs, i, n - 1); }
  }

  lemma ServedAccounts(gs: Tree, i: Gid, charge: U32, long: Long)
    requires Accounted(gs) && i < |gs| && gs[i].onTree
    ensures Rooted(gs) && Accounted(Served(gs, i, charge, long))
  {
    hide Accounted, Add, Del, ScaleCharge;
    AccountedRooted(gs);
    DelAccounts(gs, i);
    var gs1 := Del(gs, i);
    var g := gs1[i].(vdisktime := gs1[i].vdisktime + ScaleCharge(long, charge, gs[i].vfraction));
    AccountsSame(gs1, i, g);
    AddAccounts(gs1[i := g], i);
  }

  lemma NextAccounts(gs: Tree, e: Event)
    requires Accounted(gs)
    ensures Rooted(gs) && Accounted(Next(gs, e))
  {
    hide Accounted, Add, Del, Served;
    AccountedRooted(gs);
    if Enabled(gs, e) {
      match e {
        case NewGroup(p, w, l) => NewAccounts(gs, p, w, l);
        case SetWeight(i, w) => AccountsSame(gs, i, gs[i].(newWeight := w));
        case SetLeafWeight(i, w) => AccountsSame(gs, i, gs[i].(newLeafWeight := w));
        case AddEv(i) => AddAccounts(gs, i);
        case DelEv(i) => DelAccounts(gs, i);
        case ServedEv(i, charge, long) => ServedAccounts(gs, i, charge, long);
      }
    }
  }

  lemma AccountedRooted(gs: Tree)
    requires Accounted(gs)
    ensures Rooted(gs)
  {
  }

  /** Over every run nr_active is own membership plus the number of active children, and children_weight
      is the own leaf weight, if on the tree, plus the weights of the active children. */
  lemma {:induction false} RunAccounts(gs: Tree, events: seq<Event>)
    requires Accounted(gs)
    ensures Rooted(gs) && Accounted(Run(gs, events))
    decreases |events|
  {
    hide Accounted, Next;
    AccountedRooted(gs);
    if events != [] {
      NextAccounts(gs, events[0]);
      RunAccounts(Next(gs, events[0]), events[1..]);
    }
  }
}
