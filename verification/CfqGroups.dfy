/** The group hierarchy of block/cfq-iosched.c updated in place, walking parent pointers to the root. */
module CfqGroups {
  import opened Common
  import opened Cfq
  import opened CfqAccounting
  import opened CfqShares
  import opened CfqExact

  lemma {:induction false} ActivateUpKeepsWeightSum(gs: Tree, pos: Gid)
    requires pos < |gs| && Rooted(gs)
    ensures ActivateUp(gs, pos)[pos].childrenWeight == gs[pos].childrenWeight
    ensures ActivateUp(gs, pos)[pos].nrActive == gs[pos].nrActive
    ensures ActivateUp(gs, pos)[pos].parent == gs[pos].parent
  {
    if gs[pos].parent.Some? {
      var p := gs[pos].parent.value;
      var gs1 := gs[pos := UpdateWeight(gs[pos])];
      var gs2 := gs1[p := Joined(gs1[p], gs1[pos].weight)];
      if gs[p].nrActive == 0 { ActivateUpFrame(gs2, p, pos); }
    }
  }

  class Groups {
    var groups: array<Group>

    /** A hierarchy of the root alone, off the tree. */
    constructor (weight: nat, leafWeight: nat)
      requires weight > 0 && leafWeight > 0
      ensures St() == Init(weight, leafWeight) && Accounted(St()) && Fractions(St()) && fresh(groups)
    {
      groups := new Group[1](_ => Fresh(None, weight, leafWeight));
      new;
      assert groups[..] == [groups[0]];
      InitAccounted(weight, leafWeight);
    }

    ghost function St(): Tree
      reads this, groups
    {
      groups[..]
    }

    /** cfq_pd_init: a group below `p`, off the tree; nobody's share changes. */
    method NewChild(p: Gid, weight: nat, leafWeight: nat)
      requires Accounted(St()) && Fractions(St()) && p < groups.Length && weight > 0 && leafWeight > 0
      modifies this
      ensures fresh(groups) && Accounted(St()) && Fractions(St())
      ensures St() == old(St()) + [Fresh(Some(p), weight, leafWeight)]
    {
      hide Accounted;
      ghost var gs := St();
      AccountedRooted(gs);
      NewAccounts(gs, p, weight, leafWeight);
      var n := groups.Length;
      var was := groups[..];
      var child := Fresh(Some(p), weight, leafWeight);
      groups := new Group[n + 1](i requires 0 <= i <= n => if i < n then was[i] else child);
      assert groups[..] == gs + [Fresh(Some(p), weight, leafWeight)];
    }

    /** The body of the loop when activation still propagates. */
    method JoinParent(pos: Gid, p: Gid) returns (propagate: bool)
      requires Rooted(St()) && pos < groups.Length && groups[pos].parent == Some(p)
      modifies groups
      ensures propagate == (old(groups[p].nrActive) == 0)
      ensures Rooted(St())
      ensures var gs1 := old(St())[pos := UpdateWeight(old(groups[pos]))];
        St() == gs1[p := Joined(gs1[p], gs1[pos].weight)]
    {
      var g := groups[pos];
      if g.newWeight != 0 { groups[pos] := g.(weight := g.newWeight, newWeight := 0); }
      propagate := groups[p].nrActive == 0;
      groups[p] := groups[p].(nrActive := groups[p].nrActive + 1);
      groups[p] := groups[p].(childrenWeight := groups[p].childrenWeight + groups[pos].weight);
    }

    /** One turn of the loop of cfq_group_service_tree_add. */
    method OneLevel(pos: Gid, p: Gid, propagate: bool, vfr: nat, ghost fin: Tree) returns (up: bool, vfr': nat)
      requires pos < groups.Length && Rooted(St()) && groups[pos].parent == Some(p) && p < pos
      requires Accounted(fin) && fin == (if propagate then ActivateUp(St(), pos) else St())
      requires fin[pos].nrActive > 0 && fin[pos].parent == Some(p)
      modifies groups
      ensures Rooted(St()) && fin == (if up then ActivateUp(St(), p) else St())
      ensures fin[p].nrActive > 0 && groups[p].parent == fin[p].parent
      ensures vfr' == Div(vfr * fin[pos].weight, fin[p].childrenWeight)
    {
      hide Accounted, ActivateUp, Rooted;
      ghost var cur := St();
      up := propagate;
      if propagate {
        up := JoinParent(pos, p);
        UpOne(cur, pos, p);
      }
      Meets(St(), p, up, fin);
      SameLevel(St(), pos, p, up, fin);
      assert St()[pos] == groups[pos] && St()[p] == groups[p];
      Positive(fin, pos, p);
      vfr' := Quotient(vfr * groups[pos].weight, groups[p].childrenWeight);
    }

    static method Quotient(a: nat, b: int) returns (q: nat)
      requires b > 0
      ensures q == Div(a, b)
    {
      q := a / b;
    }

    static lemma CompoundUp(fin: Tree, pos: Gid, p: Gid, v: int)
      requires pos < |fin| && Rooted(fin) && fin[pos].parent == Some(p)
      ensures Compound(fin, pos, v) == Compound(fin, p, Div(v * fin[pos].weight, fin[p].childrenWeight))
    {
    }

    /** The loop of cfq_group_service_tree_add. Activation may stop on the way, the fraction goes on to the
        root; `fin` is the hierarchy once activation has stopped. */
    method WalkUp(i: Gid, first: bool, start: nat, ghost fin: Tree) returns (vfr: nat)
      requires i < groups.Length && Rooted(St()) && Accounted(fin) && |fin| == groups.Length
      requires fin == (if first then ActivateUp(St(), i) else St()) && fin[i].nrActive > 0
      modifies groups
      ensures St() == fin && vfr == Compound(fin, i, start)
    {
      hide Accounted, ActivateUp, Rooted, Compound, Div;
      AccountedRooted(fin);
      var pos: Gid, propagate := i, first;
      vfr := start;
      Meets(St(), pos, propagate, fin);
      while groups[pos].parent.Some?
        invariant pos < groups.Length && Rooted(St())
        invariant fin == (if propagate then ActivateUp(St(), pos) else St())
        invariant Compound(fin, pos, vfr) == Compound(fin, i, start) && fin[pos].nrActive > 0
        invariant groups[pos].parent == fin[pos].parent
        decreases pos
      {
        var p := groups[pos].parent.value;
        Above(St(), pos);
        CompoundUp(fin, pos, p, vfr);
        propagate, vfr := OneLevel(pos, p, propagate, vfr, fin);
        pos := p;
      }
      AtRoot(St(), pos);
      CompoundRoot(fin, pos, vfr);
    }

    static lemma CompoundRoot(fin: Tree, pos: Gid, v: int)
      requires pos < |fin| && Rooted(fin) && fin[pos].parent.None?
      ensures Compound(fin, pos, v) == v
    {
    }

    static lemma Above(gs: Tree, pos: Gid)
      requires pos < |gs| && Rooted(gs)
      ensures gs[pos].parent.Some? ==> gs[pos].parent.value < pos
    {
    }

    static lemma AtRoot(gs: Tree, pos: Gid)
      requires pos < |gs| && Rooted(gs) && gs[pos].parent.None?
      ensures ActivateUp(gs, pos) == gs
    {
    }

    static lemma UpOne(gs: Tree, pos: Gid, p: Gid)
      requires pos < |gs| && Rooted(gs) && gs[pos].parent == Some(p) && p < pos
      ensures var gs1 := gs[pos := UpdateWeight(gs[pos])];
        var gs2 := gs1[p := Joined(gs1[p], gs1[pos].weight)];
        Rooted(gs2) && ActivateUp(gs, pos) == if gs[p].nrActive == 0 then ActivateUp(gs2, p) else gs2
    {
    }

    /** What the finished hierarchy has in common with the present one at `pos`. */
    static lemma Meets(gs: Tree, pos: Gid, propagate: bool, fin: Tree)
      requires pos < |gs| && Rooted(gs) && fin == (if propagate then ActivateUp(gs, pos) else gs)
      ensures |fin| == |gs| && fin[pos].childrenWeight == gs[pos].childrenWeight
      ensures fin[pos].parent == gs[pos].parent && fin[pos].nrActive == gs[pos].nrActive
    {
      ActivateUpKeepsWeightSum(gs, pos);
    }

    static lemma SameLevel(gs: Tree, pos: Gid, p: Gid, propagate: bool, fin: Tree)
      requires p < pos < |gs| && Rooted(gs) && fin == (if propagate then ActivateUp(gs, p) else gs)
      ensures fin[pos] == gs[pos]
    {
      ActivateUpFrame(gs, p, pos);
    }

    static lemma Positive(fin: Tree, pos: Gid, p: Gid)
      requires Accounted(fin) && pos < |fin| && fin[pos].nrActive > 0 && fin[pos].parent == Some(p)
      ensures p < |fin| && fin[p].nrActive > 0 && fin[p].childrenWeight > 0
    {
      ParentActive(fin, pos);
    }

    /** cfq_group_service_tree_add; `bug` says that its BUG_ON would have fired. */
    method ServiceTreeAdd(i: Gid) returns (bug: bool)
      requires Accounted(St()) && i < groups.Length && !groups[i].onTree
      modifies groups
      ensures !bug && St() == Add(old(St()), i) && Accounted(St())
    {
      hide Accounted, Compound, ActivateUp;
      ghost var gs := St();
      AccountedRooted(gs);
      AddAccounts(gs, i);
      EnterAccounts(gs, i);
      ghost var fin := Enter(gs, i);
      bug := groups[i].onTree;
      var g := groups[i];
      if g.newLeafWeight != 0 { g := g.(leafWeight := g.newLeafWeight, newLeafWeight := 0); }
      g := g.(onTree := true);
      var propagate := g.nrActive == 0;
      g := g.(nrActive := g.nrActive + 1, childrenWeight := g.childrenWeight + g.leafWeight);
      groups[i] := g;
      assert Rooted(St());
      Meets(St(), i, propagate, fin);
      LeafShare(fin, i);
      ActivateUpFrame(St(), i, i);
      var vfr := WalkUp(i, propagate, ONE * g.leafWeight / g.childrenWeight, fin);
      groups[i] := groups[i].(vfraction := if vfr < 1 then 1 else vfr);
    }

    static lemma LeafShare(fin: Tree, i: Gid)
      requires Accounted(fin) && i < |fin| && fin[i].onTree
      ensures fin[i].childrenWeight > 0 && fin[i].nrActive > 0
    {
      assert Short(fin, i, 0, 0);
      AccountFacts(fin, i);
    }

    // -------------------------------------------------------------- removal

    /** The hierarchy with group `i` already counted as off the tree. */
    static ghost function Off(gs: Tree, i: Gid): Tree
      requires i < |gs|
    {
      gs[i := gs[i].(onTree := false)]
    }

    /** Group `pos` has become inactive and its parent does not know yet. */
    static ghost predicate Falling(gs: Tree, pos: Gid) {
      && pos < |gs| && AccountedBut(gs, gs[pos].parent) && gs[pos].nrActive == 0
      && (gs[pos].parent.Some? ==> Short(gs, gs[pos].parent.value, -1, -(gs[pos].weight as int)))
    }

    static lemma FallingFacts(gs: Tree, pos: Gid)
      requires Falling(gs, pos)
      ensures pos < |gs| && Rooted(gs) && gs[pos].childrenWeight == 0
      ensures gs[pos].parent.Some? ==> gs[pos].parent.value < pos
    {
      AccountFacts(gs, pos);
    }

    /** One level of the way down, on values. */
    static lemma FallLevel(gs: Tree, pos: Gid, p: Gid)
      requires Falling(gs, pos) && gs[pos].parent == Some(p)
      ensures var gs1 := gs[pos := gs[pos].(vfraction := 0)];
        var gs2 := gs1[p := Parted(gs1[p], gs1[pos].weight)];
        && Rooted(gs2) && (gs2[p].nrActive == 0 ==> Falling(gs2, p))
        && DeactivateUp(gs, pos) == if gs2[p].nrActive == 0 then DeactivateUp(gs2, p) else gs2
    {
      hide Short;
      PartLevel(gs, pos, p);
      var gs1 := gs[pos := gs[pos].(vfraction := 0)];
      var gs2 := gs1[p := Parted(gs1[p], gs1[pos].weight)];
      PartsNonNegative(gs2, p);
    }

    static lemma FallRoot(gs: Tree, pos: Gid)
      requires Falling(gs, pos) && gs[pos].parent.None?
      ensures DeactivateUp(gs, pos) == gs[pos := gs[pos].(vfraction := 0)]
    {
    }

    /** One turn of the loop of cfq_group_service_tree_del; `warn` is its WARN_ON_ONCE. */
    method PartParent(i: Gid, pos: Gid) returns (warn: bool, more: bool, up: Gid)
      requires i < groups.Length && Falling(Off(St(), i), pos)
      modifies groups
      ensures !warn && (more ==> up < pos && Falling(Off(St(), i), up))
      ensures Rooted(Off(old(St()), i)) && Rooted(Off(St(), i))
      ensures DeactivateUp(Off(old(St()), i), pos) ==
        if more then DeactivateUp(Off(St(), i), up) else Off(St(), i)
    {
      hide Falling, DeactivateUp;
      ghost var gs := Off(St(), i);
      FallingFacts(gs, pos);
      assert gs[pos].parent == groups[pos].parent && gs[pos].childrenWeight == groups[pos].childrenWeight;
      warn := groups[pos].childrenWeight != 0;
      groups[pos] := groups[pos].(vfraction := 0);
      more, up := false, pos;
      ghost var gs1 := gs[pos := gs[pos].(vfraction := 0)];
      assert Off(St(), i) == gs1;
      if groups[pos].parent.Some? {
        up := groups[pos].parent.value;
        FallLevel(gs, pos, up);
        groups[up] := groups[up].(nrActive := groups[up].nrActive - 1);
        groups[up] := groups[up].(childrenWeight := groups[up].childrenWeight - groups[pos].weight);
        more := groups[up].nrActive == 0;
        assert Off(St(), i) == gs1[up := Parted(gs1[up], gs1[pos].weight)];
      } else {
        FallRoot(gs, pos);
      }
    }

    /** cfq_group_service_tree_del; `warn` says that its warning would have fired. */
    method ServiceTreeDel(i: Gid) returns (warn: bool)
      requires Accounted(St()) && i < groups.Length && groups[i].onTree
      modifies groups
      ensures !warn && St() == Del(old(St()), i) && Accounted(St())
    {
      hide Falling, DeactivateUp, Accounted;
      ghost var gs := St();
      AccountedRooted(gs);
      DelAccounts(gs, i);
      StartDel(gs, i);
      warn := false;
      groups[i] := groups[i].(nrActive := groups[i].nrActive - 1);
      groups[i] := groups[i].(childrenWeight := groups[i].childrenWeight - groups[i].leafWeight);
      var pos: Gid, propagate := i, groups[i].nrActive == 0;
      assert Off(St(), i) == gs[i := Parted(gs[i].(onTree := false), gs[i].leafWeight)];
      while propagate
        invariant !warn && (propagate ==> Falling(Off(St(), i), pos)) && Rooted(Off(St(), i))
        invariant propagate ==> pos < groups.Length
        invariant Del(gs, i) == if propagate then DeactivateUp(Off(St(), i), pos) else Off(St(), i)
        decreases if propagate then pos + 1 else 0
      {
        var w;
        w, propagate, pos := PartParent(i, pos);
        warn := warn || w;
        if propagate { InRange(Off(St(), i), pos); }
      }
      groups[i] := groups[i].(onTree := false);
      assert St() == Del(gs, i);
    }

    static lemma InRange(gs: Tree, pos: Gid)
      requires Falling(gs, pos)
      ensures pos < |gs|
    {
    }

    static lemma StartDel(gs: Tree, i: Gid)
      requires Accounted(gs) && i < |gs| && gs[i].onTree
      ensures var gs1 := gs[i := Parted(gs[i].(onTree := false), gs[i].leafWeight)];
        Rooted(gs1) && (gs1[i].nrActive == 0 ==> Falling(gs1, i))
    {
      hide KidCount, KidWeight;
      AccountFacts(gs, i);
      var h := Parted(gs[i].(onTree := false), gs[i].leafWeight);
      var gs1 := gs[i := h];
      forall j | 0 <= j < |gs|
        ensures Short(gs1, j, if gs[i].parent == Some(j) && h.nrActive == 0 then -1 else 0,
                              if gs[i].parent == Some(j) && h.nrActive == 0 then -(h.weight as int) else 0)
      {
        assert Short(gs, j, 0, 0);
        KidUpdate(gs, i, h, j, |gs|);
      }
    }

    /** cfq_group_served, after the charge has been worked out. */
    method GroupServed(i: Gid, charge: U32, long: Long) returns (bug: bool)
      requires Accounted(St()) && Fractions(St()) && i < groups.Length && groups[i].onTree
      modifies groups
      ensures !bug && St() == Served(old(St()), i, charge, long) && Accounted(St()) && Fractions(St())
      ensures charge * ONE < LongSize(long) ==> groups[i].vdisktime >= old(groups[i].vdisktime) + charge * ONE
      ensures var (paid, vfr) := (groups[i].vdisktime - old(groups[i].vdisktime), old(groups[i].vfraction));
        charge * ONE < LongSize(long) ==> vfr * paid <= charge * ONE * ONE < vfr * (paid + 1)
    {
      hide Accounted, Add, Del, Fractions;
      ghost var gs := St();
      AccountedRooted(gs);
      ServedFractions(gs, i, charge, long);
      if charge * ONE < LongSize(long) { ServedPays(gs, i, charge, long); }
      ServedAccounts(gs, i, charge, long);
      Fraction1(gs, i);
      var vfr := groups[i].vfraction;
      var warn := ServiceTreeDel(i);
      DelAccounts(gs, i);
      ghost var gs1 := St();
      var c := (charge * ONE) % LongSize(long);
      c := c * ONE % U64_SIZE;
      groups[i] := groups[i].(vdisktime := groups[i].vdisktime + c / vfr);
      assert St() == gs1[i := gs1[i].(vdisktime := gs1[i].vdisktime + ScaleCharge(long, charge, gs[i].vfraction))];
      AccountsSame(gs1, i, St()[i]);
      bug := ServiceTreeAdd(i);
      bug := bug || warn;
    }

    static lemma Fraction1(gs: Tree, i: Gid)
      requires Fractions(gs) && i < |gs| && gs[i].onTree
      ensures gs[i].vfraction >= 1
    {
    }
  }
}
