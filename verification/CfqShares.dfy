/**
What follows from the accounting: removal undoes addition, and the fractions handed out by
cfq_group_service_tree_add never add up to more than the whole.
*/
module CfqShares {
  import opened Arithmetic
  import opened Common
  import opened Cfq
  import opened CfqAccounting

  // ---------------------------------------------------------------- the accounting determines the counts

  /** The same hierarchy, the same members, and the same weights where they count. */
  ghost predicate Alike(a: Tree, b: Tree) {
    && |a| == |b|
    && forall i :: 0 <= i < |a| ==>
      && a[i].parent == b[i].parent && a[i].onTree == b[i].onTree
      && (a[i].nrActive > 0 ==> a[i].weight == b[i].weight)
      && (a[i].onTree ==> a[i].leafWeight == b[i].leafWeight)
  }

  lemma {:induction false} KidAgree(a: Tree, b: Tree, i: Gid, n: nat)
    requires Alike(a, b) && Rooted(a) && n <= |a|
    requires forall j :: i < j < |a| ==> a[j].nrActive == b[j].nrActive
    ensures KidCount(a, i, n) == KidCount(b, i, n) && KidWeight(a, i, n) == KidWeight(b, i, n)
    decreases n
  {
    if n > 0 { KidAgree(a, b, i, n - 1); }
  }

  lemma {:induction false} CountsAgree(a: Tree, b: Tree, k: nat)
    requires Accounted(a) && Accounted(b) && Alike(a, b) && k <= |a|
    ensures forall i :: k <= i < |a| ==>
      a[i].nrActive == b[i].nrActive && a[i].childrenWeight == b[i].childrenWeight
    decreases |a| - k
  {
    if k < |a| {
      CountsAgree(a, b, k + 1);
      KidAgree(a, b, k, |a|);
      assert Short(a, k, 0, 0) && Short(b, k, 0, 0);
    }
  }

  // ---------------------------------------------------------------- removal undoes addition

  /** Activation leaves the weights of groups that were active already alone. */
  lemma {:induction false} ActivateUpWeights(gs: Tree, pos: Gid, j: Gid)
    requires pos < |gs| && Rooted(gs) && j < |gs| && j != pos && gs[j].nrActive > 0
    ensures ActivateUp(gs, pos)[j].weight == gs[j].weight
    decreases pos
  {
    if gs[pos].parent.Some? {
      var p := gs[pos].parent.value;
      var gs1 := gs[pos := UpdateWeight(gs[pos])];
      var gs2 := gs1[p := Joined(gs1[p], gs1[pos].weight)];
      if gs[p].nrActive == 0 { ActivateUpWeights(gs2, p, j); }
    }
  }

  lemma AddFrame(gs: Tree, i: Gid, j: Gid)
    requires Rooted(gs) && i < |gs| && j < |gs|
    ensures var g := Add(gs, i)[j];
      && g.parent == gs[j].parent
      && (j != i ==> g.onTree == gs[j].onTree && g.leafWeight == gs[j].leafWeight)
      && (gs[j].nrActive > 0 ==> g.weight == gs[j].weight)
      && g.vdisktime == gs[j].vdisktime
  {
    var u := UpdateLeafWeight(gs[i]);
    var gs1 := gs[i := Joined(u.(onTree := true), u.leafWeight)];
    if gs[i].nrActive == 0 {
      ActivateUpFrame(gs1, i, j);
      ActivateUpParents(gs1, i, j);
      if j != i && gs[j].nrActive > 0 { ActivateUpWeights(gs1, i, j); }
    }
  }

  lemma {:induction false} ActivateUpParents(gs: Tree, pos: Gid, j: Gid)
    requires pos < |gs| && Rooted(gs) && j < |gs|
    ensures ActivateUp(gs, pos)[j].parent == gs[j].parent
    decreases pos
  {
    if gs[pos].parent.Some? {
      var p := gs[pos].parent.value;
      var gs1 := gs[pos := UpdateWeight(gs[pos])];
      var gs2 := gs1[p := Joined(gs1[p], gs1[pos].weight)];
      if gs[p].nrActive == 0 { ActivateUpParents(gs2, p, j); }
    }
  }

  lemma {:induction false} DeactivateUpParents(gs: Tree, pos: Gid, j: Gid)
    requires pos < |gs| && Rooted(gs) && j < |gs|
    ensures DeactivateUp(gs, pos)[j].parent == gs[j].parent
    decreases pos
  {
    var gs1 := gs[pos := gs[pos].(vfraction := 0)];
    if gs[pos].parent.Some? {
      var p := gs[pos].parent.value;
      var gs2 := gs1[p := Parted(gs1[p], gs1[pos].weight)];
      if gs2[p].nrActive == 0 { DeactivateUpParents(gs2, p, j); }
    }
  }

  lemma DelFrame(gs: Tree, i: Gid, j: Gid)
    requires Rooted(gs) && i < |gs| && j < |gs|
    ensures var g := Del(gs, i)[j];
      && g.parent == gs[j].parent && g.weight == gs[j].weight && g.leafWeight == gs[j].leafWeight
      && g.vdisktime == gs[j].vdisktime && g.onTree == (gs[j].onTree && j != i)
  {
    var gs1 := gs[i := Parted(gs[i].(onTree := false), gs[i].leafWeight)];
    if gs1[i].nrActive == 0 {
      DeactivateUpFrame(gs1, i, j);
      DeactivateUpParents(gs1, i, j);
    }
  }

  /** Whatever weight changes were waiting, taking a group off again restores every count. */
  lemma DelUndoesAdd(gs: Tree, i: Gid)
    requires Accounted(gs) && i < |gs| && !gs[i].onTree
    ensures var r := Del(Add(gs, i), i);
      |r| == |gs| && forall j :: 0 <= j < |gs| ==>
        && r[j].onTree == gs[j].onTree
        && r[j].nrActive == gs[j].nrActive && r[j].childrenWeight == gs[j].childrenWeight
  {
    hide Add, Del;
    AddAccounts(gs, i);
    var a := Add(gs, i);
    DelAccounts(a, i);
    var r := Del(a, i);
    forall j | 0 <= j < |gs|
      ensures r[j].parent == gs[j].parent && r[j].onTree == gs[j].onTree
      ensures gs[j].nrActive > 0 ==> r[j].weight == gs[j].weight
      ensures gs[j].onTree ==> r[j].leafWeight == gs[j].leafWeight
    {
      AddFrame(gs, i, j);
      DelFrame(a, i, j);
    }
    CountsAgree(gs, r, 0);
  }

  // ---------------------------------------------------------------- exact shares

  ghost function Ratio(a: int, b: int): real { if b <= 0 then 0.0 else a as real / b as real }

  /** The share of the whole that the subtree of group `i` is due. */
  ghost function Part(gs: Tree, i: Gid): real
    requires i < |gs| && Rooted(gs)
    decreases i
  {
    match gs[i].parent
    case None => 1.0
    case Some(p) => Ratio(gs[i].weight, gs[p].childrenWeight) * Part(gs, p)
  }

  /** The share that the tasks of group `i` itself are due. */
  ghost function Due(gs: Tree, i: Gid): real
    requires i < |gs| && Rooted(gs)
  {
    Ratio(gs[i].leafWeight, gs[i].childrenWeight) * Part(gs, i)
  }

  lemma RatioBound(a: int, b: int)
    requires 0 <= a <= b
    ensures 0.0 <= Ratio(a, b) <= 1.0
  {
    if b > 0 { assert 0.0 <= a as real <= b as real; }
  }

  lemma MulBound(x: real, y: real)
    requires 0.0 <= x <= 1.0 && 0.0 <= y <= 1.0
    ensures 0.0 <= x * y <= 1.0
  {
    NonNegative(x, y);
    NonNegative(1.0 - x, y);
    Expand(1.0, x, y);
  }

  lemma NonNegative(x: real, y: real)
    requires 0.0 <= x && 0.0 <= y
    ensures 0.0 <= x * y
  {
  }

  lemma Expand(x: real, y: real, z: real)
    ensures (x - y) * z == x * z - y * z
  {
  }

  lemma MulLe(x: real, y: real, z: real)
    requires x <= y && 0.0 <= z
    ensures x * z <= y * z
  {
    NonNegative(y - x, z);
    Expand(y, x, z);
  }

  /** An active group's parent is active and counts its weight. */
  lemma ParentActive(gs: Tree, i: Gid)
    requires Accounted(gs) && i < |gs| && gs[i].nrActive > 0 && gs[i].parent.Some?
    ensures gs[gs[i].parent.value].nrActive > 0
    ensures gs[i].weight <= gs[gs[i].parent.value].childrenWeight
  {
    var p := gs[i].parent.value;
    assert Short(gs, p, 0, 0);
    KidIncluded(gs, p, i, |gs|);
  }

  lemma {:induction false} PartBound(gs: Tree, i: Gid)
    requires Accounted(gs) && i < |gs| && gs[i].nrActive > 0
    ensures 0.0 <= Part(gs, i) <= 1.0
    decreases i
  {
    if gs[i].parent.Some? {
      var p := gs[i].parent.value;
      ParentActive(gs, i);
      PartBound(gs, p);
      RatioBound(gs[i].weight, gs[p].childrenWeight);
      MulBound(Ratio(gs[i].weight, gs[p].childrenWeight), Part(gs, p));
    }
  }

  lemma DueBound(gs: Tree, i: Gid)
    requires Accounted(gs) && i < |gs| && gs[i].onTree
    ensures 0.0 <= Due(gs, i) <= 1.0
  {
    assert Short(gs, i, 0, 0);
    AccountFacts(gs, i);
    PartBound(gs, i);
    RatioBound(gs[i].leafWeight, gs[i].childrenWeight);
    MulBound(Ratio(gs[i].leafWeight, gs[i].childrenWeight), Part(gs, i));
  }

  // ---------------------------------------------------------------- rounding down

  lemma DivBelow(a: int, b: int)
    requires a >= 0
    ensures Div(a, b) >= 0 && Div(a, b) as real <= Ratio(a, b)
  {
    if b > 0 {
      var d := a / b;
      assert d * b <= a;
      assert (d * b) as real == d as real * b as real;
      RealDiv(d as real, a as real, b as real);
    }
  }

  lemma RealDiv(d: real, a: real, b: real)
    requires b > 0.0 && d * b <= a
    ensures d <= a / b
  {
    var q := a / b;
    assert q * b == a;
    if d > q { MulLt(q, d, b); }
  }

  lemma MulLt(x: real, y: real, z: real)
    requires x < y && 0.0 < z
    ensures x * z < y * z
  {
    assert (y - x) * z > 0.0;
  }

  lemma RatioScale(v: int, w: int, c: int)
    ensures Ratio(v * w, c) == v as real * Ratio(w, c)
  {
    if c > 0 { assert (v * w) as real == v as real * w as real; }
  }

  lemma Chained(x: real, d: real, v: real, r: real, q: real)
    requires x <= d * q && d <= v * r && 0.0 <= q
    ensures x <= v * (r * q)
  {
    MulLe(d, v * r, q);
    Assoc(v, r, q);
  }

  lemma Assoc(x: real, y: real, z: real)
    ensures (x * y) * z == x * (y * z)
  {
  }

  /** One level of rounding down. */
  lemma LevelBelow(v: int, w: nat, c: int)
    requires v >= 0
    ensures Div(v * w, c) >= 0 && Div(v * w, c) as real <= v as real * Ratio(w, c)
  {
    hide Div, Ratio;
    assert v * w >= 0;
    DivBelow(v * w, c);
    RatioScale(v, w, c);
  }

  /** Rounding down at every level stays below the exact product. */
  lemma {:induction false} CompoundBelow(gs: Tree, pos: Gid, v: int)
    requires pos < |gs| && Accounted(gs) && v >= 0 && gs[pos].nrActive > 0
    ensures 0 <= Compound(gs, pos, v) && Compound(gs, pos, v) as real <= v as real * Part(gs, pos)
    decreases pos
  {
    hide Accounted, Div, Ratio;
    AccountedRooted(gs);
    if gs[pos].parent.Some? {
      var p := gs[pos].parent.value;
      var (w, c) := (gs[pos].weight, gs[p].childrenWeight);
      var d := Div(v * w, c);
      ParentActive(gs, pos);
      PartBound(gs, p);
      LevelBelow(v, w, c);
      CompoundBelow(gs, p, d);
      Chained(Compound(gs, p, d) as real, d as real, v as real, Ratio(w, c), Part(gs, p));
    }
  }

  lemma FractionBelow(gs: Tree, i: Gid)
    requires i < |gs| && Accounted(gs) && gs[i].onTree
    ensures 0 <= Fraction(gs, i) <= ONE
    ensures Fraction(gs, i) as real <= ONE as real * Due(gs, i)
  {
    hide Div, Ratio, Part, Compound, Short;
    AccountFacts(gs, i);
    PartBound(gs, i);
    DueBound(gs, i);
    var (l, c) := (gs[i].leafWeight, gs[i].childrenWeight);
    var v := Div(ONE * l, c);
    LevelBelow(ONE, l, c);
    CompoundBelow(gs, i, v);
    Chained(Compound(gs, i, v) as real, v as real, ONE as real, Ratio(l, c), Part(gs, i));
    MulLe(Due(gs, i), 1.0, ONE as real);
  }

  // ---------------------------------------------------------------- the shares add up

  /** What the first `k` groups are due, for their own tasks. */
  ghost function DueSum(gs: Tree, k: nat): real
    requires k <= |gs| && Rooted(gs)
  {
    if k == 0 then 0.0 else DueSum(gs, k - 1) + (if gs[k - 1].onTree then Due(gs, k - 1) else 0.0)
  }

  /** Groups from `k` on whose parent comes before `k`: subtrees that have not been looked into. */
  predicate Waits(gs: Tree, k: nat, j: nat)
    requires j < |gs|
  {
    j >= k && gs[j].nrActive > 0 && (gs[j].parent.Some? ==> gs[j].parent.value < k)
  }

  ghost function WaitSum(gs: Tree, k: nat, n: nat): real
    requires n <= |gs| && Rooted(gs)
  {
    if n == 0 then 0.0 else WaitSum(gs, k, n - 1) + (if Waits(gs, k, n - 1) then Part(gs, n - 1) else 0.0)
  }

  ghost function KidSum(gs: Tree, k: Gid, n: nat): real
    requires n <= |gs| && Rooted(gs)
  {
    if n == 0 then 0.0 else KidSum(gs, k, n - 1) + (if ActiveKid(gs[n - 1], k) then Part(gs, n - 1) else 0.0)
  }

  /** Looking into group `k` replaces it by its active children. */
  lemma {:induction false} LookInto(gs: Tree, k: Gid, n: nat)
    requires n <= |gs| && Rooted(gs) && k < |gs|
    ensures WaitSum(gs, k + 1, n) ==
      WaitSum(gs, k, n) - (if k < n && gs[k].nrActive > 0 then Part(gs, k) else 0.0) + KidSum(gs, k, n)
    decreases n
  {
    hide Part;
    if n > 0 { LookInto(gs, k, n - 1); }
  }

  /** The active children of a group share its part by weight. */
  lemma {:induction false} KidsShare(gs: Tree, k: Gid, n: nat)
    requires n <= |gs| && Rooted(gs) && k < |gs| && gs[k].childrenWeight > 0
    ensures KidSum(gs, k, n) == Ratio(KidWeight(gs, k, n), gs[k].childrenWeight) * Part(gs, k)
    decreases n
  {
    hide Ratio;
    var c := gs[k].childrenWeight;
    if n == 0 {
      RatioZero(c);
    } else {
      KidsShare(gs, k, n - 1);
      if ActiveKid(gs[n - 1], k) {
        RatioAdd(KidWeight(gs, k, n - 1), gs[n - 1].weight, c);
        Distribute(Ratio(KidWeight(gs, k, n - 1), c), Ratio(gs[n - 1].weight, c), Part(gs, k));
      }
    }
  }

  lemma RatioZero(c: int)
    ensures Ratio(0, c) == 0.0
  {
  }

  lemma RatioAdd(a: int, b: int, c: int)
    requires c > 0
    ensures Ratio(a + b, c) == Ratio(a, c) + Ratio(b, c)
    ensures Ratio(c, c) == 1.0
  {
    assert (a + b) as real == a as real + b as real;
  }

  lemma Distribute(x: real, y: real, z: real)
    ensures (x + y) * z == x * z + y * z
  {
  }

  lemma {:induction false} NoKidSum(gs: Tree, k: Gid, n: nat)
    requires n <= |gs| && Rooted(gs) && KidCount(gs, k, n) == 0
    ensures KidSum(gs, k, n) == 0.0
    decreases n
  {
    if n > 0 { NoKidSum(gs, k, n - 1); }
  }

  /** A group's part is what its own tasks are due plus the parts of its active children. */
  lemma PartSplits(gs: Tree, k: Gid)
    requires Accounted(gs) && k < |gs|
    ensures (if gs[k].nrActive > 0 then Part(gs, k) else 0.0) ==
      (if gs[k].onTree then Due(gs, k) else 0.0) + KidSum(gs, k, |gs|)
  {
    hide Part, Ratio, KidSum, KidCount, KidWeight;
    assert Short(gs, k, 0, 0);
    AccountFacts(gs, k);
    if gs[k].nrActive > 0 {
      var (o, w, c) := (OwnWeight(gs[k]), KidWeight(gs, k, |gs|), gs[k].childrenWeight);
      KidsShare(gs, k, |gs|);
      RatioAdd(o, w, c);
      RatioZero(c);
      Distribute(Ratio(o, c), Ratio(w, c), Part(gs, k));
      assert o + w == c;
    } else {
      NoKidSum(gs, k, |gs|);
    }
  }

  lemma {:induction false} SharesFlow(gs: Tree, k: nat)
    requires Accounted(gs) && k <= |gs|
    ensures DueSum(gs, k) + WaitSum(gs, k, |gs|) == WaitSum(gs, 0, |gs|)
    decreases k
  {
    hide Part, Due, KidSum, WaitSum, Accounted;
    AccountedRooted(gs);
    if k > 0 {
      SharesFlow(gs, k - 1);
      LookInto(gs, k - 1, |gs|);
      PartSplits(gs, k - 1);
    }
  }

  lemma {:induction false} OnlyRootWaits(gs: Tree, n: nat)
    requires Rooted(gs) && 0 < n <= |gs|
    ensures WaitSum(gs, 0, n) == (if gs[0].nrActive > 0 then 1.0 else 0.0)
    decreases n
  {
    if n > 1 { OnlyRootWaits(gs, n - 1); }
  }

  lemma {:induction false} NoneWaits(gs: Tree, n: nat)
    requires Rooted(gs) && n <= |gs|
    ensures WaitSum(gs, |gs|, n) == 0.0
    decreases n
  {
    if n > 0 { NoneWaits(gs, n - 1); }
  }

  /** The exact shares of the groups on the tree are the whole, or nothing if none is. */
  lemma SharesAddUp(gs: Tree)
    requires Accounted(gs) && gs != []
    ensures DueSum(gs, |gs|) == (if gs[0].nrActive > 0 then 1.0 else 0.0)
  {
    hide Accounted, WaitSum, DueSum;
    AccountedRooted(gs);
    SharesFlow(gs, |gs|);
    OnlyRootWaits(gs, |gs|);
    NoneWaits(gs, |gs|);
  }

  // ---------------------------------------------------------------- fractions

  /** The fractions of the first `k` groups, taken from one snapshot. */
  ghost function FractionSum(gs: Tree, k: nat): int
    requires k <= |gs| && Rooted(gs)
  {
    if k == 0 then 0 else FractionSum(gs, k - 1) + (if gs[k - 1].onTree then Fraction(gs, k - 1) else 0)
  }

  lemma {:induction false} FractionSumBelow(gs: Tree, k: nat)
    requires Accounted(gs) && k <= |gs|
    ensures FractionSum(gs, k) as real <= ONE as real * DueSum(gs, k)
    decreases k
  {
    hide Accounted, Fraction, Due;
    AccountedRooted(gs);
    if k > 0 {
      FractionSumBelow(gs, k - 1);
      if gs[k - 1].onTree { FractionBelow(gs, k - 1); }
      Distribute(DueSum(gs, k - 1), if gs[k - 1].onTree then Due(gs, k - 1) else 0.0, ONE as real);
    }
  }

  /** In every reachable hierarchy the fractions of the groups on the tree sum to at most 1 << 12. */
  lemma FractionsWithinWhole(weight: nat, leafWeight: nat, events: seq<Event>)
    requires weight > 0 && leafWeight > 0
    ensures Rooted(Init(weight, leafWeight))
    ensures FractionSum(Run(Init(weight, leafWeight), events), |Run(Init(weight, leafWeight), events)|) <= ONE
  {
    hide FractionSum, DueSum, Run;
    InitAccounted(weight, leafWeight);
    RunAccounts(Init(weight, leafWeight), events);
    var gs := Run(Init(weight, leafWeight), events);
    FractionSumBelow(gs, |gs|);
    SharesAddUp(gs);
  }

  lemma InitAccounted(weight: nat, leafWeight: nat)
    requires weight > 0 && leafWeight > 0
    ensures Accounted(Init(weight, leafWeight))
  {
    var gs := Init(weight, leafWeight);
    assert KidCount(gs, 0, 1) == KidCount(gs, 0, 0) && KidWeight(gs, 0, 1) == KidWeight(gs, 0, 0);
  }

  /** The stored fraction lies between 1 and 1 << 12. */
  lemma AddFraction(gs: Tree, i: Gid)
    requires Accounted(gs) && i < |gs| && !gs[i].onTree
    ensures Rooted(gs) && 1 <= Add(gs, i)[i].vfraction <= ONE
  {
    hide Accounted, Enter, Fraction;
    AccountedRooted(gs);
    EnterAccounts(gs, i);
    FractionBelow(Enter(gs, i), i);
  }

  /** A charge whose first shift fits an unsigned long is never scaled below its own size; the second shift
      always fits 64 bits. */
  lemma ScaleChargeAtLeast(long: Long, charge: U32, vfraction: nat)
    requires 1 <= vfraction <= ONE && charge * ONE < LongSize(long)
    ensures ScaleCharge(long, charge, vfraction) >= charge * ONE
  {
    var (c, n) := (charge * ONE, charge * ONE * ONE);
    assert c % LongSize(long) == c && n % U64_SIZE == n;
    assert vfraction * c <= ONE * c by { MulMono(c, vfraction, ONE); }
    DivAtLeast(n, vfraction, c);
  }

  /** For the whole fraction, scaling is what is left of the first shift. */
  lemma ScaleWhole(long: Long, charge: U32)
    ensures ScaleCharge(long, charge, ONE) == (charge * ONE) % LongSize(long)
  {
    var c := (charge * ONE) % LongSize(long);
    assert c < 0x1000_0000_0000;
    assert c * ONE % U64_SIZE == c * ONE;
  }

  /** Scaling by a fraction never makes a charge smaller exactly when the first shift fits an unsigned long. */
  lemma ScaleChargeExactly(long: Long, charge: U32)
    ensures (forall v :: 1 <= v <= ONE ==> ScaleCharge(long, charge, v) >= charge * ONE)
      <==> charge * ONE < LongSize(long)
    ensures long == Long64 ==> charge * ONE < LongSize(long)
  {
    if charge * ONE < LongSize(long) {
      forall v | 1 <= v <= ONE ensures ScaleCharge(long, charge, v) >= charge * ONE {
        ScaleChargeAtLeast(long, charge, v);
      }
    } else {
      ScaleWhole(long, charge);
    }
  }

  /** On 32 bits a charge of 1 << 20 is lost altogether. */
  lemma ChargeLost(vfraction: nat)
    requires vfraction >= 1
    ensures ScaleCharge(Long32, 0x10_0000, vfraction) == 0
  {
  }

  lemma DivAtLeast(n: nat, v: nat, c: nat)
    requires v >= 1 && c * v <= n
    ensures n / v >= c
  {
    DivMod(n, v);
    if n / v < c { MulStep(v, n / v, c); }
  }

  // ---------------------------------------------------------------- stored fractions over a run

  ghost predicate Fractions(gs: Tree) {
    forall i :: 0 <= i < |gs| && gs[i].onTree ==> 1 <= gs[i].vfraction <= ONE
  }

  /** Only groups off the tree have their fraction cleared. */
  lemma {:induction false} DeactivateUpFraction(gs: Tree, pos: Gid, j: Gid)
    requires pos < |gs| && AccountedBut(gs, gs[pos].parent) && gs[pos].nrActive == 0
    requires gs[pos].parent.Some? ==> Short(gs, gs[pos].parent.value, -1, -(gs[pos].weight as int))
    requires j < |gs| && gs[j].onTree
    ensures DeactivateUp(gs, pos)[j].vfraction == gs[j].vfraction
    decreases pos
  {
    hide Short;
    AccountFacts(gs, pos);
    var gs1 := gs[pos := gs[pos].(vfraction := 0)];
    if gs[pos].parent.Some? {
      var p := gs[pos].parent.value;
      PartLevel(gs, pos, p);
      var gs2 := gs1[p := Parted(gs1[p], gs1[pos].weight)];
      PartsNonNegative(gs2, p);
      if gs2[p].nrActive == 0 { DeactivateUpFraction(gs2, p, j); }
    }
  }

  lemma DelFraction(gs: Tree, i: Gid, j: Gid)
    requires Accounted(gs) && i < |gs| && gs[i].onTree && j < |gs| && gs[j].onTree && j != i
    ensures Rooted(gs) && Del(gs, i)[j].vfraction == gs[j].vfraction
  {
    hide KidCount, KidWeight;
    AccountFacts(gs, i);
    var h := Parted(gs[i].(onTree := false), gs[i].leafWeight);
    var gs1 := gs[i := h];
    forall k | 0 <= k < |gs|
      ensures Short(gs1, k, if gs[i].parent == Some(k) && h.nrActive == 0 then -1 else 0,
                            if gs[i].parent == Some(k) && h.nrActive == 0 then -(h.weight as int) else 0)
    {
      assert Short(gs, k, 0, 0);
      KidUpdate(gs, i, h, k, |gs|);
    }
    if h.nrActive == 0 { DeactivateUpFraction(gs1, i, j); }
  }

  lemma AddFractions(gs: Tree, i: Gid)
    requires Accounted(gs) && i < |gs| && !gs[i].onTree && Fractions(gs)
    ensures Rooted(gs) && Fractions(Add(gs, i))
  {
    AddFraction(gs, i);
    forall j | 0 <= j < |gs| && j != i
      ensures Add(gs, i)[j].onTree == gs[j].onTree && Add(gs, i)[j].vfraction == gs[j].vfraction
    {
      AddFrame(gs, i, j);
      var u := UpdateLeafWeight(gs[i]);
      ActivateUpFrame(gs[i := Joined(u.(onTree := true), u.leafWeight)], i, j);
    }
  }

  lemma DelFractions(gs: Tree, i: Gid)
    requires Accounted(gs) && i < |gs| && gs[i].onTree && Fractions(gs)
    ensures Rooted(gs) && Fractions(Del(gs, i))
  {
    hide Accounted, Del;
    AccountedRooted(gs);
    forall j | 0 <= j < |gs| && Del(gs, i)[j].onTree ensures 1 <= Del(gs, i)[j].vfraction <= ONE {
      DelFrame(gs, i, j);
      DelFraction(gs, i, j);
    }
  }

  lemma ServedFractions(gs: Tree, i: Gid, charge: U32, long: Long)
    requires Accounted(gs) && i < |gs| && gs[i].onTree && Fractions(gs)
    ensures Rooted(gs) && Fractions(Served(gs, i, charge, long))
    ensures Served(gs, i, charge, long)[i].vdisktime == gs[i].vdisktime + ScaleCharge(long, charge, gs[i].vfraction)
    ensures charge * ONE < LongSize(long) ==>
      Served(gs, i, charge, long)[i].vdisktime >= gs[i].vdisktime + charge * ONE
  {
    hide Accounted, Add, Del, ScaleCharge;
    AccountedRooted(gs);
    DelAccounts(gs, i);
    DelFractions(gs, i);
    DelFrame(gs, i, i);
    var gs1 := Del(gs, i);
    var g := gs1[i].(vdisktime := gs1[i].vdisktime + ScaleCharge(long, charge, gs[i].vfraction));
    AccountsSame(gs1, i, g);
    AddFractions(gs1[i := g], i);
    AddFrame(gs1[i := g], i, i);
    if charge * ONE < LongSize(long) { ScaleChargeAtLeast(long, charge, gs[i].vfraction); }
  }

  lemma NextFractions(gs: Tree, e: Event)
    requires Accounted(gs) && Fractions(gs)
    ensures Rooted(gs) && Fractions(Next(gs, e))
  {
    hide Accounted, Add, Del, Served;
    AccountedRooted(gs);
    if Enabled(gs, e) {
      match e {
        case AddEv(i) => AddFractions(gs, i);
        case DelEv(i) => DelFractions(gs, i);
        case ServedEv(i, charge, long) => ServedFractions(gs, i, charge, long);
        case _ =>
      }
    }
  }

  lemma {:induction false} RunFractions(gs: Tree, events: seq<Event>)
    requires Accounted(gs) && Fractions(gs)
    ensures Rooted(gs) && Accounted(Run(gs, events)) && Fractions(Run(gs, events))
    decreases |events|
  {
    hide Accounted, Next, Fractions;
    AccountedRooted(gs);
    if events != [] {
      NextAccounts(gs, events[0]);
      NextFractions(gs, events[0]);
      RunFractions(Next(gs, events[0]), events[1..]);
    }
  }

  ghost predicate Reached(gs: Tree) {
    && Rooted(gs)
    && exists weight, leafWeight, events ::
         weight > 0 && leafWeight > 0 && Rooted(Init(weight, leafWeight)) && gs == Run(Init(weight, leafWeight), events)
  }

  lemma ReachedFractions(gs: Tree)
    requires Reached(gs)
    ensures Accounted(gs) && Fractions(gs)
  {
    hide Run, Accounted;
    var weight, leafWeight, events :|
      weight > 0 && leafWeight > 0 && Rooted(Init(weight, leafWeight)) && gs == Run(Init(weight, leafWeight), events);
    InitAccounted(weight, leafWeight);
    RunFractions(Init(weight, leafWeight), events);
  }

  /** Serving group `i` moves its vdisktime forward by at least charge << 12. */
  ghost predicate Advances(gs: Tree, i: Gid, charge: U32, long: Long)
    requires Rooted(gs) && i < |gs|
  {
    Served(gs, i, charge, long)[i].vdisktime >= gs[i].vdisktime + charge * ONE
  }

  /** The root alone on the tree has the whole of the disk. */
  lemma RootAlone()
    ensures Reached(Add(Init(1, 1), 0)) && Add(Init(1, 1), 0)[0].onTree && Add(Init(1, 1), 0)[0].vfraction == ONE
  {
    hide Add, Accounted;
    InitAccounted(1, 1);
    AccountedRooted(Init(1, 1));
    AddRoot(Init(1, 1));
    var (gs, e) := (Init(1, 1), AddEv(0));
    assert [e][1..] == [];
    assert Run(gs, [e]) == Run(Next(gs, e), []) == Next(gs, e) == Add(gs, 0);
  }

  lemma AddRoot(gs: Tree)
    requires Rooted(gs) && |gs| == 1 && gs[0].nrActive == gs[0].childrenWeight == gs[0].newLeafWeight == 0
    requires gs[0].leafWeight == 1
    ensures Add(gs, 0)[0].onTree && Add(gs, 0)[0].vfraction == ONE
  {
    var gs1 := Enter(gs, 0);
    assert gs1[0].parent.None? && gs1[0].leafWeight == 1 && gs1[0].childrenWeight == 1;
    assert Fraction(gs1, 0) == ONE;
  }

  /** Over every run, serving a group with a charge moves it forward by at least charge << 12, exactly when that
      shift fits an unsigned long. */
  lemma ServingAdvancesExactly(charge: U32, long: Long)
    ensures (forall gs: Tree, i: Gid :: Reached(gs) && i < |gs| && gs[i].onTree ==> Advances(gs, i, charge, long))
      <==> charge * ONE < LongSize(long)
  {
    hide Reached, Accounted, Served, ScaleCharge, Add, LongSize;
    if charge * ONE < LongSize(long) {
      forall gs: Tree, i: Gid | Reached(gs) && i < |gs| && gs[i].onTree
        ensures Rooted(gs) && Advances(gs, i, charge, long)
      {
        ReachedFractions(gs);
        ServedFractions(gs, i, charge, long);
      }
    } else {
      RootAlone();
      var gs := Add(Init(1, 1), 0);
      ReachedFractions(gs);
      ServedFractions(gs, 0, charge, long);
      ScaleWhole(long, charge);
      assert (charge * ONE) % LongSize(long) < charge * ONE by { LongSizePositive(long); }
      assert !Advances(gs, 0, charge, long);
    }
  }

  lemma LongSizePositive(long: Long)
    ensures LongSize(long) > 0
  {
  }
}
