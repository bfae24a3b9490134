/**
What CFQ's fixed-point numbers amount to: a fraction is the exact share but for the rounding of each level, a charge
is divided by the fraction, and a weight that was set takes effect when the group becomes active, not before.
*/
module CfqExact {
  import opened Arithmetic
  import opened Common
  import opened Cfq
  import opened CfqAccounting
  import opened CfqShares

  // ---------------------------------------------------------------- fractions

  /** The levels above a group. */
  function Level(gs: Tree, i: Gid): nat
    requires i < |gs| && Rooted(gs)
    decreases i
  {
    match gs[i].parent
    case None => 0
    case Some(p) => 1 + Level(gs, p)
  }

  lemma RatioBelow(a: int, b: int)
    requires b > 0
    ensures Ratio(a, b) < (a / b) as real + 1.0
  {
    var d := a / b;
    assert a < (d + 1) * b;
    assert ((d + 1) * b) as real == (d as real + 1.0) * b as real;
    var q := a as real / b as real;
    assert q * b as real == a as real;
    if q >= d as real + 1.0 { MulLe(d as real + 1.0, q, b as real); }
  }

  /** One level of rounding loses less than one. */
  lemma LevelAbove(v: int, w: nat, c: int)
    requires v >= 0 && c > 0
    ensures Div(v * w, c) as real > v as real * Ratio(w, c) - 1.0
  {
    hide Ratio;
    RatioBelow(v * w, c);
    RatioScale(v, w, c);
  }

  lemma LosesOne(v: real, r: real, d: real, q: real, n: real, x: real)
    requires d > v * r - 1.0 && 0.0 <= q <= 1.0 && x >= d * q - n
    ensures x >= v * (r * q) - (n + 1.0)
  {
    Less(v * r, d, q);
    Assoc(v, r, q);
  }

  lemma Less(a: real, d: real, q: real)
    requires d > a - 1.0 && 0.0 <= q <= 1.0
    ensures d * q >= a * q - 1.0
  {
    NonNegative(d - (a - 1.0), q);
    assert (d - (a - 1.0)) * q == d * q - a * q + q;
  }

  lemma {:induction false} CompoundAbove(gs: Tree, pos: Gid, v: int)
    requires pos < |gs| && Accounted(gs) && v >= 0 && gs[pos].nrActive > 0
    ensures Rooted(gs) && Compound(gs, pos, v) as real >= v as real * Part(gs, pos) - Level(gs, pos) as real
    decreases pos
  {
    hide Accounted, Div, Ratio;
    AccountedRooted(gs);
    if gs[pos].parent.Some? {
      var p := gs[pos].parent.value;
      var (w, c) := (gs[pos].weight, gs[p].childrenWeight);
      var d := Div(v * w, c);
      ParentActive(gs, pos);
      ActiveWeight(gs, p);
      PartBound(gs, p);
      LevelBelow(v, w, c);
      LevelAbove(v, w, c);
      CompoundAbove(gs, p, d);
      LosesOne(v as real, Ratio(w, c), d as real, Part(gs, p), Level(gs, p) as real, Compound(gs, p, d) as real);
    }
  }

  lemma ActiveWeight(gs: Tree, i: Gid)
    requires Accounted(gs) && i < |gs| && gs[i].nrActive > 0
    ensures gs[i].childrenWeight > 0
  {
    AccountFacts(gs, i);
  }

  /** The fraction of a group on the tree is at most its exact share, and less by at most one for its own tasks and one
      for every level above it. */
  lemma FractionExactly(gs: Tree, i: Gid)
    requires i < |gs| && Accounted(gs) && gs[i].onTree
    ensures Rooted(gs)
    ensures ONE as real * Due(gs, i) - (Level(gs, i) as real + 1.0) <= Fraction(gs, i) as real
    ensures Fraction(gs, i) as real <= ONE as real * Due(gs, i)
  {
    hide Div, Ratio, Part, Compound, Short;
    AccountFacts(gs, i);
    PartBound(gs, i);
    FractionBelow(gs, i);
    var (l, c) := (gs[i].leafWeight, gs[i].childrenWeight);
    var v := Div(ONE * l, c);
    LevelBelow(ONE, l, c);
    LevelAbove(ONE, l, c);
    CompoundAbove(gs, i, v);
    LosesOne(ONE as real, Ratio(l, c), v as real, Part(gs, i), Level(gs, i) as real, Compound(gs, i, v) as real);
  }

  /** That is what cfq_group_service_tree_add stores, but never less than one. */
  lemma AddStores(gs: Tree, i: Gid)
    requires Accounted(gs) && i < |gs| && !gs[i].onTree
    ensures Rooted(gs)
    ensures var (e, f) := (Enter(gs, i), Add(gs, i)[i].vfraction as real);
      && e[i].onTree && f >= 1.0
      && ONE as real * Due(e, i) - (Level(e, i) as real + 1.0) <= f
      && (f > 1.0 ==> f <= ONE as real * Due(e, i))
  {
    hide Accounted, Enter, Fraction, Due;
    AccountedRooted(gs);
    EnterAccounts(gs, i);
    EnterOnTree(gs, i);
    FractionExactly(Enter(gs, i), i);
  }

  lemma EnterOnTree(gs: Tree, i: Gid)
    requires Rooted(gs) && i < |gs|
    ensures Enter(gs, i)[i].onTree
  {
    var g := UpdateLeafWeight(gs[i]);
    ActivateUpFrame(gs[i := Joined(g.(onTree := true), g.leafWeight)], i, i);
  }

  // ---------------------------------------------------------------- charges

  /** The scaled charge is the charge divided by the fraction, both in fixed point, rounded down. */
  lemma ScaleIsQuotient(long: Long, charge: U32, v: nat)
    requires v >= 1 && charge * ONE < LongSize(long)
    ensures var s := ScaleCharge(long, charge, v); v * s <= charge * ONE * ONE < v * (s + 1)
  {
    var (c, n) := (charge * ONE, charge * ONE * ONE);
    assert c % LongSize(long) == c && n % U64_SIZE == n;
    DivMod(n, v);
    var s := n / v;
    assert ScaleCharge(long, charge, v) == s;
    assert v * s == s * v && v * (s + 1) == s * v + v;
  }

  /** A group with half the fraction pays twice as much, but for one unit of rounding. */
  lemma HalfPaysTwice(long: Long, charge: U32, v: nat)
    requires v >= 1 && charge * ONE < LongSize(long)
    ensures var (half, whole) := (ScaleCharge(long, charge, v), ScaleCharge(long, charge, 2 * v));
      2 * whole <= half <= 2 * whole + 1
  {
    hide ScaleCharge;
    ScaleIsQuotient(long, charge, v);
    ScaleIsQuotient(long, charge, 2 * v);
    var (half, whole) := (ScaleCharge(long, charge, v), ScaleCharge(long, charge, 2 * v));
    assert 2 * v * whole == 2 * whole * v && 2 * v * (whole + 1) == (2 * whole + 2) * v;
    assert v * (half + 1) == (half + 1) * v && v * half == half * v;
    if half + 1 <= 2 * whole { MulMono(v, half + 1, 2 * whole); }
    if 2 * whole + 2 <= half { MulMono(v, 2 * whole + 2, half); }
  }

  /** Serving a group moves its vdisktime forward by the charge over its fraction. */
  lemma ServedPays(gs: Tree, i: Gid, charge: U32, long: Long)
    requires Accounted(gs) && Fractions(gs) && i < |gs| && gs[i].onTree && charge * ONE < LongSize(long)
    ensures Rooted(gs)
    ensures var paid := Served(gs, i, charge, long)[i].vdisktime - gs[i].vdisktime;
      gs[i].vfraction * paid <= charge * ONE * ONE < gs[i].vfraction * (paid + 1)
  {
    hide Accounted, Served, ScaleCharge, LongSize;
    ServedFractions(gs, i, charge, long);
    ScaleIsQuotient(long, charge, gs[i].vfraction);
  }

  // ---------------------------------------------------------------- weights

  /** The weight a group has once a change that waits has taken effect. */
  function Effective(g: Group): nat { if g.newWeight == 0 then g.weight else g.newWeight }

  lemma {:induction false} ActivateUpEffect(gs: Tree, pos: Gid, j: Gid)
    requires pos < |gs| && Rooted(gs) && j < |gs| && gs[pos].nrActive > 0
    ensures var r := ActivateUp(gs, pos)[j];
      if j != 0 && (j == pos || (gs[j].nrActive == 0 && r.nrActive != 0))
      then r.weight == Effective(gs[j]) && r.newWeight == 0
      else r.weight == gs[j].weight && r.newWeight == gs[j].newWeight
    decreases pos
  {
    if gs[pos].parent.Some? {
      var p := gs[pos].parent.value;
      var gs1 := gs[pos := UpdateWeight(gs[pos])];
      var gs2 := gs1[p := Joined(gs1[p], gs1[pos].weight)];
      if gs[p].nrActive == 0 {
        ActivateUpEffect(gs2, p, j);
        if j == pos { ActivateUpFrame(gs2, p, j); }
        StillActive(gs2, p);
      }
    }
  }

  /** A weight that waits takes effect when, and only when, its group becomes active; a leaf weight when the group
      itself goes on the tree. */
  lemma WeightTakesEffect(gs: Tree, i: Gid, j: Gid)
    requires Accounted(gs) && i < |gs| && j < |gs| && !gs[i].onTree
    ensures Rooted(gs)
    ensures var r := Add(gs, i)[j];
      if j != 0 && gs[j].nrActive == 0 && r.nrActive != 0
      then r.weight == Effective(gs[j]) && r.newWeight == 0
      else r.weight == gs[j].weight && r.newWeight == gs[j].newWeight
    ensures Add(gs, i)[i].leafWeight == (if gs[i].newLeafWeight == 0 then gs[i].leafWeight else gs[i].newLeafWeight)
    ensures j != i ==> Add(gs, i)[j].leafWeight == gs[j].leafWeight
  {
    hide KidCount, KidWeight, Fraction;
    AccountFacts(gs, i);
    var g := UpdateLeafWeight(gs[i]);
    var gs1 := gs[i := Joined(g.(onTree := true), g.leafWeight)];
    if gs[i].nrActive == 0 {
      ActivateUpEffect(gs1, i, j);
      ActivateUpFrame(gs1, i, i);
      ActivateUpFrame(gs1, i, j);
      StillActive(gs1, i);
    }
  }

  lemma {:induction false} StillActive(gs: Tree, pos: Gid)
    requires pos < |gs| && Rooted(gs)
    ensures ActivateUp(gs, pos)[pos].nrActive == gs[pos].nrActive
  {
    if gs[pos].parent.Some? {
      var p := gs[pos].parent.value;
      var gs1 := gs[pos := UpdateWeight(gs[pos])];
      var gs2 := gs1[p := Joined(gs1[p], gs1[pos].weight)];
      if gs[p].nrActive == 0 { ActivateUpFrame(gs2, p, pos); }
    }
  }
}
