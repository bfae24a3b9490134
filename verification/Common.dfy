/** What the other modules share. */
module Common {

  datatype Option<T> = None | Some(value: T)

  predicate Distinct<T(==)>(q: seq<T>) { forall i, j :: 0 <= i < j < |q| ==> q[i] != q[j] }

  lemma DistinctPrepend<T>(x: T, q: seq<T>)
    requires Distinct(q) && x !in q
    ensures Distinct([x] + q)
  {
    var r := [x] + q;
    forall i, j | 0 <= i < j < |r| ensures r[i] != r[j] {
      assert r[j] == q[j - 1];
    }
  }

  lemma DistinctAppend<T>(q: seq<T>, x: T)
    requires Distinct(q) && x !in q
    ensures Distinct(q + [x])
  {
  }

  /** list_del: a list without one of its entries. */
  function Without<T(==)>(q: seq<T>, x: T): seq<T> {
    if q == [] then []
    else if q[0] == x then Without(q[1..], x)
    else [q[0]] + Without(q[1..], x)
  }

  lemma {:induction false} WithoutMembers<T>(q: seq<T>, x: T)
    ensures forall y :: y in Without(q, x) <==> y in q && y != x
    ensures Distinct(q) ==> Distinct(Without(q, x))
    ensures x !in q ==> Without(q, x) == q
  {
    if q != [] {
      assert q == [q[0]] + q[1..];
      WithoutMembers(q[1..], x);
      if q[0] != x && Distinct(q) {
        assert q[0] !in q[1..];
        DistinctPrepend(q[0], Without(q[1..], x));
      }
    }
  }
}

/** Multiplication and division of natural numbers. */
module Arithmetic {

  lemma MulStep(g: nat, a: nat, b: nat)
    requires a < b
    ensures a * g + g <= b * g
  {
    assert b * g == a * g + (b - a) * g && (b - a) * g == (b - a - 1) * g + g && (b - a - 1) * g >= 0;
  }

  lemma MulMono(g: nat, a: nat, b: nat)
    requires a <= b
    ensures a * g <= b * g
  {
    if a < b { MulStep(g, a, b); }
  }

  lemma DivMod(n: nat, g: nat)
    requires g >= 1
    ensures n == n / g * g + n % g && 0 <= n % g < g
  {
  }

  lemma DivUnique(n: nat, g: nat, q: nat, r: nat)
    requires g >= 1 && n == q * g + r && r < g
    ensures n / g == q && n % g == r
  {
    DivMod(n, g);
    if n / g < q { MulStep(g, n / g, q); }
    if n / g > q { MulStep(g, q, n / g); }
  }
}
