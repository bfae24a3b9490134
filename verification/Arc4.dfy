/**
ARC4 (crypto/arc4.c): key scheduling, and a generator whose loop fetches the next round's table
entries before it has finished the present one.
*/
module Arc4 {
  import opened Arithmetic

  type Byte = n: int | 0 <= n < 256

  function Sum(a: int, b: int): Byte { (a + b) % 256 }

  // ---------------------------------------------------------------- the plain algorithm

  /** The textbook state: a table and two indices. */
  datatype Plain = Plain(s: seq<Byte>, i: Byte, j: Byte)

  predicate PlainOk(p: Plain) { |p.s| == 256 }

  function Swap(s: seq<Byte>, i: Byte, j: Byte): seq<Byte>
    requires |s| == 256
  {
    s[i := s[j]][j := s[i]]
  }

  /** One round: advance, swap. */
  function Round(p: Plain): (r: Plain)
    requires PlainOk(p)
    ensures PlainOk(r)
  {
    var i := Sum(p.i, 1);
    var j := Sum(p.j, p.s[i]);
    Plain(Swap(p.s, i, j), i, j)
  }

  /** The byte a finished round yields. */
  function Output(p: Plain): Byte
    requires PlainOk(p)
  {
    p.s[Sum(p.s[p.i], p.s[p.j])]
  }

  function Rounds(p: Plain, n: nat): (r: Plain)
    requires PlainOk(p)
    ensures PlainOk(r)
  {
    if n == 0 then p else Round(Rounds(p, n - 1))
  }

  /** The keystream byte of round `k`, counted from 0. */
  function Stream(p: Plain, k: nat): Byte
    requires PlainOk(p)
  {
    Output(Rounds(p, k + 1))
  }

  function Mask(t: bv8, k: Byte): bv8 { t ^ (k as bv8) }

  function Crypt(p: Plain, text: seq<bv8>): (r: seq<bv8>)
    requires PlainOk(p)
    ensures |r| == |text|
  {
    if text == [] then []
    else
      var n := |text| - 1;
      Crypt(p, text[..n]) + [Mask(text[n], Stream(p, n))]
  }

  // ---------------------------------------------------------------- key scheduling

  function Identity(): seq<Byte> { seq(256, i requires 0 <= i < 256 => i) }

  /** The table and the index after `n` steps of mixing in the key, used over and over. */
  function Mixed(key: seq<Byte>, n: nat): (r: (seq<Byte>, Byte))
    requires key != [] && n <= 256
    ensures |r.0| == 256
  {
    if n == 0 then (Identity(), 0)
    else
      var (s, j) := Mixed(key, n - 1);
      var j' := Sum(j + key[(n - 1) % |key|], s[n - 1]);
      (Swap(s, n - 1, j'), j')
  }

  function Keyed(key: seq<Byte>): (p: Plain)
    requires key != []
    ensures PlainOk(p)
  {
    Plain(Mixed(key, 256).0, 0, 0)
  }

  // ---------------------------------------------------------------- properties

  /** A table of 256 different bytes. */
  predicate Permutation(s: seq<Byte>) {
    |s| == 256 && forall i, j :: 0 <= i < j < 256 ==> s[i] != s[j]
  }

  lemma SwapPermutes(s: seq<Byte>, i: Byte, j: Byte)
    requires Permutation(s)
    ensures Permutation(Swap(s, i, j))
  {
    var t := Swap(s, i, j);
    forall a, b | 0 <= a < b < 256 ensures t[a] != t[b] {
      var a' := if a == i then j else if a == j then i else a;
      var b' := if b == i then j else if b == j then i else b;
      assert t[a] == s[a'] && t[b] == s[b'] && a' != b';
    }
  }

  lemma {:induction false} MixedPermutes(key: seq<Byte>, n: nat)
    requires key != [] && n <= 256
    ensures Permutation(Mixed(key, n).0)
    decreases n
  {
    if n > 0 {
      MixedPermutes(key, n - 1);
      var (s, j) := Mixed(key, n - 1);
      SwapPermutes(s, n - 1, Sum(j + key[(n - 1) % |key|], s[n - 1]));
    }
  }

  /** Whatever the key, and however much has been generated, the table is a permutation of the bytes. */
  lemma {:induction false} AlwaysPermutation(key: seq<Byte>, n: nat)
    requires key != []
    ensures Permutation(Rounds(Keyed(key), n).s)
    decreases n
  {
    if n == 0 {
      MixedPermutes(key, 256);
    } else {
      AlwaysPermutation(key, n - 1);
      var p := Rounds(Keyed(key), n - 1);
      SwapPermutes(p.s, Sum(p.i, 1), Sum(p.j, p.s[Sum(p.i, 1)]));
    }
  }

  /** The generator, told from the entries that a round finds: it exchanges two of them and yields the entry that
      their sum points to afterwards. */
  lemma StreamIs(p: Plain, k: nat)
    requires PlainOk(p)
    ensures var (q, r) := (Rounds(p, k), Rounds(p, k + 1));
      var i: int := Sum(q.i, 1);
      var j: int := Sum(q.j, q.s[i]);
      var a: int := q.s[i];
      var b: int := q.s[j];
      && r.i == i && r.j == j && r.s[i] == b && r.s[j] == a
      && (forall x :: 0 <= x < 256 && x != i && x != j ==> r.s[x] == q.s[x])
      && Stream(p, k) == r.s[(a + b) % 256]
  {
  }

  /** Each byte is masked with its own byte of the keystream. */
  lemma {:induction false} CryptIs(p: Plain, text: seq<bv8>, i: nat)
    requires PlainOk(p) && i < |text|
    ensures Crypt(p, text)[i] == text[i] ^ (Stream(p, i) as bv8)
    decreases |text|
  {
    hide Stream;
    var n := |text| - 1;
    if i < n { CryptIs(p, text[..n], i); }
  }

  /** From the identity table the first three bytes are 2, 5 and 7. */
  lemma FirstBytes(p: Plain)
    requires p == Plain(Identity(), 0, 0)
    ensures Stream(p, 0) == 2 && Stream(p, 1) == 5 && Stream(p, 2) == 7
  {
    hide Identity, Round, Output;
    IdentityIs();
    var p1 := OneRound(p, 1, 1);
    assert Rounds(p, 1) == Round(Rounds(p, 0)) == p1;
    var p2 := OneRound(p1, 2, 3);
    assert Rounds(p, 2) == p2;
    var p3 := OneRound(p2, 3, 5);
    assert Rounds(p, 3) == p3;
  }

  lemma IdentityIs()
    ensures |Identity()| == 256 && forall x :: 0 <= x < 256 ==> Identity()[x] == x
  {
  }

  /** A round that advances to `i` and `j`. */
  lemma OneRound(p: Plain, i: Byte, j: Byte) returns (r: Plain)
    requires PlainOk(p) && i == Sum(p.i, 1) && j == Sum(p.j, p.s[i])
    ensures r == Round(p) && r.i == i && r.j == j && r.s[i] == p.s[j] && r.s[j] == p.s[i]
    ensures forall x :: 0 <= x < 256 && x != i && x != j ==> r.s[x] == p.s[x]
    ensures Output(r) == r.s[Sum(p.s[i], p.s[j])]
  {
    r := Round(p);
  }

  /** The first three steps of mixing in the key 1, 2. */
  lemma FirstMixes(key: seq<Byte>)
    requires key == [1, 2]
    ensures Mixed(key, 3).1 == 6 && Mixed(key, 3).0[..8] == [1, 3, 6, 0, 4, 5, 2, 7]
  {
    hide Identity, Swap;
    IdentityIs();
    var s0 := Identity();
    assert Mixed(key, 0) == (s0, 0);
    SwapIs(s0, 0, 1);
    var s1 := Swap(s0, 0, 1);
    assert Mixed(key, 1) == (s1, 1);
    SwapIs(s1, 1, 3);
    var s2 := Swap(s1, 1, 3);
    assert Mixed(key, 2) == (s2, 3);
    SwapIs(s2, 2, 6);
    assert Mixed(key, 3) == (Swap(s2, 2, 6), 6);
  }

  lemma SwapIs(s: seq<Byte>, i: Byte, j: Byte)
    requires |s| == 256
    ensures var t := Swap(s, i, j);
      |t| == 256 && t[i] == s[j] && t[j] == s[i] && forall x :: 0 <= x < 256 && x != i && x != j ==> t[x] == s[x]
  {
  }

  lemma {:induction false} RoundsAdd(p: Plain, m: nat, n: nat)
    requires PlainOk(p)
    ensures Rounds(p, m + n) == Rounds(Rounds(p, m), n)
    decreases n
  {
    hide Round, PlainOk;
    if n > 0 { RoundsAdd(p, m, n - 1); }
  }

  lemma StreamShift(p: Plain, m: nat, k: nat)
    requires PlainOk(p)
    ensures Stream(p, m + k) == Stream(Rounds(p, m), k)
  {
    hide Rounds, Output;
    RoundsAdd(p, m, k + 1);
  }

  lemma CryptSnoc(p: Plain, text: seq<bv8>, t: bv8)
    requires PlainOk(p)
    ensures Crypt(p, text + [t]) == Crypt(p, text) + [Mask(t, Stream(p, |text|))]
  {
    hide Stream, Mask, PlainOk;
    assert (text + [t])[..|text|] == text;
  }

  /** Encrypting in pieces, each with the state the last one left, is encrypting at once. */
  lemma {:induction false} Chunks(p: Plain, a: seq<bv8>, b: seq<bv8>)
    requires PlainOk(p)
    ensures Crypt(p, a + b) == Crypt(p, a) + Crypt(Rounds(p, |a|), b)
    ensures Rounds(p, |a + b|) == Rounds(Rounds(p, |a|), |b|)
    decreases |b|
  {
    hide Rounds, Stream, PlainOk, Mask;
    RoundsAdd(p, |a|, |b|);
    if b == [] {
      assert a + b == a;
    } else {
      var (init, t) := (b[..|b| - 1], b[|b| - 1]);
      Chunks(p, a, init);
      assert a + b == (a + init) + [t];
      CryptSnoc(p, a + init, t);
      StreamShift(p, |a|, |init|);
    }
  }

  lemma MaskTwice(t: bv8, k: Byte)
    ensures Mask(Mask(t, k), k) == t
  {
    XorTwice(t, k as bv8);
  }

  lemma XorTwice(a: bv8, k: bv8)
    ensures (a ^ k) ^ k == a
  {
  }

  /** Encrypting twice from the same state gives the text back. */
  lemma {:induction false} CryptTwice(p: Plain, text: seq<bv8>)
    requires PlainOk(p)
    ensures Crypt(p, Crypt(p, text)) == text
    decreases |text|
  {
    hide Stream, Mask, PlainOk;
    if text != [] {
      var n := |text| - 1;
      CryptTwice(p, text[..n]);
      MaskTwice(text[n], Stream(p, n));
      assert Crypt(p, text)[..n] == Crypt(p, text[..n]);
    }
  }

  // ---------------------------------------------------------------- the context

  /** struct arc4_ctx; `x` is already the index of the next round. */
  class Context {
    const S: array<Byte>
    var x: Byte
    var y: Byte

    ghost predicate Valid()
      reads this, S
    {
      S.Length == 256
    }

    ghost function St(): (p: Plain)
      requires Valid()
      reads this, S
      ensures PlainOk(p)
    {
      Plain(S[..], Sum(x, 255), y)
    }

    constructor ()
      ensures Valid() && fresh(S)
    {
      S := new Byte[256](_ => 0);
      x, y := 0, 0;
    }

    /** arc4_set_key. */
    method SetKey(key: seq<Byte>)
      requires Valid() && |key| > 0
      modifies this, S
      ensures Valid() && St() == Keyed(key)
    {
      hide Mixed, Sum, Identity;
      x, y := 1, 0;
      Fill();
      MixedStart(key);
      var j: Byte, k: nat := 0, 0;
      for i := 0 to 256
        invariant Valid() && x == 1 && y == 0 && 0 <= k == i % |key| && (S[..], j) == Mixed(key, i)
      {
        j := MixOne(key, i, j, k);
        NextKeyByte(i, |key|);
        k := k + 1;
        if k >= |key| { k := 0; }
      }
      assert Sum(1, 255) == 0 by { SumWraps(); }
    }

    static lemma SumWraps()
      ensures Sum(1, 255) == 0
    {
    }

    static lemma MixedStart(key: seq<Byte>)
      requires key != []
      ensures Mixed(key, 0) == (Identity(), 0)
    {
    }

    method Fill()
      requires Valid()
      modifies S
      ensures Valid() && S[..] == Identity()
    {
      for i := 0 to 256
        invariant Valid() && forall k :: 0 <= k < i ==> S[k] == k
      {
        S[i] := i;
      }
    }

    method MixOne(key: seq<Byte>, i: nat, j: Byte, k: nat) returns (j': Byte)
      requires Valid() && i < 256 && |key| > 0 && k == i % |key| && (S[..], j) == Mixed(key, i)
      modifies S
      ensures Valid() && (S[..], j') == Mixed(key, i + 1)
    {
      hide Mixed, Sum;
      ghost var s := S[..];
      MixedStep(key, i);
      var a := S[i];
      j' := Sum(j + key[k], a);
      S[i] := S[j'];
      S[j'] := a;
      assert S[..] == Swap(s, i, j');
    }

    static lemma MixedStep(key: seq<Byte>, i: nat)
      requires key != [] && i < 256
      ensures var (s, j) := Mixed(key, i);
        var j' := Sum(j + key[i % |key|], s[i]);
        Mixed(key, i + 1) == (Swap(s, i, j'), j')
    {
      hide Sum;
    }

    static lemma NextKeyByte(i: nat, n: nat)
      requires n > 0
      ensures (i + 1) % n == (if i % n + 1 >= n then 0 else i % n + 1)
    {
      var (q, r) := (i / n, i % n);
      DivMod(i, n);
      if r + 1 >= n {
        assert (q + 1) * n == q * n + n;
        DivUnique(i + 1, n, q + 1, 0);
      } else {
        DivUnique(i + 1, n, q, r + 1);
      }
    }

    /**
    One turn of the loop of arc4_crypt. On entry `a` and `b` are the table entries at `x1` and `y1`, not yet
    swapped; on exit `a'`, `b'` and `y2` are those of the next round, fetched before this round's byte is
    read.
    */
    method Turn(x1: Byte, y1: Byte, a: Byte, b: Byte, ghost p: Plain)
      returns (x2: Byte, y2: Byte, a': Byte, b': Byte, byte: Byte)
      requires Valid() && PlainOk(p) && S[..] == p.s && x1 == Sum(p.i, 1) && y1 == Sum(p.j, p.s[x1])
      requires a == p.s[x1] && b == p.s[y1]
      modifies S
      ensures Valid() && S[..] == Round(p).s && byte == Output(Round(p))
      ensures x1 == Round(p).i && y1 == Round(p).j
      ensures x2 == Sum(x1, 1) && a' == S[x2] && y2 == Sum(y1, a') && b' == S[y2]
    {
      hide Sum;
      S[y1] := a;
      var t := Sum(a, b);
      S[x1] := b;
      assert S[..] == Swap(p.s, x1, y1);
      x2 := Sum(x1, 1);
      a' := S[x2];
      y2 := Sum(y1, a');
      b' := S[y2];
      Commutes(a, b);
      byte := S[t];
    }

    static lemma Commutes(a: int, b: int)
      ensures Sum(a, b) == Sum(b, a)
    {
    }

    /** arc4_crypt; `out` may be `inp` itself. */
    method CryptInto(out: array<bv8>, inp: array<bv8>)
      requires Valid() && out.Length == inp.Length && (inp as object) != S && (out as object) != S
      modifies this, S, out
      ensures Valid() && St() == Rounds(old(St()), inp.Length)
      ensures out[..] == Crypt(old(St()), old(inp[..]))
    {
      hide Sum, Mask, Round, Output, Rounds, Crypt, Stream;
      ghost var (p, text) := (St(), inp[..]);
      assert text[..0] == [];
      if inp.Length == 0 {
        assert out[..] == [] && text == [];
        NothingYet(p);
        return;
      }
      var x', y', n: nat := x, y, 0;
      var a := S[x'];
      var ty := Sum(y', a);
      var b := S[ty];
      Previous(x);
      NothingYet(p);
      while n < inp.Length
        invariant n <= inp.Length && Valid() && x == old(x) && y == old(y)
        invariant var q := Rounds(p, n);
          S[..] == q.s && x' == Sum(q.i, 1) && y' == q.j && a == S[x'] && ty == Sum(q.j, a) && b == S[ty]
        invariant out[..n] == Crypt(p, text[..n])
        invariant forall k :: n <= k < inp.Length ==> inp[k] == text[k]
      {
        var byte;
        OneMore(p, n);
        y' := ty;
        x', ty, a, b, byte := Turn(x', ty, a, b, Rounds(p, n));
        CryptSnoc(p, text[..n], text[n]);
        assert text[..n + 1] == text[..n] + [text[n]];
        out[n] := Mask(inp[n], byte);
        n := n + 1;
      }
      x, y := x', y';
      assert text[..n] == text && out[..n] == out[..];
      Following(Rounds(p, n).i);
    }

    static lemma NothingYet(p: Plain)
      requires PlainOk(p)
      ensures Rounds(p, 0) == p && Crypt(p, []) == []
    {
    }

    static lemma OneMore(p: Plain, n: nat)
      requires PlainOk(p)
      ensures Rounds(p, n + 1) == Round(Rounds(p, n)) && Stream(p, n) == Output(Round(Rounds(p, n)))
    {
    }

    /** `x` is one ahead of the plain index. */
    static lemma Previous(x: Byte)
      ensures Sum(Sum(x, 255), 1) == x
    {
    }

    static lemma Following(i: Byte)
      ensures Sum(Sum(i, 1), 255) == i
    {
    }
  }
}
