/**
Physical segments of a list of bio vectors (block/blk-merge.c): what a legal grouping is, the
greedy grouping that both the counter and the scatterlist mapper compute, and its optimality.
*/
module Segments {

  /** struct bio_vec. */
  datatype Bvec = Bvec(page: nat, offset: nat, len: nat)

  /**
  The limits of a queue that matter here. `contig` stands for BIOVEC_PHYS_MERGEABLE together with
  BIOVEC_SEG_BOUNDARY, `gap` for bvec_gap_to_prev and `maxSectors` for blk_rq_get_max_sectors;
  each is an arbitrary function.
  */
  datatype Limits = Limits(
    cluster: bool,
    maxSegmentSize: nat,
    maxSegments: nat,
    contig: (Bvec, Bvec) -> bool,
    gap: (Bvec, Bvec) -> bool,
    maxSectors: nat -> nat)

  function Bytes(bs: seq<Bvec>): nat {
    if bs == [] then 0 else Bytes(bs[..|bs| - 1]) + bs[|bs| - 1].len
  }

  function Flatten(p: seq<seq<Bvec>>): seq<Bvec> {
    if p == [] then [] else Flatten(p[..|p| - 1]) + p[|p| - 1]
  }

  function Last<T>(s: seq<T>): T
    requires s != []
  {
    s[|s| - 1]
  }

  // ---------------------------------------------------------------- legal groupings

  /** One scatterlist entry: a single vector, or contiguous vectors within the size limit. */
  ghost predicate Segment(lim: Limits, s: seq<Bvec>) {
    && s != []
    && (|s| > 1 ==>
        && lim.cluster
        && Bytes(s) <= lim.maxSegmentSize
        && forall i :: 0 < i < |s| ==> lim.contig(s[i - 1], s[i]))
  }

  /** `p` groups the vectors `bs`, in order, into segments. */
  ghost predicate Grouping(lim: Limits, bs: seq<Bvec>, p: seq<seq<Bvec>>) {
    && Flatten(p) == bs
    && forall i :: 0 <= i < |p| ==> Segment(lim, p[i])
  }

  // ---------------------------------------------------------------- the greedy grouping

  predicate CanExtend(lim: Limits, p: seq<seq<Bvec>>, b: Bvec) {
    p != [] && lim.cluster && Last(p) != []
    && Bytes(Last(p)) + b.len <= lim.maxSegmentSize
    && lim.contig(Last(Last(p)), b)
  }

  function Extend(lim: Limits, p: seq<seq<Bvec>>, b: Bvec): seq<seq<Bvec>> {
    if CanExtend(lim, p, b) then p[..|p| - 1] + [Last(p) + [b]] else p + [[b]]
  }

  function Greedy(lim: Limits, bs: seq<Bvec>): seq<seq<Bvec>> {
    if bs == [] then [] else Extend(lim, Greedy(lim, bs[..|bs| - 1]), bs[|bs| - 1])
  }

  // ---------------------------------------------------------------- sums and concatenations

  lemma {:induction false} BytesConcat(a: seq<Bvec>, b: seq<Bvec>)
    ensures Bytes(a + b) == Bytes(a) + Bytes(b)
  {
    if b == [] {
      assert a + b == a;
    } else {
      BytesConcat(a, b[..|b| - 1]);
      assert (a + b)[..|a + b| - 1] == a + b[..|b| - 1];
    }
  }

  lemma {:induction false} FlattenConcat(p: seq<seq<Bvec>>, q: seq<seq<Bvec>>)
    ensures Flatten(p + q) == Flatten(p) + Flatten(q)
  {
    if q == [] {
      assert p + q == p;
    } else {
      var init := q[..|q| - 1];
      FlattenConcat(p, init);
      assert (p + q)[..|p + q| - 1] == p + init;
      assert Flatten(p + q) == Flatten(p + init) + q[|q| - 1];
    }
  }

  lemma FlattenOne(s: seq<Bvec>)
    ensures Flatten([s]) == s
  {
    assert [s][..0] == [];
  }

  lemma BytesOne(b: Bvec)
    ensures Bytes([b]) == b.len
  {
    assert [b][..0] == [];
  }

  /** The last vector of a grouping ends its last segment. */
  lemma GroupingLast(lim: Limits, bs: seq<Bvec>, p: seq<seq<Bvec>>)
    requires Grouping(lim, bs, p)
    ensures p == [] <==> bs == []
    ensures p != [] ==> Last(p) != [] && Last(Last(p)) == Last(bs)
  {
    if p != [] {
      assert Segment(lim, Last(p));
    }
  }

  lemma {:induction false} GroupingFirst(lim: Limits, bs: seq<Bvec>, p: seq<seq<Bvec>>)
    requires Grouping(lim, bs, p) && bs != []
    ensures p != [] && p[0] != [] && p[0][0] == bs[0]
    ensures Bytes(p[0]) <= Bytes(bs)
  {
    GroupingLast(lim, bs, p);
    assert Segment(lim, p[0]);
    assert p == [p[0]] + p[1..];
    FlattenConcat([p[0]], p[1..]);
    FlattenOne(p[0]);
    BytesConcat(p[0], Flatten(p[1..]));
  }

  /** Groupings can be put side by side. */
  lemma GroupingConcat(lim: Limits, a: seq<Bvec>, p: seq<seq<Bvec>>, b: seq<Bvec>, q: seq<seq<Bvec>>)
    requires Grouping(lim, a, p) && Grouping(lim, b, q)
    ensures Grouping(lim, a + b, p + q)
  {
    FlattenConcat(p, q);
  }

  function Joined(p: seq<seq<Bvec>>, q: seq<seq<Bvec>>): seq<seq<Bvec>>
    requires p != [] && q != []
  {
    p[..|p| - 1] + [Last(p) + q[0]] + q[1..]
  }

  lemma SegmentJoin(lim: Limits, x: seq<Bvec>, y: seq<Bvec>)
    requires Segment(lim, x) && Segment(lim, y)
    requires lim.cluster && lim.contig(Last(x), y[0])
    requires Bytes(x) + Bytes(y) <= lim.maxSegmentSize
    ensures Segment(lim, x + y)
  {
    BytesConcat(x, y);
    var z := x + y;
    forall i | 0 < i < |z| ensures lim.contig(z[i - 1], z[i]) {
      if i < |x| {
        assert z[i - 1] == x[i - 1] && z[i] == x[i];
      } else if i > |x| {
        assert z[i - 1] == y[i - 1 - |x|] && z[i] == y[i - |x|];
      }
    }
  }

  lemma JoinedFlatten(p: seq<seq<Bvec>>, q: seq<seq<Bvec>>)
    requires p != [] && q != []
    ensures Flatten(Joined(p, q)) == Flatten(p) + Flatten(q)
  {
    hide Flatten;
    var front, back := p[..|p| - 1], q[1..];
    assert p == front + [Last(p)];
    FlattenSnoc(front, Last(p));
    FlattenSnoc(front, Last(p) + q[0]);
    FlattenConcat(front + [Last(p) + q[0]], back);
    assert q == [q[0]] + back;
    FlattenConcat([q[0]], back);
    FlattenOne(q[0]);
    assert Flatten(Joined(p, q)) == Flatten(front) + (Last(p) + q[0]) + Flatten(back);
  }

  lemma FlattenSnoc(p: seq<seq<Bvec>>, x: seq<Bvec>)
    ensures Flatten(p + [x]) == Flatten(p) + x
  {
    assert (p + [x])[..|p|] == p;
  }

  /** Groupings whose touching segments are contiguous and small enough can share a segment. */
  lemma GroupingJoin(lim: Limits, a: seq<Bvec>, p: seq<seq<Bvec>>, b: seq<Bvec>, q: seq<seq<Bvec>>)
    requires Grouping(lim, a, p) && Grouping(lim, b, q) && a != [] && b != []
    requires lim.cluster && lim.contig(Last(a), b[0])
    requires p != [] && q != [] && Bytes(Last(p)) + Bytes(q[0]) <= lim.maxSegmentSize
    ensures Grouping(lim, a + b, Joined(p, q))
  {
    hide Bytes, Flatten, Segment;
    GroupingLast(lim, a, p);
    GroupingFirst(lim, b, q);
    SegmentJoin(lim, Last(p), q[0]);
    JoinedFlatten(p, q);
    var r := Joined(p, q);
    forall i | 0 <= i < |r| ensures Segment(lim, r[i]) {
      if i < |p| - 1 {
        assert r[i] == p[i];
      } else if i >= |p| {
        assert r[i] == q[i - |p| + 1];
      }
    }
  }

  // ---------------------------------------------------------------- greedy is legal and optimal

  lemma ExtendGrouping(lim: Limits, bs: seq<Bvec>, p: seq<seq<Bvec>>, b: Bvec)
    requires Grouping(lim, bs, p)
    ensures Grouping(lim, bs + [b], Extend(lim, p, b))
  {
    BytesOne(b);
    FlattenOne([b]);
    assert Grouping(lim, [b], [[b]]);
    GroupingLast(lim, bs, p);
    if CanExtend(lim, p, b) {
      GroupingJoin(lim, bs, p, [b], [[b]]);
      assert Joined(p, [[b]]) == Extend(lim, p, b);
    } else {
      GroupingConcat(lim, bs, p, [b], [[b]]);
    }
  }

  lemma {:induction false} GreedyGrouping(lim: Limits, bs: seq<Bvec>)
    ensures Grouping(lim, bs, Greedy(lim, bs))
  {
    if bs != [] {
      var init := bs[..|bs| - 1];
      GreedyGrouping(lim, init);
      ExtendGrouping(lim, init, Greedy(lim, init), Last(bs));
      assert init + [Last(bs)] == bs;
    }
  }

  /** Taking the last vector away from a grouping leaves a grouping. */
  function Trim(p: seq<seq<Bvec>>): seq<seq<Bvec>>
    requires p != [] && Last(p) != []
  {
    if |Last(p)| == 1 then p[..|p| - 1]
    else p[..|p| - 1] + [Last(p)[..|Last(p)| - 1]]
  }

  lemma TrimGrouping(lim: Limits, bs: seq<Bvec>, p: seq<seq<Bvec>>)
    requires Grouping(lim, bs, p) && bs != []
    ensures p != [] && Last(p) != []
    ensures Grouping(lim, bs[..|bs| - 1], Trim(p))
    ensures |Last(p)| > 1 ==>
      && |Trim(p)| == |p| && lim.cluster
      && lim.contig(bs[|bs| - 2], Last(bs))
      && Bytes(Last(p)) == Bytes(Last(Trim(p))) + Last(bs).len <= lim.maxSegmentSize
    ensures |Last(p)| == 1 ==> |Trim(p)| == |p| - 1 && Bytes(Last(p)) == Last(bs).len
  {
    GroupingLast(lim, bs, p);
    var x := Last(p);
    assert Segment(lim, x);
    var front := p[..|p| - 1];
    if |x| == 1 {
      assert x == [Last(bs)];
      BytesOne(Last(bs));
      assert bs[..|bs| - 1] == Flatten(front);
    } else {
      var y := x[..|x| - 1];
      assert x == y + [Last(x)];
      BytesConcat(y, [Last(x)]);
      BytesOne(Last(x));
      assert Segment(lim, y);
      FlattenSnoc(front, y);
      assert bs[..|bs| - 1] == Flatten(front) + y;
      assert bs[|bs| - 2] == x[|x| - 2];
    }
  }

  /** Greedy stays ahead of any grouping: fewer segments, or as many with a smaller last one. */
  ghost predicate Ahead(g: seq<seq<Bvec>>, p: seq<seq<Bvec>>) {
    && |g| <= |p|
    && (|g| == |p| && p != [] ==> Bytes(Last(g)) <= Bytes(Last(p)))
  }

  lemma {:induction false} GreedyStaysAhead(lim: Limits, bs: seq<Bvec>, p: seq<seq<Bvec>>)
    requires Grouping(lim, bs, p)
    ensures Ahead(Greedy(lim, bs), p)
    decreases |bs|
  {
    GroupingLast(lim, bs, p);
    if bs != [] {
      var init, b := bs[..|bs| - 1], Last(bs);
      TrimGrouping(lim, bs, p);
      var p', g' := Trim(p), Greedy(lim, init);
      GreedyStaysAhead(lim, init, p');
      GreedyGrouping(lim, init);
      GroupingLast(lim, init, g');
      GroupingLast(lim, init, p');
      BytesOne(b);
      if CanExtend(lim, g', b) {
        BytesConcat(Last(g'), [b]);
      }
    }
  }

  /** No legal grouping has fewer segments than the greedy one. */
  lemma GreedyOptimal(lim: Limits, bs: seq<Bvec>, p: seq<seq<Bvec>>)
    requires Grouping(lim, bs, p)
    ensures |Greedy(lim, bs)| <= |p|
  {
    GreedyStaysAhead(lim, bs, p);
  }
}
