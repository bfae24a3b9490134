/**
What every sequence of merges, failed merges and partial completions keeps: the shape of a
request and the bound on its segments.
*/
module BlkRequestProofs {
  import opened Segments
  import opened BlkRequest

  // ---------------------------------------------------------------- vectors and bios

  lemma {:induction false} AllBvecsConcat(a: seq<Bio>, b: seq<Bio>)
    ensures AllBvecs(a + b) == AllBvecs(a) + AllBvecs(b)
    decreases |b|
  {
    hide AllBvecs;
    if b == [] {
      assert a + b == a;
      AllBvecsNone();
    } else {
      var (init, last) := (b[..|b| - 1], b[|b| - 1]);
      AllBvecsConcat(a, init);
      AllBvecsSnoc(a + init, last);
      AllBvecsSnoc(init, last);
      assert a + b == (a + init) + [last] && b == init + [last];
      Associative(AllBvecs(a), AllBvecs(init), last.bvecs);
    }
  }

  lemma Associative(a: seq<Bvec>, b: seq<Bvec>, c: seq<Bvec>)
    ensures (a + b) + c == a + (b + c)
  {
  }

  lemma AllBvecsNone()
    ensures AllBvecs([]) == []
  {
  }

  lemma AllBvecsSnoc(a: seq<Bio>, b: Bio)
    ensures AllBvecs(a + [b]) == AllBvecs(a) + b.bvecs
  {
    assert (a + [b])[..|a|] == a;
  }

  lemma AllBvecsOne(b: Bio)
    ensures AllBvecs([b]) == b.bvecs
  {
    assert [b][..0] == [];
  }

  lemma AllBvecsFirst(bios: seq<Bio>)
    requires bios != []
    ensures AllBvecs(bios) == bios[0].bvecs + AllBvecs(bios[1..])
  {
    assert bios == [bios[0]] + bios[1..];
    AllBvecsConcat([bios[0]], bios[1..]);
    AllBvecsOne(bios[0]);
  }

  lemma BytesFirst(bs: seq<Bvec>)
    requires bs != []
    ensures Bytes(bs) == bs[0].len + Bytes(bs[1..])
  {
    assert bs == [bs[0]] + bs[1..];
    BytesConcat([bs[0]], bs[1..]);
    BytesOne(bs[0]);
  }

  lemma {:induction false} BytesWhole(bs: seq<Bvec>)
    requires BvecsOk(bs)
    ensures Bytes(bs) % SECTOR == 0
    ensures bs != [] ==> Bytes(bs) > 0
  {
    if bs != [] {
      BytesWhole(bs[..|bs| - 1]);
    }
  }

  ghost predicate BiosOk(bios: seq<Bio>) {
    forall i :: 0 <= i < |bios| ==> bios[i].bvecs != [] && BvecsOk(bios[i].bvecs)
  }

  lemma {:induction false} AllBvecsOk(bios: seq<Bio>)
    requires BiosOk(bios)
    ensures BvecsOk(AllBvecs(bios)) && (bios != [] ==> AllBvecs(bios) != [])
    ensures bios != [] ==> Last(AllBvecs(bios)) == Last(Last(bios).bvecs)
  {
    if bios != [] {
      AllBvecsOk(bios[..|bios| - 1]);
    }
  }

  /** The same data, whatever the segment fields say. */
  ghost predicate SameData(a: seq<Bio>, b: seq<Bio>) {
    && |a| == |b|
    && forall i :: 0 <= i < |a| ==> a[i].bvecs == b[i].bvecs && a[i].sector == b[i].sector
  }

  lemma {:induction false} SameDataAll(a: seq<Bio>, b: seq<Bio>)
    requires SameData(a, b)
    ensures AllBvecs(a) == AllBvecs(b)
    ensures Adjacent(a) ==> Adjacent(b)
  {
    if a != [] {
      SameDataAll(a[..|a| - 1], b[..|b| - 1]);
      assert Last(a).bvecs == Last(b).bvecs;
    }
  }

  lemma WholeSectors(x: nat, y: nat)
    requires x % SECTOR == 0 && y % SECTOR == 0
    ensures (x + y) % SECTOR == 0 && (x + y) / SECTOR == x / SECTOR + y / SECTOR
  {
  }

  /** A chain of bios ends where its total length says. */
  lemma {:induction false} ChainEnd(bios: seq<Bio>)
    requires BiosOk(bios) && Adjacent(bios) && bios != []
    ensures Bytes(AllBvecs(bios)) % SECTOR == 0
    ensures Last(bios).sector + BioSectors(Last(bios)) == bios[0].sector + Bytes(AllBvecs(bios)) / SECTOR
  {
    hide Bytes;
    var init := bios[..|bios| - 1];
    BytesWhole(Last(bios).bvecs);
    BytesConcat(AllBvecs(init), Last(bios).bvecs);
    if init == [] {
      AllBvecsOne(bios[0]);
      assert bios == [bios[0]];
    } else {
      ChainEnd(init);
      WholeSectors(Bytes(AllBvecs(init)), Bytes(Last(bios).bvecs));
      assert Last(bios).sector == Last(init).sector + BioSectors(Last(init));
    }
  }

  lemma AdjacentConcat(a: seq<Bio>, b: seq<Bio>)
    requires Adjacent(a) && Adjacent(b)
    requires a != [] && b != [] ==> b[0].sector == Last(a).sector + BioSectors(Last(a))
    ensures Adjacent(a + b)
  {
    hide BioSectors;
    var c := a + b;
    forall i | 0 < i < |c| ensures c[i].sector == c[i - 1].sector + BioSectors(c[i - 1]) {
      if i < |a| {
        assert c[i] == a[i] && c[i - 1] == a[i - 1];
      } else if i > |a| {
        assert c[i] == b[i - |a|] && c[i - 1] == b[i - 1 - |a|];
      }
    }
  }

  lemma ShapeConcat(a: Rq, b: Rq, c: Rq)
    requires Shape(a) && Shape(b) && a.bios != [] && b.bios != []
    requires a.sector + RqSectors(a) == b.sector
    requires SameData(c.bios, a.bios + b.bios)
    requires c.sector == a.sector && c.dataLen == a.dataLen + b.dataLen
    ensures Shape(c)
  {
    hide BioSectors;
    ChainEnd(a.bios);
    AdjacentConcat(a.bios, b.bios);
    AllBvecsConcat(a.bios, b.bios);
    BytesConcat(AllBvecs(a.bios), AllBvecs(b.bios));
    SameDataAll(a.bios + b.bios, c.bios);
    forall i | 0 <= i < |c.bios| ensures c.bios[i].bvecs != [] && BvecsOk(c.bios[i].bvecs) {
      assert c.bios[i].bvecs == (a.bios + b.bios)[i].bvecs;
    }
  }

  lemma ShapeSame(r: Rq, bios: seq<Bio>)
    requires Shape(r) && SameData(r.bios, bios)
    ensures Shape(r.(bios := bios))
  {
    SameDataAll(r.bios, bios);
  }

  lemma ShapeOne(b: Bio, r: Rq)
    requires b.bvecs != [] && BvecsOk(b.bvecs)
    requires r.bios == [b] && r.sector == b.sector && r.dataLen == Bytes(b.bvecs)
    ensures Shape(r)
  {
    AllBvecsOne(b);
  }

  // ---------------------------------------------------------------- segments

  lemma FitsMore(lim: Limits, bs: seq<Bvec>, n: nat, front: nat, back: nat, front': nat, back': nat)
    requires Fits(lim, bs, n, front, back) && front <= front' && back <= back'
    ensures Fits(lim, bs, n, front', back')
  {
    var p :| Grouping(lim, bs, p) && Bounds(p, n, front, back);
    assert Bounds(p, n, front', back');
  }

  lemma GreedyFits(lim: Limits, bs: seq<Bvec>, front: nat, back: nat)
    requires bs != []
    requires var g := Greedy(lim, bs); g != [] ==> Bytes(g[0]) <= front && Bytes(Last(g)) <= back
    ensures Fits(lim, bs, |Greedy(lim, bs)|, front, back)
  {
    hide Greedy, Segment, Flatten;
    GreedyGrouping(lim, bs);
    GroupingLast(lim, bs, Greedy(lim, bs));
    assert Bounds(Greedy(lim, bs), |Greedy(lim, bs)|, front, back);
  }

  /** The recount leaves the data alone, raises the bounds, and its count is achieved. */
  lemma RecalcFits(lim: Limits, bios: seq<Bio>)
    requires bios != [] && AllBvecs(bios) != []
    ensures var b := Recalc(lim, bios);
      && SameData(bios, b)
      && bios[0].segFront <= b[0].segFront && Last(bios).segBack <= Last(b).segBack
      && Fits(lim, AllBvecs(bios), SegCount(lim, bios), b[0].segFront, Last(b).segBack)
  {
    hide Greedy, AllBvecs, Fits, Bytes;
    var b := Recalc(lim, bios);
    GreedyFits(lim, AllBvecs(bios), b[0].segFront, Last(b).segBack);
  }

  lemma ValidatedFits(lim: Limits, b: Bio)
    requires b.bvecs != [] && BvecsOk(b.bvecs)
    ensures var v := Validated(lim, b);
      && SameData([b], [v]) && v.segValid
      && b.segFront <= v.segFront && b.segBack <= v.segBack
      && (BioOk(lim, b) ==> BioOk(lim, v) && Fits(lim, b.bvecs, v.physSegs, v.segFront, v.segBack))
  {
    hide Greedy, Fits, Bytes;
    AllBvecsOne(b);
    if !b.segValid {
      RecalcFits(lim, [b]);
      var r := Recalc(lim, [b])[0];
      assert [b][0] == b;
      assert Recount(lim, b).segFront == r.segFront;
    }
  }

  /** Side by side: the counts add up. */
  lemma FitsConcat(lim: Limits, a: seq<Bvec>, n: nat, fa: nat, ba: nat,
                   b: seq<Bvec>, m: nat, fb: nat, bb: nat)
    requires Fits(lim, a, n, fa, ba) && Fits(lim, b, m, fb, bb)
    ensures Fits(lim, a + b, n + m, fa, bb)
  {
    hide Grouping, Bytes;
    var p :| Grouping(lim, a, p) && Bounds(p, n, fa, ba);
    var q :| Grouping(lim, b, q) && Bounds(q, m, fb, bb);
    GroupingConcat(lim, a, p, b, q);
    assert Bounds(p + q, n + m, fa, bb);
  }

  /** Sharing a segment: one fewer, and a lone segment grows by its neighbour's bound. */
  lemma FitsJoin(lim: Limits, a: seq<Bvec>, n: nat, fa: nat, ba: nat,
                 b: seq<Bvec>, m: nat, fb: nat, bb: nat)
    requires Fits(lim, a, n, fa, ba) && Fits(lim, b, m, fb, bb) && a != [] && b != []
    requires lim.cluster && lim.contig(Last(a), b[0]) && ba + fb <= lim.maxSegmentSize
    ensures n > 0 && m > 0
    ensures Fits(lim, a + b, n + m - 1, if n == 1 then ba + fb else fa, if m == 1 then ba + fb else bb)
  {
    var p :| Grouping(lim, a, p) && Bounds(p, n, fa, ba);
    var q :| Grouping(lim, b, q) && Bounds(q, m, fb, bb);
    hide Grouping, Bytes;
    GroupingJoin(lim, a, p, b, q);
    BytesConcat(Last(p), q[0]);
    var r := Joined(p, q);
    assert r[|p| - 1] == Last(p) + q[0];
    assert Bounds(r, n + m - 1, if n == 1 then ba + fb else fa, if m == 1 then ba + fb else bb);
  }

  /** A single segment is bounded by both of its bounds. */
  lemma FitsSingle(lim: Limits, bs: seq<Bvec>, front: nat, back: nat)
    requires Fits(lim, bs, 1, front, back)
    ensures forall f, b :: front <= b && back <= f ==> Fits(lim, bs, 1, f, b)
    ensures forall f :: back <= f ==> Fits(lim, bs, 1, f, back)
    ensures forall b :: front <= b ==> Fits(lim, bs, 1, front, b)
  {
    hide Grouping, Bytes;
    var p :| Grouping(lim, bs, p) && Bounds(p, 1, front, back);
    assert p[0] == Last(p);
    assert forall f, b :: front <= b && back <= f ==> Bounds(p, 1, f, b);
    assert forall f :: back <= f ==> Bounds(p, 1, f, back);
    assert forall b :: front <= b ==> Bounds(p, 1, front, b);
  }

  // ---------------------------------------------------------------- bio merges

  lemma NewRequestKeeps(lim: Limits, bio: Bio)
    requires BioOk(lim, bio)
    ensures RqOk(lim, NewRequest(lim, bio))
  {
    hide Fits, Bytes;
    ValidatedFits(lim, bio);
    var v := Validated(lim, bio);
    assert [v][0] == v && [bio][0] == bio;
    AllBvecsOne(v);
    ShapeOne(v, NewRequest(lim, bio));
  }

  lemma BackMergeKeeps(lim: Limits, r: Rq, bio: Bio)
    requires RqOk(lim, r) && r.bios != [] && BioOk(lim, bio)
    requires r.sector + RqSectors(r) == bio.sector
    ensures RqOk(lim, BackMerge(lim, r, bio).0)
  {
    hide Fits, Shape, Gap, TooLong, Validated, AllBvecs, BioOk;
    var n := |r.bios|;
    var t, v := Validated(lim, Last(r.bios)), Validated(lim, bio);
    BackMergeParts(lim, r, bio);
    var (r', _, merged) := BackMerge(lim, r, bio);
    var r1 := r.(bios := r.bios[n - 1 := t]);
    FitsMore(lim, AllBvecs(r.bios), r.nrPhys, r.bios[0].segFront, Last(r.bios).segBack,
             r1.bios[0].segFront, t.segBack);
    if merged {
      FitsConcat(lim, AllBvecs(r.bios), r.nrPhys, r1.bios[0].segFront, t.segBack,
                 bio.bvecs, v.physSegs, v.segFront, v.segBack);
      assert r'.bios[0] == r1.bios[0] && Last(r'.bios) == v;
    }
  }

  /** The two outcomes of a back merge that change the bios. */
  lemma BackMergeParts(lim: Limits, r: Rq, bio: Bio)
    requires RqOk(lim, r) && r.bios != [] && BioOk(lim, bio)
    requires r.sector + RqSectors(r) == bio.sector
    ensures var t, v := Validated(lim, Last(r.bios)), Validated(lim, bio);
      var r1 := r.(bios := r.bios[|r.bios| - 1 := t]);
      var r2 := r1.(bios := r1.bios + [v], dataLen := r.dataLen + Bytes(bio.bvecs),
                    nrPhys := r.nrPhys + v.physSegs);
      && Shape(r1) && Shape(r1.(noMerge := true)) && Shape(r2) && Shape(r.(noMerge := true))
      && AllBvecs(r1.bios) == AllBvecs(r.bios)
      && AllBvecs(r2.bios) == AllBvecs(r.bios) + bio.bvecs
      && r.bios[0].segFront <= r1.bios[0].segFront && Last(r.bios).segBack <= t.segBack
      && Fits(lim, bio.bvecs, v.physSegs, v.segFront, v.segBack)
  {
    hide Fits, Bytes, Validated, Adjacent, AllBvecs, BvecsOk;
    var t, v := Validated(lim, Last(r.bios)), Validated(lim, bio);
    ValidatedFits(lim, Last(r.bios));
    ValidatedFits(lim, bio);
    assert [t][0] == t && [v][0] == v && [bio][0] == bio && [Last(r.bios)][0] == Last(r.bios);
    var r1 := r.(bios := r.bios[|r.bios| - 1 := t]);
    ShapeSame(r, r1.bios);
    SameDataAll(r.bios, r1.bios);
    var one := Rq([v], v.sector, Bytes(v.bvecs), v.physSegs, false);
    ShapeOne(v, one);
    AllBvecsConcat(r1.bios, [v]);
    AllBvecsOne(v);
    var r2 := r1.(bios := r1.bios + [v], dataLen := r.dataLen + Bytes(bio.bvecs),
                  nrPhys := r.nrPhys + v.physSegs);
    ShapeConcat(r1, one, r2);
  }

  lemma FrontMergeKeeps(lim: Limits, r: Rq, bio: Bio)
    requires RqOk(lim, r) && r.bios != [] && BioOk(lim, bio)
    requires bio.sector + BioSectors(bio) == r.sector
    ensures RqOk(lim, FrontMerge(lim, r, bio).0)
  {
    hide Fits, Shape, Gap, TooLong, Validated, AllBvecs, BioOk;
    var h, v := Validated(lim, r.bios[0]), Validated(lim, bio);
    FrontMergeParts(lim, r, bio);
    var (r', _, merged) := FrontMerge(lim, r, bio);
    var r1 := r.(bios := r.bios[0 := h]);
    FitsMore(lim, AllBvecs(r.bios), r.nrPhys, r.bios[0].segFront, Last(r.bios).segBack,
             h.segFront, Last(r1.bios).segBack);
    if merged {
      FitsConcat(lim, bio.bvecs, v.physSegs, v.segFront, v.segBack,
                 AllBvecs(r.bios), r.nrPhys, h.segFront, Last(r1.bios).segBack);
      assert r'.bios[0] == v && Last(r'.bios) == Last(r1.bios);
    }
  }

  lemma FrontMergeParts(lim: Limits, r: Rq, bio: Bio)
    requires RqOk(lim, r) && r.bios != [] && BioOk(lim, bio)
    requires bio.sector + BioSectors(bio) == r.sector
    ensures var h, v := Validated(lim, r.bios[0]), Validated(lim, bio);
      var r1 := r.(bios := r.bios[0 := h]);
      var r2 := r1.(bios := [v] + r1.bios, sector := bio.sector,
                    dataLen := r.dataLen + Bytes(bio.bvecs), nrPhys := r.nrPhys + v.physSegs);
      && Shape(r1) && Shape(r1.(noMerge := true)) && Shape(r2) && Shape(r.(noMerge := true))
      && AllBvecs(r1.bios) == AllBvecs(r.bios)
      && AllBvecs(r2.bios) == bio.bvecs + AllBvecs(r.bios)
      && r.bios[0].segFront <= h.segFront && Last(r.bios).segBack <= Last(r1.bios).segBack
      && Fits(lim, bio.bvecs, v.physSegs, v.segFront, v.segBack)
  {
    hide Fits, Bytes, Validated, Adjacent, AllBvecs, BvecsOk;
    var h, v := Validated(lim, r.bios[0]), Validated(lim, bio);
    ValidatedFits(lim, r.bios[0]);
    ValidatedFits(lim, bio);
    assert [h][0] == h && [v][0] == v && [bio][0] == bio && [r.bios[0]][0] == r.bios[0];
    var r1 := r.(bios := r.bios[0 := h]);
    ShapeSame(r, r1.bios);
    SameDataAll(r.bios, r1.bios);
    var one := Rq([v], v.sector, Bytes(v.bvecs), v.physSegs, false);
    ShapeOne(v, one);
    AllBvecsConcat([v], r1.bios);
    AllBvecsOne(v);
    var r2 := r1.(bios := [v] + r1.bios, sector := bio.sector,
                  dataLen := r.dataLen + Bytes(bio.bvecs), nrPhys := r.nrPhys + v.physSegs);
    ShapeConcat(one, r1, r2);
  }

  // ---------------------------------------------------------------- request merges

  /** Even when the merge then fails, both requests keep their bounds. */
  lemma SpreadSizeKeeps(lim: Limits, req: Rq, next: Rq)
    requires RqOk(lim, req) && RqOk(lim, next) && req.bios != [] && next.bios != []
    requires ContigSegment(lim, Last(req.bios), next.bios[0])
    ensures var (a, b) := SpreadSize(req, next);
      && RqOk(lim, a) && RqOk(lim, b)
      && SameData(req.bios, a.bios) && SameData(next.bios, b.bios)
      && a.bios[0].segFront == (if req.nrPhys == 1
                                then Last(req.bios).segBack + next.bios[0].segFront
                                else req.bios[0].segFront)
      && Last(b.bios).segBack == (if next.nrPhys == 1
                                  then Last(req.bios).segBack + next.bios[0].segFront
                                  else Last(next.bios).segBack)
      && a.sector == req.sector && b.sector == next.sector
      && a.dataLen == req.dataLen && b.dataLen == next.dataLen
  {
    hide Fits, Shape, AllBvecs;
    var (a, b) := SpreadSize(req, next);
    ShapeSame(req, a.bios);
    ShapeSame(next, b.bios);
    SameDataAll(req.bios, a.bios);
    SameDataAll(next.bios, b.bios);
    if req.nrPhys == 1 {
      FitsSingle(lim, AllBvecs(req.bios), req.bios[0].segFront, Last(req.bios).segBack);
    }
    if next.nrPhys == 1 {
      FitsSingle(lim, AllBvecs(next.bios), next.bios[0].segFront, Last(next.bios).segBack);
    }
  }

  lemma AttemptMergeKeeps(lim: Limits, req: Rq, next: Rq, compatible: bool)
    requires RqOk(lim, req) && RqOk(lim, next) && req.bios != [] && next.bios != []
    ensures var (a, b, _) := AttemptMerge(lim, req, next, compatible);
      RqOk(lim, a) && RqOk(lim, b)
  {
    hide Fits, Shape, RqSectors, Gap, TooLong, ContigSegment, SpreadSize;
    var (a, b, merged) := AttemptMerge(lim, req, next, compatible);
    var contig := ContigSegment(lim, Last(req.bios), next.bios[0]);
    if contig {
      SpreadSizeKeeps(lim, req, next);
    }
    if merged {
      var (x, y) := if contig then SpreadSize(req, next) else (req, next);
      MergedShape(lim, req, next, x, y, a);
      MergedSegments(lim, req, next, x, y);
      assert a.bios[0] == x.bios[0] && Last(a.bios) == Last(y.bios);
      EmptyOk(lim, b);
    }
  }

  lemma EmptyOk(lim: Limits, r: Rq)
    requires r.bios == [] && r.dataLen == 0
    ensures RqOk(lim, r)
  {
  }

  lemma MergedShape(lim: Limits, req: Rq, next: Rq, x: Rq, y: Rq, a: Rq)
    requires RqOk(lim, req) && RqOk(lim, next) && req.bios != [] && next.bios != []
    requires req.sector + RqSectors(req) == next.sector
    requires SameData(req.bios, x.bios) && SameData(next.bios, y.bios)
    requires a.bios == x.bios + y.bios && a.sector == req.sector
    requires a.dataLen == req.dataLen + next.dataLen
    ensures Shape(a)
    ensures AllBvecs(a.bios) == AllBvecs(req.bios) + AllBvecs(next.bios)
  {
    hide Adjacent, Bytes, RqSectors, Fits;
    ShapeConcat(req, next, a);
    AllBvecsConcat(x.bios, y.bios);
    SameDataAll(req.bios, x.bios);
    SameDataAll(next.bios, y.bios);
  }

  lemma MergedSegments(lim: Limits, req: Rq, next: Rq, x: Rq, y: Rq)
    requires RqOk(lim, req) && RqOk(lim, next) && req.bios != [] && next.bios != []
    requires x.bios != [] && y.bios != []
    requires var contig := ContigSegment(lim, Last(req.bios), next.bios[0]);
      && x.bios[0].segFront == (if contig && req.nrPhys == 1
                                then Last(req.bios).segBack + next.bios[0].segFront
                                else req.bios[0].segFront)
      && Last(y.bios).segBack == (if contig && next.nrPhys == 1
                                  then Last(req.bios).segBack + next.bios[0].segFront
                                  else Last(next.bios).segBack)
    ensures var contig := ContigSegment(lim, Last(req.bios), next.bios[0]);
      var total := req.nrPhys + next.nrPhys - (if contig then 1 else 0);
      total >= 0
      && Fits(lim, AllBvecs(req.bios) + AllBvecs(next.bios), total, x.bios[0].segFront, Last(y.bios).segBack)
  {
    hide Fits, Bytes, Adjacent;
    var a, b := AllBvecs(req.bios), AllBvecs(next.bios);
    if ContigSegment(lim, Last(req.bios), next.bios[0]) {
      AllBvecsOk(req.bios);
      AllBvecsOk(next.bios);
      AllBvecsFirst(next.bios);
      FitsJoin(lim, a, req.nrPhys, req.bios[0].segFront, Last(req.bios).segBack,
               b, next.nrPhys, next.bios[0].segFront, Last(next.bios).segBack);
    } else {
      FitsConcat(lim, a, req.nrPhys, req.bios[0].segFront, Last(req.bios).segBack,
                 b, next.nrPhys, next.bios[0].segFront, Last(next.bios).segBack);
    }
  }

  // ---------------------------------------------------------------- completion

  lemma {:induction false} DropBytesOk(bs: seq<Bvec>, n: nat)
    requires BvecsOk(bs) && n % SECTOR == 0
    ensures BvecsOk(DropBytes(bs, n))
    ensures Bytes(DropBytes(bs, n)) == if n <= Bytes(bs) then Bytes(bs) - n else 0
    ensures DropBytes(bs, n) == [] <==> Bytes(bs) <= n
    decreases |bs|
  {
    hide Bytes;
    BytesEmpty();
    BytesWhole(bs);
    if bs != [] && n != 0 {
      BytesFirst(bs);
      if bs[0].len <= n {
        DropBytesOk(bs[1..], n - bs[0].len);
      } else {
        var d := DropBytes(bs, n);
        BytesFirst(d);
        assert d[1..] == bs[1..];
      }
    }
  }

  lemma {:induction false} DropBytesConcat(a: seq<Bvec>, b: seq<Bvec>, n: nat)
    requires BvecsOk(a)
    ensures n < Bytes(a) ==> DropBytes(a + b, n) == DropBytes(a, n) + b
    ensures n >= Bytes(a) ==> DropBytes(a + b, n) == DropBytes(b, n - Bytes(a))
    decreases |a|
  {
    if a == [] {
      assert a + b == b;
    } else {
      BytesFirst(a);
      assert (a + b)[1..] == a[1..] + b && (a + b)[0] == a[0];
      if a[0].len <= n {
        DropBytesConcat(a[1..], b, n - a[0].len);
      }
    }
  }

  /**
  What blk_update_request leaves of a chain of bios when `n` bytes complete: exactly the bytes
  after the first `n`, still one contiguous chain; nothing is left when all has completed.
  */
  lemma {:induction false} RemainingSpec(bios: seq<Bio>, n: nat)
    requires BiosOk(bios) && Adjacent(bios) && n % SECTOR == 0
    ensures var rem := Remaining(bios, n);
      && (rem == [] <==> Bytes(AllBvecs(bios)) <= n)
      && (rem != [] ==>
          && BiosOk(rem) && Adjacent(rem)
          && AllBvecs(rem) == DropBytes(AllBvecs(bios), n)
          && Bytes(AllBvecs(rem)) == Bytes(AllBvecs(bios)) - n
          && rem[0].sector == bios[0].sector + n / SECTOR)
    decreases |bios|
  {
    hide Bytes, Adjacent, DropBytes, BvecsOk, AllBvecs;
    AllBvecsNone();
    AllBvecsOk(bios);
    DropBytesOk(AllBvecs(bios), n);
    DropNothing(AllBvecs(bios));
    BytesEmpty();
    if bios == [] || n == 0 {
      BytesWhole(AllBvecs(bios));
    } else {
      var head, tail := bios[0], bios[1..];
      AllBvecsFirst(bios);
      BytesConcat(head.bvecs, AllBvecs(tail));
      DropBytesConcat(head.bvecs, AllBvecs(tail), n);
      BytesWhole(head.bvecs);
      if Bytes(head.bvecs) <= n {
        AdjacentTail(bios);
        RemainingSpec(tail, n - Bytes(head.bvecs));
        WholeSectors(Bytes(head.bvecs), n - Bytes(head.bvecs));
      } else {
        AdvanceSpec(bios, n);
      }
    }
  }

  lemma DropNothing(bs: seq<Bvec>)
    ensures DropBytes(bs, 0) == bs
  {
  }

  lemma AdjacentTail(bios: seq<Bio>)
    requires Adjacent(bios) && bios != []
    ensures Adjacent(bios[1..])
    ensures |bios| > 1 ==> bios[1].sector == bios[0].sector + BioSectors(bios[0])
  {
  }

  lemma AdvanceSpec(bios: seq<Bio>, n: nat)
    requires BiosOk(bios) && Adjacent(bios) && n % SECTOR == 0
    requires bios != [] && n < Bytes(bios[0].bvecs)
    ensures var rem := [AdvanceBio(bios[0], n)] + bios[1..];
      && BiosOk(rem) && Adjacent(rem)
      && AllBvecs(rem) == DropBytes(AllBvecs(bios), n)
  {
    hide Bytes;
    var head, tail := bios[0], bios[1..];
    var cut := AdvanceBio(head, n);
    var rem := [cut] + tail;
    DropBytesOk(head.bvecs, n);
    BytesWhole(head.bvecs);
    WholeSectors(n, Bytes(head.bvecs) - n);
    assert cut.sector + BioSectors(cut) == head.sector + BioSectors(head);
    if tail != [] {
      assert tail[0] == bios[1];
    }
    AdjacentConcat([cut], tail);
    AllBvecsFirst(bios);
    AllBvecsFirst(rem);
    DropBytesConcat(head.bvecs, AllBvecs(tail), n);
  }

  /** The "request botched" branch of blk_update_request never runs. */
  lemma NotBotched(r: Rq, n: nat)
    requires Shape(r) && r.bios != [] && n % SECTOR == 0 && Remaining(r.bios, n) != []
    ensures var rem := Remaining(r.bios, n);
      rem[0].bvecs != [] && rem[0].bvecs[0].len <= r.dataLen - n
  {
    hide Remaining, Adjacent;
    RemainingSpec(r.bios, n);
    var rem := Remaining(r.bios, n);
    AllBvecsFirst(rem);
    BytesFirst(AllBvecs(rem));
    assert AllBvecs(rem)[0] == rem[0].bvecs[0];
  }

  lemma UpdateRequestKeeps(lim: Limits, r: Rq, n: nat)
    requires RqOk(lim, r) && n % SECTOR == 0
    ensures RqOk(lim, UpdateRequest(lim, r, n).0)
  {
    hide Fits, Remaining, Recalc, Bytes, Adjacent;
    var r' := UpdateRequest(lim, r, n).0;
    if r.bios != [] {
      RemainingSpec(r.bios, n);
      var rem := Remaining(r.bios, n);
      if rem == [] {
        EmptyOk(lim, r');
      } else {
        NotBotched(r, n);
        AllBvecsOk(rem);
        RecalcFits(lim, rem);
        SameDataAll(rem, Recalc(lim, rem));
        var plain := Rq(rem, r'.sector, r'.dataLen, r'.nrPhys, r'.noMerge);
        assert Shape(plain);
        ShapeSame(plain, Recalc(lim, rem));
        assert r' == plain.(bios := Recalc(lim, rem));
      }
    }
  }

  /**
  Completing blk_rq_bytes(rq) bytes or more always finishes the request; completing fewer never
  does, and leaves exactly the bytes that follow.
  */
  lemma CompletionExact(lim: Limits, r: Rq, n: nat)
    requires RqOk(lim, r) && r.bios != [] && n % SECTOR == 0
    ensures var (r', more) := UpdateRequest(lim, r, n);
      && (more <==> n < r.dataLen)
      && (more ==>
          && r'.dataLen == r.dataLen - n
          && r'.sector == r.sector + n / SECTOR
          && AllBvecs(r'.bios) == DropBytes(AllBvecs(r.bios), n))
      && (!more ==> r'.bios == [] && r'.dataLen == 0)
  {
    hide Fits, Remaining, Recalc, Bytes, Adjacent;
    RemainingSpec(r.bios, n);
    var rem := Remaining(r.bios, n);
    if rem != [] {
      NotBotched(r, n);
      AllBvecsOk(rem);
      RecalcFits(lim, rem);
      SameDataAll(rem, Recalc(lim, rem));
    }
  }

  /** A bio is ended by a completion exactly when all bytes up to its end are complete. */
  lemma {:induction false} EndedExactly(bios: seq<Bio>, n: nat, i: nat)
    requires BiosOk(bios) && i < |bios|
    ensures |Remaining(bios, n)| <= |bios|
    ensures i < |bios| - |Remaining(bios, n)| <==> Bytes(AllBvecs(bios[..i + 1])) <= n
    decreases |bios|
  {
    hide Bytes, BvecsOk;
    var head, tail := bios[0], bios[1..];
    AllBvecsFirst(bios[..i + 1]);
    assert bios[..i + 1][1..] == tail[..i];
    BytesConcat(head.bvecs, AllBvecs(tail[..i]));
    BytesWhole(head.bvecs);
    if n > 0 && Bytes(head.bvecs) <= n {
      if i == 0 {
        assert AllBvecs(tail[..0]) == [];
        BytesEmpty();
        RemainingShorter(tail, n - Bytes(head.bvecs));
      } else {
        EndedExactly(tail, n - Bytes(head.bvecs), i - 1);
      }
    }
  }

  lemma BytesEmpty()
    ensures Bytes([]) == 0
  {
  }

  lemma {:induction false} RemainingShorter(bios: seq<Bio>, n: nat)
    ensures |Remaining(bios, n)| <= |bios|
    decreases |bios|
  {
    if bios != [] && n > 0 && Bytes(bios[0].bvecs) <= n {
      RemainingShorter(bios[1..], n - Bytes(bios[0].bvecs));
    }
  }

  // ---------------------------------------------------------------- any run

  ghost predicate AllOk(lim: Limits, pool: seq<Rq>) {
    forall i :: 0 <= i < |pool| ==> RqOk(lim, pool[i])
  }

  lemma NextKeeps(lim: Limits, pool: seq<Rq>, op: Op)
    requires AllOk(lim, pool)
    ensures AllOk(lim, Next(lim, pool, op))
  {
    hide RqOk, BackMerge, FrontMerge, AttemptMerge, UpdateRequest, NewRequest, BioOk;
    if Enabled(lim, pool, op) {
      match op
      case Submit(bio) => NewRequestKeeps(lim, bio);
      case Back(i, bio) => BackMergeKeeps(lim, pool[i], bio);
      case Front(i, bio) => FrontMergeKeeps(lim, pool[i], bio);
      case Merge(i, j, compatible) => AttemptMergeKeeps(lim, pool[i], pool[j], compatible);
      case Complete(i, n) => UpdateRequestKeeps(lim, pool[i], n);
    }
  }

  lemma {:induction false} RunKeeps(lim: Limits, pool: seq<Rq>, ops: seq<Op>)
    requires AllOk(lim, pool)
    ensures AllOk(lim, Run(lim, pool, ops))
    decreases |ops|
  {
    hide AllOk, Next;
    if ops != [] {
      NextKeeps(lim, pool, ops[0]);
      RunKeeps(lim, Next(lim, pool, ops[0]), ops[1..]);
    }
  }

  /**
  The main theorem: after any sequence of merges, failed merges and completions, mapping a
  request to a scatterlist needs at most nr_phys_segments entries.
  */
  lemma MapWithinCount(lim: Limits, ops: seq<Op>, i: nat)
    requires i < |Run(lim, [], ops)|
    ensures var r := Run(lim, [], ops)[i];
      r.bios != [] ==> SegCount(lim, r.bios) <= r.nrPhys
  {
    hide Run, Grouping, Greedy;
    RunKeeps(lim, [], ops);
    var r := Run(lim, [], ops)[i];
    if r.bios != [] {
      var p :| Grouping(lim, AllBvecs(r.bios), p)
            && Bounds(p, r.nrPhys, r.bios[0].segFront, Last(r.bios).segBack);
      GreedyOptimal(lim, AllBvecs(r.bios), p);
    }
  }

  /** The same run keeps __data_len, __sector and the chain of bios in agreement. */
  lemma ShapeAlways(lim: Limits, ops: seq<Op>, i: nat)
    requires i < |Run(lim, [], ops)|
    ensures var r := Run(lim, [], ops)[i];
      && r.dataLen == Bytes(AllBvecs(r.bios))
      && Adjacent(r.bios)
      && (r.bios != [] ==> r.sector == r.bios[0].sector && r.dataLen > 0)
  {
    hide Run, SegBound;
    RunKeeps(lim, [], ops);
    var r := Run(lim, [], ops)[i];
    AllBvecsOk(r.bios);
    BytesWhole(AllBvecs(r.bios));
  }
}
