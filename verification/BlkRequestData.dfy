/** When a merge is granted, and what the requests hold afterwards (block/blk-core.c, block/blk-merge.c). */
module BlkRequestData {
  import opened Segments
  import opened BlkRequest
  import opened BlkRequestProofs

  /** The segments a bio counts for. */
  function BioSegments(lim: Limits, b: Bio): nat {
    if b.segValid then b.physSegs else |Greedy(lim, b.bvecs)|
  }

  /** The queue forbids a gap between `a` and `b`, and there is one. */
  predicate GapBetween(lim: Limits, a: seq<Bvec>, b: seq<Bvec>) {
    a != [] && b != [] && lim.gap(a[|a| - 1], b[0])
  }

  lemma ValidatedData(lim: Limits, b: Bio)
    ensures var v := Validated(lim, b);
      v.bvecs == b.bvecs && v.sector == b.sector && v.physSegs == BioSegments(lim, b)
  {
    hide Greedy;
    AllBvecsOne(b);
  }

  /** A bio goes to the back of a request exactly when there is no forbidden gap and neither the size nor the segments
      exceed their limit; then the request holds its data behind its own, and otherwise its own alone. A request that
      has reached a limit takes no more merges. */
  lemma BackMergeData(lim: Limits, r: Rq, bio: Bio)
    requires r.bios != []
    ensures var (r', b, merged) := BackMerge(lim, r, bio);
      && (merged <==>
            && !GapBetween(lim, Last(r.bios).bvecs, bio.bvecs)
            && r.dataLen / 512 + Bytes(bio.bvecs) / 512 <= lim.maxSectors(r.sector)
            && r.nrPhys + BioSegments(lim, bio) <= lim.maxSegments)
      && AllBvecs(r'.bios) == AllBvecs(r.bios) + (if merged then bio.bvecs else [])
      && r'.dataLen == r.dataLen + (if merged then Bytes(bio.bvecs) else 0)
      && r'.sector == r.sector && b.bvecs == bio.bvecs && b.sector == bio.sector
      && (r'.noMerge <==> r.noMerge || (!merged && !GapBetween(lim, Last(r.bios).bvecs, bio.bvecs)))
  {
    hide Validated, AllBvecs, Bytes, Greedy;
    ValidatedData(lim, bio);
    ValidatedData(lim, Last(r.bios));
    var r1 := r.bios[|r.bios| - 1 := Validated(lim, Last(r.bios))];
    SameDataAll(r.bios, r1);
    AllBvecsSnoc(r1, Validated(lim, bio));
    assert AllBvecs(r.bios) + [] == AllBvecs(r.bios);
  }

  /** The same at the front, where the request also starts with the bio. */
  lemma FrontMergeData(lim: Limits, r: Rq, bio: Bio)
    requires r.bios != []
    ensures var (r', b, merged) := FrontMerge(lim, r, bio);
      && (merged <==>
            && !GapBetween(lim, bio.bvecs, r.bios[0].bvecs)
            && r.dataLen / 512 + Bytes(bio.bvecs) / 512 <= lim.maxSectors(r.sector)
            && r.nrPhys + BioSegments(lim, bio) <= lim.maxSegments)
      && AllBvecs(r'.bios) == (if merged then bio.bvecs else []) + AllBvecs(r.bios)
      && r'.dataLen == r.dataLen + (if merged then Bytes(bio.bvecs) else 0)
      && r'.sector == (if merged then bio.sector else r.sector) && b.bvecs == bio.bvecs && b.sector == bio.sector
      && (r'.noMerge <==> r.noMerge || (!merged && !GapBetween(lim, bio.bvecs, r.bios[0].bvecs)))
  {
    hide Validated, AllBvecs, Bytes, Greedy;
    ValidatedData(lim, bio);
    ValidatedData(lim, r.bios[0]);
    var v := Validated(lim, bio);
    var r1 := r.bios[0 := Validated(lim, r.bios[0])];
    SameDataAll(r.bios, r1);
    AllBvecsConcat([v], r1);
    AllBvecsOne(v);
    assert [] + AllBvecs(r.bios) == AllBvecs(r.bios);
  }

  /** The last segment of `a` and the first of `b` are one for the hardware. */
  predicate JoinsUp(lim: Limits, a: Bio, b: Bio) {
    && lim.cluster && a.segBack + b.segFront <= lim.maxSegmentSize
    && a.bvecs != [] && b.bvecs != [] && lim.contig(a.bvecs[|a.bvecs| - 1], b.bvecs[0])
  }

  /** A request absorbs another exactly when both may merge, the other starts where it ends, there is no forbidden
      gap, and neither the size nor the segments, one fewer where the two join, exceed their limit. Then it holds
      the data of both and the other none; otherwise each holds its own. */
  lemma AttemptMergeData(lim: Limits, req: Rq, next: Rq, compatible: bool)
    requires RqOk(lim, req) && RqOk(lim, next) && req.bios != [] && next.bios != []
    ensures var (a, b, merged) := AttemptMerge(lim, req, next, compatible);
      && (merged <==>
            && !req.noMerge && !next.noMerge && compatible
            && req.sector + req.dataLen / 512 == next.sector
            && !GapBetween(lim, Last(req.bios).bvecs, next.bios[0].bvecs)
            && req.dataLen / 512 + next.dataLen / 512 <= lim.maxSectors(req.sector)
            && req.nrPhys + next.nrPhys
                 <= lim.maxSegments + (if JoinsUp(lim, Last(req.bios), next.bios[0]) then 1 else 0))
      && AllBvecs(a.bios) == AllBvecs(req.bios) + (if merged then AllBvecs(next.bios) else [])
      && AllBvecs(b.bios) == (if merged then [] else AllBvecs(next.bios))
      && a.dataLen == req.dataLen + (if merged then next.dataLen else 0)
      && a.sector == req.sector && b.sector == next.sector
  {
    hide Fits, AllBvecs, Bytes, SpreadSize, Adjacent, BvecsOk;
    AllBvecsNone();
    SpreadSizeData(req, next);
    var (x, y) := SpreadSize(req, next);
    SameDataAll(req.bios, x.bios);
    SameDataAll(next.bios, y.bios);
    AllBvecsConcat(req.bios, next.bios);
    AllBvecsConcat(x.bios, y.bios);
    assert AllBvecs(req.bios) + [] == AllBvecs(req.bios);
    SomeSegments(lim, req);
    SomeSegments(lim, next);
  }

  lemma SpreadSizeData(req: Rq, next: Rq)
    requires req.bios != [] && next.bios != []
    ensures var (a, b) := SpreadSize(req, next);
      && SameData(req.bios, a.bios) && SameData(next.bios, b.bios)
      && a.sector == req.sector && b.sector == next.sector
      && a.dataLen == req.dataLen && b.dataLen == next.dataLen
  {
  }

  lemma SomeSegments(lim: Limits, r: Rq)
    requires RqOk(lim, r) && r.bios != []
    ensures r.nrPhys >= 1
  {
  }
}
