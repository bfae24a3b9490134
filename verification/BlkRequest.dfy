/**
Requests built from bios: bio merges and request merges (block/blk-merge.c, block/blk-core.c),
partial completion (blk_update_request) and the segment count that follows a request around.
*/
module BlkRequest {
  import opened Segments

  const SECTOR: nat := 512

  /** struct bio, with the data still to transfer as a flat list of vectors. */
  datatype Bio = Bio(
    sector: nat,
    bvecs: seq<Bvec>,
    segFront: nat,          // bi_seg_front_size
    segBack: nat,           // bi_seg_back_size
    physSegs: nat,          // bi_phys_segments
    segValid: bool)         // BIO_SEG_VALID

  /** struct request. */
  datatype Rq = Rq(
    bios: seq<Bio>,
    sector: nat,            // __sector
    dataLen: int,           // __data_len
    nrPhys: nat,            // nr_phys_segments
    noMerge: bool)          // REQ_NOMERGE

  function Max(a: nat, b: nat): nat { if a < b then b else a }

  function BioSectors(b: Bio): nat { Bytes(b.bvecs) / SECTOR }

  function RqSectors(r: Rq): int { r.dataLen / SECTOR }

  function AllBvecs(bios: seq<Bio>): seq<Bvec> {
    if bios == [] then [] else AllBvecs(bios[..|bios| - 1]) + bios[|bios| - 1].bvecs
  }

  // ---------------------------------------------------------------- invariants

  /** Vectors are whole, non-empty sectors. */
  ghost predicate BvecsOk(bs: seq<Bvec>) {
    forall i :: 0 <= i < |bs| ==> bs[i].len > 0 && bs[i].len % SECTOR == 0
  }

  /** `n` segments suffice for `bs`, with the first and last no bigger than `front` and `back`. */
  ghost predicate Fits(lim: Limits, bs: seq<Bvec>, n: nat, front: nat, back: nat) {
    exists p :: Grouping(lim, bs, p) && Bounds(p, n, front, back)
  }

  ghost predicate Bounds(p: seq<seq<Bvec>>, n: nat, front: nat, back: nat) {
    |p| == n && p != [] && Bytes(p[0]) <= front && Bytes(Last(p)) <= back
  }

  /** A bio offered for merging: if its segments have been counted, the count is right. */
  ghost predicate BioOk(lim: Limits, b: Bio) {
    && b.bvecs != [] && BvecsOk(b.bvecs)
    && (b.segValid ==> Fits(lim, b.bvecs, b.physSegs, b.segFront, b.segBack))
  }

  ghost predicate Adjacent(bios: seq<Bio>) {
    forall i :: 0 < i < |bios| ==> bios[i].sector == bios[i - 1].sector + BioSectors(bios[i - 1])
  }

  /** __data_len, __sector and the chain of bios agree. */
  ghost predicate Shape(r: Rq) {
    && (forall i :: 0 <= i < |r.bios| ==> r.bios[i].bvecs != [] && BvecsOk(r.bios[i].bvecs))
    && Adjacent(r.bios)
    && r.dataLen == Bytes(AllBvecs(r.bios))
    && (r.bios != [] ==> r.sector == r.bios[0].sector)
  }

  /** The segment bound. */
  ghost predicate SegBound(lim: Limits, r: Rq) {
    r.bios != [] ==>
      Fits(lim, AllBvecs(r.bios), r.nrPhys, r.bios[0].segFront, Last(r.bios).segBack)
  }

  ghost predicate RqOk(lim: Limits, r: Rq) {
    Shape(r) && SegBound(lim, r)
  }

  // ---------------------------------------------------------------- counting segments

  /** __blk_recalc_rq_segments: the front and back sizes can only grow. */
  function Recalc(lim: Limits, bios: seq<Bio>): seq<Bio> {
    var g := Greedy(lim, AllBvecs(bios));
    if bios == [] || g == [] then bios
    else
      var front := bios[0 := bios[0].(segFront := Max(bios[0].segFront, Bytes(g[0])))];
      front[|bios| - 1 := Last(front).(segBack := Max(Last(front).segBack, Bytes(Last(g))))]
  }

  function SegCount(lim: Limits, bios: seq<Bio>): nat {
    |Greedy(lim, AllBvecs(bios))|
  }

  /** blk_recount_segments, with SG merging enabled. */
  function Recount(lim: Limits, b: Bio): Bio {
    Recalc(lim, [b])[0].(physSegs := SegCount(lim, [b]), segValid := true)
  }

  function Validated(lim: Limits, b: Bio): Bio {
    if b.segValid then b else Recount(lim, b)
  }

  // ---------------------------------------------------------------- bio merges

  predicate Gap(lim: Limits, a: Bio, b: Bio) {
    a.bvecs != [] && b.bvecs != [] && lim.gap(Last(a.bvecs), b.bvecs[0])
  }

  predicate TooLong(lim: Limits, r: Rq, sectors: nat) {
    RqSectors(r) + sectors > lim.maxSectors(r.sector)
  }

  /** bio_attempt_back_merge. The bio comes back as well: it may have been recounted. */
  function BackMerge(lim: Limits, r: Rq, bio: Bio): (Rq, Bio, bool)
    requires r.bios != []
  {
    if Gap(lim, Last(r.bios), bio) then (r, bio, false)
    else if TooLong(lim, r, BioSectors(bio)) then (r.(noMerge := true), bio, false)
    else
      var b := Validated(lim, bio);
      var r1 := r.(bios := r.bios[|r.bios| - 1 := Validated(lim, Last(r.bios))]);
      if r.nrPhys + b.physSegs > lim.maxSegments then (r1.(noMerge := true), b, false)
      else (r1.(bios := r1.bios + [b],
                dataLen := r.dataLen + Bytes(bio.bvecs),
                nrPhys := r.nrPhys + b.physSegs), b, true)
  }

  /** bio_attempt_front_merge. */
  function FrontMerge(lim: Limits, r: Rq, bio: Bio): (Rq, Bio, bool)
    requires r.bios != []
  {
    if Gap(lim, bio, r.bios[0]) then (r, bio, false)
    else if TooLong(lim, r, BioSectors(bio)) then (r.(noMerge := true), bio, false)
    else
      var b := Validated(lim, bio);
      var r1 := r.(bios := r.bios[0 := Validated(lim, r.bios[0])]);
      if r.nrPhys + b.physSegs > lim.maxSegments then (r1.(noMerge := true), b, false)
      else (r1.(bios := [b] + r1.bios,
                sector := bio.sector,
                dataLen := r.dataLen + Bytes(bio.bvecs),
                nrPhys := r.nrPhys + b.physSegs), b, true)
  }

  // ---------------------------------------------------------------- request merges

  /** blk_phys_contig_segment, for bios with data. */
  predicate ContigSegment(lim: Limits, a: Bio, b: Bio) {
    && lim.cluster
    && a.segBack + b.segFront <= lim.maxSegmentSize
    && a.bvecs != [] && b.bvecs != [] && lim.contig(Last(a.bvecs), b.bvecs[0])
  }

  /** The side effect of ll_merge_requests_fn on contiguous requests, kept even if it then fails. */
  function SpreadSize(req: Rq, next: Rq): (Rq, Rq)
    requires req.bios != [] && next.bios != []
  {
    var size := Last(req.bios).segBack + next.bios[0].segFront;
    (if req.nrPhys == 1
     then req.(bios := req.bios[0 := req.bios[0].(segFront := size)]) else req,
     if next.nrPhys == 1
     then next.(bios := next.bios[|next.bios| - 1 := Last(next.bios).(segBack := size)]) else next)
  }

  /** attempt_merge; `compatible` stands for the tests on flags, direction and disk. */
  function AttemptMerge(lim: Limits, req: Rq, next: Rq, compatible: bool): (Rq, Rq, bool)
    requires req.bios != [] && next.bios != []
  {
    if req.noMerge || next.noMerge || !compatible then (req, next, false)
    else if req.sector + RqSectors(req) != next.sector then (req, next, false)
    else if Gap(lim, Last(req.bios), next.bios[0]) then (req, next, false)
    else if TooLong(lim, req, if RqSectors(next) < 0 then 0 else RqSectors(next)) then (req, next, false)
    else
      var contig := ContigSegment(lim, Last(req.bios), next.bios[0]);
      var (a, b) := if contig then SpreadSize(req, next) else (req, next);
      var total := req.nrPhys + next.nrPhys - (if contig then 1 else 0);
      if total > lim.maxSegments || total < 0 then (a, b, false)
      else (a.(bios := a.bios + b.bios, dataLen := a.dataLen + b.dataLen, nrPhys := total),
            b.(bios := [], dataLen := 0), true)
  }

  // ---------------------------------------------------------------- completion

  /** bio_advance_iter on a flat list of vectors. */
  function DropBytes(bs: seq<Bvec>, n: nat): seq<Bvec> {
    if bs == [] || n == 0 then bs
    else if bs[0].len <= n then DropBytes(bs[1..], n - bs[0].len)
    else [Bvec(bs[0].page, bs[0].offset + n, bs[0].len - n)] + bs[1..]
  }

  function AdvanceBio(b: Bio, n: nat): Bio {
    b.(sector := b.sector + n / SECTOR, bvecs := DropBytes(b.bvecs, n))
  }

  /** The loop of blk_update_request: the bios left, the first of them perhaps cut. */
  function Remaining(bios: seq<Bio>, n: nat): seq<Bio> {
    if bios == [] || n == 0 then bios
    else if Bytes(bios[0].bvecs) <= n then Remaining(bios[1..], n - Bytes(bios[0].bvecs))
    else [AdvanceBio(bios[0], n)] + bios[1..]
  }

  /** blk_update_request; the result says whether the request has more data. */
  function UpdateRequest(lim: Limits, r: Rq, n: nat): (Rq, bool) {
    if r.bios == [] then (r, false)
    else
      var rem := Remaining(r.bios, n);
      if rem == [] then (r.(bios := [], dataLen := 0), false)
      else
        var len := r.dataLen - n;
        var cur := if rem[0].bvecs == [] then 0 else rem[0].bvecs[0].len;
        (r.(bios := Recalc(lim, rem),
            dataLen := if len < cur then cur else len,
            sector := r.sector + n / SECTOR,
            nrPhys := SegCount(lim, rem)), true)
  }

  // ---------------------------------------------------------------- any run

  datatype Op =
    | Submit(bio: Bio)
    | Back(i: nat, bio: Bio)
    | Front(i: nat, bio: Bio)
    | Merge(i: nat, j: nat, compatible: bool)
    | Complete(i: nat, n: nat)

  /** What callers check first: blk_try_merge decides between a back and a front merge. */
  ghost predicate Enabled(lim: Limits, pool: seq<Rq>, op: Op) {
    match op
    case Submit(bio) => BioOk(lim, bio)
    case Back(i, bio) =>
      && i < |pool| && pool[i].bios != [] && BioOk(lim, bio)
      && pool[i].sector + RqSectors(pool[i]) == bio.sector
    case Front(i, bio) =>
      && i < |pool| && pool[i].bios != [] && BioOk(lim, bio)
      && bio.sector + BioSectors(bio) == pool[i].sector
    case Merge(i, j, _) =>
      i < |pool| && j < |pool| && i != j && pool[i].bios != [] && pool[j].bios != []
    case Complete(i, n) => i < |pool| && n % SECTOR == 0
  }

  /** blk_rq_bio_prep. */
  function NewRequest(lim: Limits, bio: Bio): Rq {
    var b := Validated(lim, bio);
    Rq([b], b.sector, Bytes(b.bvecs), b.physSegs, false)
  }

  ghost function Next(lim: Limits, pool: seq<Rq>, op: Op): seq<Rq> {
    if !Enabled(lim, pool, op) then pool
    else match op
      case Submit(bio) => pool + [NewRequest(lim, bio)]
      case Back(i, bio) => pool[i := BackMerge(lim, pool[i], bio).0]
      case Front(i, bio) => pool[i := FrontMerge(lim, pool[i], bio).0]
      case Merge(i, j, compatible) =>
        var (a, b, _) := AttemptMerge(lim, pool[i], pool[j], compatible);
        pool[i := a][j := b]
      case Complete(i, n) => pool[i := UpdateRequest(lim, pool[i], n).0]
  }

  ghost function Run(lim: Limits, pool: seq<Rq>, ops: seq<Op>): seq<Rq>
    decreases |ops|
  {
    if ops == [] then pool else Run(lim, Next(lim, pool, ops[0]), ops[1..])
  }
}
