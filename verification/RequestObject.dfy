/**
struct request as block/blk-core.c and block/blk-merge.c update it in place, and the two loops
over its vectors: the segment counter and the scatterlist mapper.
*/
module RequestObject {
  import opened Segments
  import opened BlkRequest
  import opened BlkRequestProofs
  import opened BlkRequestData

  /** One entry of the scatterlist. */
  datatype Sg = Sg(page: nat, offset: nat, length: nat)

  // ---------------------------------------------------------------- the counting loop

  /** What the loops know after `done`: the open segment and its last vector. */
  ghost predicate Open(lim: Limits, done: seq<Bvec>, nr: nat, segSize: nat, prev: Bvec) {
    && nr == |Greedy(lim, done)|
    && (nr > 0 ==> done != [] && prev == Last(done) && segSize == Bytes(Last(Greedy(lim, done))))
  }

  ghost function FrontSoFar(lim: Limits, done: seq<Bvec>, front: nat): nat {
    var g := Greedy(lim, done);
    if |g| >= 2 then Max(front, Bytes(g[0])) else front
  }

  predicate Joins(lim: Limits, nr: nat, segSize: nat, prev: Bvec, b: Bvec) {
    nr > 0 && lim.cluster && segSize + b.len <= lim.maxSegmentSize && lim.contig(prev, b)
  }

  lemma GreedySnoc(lim: Limits, done: seq<Bvec>, b: Bvec)
    ensures Greedy(lim, done + [b]) == Extend(lim, Greedy(lim, done), b)
  {
    hide Extend;
    assert (done + [b])[..|done|] == done;
  }

  lemma GreedyStep(lim: Limits, done: seq<Bvec>, nr: nat, segSize: nat, prev: Bvec, b: Bvec)
    requires Open(lim, done, nr, segSize, prev)
    ensures Greedy(lim, done + [b]) == Extend(lim, Greedy(lim, done), b)
    ensures Joins(lim, nr, segSize, prev, b) <==> CanExtend(lim, Greedy(lim, done), b)
    ensures Joins(lim, nr, segSize, prev, b) ==> Open(lim, done + [b], nr, segSize + b.len, b)
    ensures !Joins(lim, nr, segSize, prev, b) ==> Open(lim, done + [b], nr + 1, b.len, b)
  {
    hide Grouping, Greedy, Bytes;
    GreedySnoc(lim, done, b);
    GreedyGrouping(lim, done);
    GroupingLast(lim, done, Greedy(lim, done));
    BytesOne(b);
    if Joins(lim, nr, segSize, prev, b) {
      BytesConcat(Last(Greedy(lim, done)), [b]);
    }
  }

  /** The body of the loop over vectors in __blk_recalc_rq_segments. */
  method CountVector(lim: Limits, b: Bvec, nr0: nat, size0: nat, prev: Bvec, front0: nat,
                     ghost done: seq<Bvec>, ghost front: nat)
    returns (nr: nat, size: nat, front1: nat)
    requires Open(lim, done, nr0, size0, prev) && front0 == FrontSoFar(lim, done, front)
    ensures Open(lim, done + [b], nr, size, b) && front1 == FrontSoFar(lim, done + [b], front)
  {
    GreedyStep(lim, done, nr0, size0, prev, b);
    hide Greedy, Bytes;
    if Joins(lim, nr0, size0, prev, b) {
      return nr0, size0 + b.len, front0;
    }
    front1 := front0;
    if nr0 == 1 && size0 > front0 {
      front1 := size0;
    }
    return nr0 + 1, b.len, front1;
  }

  /** __blk_recalc_rq_segments. */
  method RecalcSegments(lim: Limits, bios: seq<Bio>) returns (nr: nat, out: seq<Bio>)
    requires BiosOk(bios)
    ensures nr == SegCount(lim, bios)
    ensures out == Recalc(lim, bios)
  {
    hide Greedy, Bytes;
    EmptyCount(lim);
    if bios == [] {
      return 0, bios;
    }
    var size: nat, front: nat, prev := 0, bios[0].segFront, bios[0].bvecs[0];
    nr := 0;
    for i := 0 to |bios|
      invariant Open(lim, AllBvecs(bios[..i]), nr, size, prev)
      invariant front == FrontSoFar(lim, AllBvecs(bios[..i]), bios[0].segFront)
    {
      var bvecs := bios[i].bvecs;
      ghost var before := AllBvecs(bios[..i]);
      assert before + bvecs[..0] == before;
      for j := 0 to |bvecs|
        invariant Open(lim, before + bvecs[..j], nr, size, prev)
        invariant front == FrontSoFar(lim, before + bvecs[..j], bios[0].segFront)
      {
        nr, size, front := CountVector(lim, bvecs[j], nr, size, prev, front,
                                       before + bvecs[..j], bios[0].segFront);
        prev := bvecs[j];
        assert before + bvecs[..j + 1] == before + bvecs[..j] + [bvecs[j]];
      }
      assert bvecs[..|bvecs|] == bvecs && bios[..i + 1][..i] == bios[..i];
    }
    assert bios[..|bios|] == bios;
    if nr == 1 && size > front {
      front := size;
    }
    out := bios[0 := bios[0].(segFront := front)];
    if size > Last(out).segBack {
      out := out[|out| - 1 := Last(out).(segBack := size)];
    }
    assert out[|out| - 1 := Last(out)] == out;
    CountNotEmpty(lim, bios);
  }

  lemma EmptyCount(lim: Limits)
    ensures Greedy(lim, []) == [] && AllBvecs([]) == []
  {
  }

  lemma CountNotEmpty(lim: Limits, bios: seq<Bio>)
    requires BiosOk(bios) && bios != []
    ensures Greedy(lim, AllBvecs(bios)) != []
  {
    AllBvecsOk(bios);
  }

  // ---------------------------------------------------------------- the mapping loop

  ghost predicate Mapped(g: seq<seq<Bvec>>, sg: seq<Sg>) {
    && |sg| == |g|
    && (forall i :: 0 <= i < |g| ==>
          g[i] != [] && sg[i] == Sg(g[i][0].page, g[i][0].offset, Bytes(g[i])))
  }

  function OpenLength(sg: seq<Sg>): nat { if sg == [] then 0 else Last(sg).length }

  /** __blk_segment_map_sg. */
  method SegmentMapSg(lim: Limits, b: Bvec, sg0: seq<Sg>, prev: Bvec, ghost done: seq<Bvec>)
    returns (sg: seq<Sg>)
    requires Mapped(Greedy(lim, done), sg0) && Open(lim, done, |sg0|, OpenLength(sg0), prev)
    ensures Mapped(Greedy(lim, done + [b]), sg) && Open(lim, done + [b], |sg|, OpenLength(sg), b)
  {
    hide Greedy, Bytes;
    GreedyStep(lim, done, |sg0|, OpenLength(sg0), prev, b);
    BytesOne(b);
    if Joins(lim, |sg0|, OpenLength(sg0), prev, b) {
      var last := Last(sg0);
      sg := sg0[|sg0| - 1 := last.(length := last.length + b.len)];
    } else {
      sg := sg0 + [Sg(b.page, b.offset, b.len)];
    }
  }

  /**
  __blk_bios_map_sg for a data request: the entries are the greedy segments, so there are as many
  as the recount finds and, for a request of any run, no more than nr_phys_segments.
  */
  method MapSg(lim: Limits, bios: seq<Bio>) returns (sg: seq<Sg>)
    ensures Mapped(Greedy(lim, AllBvecs(bios)), sg)
    ensures |sg| == SegCount(lim, bios)
  {
    hide Greedy, Bytes, Mapped;
    sg := [];
    var prev := Bvec(0, 0, 0);
    EmptyMap(lim, prev);
    for i := 0 to |bios|
      invariant Mapped(Greedy(lim, AllBvecs(bios[..i])), sg)
      invariant Open(lim, AllBvecs(bios[..i]), |sg|, OpenLength(sg), prev)
    {
      var bvecs := bios[i].bvecs;
      ghost var before := AllBvecs(bios[..i]);
      assert before + bvecs[..0] == before;
      for j := 0 to |bvecs|
        invariant Mapped(Greedy(lim, before + bvecs[..j]), sg)
        invariant Open(lim, before + bvecs[..j], |sg|, OpenLength(sg), prev)
      {
        sg := SegmentMapSg(lim, bvecs[j], sg, prev, before + bvecs[..j]);
        prev := bvecs[j];
        assert before + bvecs[..j + 1] == before + bvecs[..j] + [bvecs[j]];
      }
      assert bvecs[..|bvecs|] == bvecs && bios[..i + 1][..i] == bios[..i];
    }
    assert bios[..|bios|] == bios;
  }

  lemma EmptyMap(lim: Limits, prev: Bvec)
    ensures Mapped(Greedy(lim, AllBvecs([])), []) && Open(lim, AllBvecs([]), 0, 0, prev)
  {
  }

  // ---------------------------------------------------------------- the request

  class Request {
    var bios: seq<Bio>
    var sector: nat
    var dataLen: int
    var nrPhys: nat
    var noMerge: bool
    var ended: nat          // bios given to bio_endio so far

    ghost function St(): Rq
      reads this
    {
      Rq(bios, sector, dataLen, nrPhys, noMerge)
    }

    /** blk_rq_bio_prep. */
    constructor (lim: Limits, bio: Bio)
      requires BioOk(lim, bio)
      ensures St() == NewRequest(lim, bio) && RqOk(lim, St()) && ended == 0
    {
      var b := Validated(lim, bio);
      bios, sector, dataLen, nrPhys, noMerge, ended := [b], b.sector, Bytes(b.bvecs), b.physSegs, false, 0;
      NewRequestKeeps(lim, bio);
    }

    /** bio_attempt_back_merge. */
    method BackMerge(lim: Limits, bio: Bio) returns (b: Bio, merged: bool)
      requires RqOk(lim, St()) && bios != [] && BioOk(lim, bio)
      requires sector + RqSectors(St()) == bio.sector
      modifies this
      ensures (St(), b, merged) == BlkRequest.BackMerge(lim, old(St()), bio)
      ensures RqOk(lim, St()) && ended == old(ended)
      ensures AllBvecs(bios) == old(AllBvecs(bios)) + (if merged then bio.bvecs else []) && sector == old(sector)
    {
      hide Fits, Shape, SegBound, Validated, AllBvecs, Greedy, GapBetween;
      BackMergeKeeps(lim, St(), bio);
      BackMergeData(lim, St(), bio);
      b := bio;
      if Gap(lim, Last(bios), bio) {
        return b, false;
      }
      if dataLen / SECTOR + BioSectors(bio) > lim.maxSectors(sector) {
        noMerge := true;
        return b, false;
      }
      bios := bios[|bios| - 1 := Validated(lim, Last(bios))];
      b := Validated(lim, bio);
      if nrPhys + b.physSegs > lim.maxSegments {
        noMerge := true;
        return b, false;
      }
      nrPhys := nrPhys + b.physSegs;
      bios := bios + [b];
      dataLen := dataLen + Bytes(bio.bvecs);
      merged := true;
    }

    /** bio_attempt_front_merge. */
    method FrontMerge(lim: Limits, bio: Bio) returns (b: Bio, merged: bool)
      requires RqOk(lim, St()) && bios != [] && BioOk(lim, bio)
      requires bio.sector + BioSectors(bio) == sector
      modifies this
      ensures (St(), b, merged) == BlkRequest.FrontMerge(lim, old(St()), bio)
      ensures RqOk(lim, St()) && ended == old(ended)
      ensures AllBvecs(bios) == (if merged then bio.bvecs else []) + old(AllBvecs(bios))
      ensures sector == if merged then bio.sector else old(sector)
    {
      hide Fits, Shape, SegBound, Validated, AllBvecs, Greedy, GapBetween;
      FrontMergeKeeps(lim, St(), bio);
      FrontMergeData(lim, St(), bio);
      b := bio;
      if Gap(lim, bio, bios[0]) {
        return b, false;
      }
      if dataLen / SECTOR + BioSectors(bio) > lim.maxSectors(sector) {
        noMerge := true;
        return b, false;
      }
      b := Validated(lim, bio);
      bios := bios[0 := Validated(lim, bios[0])];
      if nrPhys + b.physSegs > lim.maxSegments {
        noMerge := true;
        return b, false;
      }
      nrPhys := nrPhys + b.physSegs;
      bios := [b] + bios;
      sector := bio.sector;
      dataLen := dataLen + Bytes(bio.bvecs);
      merged := true;
    }

    /** attempt_merge: `next` gives its bios to this request, or neither moves. */
    method AttemptMerge(lim: Limits, next: Request, compatible: bool) returns (merged: bool)
      requires next != this && RqOk(lim, St()) && RqOk(lim, next.St())
      requires bios != [] && next.bios != []
      modifies this, next
      ensures (St(), next.St(), merged)
           == BlkRequest.AttemptMerge(lim, old(St()), old(next.St()), compatible)
      ensures RqOk(lim, St()) && RqOk(lim, next.St())
      ensures ended == old(ended) && next.ended == old(next.ended)
      ensures AllBvecs(bios) == old(AllBvecs(bios)) + (if merged then old(AllBvecs(next.bios)) else [])
      ensures AllBvecs(next.bios) == if merged then [] else old(AllBvecs(next.bios))
    {
      hide Fits, Shape, SegBound, ContigSegment, Gap, AllBvecs, GapBetween, JoinsUp;
      AttemptMergeKeeps(lim, St(), next.St(), compatible);
      AttemptMergeData(lim, St(), next.St(), compatible);
      if noMerge || next.noMerge || !compatible || sector + dataLen / SECTOR != next.sector {
        return false;
      }
      if Gap(lim, Last(bios), next.bios[0]) {
        return false;
      }
      var more := next.dataLen / SECTOR;
      if dataLen / SECTOR + (if more < 0 then 0 else more) > lim.maxSectors(sector) {
        return false;
      }
      var size := Last(bios).segBack + next.bios[0].segFront;
      var total := nrPhys + next.nrPhys;
      if ContigSegment(lim, Last(bios), next.bios[0]) {
        if nrPhys == 1 {
          bios := bios[0 := bios[0].(segFront := size)];
        }
        if next.nrPhys == 1 {
          next.bios := next.bios[|next.bios| - 1 := Last(next.bios).(segBack := size)];
        }
        total := total - 1;
      }
      if total > lim.maxSegments || total < 0 {
        return false;
      }
      nrPhys := total;
      bios := bios + next.bios;
      dataLen := dataLen + next.dataLen;
      next.bios, next.dataLen := [], 0;
      return true;
    }

    /** The loop of blk_update_request: end the bios that `n` bytes complete, cut the next one. */
    method EndBytes(n: nat) returns (total: nat)
      requires BiosOk(bios)
      modifies `bios, `ended
      ensures bios == Remaining(old(bios), n)
      ensures bios != [] ==> total == n
      ensures ended - old(ended) == |old(bios)| - |bios|
    {
      hide Bytes, BvecsOk;
      var left: nat := n;
      total := 0;
      while bios != []
        invariant BiosOk(bios) && total + left == n && (left == n || left > 0)
        invariant Remaining(bios, left) == Remaining(old(bios), n)
        invariant ended - old(ended) == |old(bios)| - |bios|
        decreases |bios|
      {
        var bio := bios[0];
        var size := Bytes(bio.bvecs);
        BytesWhole(bio.bvecs);
        var bytes := if size < left then size else left;
        if bytes == size {
          bios := bios[1..];
          ended := ended + 1;
        } else {
          AdvanceNothing(bio);
          bios := [AdvanceBio(bio, bytes)] + bios[1..];
        }
        total := total + bytes;
        left := left - bytes;
        if left == 0 {
          return;
        }
      }
    }

    /** blk_update_request. */
    method UpdateRequest(lim: Limits, n: nat) returns (more: bool)
      requires RqOk(lim, St()) && n % SECTOR == 0
      modifies this
      ensures (St(), more) == BlkRequest.UpdateRequest(lim, old(St()), n)
      ensures RqOk(lim, St())
      ensures ended - old(ended) == |old(bios)| - |bios|
    {
      hide Fits, SegBound, Bytes, Adjacent, SegCount, Remaining, Recalc;
      UpdateRequestKeeps(lim, St(), n);
      if bios == [] {
        return false;
      }
      RemainingSpec(bios, n);
      var total := EndBytes(n);
      if bios == [] {
        dataLen := 0;
        return false;
      }
      dataLen := dataLen - total;
      sector := sector + total / SECTOR;
      var cur := if bios[0].bvecs == [] then 0 else bios[0].bvecs[0].len;
      if dataLen < cur {
        dataLen := cur;
      }
      RecalcLength(lim, bios);
      nrPhys, bios := RecalcSegments(lim, bios);
      return true;
    }
  }

  lemma RecalcLength(lim: Limits, bios: seq<Bio>)
    ensures |Recalc(lim, bios)| == |bios|
  {
  }

  lemma AdvanceNothing(b: Bio)
    ensures AdvanceBio(b, 0) == b
  {
  }
}
