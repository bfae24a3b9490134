/**
Cutting a bio to the limits of its queue (block/blk-merge.c: get_max_io_size and
blk_bio_segment_split; block/bio.c: bio_split).
*/
module BioSplit {
  import opened Arithmetic
  import opened Segments
  import opened BlkRequest
  import opened BlkRequestProofs

  const BIO_MAX_PAGES: nat := 256

  /** The limits that splitting looks at, in sectors. Sizes that the kernel masks are powers of two. */
  datatype Queue = Queue(
    lim: Limits,
    chunk: nat,             // chunk_sectors
    max: nat,               // max_sectors
    block: nat)             // logical_block_size

  /** Every queue has a block size and room for a segment, and a gap depends on the next offset only. */
  ghost predicate QueueOk(q: Queue) {
    && q.block >= 1 && q.lim.maxSegments >= 1
    && forall a: Bvec, b: Bvec, c: Bvec :: b.offset == c.offset ==> q.lim.gap(a, b) == q.lim.gap(a, c)
  }

  /** blk_max_size_offset. */
  function MaxSizeOffset(q: Queue, sector: nat): nat {
    if q.chunk == 0 then q.max else q.chunk - sector % q.chunk
  }

  /** get_max_io_size. */
  function MaxIo(q: Queue, sector: nat): nat
    requires q.block >= 1
  {
    MaxSizeOffset(q, sector) - MaxSizeOffset(q, sector) % q.block
  }

  /** The limit is the greatest number of whole blocks up to the end of the chunk, or up to max_sectors where there are
      no chunks. */
  lemma MaxIoExactly(q: Queue, sector: nat)
    requires q.block >= 1
    ensures var room := if q.chunk > 0 then q.chunk - sector % q.chunk else q.max;
      MaxIo(q, sector) % q.block == 0 && MaxIo(q, sector) <= room < MaxIo(q, sector) + q.block
  {
    var room := MaxSizeOffset(q, sector);
    DivMod(room, q.block);
    DivUnique(room - room % q.block, q.block, room / q.block, 0);
  }

  /** The limit keeps a piece inside its chunk and is a whole number of blocks. */
  lemma MaxIoInChunk(q: Queue, sector: nat)
    requires q.block >= 1
    ensures MaxIo(q, sector) % q.block == 0
    ensures q.chunk > 0 ==> sector % q.chunk + MaxIo(q, sector) <= q.chunk
    ensures q.chunk == 0 ==> MaxIo(q, sector) <= q.max
    ensures MaxIo(q, sector) == 0 <==> MaxSizeOffset(q, sector) < q.block
  {
    var (m, b) := (MaxSizeOffset(q, sector), q.block);
    RoundDown(m, b);
  }

  lemma RoundDown(m: nat, b: nat)
    requires b >= 1
    ensures (m - m % b) % b == 0 && (m - m % b == 0 <==> m < b)
  {
    DivMod(m, b);
    DivUnique(m - m % b, b, m / b, 0);
    if m / b > 0 { MulStep(b, 0, m / b); }
  }

  /** With chunk_sectors set, max_sectors is not looked at: it is respected at every sector exactly
      when there are no chunks, or a whole chunk, in whole blocks, is no bigger than max_sectors. */
  lemma ChunkOverridesMax(q: Queue)
    requires q.block >= 1
    ensures (forall sector: nat :: MaxIo(q, sector) <= q.max) <==>
            (q.chunk == 0 || q.chunk - q.chunk % q.block <= q.max)
  {
    if q.chunk > 0 {
      assert MaxIo(q, 0) == q.chunk - q.chunk % q.block;
      forall sector: nat ensures MaxIo(q, sector) <= q.chunk - q.chunk % q.block {
        RoundDownMono(q.chunk - sector % q.chunk, q.chunk, q.block);
      }
    }
  }

  lemma RoundDownMono(a: nat, c: nat, b: nat)
    requires a <= c && b >= 1
    ensures a - a % b <= c - c % b
  {
    DivMod(a, b);
    DivMod(c, b);
    if a / b > c / b { MulStep(b, c / b, a / b); }
    if a / b < c / b { MulStep(b, a / b, c / b); }
  }

  /** The first `n` bytes. */
  function TakeBytes(bs: seq<Bvec>, n: nat): seq<Bvec> {
    if bs == [] || n == 0 then []
    else if bs[0].len <= n then [bs[0]] + TakeBytes(bs[1..], n - bs[0].len)
    else [bs[0].(len := n)]
  }

  // ---------------------------------------------------------------- what a piece may be

  predicate NoGaps(lim: Limits, bs: seq<Bvec>) {
    forall i :: 0 < i < |bs| ==> !lim.gap(bs[i - 1], bs[i])
  }

  /** Exactly `n`, or at most `n`, segments can hold `bs`. */
  ghost predicate Groups(lim: Limits, bs: seq<Bvec>, n: nat) {
    exists p :: Grouping(lim, bs, p) && |p| == n
  }

  ghost predicate Groupable(lim: Limits, bs: seq<Bvec>, n: nat) {
    exists p :: Grouping(lim, bs, p) && |p| <= n
  }

  /** `bs` respects every limit: vectors, gaps, segments and sectors. */
  ghost predicate Legal(q: Queue, maxIo: nat, bs: seq<Bvec>) {
    && |bs| <= BIO_MAX_PAGES
    && NoGaps(q.lim, bs)
    && Groupable(q.lim, bs, q.lim.maxSegments)
    && Bytes(bs) <= maxIo * SECTOR
  }

  lemma {:induction false} GreedyMonotone(lim: Limits, bs: seq<Bvec>, k: nat)
    requires k <= |bs|
    ensures |Greedy(lim, bs[..k])| <= |Greedy(lim, bs)|
    decreases |bs|
  {
    if k == |bs| {
      assert bs[..k] == bs;
    } else {
      var init := bs[..|bs| - 1];
      GreedyMonotone(lim, init, k);
      assert init[..k] == bs[..k];
    }
  }

  lemma GreedyGroups(lim: Limits, bs: seq<Bvec>, n: nat)
    ensures Groups(lim, bs, |Greedy(lim, bs)|)
    ensures Groupable(lim, bs, n) <==> |Greedy(lim, bs)| <= n
  {
    hide Greedy, Grouping;
    GreedyGrouping(lim, bs);
    if Groupable(lim, bs, n) {
      var p :| Grouping(lim, bs, p) && |p| <= n;
      GreedyOptimal(lim, bs, p);
    }
  }

  lemma BytesPrefix(bs: seq<Bvec>, k: nat)
    requires k <= |bs|
    ensures Bytes(bs) == Bytes(bs[..k]) + Bytes(bs[k..])
  {
    hide Bytes;
    assert bs == bs[..k] + bs[k..];
    BytesConcat(bs[..k], bs[k..]);
  }

  lemma LegalPrefix(q: Queue, maxIo: nat, bs: seq<Bvec>, k: nat)
    requires k <= |bs| && Legal(q, maxIo, bs)
    ensures Legal(q, maxIo, bs[..k])
  {
    hide Greedy, Groupable, Bytes;
    GreedyGroups(q.lim, bs, q.lim.maxSegments);
    GreedyGroups(q.lim, bs[..k], q.lim.maxSegments);
    GreedyMonotone(q.lim, bs, k);
    BytesPrefix(bs, k);
  }

  // ---------------------------------------------------------------- taking bytes

  lemma {:induction false} TakeWhole(bs: seq<Bvec>, k: nat)
    requires k <= |bs| && BvecsOk(bs)
    ensures TakeBytes(bs, Bytes(bs[..k])) == bs[..k]
    ensures DropBytes(bs, Bytes(bs[..k])) == bs[k..]
  {
    if k > 0 {
      var rest := bs[1..];
      BytesFirst(bs[..k]);
      assert bs[..k][1..] == rest[..k - 1];
      TakeWhole(rest, k - 1);
      assert rest[k - 1..] == bs[k..];
    }
  }

  /** Cutting inside vector `k`. */
  lemma {:induction false} TakeInside(bs: seq<Bvec>, k: nat, m: nat)
    requires k < |bs| && BvecsOk(bs) && 0 < m < bs[k].len
    ensures TakeBytes(bs, Bytes(bs[..k]) + m) == bs[..k] + [bs[k].(len := m)]
  {
    if k > 0 {
      var rest := bs[1..];
      BytesFirst(bs[..k]);
      assert bs[..k][1..] == rest[..k - 1];
      TakeInside(rest, k - 1, m);
      assert bs[..k] == [bs[0]] + rest[..k - 1];
    }
  }

  lemma SectorsSum(bs: seq<Bvec>, k: nat)
    requires BvecsOk(bs) && k < |bs|
    ensures Bytes(bs[..k + 1]) == Bytes(bs[..k]) + bs[k].len
    ensures Bytes(bs[..k]) % SECTOR == 0 && Bytes(bs[..k]) / SECTOR * SECTOR == Bytes(bs[..k])
    ensures bs[k].len / SECTOR * SECTOR == bs[k].len && bs[k].len / SECTOR > 0
    ensures Bytes(bs[..k + 1]) / SECTOR == Bytes(bs[..k]) / SECTOR + bs[k].len / SECTOR
    ensures Bytes(bs[..k + 1]) <= Bytes(bs)
  {
    assert bs[..k + 1][..k] == bs[..k];
    BytesWhole(bs[..k]);
    BytesPrefix(bs, k + 1);
  }

  // ---------------------------------------------------------------- blk_bio_segment_split

  /** What the split of `bio` promises: `sectors` stay in front, as `nsegs` segments. */
  ghost predicate Cut(q: Queue, bio: Bio, sectors: nat, split: bool, nsegs: nat)
    requires q.block >= 1
  {
    var maxIo := MaxIo(q, bio.sector);
    var piece := TakeBytes(bio.bvecs, sectors * SECTOR);
    && (if split then 0 < sectors < BioSectors(bio) else sectors == BioSectors(bio))
    && nsegs <= q.lim.maxSegments && Groups(q.lim, piece, nsegs)
    && (maxIo > 0 ==> Legal(q, maxIo, piece) && (split <==> !Legal(q, maxIo, bio.bvecs)))
    && (maxIo == 0 ==> |piece| <= 1 && piece <= bio.bvecs && (split <==> |bio.bvecs| > 1))
  }

  /** The loop has passed `i` vectors. */
  ghost predicate Scanned(q: Queue, maxIo: nat, bs: seq<Bvec>, i: nat, sectors: nat, nsegs: nat,
                          segSize: nat, front: nat)
  {
    && i <= |bs| && i <= BIO_MAX_PAGES
    && NoGaps(q.lim, bs[..i])
    && sectors * SECTOR == Bytes(bs[..i])
    && (maxIo > 0 ==> sectors <= maxIo) && (maxIo == 0 ==> i <= 1)
    && var g := Greedy(q.lim, bs[..i]);
       && nsegs == |g| <= q.lim.maxSegments
       && (i > 0 ==> g != [] && Bytes(Last(g)) == segSize && Bytes(g[0]) <= front)
  }

  lemma ScannedFits(q: Queue, maxIo: nat, bs: seq<Bvec>, i: nat, sectors: nat, nsegs: nat,
                    segSize: nat, front: nat, back: nat)
    requires Scanned(q, maxIo, bs, i, sectors, nsegs, segSize, front) && segSize <= back
    ensures Groups(q.lim, bs[..i], nsegs) && Groupable(q.lim, bs[..i], q.lim.maxSegments)
    ensures i > 0 ==> Fits(q.lim, bs[..i], nsegs, front, back)
    ensures maxIo > 0 ==> Legal(q, maxIo, bs[..i])
  {
    hide Greedy;
    GreedyGroups(q.lim, bs[..i], q.lim.maxSegments);
    GreedyGrouping(q.lim, bs[..i]);
    if i > 0 {
      assert Bounds(Greedy(q.lim, bs[..i]), nsegs, front, back);
    }
  }

  /** One more vector in the greedy grouping. */
  lemma GreedyNext(lim: Limits, bs: seq<Bvec>, i: nat)
    requires i < |bs|
    ensures Greedy(lim, bs[..i + 1]) == Extend(lim, Greedy(lim, bs[..i]), bs[i])
    ensures Greedy(lim, bs[..i]) != [] <==> i > 0
    ensures i > 0 ==> Last(Greedy(lim, bs[..i])) != [] && Last(Last(Greedy(lim, bs[..i]))) == bs[i - 1]
  {
    assert bs[..i + 1][..i] == bs[..i];
    GreedyGrouping(lim, bs[..i]);
    GroupingLast(lim, bs[..i], Greedy(lim, bs[..i]));
  }

  lemma ExtendSizes(lim: Limits, g: seq<seq<Bvec>>, b: Bvec)
    ensures Extend(lim, g, b) != []
    ensures var g' := Extend(lim, g, b);
      if CanExtend(lim, g, b)
      then |g'| == |g| && Bytes(Last(g')) == Bytes(Last(g)) + b.len
           && Bytes(g'[0]) == (if |g| == 1 then Bytes(Last(g')) else Bytes(g[0]))
      else |g'| == |g| + 1 && Bytes(Last(g')) == b.len
           && Bytes(g'[0]) == (if g == [] then b.len else Bytes(g[0]))
  {
    BytesOne(b);
    if CanExtend(lim, g, b) { BytesConcat(Last(g), [b]); }
  }

  /** The loop goes on past vector `i`. */
  lemma ScannedNext(q: Queue, maxIo: nat, bs: seq<Bvec>, i: nat, sectors: nat, nsegs: nat,
                    segSize: nat, front: nat, nsegs': nat, segSize': nat, front': nat)
    requires BvecsOk(bs) && Scanned(q, maxIo, bs, i, sectors, nsegs, segSize, front)
    requires i < |bs| && i < BIO_MAX_PAGES && (i > 0 ==> !q.lim.gap(bs[i - 1], bs[i]))
    requires sectors + bs[i].len / SECTOR <= maxIo || (maxIo == 0 && i == 0)
    requires var grow := i > 0 && q.lim.cluster && segSize + bs[i].len <= q.lim.maxSegmentSize
                         && q.lim.contig(bs[i - 1], bs[i]);
      && nsegs' == (if grow then nsegs else nsegs + 1) <= q.lim.maxSegments
      && segSize' == (if grow then segSize + bs[i].len else bs[i].len)
      && front' >= front && (nsegs' == 1 ==> segSize' <= front')
    ensures Scanned(q, maxIo, bs, i + 1, sectors + bs[i].len / SECTOR, nsegs', segSize', front')
  {
    hide Greedy, Extend, Bytes;
    SectorsSum(bs, i);
    GreedyNext(q.lim, bs, i);
    var g := Greedy(q.lim, bs[..i]);
    ExtendSizes(q.lim, g, bs[i]);
    var pre := bs[..i + 1];
    forall j | 0 < j < |pre| ensures !q.lim.gap(pre[j - 1], pre[j]) {
      if j < i { assert !q.lim.gap(bs[..i][j - 1], bs[..i][j]); }
    }
  }

  /** The loop stops in front of vector `i`, which cannot follow. */
  lemma StopWhole(q: Queue, bio: Bio, i: nat, sectors: nat, nsegs: nat, segSize: nat, front: nat)
    requires QueueOk(q) && BvecsOk(bio.bvecs)
    requires Scanned(q, MaxIo(q, bio.sector), bio.bvecs, i, sectors, nsegs, segSize, front)
    requires 0 < i < |bio.bvecs| && !Legal(q, MaxIo(q, bio.sector), bio.bvecs[..i + 1])
    ensures Cut(q, bio, sectors, true, nsegs)
  {
    hide Greedy, Bytes, Legal, MaxIo, TakeBytes, Groups;
    var (bs, maxIo) := (bio.bvecs, MaxIo(q, bio.sector));
    TakeWhole(bs, i);
    ScannedFits(q, maxIo, bs, i, sectors, nsegs, segSize, front, segSize);
    SectorsSum(bs, i);
    BytesWhole(bs[..i]);
    BytesWhole(bs);
    if Legal(q, maxIo, bs) { LegalPrefix(q, maxIo, bs, i + 1); }
  }

  /** The loop cuts vector `i` at the size limit. */
  lemma StopInside(q: Queue, bio: Bio, i: nat, sectors: nat, nsegs: nat, segSize: nat, front: nat)
    requires QueueOk(q) && BvecsOk(bio.bvecs)
    requires Scanned(q, MaxIo(q, bio.sector), bio.bvecs, i, sectors, nsegs, segSize, front)
    requires i < |bio.bvecs| && i < BIO_MAX_PAGES && (i > 0 ==> !q.lim.gap(bio.bvecs[i - 1], bio.bvecs[i]))
    requires nsegs < q.lim.maxSegments
    requires sectors < MaxIo(q, bio.sector) < sectors + bio.bvecs[i].len / SECTOR
    ensures Cut(q, bio, MaxIo(q, bio.sector), true, nsegs + 1)
  {
    hide Greedy, Bytes, MaxIo, TakeBytes;
    var (bs, maxIo) := (bio.bvecs, MaxIo(q, bio.sector));
    var m := (maxIo - sectors) * SECTOR;
    SectorsSum(bs, i);
    TakeInside(bs, i, m);
    var cut := bs[i].(len := m);
    var piece := bs[..i] + [cut];
    assert TakeBytes(bs, maxIo * SECTOR) == piece;
    PieceGroups(q.lim, bs[..i], cut);
    PieceGaps(q, bs, i, cut);
    BytesConcat(bs[..i], [cut]);
    BytesOne(cut);
    assert Groupable(q.lim, piece, q.lim.maxSegments);
    BytesWhole(bs);
  }

  lemma PieceGroups(lim: Limits, bs: seq<Bvec>, b: Bvec)
    ensures Groups(lim, bs + [b], |Greedy(lim, bs)| + 1)
  {
    GreedyGrouping(lim, bs);
    FlattenOne([b]);
    assert Segment(lim, [b]);
    assert Grouping(lim, [b], [[b]]);
    GroupingConcat(lim, bs, Greedy(lim, bs), [b], [[b]]);
  }

  lemma PieceGaps(q: Queue, bs: seq<Bvec>, i: nat, cut: Bvec)
    requires QueueOk(q) && i < |bs| && NoGaps(q.lim, bs[..i]) && cut.offset == bs[i].offset
    requires i > 0 ==> !q.lim.gap(bs[i - 1], bs[i])
    ensures NoGaps(q.lim, bs[..i] + [cut])
  {
    var piece := bs[..i] + [cut];
    forall j | 0 < j < |piece| ensures !q.lim.gap(piece[j - 1], piece[j]) {
      if j < i {
        assert !q.lim.gap(bs[..i][j - 1], bs[..i][j]);
      } else {
        assert q.lim.gap(bs[i - 1], cut) == q.lim.gap(bs[i - 1], bs[i]);
      }
    }
  }

  /** Every vector has been passed. */
  lemma NoStop(q: Queue, bio: Bio, sectors: nat, nsegs: nat, segSize: nat, front: nat)
    requires QueueOk(q) && BvecsOk(bio.bvecs)
    requires Scanned(q, MaxIo(q, bio.sector), bio.bvecs, |bio.bvecs|, sectors, nsegs, segSize, front)
    ensures Cut(q, bio, sectors, false, nsegs)
  {
    hide Greedy, Bytes, Legal, MaxIo, TakeBytes, Groups;
    var bs := bio.bvecs;
    assert bs[..|bs|] == bs;
    TakeWhole(bs, |bs|);
    ScannedFits(q, MaxIo(q, bio.sector), bs, |bs|, sectors, nsegs, segSize, front, segSize);
  }

  /** A vector that would start one segment too many. */
  lemma TooManySegments(q: Queue, maxIo: nat, bs: seq<Bvec>, i: nat, sectors: nat, nsegs: nat,
                        segSize: nat, front: nat)
    requires Scanned(q, maxIo, bs, i, sectors, nsegs, segSize, front)
    requires i < |bs| && nsegs == q.lim.maxSegments
    requires !(i > 0 && q.lim.cluster && segSize + bs[i].len <= q.lim.maxSegmentSize
               && q.lim.contig(bs[i - 1], bs[i]))
    ensures !Legal(q, maxIo, bs[..i + 1])
  {
    hide Bytes;
    GreedyNext(q.lim, bs, i);
    ExtendSizes(q.lim, Greedy(q.lim, bs[..i]), bs[i]);
    GreedyGroups(q.lim, bs[..i + 1], q.lim.maxSegments);
  }

  /** A vector that would exceed the vector count, leave a gap or exceed the size limit. */
  lemma CannotFollow(q: Queue, maxIo: nat, bs: seq<Bvec>, i: nat, sectors: nat)
    requires BvecsOk(bs) && i < |bs| && sectors * SECTOR == Bytes(bs[..i])
    requires
      || i >= BIO_MAX_PAGES
      || (i > 0 && q.lim.gap(bs[i - 1], bs[i]))
      || sectors + bs[i].len / SECTOR > maxIo
    ensures !Legal(q, maxIo, bs[..i + 1])
  {
    SectorsSum(bs, i);
    var pre := bs[..i + 1];
    if i > 0 { assert pre[i - 1] == bs[i - 1] && pre[i] == bs[i]; }
  }

  /** blk_bio_segment_split. `k` is the number of whole vectors in the piece. */
  method SegmentSplit(q: Queue, bio: Bio)
    returns (sectors: nat, split: bool, nsegs: nat, front: nat, back: nat, ghost k: nat)
    requires QueueOk(q) && BvecsOk(bio.bvecs)
    ensures Cut(q, bio, sectors, split, nsegs) && k <= |bio.bvecs| && (!split ==> k == |bio.bvecs|)
    ensures sectors * SECTOR == Bytes(bio.bvecs[..k]) && k > 0 ==> Fits(q.lim, bio.bvecs[..k], nsegs, front, back)
    ensures split && sectors * SECTOR != Bytes(bio.bvecs[..k]) ==> sectors == MaxIo(q, bio.sector)
    ensures split && sectors * SECTOR == Bytes(bio.bvecs[..k]) ==>
      k < |bio.bvecs| && !Legal(q, MaxIo(q, bio.sector), bio.bvecs[..k + 1])
  {
    hide Cut, Legal, MaxIo, Scanned, Fits, Bytes, Greedy;
    var bs, maxIo := bio.bvecs, MaxIo(q, bio.sector);
    var segSize: nat := 0;
    var i: nat := 0;
    sectors, nsegs, front, back, k, split := 0, 0, bio.segFront, 0, 0, true;
    StartScan(q, maxIo, bs, front);
    while i < |bs|
      invariant i <= |bs| && k == i && (i > 0 <==> sectors > 0) && split
      invariant Scanned(q, maxIo, bs, i, sectors, nsegs, segSize, front)
    {
      ScannedFacts(q, maxIo, bs, i, sectors, nsegs, segSize, front);
      var bv := bs[i];
      if i >= BIO_MAX_PAGES || (i > 0 && q.lim.gap(bs[i - 1], bv)) {
        CannotFollow(q, maxIo, bs, i, sectors);
        StopWhole(q, bio, i, sectors, nsegs, segSize, front);
        ScannedFits(q, maxIo, bs, i, sectors, nsegs, segSize, front, segSize);
        back := segSize;
        return;
      }
      if sectors + bv.len / SECTOR > maxIo {
        CannotFollow(q, maxIo, bs, i, sectors);
        if nsegs < q.lim.maxSegments && sectors < maxIo {
          StopInside(q, bio, i, sectors, nsegs, segSize, front);
          nsegs, sectors, back := nsegs + 1, maxIo, segSize;
          return;
        }
        if sectors > 0 {
          StopWhole(q, bio, i, sectors, nsegs, segSize, front);
          ScannedFits(q, maxIo, bs, i, sectors, nsegs, segSize, front, segSize);
          back := segSize;
          return;
        }
      }
      ghost var old_nsegs, old_size, old_front := nsegs, segSize, front;
      if i > 0 && q.lim.cluster && segSize + bv.len <= q.lim.maxSegmentSize && q.lim.contig(bs[i - 1], bv) {
        segSize := segSize + bv.len;
      } else {
        if nsegs == q.lim.maxSegments {
          TooManySegments(q, maxIo, bs, i, sectors, nsegs, segSize, front);
          StopWhole(q, bio, i, sectors, nsegs, segSize, front);
          ScannedFits(q, maxIo, bs, i, sectors, nsegs, segSize, front, segSize);
          back := segSize;
          return;
        }
        nsegs, segSize := nsegs + 1, bv.len;
      }
      if nsegs == 1 && segSize > front { front := segSize; }
      ScannedNext(q, maxIo, bs, i, sectors, old_nsegs, old_size, old_front, nsegs, segSize, front);
      sectors, i, k := sectors + bv.len / SECTOR, i + 1, i + 1;
    }
    NoStop(q, bio, sectors, nsegs, segSize, front);
    split, back := false, Max(bio.segBack, segSize);
    ScannedFits(q, maxIo, bs, i, sectors, nsegs, segSize, front, back);
  }

  lemma StartScan(q: Queue, maxIo: nat, bs: seq<Bvec>, front: nat)
    ensures Scanned(q, maxIo, bs, 0, 0, 0, 0, front)
  {
  }

  lemma ScannedFacts(q: Queue, maxIo: nat, bs: seq<Bvec>, i: nat, sectors: nat, nsegs: nat,
                     segSize: nat, front: nat)
    requires BvecsOk(bs) && i < |bs| && Scanned(q, maxIo, bs, i, sectors, nsegs, segSize, front)
    ensures sectors * SECTOR == Bytes(bs[..i]) && bs[i].len / SECTOR > 0 && bs[i].len % SECTOR == 0
    ensures nsegs <= q.lim.maxSegments && (maxIo > 0 ==> sectors <= maxIo) && (i == 0 ==> nsegs == 0)
    ensures maxIo == 0 ==> i <= 1
  {
    SectorsSum(bs, i);
  }

  /** A queue with chunks of sixteen sectors and max_sectors of eight: a bio of two pages is not cut. */
  lemma ChunkExceedsMax(lim: Limits, bio: Bio, sectors: nat, split: bool, nsegs: nat)
    requires bio.sector == 0 && bio.bvecs == [Bvec(0, 0, 8 * SECTOR), Bvec(1, 0, 8 * SECTOR)]
    requires lim.maxSegments >= 2 && !lim.gap(bio.bvecs[0], bio.bvecs[1])
    requires Cut(Queue(lim, 16, 8, 1), bio, sectors, split, nsegs)
    ensures !split && sectors == 16
  {
    var (b, c) := (Bvec(0, 0, 8 * SECTOR), Bvec(1, 0, 8 * SECTOR));
    assert bio.bvecs == [b] + [c];
    BytesOne(b);
    BytesOne(c);
    BytesConcat([b], [c]);
    TwoSegments(lim, b, c);
  }

  lemma TwoSegments(lim: Limits, b: Bvec, c: Bvec)
    requires lim.maxSegments >= 2
    ensures Groupable(lim, [b, c], lim.maxSegments)
  {
    var p := [[b], [c]];
    FlattenOne([b]);
    assert p[..1] == [[b]];
    assert Flatten(p) == [b, c];
    assert Grouping(lim, [b, c], p);
  }
}
