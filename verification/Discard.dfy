/**
Cutting a discard into bios (block/blk-lib.c: blkdev_issue_discard) and a discard bio into pieces for
its queue (block/blk-merge.c: blk_bio_discard_split). All numbers are sectors.
*/
module Discard {
  import opened Arithmetic

  /** UINT_MAX >> 9: the largest number of sectors whose bytes fit 32 bits. */
  const MAX_SECTORS: nat := 0x7F_FFFF

  type Granularity = n: int | 1 <= n <= MAX_SECTORS witness 1

  /** max(discard_granularity >> 9, 1), for a granularity of `bytes`. */
  function GranularityOf(bytes: nat): (g: Granularity)
    requires bytes <= 0xFFFF_FFFF
    ensures bytes >= 512 ==> g * 512 <= bytes < (g + 1) * 512
  {
    if bytes / 512 < 1 then 1 else bytes / 512
  }

  datatype Chunk = Chunk(sector: nat, sectors: nat)

  function End(c: Chunk): nat { c.sector + c.sectors }

  // ---------------------------------------------------------------- arithmetic

  /** `n` rounded down to whole granules. */
  function Floor(n: nat, g: Granularity): nat { n / g * g }

  lemma FloorSpec(n: nat, g: Granularity)
    ensures Floor(n, g) <= n < Floor(n, g) + g && n % g == n - Floor(n, g)
  {
    DivMod(n, g);
  }

  lemma FloorAligned(n: nat, g: Granularity, alignment: nat)
    requires alignment < g
    ensures (Floor(n, g) + alignment) % g == alignment
  {
    DivUnique(Floor(n, g) + alignment, g, n / g, alignment);
  }

  lemma FloorGap(a: nat, b: nat, g: Granularity)
    requires Floor(a, g) < Floor(b, g)
    ensures Floor(a, g) + g <= Floor(b, g)
  {
    var (p, q) := (a / g, b / g);
    if p < q { MulStep(g, p, q); }
    if q < p { MulStep(g, q, p); }
  }

  /** The greatest aligned sector that is not behind `end`. */
  function AlignedBelow(end: nat, g: Granularity, alignment: nat): nat
    requires alignment < g && alignment <= end
  {
    Floor(end - alignment, g) + alignment
  }

  lemma AlignedBelowSpec(end: nat, g: Granularity, alignment: nat)
    requires alignment < g && alignment <= end
    ensures AlignedBelow(end, g, alignment) % g == alignment
    ensures AlignedBelow(end, g, alignment) <= end < AlignedBelow(end, g, alignment) + g
  {
    hide Floor;
    FloorSpec(end - alignment, g);
    FloorAligned(end - alignment, g, alignment);
  }

  /** Two aligned sectors less than a granule apart are one. */
  lemma AlignedUnique(a: nat, b: nat, g: Granularity)
    requires a % g == b % g && a <= b < a + g
    ensures a == b
  {
    hide Floor;
    FloorSpec(a, g);
    FloorSpec(b, g);
    if Floor(a, g) < Floor(b, g) { FloorGap(a, b, g); }
  }

  /** No aligned sector lies between the one found and `end`. */
  lemma AlignedBelowGreatest(end: nat, g: Granularity, alignment: nat, s: nat)
    requires alignment < g && alignment <= end && s <= end && s % g == alignment
    ensures s <= AlignedBelow(end, g, alignment)
  {
    hide AlignedBelow;
    AlignedBelowSpec(end, g, alignment);
    var e := AlignedBelow(end, g, alignment);
    if s > e { AlignedUnique(e, s, g); }
  }

  // ---------------------------------------------------------------- blkdev_issue_discard

  /** What is promised of a chunk that others follow: it ends on the alignment, as late as `max` sectors allow. */
  ghost predicate EndsAligned(c: Chunk, g: Granularity, alignment: nat, max: nat) {
    && End(c) % g == alignment
    && c.sector + max < End(c) + g
  }

  ghost predicate Sized(c: Chunk, max: nat) { 1 <= c.sectors <= max }

  /** The chunks follow each other from `sector` on up to `at`, none empty and none of more than `max` sectors; all
      end aligned but perhaps the last. */
  ghost predicate Tiles(chunks: seq<Chunk>, sector: nat, at: nat, g: Granularity, alignment: nat, max: nat, open: bool)
  {
    && (chunks != [] ==> chunks[0].sector == sector)
    && (forall i :: 0 < i < |chunks| ==> chunks[i].sector == End(chunks[i - 1]))
    && at == (if chunks == [] then sector else End(chunks[|chunks| - 1]))
    && (forall i :: 0 <= i < |chunks| ==> Sized(chunks[i], max))
    && (forall i :: 0 <= i < |chunks| - (if open then 0 else 1) ==> EndsAligned(chunks[i], g, alignment, max))
  }

  lemma StartTiles(sector: nat, g: Granularity, alignment: nat, max: nat, open: bool)
    ensures Tiles([], sector, sector, g, alignment, max, open)
  {
  }

  lemma TilesNext(chunks: seq<Chunk>, sector: nat, c: Chunk, g: Granularity, alignment: nat, max: nat, open: bool)
    requires Tiles(chunks, sector, c.sector, g, alignment, max, true) && Sized(c, max)
    requires open ==> EndsAligned(c, g, alignment, max)
    ensures Tiles(chunks + [c], sector, End(c), g, alignment, max, open)
  {
    hide EndsAligned, Sized;
  }

  /** The size of the next bio. */
  function NextSize(sector: nat, nr: nat, g: Granularity, alignment: nat): int
    requires alignment < g
  {
    if nr <= MAX_SECTORS then nr
    else if (sector + MAX_SECTORS) % g != alignment then AlignedBelow(sector + MAX_SECTORS, g, alignment) - sector
    else MAX_SECTORS
  }

  /** The loop always advances, by at least one sector even for the largest granularity. */
  lemma NextSizeSpec(sector: nat, nr: nat, g: Granularity, alignment: nat)
    requires alignment < g && nr > 0
    ensures var c := NextSize(sector, nr, g, alignment);
      && 1 <= c <= nr && c <= MAX_SECTORS && c * 512 <= 0xFFFF_FFFF
      && (nr > MAX_SECTORS ==> c > MAX_SECTORS - g && EndsAligned(Chunk(sector, c), g, alignment, MAX_SECTORS))
      && (nr <= MAX_SECTORS ==> c == nr)
  {
    hide AlignedBelow;
    if nr > MAX_SECTORS { AlignedBelowSpec(sector + MAX_SECTORS, g, alignment); }
  }

  /** One sector is all the progress that can be promised. */
  lemma AdvanceCanBeOne()
    ensures NextSize(0, MAX_SECTORS + 1, MAX_SECTORS, 1) == 1
  {
    assert (MAX_SECTORS - 1) / MAX_SECTORS == 0;
  }

  /**
  blkdev_issue_discard. `alloc(k)` says whether the k-th bio can be allocated; if one cannot, the loop stops at
  `upTo` with an error. `done` is the batch count after the last bio has been submitted.
  */
  method IssueDiscard(sector0: nat, nr0: nat, g: Granularity, alignment: nat, alloc: nat -> bool)
    returns (chunks: seq<Chunk>, upTo: nat, enomem: bool, done: nat)
    requires alignment < g
    ensures Tiles(chunks, sector0, upTo, g, alignment, MAX_SECTORS, enomem)
    ensures !enomem ==> upTo == sector0 + nr0 && (nr0 > 0 <==> chunks != [])
    ensures enomem ==> upTo < sector0 + nr0 && !alloc(|chunks|)
    ensures forall k :: 0 <= k < |chunks| ==> alloc(k)
    ensures done == 1 + |chunks|
  {
    hide Tiles, EndsAligned;
    var sector: nat, nr: nat := sector0, nr0;
    StartTiles(sector0, g, alignment, MAX_SECTORS, nr0 > 0);
    chunks, done, enomem := [], 1, false;
    while nr > 0
      invariant sector + nr == sector0 + nr0 && done == 1 + |chunks| && !enomem
      invariant Tiles(chunks, sector0, sector, g, alignment, MAX_SECTORS, nr > 0)
      invariant (nr < nr0 <==> chunks != []) && nr <= nr0
      invariant forall k :: 0 <= k < |chunks| ==> alloc(k)
      decreases nr
    {
      if !alloc(|chunks|) {
        enomem := true;
        break;
      }
      var req := if nr < MAX_SECTORS then nr else MAX_SECTORS;
      var end := sector + req;
      if req < nr && end % g != alignment {
        NextSizeSpec(sector, nr, g, alignment);
        end := end - alignment;
        end := end / g;
        end := end * g + alignment;
        req := end - sector;
      }
      var c := Chunk(sector, req);
      NextSizeSpec(sector, nr, g, alignment);
      TilesNext(chunks, sector0, c, g, alignment, MAX_SECTORS, nr > req);
      nr := nr - req;
      sector := end;
      done := done + 1;
      chunks := chunks + [c];
    }
    upTo := sector;
  }

  // ---------------------------------------------------------------- blk_bio_discard_split

  /** The queue's limit on a discard in whole granules. */
  function MaxDiscard(maxDiscard: nat, g: Granularity): nat {
    var m := if maxDiscard < MAX_SECTORS then maxDiscard else MAX_SECTORS;
    m - m % g
  }

  /** Where a discard bio of `nr` sectors is cut, or nothing. `maxDiscard` is the queue's limit. */
  function SplitAt(sector: nat, nr: nat, maxDiscard: nat, g: Granularity, alignment: nat): int
    requires alignment < g
  {
    var max := MaxDiscard(maxDiscard, g);
    if max == 0 || nr <= max then 0
    else
      var tmp := (sector + max - alignment) % g;
      if max > tmp then max - tmp else max
  }

  /** A cut leaves both parts non-empty, falls on the alignment, and is the last such point within the limit
      rounded down to whole granules. There is none exactly when the bio fits or no granule does. */
  lemma SplitAtAligned(sector: nat, nr: nat, maxDiscard: nat, g: Granularity, alignment: nat)
    requires alignment < g
    ensures var (s, max) := (SplitAt(sector, nr, maxDiscard, g, alignment), MaxDiscard(maxDiscard, g));
      && (max == 0 <==> maxDiscard < g)
      && (s == 0 <==> maxDiscard < g || nr <= max)
      && (s != 0 ==> 0 < s < nr && s <= max <= maxDiscard && EndsAligned(Chunk(sector, s), g, alignment, max))
  {
    hide Floor;
    var m := if maxDiscard < MAX_SECTORS then maxDiscard else MAX_SECTORS;
    Whole(m, g);
    var max := m - m % g;
    if max > 0 && nr > max {
      var n := sector + max - alignment;
      FloorSpec(n, g);
      FloorAligned(n, g, alignment);
      assert sector + (max - n % g) == Floor(n, g) + alignment;
    }
  }

  /** Rounding down to whole granules. */
  lemma Whole(m: nat, g: Granularity)
    ensures 0 <= m - m % g && (m - m % g == 0 <==> m < g) && (m - m % g > 0 ==> m - m % g >= g)
  {
    hide Floor;
    FloorSpec(m, g);
    FloorSpec(0, g);
    if Floor(0, g) < Floor(m, g) { FloorGap(0, m, g); }
  }
}
