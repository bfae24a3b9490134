/**
A discard bio on its way through generic_make_request (block/blk-core.c): the same checks, list and chaining as for
data, with blk_bio_discard_split (block/blk-merge.c) making the cuts.
*/
module DiscardSubmit {
  import opened Common
  import opened Discard
  import BioChain
  import BioSubmit

  /** The limits of the queue, and whether it takes discards at all. */
  datatype Queue = Queue(supported: bool, maxDiscard: nat, g: Granularity, alignment: nat)

  predicate QueueOk(q: Queue) { q.alignment < q.g }

  /** The checks: where the range is on the disk, or nothing when the bio is ended with an error. */
  function Checks(q: Queue, dev: BioSubmit.Device, c: Chunk, onPart: bool): Option<(Chunk, bool)> {
    match BioSubmit.ChecksAt(dev, c.sector, c.sectors, onPart)
    case None => None
    case Some((s, p)) => if q.supported then Some((c.(sector := s), p)) else None
  }

  function Start(dev: BioSubmit.Device, c: Chunk): nat { BioSubmit.StartAt(dev, c.sector, c.sectors) }

  lemma ChecksOnce(q: Queue, dev: BioSubmit.Device, c: Chunk)
    requires Checks(q, dev, c, dev.isPart).Some?
    ensures var (d, p) := Checks(q, dev, c, dev.isPart).value;
      && d == c.(sector := Start(dev, c)) && Checks(q, dev, d, p) == Some((d, p)) && (p ==> d.sectors == 0)
  {
  }

  lemma RestPasses(q: Queue, dev: BioSubmit.Device, c: Chunk, rest: Chunk)
    requires Checks(q, dev, c, false) == Some((c, false)) && End(rest) == End(c) && c.sector <= rest.sector
    ensures Checks(q, dev, rest, false) == Some((rest, false))
  {
  }

  /** `cur` is what is left of the range up to `end` once `pieces` have gone out, and has passed the checks. */
  ghost predicate Remains(q: Queue, dev: BioSubmit.Device, onPart: bool, pieces: seq<Chunk>, sector: nat, end: nat,
                          cur: Chunk)
    requires QueueOk(q)
  {
    && Tiles(pieces, sector, cur.sector, q.g, q.alignment, MaxDiscard(q.maxDiscard, q.g), true)
    && sector <= cur.sector && End(cur) == end && (sector < end ==> cur.sectors > 0)
    && Checks(q, dev, cur, onPart) == Some((cur, onPart)) && (onPart ==> cur.sectors == 0)
  }

  /** The pieces are the range from `sector` up to `end`: all but the last end aligned, as late as the limit allows;
      none exceeds the limit, unless it is less than a granule, when the whole range is one piece. */
  ghost predicate Covers(q: Queue, pieces: seq<Chunk>, sector: nat, end: nat)
    requires QueueOk(q)
  {
    && pieces != []
    && var (init, last) := (pieces[..|pieces| - 1], pieces[|pieces| - 1]);
       && Tiles(init, sector, last.sector, q.g, q.alignment, MaxDiscard(q.maxDiscard, q.g), true)
       && End(last) == end && (sector < end ==> last.sectors > 0)
       && (if q.maxDiscard < q.g then init == [] else last.sectors <= MaxDiscard(q.maxDiscard, q.g))
  }

  /** blk_bio_discard_split, and what is left goes on the list. */
  method OneTurn(q: Queue, dev: BioSubmit.Device, onPart: bool, ghost pieces: seq<Chunk>, ghost sector: nat,
                 ghost end: nat, cur: Chunk)
    returns (piece: Chunk, list: seq<Chunk>)
    requires QueueOk(q) && Remains(q, dev, onPart, pieces, sector, end, cur)
    ensures sector <= piece.sector && End(piece) <= end
    ensures list == [] ==> Covers(q, pieces + [piece], sector, end)
    ensures list != [] ==>
      && |list| == 1 && list[0].sectors < cur.sectors
      && Remains(q, dev, onPart, pieces + [piece], sector, end, list[0])
  {
    hide Tiles, Checks;
    SplitAtAligned(cur.sector, cur.sectors, q.maxDiscard, q.g, q.alignment);
    var at := SplitAt(cur.sector, cur.sectors, q.maxDiscard, q.g, q.alignment);
    if at == 0 {
      piece, list := cur, [];
      assert (pieces + [piece])[..|pieces|] == pieces;
      if q.maxDiscard < q.g { NoPieces(q, pieces, sector, cur.sector); }
    } else {
      piece := Chunk(cur.sector, at);
      var rest := Chunk(cur.sector + at, cur.sectors - at);
      TilesNext(pieces, sector, piece, q.g, q.alignment, MaxDiscard(q.maxDiscard, q.g), true);
      RestPasses(q, dev, cur, rest);
      list := [rest];
    }
  }

  lemma NoPieces(q: Queue, pieces: seq<Chunk>, sector: nat, at: nat)
    requires QueueOk(q) && q.maxDiscard < q.g
    requires Tiles(pieces, sector, at, q.g, q.alignment, MaxDiscard(q.maxDiscard, q.g), true)
    ensures pieces == []
  {
    SplitAtAligned(0, 0, q.maxDiscard, q.g, q.alignment);
    assert pieces != [] ==> Sized(pieces[0], MaxDiscard(q.maxDiscard, q.g));
  }

  /**
  The loop over current->bio_list. Either the bio was refused whole, or its pieces cover the range, shifted once by
  the start of the partition, or cover it up to `left`, which was ended with an error because the queue was dying.
  The bios are chained as those of a data bio are, whatever is completed meanwhile.
  */
  method MakeRequest(q: Queue, dev: BioSubmit.Device, c: Chunk, admit: nat -> bool,
                     ghost between: nat -> BioSubmit.Meanwhile)
    returns (pieces: seq<Chunk>, left: Option<Chunk>, ghost events: seq<BioChain.Event>)
    requires QueueOk(q) && forall k :: BioSubmit.MeanwhileOk(between(k), k)
    ensures !q.supported || (c.sectors > 0 && !BioSubmit.Within(dev, c.sector, c.sectors)) ==>
      pieces == [] && left == Some(c)
    ensures q.supported && (c.sectors == 0 || BioSubmit.Within(dev, c.sector, c.sectors)) ==>
      var (from, end) := (Start(dev, c), Start(dev, c) + c.sectors);
      && (left.None? ==> Covers(q, pieces, from, end))
      && (left.Some? ==>
            && Tiles(pieces, from, left.value.sector, q.g, q.alignment, MaxDiscard(q.maxDiscard, q.g), true)
            && End(left.value) == end)
      && ((forall k :: admit(k)) ==> left.None?)
      && (forall i :: 0 <= i < |pieces| && c.sectors > 0 ==> BioSubmit.Belong(dev, pieces[i].sector, End(pieces[i])))
      && (left.Some? || pieces != [])
      && events == BioSubmit.WholeTrace(|pieces| + (if left.Some? then 1 else 0), left.Some?, between)
    ensures BioChain.Pieces(BioChain.Run(BioChain.Init, events),
                            |pieces| + (if left.Some? then 1 else 0), left.Some?)
  {
    hide Tiles, Covers, MaxDiscard, BioChain.Run, BioChain.Pieces;
    hide BioSubmit.ChecksAt, BioSubmit.WholeTrace, BioSubmit.MeanwhileOk, BioSubmit.Within;
    BioSubmit.RefusedExactly(dev, c.sector, c.sectors);
    pieces, left, events := [], None, [BioChain.Alloc(true)];
    var checked := Checks(q, dev, c, dev.isPart);
    if checked.None? {
      BioSubmit.RefusedPieces();
      events := events + [BioChain.Endio(0)];
      left := Some(c);
      return;
    }
    ChecksOnce(q, dev, c);
    var onPart := checked.value.1;
    ghost var (from, end) := (Start(dev, c), Start(dev, c) + c.sectors);
    StartTiles(from, q.g, q.alignment, MaxDiscard(q.maxDiscard, q.g), true);
    var list: seq<Chunk> := [];
    var cur, k: nat := Some(checked.value.0), 0;
    while cur.Some?
      invariant list == [] && (cur.Some? ==> k == |pieces| && left.None?)
      invariant cur.Some? ==> Remains(q, dev, onPart, pieces, from, end, cur.value)
      invariant forall i :: 0 <= i < |pieces| ==> from <= pieces[i].sector && End(pieces[i]) <= end
      invariant cur.None? && left.None? ==> pieces != [] && Covers(q, pieces, from, end)
      invariant left.Some? ==> Remains(q, dev, onPart, pieces, from, end, left.value) && exists k :: !admit(k)
      invariant cur.Some? ==> events == BioSubmit.Trace(|pieces|, between)
      invariant cur.None? ==>
        events == BioSubmit.WholeTrace(|pieces| + (if left.Some? then 1 else 0), left.Some?, between)
      decreases if cur.Some? then cur.value.sectors + 1 else 0
    {
      BioSubmit.TraceNext(k, between);
      events := events + between(k).before;
      if admit(k) {
        var piece;
        piece, list := OneTurn(q, dev, onPart, pieces, from, end, cur.value);
        if list != [] {
          events := events + [BioChain.Alloc(false)] + between(k).during + [BioChain.Chain(|pieces| + 1, 0)];
        }
        pieces := pieces + [piece];
      } else {
        left := cur;
        events := events + [BioChain.Endio(0)];
      }
      if list == [] { cur := None; } else { cur, list := Some(list[0]), list[1..]; }
      k := k + 1;
    }
    BioSubmit.WholeTracePieces(|pieces| + (if left.Some? then 1 else 0), left.Some?, between);
  }
}
