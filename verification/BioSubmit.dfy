/**
generic_make_request (block/blk-core.c): the checks, the partition remap, and the list that turns
the recursion of blk_queue_split into a loop.
*/
module BioSubmit {
  import opened Segments
  import opened BlkRequest
  import opened BlkRequestProofs
  import opened BioSplit
  import BioChain
  import opened Common

  // ---------------------------------------------------------------- the bytes of a bio

  /** A byte in memory: page and offset. */
  type Addr = (nat, nat)

  function FlatOne(b: Bvec): (f: seq<Addr>)
    ensures |f| == b.len && forall i :: 0 <= i < b.len ==> f[i] == (b.page, b.offset + i)
  {
    seq(b.len, i requires i >= 0 => (b.page, b.offset + i))
  }

  function Flat(bs: seq<Bvec>): seq<Addr> {
    if bs == [] then [] else FlatOne(bs[0]) + Flat(bs[1..])
  }

  lemma FlatCons(b: Bvec, bs: seq<Bvec>)
    ensures Flat([b] + bs) == FlatOne(b) + Flat(bs)
  {
    assert ([b] + bs)[1..] == bs;
  }

  lemma {:induction false} FlatLength(bs: seq<Bvec>)
    ensures |Flat(bs)| == Bytes(bs)
  {
    if bs != [] {
      BytesFirst(bs);
      FlatLength(bs[1..]);
    }
  }

  lemma FlatCutOne(b: Bvec, n: nat)
    requires n < b.len
    ensures FlatOne(b.(len := n)) + FlatOne(Bvec(b.page, b.offset + n, b.len - n)) == FlatOne(b)
  {
    hide FlatOne;
  }

  /** A cut keeps every byte, in order. */
  lemma {:induction false} FlatCut(bs: seq<Bvec>, n: nat)
    ensures Flat(TakeBytes(bs, n)) + Flat(DropBytes(bs, n)) == Flat(bs)
  {
    hide FlatOne;
    if bs != [] && n > 0 {
      var (b, rest) := (bs[0], bs[1..]);
      if b.len <= n {
        FlatCut(rest, n - b.len);
        FlatCons(b, TakeBytes(rest, n - b.len));
      } else {
        var tail := Bvec(b.page, b.offset + n, b.len - n);
        FlatCutOne(b, n);
        FlatCons(tail, rest);
        assert [b.(len := n)] + [] == [b.(len := n)];
        FlatCons(b.(len := n), []);
      }
    }
  }

  /** The bytes of a list of pieces. */
  function FlatAll(pieces: seq<Bio>): seq<Addr> {
    if pieces == [] then [] else FlatAll(pieces[..|pieces| - 1]) + Flat(pieces[|pieces| - 1].bvecs)
  }

  function End(b: Bio): nat { b.sector + BioSectors(b) }

  /** The pieces follow each other on the disk from `sector` on. */
  ghost predicate InOrder(pieces: seq<Bio>, sector: nat) {
    && (pieces != [] ==> pieces[0].sector == sector)
    && forall i :: 0 < i < |pieces| ==> pieces[i].sector == End(pieces[i - 1])
  }

  /** A piece the driver may be given. */
  ghost predicate PieceOk(q: Queue, b: Bio)
    requires q.block >= 1
  {
    && BvecsOk(b.bvecs)
    && (if MaxIo(q, b.sector) > 0 then Legal(q, MaxIo(q, b.sector), b.bvecs) else |b.bvecs| <= 1)
    && b.segValid && b.physSegs <= q.lim.maxSegments && Groups(q.lim, b.bvecs, b.physSegs)
  }

  // ---------------------------------------------------------------- blk_queue_split

  lemma {:induction false} TakeOk(bs: seq<Bvec>, n: nat)
    requires BvecsOk(bs) && n % SECTOR == 0
    ensures BvecsOk(TakeBytes(bs, n))
    ensures Bytes(TakeBytes(bs, n)) == (if n <= Bytes(bs) then n else Bytes(bs))
  {
    if bs != [] {
      BytesFirst(bs);
      if n > 0 {
        if bs[0].len <= n {
          TakeOk(bs[1..], n - bs[0].len);
          var t := TakeBytes(bs, n);
          BytesFirst(t);
          assert t[1..] == TakeBytes(bs[1..], n - bs[0].len);
        } else {
          BytesOne(bs[0].(len := n));
        }
      }
    }
  }

  /** Data bios only; the piece goes to the driver, the rest is submitted again. */
  method QueueSplit(q: Queue, bio: Bio) returns (piece: Bio, rest: Option<Bio>)
    requires QueueOk(q) && BvecsOk(bio.bvecs)
    ensures PieceOk(q, piece) && piece.sector == bio.sector
    ensures rest.None? ==> piece.bvecs == bio.bvecs && (bio.bvecs != [] ==> BioOk(q.lim, piece))
    ensures rest.Some? ==>
      && piece.bvecs != [] && rest.value.bvecs != [] && BvecsOk(rest.value.bvecs)
      && rest.value.sector == End(piece) && End(rest.value) == End(bio)
      && BioSectors(rest.value) < BioSectors(bio)
      && Flat(piece.bvecs) + Flat(rest.value.bvecs) == Flat(bio.bvecs)
    ensures MaxIo(q, bio.sector) > 0 ==> (rest.None? <==> Legal(q, MaxIo(q, bio.sector), bio.bvecs))
  {
    hide Legal, Groups, MaxIo, Flat, Fits, TakeBytes, DropBytes, Bytes;
    var sectors, split, nsegs, front, back;
    ghost var k;
    sectors, split, nsegs, front, back, k := SegmentSplit(q, bio);
    ghost var n := sectors * SECTOR;
    BytesWhole(bio.bvecs);
    TakeOk(bio.bvecs, n);
    DropBytesOk(bio.bvecs, n);
    FlatCut(bio.bvecs, n);
    if split {
      piece := bio.(bvecs := TakeBytes(bio.bvecs, sectors * SECTOR), segFront := front, segBack := back,
                    physSegs := nsegs, segValid := true);
      var r := AdvanceBio(bio, sectors * SECTOR);
      rest := Some(r);
      SplitSectors(bio, sectors, piece, r);
    } else {
      TakeWhole(bio.bvecs, |bio.bvecs|);
      assert bio.bvecs[..|bio.bvecs|] == bio.bvecs;
      piece := bio.(segFront := front, segBack := back, physSegs := nsegs, segValid := true);
      rest := None;
    }
  }

  lemma SplitSectors(bio: Bio, sectors: nat, piece: Bio, rest: Bio)
    requires BvecsOk(bio.bvecs) && 0 < sectors < BioSectors(bio)
    requires piece.bvecs == TakeBytes(bio.bvecs, sectors * SECTOR) && piece.sector == bio.sector
    requires rest == AdvanceBio(bio, sectors * SECTOR)
    ensures BioSectors(piece) == sectors && BioSectors(rest) == BioSectors(bio) - sectors
    ensures piece.bvecs != [] && rest.bvecs != [] && BvecsOk(rest.bvecs)
    ensures rest.sector == End(piece) && End(rest) == End(bio)
  {
    BytesWhole(bio.bvecs);
    TakeOk(bio.bvecs, sectors * SECTOR);
    DropBytesOk(bio.bvecs, sectors * SECTOR);
    BytesWhole(rest.bvecs);
  }

  // ---------------------------------------------------------------- generic_make_request

  /** Sizes in sectors, 0 when unknown; `start` is where the partition begins on the disk. */
  datatype Device = Device(isPart: bool, start: nat, partSize: nat, diskSize: nat)

  /** bio_check_eod. */
  predicate BeyondEnd(size: nat, sector: nat, nr: nat) {
    nr > 0 && size > 0 && (size < nr || size - nr < sector)
  }

  /** blk_partition_remap of `nr` sectors from `sector` on. */
  function Remap(dev: Device, sector: nat, nr: nat, onPart: bool): (nat, bool) {
    if nr > 0 && onPart then (sector + dev.start, false) else (sector, onPart)
  }

  /** The checks: the remapped start, or nothing when the bio is ended with an error. */
  function ChecksAt(dev: Device, sector: nat, nr: nat, onPart: bool): Option<(nat, bool)> {
    if BeyondEnd(if onPart then dev.partSize else dev.diskSize, sector, nr) then None
    else
      var (s, p) := Remap(dev, sector, nr, onPart);
      if BeyondEnd(if p then dev.partSize else dev.diskSize, s, nr) then None else Some((s, p))
  }

  /** A range that lies in its partition and on its disk, as far as their sizes are known. */
  predicate Within(dev: Device, sector: nat, nr: nat) {
    && (dev.isPart && dev.partSize > 0 ==> sector + nr <= dev.partSize)
    && (dev.diskSize > 0 ==> (if dev.isPart then dev.start else 0) + sector + nr <= dev.diskSize)
  }

  /** Sectors of the disk that belong to the device. */
  predicate Belong(dev: Device, from: nat, to: nat) {
    && (dev.diskSize > 0 ==> to <= dev.diskSize)
    && (dev.isPart ==> dev.start <= from)
    && (dev.isPart && dev.partSize > 0 ==> to <= dev.start + dev.partSize)
  }

  /** A bio is refused exactly when it is not empty and its range does not lie within the device. */
  lemma RefusedExactly(dev: Device, sector: nat, nr: nat)
    ensures ChecksAt(dev, sector, nr, dev.isPart).None? <==> nr > 0 && !Within(dev, sector, nr)
    ensures nr > 0 && Within(dev, sector, nr) ==>
      Belong(dev, StartAt(dev, sector, nr), StartAt(dev, sector, nr) + nr)
  {
  }

  function Checks(dev: Device, bio: Bio, onPart: bool): Option<(Bio, bool)> {
    match ChecksAt(dev, bio.sector, BioSectors(bio), onPart)
    case None => None
    case Some((s, p)) => Some((bio.(sector := s), p))
  }

  /** What is left of a checked bio passes the checks again, unchanged. */
  lemma RestPasses(dev: Device, bio: Bio, onPart: bool, rest: Bio)
    requires BvecsOk(bio.bvecs) && Checks(dev, bio, onPart) == Some((bio, onPart)) && !onPart
    requires End(rest) == End(bio) && bio.sector <= rest.sector
    ensures Checks(dev, rest, false) == Some((rest, false))
  {
  }

  function Start(dev: Device, bio: Bio): nat { StartAt(dev, bio.sector, BioSectors(bio)) }

  function StartAt(dev: Device, sector: nat, nr: nat): nat {
    if dev.isPart && nr > 0 then sector + dev.start else sector
  }

  lemma ChecksOnce(dev: Device, bio: Bio)
    requires BvecsOk(bio.bvecs) && Checks(dev, bio, dev.isPart).Some?
    ensures var (b, p) := Checks(dev, bio, dev.isPart).value;
      && b == bio.(sector := Start(dev, bio)) && Checks(dev, b, p) == Some((b, p))
      && (p ==> BioSectors(b) == 0)
  {
  }

  /** Pieces, then what is left, are `bio` from `sector` on. */
  ghost predicate Tiles(pieces: seq<Bio>, left: seq<Addr>, at: nat, sector: nat, bio: Bio) {
    && InOrder(pieces, sector)
    && (if pieces == [] then at == sector else at == End(Last(pieces)))
    && FlatAll(pieces) + left == Flat(bio.bvecs)
  }

  lemma TilesNext(pieces: seq<Bio>, cur: Bio, piece: Bio, left: seq<Addr>, sector: nat, bio: Bio)
    requires Tiles(pieces, Flat(cur.bvecs), cur.sector, sector, bio)
    requires piece.sector == cur.sector && Flat(piece.bvecs) + left == Flat(cur.bvecs)
    ensures Tiles(pieces + [piece], left, End(piece), sector, bio)
  {
    hide Flat, BioSectors;
    assert (pieces + [piece])[..|pieces|] == pieces;
    assert FlatAll(pieces) + (Flat(piece.bvecs) + left) == FlatAll(pieces) + Flat(piece.bvecs) + left;
  }

  /** The completions that run before a turn of the loop, and while it cuts a piece off. */
  datatype Meanwhile = Meanwhile(before: seq<BioChain.Event>, during: seq<BioChain.Event>)

  /** Before turn `k`, `k` pieces have gone out; each may be completed at any time. */
  predicate MeanwhileOk(m: Meanwhile, k: nat) {
    BioChain.Completions(m.before, k + 1) && BioChain.Completions(m.during, k + 1)
  }

  /** What has happened to the bios when `k` pieces have gone out and the rest is about to have its turn. */
  ghost function Trace(k: nat, between: nat -> Meanwhile): seq<BioChain.Event> {
    if k == 0 then [BioChain.Alloc(true)]
    else
      Trace(k - 1, between) + between(k - 1).before
      + [BioChain.Alloc(false)] + between(k - 1).during + [BioChain.Chain(k, 0)]
  }

  /** And when the last of `n` bios has had its turn; it is ended if it was not let in. */
  ghost function WholeTrace(n: nat, ended: bool, between: nat -> Meanwhile): seq<BioChain.Event>
    requires n >= 1
  {
    Trace(n - 1, between) + between(n - 1).before + (if ended then [BioChain.Endio(0)] else [])
  }

  /**
  `admit(k)` says whether blk_queue_enter lets the k-th turn in, `between(k)` what is completed meanwhile.
  Either nothing went out and the bio was ended with an error, or the pieces went out in order and cover the bio up
  to `left`, which was ended with an error because the queue was dying.
  */
  method MakeRequest(q: Queue, dev: Device, bio: Bio, admit: nat -> bool,
                     ghost between: nat -> Meanwhile)
    returns (pieces: seq<Bio>, left: Option<Bio>, ghost events: seq<BioChain.Event>)
    requires QueueOk(q) && BvecsOk(bio.bvecs) && forall k :: MeanwhileOk(between(k), k)
    ensures BioSectors(bio) > 0 && !Within(dev, bio.sector, BioSectors(bio)) ==> pieces == [] && left == Some(bio)
    ensures BioSectors(bio) == 0 || Within(dev, bio.sector, BioSectors(bio)) ==>
      && (forall i :: 0 <= i < |pieces| ==> PieceOk(q, pieces[i]))
      && (if left.Some? then Tiles(pieces, Flat(left.value.bvecs), left.value.sector, Start(dev, bio), bio)
          else pieces != [] && Tiles(pieces, [], End(Last(pieces)), Start(dev, bio), bio))
      && (bio.bvecs != [] ==> forall i :: 0 <= i < |pieces| ==> pieces[i].bvecs != [])
      && ((forall k :: admit(k)) ==> left.None?)
      && (forall i :: 0 <= i < |pieces| && BioSectors(bio) > 0 ==> Belong(dev, pieces[i].sector, End(pieces[i])))
      && events == WholeTrace(|pieces| + (if left.Some? then 1 else 0), left.Some?, between)
    ensures BioChain.Pieces(BioChain.Run(BioChain.Init, events),
                            |pieces| + (if left.Some? then 1 else 0), left.Some?)
  {
    hide Flat, MaxIo, Legal, Groups, BvecsOk, Within, Tiles, PieceOk, BioSectors;
    RefusedExactly(dev, bio.sector, BioSectors(bio));
    pieces, left := [], None;
    events := [BioChain.Alloc(true)];
    var checked := Checks(dev, bio, dev.isPart);
    if checked.None? {
      RefusedPieces();
      events := events + [BioChain.Endio(0)];
      left := Some(bio);
      return;
    }
    ChecksOnce(dev, bio);
    pieces, left, events := Submit(q, dev, bio, checked.value.0, checked.value.1, admit, between);
  }

  lemma StartChain()
    ensures BioChain.Pieces(BioChain.Run(BioChain.Init, [BioChain.Alloc(true)]), 1, false)
  {
    BioChain.RunOne(BioChain.Init, [], BioChain.Alloc(true));
    assert [] + [BioChain.Alloc(true)] == [BioChain.Alloc(true)];
  }

  /** A bio that is refused is ended at once. */
  lemma RefusedPieces()
    ensures BioChain.Pieces(BioChain.Run(BioChain.Init, [BioChain.Alloc(true)] + [BioChain.Endio(0)]), 1, true)
  {
    StartChain();
    BioChain.RunOne(BioChain.Init, [BioChain.Alloc(true)], BioChain.Endio(0));
    BioChain.PieceEnd(BioChain.Run(BioChain.Init, [BioChain.Alloc(true)]), 1);
  }

  lemma WaitChain(events: seq<BioChain.Event>, n: nat, before: seq<BioChain.Event>)
    requires BioChain.Pieces(BioChain.Run(BioChain.Init, events), n, false) && BioChain.Completions(before, n)
    ensures BioChain.Pieces(BioChain.Run(BioChain.Init, events + before), n, false)
  {
    hide BioChain.Run, BioChain.Pieces;
    BioChain.RunConcat(BioChain.Init, events, before);
    BioChain.PiecesStay(BioChain.Run(BioChain.Init, events), n, before);
  }

  lemma CutChain(events: seq<BioChain.Event>, n: nat, during: seq<BioChain.Event>)
    requires BioChain.Pieces(BioChain.Run(BioChain.Init, events), n, false) && BioChain.Completions(during, n)
    ensures BioChain.Pieces(
      BioChain.Run(BioChain.Init, events + [BioChain.Alloc(false)] + during + [BioChain.Chain(n, 0)]), n + 1, false)
  {
    hide BioChain.Run, BioChain.Next, BioChain.Pieces;
    BioChain.RunOne(BioChain.Init, events, BioChain.Alloc(false));
    BioChain.RunConcat(BioChain.Init, events + [BioChain.Alloc(false)], during);
    BioChain.RunOne(BioChain.Init, events + [BioChain.Alloc(false)] + during, BioChain.Chain(n, 0));
    BioChain.RunKeeps(BioChain.Init, events);
    BioChain.PieceCut(BioChain.Run(BioChain.Init, events), n, during);
  }

  lemma {:induction false} TracePieces(k: nat, between: nat -> Meanwhile)
    requires forall i :: MeanwhileOk(between(i), i)
    ensures BioChain.Pieces(BioChain.Run(BioChain.Init, Trace(k, between)), k + 1, false)
  {
    hide BioChain.Run, BioChain.Pieces;
    if k == 0 {
      StartChain();
    } else {
      TracePieces(k - 1, between);
      assert MeanwhileOk(between(k - 1), k - 1);
      WaitChain(Trace(k - 1, between), k, between(k - 1).before);
      CutChain(Trace(k - 1, between) + between(k - 1).before, k, between(k - 1).during);
    }
  }

  /** Whatever is completed meanwhile, every bio that went out is chained to the one with the caller's end_io. */
  lemma WholeTracePieces(n: nat, ended: bool, between: nat -> Meanwhile)
    requires n >= 1 && forall i :: MeanwhileOk(between(i), i)
    ensures BioChain.Pieces(BioChain.Run(BioChain.Init, WholeTrace(n, ended, between)), n, ended)
  {
    hide BioChain.Run, BioChain.Pieces;
    var events := Trace(n - 1, between) + between(n - 1).before;
    TracePieces(n - 1, between);
    assert MeanwhileOk(between(n - 1), n - 1);
    WaitChain(Trace(n - 1, between), n, between(n - 1).before);
    if ended {
      BioChain.RunOne(BioChain.Init, events, BioChain.Endio(0));
      BioChain.PieceEnd(BioChain.Run(BioChain.Init, events), n);
    } else {
      assert events + [] == events;
    }
  }

  /** Whatever is completed while generic_make_request runs, and whatever happens afterwards, the caller's end_io
      runs at most once, after every bio that went out, and does run when all have ended. */
  lemma CallerEndsOnce(n: nat, ended: bool, between: nat -> Meanwhile, more: seq<BioChain.Event>)
    requires n >= 1 && forall i :: MeanwhileOk(between(i), i)
    ensures var s := BioChain.Run(BioChain.Init, WholeTrace(n, ended, between) + more);
      && |s.bios| >= n && !s.bug && s.bios[0].calls <= 1
      && (s.bios[0].calls == 1 ==> forall i :: 0 <= i < n ==> s.bios[i].finished && !s.bios[i].owned)
      && (s.at == multiset{} && (forall b :: 0 <= b < |s.bios| ==> !s.bios[b].owned) ==> s.bios[0].calls == 1)
  {
    hide BioChain.Run, BioChain.Pieces, WholeTrace;
    WholeTracePieces(n, ended, between);
    BioChain.OnceAfterAllPieces(WholeTrace(n, ended, between), n, ended, more);
  }

  lemma TraceNext(k: nat, between: nat -> Meanwhile)
    ensures Trace(k + 1, between) ==
      Trace(k, between) + between(k).before + [BioChain.Alloc(false)] + between(k).during + [BioChain.Chain(k + 1, 0)]
    ensures WholeTrace(k + 1, false, between) == Trace(k, between) + between(k).before
    ensures WholeTrace(k + 1, true, between) == Trace(k, between) + between(k).before + [BioChain.Endio(0)]
  {
  }

  /** `cur` is what is left of `bio` once `pieces` have gone out, and has passed the checks. */
  ghost predicate Remains(dev: Device, bio: Bio, onPart: bool, pieces: seq<Bio>, cur: Bio) {
    && BvecsOk(cur.bvecs) && (bio.bvecs != [] ==> cur.bvecs != [])
    && Tiles(pieces, Flat(cur.bvecs), cur.sector, Start(dev, bio), bio)
    && Checks(dev, cur, onPart) == Some((cur, onPart)) && (onPart ==> BioSectors(cur) == 0)
    && Start(dev, bio) <= cur.sector && End(cur) == Start(dev, bio) + BioSectors(bio)
  }

  /** q->make_request_fn: the piece goes to the driver, what is left goes on the list. */
  method OneTurn(q: Queue, dev: Device, ghost bio: Bio, onPart: bool, ghost pieces: seq<Bio>, cur: Bio)
    returns (piece: Bio, list: seq<Bio>)
    requires QueueOk(q) && Remains(dev, bio, onPart, pieces, cur)
    ensures PieceOk(q, piece) && (bio.bvecs != [] ==> piece.bvecs != [])
    ensures Start(dev, bio) <= piece.sector && End(piece) <= Start(dev, bio) + BioSectors(bio)
    ensures list == [] ==> Tiles(pieces + [piece], [], End(piece), Start(dev, bio), bio)
    ensures list != [] ==>
      && |list| == 1 && BioSectors(list[0]) < BioSectors(cur) && Remains(dev, bio, onPart, pieces + [piece], list[0])
  {
    hide Flat, MaxIo, Legal, Groups, BvecsOk, Checks, Tiles, PieceOk, BioSectors;
    var rest;
    piece, rest := QueueSplit(q, cur);
    if rest.Some? {
      RestPasses(dev, cur, onPart, rest.value);
      var checked := Checks(dev, rest.value, onPart);
      assert checked.Some?;
      list := [checked.value.0];
      TilesNext(pieces, cur, piece, Flat(rest.value.bvecs), Start(dev, bio), bio);
    } else {
      list := [];
      SameSize(piece, cur);
      WholeTiles(piece, cur);
      TilesNext(pieces, cur, piece, [], Start(dev, bio), bio);
    }
  }

  /** The loop over current->bio_list. */
  method Submit(q: Queue, dev: Device, ghost bio: Bio, first: Bio, onPart: bool, admit: nat -> bool,
                ghost between: nat -> Meanwhile)
    returns (pieces: seq<Bio>, left: Option<Bio>, ghost events: seq<BioChain.Event>)
    requires QueueOk(q) && BvecsOk(bio.bvecs) && forall k :: MeanwhileOk(between(k), k)
    requires first == bio.(sector := Start(dev, bio))
    requires Checks(dev, first, onPart) == Some((first, onPart)) && (onPart ==> BioSectors(first) == 0)
    ensures forall i :: 0 <= i < |pieces| ==> PieceOk(q, pieces[i])
    ensures if left.Some? then Tiles(pieces, Flat(left.value.bvecs), left.value.sector, Start(dev, bio), bio)
            else pieces != [] && Tiles(pieces, [], End(Last(pieces)), Start(dev, bio), bio)
    ensures bio.bvecs != [] ==> forall i :: 0 <= i < |pieces| ==> pieces[i].bvecs != []
    ensures (forall k :: admit(k)) ==> left.None?
    ensures forall i :: 0 <= i < |pieces| ==>
      Start(dev, bio) <= pieces[i].sector && End(pieces[i]) <= Start(dev, bio) + BioSectors(bio)
    ensures events == WholeTrace(|pieces| + (if left.Some? then 1 else 0), left.Some?, between)
    ensures BioChain.Pieces(BioChain.Run(BioChain.Init, events),
                            |pieces| + (if left.Some? then 1 else 0), left.Some?)
  {
    hide Flat, MaxIo, Legal, Groups, BvecsOk, Checks, Tiles, PieceOk, BioSectors;
    hide BioChain.Run, BioChain.Pieces, MeanwhileOk, WholeTrace;
    pieces, left, events := [], None, [BioChain.Alloc(true)];
    StartTiles(first, bio);
    SameSize(first, bio);
    var list: seq<Bio> := [];
    var cur, k: nat := Some(first), 0;
    while cur.Some?
      invariant list == [] && (cur.Some? ==> k == |pieces| && left.None?)
      invariant forall i :: 0 <= i < |pieces| ==> PieceOk(q, pieces[i])
      invariant bio.bvecs != [] ==> forall i :: 0 <= i < |pieces| ==> pieces[i].bvecs != []
      invariant cur.Some? ==> Remains(dev, bio, onPart, pieces, cur.value)
      invariant forall i :: 0 <= i < |pieces| ==>
        Start(dev, bio) <= pieces[i].sector && End(pieces[i]) <= Start(dev, bio) + BioSectors(bio)
      invariant cur.None? ==>
        (if left.Some? then Tiles(pieces, Flat(left.value.bvecs), left.value.sector, Start(dev, bio), bio)
         else pieces != [] && Tiles(pieces, [], End(Last(pieces)), Start(dev, bio), bio))
      invariant left.Some? ==> exists k :: !admit(k)
      invariant cur.Some? ==> events == Trace(|pieces|, between)
      invariant cur.None? ==> events == WholeTrace(|pieces| + (if left.Some? then 1 else 0), left.Some?, between)
      decreases if cur.Some? then BioSectors(cur.value) + 1 else 0
    {
      TraceNext(k, between);
      events := events + between(k).before;
      if admit(k) {
        var piece;
        piece, list := OneTurn(q, dev, bio, onPart, pieces, cur.value);
        if list != [] {
          events := events + [BioChain.Alloc(false)] + between(k).during + [BioChain.Chain(|pieces| + 1, 0)];
        }
        pieces := pieces + [piece];
      } else {
        left := cur;
        events := events + [BioChain.Endio(0)];
      }
      if list == [] { cur := None; } else { cur, list := Some(list[0]), list[1..]; }
      k := k + 1;
    }
    WholeTracePieces(|pieces| + (if left.Some? then 1 else 0), left.Some?, between);
  }

  lemma SameSize(a: Bio, b: Bio)
    requires a.bvecs == b.bvecs
    ensures BioSectors(a) == BioSectors(b)
  {
  }

  lemma StartTiles(first: Bio, bio: Bio)
    requires first.bvecs == bio.bvecs
    ensures Tiles([], Flat(first.bvecs), first.sector, first.sector, bio)
  {
    assert [] + Flat(first.bvecs) == Flat(first.bvecs);
  }

  lemma WholeTiles(piece: Bio, cur: Bio)
    requires piece.bvecs == cur.bvecs
    ensures Flat(piece.bvecs) + [] == Flat(cur.bvecs)
  {
  }
}
