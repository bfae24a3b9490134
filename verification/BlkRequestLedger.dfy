/**
Where the bytes are: over every run of submissions, merges, request merges and completions, each byte that was
accepted is in exactly one request, due at the place on the disk that it was submitted for, or has been completed.
*/
module BlkRequestLedger {
  import opened Segments
  import opened BlkRequest
  import opened BlkRequestProofs
  import opened BlkRequestData
  import opened BioSplit
  import opened BioSubmit

  /** A byte of memory and the byte on the disk it belongs to. */
  type Place = (nat, Addr)

  function Placed(at: nat, f: seq<Addr>): seq<Place> {
    seq(|f|, i requires 0 <= i < |f| => (at + i, f[i]))
  }

  lemma PlacedConcat(at: nat, a: seq<Addr>, b: seq<Addr>)
    ensures Placed(at, a + b) == Placed(at, a) + Placed(at + |a|, b)
  {
  }

  /** The bytes of `bs` from `sector` on. */
  function Bag(sector: nat, bs: seq<Bvec>): multiset<Place> { multiset(Placed(sector * SECTOR, Flat(bs))) }

  function RqBag(r: Rq): multiset<Place> { Bag(r.sector, AllBvecs(r.bios)) }

  function PoolBag(pool: seq<Rq>): multiset<Place> {
    if pool == [] then multiset{} else PoolBag(pool[..|pool| - 1]) + RqBag(pool[|pool| - 1])
  }

  // ---------------------------------------------------------------- bags

  lemma {:induction false} FlatConcat(a: seq<Bvec>, b: seq<Bvec>)
    ensures Flat(a + b) == Flat(a) + Flat(b)
    decreases |a|
  {
    hide FlatOne;
    if a == [] {
      assert a + b == b;
    } else {
      assert (a + b)[1..] == a[1..] + b && (a + b)[0] == a[0];
      FlatConcat(a[1..], b);
    }
  }

  /** Data that follows other data on the disk. */
  lemma BagConcat(sector: nat, a: seq<Bvec>, b: seq<Bvec>, next: nat)
    requires next * SECTOR == sector * SECTOR + Bytes(a)
    ensures Bag(sector, a + b) == Bag(sector, a) + Bag(next, b)
  {
    hide Placed, Flat;
    FlatConcat(a, b);
    FlatLength(a);
    PlacedConcat(sector * SECTOR, Flat(a), Flat(b));
  }

  lemma BagNone(sector: nat)
    ensures Bag(sector, []) == multiset{}
  {
  }

  lemma Swap(a: multiset<Place>, b: multiset<Place>, c: multiset<Place>)
    ensures a + b + c == a + c + b
  {
  }

  /** From three balances, that of the whole. */
  lemma Balance(p: multiset<Place>, p1: multiset<Place>, p2: multiset<Place>, i: multiset<Place>, o: multiset<Place>,
                i': multiset<Place>, o': multiset<Place>)
    requires p1 + o == p + i && p2 + o' == p1 + i'
    ensures p2 + (o + o') == p + (i + i')
  {
    forall x: Place ensures (p2 + (o + o'))[x] == (p + (i + i'))[x] {
      assert (p1 + o)[x] == (p + i)[x] && (p2 + o')[x] == (p1 + i')[x];
    }
    assert p2 + (o + o') == p + (i + i');
  }

  lemma More(p: multiset<Place>, p': multiset<Place>, r: multiset<Place>, x: multiset<Place>)
    requires p' + r == p + (r + x)
    ensures p' == p + x
  {
    forall y: Place ensures p'[y] == (p + x)[y] { assert (p' + r)[y] == (p + (r + x))[y]; }
    assert p' == p + x;
  }

  lemma Less(p: multiset<Place>, p': multiset<Place>, r: multiset<Place>, r': multiset<Place>, x: multiset<Place>)
    requires p' + r == p + r' && r == r' + x
    ensures p' + x == p
  {
    forall y: Place ensures (p' + x)[y] == p[y] { assert (p' + r)[y] == (p + r')[y] && r[y] == (r' + x)[y]; }
    assert p' + x == p;
  }

  lemma TwoUpdates(p: multiset<Place>, p1: multiset<Place>, p2: multiset<Place>,
                   x: multiset<Place>, y: multiset<Place>, a: multiset<Place>, b: multiset<Place>)
    requires p1 + x == p + a && p2 + y == p1 + b && a + b == x + y
    ensures p2 == p
  {
    forall z: Place ensures p2[z] == p[z] {
      assert (p1 + x)[z] == (p + a)[z] && (p2 + y)[z] == (p1 + b)[z] && (a + b)[z] == (x + y)[z];
    }
    assert p2 == p;
  }

  lemma {:induction false} PoolUpdate(pool: seq<Rq>, i: nat, r: Rq)
    requires i < |pool|
    ensures PoolBag(pool[i := r]) + RqBag(pool[i]) == PoolBag(pool) + RqBag(r)
    decreases |pool|
  {
    hide RqBag;
    var (init, last) := (pool[..|pool| - 1], pool[|pool| - 1]);
    if i == |pool| - 1 {
      assert pool[i := r][..i] == init;
      Swap(PoolBag(init), RqBag(r), RqBag(last));
    } else {
      PoolUpdate(init, i, r);
      assert pool[i := r][..|pool| - 1] == init[i := r];
      Swap(PoolBag(init[i := r]), RqBag(last), RqBag(pool[i]));
      Swap(PoolBag(init), RqBag(last), RqBag(r));
    }
  }

  // ---------------------------------------------------------------- one operation

  /** What the operation brings in: the data of a bio that was accepted. */
  ghost function Brought(lim: Limits, pool: seq<Rq>, op: Op): multiset<Place> {
    if !Enabled(lim, pool, op) then multiset{}
    else
      match op
      case Submit(bio) => Bag(bio.sector, bio.bvecs)
      case Back(i, bio) => if BackMerge(lim, pool[i], bio).2 then Bag(bio.sector, bio.bvecs) else multiset{}
      case Front(i, bio) => if FrontMerge(lim, pool[i], bio).2 then Bag(bio.sector, bio.bvecs) else multiset{}
      case _ => multiset{}
  }

  /** What it completes: the first bytes of a request. */
  ghost function Finished(lim: Limits, pool: seq<Rq>, op: Op): multiset<Place> {
    if Enabled(lim, pool, op) && op.Complete? then
      Bag(pool[op.i].sector, TakeBytes(AllBvecs(pool[op.i].bios), op.n))
    else multiset{}
  }

  lemma NewBag(lim: Limits, pool: seq<Rq>, bio: Bio)
    ensures PoolBag(pool + [NewRequest(lim, bio)]) == PoolBag(pool) + Bag(bio.sector, bio.bvecs)
  {
    hide Validated, AllBvecs, Bag;
    ValidatedData(lim, bio);
    AllBvecsOne(Validated(lim, bio));
    assert (pool + [NewRequest(lim, bio)])[..|pool|] == pool;
  }

  lemma Sectors(lim: Limits, r: Rq)
    requires RqOk(lim, r)
    ensures r.dataLen == Bytes(AllBvecs(r.bios)) && RqSectors(r) * SECTOR == r.dataLen
  {
    AllBvecsOk(r.bios);
    BytesWhole(AllBvecs(r.bios));
  }

  lemma BackBag(lim: Limits, r: Rq, bio: Bio)
    requires RqOk(lim, r) && r.bios != [] && r.sector + RqSectors(r) == bio.sector
    ensures var (r', _, merged) := BackMerge(lim, r, bio);
      RqBag(r') == RqBag(r) + (if merged then Bag(bio.sector, bio.bvecs) else multiset{})
  {
    hide RqOk, Bag, BackMerge, AllBvecs, Bytes;
    BackMergeData(lim, r, bio);
    Sectors(lim, r);
    BagConcat(r.sector, AllBvecs(r.bios), bio.bvecs, bio.sector);
    assert AllBvecs(r.bios) + [] == AllBvecs(r.bios);
  }

  lemma FrontBag(lim: Limits, r: Rq, bio: Bio)
    requires BioOk(lim, bio) && r.bios != [] && bio.sector + BioSectors(bio) == r.sector
    ensures var (r', _, merged) := FrontMerge(lim, r, bio);
      RqBag(r') == RqBag(r) + (if merged then Bag(bio.sector, bio.bvecs) else multiset{})
  {
    hide Bag, FrontMerge, AllBvecs, Bytes, Fits;
    FrontMergeData(lim, r, bio);
    BytesWhole(bio.bvecs);
    BagConcat(bio.sector, bio.bvecs, AllBvecs(r.bios), r.sector);
    assert [] + AllBvecs(r.bios) == AllBvecs(r.bios);
  }

  lemma MergeBag(lim: Limits, req: Rq, next: Rq, compatible: bool)
    requires RqOk(lim, req) && RqOk(lim, next) && req.bios != [] && next.bios != []
    ensures var (a, b, _) := AttemptMerge(lim, req, next, compatible);
      RqBag(a) + RqBag(b) == RqBag(req) + RqBag(next)
  {
    hide RqOk, Bag, AttemptMerge, AllBvecs, Bytes, JoinsUp, GapBetween;
    AttemptMergeData(lim, req, next, compatible);
    Sectors(lim, req);
    BagNone(next.sector);
    assert AllBvecs(req.bios) + [] == AllBvecs(req.bios);
    if AttemptMerge(lim, req, next, compatible).2 {
      BagConcat(req.sector, AllBvecs(req.bios), AllBvecs(next.bios), next.sector);
    }
  }

  lemma CompleteBag(lim: Limits, r: Rq, n: nat)
    requires RqOk(lim, r) && n % SECTOR == 0
    ensures RqBag(r) == RqBag(UpdateRequest(lim, r, n).0) + Bag(r.sector, TakeBytes(AllBvecs(r.bios), n))
  {
    hide Bag, AllBvecs, Bytes, SegBound, UpdateRequest, TakeBytes, DropBytes, Flat;
    var bs := AllBvecs(r.bios);
    AllBvecsOk(r.bios);
    AllBvecsNone();
    if r.bios == [] {
      NothingToDo(lim, r, n);
    } else {
      CompletionExact(lim, r, n);
      CutBag(r.sector, bs, n);
      BagNone(r.sector + n / SECTOR);
      BagNone(UpdateRequest(lim, r, n).0.sector);
      DropBytesOk(bs, n);
    }
  }

  lemma NothingToDo(lim: Limits, r: Rq, n: nat)
    requires r.bios == []
    ensures UpdateRequest(lim, r, n).0 == r && Bag(r.sector, TakeBytes(AllBvecs(r.bios), n)) == multiset{}
  {
    BagNone(r.sector);
  }

  lemma CutBag(sector: nat, bs: seq<Bvec>, n: nat)
    requires BvecsOk(bs) && n % SECTOR == 0
    ensures Bag(sector, bs) == Bag(sector, TakeBytes(bs, n)) + Bag(sector + n / SECTOR, DropBytes(bs, n))
  {
    hide Placed, Flat, TakeBytes, DropBytes, Bytes, BvecsOk;
    FlatCut(bs, n);
    TakeOk(bs, n);
    DropBytesOk(bs, n);
    FlatLength(TakeBytes(bs, n));
    FlatLength(DropBytes(bs, n));
    var (a, b) := (Flat(TakeBytes(bs, n)), Flat(DropBytes(bs, n)));
    PlacedConcat(sector * SECTOR, a, b);
    if n > Bytes(bs) {
      PlacedNone(sector * SECTOR + |a|, b);
      PlacedNone((sector + n / SECTOR) * SECTOR, b);
    }
  }

  lemma PlacedNone(at: nat, f: seq<Addr>)
    requires |f| == 0
    ensures Placed(at, f) == []
  {
  }

  /** What is in the pool afterwards and what was completed is what was there and what was brought. */
  lemma StepConserves(lim: Limits, pool: seq<Rq>, op: Op)
    requires AllOk(lim, pool)
    ensures PoolBag(Next(lim, pool, op)) + Finished(lim, pool, op) == PoolBag(pool) + Brought(lim, pool, op)
  {
    hide RqOk, RqBag, Bag, PoolBag, BackMerge, FrontMerge, AttemptMerge, UpdateRequest, NewRequest, BioOk, TakeBytes;
    if Enabled(lim, pool, op) {
      match op {
        case Submit(bio) => NewBag(lim, pool, bio);
        case Back(i, bio) =>
          BackBag(lim, pool[i], bio);
          PoolUpdate(pool, i, BackMerge(lim, pool[i], bio).0);
          More(PoolBag(pool), PoolBag(Next(lim, pool, op)), RqBag(pool[i]), Brought(lim, pool, op));
        case Front(i, bio) =>
          FrontBag(lim, pool[i], bio);
          PoolUpdate(pool, i, FrontMerge(lim, pool[i], bio).0);
          More(PoolBag(pool), PoolBag(Next(lim, pool, op)), RqBag(pool[i]), Brought(lim, pool, op));
        case Merge(i, j, compatible) =>
          MergeBag(lim, pool[i], pool[j], compatible);
          var (a, b, _) := AttemptMerge(lim, pool[i], pool[j], compatible);
          PoolUpdate(pool, i, a);
          PoolUpdate(pool[i := a], j, b);
          TwoUpdates(PoolBag(pool), PoolBag(pool[i := a]), PoolBag(pool[i := a][j := b]),
                     RqBag(pool[i]), RqBag(pool[j]), RqBag(a), RqBag(b));
        case Complete(i, n) =>
          CompleteBag(lim, pool[i], n);
          PoolUpdate(pool, i, UpdateRequest(lim, pool[i], n).0);
          Less(PoolBag(pool), PoolBag(Next(lim, pool, op)), RqBag(pool[i]), RqBag(UpdateRequest(lim, pool[i], n).0),
               Bag(pool[i].sector, TakeBytes(AllBvecs(pool[i].bios), n)));
          OpOfBag(lim, pool, i, n);
      }
    }
  }

  lemma OpOfBag(lim: Limits, pool: seq<Rq>, i: nat, n: nat)
    requires Enabled(lim, pool, Complete(i, n))
    ensures Finished(lim, pool, Complete(i, n)) == Bag(pool[i].sector, TakeBytes(AllBvecs(pool[i].bios), n))
  {
  }

  // ---------------------------------------------------------------- any run

  ghost function AllBrought(lim: Limits, pool: seq<Rq>, ops: seq<Op>): multiset<Place>
    decreases |ops|
  {
    if ops == [] then multiset{}
    else Brought(lim, pool, ops[0]) + AllBrought(lim, Next(lim, pool, ops[0]), ops[1..])
  }

  ghost function AllFinished(lim: Limits, pool: seq<Rq>, ops: seq<Op>): multiset<Place>
    decreases |ops|
  {
    if ops == [] then multiset{}
    else Finished(lim, pool, ops[0]) + AllFinished(lim, Next(lim, pool, ops[0]), ops[1..])
  }

  lemma {:induction false} RunConserves(lim: Limits, pool: seq<Rq>, ops: seq<Op>)
    requires AllOk(lim, pool)
    ensures PoolBag(Run(lim, pool, ops)) + AllFinished(lim, pool, ops) == PoolBag(pool) + AllBrought(lim, pool, ops)
    decreases |ops|
  {
    hide AllOk, Next, PoolBag, Brought, Finished;
    if ops != [] {
      BlkRequestProofs.NextKeeps(lim, pool, ops[0]);
      StepConserves(lim, pool, ops[0]);
      var pool1 := Next(lim, pool, ops[0]);
      RunConserves(lim, pool1, ops[1..]);
      Balance(PoolBag(pool), PoolBag(pool1), PoolBag(Run(lim, pool, ops)), Brought(lim, pool, ops[0]),
              Finished(lim, pool, ops[0]), AllBrought(lim, pool1, ops[1..]), AllFinished(lim, pool1, ops[1..]));
    }
  }

  /** From an empty pool: every byte accepted is still to be transferred, once and to its place, or was completed. */
  lemma EveryByteOnce(lim: Limits, ops: seq<Op>)
    ensures PoolBag(Run(lim, [], ops)) + AllFinished(lim, [], ops) == AllBrought(lim, [], ops)
  {
    hide Run, AllBrought, AllFinished;
    RunConserves(lim, [], ops);
  }
}
