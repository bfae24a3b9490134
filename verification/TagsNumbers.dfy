/**
The request table (tags->rqs) has an entry for each of the queue's tags. Which depth changes keep every tag that
is handed out inside it, over all runs.
*/
module TagsNumbers {
  import opened Arithmetic
  import opened Tags
  import opened TagsProofs
  import opened TagsCache
  import opened TagsAlone

  /** No depth offers more normal tags than there were at first; or there is no room for more. */
  predicate Tabled(u: Setup, sizes: set<nat>)
    requires SetupOk(u)
  {
    Room(u) == First(u) || forall d :: d in Depths(u, sizes) ==> d <= First(u)
  }

  lemma TabledRuns(u: Setup, sizes: set<nat>, events: seq<Event>, n: nat)
    requires SetupOk(u) && Tabled(u, sizes) && Uses(events, sizes) && n in Run(Init(u), events).held
    ensures n < u.nrTags
  {
    hide Inv, Run, Next, Depths, Room;
    InitBounded(u, First(u));
    RunBounded(Init(u), events, u, sizes, First(u));
  }

  /** Whatever depths are asked for, a number that is put back passes the BUG_ON of blk_mq_put_tag. */
  lemma PutNeverBugs(u: Setup, events: seq<Event>, n: nat)
    requires SetupOk(u) && n in Run(Init(u), events).held
    ensures n >= u.nrReserved ==> n - u.nrReserved < u.nrTags
  {
    hide Inv, Run, Next, Room;
    var sizes := Asked(events);
    InitBounded(u, u.nrTags);
    RunBounded(Init(u), events, u, sizes, u.nrTags);
  }

  /** The depths a run asks for. */
  ghost function Asked(events: seq<Event>): (sizes: set<nat>)
    ensures Uses(events, sizes)
  {
    set i | 0 <= i < |events| && events[i].Resize? :: events[i].tdepth
  }

  // ---------------------------------------------------------------- a search past busy tags

  lemma {:induction false} StepsUse(n: nat, sizes: set<nat>)
    ensures Uses(Steps(0, n), sizes)
  {
    if n > 0 { StepsUse(n - 1, sizes); }
  }

  /** Thread 0 is searching, not yet past `target`, the lowest tag that is free. */
  ghost predicate Seeks(s: State, x: Search, target: nat) {
    && Inv(s) && !s.outside && s.threads != [] && s.threads[0] == Look(x) && !x.reserved
    && Offered(s.normal, target) && !TagBusy(s.normal, target)
    && (forall tag: nat :: tag < target ==> TagBusy(s.normal, tag))
    && x.tried <= x.index <= IndexOf(s.normal, target)
    && (x.index == IndexOf(s.normal, target) ==> x.bit <= BitOf(s.normal, target))
  }

  lemma BusyBefore(bt: Bitmap, target: nat, w: nat, b: nat)
    requires BitmapOk(bt) && w < |bt.words| && b < bt.per
    requires forall tag: nat :: tag < target ==> TagBusy(bt, tag)
    requires w < IndexOf(bt, target) || (w == IndexOf(bt, target) && b < BitOf(bt, target))
    ensures bt.words[w].busy[b]
  {
    TagsArePairs(bt, w, b);
    InCapacity(bt, target);
    if w < IndexOf(bt, target) { MulStep(bt.per, w, IndexOf(bt, target)); }
    assert TagBusy(bt, TagAt(bt, w, b));
  }

  /** In the word of the target the next zero bit is the target's; in the words before there is none. */
  lemma NextZeroSeen(s: State, x: Search, target: nat)
    requires Seeks(s, x, target)
    ensures x.index < |s.normal.words| && s.normal.words[x.index].depth <= |s.normal.words[x.index].busy|
    ensures var word := s.normal.words[x.index];
      NextZero(word.busy, word.depth, x.bit) ==
        if x.index == IndexOf(s.normal, target) then BitOf(s.normal, target) else word.depth
  {
    hide Bits, Threads;
    InCapacity(s.normal, target);
    var word := s.normal.words[x.index];
    var b := NextZero(word.busy, word.depth, x.bit);
    if b < word.depth && !(x.index == IndexOf(s.normal, target) && b >= BitOf(s.normal, target)) {
      BusyBefore(s.normal, target, x.index, b);
    }
  }

  lemma {:induction false} Finds(s: State, x: Search, target: nat) returns (n: nat)
    requires Seeks(s, x, target)
    ensures target + s.nrReserved in Run(s, Steps(0, n)).held
    decreases IndexOf(s.normal, target) - x.index, x.bit
  {
    hide Inv, TagBusy, StartGet, GotStep, PutTag, NextZero;
    NextZeroSeen(s, x, target);
    NextKeeps(s, Step(0));
    var s1 := Next(s, Step(0));
    assert Next(s, Step(0)) == LookStep(s, 0, x);
    if x.index == IndexOf(s.normal, target) {
      n := 2;
      var b := BitOf(s.normal, target);
      InCapacity(s.normal, target);
      assert s1 == Goto(s, 0, Try(x, b));
      assert Steps(0, 2)[1..] == Steps(0, 1) && Steps(0, 1)[1..] == [];
      assert Run(s, Steps(0, 2)) == Next(s1, Step(0));
      assert Next(s1, Step(0)) == TryStep(s1, 0, x, b);
    } else {
      var x' := if x.orgBit != 0 && x.bit != 0 && !s.rr then x.(orgBit := 0, bit := 0)
                else x.(index := x.index + 1, tried := x.tried + 1, orgBit := 0, bit := 0);
      assert s1 == Goto(s, 0, Look(x'));
      var m := Finds(s1, x', target);
      n := m + 1;
      assert Steps(0, n)[1..] == Steps(0, m);
    }
  }

  // ---------------------------------------------------------------- beyond the table

  /** Two or more beyond: the cache itself gets there. */
  lemma FarBeyond(s: State, u: Setup)
    requires SetupOk(u) && u.caches != [] && Untouched(s, u) && s.normal.depth >= First(u) + 2
    requires forall tag: nat :: tag <= First(u) ==> Offered(s.normal, tag)
    ensures u.nrTags in Run(s, Climb(First(u) - u.caches[0], GET)).held
  {
    hide Inv, Offered, TagBusy, Capacity, Room, Run, SameOffer, Climb;
    var s' := Climbs(s, u.caches[0], First(u), GET);
    OfferedSame(s, s', First(u));
    GetHolds(s', First(u));
  }

  lemma GetHolds(s: State, c: nat)
    requires Calm(s) && s.caches[0] == c && Offered(s.normal, c) && !TagBusy(s.normal, c)
    ensures c + s.nrReserved in Run(s, GET).held
  {
    hide Bits, Threads, Next;
    OneGet(s, c);
    RunFour(s, []);
    assert GET + [] == GET;
  }

  lemma OfferedSame(s: State, s': State, tag: nat)
    requires SameShape(s, s')
    ensures Offered(s'.normal, tag) == Offered(s.normal, tag)
  {
  }

  /** One beyond: the cache turns back, and a search has to pass all the tags there were at first. */
  lemma JustBeyond(s: State, u: Setup) returns (n: nat)
    requires SetupOk(u) && u.caches != [] && Untouched(s, u) && s.normal.depth == First(u) + 1
    requires forall tag: nat :: tag <= First(u) ==> Offered(s.normal, tag)
    ensures u.nrTags in
      Run(s, Climb(First(u) - u.caches[0], Climb(u.caches[0], [Get(0, 0, false)] + Steps(0, n)))).held
  {
    hide Inv, Offered, TagBusy, Next, Capacity, Room, SameOffer, Steps;
    var c := u.caches[0];
    var s1 := Climbs(s, c, First(u), []);
    forall tag: nat | tag < c ensures Offered(s1.normal, tag) { OfferedSame(s, s1, tag); }
    var s2 := Climbs(s1, 0, c, []);
    OfferedSame(s, s1, First(u));
    OfferedSame(s1, s2, First(u));
    n := LastOne(s2, c, First(u));
    var rest := [Get(0, 0, false)] + Steps(0, n);
    var r1 := Climbs(s, c, First(u), Climb(c, rest));
    var r2 := Climbs(s1, 0, c, rest);
    assert rest[1..] == Steps(0, n);
  }

  /** With every tag below `target` busy, a search from one of them ends at `target`. */
  lemma LastOne(s: State, c: nat, target: nat) returns (n: nat)
    requires Calm(s) && s.caches[0] == c < target && Offered(s.normal, target) && !TagBusy(s.normal, target)
    requires forall tag: nat :: tag < target ==> TagBusy(s.normal, tag)
    ensures target + s.nrReserved in Run(Next(s, Get(0, 0, false)), Steps(0, n)).held
  {
    hide Bits, Threads, LookStep, TryStep, GotStep, PutTag;
    NextKeeps(s, Get(0, 0, false));
    InCapacity(s.normal, c);
    InCapacity(s.normal, target);
    var (i, j) := (IndexOf(s.normal, c), IndexOf(s.normal, target));
    if i > j { MulStep(s.normal.per, j, i); }
    var b := BitOf(s.normal, c);
    var x := Search(0, false, c, i, 0, b, b);
    assert Next(s, Get(0, 0, false)) == Goto(s, 0, Look(x));
    n := Finds(Next(s, Get(0, 0, false)), x, target);
  }

  lemma UntabledRun(u: Setup, sizes: set<nat>) returns (events: seq<Event>)
    requires SetupOk(u) && u.threads > 0 && u.caches != [] && !Tabled(u, sizes)
    ensures Uses(events, sizes) && u.nrTags in Run(Init(u), events).held
  {
    hide Untouched, Offered, Next, Depths, Init, NormalDepth, Run, Climb, Steps, Room;
    InitUntouched(u);
    RoomBound(u);
    var d :| d in Depths(u, sizes) && d > First(u);
    var t := SizeOf(u, sizes, d);
    ResizeUntouched(Init(u), u, t);
    var s := Next(Init(u), Resize(t));
    ResizeOffers(Init(u), u, t);
    var c := u.caches[0];
    var rest: seq<Event>;
    if d == First(u) + 1 {
      var n := JustBeyond(s, u);
      rest := Climb(First(u) - c, Climb(c, [Get(0, 0, false)] + Steps(0, n)));
      StepsUse(n, sizes);
      ClimbUses(c, [Get(0, 0, false)] + Steps(0, n), sizes);
      ClimbUses(First(u) - c, Climb(c, [Get(0, 0, false)] + Steps(0, n)), sizes);
    } else {
      FarBeyond(s, u);
      rest := Climb(First(u) - c, GET);
      ClimbUses(First(u) - c, GET, sizes);
    }
    events := [Resize(t)] + rest;
    RunAfter(Init(u), Resize(t), rest);
  }

  lemma RunAfter(s: State, e: Event, rest: seq<Event>)
    ensures Run(s, [e] + rest) == Run(Next(s, e), rest)
  {
    hide Next;
    assert ([e] + rest)[1..] == rest;
  }

  lemma ResizeOffers(s: State, u: Setup, t: nat)
    requires SetupOk(u) && u.caches != [] && Untouched(s, u)
    requires First(u) < NormalDepth(u.nrReserved, t) <= u.nrTags && First(u) < Room(u)
    ensures forall tag: nat :: tag <= First(u) ==> Offered(Next(s, Resize(t)).normal, tag)
  {
    hide Offered, TagBusy, Next, Capacity, NormalDepth;
    Resized(s, t);
  }

  /** Every tag that is handed out is an index of the request table, whatever the searches, puts and depth changes
      do, exactly when no depth offers more tags than there were at first, or there is no room for more. */
  lemma NumbersTabledExactly(u: Setup, sizes: set<nat>)
    requires SetupOk(u) && u.threads > 0 && u.caches != []
    ensures (forall events, n :: Uses(events, sizes) && n in Run(Init(u), events).held ==> n < u.nrTags)
      <==> Tabled(u, sizes)
  {
    hide Init, Run, Tabled, Uses;
    if Tabled(u, sizes) {
      forall events, n | Uses(events, sizes) && n in Run(Init(u), events).held ensures n < u.nrTags {
        TabledRuns(u, sizes, events, n);
      }
    } else {
      var events := UntabledRun(u, sizes);
    }
  }

  /** So it is when blk_mq_update_nr_requests, which asks for at most the queue depth, is the only caller. */
  lemma CallerTabled(u: Setup, sizes: set<nat>)
    requires SetupOk(u) && u.nrTags <= 0x8000_0000 && forall nr :: nr in sizes ==> nr <= u.nrTags
    ensures Tabled(u, sizes)
  {
    hide Room;
    forall nr | nr in sizes
      ensures NormalDepth(u.nrReserved, nr) ==
        if nr >= u.nrReserved then nr - u.nrReserved else UINT_MAX + 1 + nr - u.nrReserved
    {
      CallerDepth(u.nrReserved, nr);
    }
  }
}
