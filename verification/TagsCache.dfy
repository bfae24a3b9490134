/**
Where depth changes lead the cache: blk_mq_tag_update_depth accepts depths for which a cached tag leaves the map.
Which ones is characterised exactly, over all runs.
*/
module TagsCache {
  import opened Arithmetic
  import opened Tags
  import opened TagsProofs

  // ---------------------------------------------------------------- the runs

  /** All depth changes of the run ask for one of `sizes`. */
  predicate Uses(events: seq<Event>, sizes: set<nat>) {
    forall i :: 0 <= i < |events| && events[i].Resize? ==> events[i].tdepth in sizes
  }

  /** The depths that the normal tags get when asked for one of `sizes`; the others are refused. */
  function Depths(u: Setup, sizes: set<nat>): set<nat> {
    set t | t in sizes && NormalDepth(u.nrReserved, t) <= u.nrTags :: NormalDepth(u.nrReserved, t)
  }

  /** The normal tags there are at first, and those there is room for. */
  function First(u: Setup): nat
    requires SetupOk(u)
  {
    u.nrTags - u.nrReserved
  }

  function Room(u: Setup): nat
    requires SetupOk(u)
  {
    Capacity(NewBitmap(First(u)))
  }

  /** What no step changes. */
  ghost predicate From(s: State, u: Setup)
    requires SetupOk(u)
  {
    s.nrTags == u.nrTags && s.nrReserved == u.nrReserved && Capacity(s.normal) == Room(u)
  }

  // ---------------------------------------------------------------- tags below a bound

  ghost predicate OffersBelow(bt: Bitmap, top: nat) {
    forall w, b :: 0 <= w < |bt.words| && 0 <= b < bt.words[w].depth ==> TagAt(bt, w, b) < top
  }

  ghost predicate PcBelow(s: State, pc: Pc, top: nat) {
    match pc
    case Try(x, b) => x.reserved || TagAt(s.normal, x.index, b) < top
    case Got(x, tag) => x.reserved || tag < top
    case _ => true
  }

  /** No normal tag from `top` on is offered, about to be taken, or held. */
  ghost predicate Below(s: State, top: nat) {
    && OffersBelow(s.normal, top)
    && (forall t :: 0 <= t < |s.threads| ==> PcBelow(s, s.threads[t], top))
    && (forall n :: n in s.held ==> n < s.nrReserved + top)
  }

  lemma SameOffers(bt: Bitmap, bt': Bitmap, top: nat)
    requires OffersBelow(bt, top) && bt'.per == bt.per && |bt'.words| == |bt.words|
    requires forall w :: 0 <= w < |bt.words| ==> bt'.words[w].depth == bt.words[w].depth
    ensures OffersBelow(bt', top)
  {
    forall w, b | 0 <= w < |bt'.words| && 0 <= b < bt'.words[w].depth ensures TagAt(bt', w, b) < top {
      assert TagAt(bt, w, b) < top;
    }
  }

  lemma BelowKept(s: State, s': State, top: nat)
    requires Below(s, top) && OffersBelow(s'.normal, top) && s'.normal.per == s.normal.per
    requires |s'.threads| == |s.threads| && s'.nrReserved == s.nrReserved
    requires forall t :: 0 <= t < |s.threads| ==> s'.threads[t] == s.threads[t] || PcBelow(s', s'.threads[t], top)
    requires forall n :: n in s'.held ==> n in s.held || n < s.nrReserved + top
    ensures Below(s', top)
  {
    forall t | 0 <= t < |s'.threads| ensures PcBelow(s', s'.threads[t], top) {
      assert PcBelow(s, s.threads[t], top);
    }
  }

  lemma LookBelow(s: State, t: Tid, x: Search, top: nat)
    requires Inv(s) && Below(s, top) && t < |s.threads| && s.threads[t] == Look(x)
    ensures Below(LookStep(s, t, x), top)
  {
    hide Bits;
    assert PcOk(s, s.threads[t]);
  }

  lemma TryBelow(s: State, t: Tid, x: Search, b: nat, top: nat)
    requires Inv(s) && Below(s, top) && t < |s.threads| && s.threads[t] == Try(x, b)
    ensures Below(TryStep(s, t, x, b), top)
  {
    hide Bits, OffersBelow;
    assert PcOk(s, s.threads[t]) && PcBelow(s, s.threads[t], top);
    var s' := TryStep(s, t, x, b);
    SameOffers(s.normal, s'.normal, top);
    BelowKept(s, s', top);
  }

  lemma PutBelow(s: State, number: nat, ctx: nat, top: nat)
    requires Below(s, top)
    ensures Below(PutTag(s, number, ctx), top)
  {
    hide OffersBelow, PcBelow;
    var s' := PutTag(s, number, ctx);
    SameOffers(s.normal, s'.normal, top);
    BelowKept(s, s', top);
  }

  lemma ResizeBelow(s: State, d: nat, top: nat)
    requires Below(s, top) && Min(d, Capacity(s.normal)) <= top
    ensures Below(s.(normal := UpdateCount(s.normal, d)), top)
  {
    hide PcBelow;
    var u := UpdateCount(s.normal, d);
    if d == 0 {
      SameOffers(s.normal, u, top);
    } else {
      forall w, b | 0 <= w < |u.words| && 0 <= b < u.words[w].depth ensures TagAt(u, w, b) < top {
        TagsArePairs(u, w, b);
        DepthsCover(s.normal, d, TagAt(u, w, b));
      }
    }
    BelowKept(s, s.(normal := u), top);
  }

  lemma StepBelow(s: State, e: Event, top: nat)
    requires Inv(s) && Below(s, top) && !e.Resize?
    ensures Below(Next(s, e), top)
  {
    hide Inv, LookStep, TryStep, PutTag;
    if Enabled(s, e) {
      match e {
        case Get(t, ctx, reserved) =>
        case Step(t) =>
          match s.threads[t] {
            case Idle =>
            case Look(x) => LookBelow(s, t, x, top);
            case Try(x, b) => TryBelow(s, t, x, b, top);
            case Got(x, tag) =>
          }
        case Put(number, ctx) => PutBelow(s, number, ctx, top);
      }
    }
  }

  // ---------------------------------------------------------------- caches inside the map

  ghost predicate Cached(s: State) {
    !s.outside && forall c :: 0 <= c < |s.caches| ==> s.caches[c] < Capacity(s.normal)
  }

  /** For no tag below `top` does the cache get a value beyond the map. */
  predicate Harmless(depth: nat, top: nat, room: nat) { top < room || (top == room && 1 <= depth <= room + 1) }

  lemma GotCached(s: State, t: Tid, x: Search, tag: nat, top: nat)
    requires Below(s, top) && Cached(s) && t < |s.threads| && s.threads[t] == Got(x, tag)
    requires Harmless(s.normal.depth, top, Capacity(s.normal))
    ensures Cached(GotStep(s, t, x, tag))
  {
    assert PcBelow(s, s.threads[t], top);
  }

  lemma LookCached(s: State, t: Tid, x: Search)
    requires Inv(s) && Cached(s) && t < |s.threads| && s.threads[t] == Look(x)
    ensures Cached(LookStep(s, t, x))
  {
    hide Bits, NextZero;
    assert PcOk(s, s.threads[t]);
    if !x.reserved { MulStep(s.normal.per, 0, |s.normal.words|); }
  }

  lemma PutCached(s: State, number: nat, ctx: nat)
    requires Inv(s) && Cached(s) && number in s.held
    ensures Cached(PutTag(s, number, ctx))
  {
    hide Threads;
    if number >= s.nrReserved {
      InCapacity(s.normal, number - s.nrReserved);
      assert TagBusy(s.normal, number - s.nrReserved);
    }
  }

  lemma GetCached(s: State, t: Tid, ctx: nat, reserved: bool)
    requires Cached(s) && t < |s.threads|
    ensures Cached(StartGet(s, t, ctx, reserved))
  {
    if !reserved && ctx < |s.caches| { InCapacity(s.normal, s.caches[ctx]); }
  }

  lemma StepCached(s: State, e: Event, top: nat)
    requires Inv(s) && Below(s, top) && Cached(s) && Harmless(s.normal.depth, top, Capacity(s.normal))
    ensures Cached(Next(s, e))
  {
    hide Inv, Below, StartGet, LookStep, GotStep, PutTag, Harmless, Clamp;
    if Enabled(s, e) {
      match e {
        case Get(t, ctx, reserved) => GetCached(s, t, ctx, reserved);
        case Step(t) =>
          match s.threads[t] {
            case Idle =>
            case Look(x) => LookCached(s, t, x);
            case Try(x, b) =>
            case Got(x, tag) => GotCached(s, t, x, tag, top);
          }
        case Put(number, ctx) => PutCached(s, number, ctx);
        case Resize(_) =>
      }
    }
  }

  // ---------------------------------------------------------------- over a run

  ghost predicate Bounded(s: State, u: Setup, top: nat)
    requires SetupOk(u)
  {
    Inv(s) && From(s, u) && Below(s, top)
  }

  ghost predicate Inside(s: State, u: Setup, top: nat)
    requires SetupOk(u)
  {
    Bounded(s, u, top) && Cached(s) && Harmless(s.normal.depth, top, Room(u))
  }

  lemma NextFrom(s: State, e: Event, u: Setup)
    requires SetupOk(u) && From(s, u)
    ensures From(Next(s, e), u)
    ensures Next(s, e).normal.depth == s.normal.depth
         || (e.Resize? && NormalDepth(u.nrReserved, e.tdepth) <= u.nrTags
             && Next(s, e).normal.depth == NormalDepth(u.nrReserved, e.tdepth))
  {
    hide NextZero, Clamp, NewBitmap;
  }

  lemma NextBounded(s: State, e: Event, u: Setup, sizes: set<nat>, top: nat)
    requires SetupOk(u) && Bounded(s, u, top) && (e.Resize? ==> e.tdepth in sizes)
    requires forall d :: d in Depths(u, sizes) ==> Min(d, Room(u)) <= top
    ensures Bounded(Next(s, e), u, top)
  {
    hide Inv, Below, StartGet, LookStep, TryStep, GotStep, PutTag, UpdateCount, Room;
    NextKeeps(s, e);
    NextFrom(s, e, u);
    if e.Resize? {
      var d := NormalDepth(u.nrReserved, e.tdepth);
      if d <= u.nrTags {
        assert d in Depths(u, sizes);
        ResizeBelow(s, d, top);
      }
    } else {
      StepBelow(s, e, top);
    }
  }

  lemma {:induction false} RunBounded(s: State, events: seq<Event>, u: Setup, sizes: set<nat>, top: nat)
    requires SetupOk(u) && Bounded(s, u, top) && Uses(events, sizes)
    requires forall d :: d in Depths(u, sizes) ==> Min(d, Room(u)) <= top
    ensures Bounded(Run(s, events), u, top)
    decreases |events|
  {
    hide Bounded, Next, Depths, Room;
    if events != [] {
      NextBounded(s, events[0], u, sizes, top);
      RunBounded(Next(s, events[0]), events[1..], u, sizes, top);
    }
  }

  lemma {:induction false} RunInside(s: State, events: seq<Event>, u: Setup, sizes: set<nat>, top: nat)
    requires SetupOk(u) && Inside(s, u, top) && Uses(events, sizes)
    requires forall d :: d in Depths(u, sizes) ==> Min(d, Room(u)) <= top && Harmless(d, top, Room(u))
    ensures Inside(Run(s, events), u, top)
    decreases |events|
  {
    hide Inv, Below, Cached, Next, Room, Harmless;
    if events != [] {
      NextBounded(s, events[0], u, sizes, top);
      NextFrom(s, events[0], u);
      StepCached(s, events[0], top);
      RunInside(Next(s, events[0]), events[1..], u, sizes, top);
    }
  }

  lemma InitBounded(u: Setup, top: nat)
    requires SetupOk(u) && First(u) <= top
    ensures Bounded(Init(u), u, top) && First(u) <= Room(u)
  {
    hide Inv, NewBitmap;
    var bt := NewBitmap(First(u));
    NewBitmapOk(First(u));
    InitInv(u);
    forall w, b | 0 <= w < |bt.words| && 0 <= b < bt.words[w].depth ensures TagAt(bt, w, b) < top {
      TagsArePairs(bt, w, b);
    }
  }

  // ---------------------------------------------------------------- runs that climb

  /** Nobody is searching, and there is somebody who could. */
  ghost predicate Calm(s: State) {
    Inv(s) && !s.outside && s.threads != [] && s.threads[0] == Idle && s.caches != []
  }

  predicate Offered(bt: Bitmap, tag: nat) {
    IndexOf(bt, tag) < |bt.words| && BitOf(bt, tag) < bt.words[IndexOf(bt, tag)].depth
  }

  /** One undisturbed get that succeeds at once. */
  const GET: seq<Event> := [Get(0, 0, false), Step(0), Step(0), Step(0)]

  lemma RunFour(s: State, rest: seq<Event>)
    ensures Run(s, GET + rest) == Run(Next(Next(Next(Next(s, GET[0]), GET[1]), GET[2]), GET[3]), rest)
  {
    hide Next;
    var events := GET + rest;
    assert events[1..][1..][1..][1..] == rest;
    assert Run(s, events) == Run(Next(s, GET[0]), events[1..]);
    assert Run(Next(s, GET[0]), events[1..]) == Run(Next(Next(s, GET[0]), GET[1]), events[1..][1..]);
  }

  /** A get whose cached tag is free takes it and moves the cache on. */
  function Took(s: State, c: nat): State
    requires s.caches != [] && IndexOf(s.normal, c) < |s.normal.words|
    requires BitOf(s.normal, c) < |s.normal.words[IndexOf(s.normal, c)].busy|
  {
    s.(normal := SetBit(s.normal, IndexOf(s.normal, c), BitOf(s.normal, c), true),
       caches := s.caches[0 := NewCache(s.normal.depth, c)],
       held := s.held[c + s.nrReserved := 0])
  }

  lemma OneGet(s: State, c: nat)
    requires Calm(s) && s.caches[0] == c && Offered(s.normal, c) && !TagBusy(s.normal, c)
    ensures Next(Next(Next(Next(s, GET[0]), GET[1]), GET[2]), GET[3]) == Took(s, c)
  {
    hide Bits, Threads;
    InCapacity(s.normal, c);
    var (w, b) := (IndexOf(s.normal, c), BitOf(s.normal, c));
    var x := Search(0, false, c, w, 0, b, b);
    var s1 := Next(s, GET[0]);
    assert s1 == Goto(s, 0, Look(x));
    var s2 := Next(s1, GET[1]);
    assert s2 == Goto(s1, 0, Try(x, b));
    var s3 := Next(s2, GET[2]);
    assert s3 == TryStep(s2, 0, x, b);
    assert s3.threads[0] == Got(x, c);
    var s4 := Next(s3, GET[3]);
    assert s4.threads == s.threads;
  }

  /** What a climb leaves alone. */
  ghost predicate SameShape(s: State, s': State) {
    && s'.nrReserved == s.nrReserved && s'.nrTags == s.nrTags && s'.rr == s.rr
    && s'.normal.depth == s.normal.depth && SameOffer(s.normal, s'.normal)
  }

  ghost predicate SameOffer(bt: Bitmap, bt': Bitmap) {
    && bt'.per == bt.per && |bt'.words| == |bt.words|
    && forall w :: 0 <= w < |bt.words| ==> bt'.words[w].depth == bt.words[w].depth
  }

  lemma TookOne(s: State, c: nat)
    requires Calm(s) && s.caches[0] == c && Offered(s.normal, c) && !TagBusy(s.normal, c)
    ensures Calm(Took(s, c)) && SameShape(s, Took(s, c)) && Took(s, c).caches[0] == NewCache(s.normal.depth, c)
    ensures forall tag: nat :: TagBusy(Took(s, c).normal, tag) == (TagBusy(s.normal, tag) || tag == c)
  {
    hide Bits, Threads, LookStep, TryStep, GotStep, StartGet;
    var s' := Took(s, c);
    OneGet(s, c);
    RunFour(s, []);
    assert GET + [] == GET;
    RunKeeps(s, GET);
    forall tag: nat ensures TagBusy(s'.normal, tag) == (TagBusy(s.normal, tag) || tag == c) {
      TookBusy(s, c, tag);
    }
  }

  lemma TookBusy(s: State, c: nat, tag: nat)
    requires BitmapOk(s.normal) && s.caches != [] && IndexOf(s.normal, c) < |s.normal.words|
    ensures BitmapOk(Took(s, c).normal)
    ensures TagBusy(Took(s, c).normal, tag) == (TagBusy(s.normal, tag) || tag == c)
  {
    InCapacity(s.normal, c);
    SetBitTags(s.normal, IndexOf(s.normal, c), BitOf(s.normal, c), true, tag);
  }

  function Climb(n: nat, rest: seq<Event>): seq<Event> { if n == 0 then rest else GET + Climb(n - 1, rest) }

  lemma {:induction false} ClimbUses(n: nat, rest: seq<Event>, sizes: set<nat>)
    requires Uses(rest, sizes)
    ensures Uses(Climb(n, rest), sizes)
  {
    if n > 0 { ClimbUses(n - 1, rest, sizes); }
  }

  /** With the tags from `lo` on free, undisturbed gets take them one by one, and the cache keeps step. */
  lemma {:induction false} Climbs(s: State, lo: nat, hi: nat, rest: seq<Event>) returns (s': State)
    requires Calm(s) && s.caches[0] == lo <= hi
    requires forall tag: nat :: lo <= tag < hi ==> Offered(s.normal, tag) && !TagBusy(s.normal, tag)
    requires forall tag: nat :: lo <= tag < hi - 1 ==> NewCache(s.normal.depth, tag) == tag + 1
    ensures s' == Run(s, Climb(hi - lo, [])) && Run(s, Climb(hi - lo, rest)) == Run(s', rest)
    ensures Calm(s') && SameShape(s, s')
    ensures s'.caches[0] == if lo == hi then lo else NewCache(s.normal.depth, hi - 1)
    ensures forall tag: nat :: TagBusy(s'.normal, tag) == (TagBusy(s.normal, tag) || lo <= tag < hi)
    decreases hi - lo
  {
    hide Bits, Threads, Next, NewCache, Took, TagBusy;
    s' := s;
    if lo < hi {
      OneGet(s, lo);
      TookOne(s, lo);
      RunFour(s, Climb(hi - lo - 1, rest));
      RunFour(s, Climb(hi - lo - 1, []));
      var m := Took(s, lo);
      if lo + 1 < hi {
        forall tag: nat | lo + 1 <= tag < hi ensures Offered(m.normal, tag) && !TagBusy(m.normal, tag) {
          assert Offered(s.normal, tag);
        }
        s' := Climbs(m, lo + 1, hi, rest);
      } else {
        s' := m;
      }
    }
  }

  // ---------------------------------------------------------------- beyond the map

  /** A depth for which even the last tag of the map moves the cache on, beyond the map. */
  lemma LeadsOutside(s: State, room: nat)
    requires Calm(s) && Capacity(s.normal) == room < UINT_MAX && s.caches[0] < room
    requires s.normal.depth == 0 || s.normal.depth >= room + 2
    requires forall tag: nat :: tag < room ==> Offered(s.normal, tag) && !TagBusy(s.normal, tag)
    ensures Run(s, Climb(room - s.caches[0], [Get(0, 0, false)])).outside
  {
    hide Bits, Threads, TagBusy;
    var s' := Climbs(s, s.caches[0], room, [Get(0, 0, false)]);
    assert s'.caches[0] == room && Capacity(s'.normal) == room;
    InCapacity(s'.normal, room);
    assert Next(s', Get(0, 0, false)).outside;
    assert Run(s', [Get(0, 0, false)]) == Next(s', Get(0, 0, false));
  }

  /** A change to an accepted depth of at least one offers the tags below it. */
  lemma Resized(s: State, t: nat)
    requires Calm(s) && NormalDepth(s.nrReserved, t) <= s.nrTags
    ensures var (s', d) := (Next(s, Resize(t)), NormalDepth(s.nrReserved, t));
      && Calm(s') && s'.normal.depth == d && s'.caches == s.caches
      && s'.nrReserved == s.nrReserved && s'.nrTags == s.nrTags
      && Capacity(s'.normal) == Capacity(s.normal)
      && (forall tag: nat :: TagBusy(s'.normal, tag) == TagBusy(s.normal, tag))
      && (forall tag: nat :: Offered(s'.normal, tag) <==>
            if d == 0 then Offered(s.normal, tag) else tag < d && tag < Capacity(s.normal))
  {
    hide Bits, Threads, Clamp;
    NextKeeps(s, Resize(t));
    var d := NormalDepth(s.nrReserved, t);
    if d > 0 {
      forall tag: nat
        ensures Offered(UpdateCount(s.normal, d), tag) <==> tag < d && tag < Capacity(s.normal)
      {
        DepthsCover(s.normal, d, tag);
      }
    }
  }

  lemma PerOfNew(depth: nat)
    requires depth > 0
    ensures NewBitmap(depth).per == PerWord(depth, 64)
  {
  }

  /** The depths are such that the cache never leaves the map: none is more than one beyond it, and depth zero,
      which leaves the words as they are, comes only where the last tag is never offered. */
  predicate Safe(u: Setup, sizes: set<nat>)
    requires SetupOk(u)
  {
    var depths := Depths(u, sizes);
    && (forall d :: d in depths ==> d <= Room(u) + 1)
    && (0 in depths ==> First(u) < Room(u) && forall d :: d in depths ==> d < Room(u))
  }

  lemma InitInside(u: Setup, top: nat)
    requires SetupOk(u) && First(u) <= top <= Room(u)
    ensures Inside(Init(u), u, top)
  {
    hide Bounded, NewBitmap;
    NewBitmapOk(First(u));
    InitBounded(u, top);
  }

  lemma SafeRuns(u: Setup, sizes: set<nat>, events: seq<Event>)
    requires SetupOk(u) && Safe(u, sizes) && Uses(events, sizes)
    ensures !Run(Init(u), events).outside
  {
    hide Bounded, Run, Init, Depths, Room;
    RoomBound(u);
    var top: nat := if 0 in Depths(u, sizes) then Room(u) - 1 else Room(u);
    InitInside(u, top);
    RunInside(Init(u), events, u, sizes, top);
  }

  lemma SizeOf(u: Setup, sizes: set<nat>, d: nat) returns (t: nat)
    requires d in Depths(u, sizes)
    ensures t in sizes && NormalDepth(u.nrReserved, t) == d <= u.nrTags
  {
    t :| t in sizes && NormalDepth(u.nrReserved, t) <= u.nrTags && NormalDepth(u.nrReserved, t) == d;
  }

  /** Nothing has been taken, and the cache of the first context is where it was put. */
  ghost predicate Untouched(s: State, u: Setup)
    requires SetupOk(u) && u.caches != []
  {
    Calm(s) && From(s, u) && s.caches == u.caches && forall tag: nat :: !TagBusy(s.normal, tag)
  }

  ghost predicate Full(s: State, room: nat) { forall tag: nat :: tag < room ==> Offered(s.normal, tag) }

  lemma ResizeUntouched(s: State, u: Setup, t: nat)
    requires SetupOk(u) && u.caches != [] && Untouched(s, u) && NormalDepth(u.nrReserved, t) <= u.nrTags
    ensures var (s', d) := (Next(s, Resize(t)), NormalDepth(u.nrReserved, t));
      && Untouched(s', u) && s'.normal.depth == d
      && (d >= Room(u) || (d == 0 && Full(s, Room(u))) ==> Full(s', Room(u)))
  {
    hide Offered, TagBusy, Capacity, NormalDepth, Next, Inv;
    Resized(s, t);
    assert Room(u) > 0 by { NewBitmapOk(First(u)); }
  }

  lemma UntouchedOutside(s: State, u: Setup)
    requires SetupOk(u) && u.caches != [] && u.nrTags <= 0x8000_0000 && Untouched(s, u) && Full(s, Room(u))
    requires s.normal.depth == 0 || s.normal.depth >= Room(u) + 2
    ensures u.caches[0] <= Room(u) && Run(s, Climb(Room(u) - u.caches[0], [Get(0, 0, false)])).outside
  {
    hide Inv, Offered, TagBusy, Capacity, Run, Climb, NewBitmap;
    RoomBound(u);
    LeadsOutside(s, Room(u));
  }

  lemma RoomBound(u: Setup)
    requires SetupOk(u)
    ensures First(u) <= Room(u) < First(u) + 64
  {
    hide NewBitmap;
    NewBitmapOk(First(u));
    PerWordSize(First(u), 64);
    PerOfNew(First(u));
  }

  lemma InitUntouched(u: Setup)
    requires SetupOk(u) && u.threads > 0 && u.caches != []
    ensures Untouched(Init(u), u)
    ensures forall tag: nat :: Offered(Init(u).normal, tag) <==> tag < First(u)
    ensures First(u) == Room(u) ==> Full(Init(u), Room(u))
  {
    hide Inv, NewBitmap, TagBusy;
    InitInv(u);
    NewBitmapOk(First(u));
  }

  /** Fill the words, by a depth of at least the capacity unless they are full already, make the depth one that
      does not stop the cache, and climb. */
  lemma UnsafeRun(u: Setup, sizes: set<nat>) returns (events: seq<Event>)
    requires SetupOk(u) && u.threads > 0 && u.caches != [] && u.nrTags <= 0x8000_0000 && !Safe(u, sizes)
    ensures Uses(events, sizes) && Run(Init(u), events).outside
  {
    hide Untouched, Full, Next, Depths, Init, NormalDepth, Room;
    var s := Init(u);
    InitUntouched(u);
    RoomBound(u);
    var last := Climb(Room(u) - u.caches[0], [Get(0, 0, false)]);
    ClimbUses(Room(u) - u.caches[0], [Get(0, 0, false)], sizes);
    if d :| d in Depths(u, sizes) && d >= Room(u) && (d >= Room(u) + 2 || 0 in Depths(u, sizes)) {
      var t := SizeOf(u, sizes, d);
      ResizeUntouched(s, u, t);
      var s1 := Next(s, Resize(t));
      if d >= Room(u) + 2 {
        events := [Resize(t)] + last;
        UntouchedOutside(s1, u);
      } else {
        var t0 := SizeOf(u, sizes, 0);
        ResizeUntouched(s1, u, t0);
        events := [Resize(t)] + ([Resize(t0)] + last);
        UntouchedOutside(Next(s1, Resize(t0)), u);
      }
    } else {
      var t0 := SizeOf(u, sizes, 0);
      ResizeUntouched(s, u, t0);
      events := [Resize(t0)] + last;
      UntouchedOutside(Next(s, Resize(t0)), u);
    }
  }

  /** The cache never leads outside the map, whatever the searches, puts and depth changes do, exactly when the
      depths asked for are safe. */
  lemma CacheSafeExactly(u: Setup, sizes: set<nat>)
    requires SetupOk(u) && u.threads > 0 && u.caches != [] && u.nrTags <= 0x8000_0000
    ensures (forall events :: Uses(events, sizes) ==> !Run(Init(u), events).outside) <==> Safe(u, sizes)
  {
    hide Init, Run, Safe, Uses;
    if Safe(u, sizes) {
      forall events | Uses(events, sizes) ensures !Run(Init(u), events).outside {
        SafeRuns(u, sizes, events);
      }
    } else {
      var events := UnsafeRun(u, sizes);
    }
  }

  /** blk_mq_update_nr_requests asks for at most the queue depth. That is safe exactly when it never asks for as
      many tags as are reserved, which would make the depth zero, or the last word of the map is not full. */
  lemma CallerSafeExactly(u: Setup, sizes: set<nat>)
    requires SetupOk(u) && u.nrTags <= 0x8000_0000 && forall nr :: nr in sizes ==> nr <= u.nrTags
    ensures Safe(u, sizes) <==> u.nrReserved !in sizes || First(u) < Room(u)
  {
    hide NewBitmap;
    NewBitmapOk(First(u));
    forall nr | nr in sizes
      ensures NormalDepth(u.nrReserved, nr) ==
        if nr >= u.nrReserved then nr - u.nrReserved else UINT_MAX + 1 + nr - u.nrReserved
    {
      CallerDepth(u.nrReserved, nr);
    }
    if u.nrReserved in sizes { assert 0 in Depths(u, sizes); }
  }

  lemma CallerDepth(nrReserved: nat, nr: nat)
    requires nr <= 0x8000_0000 && nrReserved <= 0x8000_0000
    ensures NormalDepth(nrReserved, nr) == if nr >= nrReserved then nr - nrReserved else UINT_MAX + 1 + nr - nrReserved
  {
  }

  /** With four of eight tags reserved, asking for four, as blk_mq_update_nr_requests may, leads outside the map
      at the second get; and with eight of twelve reserved, so does asking for twenty. */
  lemma LeadsOutsideRuns()
    ensures Run(Init(Setup(8, 4, false, 1, [3])), [Resize(4)] + (GET + [Get(0, 0, false)])).outside
    ensures Run(Init(Setup(12, 8, false, 1, [3])), [Resize(20)] + (GET + [Get(0, 0, false)])).outside
  {
    hide Run, Init;
    var (u, v) := (Setup(8, 4, false, 1, [3]), Setup(12, 8, false, 1, [3]));
    assert PerWord(4, 64) == PerWord(4, 32) == PerWord(4, 16) == PerWord(4, 8) == PerWord(4, 4) == PerWord(4, 2) == 1;
    OneGetOutside(u, 4);
    OneGetOutside(v, 20);
  }

  lemma OneGetOutside(u: Setup, t: nat)
    requires SetupOk(u) && u.threads > 0 && u.caches != [] && u.nrTags <= 0x8000_0000
    requires First(u) == Room(u) == u.caches[0] + 1
    requires NormalDepth(u.nrReserved, t) == 0 || u.nrTags >= NormalDepth(u.nrReserved, t) >= Room(u) + 2
    ensures Run(Init(u), [Resize(t)] + (GET + [Get(0, 0, false)])).outside
  {
    hide Untouched, Full, Next, Init, NormalDepth, Room;
    InitUntouched(u);
    ResizeUntouched(Init(u), u, t);
    UntouchedOutside(Next(Init(u), Resize(t)), u);
    assert Climb(1, [Get(0, 0, false)]) == GET + [Get(0, 0, false)];
  }
}
