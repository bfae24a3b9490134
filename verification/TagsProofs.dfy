/**
The tag allocator over every interleaving of gets, puts and changes to any depth: a tag has one holder, and
reserved and normal tags keep apart.
*/
module TagsProofs {
  import opened Arithmetic
  import opened Tags

  // ---------------------------------------------------------------- tags and (word, bit) pairs

  lemma InCapacity(bt: Bitmap, tag: nat)
    ensures IndexOf(bt, tag) < |bt.words| <==> tag < Capacity(bt)
    ensures tag == TagAt(bt, IndexOf(bt, tag), BitOf(bt, tag)) && BitOf(bt, tag) < bt.per
  {
    var q := tag / bt.per;
    DivMod(tag, bt.per);
    if q < |bt.words| { MulStep(bt.per, q, |bt.words|); }
    if q > |bt.words| { MulStep(bt.per, |bt.words|, q); }
  }

  /** Tags and (word, bit) pairs correspond one to one. */
  lemma TagsArePairs(bt: Bitmap, w: nat, b: nat)
    requires b < bt.per
    ensures IndexOf(bt, TagAt(bt, w, b)) == w && BitOf(bt, TagAt(bt, w, b)) == b
    ensures w < |bt.words| <==> TagAt(bt, w, b) < Capacity(bt)
  {
    DivUnique(TagAt(bt, w, b), bt.per, w, b);
    InCapacity(bt, TagAt(bt, w, b));
  }

  /** After bt_update_count a tag is inside its word's depth exactly when it is below both the new depth and
      the capacity. */
  lemma DepthsCover(bt: Bitmap, depth: nat, tag: nat)
    requires depth >= 1
    ensures var u := UpdateCount(bt, depth);
      IndexOf(u, tag) < |u.words| && BitOf(u, tag) < u.words[IndexOf(u, tag)].depth
      <==> tag < depth && tag < Capacity(u)
  {
    InCapacity(bt, tag);
    var u := UpdateCount(bt, depth);
    assert Capacity(u) == Capacity(bt);
    var (w, b) := (IndexOf(bt, tag), BitOf(bt, tag));
    assert tag == w * bt.per + b;
  }

  // ---------------------------------------------------------------- invariant

  predicate TagBusy(bt: Bitmap, tag: nat)
    requires BitmapOk(bt)
  {
    IndexOf(bt, tag) < |bt.words| && bt.words[IndexOf(bt, tag)].busy[BitOf(bt, tag)]
  }

  ghost predicate Maps(s: State) {
    && BitmapOk(s.normal) && BitmapOk(s.reserve)
    && (forall w, b :: 0 <= w < |s.reserve.words| && 0 <= b < s.reserve.words[w].depth ==>
          TagAt(s.reserve, w, b) < s.nrReserved)
  }

  /** A number is held exactly when its bit is set; reserved bits belong to reserved numbers. */
  ghost predicate Bits(s: State)
    requires Maps(s)
  {
    && (forall n: nat :: n in s.held <==>
          if n < s.nrReserved then TagBusy(s.reserve, n) else TagBusy(s.normal, n - s.nrReserved))
    && (forall tag: nat :: TagBusy(s.reserve, tag) ==> tag < s.nrReserved)
  }

  ghost predicate PcOk(s: State, pc: Pc)
    requires Maps(s)
  {
    match pc
    case Idle => true
    case Look(x) => x.index < |MapOf(s, x.reserved).words|
    case Try(x, b) =>
      && x.index < |MapOf(s, x.reserved).words| && b < MapOf(s, x.reserved).per
      && (x.reserved ==> b < s.reserve.words[x.index].depth)
    case Got(_, _) => true
  }

  ghost predicate Threads(s: State)
    requires Maps(s)
  {
    forall t :: 0 <= t < |s.threads| ==> PcOk(s, s.threads[t])
  }

  ghost predicate Inv(s: State) { Maps(s) && Bits(s) && Threads(s) }

  // ---------------------------------------------------------------- steps

  /** Only the threads, and perhaps a cache, changed. */
  lemma Unmoved(s: State, s': State, t: Tid)
    requires Inv(s) && t < |s.threads|
    requires s' == s.(threads := s'.threads, caches := s'.caches, outside := s'.outside)
    requires |s'.threads| == |s.threads| && s'.threads == s.threads[t := s'.threads[t]] && PcOk(s, s'.threads[t])
    ensures Inv(s')
  {
    forall u | 0 <= u < |s'.threads| ensures PcOk(s', s'.threads[u]) {
      assert PcOk(s, s.threads[u]);
    }
  }

  lemma StartKeeps(s: State, t: Tid, ctx: nat, reserved: bool)
    requires Inv(s) && t < |s.threads|
    ensures Inv(StartGet(s, t, ctx, reserved))
  {
    hide Bits;
    var s' := StartGet(s, t, ctx, reserved);
    assert PcOk(s, s.threads[t]);
    Unmoved(s, s', t);
  }

  lemma NextWordKeeps(s: State, t: Tid, x: Search)
    requires Inv(s) && t < |s.threads| && x.index < |MapOf(s, x.reserved).words|
    ensures Inv(NextWord(s, t, x))
  {
    hide Bits;
    Unmoved(s, NextWord(s, t, x), t);
  }

  lemma LookKeeps(s: State, t: Tid, x: Search)
    requires Inv(s) && t < |s.threads| && s.threads[t] == Look(x)
    ensures Inv(LookStep(s, t, x))
  {
    hide Bits, NextWord;
    assert PcOk(s, s.threads[t]);
    var bt := MapOf(s, x.reserved);
    var word := bt.words[x.index];
    var b := NextZero(word.busy, word.depth, x.bit);
    if b < word.depth || (x.orgBit != 0 && x.bit != 0 && !s.rr) {
      Unmoved(s, LookStep(s, t, x), t);
    } else {
      NextWordKeeps(s, t, x);
    }
  }

  lemma GotKeeps(s: State, t: Tid, x: Search, tag: nat)
    requires Inv(s) && t < |s.threads| && s.threads[t] == Got(x, tag)
    ensures Inv(GotStep(s, t, x, tag))
  {
    hide Bits;
    assert PcOk(s, s.threads[t]);
    Unmoved(s, GotStep(s, t, x, tag), t);
  }

  /** Changing one bit changes the standing of one tag. */
  lemma SetBitTags(bt: Bitmap, w: nat, b: nat, value: bool, tag: nat)
    requires BitmapOk(bt) && w < |bt.words| && b < bt.per
    ensures BitmapOk(SetBit(bt, w, b, value))
    ensures TagBusy(SetBit(bt, w, b, value), tag) ==
      if tag == TagAt(bt, w, b) then value else TagBusy(bt, tag)
  {
    var bt' := SetBit(bt, w, b, value);
    DivUnique(TagAt(bt, w, b), bt.per, w, b);
    InCapacity(bt, tag);
    assert forall v :: 0 <= v < |bt'.words| ==>
      |bt'.words[v].busy| == bt.per && bt'.words[v].depth == bt.words[v].depth;
  }

  lemma SetBitKeeps(s: State, s': State, reserved: bool, w: nat, b: nat, value: bool, n: nat)
    requires Inv(s) && w < |MapOf(s, reserved).words| && b < MapOf(s, reserved).per
    requires n == Number(s, reserved, TagAt(MapOf(s, reserved), w, b))
    requires reserved && value ==> b < s.reserve.words[w].depth
    requires s' == PutMap(s, reserved, SetBit(MapOf(s, reserved), w, b, value))
                     .(threads := s'.threads, caches := s'.caches, held := s'.held)
    requires forall m: nat :: m in s'.held <==> if m == n then value else m in s.held
    requires reserved ==> n < s.nrReserved
    ensures Maps(s') && Bits(s')
  {
    var bt := MapOf(s, reserved);
    forall tag: nat
      ensures BitmapOk(SetBit(bt, w, b, value))
      ensures TagBusy(SetBit(bt, w, b, value), tag) == if tag == TagAt(bt, w, b) then value else TagBusy(bt, tag)
    {
      SetBitTags(bt, w, b, value, tag);
    }
    SetBitTags(bt, w, b, value, 0);
    MapsKept(s, s', reserved, w, b, value);
  }

  lemma MapsKept(s: State, s': State, reserved: bool, w: nat, b: nat, value: bool)
    requires Maps(s) && w < |MapOf(s, reserved).words| && b < MapOf(s, reserved).per
    requires s' == PutMap(s, reserved, SetBit(MapOf(s, reserved), w, b, value))
                     .(threads := s'.threads, caches := s'.caches, held := s'.held)
    ensures Maps(s')
    ensures forall pc :: PcOk(s, pc) ==> PcOk(s', pc)
    ensures Capacity(s'.normal) == Capacity(s.normal)
  {
    SetBitTags(MapOf(s, reserved), w, b, value, 0);
    forall v, k | 0 <= v < |s'.reserve.words| && 0 <= k < s'.reserve.words[v].depth
      ensures TagAt(s'.reserve, v, k) < s'.nrReserved
    {
      assert TagAt(s.reserve, v, k) < s.nrReserved;
    }
  }

  lemma ThreadsKept(s: State, s': State)
    requires Maps(s) && Maps(s') && Threads(s) && |s'.threads| == |s.threads|
    requires forall pc :: PcOk(s, pc) ==> PcOk(s', pc)
    requires forall u :: 0 <= u < |s.threads| ==> s'.threads[u] == s.threads[u] || PcOk(s', s'.threads[u])
    ensures Threads(s')
  {
    hide PcOk;
    forall u | 0 <= u < |s'.threads| ensures PcOk(s', s'.threads[u]) {
      assert PcOk(s, s.threads[u]);
    }
  }

  lemma TryKeeps(s: State, t: Tid, x: Search, b: nat)
    requires Inv(s) && t < |s.threads| && s.threads[t] == Try(x, b)
    ensures Inv(TryStep(s, t, x, b))
  {
    hide Bits, TagBusy;
    assert PcOk(s, s.threads[t]);
    var bt := MapOf(s, x.reserved);
    var s' := TryStep(s, t, x, b);
    if bt.words[x.index].busy[b] {
      Unmoved(s, s', t);
    } else {
      var tag := TagAt(bt, x.index, b);
      TagsArePairs(bt, x.index, b);
      SetBitKeeps(s, s', x.reserved, x.index, b, true, Number(s, x.reserved, tag));
      MapsKept(s, s', x.reserved, x.index, b, true);
      ThreadsKept(s, s');
    }
  }

  lemma PutKeeps(s: State, number: nat, ctx: nat)
    requires Inv(s) && number in s.held
    ensures Inv(PutTag(s, number, ctx))
  {
    hide PcOk;
    var reserved := number < s.nrReserved;
    var tag := if reserved then number else number - s.nrReserved;
    var bt := MapOf(s, reserved);
    var s' := PutTag(s, number, ctx);
    InCapacity(bt, tag);
    assert TagBusy(bt, tag);
    var (w, b) := (IndexOf(bt, tag), BitOf(bt, tag));
    SetBitKeeps(s, s', reserved, w, b, false, number);
    MapsKept(s, s', reserved, w, b, false);
    ThreadsKept(s, s');
  }

  /** A change of depth moves no bit. */
  lemma CountBits(bt: Bitmap, d: nat)
    requires BitmapOk(bt)
    ensures var u := UpdateCount(bt, d);
      && BitmapOk(u) && u.per == bt.per && |u.words| == |bt.words|
      && forall tag: nat :: TagBusy(u, tag) == TagBusy(bt, tag)
  {
    hide Clamp;
    ClampBound(d, bt.per);
    var u := UpdateCount(bt, d);
    assert forall w :: 0 <= w < |bt.words| ==> u.words[w].busy == bt.words[w].busy;
  }

  lemma ResizeKeeps(s: State, tdepth: nat)
    requires Inv(s)
    ensures Inv(Next(s, Resize(tdepth)))
  {
    hide UpdateCount, TagBusy, TagAt;
    CountBits(s.normal, NormalDepth(s.nrReserved, tdepth));
    var s' := Next(s, Resize(tdepth));
    assert s' == s.(normal := s'.normal);
    forall u | 0 <= u < |s'.threads| ensures PcOk(s', s'.threads[u]) {
      assert PcOk(s, s.threads[u]);
    }
  }

  lemma NextKeeps(s: State, e: Event)
    requires Inv(s)
    ensures Inv(Next(s, e))
  {
    hide Inv, StartGet, LookStep, TryStep, GotStep, PutTag, UpdateDepth;
    if Enabled(s, e) {
      match e {
        case Get(t, ctx, reserved) => StartKeeps(s, t, ctx, reserved);
        case Step(t) =>
          match s.threads[t] {
            case Idle =>
            case Look(x) => LookKeeps(s, t, x);
            case Try(x, b) => TryKeeps(s, t, x, b);
            case Got(x, tag) => GotKeeps(s, t, x, tag);
          }
        case Put(number, ctx) => PutKeeps(s, number, ctx);
        case Resize(tdepth) => ResizeKeeps(s, tdepth);
      }
    }
  }

  lemma {:induction false} RunKeeps(s: State, events: seq<Event>)
    requires Inv(s)
    ensures Inv(Run(s, events))
    decreases |events|
  {
    hide Inv, Next;
    if events != [] {
      NextKeeps(s, events[0]);
      RunKeeps(Next(s, events[0]), events[1..]);
    }
  }

  // ---------------------------------------------------------------- from the start

  lemma {:induction false} PerWordSize(depth: nat, per: Pos)
    ensures PerWord(depth, per) <= per
    decreases per
  {
    if depth >= 4 && per * 4 > depth && per > 1 { PerWordSize(depth, per / 2); }
  }

  /** Four tags or more are spread over at least four words, as large as that allows. */
  lemma {:induction false} PerWordExactly(depth: nat, per: Pos)
    requires depth >= 4 && exists k: nat :: k <= 6 && per == Power(k)
    ensures var p := PerWord(depth, per);
      p * 4 <= depth && (p == per || depth < p * 8) && exists k: nat :: k <= 6 && p == Power(k)
    decreases per
  {
    if per * 4 > depth && per > 1 {
      var k: nat :| k <= 6 && per == Power(k);
      assert per / 2 == Power(k - 1);
      PerWordExactly(depth, per / 2);
    }
  }

  function Power(k: nat): nat { if k == 0 then 1 else 2 * Power(k - 1) }

  /** So a map of four tags or more has at least four words of a power of two of at most sixty-four tags, and would
      have fewer than four full ones if they were twice as large. */
  lemma FourWords(depth: nat)
    requires depth >= 4
    ensures var bt := NewBitmap(depth);
      && |bt.words| >= 4 && (bt.per == 64 || depth < bt.per * 8) && exists k: nat :: k <= 6 && bt.per == Power(k)
  {
    hide PerWord, UpdateCount;
    assert Power(6) == 64;
    PerWordExactly(depth, 64);
    var per := PerWord(depth, 64);
    WordsNeeded(depth, per);
    var n := (depth + per - 1) / per;
    if n < 4 { MulMono(per, n, 3); }
    CountKept(Bitmap(per, seq(n, _ => Word(seq(per, _ => false), 0)), 0), depth);
  }

  lemma WordsNeeded(depth: nat, per: Pos)
    requires depth > 0
    ensures depth <= (depth + per - 1) / per * per < depth + per
  {
    var n := (depth + per - 1) / per;
    assert depth + per - 1 == n * per + (depth + per - 1) % per;
  }

  lemma EmptyMap(per: Pos, n: nat, depth: nat)
    requires depth > 0
    ensures var bt := UpdateCount(Bitmap(per, seq(n, _ => Word(seq(per, _ => false), 0)), 0), depth);
      BitmapOk(bt) && Capacity(bt) == n * per && forall tag: nat :: !TagBusy(bt, tag)
  {
    hide Clamp;
    assert forall w :: 0 <= w < n ==> Clamp(depth, w, per) <= per by { ClampBound(depth, per); }
  }

  lemma ClampBound(depth: nat, per: Pos)
    ensures forall w: nat :: Clamp(depth, w, per) <= per
  {
  }

  /** A new map holds `depth` free tags, in no more words than it needs. */
  lemma NewBitmapOk(depth: nat)
    ensures var bt := NewBitmap(depth);
      && BitmapOk(bt) && bt.depth == depth <= Capacity(bt)
      && (depth > 0 ==> Capacity(bt) < depth + bt.per)
      && (forall tag: nat :: !TagBusy(bt, tag))
      && (forall tag: nat ::
            IndexOf(bt, tag) < |bt.words| && BitOf(bt, tag) < bt.words[IndexOf(bt, tag)].depth <==> tag < depth)
  {
    hide UpdateCount, PerWord;
    var bt := NewBitmap(depth);
    if depth > 0 {
      var per := PerWord(depth, 64);
      var n := (depth + per - 1) / per;
      WordsNeeded(depth, per);
      EmptyMap(per, n, depth);
      var empty := Bitmap(per, seq(n, _ => Word(seq(per, _ => false), 0)), 0);
      CountKept(empty, depth);
      forall tag: nat
        ensures IndexOf(bt, tag) < |bt.words| && BitOf(bt, tag) < bt.words[IndexOf(bt, tag)].depth <==> tag < depth
      {
        DepthsCover(empty, depth, tag);
      }
    }
  }

  lemma CountKept(bt: Bitmap, depth: nat)
    ensures var u := UpdateCount(bt, depth); u.per == bt.per && |u.words| == |bt.words| && u.depth == depth
  {
  }

  lemma InitInv(u: Setup)
    requires SetupOk(u)
    ensures Inv(Init(u))
  {
    hide NewBitmap, TagBusy;
    NewBitmapOk(u.nrTags - u.nrReserved);
    NewBitmapOk(u.nrReserved);
    var s := Init(u);
    forall w, b | 0 <= w < |s.reserve.words| && 0 <= b < s.reserve.words[w].depth
      ensures TagAt(s.reserve, w, b) < u.nrReserved
    {
      TagsArePairs(s.reserve, w, b);
    }
  }

  ghost predicate Reachable(s: State) {
    exists u, events :: SetupOk(u) && s == Run(Init(u), events)
  }

  lemma ReachableInv(s: State)
    requires Reachable(s)
    ensures Inv(s)
  {
    hide Inv, Init, Run;
    var u, events :| SetupOk(u) && s == Run(Init(u), events);
    InitInv(u);
    RunKeeps(Init(u), events);
  }

  // ---------------------------------------------------------------- what it means

  /** The thread is about to win its test_and_set_bit. */
  predicate Wins(s: State, e: Event) {
    && e.Step? && e.t < |s.threads| && s.threads[e.t].Try?
    && e.t < |Next(s, e).threads| && Next(s, e).threads[e.t].Got?
  }

  /** Only a test_and_set_bit that is won hands out a tag. */
  lemma HeldShrinks(s: State, e: Event, n: nat)
    requires !Wins(s, e)
    ensures n in Next(s, e).held ==> n in s.held && Next(s, e).held[n] == s.held[n]
  {
    hide NextZero, UpdateDepth, UpdateCount, SetBit;
  }

  /** The number that such a step hands out. */
  function Given(s: State, e: Event): nat
    requires Wins(s, e)
  {
    Number(s, s.threads[e.t].s.reserved, Next(s, e).threads[e.t].tag)
  }

  lemma WinnerAlone(s: State, e: Event)
    requires Inv(s) && Wins(s, e)
    ensures Given(s, e) !in s.held && Next(s, e).held == s.held[Given(s, e) := e.t]
  {
    hide Bits, SetBit;
    assert PcOk(s, s.threads[e.t]);
    GivenFree(s, s.threads[e.t].s, s.threads[e.t].b);
  }

  /** Whatever is going on, the tag that a step gives out is one that nobody held, not even the thread that gets it;
      and it is the only one that changes hands. */
  lemma OneHolder(s: State, e: Event)
    requires Reachable(s) && Wins(s, e)
    ensures Given(s, e) !in s.held && Next(s, e).held == s.held[Given(s, e) := e.t]
  {
    hide Reachable, Inv, Given, Wins, Next;
    ReachableInv(s);
    WinnerAlone(s, e);
  }

  lemma HeldStays(s: State, e: Event, n: nat)
    requires n in s.held && !(e.Put? && e.number == n)
    ensures n in Next(s, e).held
  {
    hide NextZero, UpdateDepth, UpdateCount, SetBit;
  }

  lemma {:induction false} HeldUntilPut(s: State, events: seq<Event>, n: nat)
    requires n in s.held && forall i :: 0 <= i < |events| ==> !(events[i].Put? && events[i].number == n)
    ensures n in Run(s, events).held
    decreases |events|
  {
    hide Next;
    if events != [] {
      HeldStays(s, events[0], n);
      HeldUntilPut(Next(s, events[0]), events[1..], n);
    }
  }

  /** In every run, between two steps that give out the same tag it is put back. */
  lemma PutBetween(u: Setup, before: seq<Event>, e: Event, between: seq<Event>, e': Event)
    requires SetupOk(u) && Wins(Run(Init(u), before), e)
    requires Wins(Run(Next(Run(Init(u), before), e), between), e')
    requires Given(Run(Init(u), before), e) == Given(Run(Next(Run(Init(u), before), e), between), e')
    ensures exists i :: 0 <= i < |between| && between[i].Put? && between[i].number == Given(Run(Init(u), before), e)
  {
    hide Inv, Init, Run, Given, Wins, Next;
    var s := Run(Init(u), before);
    var s' := Run(Next(s, e), between);
    InitInv(u);
    RunKeeps(Init(u), before);
    NextKeeps(s, e);
    RunKeeps(Next(s, e), between);
    WinnerAlone(s, e);
    WinnerAlone(s', e');
    if forall i :: 0 <= i < |between| ==> !(between[i].Put? && between[i].number == Given(s, e)) {
      HeldUntilPut(Next(s, e), between, Given(s, e));
    }
  }

  lemma GivenFree(s: State, x: Search, b: nat)
    requires Inv(s) && PcOk(s, Try(x, b)) && !MapOf(s, x.reserved).words[x.index].busy[b]
    ensures Number(s, x.reserved, TagAt(MapOf(s, x.reserved), x.index, b)) !in s.held
  {
    var bt := MapOf(s, x.reserved);
    TagsArePairs(bt, x.index, b);
    assert !TagBusy(bt, TagAt(bt, x.index, b));
  }

  /** Putting a tag back frees it, and no other; first in, first out, the cache of the context remembers it. */
  lemma PutFrees(s: State, number: nat, ctx: nat)
    requires Inv(s) && !s.outside && number in s.held
    ensures var s' := Next(s, Put(number, ctx));
      && BitmapOk(s'.normal) && BitmapOk(s'.reserve) && s'.held == s.held - {number}
      && (forall n: nat :: TagBusy(s'.reserve, n) <==> TagBusy(s.reserve, n) && n != number)
      && (forall n: nat :: TagBusy(s'.normal, n) <==> TagBusy(s.normal, n) && n + s.nrReserved != number)
      && s'.caches == (if number >= s.nrReserved && !s.rr && ctx < |s.caches|
                       then s.caches[ctx := number - s.nrReserved] else s.caches)
  {
    hide Threads, TagBusy, SetBit;
    var reserved := number < s.nrReserved;
    var tag := if reserved then number else number - s.nrReserved;
    var bt := MapOf(s, reserved);
    HeldTag(s, number);
    InCapacity(bt, tag);
    forall n: nat
      ensures var bt' := SetBit(bt, IndexOf(bt, tag), BitOf(bt, tag), false);
        BitmapOk(bt') && (TagBusy(bt', n) <==> TagBusy(bt, n) && n != tag)
    {
      SetBitTags(bt, IndexOf(bt, tag), BitOf(bt, tag), false, n);
    }
    SetBitTags(bt, IndexOf(bt, tag), BitOf(bt, tag), false, 0);
  }

  lemma HeldTag(s: State, number: nat)
    requires Inv(s) && number in s.held
    ensures var reserved := number < s.nrReserved;
      var (bt, tag) := (MapOf(s, reserved), if reserved then number else number - s.nrReserved);
      IndexOf(bt, tag) < |bt.words| && TagBusy(bt, tag)
    ensures forall n: nat :: TagBusy(s.reserve, n) ==> n < s.nrReserved
  {
  }

  /** A held number is a busy bit of the one map that its size selects. */
  lemma HeldIsBusy(s: State, n: nat)
    requires Reachable(s)
    ensures BitmapOk(s.normal) && BitmapOk(s.reserve)
    ensures n in s.held <==> if n < s.nrReserved then TagBusy(s.reserve, n) else TagBusy(s.normal, n - s.nrReserved)
    ensures TagBusy(s.reserve, n) ==> n < s.nrReserved
  {
    hide Reachable, TagBusy, Threads;
    ReachableInv(s);
  }
}
