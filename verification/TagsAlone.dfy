/**
One thread that nobody disturbs: the steps of the machine of Tags amount to the search of __bt_get, which takes the
first free tag in its order or finds that there is none.
*/
module TagsAlone {
  import opened Arithmetic
  import opened Tags
  import opened TagsProofs
  import opened TagMap

  /** `n` steps of thread `t`. */
  function Steps(t: Tid, n: nat): seq<Event> { if n == 0 then [] else [Step(t)] + Steps(t, n - 1) }

  lemma OneStep(s: State, t: Tid, n: nat)
    ensures Run(s, Steps(t, n + 1)) == Run(Next(s, Step(t)), Steps(t, n))
  {
    hide Next;
    assert Steps(t, n + 1)[1..] == Steps(t, n);
  }

  /** A request for a tag: who, for which context, and from which map. */
  datatype Ask = Ask(t: Tid, ctx: nat, reserved: bool)

  /** Where the search starts. */
  function Origin(s: State, a: Ask): nat {
    if a.reserved || a.ctx >= |s.caches| then 0 else s.caches[a.ctx]
  }

  ghost predicate CanAsk(s: State, a: Ask) {
    && Inv(s) && !s.outside && a.t < |s.threads| && s.threads[a.t] == Idle
    && (a.reserved ==> s.nrReserved > 0) && (!a.reserved ==> a.ctx < |s.caches|)
    && Origin(s, a) < Capacity(MapOf(s, a.reserved))
  }

  /** The cache afterwards. */
  function Cached(s: State, a: Ask, value: nat): seq<nat> {
    if a.reserved || a.ctx >= |s.caches| then s.caches else s.caches[a.ctx := value]
  }

  /** Nothing was free, and the cache is reset. */
  ghost predicate Fails(s: State, a: Ask, s': State)
    requires CanAsk(s, a)
  {
    var bt := MapOf(s, a.reserved);
    Exhausted(bt, Origin(s, a), s.rr, |bt.words|) && s' == s.(caches := Cached(s, a, 0))
  }

  /** The first free tag is taken, and the cache follows it where it may. */
  ghost predicate Takes(s: State, a: Ask, s': State, w: nat, b: nat)
    requires CanAsk(s, a)
  {
    var (bt, org) := (MapOf(s, a.reserved), Origin(s, a));
    && Free(bt, w, b) && FirstFree(bt, org, s.rr, w, b)
    && var tag := TagAt(bt, w, b);
       s' == PutMap(s, a.reserved, SetBit(bt, w, b, true))
               .(held := s.held[Number(s, a.reserved, tag) := a.t],
                 caches := if tag == org || s.rr then Cached(s, a, NewCache(s.normal.depth, tag)) else s.caches)
  }

  ghost predicate Ends(s: State, a: Ask, s': State)
    requires CanAsk(s, a)
  {
    Fails(s, a, s') || exists w: nat, b: nat :: Takes(s, a, s', w, b)
  }

  /** The search for `a` has come to its `i`-th word, at bit `bit` of it. */
  ghost predicate Stands(s: State, a: Ask, x: Search, i: nat)
    requires CanAsk(s, a)
  {
    var (bt, org) := (MapOf(s, a.reserved), Origin(s, a));
    var (first, n) := (IndexOf(bt, org), |bt.words|);
    && x.ctx == a.ctx && x.reserved == a.reserved && x.org == org && x.tried == i < n
    && x.index == (if first + i < n then first + i else first + i - n)
    && Exhausted(bt, org, s.rr, i)
  }

  lemma Regoto(s: State, t: Tid, a: Pc, b: Pc)
    requires t < |s.threads|
    ensures Goto(Goto(s, t, a), t, b) == Goto(s, t, b)
  {
    assert s.threads[t := a][t := b] == s.threads[t := b];
  }

  // ---------------------------------------------------------------- taking a bit

  /** From a free bit that it has seen, the thread takes the tag and is done. */
  lemma TakesSeen(s: State, a: Ask, x: Search, i: nat, b: nat)
    requires CanAsk(s, a) && Stands(s, a, x, i)
    requires var bt := MapOf(s, a.reserved); Free(bt, x.index, b) && FirstFree(bt, Origin(s, a), s.rr, x.index, b)
    ensures Ends(s, a, Run(Goto(s, a.t, Try(x, b)), Steps(a.t, 2)))
  {
    hide Bits, Threads, FirstFree, Exhausted;
    var bt := MapOf(s, a.reserved);
    var tag := TagAt(bt, x.index, b);
    var s1 := Goto(s, a.t, Try(x, b));
    OneStep(s1, a.t, 1);
    var s2 := Next(s1, Step(a.t));
    assert s2 == TryStep(s1, a.t, x, b);
    OneStep(s2, a.t, 0);
    var s3 := Next(s2, Step(a.t));
    assert s2.threads[a.t] == Got(x, tag);
    assert s3 == GotStep(s2, a.t, x, tag);
    assert s3.threads == s.threads;
    assert Takes(s, a, s3, x.index, b);
  }

  /** The bit that __bt_get_word finds from `start` on is the first free one of the search. */
  lemma SeenFirst(s: State, a: Ask, x: Search, i: nat, b: nat)
    requires CanAsk(s, a) && Stands(s, a, x, i)
    requires var bt := MapOf(s, a.reserved);
      var start := if i == 0 then BitOf(bt, Origin(s, a)) else 0;
      && Free(bt, x.index, b)
      && (b >= start ==> forall k :: start <= k < b ==> !Free(bt, x.index, k))
      && (b < start ==> !s.rr && (forall k :: start <= k ==> !Free(bt, x.index, k))
                        && (forall k :: 0 <= k < b ==> !Free(bt, x.index, k)))
    ensures FirstFree(MapOf(s, a.reserved), Origin(s, a), s.rr, x.index, b)
  {
    hide Bits, Threads, Exhausted;
    var bt := MapOf(s, a.reserved);
    InCapacity(bt, Origin(s, a));
    assert WordsBefore(IndexOf(bt, Origin(s, a)), x.index, |bt.words|) == i;
  }

  // ---------------------------------------------------------------- word after word

  /** What looking at a word finds: the first free bit from `x.bit` on, or none. */
  lemma LooksFor(s: State, a: Ask, x: Search, i: nat) returns (b: nat)
    requires CanAsk(s, a) && Stands(s, a, x, i)
    ensures var (bt, s1) := (MapOf(s, a.reserved), Goto(s, a.t, Look(x)));
      && x.index < |bt.words| && b <= bt.words[x.index].depth
      && (forall k: nat :: x.bit <= k < b ==> !Free(bt, x.index, k))
      && (b < bt.words[x.index].depth ==>
            x.bit <= b && Free(bt, x.index, b) && Next(s1, Step(a.t)) == Goto(s, a.t, Try(x, b)))
      && (b == bt.words[x.index].depth ==>
            && (forall k: nat :: x.bit <= k ==> !Free(bt, x.index, k))
            && Next(s1, Step(a.t)) ==
                 if x.orgBit != 0 && x.bit != 0 && !s.rr then Goto(s, a.t, Look(x.(orgBit := 0, bit := 0)))
                 else NextWord(s1, a.t, x))
  {
    hide Bits, Threads, Exhausted, NextWord;
    var bt := MapOf(s, a.reserved);
    InCapacity(bt, Origin(s, a));
    var word := bt.words[x.index];
    b := NextZero(word.busy, word.depth, x.bit);
    var s1 := Goto(s, a.t, Look(x));
    assert Next(s1, Step(a.t)) == LookStep(s1, a.t, x);
    Regoto(s, a.t, Look(x), Try(x, b));
    Regoto(s, a.t, Look(x), Look(x.(orgBit := 0, bit := 0)));
  }

  /** Having seen that a word has nothing to offer, the search goes to the next or fails. */
  lemma GoesOn(s: State, a: Ask, x: Search, i: nat)
    requires CanAsk(s, a) && Stands(s, a, x, i)
    requires var bt := MapOf(s, a.reserved);
      var start := if i == 0 then BitOf(bt, Origin(s, a)) else 0;
      forall k :: (if s.rr then start else 0) <= k ==> !Free(bt, x.index, k)
    ensures var (bt, s') := (MapOf(s, a.reserved), NextWord(Goto(s, a.t, Look(x)), a.t, x));
      if i + 1 < |bt.words| then
        var index := if x.index + 1 >= |bt.words| then 0 else x.index + 1;
        var x' := x.(index := index, tried := i + 1, orgBit := 0, bit := 0);
        s' == Goto(s, a.t, Look(x')) && Stands(s, a, x', i + 1)
      else Fails(s, a, s')
  {
    hide Bits, Threads, Exhausted;
    var bt := MapOf(s, a.reserved);
    var start := if i == 0 then BitOf(bt, Origin(s, a)) else 0;
    InCapacity(bt, Origin(s, a));
    TagMap.OneMore(bt, Origin(s, a), s.rr, i, x.index, start);
    var i' := if x.index + 1 >= |bt.words| then 0 else x.index + 1;
    Regoto(s, a.t, Look(x), Look(x.(index := i', tried := i + 1, orgBit := 0, bit := 0)));
    assert Goto(Goto(s, a.t, Look(x)), a.t, Idle).threads == s.threads;
  }

  lemma {:induction false} SearchFrom(s: State, a: Ask, x: Search, i: nat) returns (n: nat)
    requires CanAsk(s, a) && Stands(s, a, x, i)
    requires x.bit == x.orgBit == if i == 0 then BitOf(MapOf(s, a.reserved), Origin(s, a)) else 0
    ensures Ends(s, a, Run(Goto(s, a.t, Look(x)), Steps(a.t, n)))
    decreases |MapOf(s, a.reserved).words| - i
  {
    hide Inv, Exhausted, Next, NextWord, Run, Takes, Fails, FirstFree, Free;
    var bt := MapOf(s, a.reserved);
    var b := LooksFor(s, a, x, i);
    var s1 := Goto(s, a.t, Look(x));
    if b < bt.words[x.index].depth {
      SeenFirst(s, a, x, i, b);
      TakesSeen(s, a, x, i, b);
      OneStep(s1, a.t, 2);
      n := 3;
      return;
    }
    var (y, done) := (x, 1);
    if x.bit != 0 && !s.rr {
      y := x.(orgBit := 0, bit := 0);
      var c := LooksFor(s, a, y, i);
      if c < bt.words[y.index].depth {
        SeenFirst(s, a, y, i, c);
        TakesSeen(s, a, y, i, c);
        OneStep(s1, a.t, 3);
        OneStep(Goto(s, a.t, Look(y)), a.t, 2);
        n := 4;
        return;
      }
      done := 2;
    }
    GoesOn(s, a, y, i);
    var s2 := NextWord(Goto(s, a.t, Look(y)), a.t, y);
    var m := 0;
    if i + 1 < |bt.words| {
      var i' := if y.index + 1 >= |bt.words| then 0 else y.index + 1;
      m := SearchFrom(s, a, y.(index := i', tried := i + 1, orgBit := 0, bit := 0), i + 1);
    } else {
      NoSteps(s2, a.t);
    }
    OneStep(Goto(s, a.t, Look(y)), a.t, m);
    OneStep(s1, a.t, m + done - 1);
    n := m + done;
  }

  lemma NoSteps(s: State, t: Tid)
    ensures Run(s, Steps(t, 0)) == s
  {
  }

  /** Undisturbed, a get ends: with the first free tag in the order of the search and the cache as __bt_get leaves it,
      or, having seen everything that it may look at, without. Nothing else changes. */
  lemma Undisturbed(s: State, a: Ask) returns (n: nat)
    requires CanAsk(s, a)
    ensures Ends(s, a, Run(s, [Get(a.t, a.ctx, a.reserved)] + Steps(a.t, n)))
  {
    hide Bits, Threads, Ends;
    var (bt, org) := (MapOf(s, a.reserved), Origin(s, a));
    InCapacity(bt, org);
    var x := Search(a.ctx, a.reserved, org, IndexOf(bt, org), 0, BitOf(bt, org), BitOf(bt, org));
    NothingYet(bt, org, s.rr);
    n := SearchFrom(s, a, x, 0);
    var e := Get(a.t, a.ctx, a.reserved);
    assert Next(s, e) == Goto(s, a.t, Look(x)) by { Starts(s, a, x); }
    assert ([e] + Steps(a.t, n))[1..] == Steps(a.t, n);
  }

  lemma NothingYet(bt: Bitmap, org: nat, rr: bool)
    requires BitmapOk(bt) && IndexOf(bt, org) < |bt.words|
    ensures Exhausted(bt, org, rr, 0)
  {
  }

  lemma Starts(s: State, a: Ask, x: Search)
    requires CanAsk(s, a)
    requires var (bt, org) := (MapOf(s, a.reserved), Origin(s, a));
      x == Search(a.ctx, a.reserved, org, IndexOf(bt, org), 0, BitOf(bt, org), BitOf(bt, org))
    ensures Next(s, Get(a.t, a.ctx, a.reserved)) == Goto(s, a.t, Look(x))
  {
    hide Bits, Threads;
    var bt := MapOf(s, a.reserved);
    InCapacity(bt, Origin(s, a));
    if a.reserved { DivUnique(0, bt.per, 0, 0); }
  }
}
