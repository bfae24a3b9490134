/**
Chained completion of bios (block/bio.c): bio_chain, bio_inc_remaining, bio_remaining_done and the
loop of bio_endio, one turn of which is one atomic step, so that any number of completions may be
under way at once.
*/
module BioChain {

  type Id = nat

  /** bi_end_io together with bi_private. */
  datatype EndIo = Nothing | Caller | Parent(p: Id)

  datatype Node = Node(
    endio: EndIo,
    remaining: int,         // __bi_remaining
    chain: bool,            // BIO_CHAIN
    owned: bool,            // whoever submitted it has not called bio_endio yet
    finished: bool,         // bio_remaining_done has said yes
    calls: nat)             // how often the caller's bi_end_io ran

  /** `at[b]` counts the bio_endio loops that are about to look at bio `b`. */
  datatype State = State(bios: seq<Node>, at: multiset<Id>, bug: bool)

  datatype Event =
    | Alloc(hasEndIo: bool)         // bio_init
    | Chain(c: Id, p: Id)           // bio_chain(c, p)
    | Endio(b: Id)                  // the owner calls bio_endio
    | Turn(b: Id)                   // one turn of the loop in bio_endio

  function Fresh(hasEndIo: bool): Node {
    Node(if hasEndIo then Caller else Nothing, 1, false, true, false, 0)
  }

  predicate Has(s: State, b: Id) { b < |s.bios| }

  function Set(s: State, b: Id, n: Node): State
    requires Has(s, b)
  {
    s.(bios := s.bios[b := n])
  }

  /** bio_inc_remaining. */
  function IncRemaining(n: Node): Node { n.(chain := true, remaining := n.remaining + 1) }

  /** bio_remaining_done: the count after the call, and the answer. */
  function RemainingDone(n: Node): (Node, bool) {
    if !n.chain then (n, true)
    else if n.remaining == 1 then (n.(remaining := 0, chain := false), true)
    else (n.(remaining := n.remaining - 1), false)
  }

  /** One turn: `at` loses `b`, and gains the parent when a chained bio is done. */
  function TurnStep(s: State, b: Id): State
    requires Has(s, b)
  {
    var (n, done) := RemainingDone(s.bios[b]);
    var s1 := s.(at := s.at - multiset{b}, bug := s.bug || (s.bios[b].chain && s.bios[b].remaining <= 0));
    if !done then Set(s1, b, n)
    else
      match n.endio
      case Parent(p) => Set(s1, b, n.(finished := true)).(at := s1.at + multiset{p})
      case Caller => Set(s1, b, n.(finished := true, calls := n.calls + 1))
      case Nothing => Set(s1, b, n.(finished := true))
  }

  /**
  bio_chain is for a fresh child without an end_io, and for a parent whose owner has yet to end it;
  the child is the younger of the two, as a bio cut from its parent is.
  */
  predicate Enabled(s: State, e: Event) {
    match e
    case Alloc(_) => true
    case Chain(c, p) => p < c < |s.bios| && s.bios[c].endio == Nothing && s.bios[c].owned && s.bios[p].owned
    case Endio(b) => Has(s, b) && s.bios[b].owned
    case Turn(b) => Has(s, b) && b in s.at
  }

  function Next(s: State, e: Event): State {
    if !Enabled(s, e) then s
    else
      match e
      case Alloc(hasEndIo) => s.(bios := s.bios + [Fresh(hasEndIo)])
      case Chain(c, p) =>
        var s1 := Set(s, c, s.bios[c].(endio := Parent(p)));
        Set(s1, p, IncRemaining(s1.bios[p]))
      case Endio(b) => Set(s, b, s.bios[b].(owned := false)).(at := s.at + multiset{b})
      case Turn(b) => TurnStep(s, b)
  }

  function Run(s: State, events: seq<Event>): State
    decreases |events|
  {
    if events == [] then s else Run(Next(s, events[0]), events[1..])
  }

  const Init := State([], multiset{}, false)

  // ---------------------------------------------------------------- invariant

  function Owes(n: Node, b: Id): nat { if n.endio == Parent(b) && !n.finished then 1 else 0 }

  /** The unfinished bios chained to `b`. */
  function Kids(bios: seq<Node>, b: Id): nat {
    if bios == [] then 0 else Kids(bios[..|bios| - 1], b) + Owes(bios[|bios| - 1], b)
  }

  function Outstanding(s: State, b: Id): nat
    requires Has(s, b)
  {
    (if s.bios[b].owned then 1 else 0) + Kids(s.bios, b) + s.at[b]
  }

  ghost predicate NodeOk(s: State, b: Id)
    requires Has(s, b)
  {
    var n := s.bios[b];
    && (if n.finished then Outstanding(s, b) == 0 else n.remaining == Outstanding(s, b) >= 1)
    && (!n.chain && !n.finished ==> n.remaining == 1 && Kids(s.bios, b) == 0)
    && (n.endio.Parent? ==> n.endio.p < b)
    && n.calls == (if n.finished && n.endio == Caller then 1 else 0)
  }

  ghost predicate Inv(s: State) {
    && !s.bug
    && (forall b :: 0 <= b < |s.bios| ==> NodeOk(s, b))
    && (forall b :: b in s.at ==> Has(s, b))
  }

  lemma {:induction false} KidsUpdate(bios: seq<Node>, i: nat, n: Node, b: Id)
    requires i < |bios|
    ensures Kids(bios[i := n], b) == Kids(bios, b) - Owes(bios[i], b) + Owes(n, b)
    ensures Kids(bios, b) >= Owes(bios[i], b)
    decreases |bios|
  {
    var init := bios[..|bios| - 1];
    if i == |bios| - 1 {
      assert bios[i := n][..i] == init;
    } else {
      KidsUpdate(init, i, n, b);
      assert bios[i := n][..|bios| - 1] == init[i := n];
    }
  }

  lemma KidsSnoc(bios: seq<Node>, n: Node, b: Id)
    ensures Kids(bios + [n], b) == Kids(bios, b) + Owes(n, b)
  {
    assert (bios + [n])[..|bios|] == bios;
  }

  /** No bio is chained to one that does not exist yet. */
  lemma {:induction false} KidsNone(bios: seq<Node>, b: Id)
    requires forall i :: 0 <= i < |bios| ==> bios[i].endio != Parent(b)
    ensures Kids(bios, b) == 0
  {
    if bios != [] { KidsNone(bios[..|bios| - 1], b); }
  }

  lemma {:induction false} SomeKid(bios: seq<Node>, b: Id) returns (c: Id)
    requires Kids(bios, b) > 0
    ensures c < |bios| && bios[c].endio == Parent(b) && !bios[c].finished
  {
    if Owes(bios[|bios| - 1], b) == 1 {
      c := |bios| - 1;
    } else {
      c := SomeKid(bios[..|bios| - 1], b);
    }
  }

  lemma AllocKeeps(s: State, hasEndIo: bool)
    requires Inv(s)
    ensures Inv(Next(s, Alloc(hasEndIo)))
  {
    hide Kids;
    var s' := Next(s, Alloc(hasEndIo));
    var k := |s.bios|;
    forall b | 0 <= b < |s'.bios| ensures NodeOk(s', b) {
      KidsSnoc(s.bios, Fresh(hasEndIo), b);
      if b == k {
        forall i | 0 <= i < k ensures s.bios[i].endio != Parent(k) { assert NodeOk(s, i); }
        KidsNone(s.bios, k);
      } else {
        assert NodeOk(s, b);
      }
    }
  }

  lemma ChainKeeps(s: State, c: Id, p: Id)
    requires Inv(s) && Enabled(s, Chain(c, p))
    ensures Inv(Next(s, Chain(c, p)))
  {
    hide Kids;
    var s' := Next(s, Chain(c, p));
    var nc := s.bios[c].(endio := Parent(p));
    var s1 := Set(s, c, nc);
    var np := IncRemaining(s.bios[p]);
    assert NodeOk(s, c) && NodeOk(s, p);
    forall b | 0 <= b < |s'.bios| ensures NodeOk(s', b) {
      assert NodeOk(s, b);
      KidsUpdate(s.bios, c, nc, b);
      KidsUpdate(s1.bios, p, np, b);
    }
  }

  lemma EndioKeeps(s: State, b: Id)
    requires Inv(s) && Enabled(s, Endio(b))
    ensures Inv(Next(s, Endio(b)))
  {
    hide Kids;
    var s' := Next(s, Endio(b));
    forall d | 0 <= d < |s'.bios| ensures NodeOk(s', d) {
      assert NodeOk(s, d);
      KidsUpdate(s.bios, b, s.bios[b].(owned := false), d);
    }
  }

  lemma TurnSelf(s: State, b: Id)
    requires Inv(s) && Enabled(s, Turn(b))
    ensures NodeOk(TurnStep(s, b), b)
  {
    hide Kids;
    var s' := TurnStep(s, b);
    assert NodeOk(s, b);
    KidsUpdate(s.bios, b, s'.bios[b], b);
    assert s'.bios == s.bios[b := s'.bios[b]];
  }

  /** The other bios: a parent sees an unfinished child turn into a loop at it. */
  lemma TurnOther(s: State, b: Id, d: Id)
    requires Inv(s) && Enabled(s, Turn(b)) && Has(s, d) && d != b
    ensures NodeOk(TurnStep(s, b), d)
  {
    hide Kids;
    var s' := TurnStep(s, b);
    assert NodeOk(s, b) && NodeOk(s, d);
    KidsUpdate(s.bios, b, s'.bios[b], d);
    assert s'.bios == s.bios[b := s'.bios[b]] && s'.bios[d] == s.bios[d];
    assert s'.bios[b].endio == s.bios[b].endio && !s.bios[b].finished;
    if s'.bios[b].finished && s.bios[b].endio == Parent(d) {
      assert s'.at[d] == s.at[d] + 1;
    } else {
      assert s'.at[d] == s.at[d];
    }
  }

  lemma ParentOlder(s: State, b: Id)
    requires Inv(s) && Has(s, b)
    ensures s.bios[b].endio.Parent? ==> s.bios[b].endio.p < b
    ensures s.bios[b].chain && b in s.at ==> s.bios[b].remaining > 0
  {
    assert NodeOk(s, b);
  }

  lemma TurnKeeps(s: State, b: Id)
    requires Inv(s) && Enabled(s, Turn(b))
    ensures Inv(TurnStep(s, b))
  {
    hide Kids, NodeOk;
    var s' := TurnStep(s, b);
    ParentOlder(s, b);
    assert |s'.bios| == |s.bios|;
    forall d | 0 <= d < |s'.bios| ensures NodeOk(s', d) {
      if d == b { TurnSelf(s, b); } else { TurnOther(s, b, d); }
    }
    forall d | d in s'.at ensures Has(s', d) {
      assert d in s.at || s.bios[b].endio == Parent(d);
    }
  }

  lemma NextKeeps(s: State, e: Event)
    requires Inv(s)
    ensures Inv(Next(s, e))
  {
    hide Inv, TurnStep;
    if Enabled(s, e) {
      match e {
        case Alloc(h) => AllocKeeps(s, h);
        case Chain(c, p) => ChainKeeps(s, c, p);
        case Endio(b) => EndioKeeps(s, b);
        case Turn(b) => TurnKeeps(s, b);
      }
    }
  }

  lemma {:induction false} RunKeeps(s: State, events: seq<Event>)
    requires Inv(s)
    ensures Inv(Run(s, events))
    decreases |events|
  {
    hide Inv, Next;
    if events != [] {
      NextKeeps(s, events[0]);
      RunKeeps(Next(s, events[0]), events[1..]);
    }
  }

  // ---------------------------------------------------------------- what it means

  /** No BUG_ON fires, and a bio's own end_io runs at most once, never before the bio itself and every
      bio chained to it have been completed. */
  lemma EndsOnceAfterAll(events: seq<Event>, b: Id)
    requires Has(Run(Init, events), b)
    ensures var s := Run(Init, events);
      && !s.bug
      && s.bios[b].calls == (if s.bios[b].finished && s.bios[b].endio == Caller then 1 else 0)
      && (s.bios[b].finished ==>
            !s.bios[b].owned && forall c :: 0 <= c < |s.bios| && s.bios[c].endio == Parent(b) ==> s.bios[c].finished)
  {
    var s := Run(Init, events);
    assert Inv(Init);
    RunKeeps(Init, events);
    assert NodeOk(s, b);
    forall c | 0 <= c < |s.bios| && s.bios[b].finished && s.bios[c].endio == Parent(b)
      ensures s.bios[c].finished
    {
      KidsUpdate(s.bios, c, s.bios[c], b);
    }
  }

  /** `S` holds, with each of its bios, all bios chained to it. */
  ghost predicate Family(s: State, S: set<Id>) {
    && (forall b :: b in S ==> Has(s, b))
    && (forall b, c :: b in S && 0 <= c < |s.bios| && s.bios[c].endio == Parent(b) ==> c in S)
  }

  /** Once a bio and all bios chained to it, directly or not, have been ended by their owners and no
      bio_endio is still at one of them, the bio is finished and its end_io has run. */
  lemma {:induction false} EndsWhenAllEnd(events: seq<Event>, S: set<Id>, b: Id)
    requires Family(Run(Init, events), S) && b in S
    requires forall c :: c in S ==> !Run(Init, events).bios[c].owned && c !in Run(Init, events).at
    ensures Run(Init, events).bios[b].finished
    ensures Run(Init, events).bios[b].endio == Caller ==> Run(Init, events).bios[b].calls == 1
    decreases |Run(Init, events).bios| - b
  {
    var s := Run(Init, events);
    assert Inv(Init);
    RunKeeps(Init, events);
    assert NodeOk(s, b);
    if !s.bios[b].finished {
      var c := SomeKid(s.bios, b);
      assert NodeOk(s, c);
      EndsWhenAllEnd(events, S, c);
    }
  }

  lemma {:induction false} RunConcat(s: State, a: seq<Event>, b: seq<Event>)
    ensures Run(s, a + b) == Run(Run(s, a), b)
    decreases |a|
  {
    hide Next;
    if a == [] {
      assert a + b == b;
    } else {
      assert (a + b)[0] == a[0] && (a + b)[1..] == a[1..] + b;
      RunConcat(Next(s, a[0]), a[1..], b);
    }
  }

  lemma RunOne(s: State, a: seq<Event>, e: Event)
    ensures Run(s, a + [e]) == Next(Run(s, a), e)
  {
    hide Next;
    RunConcat(s, a, [e]);
    assert [e][1..] == [];
  }

  lemma RunFirst(s: State, e: Event)
    ensures Run(s, [e]) == Next(s, e)
  {
    hide Next;
    RunOne(s, [], e);
    assert [] + [e] == [e];
  }

  lemma TurnEndIoStays(s: State, d: Id, b: Id)
    requires Has(s, b) && Has(s, d)
    ensures Has(TurnStep(s, d), b) && TurnStep(s, d).bios[b].endio == s.bios[b].endio
  {
    assert RemainingDone(s.bios[d]).0.endio == s.bios[d].endio;
  }

  lemma NextEndIoStays(s: State, e: Event, b: Id)
    requires Has(s, b) && s.bios[b].endio != Nothing
    ensures Has(Next(s, e), b) && Next(s, e).bios[b].endio == s.bios[b].endio
  {
    hide TurnStep;
    if e.Turn? && Enabled(s, e) { TurnEndIoStays(s, e.b, b); }
  }

  /** bios do not go away, and one that has a bi_end_io keeps it. */
  lemma {:induction false} EndIoStays(s: State, events: seq<Event>, b: Id)
    requires Has(s, b) && s.bios[b].endio != Nothing
    ensures Has(Run(s, events), b) && Run(s, events).bios[b].endio == s.bios[b].endio
    decreases |events|
  {
    hide Next;
    if events != [] {
      NextEndIoStays(s, events[0], b);
      EndIoStays(Next(s, events[0]), events[1..], b);
    }
  }

  ghost function AllIds(n: nat): (ids: set<Id>)
    ensures forall b: Id :: b in ids <==> b < n
  {
    if n == 0 then {} else AllIds(n - 1) + {n - 1}
  }

  // ---------------------------------------------------------------- one bio and the pieces cut from it

  /** Bio 0 has the caller's end_io and is out, unless it was ended; bios 1..n-1 are chained to it, and any of
      them may have been completed. */
  ghost predicate Pieces(s: State, n: nat, ended: bool) {
    && |s.bios| == n >= 1
    && s.bios[0].endio == Caller && s.bios[0].owned == !ended
    && (forall i :: 0 < i < n ==> s.bios[i].endio == Parent(0))
  }

  /** The same, and bio n has been allocated and nobody else has it. */
  ghost predicate Cutting(s: State, n: nat) {
    && |s.bios| == n + 1 >= 2
    && s.bios[0].endio == Caller && s.bios[0].owned
    && (forall i :: 0 < i < n ==> s.bios[i].endio == Parent(0))
    && s.bios[n] == Fresh(false) && n !in s.at
  }

  /** What drivers do with the pieces 1..n-1 that they have been given. */
  predicate Completion(e: Event, n: nat) {
    match e
    case Endio(b) => 0 < b < n
    case Turn(_) => true
    case _ => false
  }

  predicate Completions(events: seq<Event>, n: nat) { forall i :: 0 <= i < |events| ==> Completion(events[i], n) }

  lemma PiecesStep(s: State, n: nat, e: Event)
    requires Pieces(s, n, false) && Completion(e, n)
    ensures Pieces(Next(s, e), n, false)
  {
    hide TurnStep;
    if e.Turn? && Enabled(s, e) { TurnFields(s, e.b); }
  }

  lemma CuttingStep(s: State, n: nat, e: Event)
    requires Cutting(s, n) && Completion(e, n)
    ensures Cutting(Next(s, e), n)
  {
    hide TurnStep;
    if e.Turn? && Enabled(s, e) {
      TurnFields(s, e.b);
      if n in TurnStep(s, e.b).at { TurnAt(s, e.b, n); }
    }
  }

  /** A turn at `b` changes no end_io and no owner, and no bio but `b`. */
  lemma TurnFields(s: State, b: Id)
    requires Has(s, b)
    ensures var s' := TurnStep(s, b);
      && s'.bios == s.bios[b := s'.bios[b]]
      && s'.bios[b].endio == s.bios[b].endio && s'.bios[b].owned == s.bios[b].owned
  {
    var n := RemainingDone(s.bios[b]).0;
    assert n.endio == s.bios[b].endio && n.owned == s.bios[b].owned;
    var s1 := s.(at := s.at - multiset{b});
    assert Set(s1, b, n).bios == s.bios[b := n];
  }

  /** It may go on at the parent. */
  lemma TurnAt(s: State, b: Id, d: Id)
    requires Has(s, b) && d in TurnStep(s, b).at
    ensures d in s.at || s.bios[b].endio == Parent(d)
  {
  }

  lemma {:induction false} PiecesStay(s: State, n: nat, events: seq<Event>)
    requires Pieces(s, n, false) && Completions(events, n)
    ensures Pieces(Run(s, events), n, false)
    decreases |events|
  {
    hide Pieces, Next;
    if events != [] {
      PiecesStep(s, n, events[0]);
      PiecesStay(Next(s, events[0]), n, events[1..]);
    }
  }

  lemma {:induction false} CuttingStays(s: State, n: nat, events: seq<Event>)
    requires Cutting(s, n) && Completions(events, n)
    ensures Cutting(Run(s, events), n)
    decreases |events|
  {
    hide Cutting, Next;
    if events != [] {
      CuttingStep(s, n, events[0]);
      CuttingStays(Next(s, events[0]), n, events[1..]);
    }
  }

  /** A piece is cut off, whatever is completed while it is being made. */
  lemma PieceCut(s: State, n: nat, during: seq<Event>)
    requires Inv(s) && Pieces(s, n, false) && Completions(during, n)
    ensures Pieces(Next(Run(Next(s, Alloc(false)), during), Chain(n, 0)), n + 1, false)
  {
    hide NodeOk, Run;
    CuttingStays(Next(s, Alloc(false)), n, during);
  }

  lemma PieceEnd(s: State, n: nat)
    requires Pieces(s, n, false)
    ensures Pieces(Next(s, Endio(0)), n, true)
  {
  }

  /** Whatever happens after the pieces were made, in any order: the caller's end_io never runs twice;
      if it has run, every piece has been ended; and once every bio has been ended and no bio_endio is
      under way, it has run. */
  lemma OnceAfterAllPieces(events: seq<Event>, n: nat, ended: bool, more: seq<Event>)
    requires Pieces(Run(Init, events), n, ended)
    ensures var s := Run(Init, events + more);
      && |s.bios| >= n && !s.bug && s.bios[0].calls <= 1
      && (s.bios[0].calls == 1 ==> forall i :: 0 <= i < n ==> s.bios[i].finished && !s.bios[i].owned)
      && (s.at == multiset{} && (forall b :: 0 <= b < |s.bios| ==> !s.bios[b].owned) ==> s.bios[0].calls == 1)
  {
    hide Next;
    var (s0, s) := (Run(Init, events), Run(Init, events + more));
    RunConcat(Init, events, more);
    EndIoStays(s0, more, 0);
    EndsOnceAfterAll(events + more, 0);
    assert |s.bios| >= n by {
      if n > 1 { EndIoStays(s0, more, n - 1); }
    }
    forall i | 0 <= i < n && s.bios[0].calls == 1 ensures s.bios[i].finished && !s.bios[i].owned {
      EndIoStays(s0, more, i);
      EndsOnceAfterAll(events + more, i);
    }
    if s.at == multiset{} && forall b :: 0 <= b < |s.bios| ==> !s.bios[b].owned {
      EndsWhenAllEnd(events + more, AllIds(|s.bios|), 0);
    }
  }

  // ---------------------------------------------------------------- in place

  lemma AllocOutstanding(s: State, hasEndIo: bool)
    requires Inv(s)
    ensures var s' := Next(s, Alloc(hasEndIo));
      && Outstanding(s', |s.bios|) == 1
      && forall d :: 0 <= d < |s.bios| ==> Outstanding(s', d) == Outstanding(s, d)
  {
    hide Kids;
    var k := |s.bios|;
    forall d | 0 <= d <= k ensures Kids(s.bios + [Fresh(hasEndIo)], d) == Kids(s.bios, d) {
      KidsSnoc(s.bios, Fresh(hasEndIo), d);
    }
    forall i | 0 <= i < k ensures s.bios[i].endio != Parent(k) { assert NodeOk(s, i); }
    KidsNone(s.bios, k);
  }

  lemma ChainOutstanding(s: State, c: Id, p: Id)
    requires Inv(s) && Enabled(s, Chain(c, p))
    ensures var s' := Next(s, Chain(c, p));
      forall d :: 0 <= d < |s.bios| ==> Outstanding(s', d) == Outstanding(s, d) + if d == p then 1 else 0
  {
    hide Kids;
    var s' := Next(s, Chain(c, p));
    var nc := s.bios[c].(endio := Parent(p));
    assert NodeOk(s, c);
    forall d | 0 <= d < |s.bios| ensures Outstanding(s', d) == Outstanding(s, d) + if d == p then 1 else 0 {
      KidsUpdate(s.bios, c, nc, d);
      KidsUpdate(s.bios[c := nc], p, IncRemaining(s.bios[p]), d);
    }
  }

  /** The bios of a system, with bio_endio called by one CPU at a time. */
  class Bios {
    var bios: seq<Node>
    ghost var at: multiset<Id>

    constructor ()
      ensures St() == Init
    {
      bios, at := [], multiset{};
    }

    ghost function St(): State
      reads this
    {
      State(bios, at, false)
    }

    /** bio_init: the new bio waits for nobody but its owner, and the others do not notice. */
    method New(hasEndIo: bool) returns (b: Id)
      requires Inv(St())
      modifies this
      ensures St() == Next(old(St()), Alloc(hasEndIo)) && Inv(St())
      ensures b == |old(bios)| && |bios| == b + 1 && at == old(at)
      ensures bios[b].owned && !bios[b].finished && Outstanding(St(), b) == 1
      ensures forall d :: 0 <= d < b ==> bios[d] == old(bios[d]) && Outstanding(St(), d) == old(Outstanding(St(), d))
    {
      hide Inv, Kids;
      NextKeeps(St(), Alloc(hasEndIo));
      ghost var s := St();
      b := |bios|;
      bios := bios + [Fresh(hasEndIo)];
      AllocOutstanding(s, hasEndIo);
    }

    /** bio_chain: the parent waits for one more, and nobody else does. */
    method ChainTo(c: Id, p: Id)
      requires Inv(St()) && Enabled(St(), Chain(c, p))
      modifies this
      ensures St() == Next(old(St()), Chain(c, p)) && Inv(St())
      ensures |bios| == |old(bios)| && at == old(at) && bios[c].endio == Parent(p)
      ensures bios[p].chain && bios[p].remaining == old(bios[p].remaining) + 1
      ensures forall d :: 0 <= d < |bios| ==>
        && Outstanding(St(), d) == old(Outstanding(St(), d)) + (if d == p then 1 else 0)
        && (d != p && d != c ==> bios[d] == old(bios[d]))
    {
      hide Inv, Kids;
      NextKeeps(St(), Chain(c, p));
      ghost var s := St();
      bios := bios[c := bios[c].(endio := Parent(p))];
      bios := bios[p := bios[p].(chain := true)];
      bios := bios[p := bios[p].(remaining := bios[p].remaining + 1)];
      assert St() == Next(s, Chain(c, p));
      ChainOutstanding(s, c, p);
    }

    /** bio_remaining_done and what follows it in one turn of the loop; `up` is the next bio to look at. */
    method OneTurn(b: Id) returns (more: bool, up: Id)
      requires Inv(St()) && b < |bios| && b in at
      modifies this
      ensures St() == Next(old(St()), Turn(b)) && |bios| == |old(bios)|
      ensures more ==> up < b && at == old(at) - multiset{b} + multiset{up}
      ensures !more ==> at == old(at) - multiset{b}
    {
      ParentOlder(St(), b);
      more, up := false, 0;
      at := at - multiset{b};
      var n := bios[b];
      if n.chain {
        n := n.(remaining := n.remaining - 1);
        if n.remaining != 0 {
          bios := bios[b := n];
          return;
        }
        n := n.(chain := false);
      }
      match n.endio {
        case Parent(p) => more, up, at := true, p, at + multiset{p};
        case Caller => n := n.(calls := n.calls + 1);
        case Nothing =>
      }
      bios := bios[b := n.(finished := true)];
    }

    /** The loop climbs from child to parent and leaves no completion half done. */
    method End(b: Id) returns (ghost events: seq<Event>)
      requires Inv(St()) && b < |bios| && bios[b].owned
      modifies this
      ensures St() == Run(old(St()), events) && at == old(at) && Inv(St())
    {
      hide Inv, Next, Run;
      ghost var s := St();
      events := [Endio(b)];
      RunFirst(s, Endio(b));
      NextKeeps(s, Endio(b));
      Release(b);
      var cur: Id, more := b, true;
      while more
        invariant St() == Run(s, events) && Inv(St())
        invariant at == s.at + (if more then multiset{cur} else multiset{})
        invariant more ==> cur < |bios|
        decreases if more then cur + 1 else 0
      {
        RunOne(s, events, Turn(cur));
        NextKeeps(St(), Turn(cur));
        events := events + [Turn(cur)];
        more, cur := OneTurn(cur);
      }
    }

    /** The owner lets go of the bio. */
    method Release(b: Id)
      requires b < |bios| && bios[b].owned
      modifies this
      ensures St() == Next(old(St()), Endio(b)) && at == old(at) + multiset{b} && |bios| == |old(bios)|
    {
      bios := bios[b := bios[b].(owned := false)];
      at := at + multiset{b};
    }
  }
}
