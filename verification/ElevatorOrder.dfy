/**
What becomes of a request in the elevator: it is dispatched or absorbed, and never lost; and which sectors it covers.
*/
module ElevatorOrder {
  import opened Common
  import opened Elevator
  import opened ElevatorProofs

  /** The request that an event merges into another, if any. */
  function Absorbed(e: Event): Option<Id> {
    match e
    case BackMergeBoth(_, _, next) => Some(next)
    case FrontMergeBoth(_, id, _) => Some(id)
    case MergeRequests(_, next) => Some(next)
    case _ => None
  }

  predicate InElevator(s: State, id: Id) { id in s.rqs && s.rqs[id].sorted }

  // ---------------------------------------------------------------- dispatch

  /** A queue with one more request, at place `at` or last. */
  function Inserted(q: seq<Id>, id: Id, at: nat): seq<Id> {
    if at <= |q| then q[..at] + [id] + q[at..] else q + [id]
  }

  /** Dispatching puts a request on the queue, at the place asked for, and takes it off the hash and out of the merge
      cache; nothing else changes. */
  lemma DispatchedIs(s: State, id: Id, at: nat)
    requires id in s.rqs
    ensures var s' := Dispatched(s, id, at);
      && s'.queue == Inserted(s.queue, id, at) && id in s'.queue
      && s'.rqs == s.rqs[id := s.rqs[id].(sorted := false, hashed := false)]
      && s'.lastMerge == (if s.lastMerge == Some(id) then None else s.lastMerge)
  {
    hide HashDel, Inserted;
    var s1 := if s.lastMerge == Some(id) then s.(lastMerge := None) else s;
    HashDelIs(s1, id);
    QueuePlace(s.queue, id, at);
  }

  lemma HashDelIs(s: State, id: Id)
    requires id in s.rqs
    ensures var s' := HashDel(s, id);
      && s'.rqs == s.rqs[id := s.rqs[id].(hashed := false)]
      && s'.queue == s.queue && s'.lastMerge == s.lastMerge
  {
    hide Without;
  }

  lemma QueuePlace(q: seq<Id>, id: Id, at: nat)
    ensures var k := if at <= |q| then at else |q|;
      q[..k] + [id] + q[k..] == Inserted(q, id, at) && id in Inserted(q, id, at)
  {
    if at <= |q| {
      Middle(q, id, at);
    } else {
      assert q[..|q|] == q && q[|q|..] == [] && q + [id] + [] == q + [id];
    }
  }

  lemma Middle(q: seq<Id>, x: Id, k: nat)
    requires k <= |q|
    ensures x in q[..k] + [x] + q[k..]
  {
    assert (q[..k] + [x] + q[k..])[k] == x;
  }

  // ---------------------------------------------------------------- requests, but for the hash

  /** The same requests, whether hashed or not. */
  ghost predicate Alike(a: map<Id, Rq>, b: map<Id, Rq>) {
    a.Keys == b.Keys && forall x :: x in a ==> b[x] == a[x].(hashed := b[x].hashed)
  }

  lemma AlikeVia(a: map<Id, Rq>, b: map<Id, Rq>, c: map<Id, Rq>)
    requires Alike(a, b) && Alike(b, c)
    ensures Alike(a, c)
  {
    forall x | x in a ensures x in c && c[x] == a[x].(hashed := c[x].hashed) { assert x in b.Keys; }
  }

  lemma RepositionAlike(h: Hash, s: State, id: Id)
    ensures Alike(s.rqs, Reposition(h, s, id).rqs) && Reposition(h, s, id).queue == s.queue
  {
    hide Without;
  }

  lemma UnhashAlike(s: State, id: Id)
    ensures Alike(s.rqs, Unhash(s, id).rqs) && Unhash(s, id).queue == s.queue
  {
    hide Without;
  }

  lemma HashDelAlike(s: State, id: Id)
    ensures Alike(s.rqs, HashDel(s, id).rqs) && HashDel(s, id).queue == s.queue
  {
    hide Unhash;
    UnhashAlike(s, id);
  }

  lemma AbsorbAlike(h: Hash, s: State, id: Id, next: Id, r: Rq)
    requires id in s.rqs && next in s.rqs
    ensures Alike(s.rqs[id := r] - {next}, Absorb(h, s, id, next, r).rqs) && Absorb(h, s, id, next, r).queue == s.queue
  {
    hide Reposition, HashDel;
    RepositionAlike(h, SetRq(s, id, r), id);
    var s2 := Reposition(h, SetRq(s, id, r), id);
    HashDelAlike(s2, next);
    AlikeVia(s.rqs[id := r], s2.rqs, HashDel(s2, next).rqs);
  }

  lemma {:induction false} FindInAlike(s: State, list: seq<Id>, offset: nat)
    ensures Alike(s.rqs, FindIn(s, list, offset).0.rqs) && FindIn(s, list, offset).0.queue == s.queue
    decreases |list|
  {
    hide Unhash;
    if list != [] {
      var (id, s1) := (list[0], CheckHashed(s, list[0]));
      UnhashAlike(s1, id);
      FindInAlike(s1, list[1..], offset);
      FindInAlike(Unhash(s1, id), list[1..], offset);
      AlikeVia(s.rqs, Unhash(s1, id).rqs, FindIn(Unhash(s1, id), list[1..], offset).0.rqs);
    }
  }

  lemma FindAlike(h: Hash, s: State, offset: nat)
    ensures Alike(s.rqs, Find(h, s, offset).0.rqs) && Find(h, s, offset).0.queue == s.queue
  {
    hide FindIn;
    var b := Slot(h, |s.buckets|, offset);
    if b < |s.buckets| { FindInAlike(s, s.buckets[b], offset); }
  }

  function Grown(r: Rq, n: nat): Rq { r.(sectors := r.sectors + n) }

  /** The requests after an event. */
  ghost function Expected(s: State, e: Event): map<Id, Rq>
    requires Enabled(s, e)
  {
    match e
    case New(id, pos, sectors, mergeable) => s.rqs[id := Rq(pos, sectors, mergeable, false, false)]
    case InsertSort(id) => s.rqs[id := s.rqs[id].(sorted := true)]
    case BackMerge(id, n) => s.rqs[id := Grown(s.rqs[id], n)]
    case FrontMerge(id, n) => s.rqs[id := Grown(s.rqs[id].(pos := s.rqs[id].pos - n), n)]
    case BackMergeBoth(id, n, next) => s.rqs[id := Grown(s.rqs[id], n + s.rqs[next].sectors)] - {next}
    case FrontMergeBoth(prev, id, n) => s.rqs[prev := Grown(s.rqs[prev], n + s.rqs[id].sectors)] - {id}
    case MergeRequests(id, next) => s.rqs[id := Grown(s.rqs[id], s.rqs[next].sectors)] - {next}
    case NoMerge(id) => s.rqs[id := s.rqs[id].(mergeable := false)]
    case Dispatch(id, _) => s.rqs[id := s.rqs[id].(sorted := false)]
    case Retire(id) => s.rqs - {id}
    case Lookup(_) => s.rqs
  }

  /** And the queue. */
  ghost function ExpectedQueue(s: State, e: Event): seq<Id> {
    match e
    case Dispatch(id, at) => Inserted(s.queue, id, at)
    case Retire(id) => Without(s.queue, id)
    case _ => s.queue
  }

  lemma StepExpected(h: Hash, s: State, e: Event)
    requires Enabled(s, e)
    ensures Alike(Expected(s, e), Next(h, s, e).rqs) && Next(h, s, e).queue == ExpectedQueue(s, e)
  {
    hide Find, MergedRequests, Reposition, AddSorted, Dispatched, Without;
    match e {
      case InsertSort(x) => AddAlike(h, s, x);
      case BackMerge(x, n) => RepositionAlike(h, SetRq(s, x, Grown(s.rqs[x], n)), x);
      case BackMergeBoth(x, n, next) => BackBothAlike(h, s, x, n, next);
      case FrontMergeBoth(prev, x, n) => FrontBothAlike(h, s, prev, x, n);
      case MergeRequests(x, next) => MergedAlike(h, s, x, next);
      case Dispatch(x, at) => DispatchedIs(s, x, at);
      case Lookup(offset) => FindAlike(h, s, offset);
      case _ =>
    }
  }

  lemma MergedAlike(h: Hash, s: State, id: Id, next: Id)
    requires id in s.rqs && next in s.rqs
    ensures Alike(s.rqs[id := Grown(s.rqs[id], s.rqs[next].sectors)] - {next}, MergedRequests(h, s, id, next).rqs)
    ensures MergedRequests(h, s, id, next).queue == s.queue
  {
    hide Absorb;
    AbsorbAlike(h, s, id, next, Grown(s.rqs[id], s.rqs[next].sectors));
  }

  lemma BackBothAlike(h: Hash, s: State, id: Id, n: nat, next: Id)
    requires id in s.rqs && next in s.rqs && id != next
    ensures var s' := MergedRequests(h, SetRq(s, id, Grown(s.rqs[id], n)), id, next);
      Alike(s.rqs[id := Grown(s.rqs[id], n + s.rqs[next].sectors)] - {next}, s'.rqs) && s'.queue == s.queue
  {
    hide MergedRequests;
    var s1 := SetRq(s, id, Grown(s.rqs[id], n));
    MergedAlike(h, s1, id, next);
    assert s1.rqs[id := Grown(s1.rqs[id], s1.rqs[next].sectors)]
        == s.rqs[id := Grown(s.rqs[id], n + s.rqs[next].sectors)];
  }

  lemma FrontBothAlike(h: Hash, s: State, prev: Id, id: Id, n: nat)
    requires prev in s.rqs && id in s.rqs && prev != id && n <= s.rqs[id].pos
    ensures var s' := MergedRequests(h, SetRq(s, id, Grown(s.rqs[id].(pos := s.rqs[id].pos - n), n)), prev, id);
      Alike(s.rqs[prev := Grown(s.rqs[prev], n + s.rqs[id].sectors)] - {id}, s'.rqs) && s'.queue == s.queue
  {
    hide MergedRequests;
    var s1 := SetRq(s, id, Grown(s.rqs[id].(pos := s.rqs[id].pos - n), n));
    MergedAlike(h, s1, prev, id);
    assert s1.rqs[prev := Grown(s1.rqs[prev], s1.rqs[id].sectors)] - {id}
        == s.rqs[prev := Grown(s.rqs[prev], n + s.rqs[id].sectors)] - {id};
  }

  lemma AddAlike(h: Hash, s: State, id: Id)
    requires id in s.rqs
    ensures Alike(s.rqs[id := s.rqs[id].(sorted := true)], AddSorted(h, s, id).rqs)
    ensures AddSorted(h, s, id).queue == s.queue
  {
  }

  // ---------------------------------------------------------------- nothing is lost

  /** One step: a request in the elevator stays there unless it is dispatched or absorbed, and one on the queue stays
      there until the driver is done with it. */
  lemma StepNotLost(h: Hash, s: State, e: Event, id: Id)
    requires Inv(h, s)
    ensures var s' := Next(h, s, e);
      && (InElevator(s, id) ==> InElevator(s', id) || id in s'.queue || Absorbed(e) == Some(id))
      && (id in s.queue ==> id in s'.queue || e == Retire(id))
  {
    hide Inv, Without;
    if Enabled(s, e) {
      Stays(h, s, e, id);
      if e.Retire? {
        WithoutMembers(s.queue, e.id);
        Apart(h, s, e.id);
      }
      if e.Dispatch? && id in s.queue { Within(s.queue, e.id, e.at, id); }
    } else {
      assert Next(h, s, e) == s;
    }
  }

  lemma Stays(h: Hash, s: State, e: Event, id: Id)
    requires Enabled(s, e)
    ensures var s' := Next(h, s, e);
      && (InElevator(s, id) ==> InElevator(s', id) || id in s'.queue || Absorbed(e) == Some(id) || e == Retire(id))
      && s'.queue == ExpectedQueue(s, e)
  {
    hide Next, Without;
    StepExpected(h, s, e);
    assert id in Expected(s, e) <==> id in Next(h, s, e).rqs;
    if e.Dispatch? && e.id == id { Within(s.queue, id, e.at, id); }
  }

  lemma Within(q: seq<Id>, x: Id, at: nat, id: Id)
    requires id in q || id == x
    ensures id in Inserted(q, x, at)
  {
    if at <= |q| {
      Middle(q, x, at);
      assert q == q[..at] + q[at..];
    }
  }

  lemma Apart(h: Hash, s: State, id: Id)
    requires Inv(h, s) && id in s.queue
    ensures !InElevator(s, id)
  {
    assert RqOk(s, id);
  }

  /** Over every run: what was in the elevator is there still or on the queue, unless it was absorbed by another
      request or the driver is done with it. */
  lemma {:induction false} NotLost(h: Hash, s: State, events: seq<Event>, id: Id)
    requires Inv(h, s) && (InElevator(s, id) || id in s.queue)
    requires forall i :: 0 <= i < |events| ==> Absorbed(events[i]) != Some(id) && events[i] != Retire(id)
    ensures InElevator(Run(h, s, events), id) || id in Run(h, s, events).queue
    decreases |events|
  {
    hide Inv, Next, Absorbed, InElevator;
    if events != [] {
      assert Absorbed(events[0]) != Some(id) && events[0] != Retire(id);
      StepNotLost(h, s, events[0], id);
      ElevatorProofs.NextKeeps(h, s, events[0]);
      NotLost(h, Next(h, s, events[0]), events[1..], id);
    }
  }

  // ---------------------------------------------------------------- sectors

  /** The first sector of a request and the one behind its last. */
  predicate Covers(s: State, id: Id, from: nat, to: nat) {
    id in s.rqs && s.rqs[id].pos == from && s.rqs[id].pos + s.rqs[id].sectors == to
  }

  /** A merge at the back moves the end, one at the front the start, and a request takes over the sectors of one it
      absorbs; no other event changes what a request covers. */
  lemma StepCovers(h: Hash, s: State, e: Event, id: Id)
    requires Enabled(s, e) && id in s.rqs && Absorbed(e) != Some(id) && e != Retire(id)
    ensures var (s', a, z) := (Next(h, s, e), s.rqs[id].pos, s.rqs[id].pos + s.rqs[id].sectors);
      match e
      case BackMerge(x, n) => Covers(s', id, a, if x == id then z + n else z)
      case FrontMerge(x, n) => Covers(s', id, if x == id then a - n else a, z)
      case BackMergeBoth(x, n, next) => Covers(s', id, a, if x == id then z + n + s.rqs[next].sectors else z)
      case FrontMergeBoth(x, next, n) => Covers(s', id, a, if x == id then z + n + s.rqs[next].sectors else z)
      case MergeRequests(x, next) => Covers(s', id, a, if x == id then z + s.rqs[next].sectors else z)
      case _ => Covers(s', id, a, z)
  {
    hide Next;
    StepExpected(h, s, e);
    assert id in Expected(s, e) <==> id in Next(h, s, e).rqs;
  }

  // ---------------------------------------------------------------- the merge cache

  /** The merge cache names the last request that something was merged into, or else the first that came to be merged
      with; it forgets a request that is dispatched. */
  lemma StepLastMerge(h: Hash, s: State, e: Event)
    requires Enabled(s, e)
    ensures Next(h, s, e).lastMerge ==
      match e
      case BackMerge(id, _) => Some(id)
      case FrontMerge(id, _) => Some(id)
      case BackMergeBoth(id, _, _) => Some(id)
      case FrontMergeBoth(prev, _, _) => Some(prev)
      case MergeRequests(id, _) => Some(id)
      case InsertSort(id) => if s.rqs[id].mergeable && s.lastMerge == None then Some(id) else s.lastMerge
      case Dispatch(id, _) => if s.lastMerge == Some(id) then None else s.lastMerge
      case _ => s.lastMerge
  {
    hide Find, Reposition, HashDel, HashAdd, Dispatched;
    match e {
      case InsertSort(id) => AddKeepsCache(h, s, id);
      case Dispatch(id, at) => DispatchedIs(s, id, at);
      case Lookup(offset) => FindKeepsCache(h, s, offset);
      case _ =>
    }
  }

  lemma AddKeepsCache(h: Hash, s: State, id: Id)
    requires id in s.rqs
    ensures AddSorted(h, s, id).lastMerge ==
      if s.rqs[id].mergeable && s.lastMerge == None then Some(id) else s.lastMerge
  {
  }

  lemma {:induction false} FindInKeepsCache(s: State, list: seq<Id>, offset: nat)
    ensures FindIn(s, list, offset).0.lastMerge == s.lastMerge
    decreases |list|
  {
    hide Without;
    if list != [] {
      FindInKeepsCache(CheckHashed(s, list[0]), list[1..], offset);
      FindInKeepsCache(Unhash(CheckHashed(s, list[0]), list[0]), list[1..], offset);
    }
  }

  lemma FindKeepsCache(h: Hash, s: State, offset: nat)
    ensures Find(h, s, offset).0.lastMerge == s.lastMerge
  {
    hide FindIn;
    var b := Slot(h, |s.buckets|, offset);
    if b < |s.buckets| { FindInKeepsCache(s, s.buckets[b], offset); }
  }
}
