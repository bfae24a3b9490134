/**
The merge hash agrees with a plain scan of the queued requests after every completed operation.
*/
module ElevatorProofs {
  import opened Common
  import opened Elevator

  // ---------------------------------------------------------------- invariant

  /** Request `id` is in bucket `b` exactly when it is hashed and its end sector belongs there. */
  predicate Filed(h: Hash, s: State, id: Id, b: nat)
    requires b < |s.buckets|
  {
    id in s.buckets[b] <==> id in s.rqs && s.rqs[id].hashed && SlotOf(h, s, s.rqs[id]) == b
  }

  ghost predicate Lists(s: State) {
    |s.buckets| >= 1 && forall b :: 0 <= b < |s.buckets| ==> Distinct(s.buckets[b])
  }

  ghost predicate FiledBut(h: Hash, s: State, hole: Option<Id>) {
    Lists(s) && forall id: Id, b :: 0 <= b < |s.buckets| && hole != Some(id) ==> Filed(h, s, id, b)
  }

  predicate RqOk(s: State, id: Id) {
    id in s.rqs ==>
      && (s.rqs[id].hashed ==> s.rqs[id].sorted)
      && (s.rqs[id].sorted && s.rqs[id].mergeable ==> s.rqs[id].hashed)
      && (id in s.queue ==> !s.rqs[id].sorted)
  }

  ghost predicate Requests(s: State) { forall id: Id :: RqOk(s, id) }

  ghost function SortedSet(s: State): set<Id> { set id | id in s.rqs && s.rqs[id].sorted }

  ghost predicate Counted(s: State) {
    && s.nrSorted == |SortedSet(s)|
    && (s.lastMerge.Some? ==> s.lastMerge.value in s.rqs && s.rqs[s.lastMerge.value].sorted)
  }

  ghost predicate Inv(h: Hash, s: State) { FiledBut(h, s, None) && Requests(s) && Counted(s) && !s.bug }

  // ---------------------------------------------------------------- hash lists

  /** Taking a request off the hash, even from under an old key. */
  lemma UnhashFiles(h: Hash, s: State, id: Id)
    requires id in s.rqs && FiledBut(h, s, Some(id))
    ensures FiledBut(h, Unhash(s, id), None)
    ensures forall b :: 0 <= b < |s.buckets| ==> id !in Unhash(s, id).buckets[b]
  {
    var s' := Unhash(s, id);
    forall b | 0 <= b < |s.buckets|
      ensures Distinct(s'.buckets[b]) && forall x :: x in s'.buckets[b] <==> x in s.buckets[b] && x != id
    {
      WithoutMembers(s.buckets[b], id);
    }
    forall x: Id, b | 0 <= b < |s'.buckets| ensures Filed(h, s', x, b) {
      if x != id { assert Filed(h, s, x, b); }
    }
  }

  lemma HashAddFiles(h: Hash, s: State, id: Id)
    requires id in s.rqs && FiledBut(h, s, None) && !s.rqs[id].hashed
    ensures FiledBut(h, HashAdd(h, s, id), None)
    ensures HashAdd(h, s, id).rqs == s.rqs[id := s.rqs[id].(hashed := true)] && HashAdd(h, s, id).bug == s.bug
  {
    var s' := HashAdd(h, s, id);
    var b0 := SlotOf(h, s, s.rqs[id]);
    assert Filed(h, s, id, b0);
    DistinctPrepend(id, s.buckets[b0]);
    forall x: Id, b | 0 <= b < |s'.buckets| ensures Filed(h, s', x, b) {
      assert Filed(h, s, x, b);
    }
  }

  lemma RepositionFiles(h: Hash, s: State, id: Id)
    requires id in s.rqs && FiledBut(h, s, Some(id))
    ensures FiledBut(h, Reposition(h, s, id), None)
    ensures Reposition(h, s, id).rqs == s.rqs[id := s.rqs[id].(hashed := true)]
  {
    hide FiledBut, HashAdd;
    UnhashFiles(h, s, id);
    HashAddFiles(h, Unhash(s, id), id);
  }

  /** Requests other than `id` are as they were. */
  lemma OthersFiled(h: Hash, s: State, s': State, id: Id)
    requires FiledBut(h, s, None) && s'.buckets == s.buckets
    requires forall x :: x != id ==> (x in s'.rqs <==> x in s.rqs) && (x in s.rqs ==> s'.rqs[x] == s.rqs[x])
    ensures FiledBut(h, s', Some(id))
  {
    forall x: Id, b | 0 <= b < |s'.buckets| && x != id ensures Filed(h, s', x, b) {
      assert Filed(h, s, x, b);
    }
  }

  /** Neither the end sector nor the hash flag changed. */
  lemma KeyKept(h: Hash, s: State, s': State, id: Id)
    requires FiledBut(h, s, None) && s'.buckets == s.buckets && id in s.rqs
    requires id in s'.rqs && s'.rqs == s.rqs[id := s'.rqs[id]]
    requires Key(s'.rqs[id]) == Key(s.rqs[id]) && s'.rqs[id].hashed == s.rqs[id].hashed
    ensures FiledBut(h, s', None)
  {
    forall x: Id, b | 0 <= b < |s'.buckets| ensures Filed(h, s', x, b) {
      assert Filed(h, s, x, b);
    }
  }

  // ---------------------------------------------------------------- lookup

  /** What the loop keeps: requests change only by losing the hash flag, and only if not mergeable. */
  ghost predicate OnlyUnhashed(s: State, s': State) {
    && |s'.buckets| == |s.buckets| && s'.lastMerge == s.lastMerge && s'.nrSorted == s.nrSorted && s'.queue == s.queue
    && (forall x :: x in s'.rqs <==> x in s.rqs)
    && (forall x :: x in s.rqs ==>
          s'.rqs[x] == s.rqs[x] || (!s.rqs[x].mergeable && s'.rqs[x] == s.rqs[x].(hashed := false)))
  }

  lemma {:induction false} FindInSpec(h: Hash, s: State, list: seq<Id>, offset: nat)
    requires FiledBut(h, s, None) && Distinct(list) && forall x :: x in list ==> x in s.rqs && s.rqs[x].hashed
    ensures var (s', r) := FindIn(s, list, offset);
      && FiledBut(h, s', None) && OnlyUnhashed(s, s') && s'.bug == s.bug
      && (r.Some? ==> r.value in list && s.rqs[r.value].mergeable && Key(s.rqs[r.value]) == offset)
      && (r.None? ==> forall x :: x in list ==> !s.rqs[x].mergeable || Key(s.rqs[x]) != offset)
    decreases |list|
  {
    hide FiledBut, Unhash;
    if list != [] {
      var id := list[0];
      assert CheckHashed(s, id) == s;
      if !s.rqs[id].mergeable {
        UnhashOne(h, s, id);
        FindInSpec(h, Unhash(s, id), list[1..], offset);
      } else if Key(s.rqs[id]) != offset {
        FindInSpec(h, s, list[1..], offset);
      }
    }
  }

  lemma UnhashOne(h: Hash, s: State, id: Id)
    requires FiledBut(h, s, None) && id in s.rqs && !s.rqs[id].mergeable
    ensures FiledBut(h, Unhash(s, id), None) && OnlyUnhashed(s, Unhash(s, id)) && Unhash(s, id).bug == s.bug
    ensures Unhash(s, id).rqs == s.rqs[id := s.rqs[id].(hashed := false)]
  {
    OthersFiled(h, s, s, id);
    UnhashFiles(h, s, id);
  }

  /** The lookup finds a request ending at `offset` exactly when a scan of all queued requests that may be
      merged with finds one, whatever the hash function. */
  lemma FindIsScan(h: Hash, s: State, offset: nat)
    requires Inv(h, s)
    ensures var r := Find(h, s, offset).1;
      && (r.Some? <==> exists id :: Open(s, id) && Key(s.rqs[id]) == offset)
      && (r.Some? ==> Open(s, r.value) && Key(s.rqs[r.value]) == offset)
    ensures FiledBut(h, Find(h, s, offset).0, None) && OnlyUnhashed(s, Find(h, s, offset).0)
    ensures !Find(h, s, offset).0.bug
  {
    var b := Slot(h, |s.buckets|, offset);
    var list := s.buckets[b];
    forall x | x in list ensures x in s.rqs && s.rqs[x].hashed && s.rqs[x].sorted {
      assert Filed(h, s, x, b) && RqOk(s, x);
    }
    FindInSpec(h, s, list, offset);
    forall id | Open(s, id) && Key(s.rqs[id]) == offset ensures id in list {
      assert RqOk(s, id) && Filed(h, s, id, b);
    }
  }

  // ---------------------------------------------------------------- operations

  predicate IsSorted(s: State, id: Id) { id in s.rqs && s.rqs[id].sorted }

  lemma CountSame(s: State, s': State)
    requires forall id: Id :: IsSorted(s', id) == IsSorted(s, id)
    ensures |SortedSet(s')| == |SortedSet(s)|
  {
    assert forall id :: id in SortedSet(s') <==> IsSorted(s', id);
    assert forall id :: id in SortedSet(s) <==> IsSorted(s, id);
    assert SortedSet(s') == SortedSet(s);
  }

  lemma CountMinus(s: State, s': State, id: Id)
    requires IsSorted(s, id) && !IsSorted(s', id)
    requires forall x: Id :: x != id ==> IsSorted(s', x) == IsSorted(s, x)
    ensures |SortedSet(s')| == |SortedSet(s)| - 1
  {
    assert forall x :: x in SortedSet(s') <==> IsSorted(s', x);
    assert forall x :: x in SortedSet(s) <==> IsSorted(s, x);
    assert SortedSet(s') == SortedSet(s) - {id};
  }

  lemma NewKeeps(h: Hash, s: State, id: Id, r: Rq)
    requires Inv(h, s) && id !in s.rqs && id !in s.queue && !r.hashed && !r.sorted
    ensures Inv(h, SetRq(s, id, r))
  {
    var s' := SetRq(s, id, r);
    forall x: Id, b | 0 <= b < |s'.buckets| ensures Filed(h, s', x, b) { assert Filed(h, s, x, b); }
    forall x: Id ensures RqOk(s', x) { assert RqOk(s, x); }
    CountSame(s, s');
  }

  lemma InsertKeeps(h: Hash, s: State, id: Id)
    requires Inv(h, s) && id in s.rqs && !s.rqs[id].sorted && id !in s.queue
    ensures Inv(h, AddSorted(h, s, id))
  {
    hide HashAdd, FiledBut, SortedSet;
    var s' := AddSorted(h, s, id);
    var s1 := SetRq(s, id, s.rqs[id].(sorted := true)).(nrSorted := s.nrSorted + 1);
    assert RqOk(s, id);
    KeyKept(h, s, s1, id);
    if s.rqs[id].mergeable { HashAddFiles(h, s1, id); AddKeeps(h, s1, id); }
    assert s'.rqs[id].sorted && s'.queue == s.queue;
    SameBuckets(h, if s.rqs[id].mergeable then HashAdd(h, s1, id) else s1, s');
    forall x: Id ensures RqOk(s', x) { assert RqOk(s, x); }
    CountMinus(s', s, id);
  }

  /** HashAdd touches the hash only. */
  lemma AddKeeps(h: Hash, s: State, id: Id)
    requires id in s.rqs && !s.rqs[id].hashed
    ensures var s' := HashAdd(h, s, id);
      s'.bug == s.bug && s'.lastMerge == s.lastMerge && s'.nrSorted == s.nrSorted && s'.queue == s.queue
  {
  }

  lemma SameBuckets(h: Hash, s: State, s': State)
    requires FiledBut(h, s, None) && s'.buckets == s.buckets && s'.rqs == s.rqs
    ensures FiledBut(h, s', None)
  {
    forall x: Id, b | 0 <= b < |s'.buckets| ensures Filed(h, s', x, b) { assert Filed(h, s, x, b); }
  }

  lemma RepositionFrame(h: Hash, s: State, id: Id)
    ensures var s' := Reposition(h, s, id);
      s'.bug == s.bug && s'.lastMerge == s.lastMerge && s'.nrSorted == s.nrSorted && s'.queue == s.queue
  {
  }

  /** The request `id` has grown to `r` and is filed again. */
  lemma GrowKeeps(h: Hash, s: State, id: Id, r: Rq)
    requires Inv(h, s) && Open(s, id) && r.sorted && r.mergeable
    ensures Inv(h, Reposition(h, SetRq(s, id, r), id).(lastMerge := Some(id)))
    ensures Reposition(h, SetRq(s, id, r), id).rqs == s.rqs[id := r.(hashed := true)]
  {
    hide Reposition, FiledBut, SortedSet;
    var s1 := SetRq(s, id, r);
    var s2 := Reposition(h, s1, id);
    OthersFiled(h, s, s1, id);
    RepositionFiles(h, s1, id);
    RepositionFrame(h, s1, id);
    var s' := s2.(lastMerge := Some(id));
    SameBuckets(h, s2, s');
    forall x: Id ensures RqOk(s', x) { assert RqOk(s, x); }
    CountSame(s, s');
  }

  lemma FrontKeeps(h: Hash, s: State, id: Id, n: nat)
    requires Inv(h, s) && Open(s, id) && n <= s.rqs[id].pos
    ensures Inv(h, FrontMerged(s, id, n))
  {
    hide FiledBut, SortedSet;
    var s' := FrontMerged(s, id, n);
    KeyKept(h, s, s', id);
    forall x: Id ensures RqOk(s', x) { assert RqOk(s, x); }
    CountSame(s, s');
  }

  lemma NoMergeKeeps(h: Hash, s: State, id: Id)
    requires Inv(h, s) && id in s.rqs
    ensures Inv(h, SetRq(s, id, s.rqs[id].(mergeable := false)))
  {
    hide FiledBut, SortedSet;
    var s' := SetRq(s, id, s.rqs[id].(mergeable := false));
    KeyKept(h, s, s', id);
    forall x: Id ensures RqOk(s', x) { assert RqOk(s, x); }
    CountSame(s, s');
  }

  /** A request off the hash and out of the elevator goes away. */
  lemma GoneKeeps(h: Hash, s: State, s': State, id: Id)
    requires FiledBut(h, s, None) && id in s.rqs && !s.rqs[id].hashed
    requires s'.buckets == s.buckets && s'.rqs == s.rqs - {id}
    ensures FiledBut(h, s', None)
  {
    forall x: Id, b | 0 <= b < |s'.buckets| ensures Filed(h, s', x, b) { assert Filed(h, s, x, b); }
  }

  lemma HashDelSpec(h: Hash, s: State, id: Id)
    requires FiledBut(h, s, None) && id in s.rqs
    ensures var s' := HashDel(s, id);
      && FiledBut(h, s', None) && s'.rqs == s.rqs[id := s.rqs[id].(hashed := false)]
      && s'.lastMerge == s.lastMerge && s'.nrSorted == s.nrSorted && s'.queue == s.queue && s'.bug == s.bug
  {
    if s.rqs[id].hashed {
      OthersFiled(h, s, s, id);
      UnhashFiles(h, s, id);
    }
  }

  /** `id` grows to `r` while `next` goes. */
  lemma AbsorbKeeps(h: Hash, s: State, id: Id, next: Id, r: Rq)
    requires Inv(h, s) && CanAbsorb(s, id, next) && r.sorted && r.mergeable
    ensures Inv(h, Absorb(h, s, id, next, r))
  {
    hide Reposition, HashDel, FiledBut, SortedSet;
    GrowKeeps(h, s, id, r);
    var s2 := Reposition(h, SetRq(s, id, r), id);
    RepositionFrame(h, SetRq(s, id, r), id);
    SameBuckets(h, s2.(lastMerge := Some(id)), s2);
    HashDelSpec(h, s2, next);
    assert RqOk(s, next);
    var s' := Absorb(h, s, id, next, r);
    var s3 := if s.rqs[next].sorted then HashDel(s2, next) else s2;
    GoneKeeps(h, s3, s', next);
    forall x: Id ensures RqOk(s', x) { assert RqOk(s, x); }
    if s.rqs[next].sorted { CountMinus(s, s', next); } else { CountSame(s, s'); }
  }

  lemma DispatchKeeps(h: Hash, s: State, id: Id, at: nat)
    requires Inv(h, s) && IsSorted(s, id)
    ensures Inv(h, Dispatched(s, id, at))
  {
    hide HashDel, FiledBut, SortedSet;
    var s1 := if s.lastMerge == Some(id) then s.(lastMerge := None) else s;
    SameBuckets(h, s, s1);
    HashDelSpec(h, s1, id);
    var s2 := HashDel(s1, id);
    var s' := Dispatched(s, id, at);
    KeyKept(h, s2, s', id);
    forall x: Id ensures RqOk(s', x) {
      assert RqOk(s, x);
      assert s.queue == s.queue[..|s.queue|];
    }
    CountMinus(s, s', id);
  }

  lemma RetireKeeps(h: Hash, s: State, id: Id)
    requires Inv(h, s) && id in s.queue
    ensures Inv(h, s.(rqs := s.rqs - {id}, queue := Without(s.queue, id)))
  {
    hide FiledBut, SortedSet, Without;
    var s' := s.(rqs := s.rqs - {id}, queue := Without(s.queue, id));
    assert RqOk(s, id);
    WithoutMembers(s.queue, id);
    if id in s.rqs { GoneKeeps(h, s, s', id); } else { assert s'.rqs == s.rqs; SameBuckets(h, s, s'); }
    forall x: Id ensures RqOk(s', x) { assert RqOk(s, x); }
    CountSame(s, s');
  }

  lemma LookupKeeps(h: Hash, s: State, offset: nat)
    requires Inv(h, s)
    ensures Inv(h, Find(h, s, offset).0)
  {
    hide Find, FiledBut, SortedSet;
    FindIsScan(h, s, offset);
    var s' := Find(h, s, offset).0;
    forall x: Id ensures RqOk(s', x) { assert RqOk(s, x); }
    CountSame(s, s');
  }

  lemma NextKeeps(h: Hash, s: State, e: Event)
    requires Inv(h, s)
    ensures Inv(h, Next(h, s, e))
  {
    hide Inv, AddSorted, Dispatched, Find, Without, FrontMerged, Reposition, HashDel, Absorb;
    if Enabled(s, e) {
      match e {
        case New(id, pos, sectors, m) => NewKeeps(h, s, id, Rq(pos, sectors, m, false, false));
        case InsertSort(id) => InsertKeeps(h, s, id);
        case BackMerge(id, n) => GrowKeeps(h, s, id, s.rqs[id].(sectors := s.rqs[id].sectors + n));
        case FrontMerge(id, n) => FrontKeeps(h, s, id, n);
        case BackMergeBoth(id, n, next) => BackBothKeeps(h, s, id, n, next);
        case FrontMergeBoth(prev, id, n) => FrontBothKeeps(h, s, prev, id, n);
        case MergeRequests(id, next) =>
          AbsorbKeeps(h, s, id, next, s.rqs[id].(sectors := s.rqs[id].sectors + s.rqs[next].sectors));
        case NoMerge(id) => NoMergeKeeps(h, s, id);
        case Dispatch(id, at) => DispatchKeeps(h, s, id, at);
        case Retire(id) => RetireKeeps(h, s, id);
        case Lookup(offset) => LookupKeeps(h, s, offset);
      }
    }
  }

  /** The bio grew `id` at the back, and then `id` absorbed what follows. */
  lemma BackBothKeeps(h: Hash, s: State, id: Id, n: nat, next: Id)
    requires Inv(h, s) && CanAbsorb(s, id, next)
    ensures Inv(h, MergedRequests(h, SetRq(s, id, s.rqs[id].(sectors := s.rqs[id].sectors + n)), id, next))
  {
    hide Reposition, HashDel, Inv;
    var s1 := SetRq(s, id, s.rqs[id].(sectors := s.rqs[id].sectors + n));
    var r := s.rqs[id].(sectors := s.rqs[id].sectors + n + s.rqs[next].sectors);
    AbsorbKeeps(h, s, id, next, r);
    assert SetRq(s1, id, r).rqs == SetRq(s, id, r).rqs;
    assert MergedRequests(h, s1, id, next) == Absorb(h, s, id, next, r);
  }

  /** The bio grew `id` at the front, and then the request before it absorbed it. */
  lemma FrontBothKeeps(h: Hash, s: State, prev: Id, id: Id, n: nat)
    requires Inv(h, s) && CanAbsorb(s, prev, id) && s.rqs[id].sorted && n <= s.rqs[id].pos
    ensures Inv(h, MergedRequests(h,
      SetRq(s, id, s.rqs[id].(pos := s.rqs[id].pos - n, sectors := s.rqs[id].sectors + n)), prev, id))
  {
    hide Reposition, HashDel, FiledBut, SortedSet;
    var s1 := SetRq(s, id, s.rqs[id].(pos := s.rqs[id].pos - n, sectors := s.rqs[id].sectors + n));
    KeyKept(h, s, s1, id);
    forall x: Id ensures RqOk(s1, x) { assert RqOk(s, x); }
    CountSame(s, s1);
    AbsorbKeeps(h, s1, prev, id, s.rqs[prev].(sectors := s.rqs[prev].sectors + s1.rqs[id].sectors));
  }

  lemma {:induction false} RunKeeps(h: Hash, s: State, events: seq<Event>)
    requires Inv(h, s)
    ensures Inv(h, Run(h, s, events))
    decreases |events|
  {
    hide Inv, Next;
    if events != [] {
      NextKeeps(h, s, events[0]);
      RunKeeps(h, Next(h, s, events[0]), events[1..]);
    }
  }

  lemma InitInv(h: Hash, n: nat)
    requires n >= 1
    ensures Inv(h, Init(n))
  {
  }

  // ---------------------------------------------------------------- what it means

  /** After every completed operation: no BUG_ON has fired, every hashed request is filed under its present end
      sector, a request that may be merged with is hashed, last_merge is null or in the elevator and not dispatched, and
      nr_sorted counts the requests there. */
  lemma IndexesAgree(h: Hash, n: nat, events: seq<Event>, id: Id)
    requires n >= 1
    ensures var s := Run(h, Init(n), events);
      && (forall b :: 0 <= b < |s.buckets| ==>
            (id in s.buckets[b] <==> id in s.rqs && s.rqs[id].hashed && SlotOf(h, s, s.rqs[id]) == b))
      && (Open(s, id) ==> s.rqs[id].hashed)
      && (s.lastMerge == Some(id) ==> id in s.rqs && s.rqs[id].sorted && id !in s.queue)
      && s.nrSorted == |SortedSet(s)| && !s.bug
  {
    hide SortedSet;
    InitInv(h, n);
    RunKeeps(h, Init(n), events);
    var s := Run(h, Init(n), events);
    assert RqOk(s, id);
    forall b | 0 <= b < |s.buckets|
      ensures id in s.buckets[b] <==> id in s.rqs && s.rqs[id].hashed && SlotOf(h, s, s.rqs[id]) == b
    {
      assert Filed(h, s, id, b);
    }
  }

  /** A back-merge candidate is found after every run exactly when there is one. */
  lemma LookupIsScan(h: Hash, n: nat, events: seq<Event>, offset: nat)
    requires n >= 1
    ensures var s := Run(h, Init(n), events);
      Find(h, s, offset).1.Some? <==> exists id :: Open(s, id) && Key(s.rqs[id]) == offset
  {
    hide Inv, Find;
    InitInv(h, n);
    RunKeeps(h, Init(n), events);
    FindIsScan(h, Run(h, Init(n), events), offset);
  }
}
