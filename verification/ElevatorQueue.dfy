/** The elevator part of a request queue, updated in place (block/elevator.c). */
module ElevatorQueue {
  import opened Common
  import opened Elevator
  import opened ElevatorProofs

  lemma {:induction false} RunConcat(h: Hash, s: State, a: seq<Event>, b: seq<Event>)
    ensures Run(h, s, a + b) == Run(h, Run(h, s, a), b)
    decreases |a|
  {
    hide Next;
    if a == [] {
      assert a + b == b;
    } else {
      assert (a + b)[0] == a[0] && (a + b)[1..] == a[1..] + b;
      RunConcat(h, Next(h, s, a[0]), a[1..], b);
    }
  }

  lemma RunOne(h: Hash, s: State, a: seq<Event>, e: Event)
    ensures Run(h, s, a + [e]) == Next(h, Run(h, s, a), e)
  {
    hide Next;
    RunConcat(h, s, a, [e]);
    assert [e][1..] == [];
  }

  /** Request `x` may be merged with and ends where `id` starts. */
  predicate Partner(s: State, id: Id, x: Id) {
    id in s.rqs && x != id && Open(s, x) && Key(s.rqs[x]) == s.rqs[id].pos
  }

  class ElevatorQueue {
    const hash: Hash
    var rqs: map<Id, Rq>
    const buckets: array<seq<Id>>
    var lastMerge: Option<Id>
    var nrSorted: int
    var queue: seq<Id>
    var bug: bool

    constructor (hash: Hash, n: nat)
      ensures St() == Init(n) && this.hash == hash && fresh(buckets)
    {
      this.hash := hash;
      rqs, lastMerge, nrSorted, queue, bug := map[], None, 0, [], false;
      buckets := new seq<Id>[n](_ => []);
    }

    ghost function St(): State
      reads this, buckets
    {
      State(rqs, buckets[..], lastMerge, nrSorted, queue, bug)
    }

    method RqHashDel(id: Id)
      requires id in rqs
      modifies this`rqs, buckets
      ensures St() == Unhash(old(St()), id)
    {
      forall b | 0 <= b < buckets.Length { buckets[b] := Without(buckets[b], id); }
      rqs := rqs[id := rqs[id].(hashed := false)];
    }

    method RqHashAdd(id: Id)
      requires id in rqs && buckets.Length > 0
      modifies this`rqs, this`bug, buckets
      ensures St() == HashAdd(hash, old(St()), id)
    {
      var b := hash(rqs[id].pos + rqs[id].sectors) % buckets.Length;
      bug := bug || rqs[id].hashed;
      buckets[b] := [id] + buckets[b];
      rqs := rqs[id := rqs[id].(hashed := true)];
    }

    method RqHashReposition(id: Id)
      requires id in rqs && buckets.Length > 0
      modifies this`rqs, this`bug, buckets
      ensures St() == Reposition(hash, old(St()), id)
    {
      RqHashDel(id);
      RqHashAdd(id);
    }

    /** elv_rqhash_find: a request ending at `offset`, if one that may be merged with does. */
    method RqHashFind(offset: nat) returns (r: Option<Id>)
      requires Inv(hash, St())
      modifies this`rqs, this`bug, buckets
      ensures (St(), r) == Find(hash, old(St()), offset) && Inv(hash, St()) && OnlyUnhashed(old(St()), St())
      ensures r.Some? <==> exists id :: Open(old(St()), id) && Key(old(rqs)[id]) == offset
      ensures r.Some? ==> Open(St(), r.value) && Key(rqs[r.value]) == offset
    {
      hide Inv, Find, FindIn, OnlyUnhashed;
      ghost var s := St();
      FindIsScan(hash, s, offset);
      LookupKeeps(hash, s, offset);
      SomeBucket(hash, s);
      var b := hash(offset) % buckets.Length;
      ghost var whole := buckets[b];
      FindStart(hash, s, offset);
      BucketLive(hash, s, b);
      var list := buckets[b];
      while list != []
        invariant FindIn(St(), list, offset) == Find(hash, s, offset)
        invariant rqs.Keys == s.rqs.Keys && forall x :: x in list ==> x in s.rqs
        decreases |list|
      {
        var id := list[0];
        FindStep(St(), list, offset);
        bug := bug || !rqs[id].hashed;
        if !rqs[id].mergeable {
          RqHashDel(id);
        } else if rqs[id].pos + rqs[id].sectors == offset {
          r := Some(id);
          return;
        }
        list := list[1..];
      }
      FindEnd(St(), offset);
      r := None;
    }

    static lemma SomeBucket(h: Hash, s: State)
      requires Inv(h, s)
      ensures |s.buckets| >= 1
    {
    }

    static lemma BucketLive(h: Hash, s: State, b: nat)
      requires Inv(h, s) && b < |s.buckets|
      ensures forall x :: x in s.buckets[b] ==> x in s.rqs
    {
      forall x | x in s.buckets[b] ensures x in s.rqs { assert Filed(h, s, x, b); }
    }

    static lemma FindStart(h: Hash, s: State, offset: nat)
      requires |s.buckets| >= 1
      ensures Find(h, s, offset) == FindIn(s, s.buckets[h(offset) % |s.buckets|], offset)
    {
    }

    static lemma FindStep(s: State, list: seq<Id>, offset: nat)
      requires list != [] && list[0] in s.rqs
      ensures var s1 := s.(bug := s.bug || !s.rqs[list[0]].hashed);
        FindIn(s, list, offset) ==
          if !s.rqs[list[0]].mergeable then FindIn(Unhash(s1, list[0]), list[1..], offset)
          else if Key(s.rqs[list[0]]) == offset then (s1, Some(list[0]))
          else FindIn(s1, list[1..], offset)
    {
    }

    static lemma FindEnd(s: State, offset: nat)
      ensures FindIn(s, [], offset) == (s, None)
    {
    }

    /** elv_merged_request for a back merge, after the bio went in. */
    method MergedBack(id: Id, n: nat)
      requires Inv(hash, St()) && Open(St(), id)
      modifies this`rqs, this`lastMerge, this`bug, buckets
      ensures St() == BackMerged(hash, old(St()), id, n) && Inv(hash, St())
    {
      hide Inv, Reposition;
      SomeBucket(hash, St());
      ghost var s := St();
      GrowKeeps(hash, s, id, s.rqs[id].(sectors := s.rqs[id].sectors + n));
      rqs := rqs[id := rqs[id].(sectors := rqs[id].sectors + n)];
      RqHashReposition(id);
      lastMerge := Some(id);
    }

    /** elv_merge_requests, after the sectors of `next` went to `id`; then `next` is freed. */
    method MergeTwo(id: Id, next: Id)
      requires Inv(hash, St()) && CanAbsorb(St(), id, next)
      modifies this`rqs, this`lastMerge, this`nrSorted, this`bug, buckets
      ensures St() == MergedRequests(hash, old(St()), id, next) && Inv(hash, St())
      ensures rqs.Keys == old(rqs).Keys - {next} && Open(St(), id)
    {
      hide Inv, Reposition;
      ghost var s := St();
      SomeBucket(hash, s);
      ghost var r := s.rqs[id].(sectors := s.rqs[id].sectors + s.rqs[next].sectors);
      AbsorbKeeps(hash, s, id, next, r);
      GrowKeeps(hash, s, id, r);
      var sorted := rqs[next].sorted;
      rqs := rqs[id := rqs[id].(sectors := rqs[id].sectors + rqs[next].sectors)];
      RqHashReposition(id);
      RepositionFrame(hash, SetRq(s, id, r), id);
      if sorted {
        if rqs[next].hashed { RqHashDel(next); }
        nrSorted := nrSorted - 1;
      }
      lastMerge := Some(id);
      rqs := rqs - {next};
    }

    /** ELEVATOR_INSERT_SORT of __elv_add_request. */
    method AddSort(id: Id)
      requires Inv(hash, St()) && id in rqs && !rqs[id].sorted && id !in queue
      modifies this`rqs, this`lastMerge, this`nrSorted, this`bug, buckets
      ensures St() == AddSorted(hash, old(St()), id) && Inv(hash, St())
    {
      hide Inv;
      InsertKeeps(hash, St(), id);
      SomeBucket(hash, St());
      rqs := rqs[id := rqs[id].(sorted := true)];
      nrSorted := nrSorted + 1;
      if rqs[id].mergeable {
        RqHashAdd(id);
        if lastMerge.None? { lastMerge := Some(id); }
      }
    }

    /** elv_dispatch_add_tail. */
    method DispatchAddTail(id: Id)
      requires Inv(hash, St()) && id in rqs && rqs[id].sorted
      modifies this, buckets
      ensures St() == Dispatched(old(St()), id, |old(queue)|) && Inv(hash, St())
      ensures queue == old(queue) + [id] && !rqs[id].sorted && lastMerge != Some(id)
    {
      hide Inv;
      DispatchKeeps(hash, St(), id, |queue|);
      if lastMerge == Some(id) { lastMerge := None; }
      if rqs[id].hashed { RqHashDel(id); }
      nrSorted := nrSorted - 1;
      rqs := rqs[id := rqs[id].(sorted := false)];
      queue := queue[..|queue|] + [id] + queue[|queue|..];
    }

    /**
    elv_attempt_insert_merge. `fits(a, b)` says whether blk_attempt_req_merge lets `a` absorb `b`. A merged
    request may be absorbed in turn, each time by one that ends where it starts.
    */
    method AttemptInsertMerge(id: Id, fits: (Id, Id) -> bool) returns (merged: bool, ghost events: seq<Event>)
      requires Inv(hash, St()) && id in rqs && !rqs[id].sorted && id !in queue && rqs[id].mergeable
      modifies this`rqs, this`lastMerge, this`nrSorted, this`bug, buckets
      ensures St() == Run(hash, old(St()), events) && Inv(hash, St())
      ensures merged <==> id !in rqs
      ensures (exists x :: Partner(old(St()), id, x)) && (forall x :: Partner(old(St()), id, x) ==> fits(x, id)) ==>
        merged
    {
      hide Inv, Next, Run, MergedRequests, Find;
      ghost var s := St();
      events, merged := [], false;
      Nothing(hash, s);
      if lastMerge.Some? && lastMerge.value in rqs && lastMerge.value != id {
        var last := lastMerge.value;
        if rqs[last].sorted && rqs[last].mergeable && Key(rqs[last]) == rqs[id].pos && fits(last, id) {
          RunOne(hash, s, events, MergeRequests(last, id));
          Merges(hash, s, last, id);
          events := events + [MergeRequests(last, id)];
          MergeTwo(last, id);
          merged := true;
          return;
        }
      }
      var rq := id;
      var more := true;
      while more
        invariant St() == Run(hash, s, events) && Inv(hash, St())
        invariant (merged <==> id !in rqs) && (rq == id || merged)
        invariant rq in rqs && rqs[rq].mergeable && rq !in queue
        invariant !merged && more ==> rq == id && St() == s
        invariant !merged && !more ==>
          (forall x :: !Partner(s, id, x)) || (exists x :: Partner(s, id, x) && !fits(x, id))
        decreases |rqs.Keys|, more
      {
        ghost var (keys, was) := (rqs.Keys, St());
        RunOne(hash, s, events, Lookup(rqs[rq].pos));
        Looks(hash, was, rqs[rq].pos);
        events := events + [Lookup(rqs[rq].pos)];
        var found := RqHashFind(rqs[rq].pos);
        assert rqs.Keys == keys;
        assert rq == id && was == s && found.Some? ==> Partner(s, id, found.value);
        more := found.Some? && found.value != rq && fits(found.value, rq);
        if more {
          var into := found.value;
          NotQueued(hash, St(), into);
          RunOne(hash, s, events, MergeRequests(into, rq));
          Merges(hash, St(), into, rq);
          events := events + [MergeRequests(into, rq)];
          MergeTwo(into, rq);
          rq, merged := into, true;
        }
      }
    }

    static lemma NotQueued(h: Hash, s: State, id: Id)
      requires Inv(h, s) && Open(s, id)
      ensures id !in s.queue
    {
      assert RqOk(s, id);
    }

    static lemma Nothing(h: Hash, s: State)
      ensures Run(h, s, []) == s
    {
    }

    static lemma Merges(h: Hash, s: State, id: Id, next: Id)
      requires CanAbsorb(s, id, next)
      ensures Next(h, s, MergeRequests(id, next)) == MergedRequests(h, s, id, next)
    {
    }

    static lemma Looks(h: Hash, s: State, offset: nat)
      ensures Next(h, s, Lookup(offset)) == Find(h, s, offset).0
    {
    }
  }
}
