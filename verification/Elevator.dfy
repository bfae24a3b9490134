/**
The merge hash and the one-hit merge cache of block/elevator.c, over an arbitrary hash function.
*/
module Elevator {
  import opened Common

  type Id = nat

  /** What the elevator looks at in a request. `sorted` is REQ_SORTED and not yet dispatched. */
  datatype Rq = Rq(pos: nat, sectors: nat, mergeable: bool, hashed: bool, sorted: bool)

  datatype State = State(
    rqs: map<Id, Rq>,           // the requests that exist
    buckets: seq<seq<Id>>,      // e->hash
    lastMerge: Option<Id>,
    nrSorted: int,
    queue: seq<Id>,             // q->queue_head
    bug: bool)                  // some BUG_ON has fired

  type Hash = nat -> nat

  /** rq_hash_key: the sector behind the request. */
  function Key(r: Rq): nat { r.pos + r.sectors }

  function Slot(h: Hash, n: nat, key: nat): nat { if n == 0 then 0 else h(key) % n }

  function SlotOf(h: Hash, s: State, r: Rq): nat { Slot(h, |s.buckets|, Key(r)) }

  function SetRq(s: State, id: Id, r: Rq): State { s.(rqs := s.rqs[id := r]) }

  /** __elv_rqhash_del: hash_del finds the list a node is on by itself. */
  function Unhash(s: State, id: Id): State {
    if id !in s.rqs then s
    else SetRq(s, id, s.rqs[id].(hashed := false))
           .(buckets := seq(|s.buckets|, b requires 0 <= b < |s.buckets| => Without(s.buckets[b], id)))
  }

  /** elv_rqhash_del. */
  function HashDel(s: State, id: Id): State { if id in s.rqs && s.rqs[id].hashed then Unhash(s, id) else s }

  /** elv_rqhash_add, of a request that is not on the hash. */
  function HashAdd(h: Hash, s: State, id: Id): State {
    if id !in s.rqs || SlotOf(h, s, s.rqs[id]) >= |s.buckets| then s
    else
      var b := SlotOf(h, s, s.rqs[id]);
      SetRq(s, id, s.rqs[id].(hashed := true))
        .(buckets := s.buckets[b := [id] + s.buckets[b]], bug := s.bug || s.rqs[id].hashed)
  }

  /** elv_rqhash_reposition. */
  function Reposition(h: Hash, s: State, id: Id): State { HashAdd(h, Unhash(s, id), id) }

  /** What is on the hash ought to know it. */
  function CheckHashed(s: State, id: Id): State { s.(bug := s.bug || (id in s.rqs && !s.rqs[id].hashed)) }

  /** The loop of elv_rqhash_find over the rest of a bucket. */
  function FindIn(s: State, list: seq<Id>, offset: nat): (State, Option<Id>)
    decreases |list|
  {
    if list == [] then (s, None)
    else
      var s1 := CheckHashed(s, list[0]);
      if list[0] !in s.rqs then FindIn(s1, list[1..], offset)
      else if !s.rqs[list[0]].mergeable then FindIn(Unhash(s1, list[0]), list[1..], offset)
      else if Key(s.rqs[list[0]]) == offset then (s1, Some(list[0]))
      else FindIn(s1, list[1..], offset)
  }

  /** elv_rqhash_find. */
  function Find(h: Hash, s: State, offset: nat): (State, Option<Id>) {
    var b := Slot(h, |s.buckets|, offset);
    if b >= |s.buckets| then (s, None) else FindIn(s, s.buckets[b], offset)
  }

  /** elv_merged_request after a bio of `n` sectors went to the back or the front. */
  function BackMerged(h: Hash, s: State, id: Id, n: nat): State
    requires id in s.rqs
  {
    Reposition(h, SetRq(s, id, s.rqs[id].(sectors := s.rqs[id].sectors + n)), id).(lastMerge := Some(id))
  }

  function FrontMerged(s: State, id: Id, n: nat): State
    requires id in s.rqs && n <= s.rqs[id].pos
  {
    SetRq(s, id, s.rqs[id].(pos := s.rqs[id].pos - n, sectors := s.rqs[id].sectors + n)).(lastMerge := Some(id))
  }

  /** elv_merge_requests, with `id` grown to `r`; `next` is then freed. */
  function Absorb(h: Hash, s: State, id: Id, next: Id, r: Rq): State
    requires id in s.rqs && next in s.rqs
  {
    var s2 := Reposition(h, SetRq(s, id, r), id);
    var s3 := if s.rqs[next].sorted then HashDel(s2, next).(nrSorted := s.nrSorted - 1) else s2;
    s3.(lastMerge := Some(id), rqs := s3.rqs - {next})
  }

  /** The sectors of `next` are added to `id`. */
  function MergedRequests(h: Hash, s: State, id: Id, next: Id): State
    requires id in s.rqs && next in s.rqs
  {
    Absorb(h, s, id, next, s.rqs[id].(sectors := s.rqs[id].sectors + s.rqs[next].sectors))
  }

  /** ELEVATOR_INSERT_SORT. */
  function AddSorted(h: Hash, s: State, id: Id): State
    requires id in s.rqs
  {
    var s1 := SetRq(s, id, s.rqs[id].(sorted := true)).(nrSorted := s.nrSorted + 1);
    if !s.rqs[id].mergeable then s1
    else
      var s2 := HashAdd(h, s1, id);
      if s2.lastMerge.None? then s2.(lastMerge := Some(id)) else s2
  }

  /** elv_dispatch_add_tail; elv_dispatch_sort differs in the place on the queue only. */
  function Dispatched(s: State, id: Id, at: nat): State
    requires id in s.rqs
  {
    var s1 := if s.lastMerge == Some(id) then s.(lastMerge := None) else s;
    var s2 := HashDel(s1, id);
    var k := if at <= |s.queue| then at else |s.queue|;
    SetRq(s2, id, s2.rqs[id].(sorted := false))
      .(nrSorted := s.nrSorted - 1, queue := s.queue[..k] + [id] + s.queue[k..])
  }

  // ---------------------------------------------------------------- runs

  /**
  Completed operations. A bio merged into a request may let the request merge with its neighbour in the
  same call, and then only elv_merge_requests is called (BackMergeBoth, FrontMergeBoth).
  */
  datatype Event =
    | New(id: Id, pos: nat, sectors: nat, mergeable: bool)
    | InsertSort(id: Id)
    | BackMerge(id: Id, n: nat)
    | FrontMerge(id: Id, n: nat)
    | BackMergeBoth(id: Id, n: nat, next: Id)
    | FrontMergeBoth(prev: Id, id: Id, n: nat)
    | MergeRequests(id: Id, next: Id)
    | NoMerge(id: Id)
    | Dispatch(id: Id, at: nat)
    | Retire(id: Id)                        // the driver is done with it
    | Lookup(offset: nat)

  /** In the elevator and open to merges. */
  predicate Open(s: State, id: Id) { id in s.rqs && s.rqs[id].sorted && s.rqs[id].mergeable }

  predicate CanAbsorb(s: State, id: Id, next: Id) {
    Open(s, id) && next in s.rqs && s.rqs[next].mergeable && id != next && next !in s.queue
  }

  predicate Enabled(s: State, e: Event) {
    match e
    case New(id, _, _, _) => id !in s.rqs && id !in s.queue
    case InsertSort(id) => id in s.rqs && !s.rqs[id].sorted && id !in s.queue
    case BackMerge(id, _) => Open(s, id)
    case FrontMerge(id, n) => Open(s, id) && n <= s.rqs[id].pos
    case BackMergeBoth(id, n, next) => CanAbsorb(s, id, next) && s.rqs[next].sorted
    case FrontMergeBoth(prev, id, n) => CanAbsorb(s, prev, id) && s.rqs[id].sorted && n <= s.rqs[id].pos
    case MergeRequests(id, next) => CanAbsorb(s, id, next)
    case NoMerge(id) => id in s.rqs
    case Dispatch(id, _) => id in s.rqs && s.rqs[id].sorted
    case Retire(id) => id in s.queue
    case Lookup(_) => true
  }

  function Next(h: Hash, s: State, e: Event): State {
    if !Enabled(s, e) then s
    else
      match e
      case New(id, pos, sectors, mergeable) => SetRq(s, id, Rq(pos, sectors, mergeable, false, false))
      case InsertSort(id) => AddSorted(h, s, id)
      case BackMerge(id, n) => BackMerged(h, s, id, n)
      case FrontMerge(id, n) => FrontMerged(s, id, n)
      case BackMergeBoth(id, n, next) =>
        MergedRequests(h, SetRq(s, id, s.rqs[id].(sectors := s.rqs[id].sectors + n)), id, next)
      case FrontMergeBoth(prev, id, n) =>
        var r := s.rqs[id].(pos := s.rqs[id].pos - n, sectors := s.rqs[id].sectors + n);
        MergedRequests(h, SetRq(s, id, r), prev, id)
      case MergeRequests(id, next) => MergedRequests(h, s, id, next)
      case NoMerge(id) => SetRq(s, id, s.rqs[id].(mergeable := false))
      case Dispatch(id, at) => Dispatched(s, id, at)
      case Retire(id) => s.(rqs := s.rqs - {id}, queue := Without(s.queue, id))
      case Lookup(offset) => Find(h, s, offset).0
  }

  function Run(h: Hash, s: State, events: seq<Event>): State
    decreases |events|
  {
    if events == [] then s else Run(h, Next(h, s, events[0]), events[1..])
  }

  function Init(n: nat): State { State(map[], seq(n, _ => []), None, 0, [], false) }
}
