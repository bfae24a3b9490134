/**
The deadline scheduler (block/deadline-iosched.c). Each direction keeps its requests twice, in
sector order and in arrival order; rb-trees are sorted sequences and jiffies is a natural number.
*/
module Deadline {
  import opened Common

  type Id = nat

  datatype Dir = Read | Write

  datatype Rq = Rq(sector: nat, dir: Dir, fifoTime: nat)

  /** sort_list, fifo_list and next_rq of one direction. */
  datatype Side = Side(sort: seq<Id>, fifo: seq<Id>, next: Option<Id>)

  /** fifo_expire, fifo_batch and writes_starved; constant. */
  datatype Config = Config(readExpire: nat, writeExpire: nat, batch: nat, writesStarved: nat)

  datatype State = State(
    rqs: map<Id, Rq>,       // the queued requests
    read: Side,
    write: Side,
    batching: nat,
    starved: nat,
    clock: nat)             // jiffies at the last call

  function On(s: State, d: Dir): Side { if d == Read then s.read else s.write }

  function Put(s: State, d: Dir, x: Side): State { if d == Read then s.(read := x) else s.(write := x) }

  function Expire(cfg: Config, d: Dir): nat { if d == Read then cfg.readExpire else cfg.writeExpire }

  // ---------------------------------------------------------------- lists

  function IndexOf(list: seq<Id>, id: Id): (k: nat)
    requires id in list
    ensures k < |list| && list[k] == id
  {
    if list[0] == id then 0 else 1 + IndexOf(list[1..], id)
  }

  /** rb_next. */
  function Latter(list: seq<Id>, id: Id): Option<Id> {
    if id in list && IndexOf(list, id) + 1 < |list| then Some(list[IndexOf(list, id) + 1]) else None
  }

  function SectorOf(rqs: map<Id, Rq>, id: Id): nat { if id in rqs then rqs[id].sector else 0 }

  function TimeOf(rqs: map<Id, Rq>, id: Id): nat { if id in rqs then rqs[id].fifoTime else 0 }

  /** Where elv_rb_add puts a request: after all that do not start later. */
  function Position(rqs: map<Id, Rq>, list: seq<Id>, sector: nat): (k: nat)
    ensures k <= |list|
    ensures forall i :: 0 <= i < k ==> SectorOf(rqs, list[i]) <= sector
    ensures k < |list| ==> SectorOf(rqs, list[k]) > sector
  {
    if list == [] || SectorOf(rqs, list[0]) > sector then 0 else 1 + Position(rqs, list[1..], sector)
  }

  function RbAdd(rqs: map<Id, Rq>, list: seq<Id>, id: Id): seq<Id> {
    var k := Position(rqs, list, SectorOf(rqs, id));
    list[..k] + [id] + list[k..]
  }

  /** list_move(id, after). */
  function MoveAfter(list: seq<Id>, id: Id, after: Id): seq<Id> {
    var l := Without(list, id);
    if after !in l then l + [id]
    else var k := IndexOf(l, after); l[..k + 1] + [id] + l[k + 1..]
  }

  // ---------------------------------------------------------------- operations

  /** deadline_add_request. */
  function AddRequest(cfg: Config, s: State, id: Id, sector: nat, d: Dir, now: nat): State {
    var rqs := s.rqs[id := Rq(sector, d, now + Expire(cfg, d))];
    var x := On(s, d);
    Put(s.(rqs := rqs, clock := now), d, x.(sort := RbAdd(rqs, x.sort, id), fifo := x.fifo + [id]))
  }

  /** deadline_merged_request after a front merge moved the start of `id` to `sector`. */
  function FrontMerged(s: State, id: Id, sector: nat): State
    requires id in s.rqs
  {
    var (d, x) := (s.rqs[id].dir, On(s, s.rqs[id].dir));
    var rqs := s.rqs[id := s.rqs[id].(sector := sector)];
    Put(s.(rqs := rqs), d, x.(sort := RbAdd(rqs, Without(x.sort, id), id)))
  }

  /** deadline_remove_request, with deadline_del_rq_rb. */
  function RemoveRequest(s: State, id: Id): State
    requires id in s.rqs
  {
    var (d, x) := (s.rqs[id].dir, On(s, s.rqs[id].dir));
    var next := if x.next == Some(id) then Latter(x.sort, id) else x.next;
    Put(s.(rqs := s.rqs - {id}), d, Side(Without(x.sort, id), Without(x.fifo, id), next))
  }

  /** deadline_merged_requests: `next` has been merged into `req`. */
  function MergedRequests(s: State, req: Id, next: Id): State
    requires req in s.rqs && next in s.rqs
  {
    var (d, x) := (s.rqs[req].dir, On(s, s.rqs[req].dir));
    var s1 :=
      if s.rqs[next].fifoTime < s.rqs[req].fifoTime
      then Put(s.(rqs := s.rqs[req := s.rqs[req].(fifoTime := s.rqs[next].fifoTime)]), d,
               x.(fifo := MoveAfter(x.fifo, req, next)))
      else s;
    RemoveRequest(s1, next)
  }

  /** deadline_move_request. */
  function MoveRequest(s: State, id: Id): State
    requires id in s.rqs
  {
    var d := s.rqs[id].dir;
    var s1 := s.(read := s.read.(next := None), write := s.write.(next := None));
    var s2 := Put(s1, d, On(s1, d).(next := Latter(On(s, d).sort, id)));
    RemoveRequest(s2, id)
  }

  /** deadline_check_fifo. */
  predicate CheckFifo(s: State, d: Dir, now: nat)
    requires On(s, d).fifo != []
  {
    TimeOf(s.rqs, On(s, d).fifo[0]) <= now
  }

  function NextRq(s: State): Option<Id> {
    if s.write.next.Some? then s.write.next else s.read.next
  }

  predicate InBatch(cfg: Config, s: State) { NextRq(s).Some? && s.batching < cfg.batch }

  /** The direction of a new batch, and the value of `starved` after choosing it. */
  function Choose(cfg: Config, s: State): (Option<Dir>, nat) {
    var (anyRead, anyWrite) := (s.read.fifo != [], s.write.fifo != []);
    if anyRead then
      if anyWrite && s.starved >= cfg.writesStarved then (Some(Write), 0)
      else (Some(Read), if anyWrite then s.starved + 1 else s.starved)
    else if anyWrite then (Some(Write), 0)
    else (None, s.starved)
  }

  /** The request a new batch in direction `d` starts with. */
  function Pick(s: State, d: Dir, now: nat): Id
    requires On(s, d).fifo != []
  {
    if CheckFifo(s, d, now) || On(s, d).next.None? then On(s, d).fifo[0] else On(s, d).next.value
  }

  /** deadline_dispatch_requests: the state after, and the request dispatched. A request that is not queued is
      never selected in a reachable state (DispatchCases); the function then does nothing. */
  function Dispatch(cfg: Config, s: State, now: nat): (State, Option<Id>) {
    if InBatch(cfg, s) && NextRq(s).value in s.rqs then
      (MoveRequest(s.(batching := s.batching + 1, clock := now), NextRq(s).value), NextRq(s))
    else
      match Choose(cfg, s)
      case (None, _) => (s.(clock := now), None)
      case (Some(d), starved) =>
        if On(s, d).fifo == [] || Pick(s, d, now) !in s.rqs then (s, None)
        else (MoveRequest(s.(starved := starved, batching := 1, clock := now), Pick(s, d, now)),
              Some(Pick(s, d, now)))
  }

  // ---------------------------------------------------------------- runs

  datatype Event =
    | Add(id: Id, sector: nat, d: Dir, now: nat)
    | FrontMerge(id: Id, sector: nat)
    | MergeRequests(req: Id, next: Id)
    | Issue(now: nat)

  predicate Enabled(s: State, e: Event) {
    match e
    case Add(id, _, _, now) => id !in s.rqs && now >= s.clock
    case FrontMerge(id, _) => id in s.rqs
    case MergeRequests(req, next) =>
      req in s.rqs && next in s.rqs && req != next && s.rqs[req].dir == s.rqs[next].dir
    case Issue(now) => now >= s.clock
  }

  function Next(cfg: Config, s: State, e: Event): State {
    if !Enabled(s, e) then s
    else
      match e
      case Add(id, sector, d, now) => AddRequest(cfg, s, id, sector, d, now)
      case FrontMerge(id, sector) => FrontMerged(s, id, sector)
      case MergeRequests(req, next) => MergedRequests(s, req, next)
      case Issue(now) => Dispatch(cfg, s, now).0
  }

  /** The direction dispatched by an event, if any. */
  function Dispatched(cfg: Config, s: State, e: Event): seq<Dir> {
    if !e.Issue? || !Enabled(s, e) then []
    else
      var r := Dispatch(cfg, s, e.now).1;
      if r.Some? && r.value in s.rqs then [s.rqs[r.value].dir] else []
  }

  function Run(cfg: Config, s: State, events: seq<Event>): State
    decreases |events|
  {
    if events == [] then s else Run(cfg, Next(cfg, s, events[0]), events[1..])
  }

  /** The directions of the requests dispatched along a run. */
  function Trace(cfg: Config, s: State, events: seq<Event>): seq<Dir>
    decreases |events|
  {
    if events == [] then []
    else Dispatched(cfg, s, events[0]) + Trace(cfg, Next(cfg, s, events[0]), events[1..])
  }

  const Init := State(map[], Side([], [], None), Side([], [], None), 0, 0, 0)
}
