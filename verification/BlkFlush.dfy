/**
The FLUSH/FUA sequencer of block/blk-flush.c, together with the device whose
volatile write cache it is there to control.

A request is a value in a table; the flush queue, the dispatch queue, the set of
requests the driver is executing and the device are the other parts of `State`.
Every C function of the sequencer is a function on `State`, every interleaving
point is an `Event`, and `Run` folds an arbitrary list of events.
*/
module BlkFlush {
  import opened Common

  type Id = nat
  type Bit = b: nat | b < 2

  /** The two double-buffered lists of fq->flush_queue. */
  type Queues = q: seq<seq<Id>> | |q| == 2 witness [[], []]

  /** q->flush_flags: a volatile cache that can be flushed, and FUA writes. */
  datatype Caps = Caps(flush: bool, fua: bool)

  /** The request as submitted: REQ_FLUSH, REQ_FUA and the amount of data. */
  datatype Want = Want(flush: bool, fua: bool, sectors: nat)

  /** A mask of REQ_FSEQ_PREFLUSH, REQ_FSEQ_DATA and REQ_FSEQ_POSTFLUSH. */
  datatype Mask = Mask(pre: bool, data: bool, post: bool) {
    function Union(m: Mask): Mask { Mask(pre || m.pre, data || m.data, post || m.post) }
    predicate Overlaps(m: Mask) { (pre && m.pre) || (data && m.data) || (post && m.post) }
    function Complement(): Mask { Mask(!pre, !data, !post) }
  }

  datatype Step = PreFlush | Data | PostFlush | Done

  datatype Result = Pending | Ok | Failed

  /** Something that can sit on the dispatch queue: the shared flush request or a request. */
  datatype Entry = FlushRq | Rq(id: Id)

  datatype Request = Request(
    want: Want,
    before: set<Id>,        // the writes that had completed when the request was inserted
    reqFlush: bool,         // cmd_flags & REQ_FLUSH, as the driver sees it
    reqFua: bool,           // cmd_flags & REQ_FUA, as the driver sees it
    flushSeq: bool,         // cmd_flags & REQ_FLUSH_SEQ
    done: Mask,             // flush.seq
    hasBio: bool,           // rq->bio != NULL
    bioSize: nat,           // bi_size of the single bio (rq->biotail), in sectors
    sectors: int,           // blk_rq_sectors(rq)
    ended: nat,             // calls of bio_endio for the single bio
    result: Result)

  datatype State = State(
    caps: Caps,
    reqs: map<Id, Request>,
    queue: Queues,          // fq->flush_queue
    pendingIdx: Bit,        // fq->flush_pending_idx
    runningIdx: Bit,        // fq->flush_running_idx
    inFlight: seq<Id>,      // fq->flush_data_in_flight
    pendingSince: int,      // fq->flush_pending_since
    queueHead: seq<Entry>,  // q->queue_head
    driver: set<Entry>,     // dequeued and executing
    covered: set<Id>,       // the writes completed when the flush in flight was issued
    written: set<Id>,       // the writes the device has completed
    stable: set<Id>,        // the writes known to be on stable media
    bug: bool)              // some BUG_ON has fired

  const HZ: int := 100
  const FLUSH_PENDING_TIMEOUT: int := 5 * HZ

  // ---------------------------------------------------------------- policy

  function FlushPolicy(caps: Caps, want: Want): Mask {
    Mask(caps.flush && want.flush,
         want.sectors != 0,
         caps.flush && !caps.fua && want.fua)
  }

  /** The first step that is not complete. */
  function CurSeq(done: Mask): Step {
    if !done.pre then PreFlush
    else if !done.data then Data
    else if !done.post then PostFlush
    else Done
  }

  function StepMask(step: Step): Mask {
    Mask(step == PreFlush, step == Data, step == PostFlush)
  }

  // ---------------------------------------------------------------- lists

  /** list_del(&rq->flush.list): the node is on at most one of the three lists. */
  function Unlink(s: State, id: Id): State {
    s.(queue := [Without(s.queue[0], id), Without(s.queue[1], id)],
       inFlight := Without(s.inFlight, id))
  }

  // ---------------------------------------------------------------- completion of the bio

  /** blk_update_request for a request with one bio: `n` sectors are complete. */
  function UpdateRequest(r: Request, n: nat): Request {
    if !r.hasBio then r
    else
      var bytes := if r.bioSize < n then r.bioSize else n;
      var left := r.bioSize - bytes;
      var r1 := r.(hasBio := left != 0,
                   bioSize := left,
                   ended := r.ended + (if left == 0 && !r.flushSeq then 1 else 0));
      if left == 0 then r1.(sectors := 0) else r1.(sectors := r.sectors - bytes)
  }

  /** blk_flush_restore_request. */
  function Restore(r: Request): Request {
    r.(hasBio := true, flushSeq := false)
  }

  // ---------------------------------------------------------------- the sequencer

  predicate TimedOut(s: State, now: int) {
    now >= s.pendingSince + FLUSH_PENDING_TIMEOUT
  }

  predicate FlushInFlight(s: State) {
    s.pendingIdx != s.runningIdx
  }

  /** blk_kick_flush: initialising the one flush request while it is in use would be a bug. */
  function KickFlush(s: State, now: int): State {
    if FlushInFlight(s) || s.queue[s.pendingIdx] == [] then s
    else if s.inFlight != [] && !TimedOut(s, now) then s
    else s.(pendingIdx := 1 - s.pendingIdx,
            queueHead := s.queueHead + [FlushRq],
            covered := s.written,
            bug := s.bug || FlushRq in s.queueHead || FlushRq in s.driver)
  }

  function QueueForFlush(s: State, id: Id, now: int): State {
    var since := if s.queue[s.pendingIdx] == [] then now else s.pendingSince;
    var u := Unlink(s, id);
    u.(pendingSince := since,
       queue := u.queue[s.pendingIdx := u.queue[s.pendingIdx] + [id]])
  }

  function QueueData(s: State, id: Id): State {
    var u := Unlink(s, id);
    u.(inFlight := u.inFlight + [id], queueHead := [Rq(id)] + s.queueHead)
  }

  /** The REQ_FSEQ_DONE arm: restore the request and end it through the normal path. */
  function Finish(s: State, id: Id, ok: bool): State
    requires id in s.reqs
  {
    var r0 := Restore(s.reqs[id]);
    var r := UpdateRequest(r0, if r0.sectors < 0 then 0 else r0.sectors);
    Unlink(s, id).(reqs := s.reqs[id := r.(result := if ok then Ok else Failed)],
                   bug := s.bug || Rq(id) in s.queueHead || r.hasBio)
  }

  function Advance(s: State, id: Id, step: Step, ok: bool, now: int): State
    requires id in s.reqs
  {
    match step
    case PreFlush => QueueForFlush(s, id, now)
    case PostFlush => QueueForFlush(s, id, now)
    case Data => QueueData(s, id)
    case Done => Finish(s, id, ok)
  }

  function Record(s: State, id: Id, mask: Mask): State
    requires id in s.reqs
  {
    var r := s.reqs[id];
    s.(reqs := s.reqs[id := r.(done := r.done.Union(mask))],
       bug := s.bug || r.done.Overlaps(mask))
  }

  /** blk_flush_complete_seq. */
  function CompleteSeq(s: State, id: Id, mask: Mask, ok: bool, now: int): State
    requires id in s.reqs
  {
    var s1 := Record(s, id, mask);
    var step := if ok then CurSeq(s1.reqs[id].done) else Done;
    KickFlush(Advance(s1, id, step, ok, now), now)
  }

  /** The loop of flush_end_io over the requests that waited for the flush. */
  function PushAll(s: State, todo: seq<Id>, ok: bool, now: int): State
    decreases |todo|
  {
    if todo == [] then s
    else if todo[0] !in s.reqs then s.(bug := true)
    else
      var step := CurSeq(s.reqs[todo[0]].done);
      var s1 := s.(bug := s.bug || !(step == PreFlush || step == PostFlush));
      PushAll(CompleteSeq(s1, todo[0], StepMask(step), ok, now), todo[1..], ok, now)
  }

  /** flush_end_io, after the device has finished the flush. */
  function FlushEndIo(s: State, ok: bool, now: int): State {
    var running := s.queue[s.runningIdx];
    PushAll(s.(runningIdx := 1 - s.runningIdx, bug := s.bug || !FlushInFlight(s)),
            running, ok, now)
  }

  /** The request as blk_insert_flush sets it up, with REQ_FLUSH and REQ_FUA adjusted for the driver. */
  function NewRequest(s: State, want: Want, flushSeq: bool): Request {
    Request(want, s.written, false, want.fua && s.caps.fua, flushSeq,
            Mask(false, false, false), true, want.sectors, want.sectors, 0, Pending)
  }

  function Add(s: State, id: Id, r: Request): State {
    s.(reqs := s.reqs[id := r])
  }

  /** blk_insert_flush. */
  function InsertFlush(s: State, id: Id, want: Want, now: int): State {
    var policy := FlushPolicy(s.caps, want);
    if policy == Mask(false, false, false) then
      Add(s, id, UpdateRequest(NewRequest(s, want, false), 0).(result := Ok))
    else if policy.data && !policy.pre && !policy.post then
      Add(s, id, NewRequest(s, want, false)).(queueHead := s.queueHead + [Rq(id)])
    else
      CompleteSeq(Add(s, id, NewRequest(s, want, true)), id, policy.Complement(), true, now)
  }

  // ---------------------------------------------------------------- the environment

  /** The device has finished (`ok`) or failed the data of a request. */
  function DeviceWrote(s: State, id: Id, ok: bool): State
    requires id in s.reqs
  {
    if !ok then s
    else
      s.(written := s.written + {id},
         stable := if s.reqs[id].reqFua || !s.caps.flush then s.stable + {id} else s.stable)
  }

  /** blk_update_request for all of a request the driver has finished with. */
  function DataArrived(s: State, id: Id, ok: bool): State
    requires id in s.reqs
  {
    var r := s.reqs[id];
    DeviceWrote(s, id, ok).(
      reqs := s.reqs[id := UpdateRequest(r, if r.sectors < 0 then 0 else r.sectors)],
      driver := s.driver - {Rq(id)})
  }

  function SetResult(s: State, id: Id, ok: bool): State
    requires id in s.reqs
  {
    s.(reqs := s.reqs[id := s.reqs[id].(result := if ok then Ok else Failed)])
  }

  /** The driver completes a request: blk_update_request, then end_io (flush_data_end_io). */
  function DataEndIo(s: State, id: Id, ok: bool, now: int): State
    requires id in s.reqs
  {
    var s1 := DataArrived(s, id, ok);
    if s.reqs[id].flushSeq then CompleteSeq(s1, id, StepMask(Data), ok, now)
    else SetResult(s1, id, ok)
  }

  function DeviceFlushed(s: State, ok: bool): State {
    s.(driver := s.driver - {FlushRq}, stable := if ok then s.stable + s.covered else s.stable)
  }

  datatype Event =
    | Insert(id: Id, want: Want)
    | Dispatch
    | Progress(id: Id, n: nat)
    | DataDone(id: Id, ok: bool)
    | FlushDone(ok: bool)
    | PlainWrite(id: Id)

  /**
  What the environment can do. A request inserted here asks for FLUSH or FUA, and one with no
  data does not ask for FUA (block/blk-flush.c:13-17).
  */
  predicate Enabled(s: State, e: Event) {
    match e
    case Insert(id, want) =>
      && id !in s.reqs && id !in s.written
      && (want.flush || want.fua)
      && (want.fua ==> want.sectors > 0)
    case Dispatch => s.queueHead != []
    case Progress(id, n) => Rq(id) in s.driver && id in s.reqs && 0 < n < s.reqs[id].bioSize
    case DataDone(id, _) => Rq(id) in s.driver && id in s.reqs
    case FlushDone(_) => FlushRq in s.driver
    case PlainWrite(id) => id !in s.reqs
  }

  function Next(s: State, e: Event, now: int): State {
    if !Enabled(s, e) then s
    else match e
      case Insert(id, want) => InsertFlush(s, id, want, now)
      case Dispatch => s.(queueHead := s.queueHead[1..], driver := s.driver + {s.queueHead[0]})
      case Progress(id, n) => s.(reqs := s.reqs[id := UpdateRequest(s.reqs[id], n)])
      case DataDone(id, ok) => DataEndIo(s, id, ok, now)
      case FlushDone(ok) => FlushEndIo(DeviceFlushed(s, ok), ok, now)
      case PlainWrite(id) =>
        s.(written := s.written + {id}, stable := if s.caps.flush then s.stable else s.stable + {id})
  }

  function Init(caps: Caps): State {
    State(caps, map[], [[], []], 0, 0, [], 0, [], {}, {}, {}, {}, false)
  }

  /** Any run: each event comes with the value of jiffies when it happens. */
  function Run(s: State, events: seq<(Event, int)>): State
    decreases |events|
  {
    if events == [] then s
    else Run(Next(s, events[0].0, events[0].1), events[1..])
  }
}
