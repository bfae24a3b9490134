/**
The insert/flush protocol of block/blk-mq.c: inserters add requests to software queues under the
queue's lock and set its pending bit; any number of runners clear bits, splice queues, and hand
requests to the driver. Every step below is atomic, and any thread may take the next one.
*/
module BlkMq {
  import opened Common

  type Rq = nat
  type Tid = nat
  type Ctx = nat

  /** Where a thread is in the code, with its local variables. */
  datatype Pc =
    | Idle
    // blk_mq_insert_request, blk_mq_insert_requests
    | WantLock(c: Ctx, list: seq<Rq>, atHead: bool, run: bool)
    | Adding(c: Ctx, list: seq<Rq>, atHead: bool, run: bool)
    | TestBit(c: Ctx, run: bool)
    | SetBit(c: Ctx, run: bool)
    | Unlock(c: Ctx, run: bool)
    // blk_mq_run_hw_queue
    | Kick
    // __blk_mq_run_hw_queue
    | RunStart
    | Scan(i: nat, list: seq<Rq>)
    | Found(i: nat, list: seq<Rq>)
    | Cleared(i: nat, list: seq<Rq>)
    | CheckDispatch(list: seq<Rq>)
    | Grab(list: seq<Rq>)
    | Issue(list: seq<Rq>)
    | Requeue(list: seq<Rq>)
    // blk_mq_stop_hw_queue
    | StopSet

  /** Where a request is. */
  datatype Place = Local(t: Tid) | Queued(c: Ctx) | Dispatch | Driver | Ended

  /** What mq_ops->queue_rq answers. */
  datatype Answer = Ok | Busy | Error

  /** struct blk_mq_ctx, and its bit in hctx->ctx_map. */
  datatype SwQueue = SwQueue(
    list: seq<Rq>,              // ctx->rq_list
    lock: Option<Tid>,          // the holder of ctx->lock
    pending: bool,              // the bit
    lazy: bool)                 // some request came in with run_queue == false

  datatype State = State(
    threads: seq<Pc>,
    ctxs: seq<SwQueue>,
    dispatch: seq<Rq>,          // hctx->dispatch
    stopped: bool,              // BLK_MQ_S_STOPPED
    work: bool,                 // hctx->run_work is queued
    place: map<Rq, Place>)      // where each request was last put

  function Goto(s: State, t: Tid, pc: Pc): State {
    if t < |s.threads| then s.(threads := s.threads[t := pc]) else s
  }

  function Put(s: State, c: Ctx, q: SwQueue): State {
    if c < |s.ctxs| then s.(ctxs := s.ctxs[c := q]) else s
  }

  function PutAll(m: map<Rq, Place>, list: seq<Rq>, p: Place): map<Rq, Place> {
    m + map r | r in list :: p
  }

  // ---------------------------------------------------------------- one step of a thread

  /** The steps of an inserter. */
  function InsertStep(s: State, t: Tid): State
    requires t < |s.threads|
  {
    match s.threads[t]
    case WantLock(c, list, atHead, run) =>
      if c >= |s.ctxs| || s.ctxs[c].lock != None then s
      else Put(Goto(s, t, Adding(c, list, atHead, run)), c, s.ctxs[c].(lock := Some(t)))
    case Adding(c, list, atHead, run) =>
      if c >= |s.ctxs| || list == [] then Goto(s, t, TestBit(c, run))
      else AddOne(s, t, c, list, atHead, run)
    case TestBit(c, run) =>
      Goto(s, t, if c < |s.ctxs| && s.ctxs[c].pending then Unlock(c, run) else SetBit(c, run))
    case SetBit(c, run) =>
      if c >= |s.ctxs| then s
      else Put(Goto(s, t, Unlock(c, run)), c, s.ctxs[c].(pending := true))
    case Unlock(c, run) =>
      if c >= |s.ctxs| then s
      else Put(Goto(s, t, if run then Kick else Idle), c, s.ctxs[c].(lock := None))
    case _ => s
  }

  /** __blk_mq_insert_req_list. */
  function AddOne(s: State, t: Tid, c: Ctx, list: seq<Rq>, atHead: bool, run: bool): State
    requires list != [] && c < |s.ctxs|
  {
    var q := s.ctxs[c];
    var l := if atHead then [list[0]] + q.list else q.list + [list[0]];
    Put(Goto(s, t, Adding(c, list[1..], atHead, run)), c, q.(list := l, lazy := q.lazy || !run))
      .(place := s.place[list[0] := Queued(c)])
  }

  /** The steps of a runner up to the point where it holds all it is going to issue. */
  function CollectStep(s: State, t: Tid): State
    requires t < |s.threads|
  {
    match s.threads[t]
    case RunStart => Goto(s, t, if s.stopped then Idle else Scan(0, []))
    case Scan(i, list) =>
      if i >= |s.ctxs| then Goto(s, t, CheckDispatch(list))
      else Goto(s, t, if s.ctxs[i].pending then Found(i, list) else Scan(i + 1, list))
    case Found(i, list) =>
      if i >= |s.ctxs| then s
      else Put(Goto(s, t, Cleared(i, list)), i, s.ctxs[i].(pending := false))
    case Cleared(i, list) =>
      if i >= |s.ctxs| || s.ctxs[i].lock != None then s
      else Splice(s, t, i, list)
    case CheckDispatch(list) => Goto(s, t, if s.dispatch == [] then Issue(list) else Grab(list))
    case Grab(list) =>
      Goto(s, t, Issue(s.dispatch + list)).(dispatch := [], place := PutAll(s.place, s.dispatch, Local(t)))
    case _ => s
  }

  /** list_splice_tail_init under ctx->lock. */
  function Splice(s: State, t: Tid, i: nat, list: seq<Rq>): State
    requires i < |s.ctxs|
  {
    var q := s.ctxs[i];
    Put(Goto(s, t, Scan(i + 1, list + q.list)), i, q.(list := [], lazy := false))
      .(place := PutAll(s.place, q.list, Local(t)))
  }

  /** Issuing to the driver, requeueing what it refused, and asking for another run. */
  function IssueStep(s: State, t: Tid, answer: Answer, async: bool): State
    requires t < |s.threads|
  {
    match s.threads[t]
    case Issue(list) =>
      if list == [] then Goto(s, t, Idle)
      else (match answer
        case Ok => Goto(s, t, Issue(list[1..])).(place := s.place[list[0] := Driver])
        case Error => Goto(s, t, Issue(list[1..])).(place := s.place[list[0] := Ended])
        case Busy => Goto(s, t, Requeue(list)))
    case Requeue(list) =>
      Goto(s, t, Kick).(dispatch := list + s.dispatch, place := PutAll(s.place, list, Dispatch))
    case Kick =>
      if s.stopped then Goto(s, t, Idle)
      else if async then Goto(s, t, Idle).(work := true)
      else Goto(s, t, RunStart)
    case StopSet => Goto(s, t, Idle).(stopped := true)
    case _ => s
  }

  // ---------------------------------------------------------------- events

  datatype Event =
    | Insert(t: Tid, c: Ctx, rqs: seq<Rq>, atHead: bool, run: bool)
    | InsertEv(t: Tid)
    | CollectEv(t: Tid)
    | IssueEv(t: Tid, answer: Answer, async: bool)
    | RunHwQueue(t: Tid)                  // anybody may call blk_mq_run_hw_queue
    | Work(t: Tid)                        // kblockd runs hctx->run_work
    | Stop(t: Tid)                        // blk_mq_stop_hw_queue
    | Start(t: Tid)                       // blk_mq_start_hw_queue, blk_mq_start_stopped_hw_queues
    | Complete(r: Rq)                     // the driver ends a request

  predicate IsIdle(s: State, t: Tid) { t < |s.threads| && s.threads[t] == Idle }

  function Next(s: State, e: Event): State {
    match e
    case Insert(t, c, rqs, atHead, run) =>
      if IsIdle(s, t) && c < |s.ctxs| && Distinct(rqs) && (forall r :: r in rqs ==> r !in s.place)
      then Goto(s, t, WantLock(c, rqs, atHead, run)).(place := PutAll(s.place, rqs, Local(t)))
      else s
    case InsertEv(t) => if t < |s.threads| then InsertStep(s, t) else s
    case CollectEv(t) => if t < |s.threads| then CollectStep(s, t) else s
    case IssueEv(t, answer, async) => if t < |s.threads| then IssueStep(s, t, answer, async) else s
    case RunHwQueue(t) => if IsIdle(s, t) then Goto(s, t, Kick) else s
    case Work(t) => if IsIdle(s, t) && s.work then Goto(s, t, RunStart).(work := false) else s
    case Stop(t) => if IsIdle(s, t) then Goto(s, t, StopSet).(work := false) else s
    case Start(t) => if IsIdle(s, t) then Goto(s, t, Kick).(stopped := false) else s
    case Complete(r) => if r in s.place && s.place[r] == Driver then s.(place := s.place[r := Ended]) else s
  }

  function Run(s: State, events: seq<Event>): State
    decreases |events|
  {
    if events == [] then s else Run(Next(s, events[0]), events[1..])
  }

  function Init(threads: nat, ctxs: nat): State {
    State(seq(threads, _ => Idle), seq(ctxs, _ => SwQueue([], None, false, false)), [], false, false, map[])
  }
}
