/**
struct blk_flush_queue as the C code works on it: the indices, lists, flags and counters are
updated in place. Each method is proved to take the step of the same name in `BlkFlush`, so
what holds of every run there holds of every run of these methods.
*/
module BlkFlushQueue {
  import opened Common
  import opened BlkFlush
  import opened BlkFlushInvariant
  import opened BlkFlushOutcome

  predicate EndsWith(list: seq<Id>, id: Id) { list != [] && list[|list| - 1] == id }

  /** Between two states of the flush queues and the data list, nothing but `id` came or went. */
  ghost predicate OthersStay(q: Queues, f: seq<Id>, q': Queues, f': seq<Id>, id: Id) {
    forall x :: x != id ==> (x in q[0] <==> x in q'[0]) && (x in q[1] <==> x in q'[1]) && (x in f <==> x in f')
  }

  lemma RestoredEnds(r: Request)
    ensures var r' := UpdateRequest(Restore(r), if r.sectors < 0 then 0 else r.sectors);
      && !r'.flushSeq
      && (r.bioSize <= r.sectors ==> r'.ended == r.ended + 1 && !r'.hasBio)
  {
  }

  lemma RestoreSize(r: Request)
    ensures Restore(r).sectors == r.sectors
  {
  }

  class FlushQueue {
    const caps: Caps
    var reqs: map<Id, Request>
    var queue: Queues
    var pendingIdx: Bit
    var runningIdx: Bit
    var inFlight: seq<Id>
    var pendingSince: int
    var queueHead: seq<Entry>
    var driver: set<Entry>
    var covered: set<Id>
    var written: set<Id>
    var stable: set<Id>
    var bug: bool

    ghost function St(): State
      reads this
    {
      State(caps, reqs, queue, pendingIdx, runningIdx, inFlight, pendingSince, queueHead, driver,
            covered, written, stable, bug)
    }

    /** blk_alloc_flush_queue. */
    constructor (caps: Caps)
      requires caps.fua ==> caps.flush
      ensures St() == Init(caps) && Inv(St())
    {
      this.caps := caps;
      reqs, queue, pendingIdx, runningIdx, inFlight := map[], [[], []], 0, 0, [];
      pendingSince, queueHead, driver := 0, [], {};
      covered, written, stable, bug := {}, {}, {}, false;
    }

    /** blk_kick_flush: true when the flush request goes to the dispatch queue. It does when none is in flight,
        somebody waits, and no data is in flight or they have waited long enough; then those who wait are the
        ones it serves, and it covers what has been written by now. */
    method KickFlush(now: int) returns (issued: bool)
      modifies this
      ensures St() == BlkFlush.KickFlush(old(St()), now)
      ensures issued <==>
        old(!FlushInFlight(St()) && queue[pendingIdx] != [] && (inFlight == [] || now >= pendingSince + 5 * HZ))
      ensures issued ==>
        && FlushInFlight(St()) && queue[runningIdx] == old(queue[pendingIdx]) && covered == old(written)
        && queueHead == old(queueHead) + [FlushRq] && queue == old(queue) && inFlight == old(inFlight)
      ensures !issued ==> St() == old(St())
    {
      if pendingIdx != runningIdx || queue[pendingIdx] == [] {
        return false;
      }
      if inFlight != [] && now < pendingSince + FLUSH_PENDING_TIMEOUT {
        return false;
      }
      pendingIdx := 1 - pendingIdx;
      bug := bug || FlushRq in queueHead || FlushRq in driver;
      covered := written;
      queueHead := queueHead + [FlushRq];
      return true;
    }

    /** list_del: the request is on no list. */
    method Unlink(id: Id)
      modifies `queue, `inFlight
      ensures St() == BlkFlush.Unlink(old(St()), id)
      ensures !OnSomeList(St(), id) && OthersStay(old(queue), old(inFlight), queue, inFlight, id)
    {
      WithoutMembers(queue[0], id);
      WithoutMembers(queue[1], id);
      WithoutMembers(inFlight, id);
      queue := [Without(queue[0], id), Without(queue[1], id)];
      inFlight := Without(inFlight, id);
    }

    /** The request waits last on the pending queue and nowhere else; the clock starts with the first to wait. */
    method QueueForFlush(id: Id, now: int)
      modifies `queue, `inFlight, `pendingSince
      ensures St() == BlkFlush.QueueForFlush(old(St()), id, now)
      ensures EndsWith(queue[pendingIdx], id)
      ensures id !in queue[1 - pendingIdx] && id !in inFlight
      ensures OthersStay(old(queue), old(inFlight), queue, inFlight, id)
      ensures pendingSince == if old(queue[pendingIdx]) == [] then now else old(pendingSince)
    {
      if queue[pendingIdx] == [] {
        pendingSince := now;
      }
      Unlink(id);
      queue := queue[pendingIdx := queue[pendingIdx] + [id]];
    }

    /** The request is the next to be dispatched, and its data the last to be in flight. */
    method QueueData(id: Id)
      modifies `queue, `inFlight, `queueHead
      ensures St() == BlkFlush.QueueData(old(St()), id)
      ensures EndsWith(inFlight, id) && id !in queue[0] && id !in queue[1]
      ensures OthersStay(old(queue), old(inFlight), queue, inFlight, id)
      ensures queueHead == [Rq(id)] + old(queueHead)
    {
      Unlink(id);
      inFlight := inFlight + [id];
      queueHead := [Rq(id)] + queueHead;
    }

    /** The request is on no list and has its result; a bio no longer than the request is ended, once. */
    method Finish(id: Id, ok: bool)
      requires id in reqs
      modifies `queue, `inFlight, `reqs, `bug
      ensures St() == BlkFlush.Finish(old(St()), id, ok)
      ensures !OnSomeList(St(), id) && OthersStay(old(queue), old(inFlight), queue, inFlight, id)
      ensures id in reqs && reqs[id].result == (if ok then Ok else Failed) && !reqs[id].flushSeq
      ensures old(reqs[id].bioSize <= reqs[id].sectors) ==>
        reqs[id].ended == old(reqs[id].ended) + 1 && !reqs[id].hasBio
      ensures forall x :: x != id ==> (x in reqs <==> x in old(reqs)) && (x in reqs ==> reqs[x] == old(reqs)[x])
    {
      hide Without, UpdateRequest, Restore, OthersStay;
      RestoredEnds(reqs[id]);
      assert Restore(reqs[id]).sectors == reqs[id].sectors by { RestoreSize(reqs[id]); }
      bug := bug || Rq(id) in queueHead;
      Unlink(id);
      var r := Restore(reqs[id]);
      r := UpdateRequest(r, if r.sectors < 0 then 0 else r.sectors);
      bug := bug || r.hasBio;
      reqs := reqs[id := r.(result := if ok then Ok else Failed)];
    }

    /** Where a request goes for its next step. */
    ghost predicate WentTo(id: Id, step: Step, ok: bool)
      reads this
    {
      match step
      case PreFlush | PostFlush =>
        EndsWith(queue[pendingIdx], id) && id !in queue[1 - pendingIdx] && id !in inFlight
      case Data =>
        EndsWith(inFlight, id) && id !in queue[0] && id !in queue[1] && queueHead != [] && queueHead[0] == Rq(id)
      case Done => !OnSomeList(St(), id) && id in reqs && reqs[id].result == (if ok then Ok else Failed)
    }

    /** The switch of blk_flush_complete_seq: true when the request itself goes to the dispatch queue. */
    method Advance(id: Id, step: Step, ok: bool, now: int) returns (queued: bool)
      requires id in reqs
      modifies `queue, `inFlight, `pendingSince, `queueHead, `reqs, `bug
      ensures St() == BlkFlush.Advance(old(St()), id, step, ok, now)
      ensures WentTo(id, step, ok) && (queued <==> step == Data)
      ensures OthersStay(old(queue), old(inFlight), queue, inFlight, id)
      ensures |queueHead| == |old(queueHead)| + if queued then 1 else 0
    {
      hide BlkFlush.Unlink, UpdateRequest, Restore, OthersStay;
      queued := false;
      match step
      case PreFlush | PostFlush => QueueForFlush(id, now);
      case Data =>
        QueueData(id);
        queued := true;
      case Done => Finish(id, ok);
    }

    /** blk_flush_complete_seq: true when something was added to the dispatch queue, the request itself, the flush
        request, or both. */
    method CompleteSeq(id: Id, mask: Mask, ok: bool, now: int) returns (queued: bool)
      requires id in reqs
      modifies this
      ensures St() == BlkFlush.CompleteSeq(old(St()), id, mask, ok, now)
      ensures |queueHead| >= |old(queueHead)| && (queued <==> |queueHead| > |old(queueHead)|)
      ensures OthersStay(old(queue), old(inFlight), queue, inFlight, id)
      ensures var step := if ok then CurSeq(old(reqs[id].done).Union(mask)) else Done;
        && (step == Done <==> !OnSomeList(St(), id))
        && (step == Data <==> id in inFlight) && (step == Data ==> queueHead[0] == Rq(id))
    {
      hide BlkFlush.Advance, BlkFlush.KickFlush, CurSeq, TimedOut, OthersStay;
      var r := reqs[id];
      bug := bug || r.done.Overlaps(mask);
      reqs := reqs[id := r.(done := r.done.Union(mask))];
      var step := if ok then CurSeq(reqs[id].done) else Done;
      queued := Advance(id, step, ok, now);
      var kicked := KickFlush(now);
      queued := kicked || queued;
    }

    /** The loop of flush_end_io over the requests that waited for the flush. */
    method PushWaiting(r: Bit, ok: bool, now: int) returns (queued: bool)
      requires Core(St()) && r != runningIdx
      requires ok ==> forall x :: x in queue[r] ==> x in reqs && ServedBy(St(), x, stable)
      modifies this
      ensures St() == PushAll(old(St()), old(queue[r]), ok, now)
      ensures |queueHead| >= |old(queueHead)| && (queued <==> |queueHead| > |old(queueHead)|)
    {
      hide BlkFlush.CompleteSeq, CoreBut, ServedBy, OthersStay, OnSomeList, CurSeq;
      queued := false;
      ghost var s0 := St();
      while queue[r] != []
        invariant Core(St()) && r != runningIdx
        invariant ok ==> forall x :: x in queue[r] ==> x in reqs && ServedBy(St(), x, stable)
        invariant PushAll(St(), queue[r], ok, now) == PushAll(s0, s0.queue[r], ok, now)
        invariant |queueHead| >= |s0.queueHead| && (queued <==> |queueHead| > |s0.queueHead|)
        decreases |queue[r]|
      {
        PushOneKeeps(St(), queue[r], r, ok, now);
        var rq := queue[r][0];
        var step := CurSeq(reqs[rq].done);
        bug := bug || (step != PreFlush && step != PostFlush);
        var more := CompleteSeq(rq, StepMask(step), ok, now);
        queued := queued || more;
      }
    }

    /** flush_end_io, called when the device has finished the flush: those who waited for it learn how it ended, and
        the queue has to be run again when something was added to it. */
    method FlushDone(ok: bool, now: int) returns (queued: bool)
      requires Inv(St()) && FlushRq in driver
      modifies this
      ensures St() == Next(old(St()), Event.FlushDone(ok), now)
      ensures Inv(St())
      ensures forall x :: x in old(queue[runningIdx]) ==> x in reqs && (reqs[x].result == Failed <==> !ok)
      ensures forall x :: x in old(reqs) && x !in old(queue[runningIdx]) ==> x in reqs && reqs[x] == old(reqs)[x]
      ensures |queueHead| >= |old(queueHead)| && (queued <==> |queueHead| > |old(queueHead)|)
    {
      hide PushAll, CoreBut, ServedBy, Quiet;
      ghost var s0 := St();
      FlushDoneStart(s0, ok);
      FlushDoneKeeps(s0, ok, now);
      FlushDoneResults(s0, ok, now);
      driver := driver - {FlushRq};
      if ok {
        stable := stable + covered;
      }
      var r := runningIdx;
      bug := bug || pendingIdx == runningIdx;
      runningIdx := 1 - runningIdx;
      queued := PushWaiting(r, ok, now);
    }

    /** The completion of the data: blk_update_request, then flush_data_end_io. */
    method DataDone(id: Id, ok: bool, now: int) returns (queued: bool)
      requires Inv(St()) && Rq(id) in driver && id in reqs
      modifies this
      ensures St() == Next(old(St()), Event.DataDone(id, ok), now)
      ensures Inv(St())
      ensures id in reqs && (reqs[id].result == Failed <==> !ok)
      ensures |queueHead| >= |old(queueHead)| && (queued <==> |queueHead| > |old(queueHead)|)
    {
      hide BlkFlush.CompleteSeq, Inv, BlkFlush.InsertFlush, FlushEndIo, UpdateRequest;
      hide OthersStay, OnSomeList, CurSeq, TimedOut;
      ghost var s0 := St();
      DataDoneKeeps(s0, id, ok, now);
      DataDoneResult(s0, id, ok, now, id);
      var r := reqs[id];
      if ok {
        written := written + {id};
        if r.reqFua || !caps.flush {
          stable := stable + {id};
        }
      }
      driver := driver - {Rq(id)};
      reqs := reqs[id := UpdateRequest(r, if r.sectors < 0 then 0 else r.sectors)];
      assert St() == DataArrived(s0, id, ok);
      if r.flushSeq {
        queued := CompleteSeq(id, StepMask(Data), ok, now);
      } else {
        queued := false;
        reqs := reqs[id := reqs[id].(result := if ok then Ok else Failed)];
      }
    }

    /** blk_insert_flush. */
    method InsertFlush(id: Id, want: Want, now: int)
      requires Inv(St()) && Enabled(St(), Insert(id, want))
      modifies this
      ensures St() == Next(old(St()), Insert(id, want), now)
      ensures Inv(St())
    {
      hide BlkFlush.CompleteSeq, Inv, OthersStay, OnSomeList, CurSeq;
      ghost var s0 := St();
      InsertKeeps(s0, id, want, now);
      var policy := FlushPolicy(caps, want);
      var r := Request(want, written, want.flush, want.fua, false, Mask(false, false, false),
                       true, want.sectors, want.sectors, 0, Pending);
      r := r.(reqFlush := false);
      if !caps.fua {
        r := r.(reqFua := false);
      }
      if policy == Mask(false, false, false) {
        reqs := reqs[id := UpdateRequest(r, 0).(result := Ok)];
      } else if policy.data && !policy.pre && !policy.post {
        reqs := reqs[id := r];
        queueHead := queueHead + [Rq(id)];
      } else {
        reqs := reqs[id := r.(flushSeq := true)];
        var _ := CompleteSeq(id, policy.Complement(), true, now);
      }
    }
  }
}
