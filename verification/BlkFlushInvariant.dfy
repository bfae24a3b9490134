/**
What every reachable state of the flush sequencer satisfies: the shape of the lists, the
absence of bugs and stalls, the single completion of every bio, and durability.
*/
module BlkFlushInvariant {
  import opened Common
  import opened BlkFlush

  // ---------------------------------------------------------------- the invariant

  /** Every promise made to the submitter of a request that completed without error. */
  ghost predicate Durable(s: State, id: Id)
    requires id in s.reqs
  {
    && (s.reqs[id].want.flush ==> s.reqs[id].before <= s.stable)
    && (s.reqs[id].want.fua ==> id in s.stable)
    && (s.reqs[id].want.sectors > 0 ==> id in s.written)
  }

  /** The bio, the completed steps and the data of a request inside the sequencer. */
  ghost predicate Sequenced(s: State, id: Id)
    requires id in s.reqs
  {
    var r := s.reqs[id];
    var p := FlushPolicy(s.caps, r.want);
    && (p.pre || p.post)
    && (!p.pre ==> r.done.pre) && (!p.data ==> r.done.data) && (!p.post ==> r.done.post)
    && (p.post ==> !r.done.post)
    && (p.data && r.done.data ==> r.done.pre && !r.hasBio && r.bioSize == 0 && id in s.written)
    && (!(p.data && r.done.data) ==> r.hasBio && r.bioSize == r.sectors)
    && (!r.done.data ==> r.sectors > 0)
    && (!p.data ==> r.sectors == 0)
    && (r.done.data && p.data ==> r.sectors == 0)
    && (r.done.pre && r.want.flush ==> r.before <= s.stable)
  }

  ghost predicate Direct(s: State, id: Id)
    requires id in s.reqs
  {
    var r := s.reqs[id];
    && FlushPolicy(s.caps, r.want) == Mask(false, true, false)
    && r.hasBio && r.bioSize == r.sectors > 0
    && (Rq(id) in s.queueHead || Rq(id) in s.driver)
  }

  ghost predicate RequestOk(s: State, id: Id)
    requires id in s.reqs
  {
    var r := s.reqs[id];
    && r.before <= s.written
    && (r.want.fua ==> r.want.sectors > 0)
    && !r.reqFlush && r.reqFua == (r.want.fua && s.caps.fua)
    && (r.result == Pending ==> r.ended == 0)
    && (r.result == Pending && !r.flushSeq ==> Direct(s, id))
    && (r.flushSeq ==> r.result == Pending && Sequenced(s, id))
    && (r.result != Pending ==> r.ended == 1 && Rq(id) !in s.queueHead && Rq(id) !in s.driver)
    && (r.result == Ok ==> Durable(s, id))
  }

  /** A request on one of the two flush queues waits for a flush and is nowhere else. */
  ghost predicate Waiting(s: State, id: Id) {
    && id in s.reqs && s.reqs[id].flushSeq
    && CurSeq(s.reqs[id].done) in {PreFlush, PostFlush}
    && Rq(id) !in s.queueHead && Rq(id) !in s.driver
  }

  ghost predicate Executing(s: State, id: Id) {
    && id in s.reqs && s.reqs[id].flushSeq
    && CurSeq(s.reqs[id].done) == Data
    && (Rq(id) in s.queueHead || Rq(id) in s.driver)
  }

  ghost predicate OnSomeList(s: State, id: Id) {
    id in s.queue[0] || id in s.queue[1] || id in s.inFlight
  }

  ghost predicate Lists(s: State) {
    && Distinct(s.queue[0]) && Distinct(s.queue[1]) && Distinct(s.inFlight) && Distinct(s.queueHead)
    && (forall id :: id in s.queue[0] ==> id !in s.queue[1] && id !in s.inFlight && Waiting(s, id))
    && (forall id :: id in s.queue[1] ==> id !in s.inFlight && Waiting(s, id))
    && (forall id :: id in s.inFlight ==> Executing(s, id))
    && (forall e :: e in s.queueHead ==> e !in s.driver)
    && (forall id :: Rq(id) in s.queueHead || Rq(id) in s.driver ==> id in s.reqs)
  }

  /** The flush now in flight will put on stable media what `id` waits for. */
  ghost predicate ServedBy(s: State, id: Id, flushed: set<Id>)
    requires id in s.reqs
  {
    var r := s.reqs[id];
    && (CurSeq(r.done) == PreFlush && r.want.flush ==> r.before <= flushed)
    && (CurSeq(r.done) == PostFlush && FlushPolicy(s.caps, r.want).data ==> id in flushed)
  }

  ghost predicate Flight(s: State) {
    && (FlushInFlight(s) <==> FlushRq in s.queueHead || FlushRq in s.driver)
    && (FlushInFlight(s) ==>
        && s.queue[s.runningIdx] != []
        && s.covered <= s.written
        && forall id :: id in s.queue[s.runningIdx] ==> id in s.reqs && ServedBy(s, id, s.covered))
  }

  ghost predicate Device(s: State) {
    && (s.caps.fua ==> s.caps.flush)
    && s.stable <= s.written
    && (!s.caps.flush ==> s.written <= s.stable)
  }

  /** What holds even half-way through flush_end_io, for every request but `out`. */
  ghost predicate CoreBut(s: State, out: set<Id>) {
    && !s.bug
    && Device(s) && Lists(s) && Flight(s)
    && (forall id :: id in s.reqs && id !in out ==> RequestOk(s, id))
    && (forall id :: id in s.reqs && id !in out && s.reqs[id].flushSeq ==> OnSomeList(s, id))
  }

  ghost predicate Core(s: State) { CoreBut(s, {}) }

  /** With no flush in flight, the non-pending queue is empty and nobody is stalled. */
  ghost predicate Quiet(s: State) {
    && (!FlushInFlight(s) ==> s.queue[1 - s.pendingIdx] == [])
    && Kicked(s)
  }

  /** A non-empty pending queue means that a flush or the data of some request is under way. */
  ghost predicate Kicked(s: State) {
    s.queue[s.pendingIdx] != [] ==> FlushInFlight(s) || s.inFlight != []
  }

  ghost predicate Inv(s: State) { Core(s) && Quiet(s) }

  // ---------------------------------------------------------------- lists

  lemma NonEmpty<T>(q: seq<T>)
    ensures q != [] ==> exists x :: x in q
  {
    if q != [] {
      assert q[0] in q;
    }
  }

  lemma WithoutHead(q: seq<Id>)
    requires q != [] && Distinct(q)
    ensures Without(q, q[0]) == q[1..]
  {
    assert q[0] !in q[1..];
    WithoutMembers(q[1..], q[0]);
  }

  lemma UnlinkLists(s: State, id: Id)
    ensures var u := Unlink(s, id);
      && (forall i | 0 <= i < 2 :: forall x :: x in u.queue[i] <==> x in s.queue[i] && x != id)
      && (forall x :: x in u.inFlight <==> x in s.inFlight && x != id)
      && (forall i | 0 <= i < 2 :: Distinct(s.queue[i]) ==> Distinct(u.queue[i]))
      && (Distinct(s.inFlight) ==> Distinct(u.inFlight))
      && (forall i | 0 <= i < 2 :: id !in s.queue[i] ==> u.queue[i] == s.queue[i])
  {
    WithoutMembers(s.queue[0], id);
    WithoutMembers(s.queue[1], id);
    WithoutMembers(s.inFlight, id);
  }

  // ---------------------------------------------------------------- states that differ little

  /** From `s` to `t` nothing is lost, and the requests outside `out` do not change. */
  ghost predicate Extends(s: State, t: State, out: set<Id>) {
    && t.caps == s.caps && s.written <= t.written && s.stable <= t.stable
    && (forall x :: x !in out ==> (x in s.reqs <==> x in t.reqs))
    && (forall x :: x in s.reqs && x !in out ==> t.reqs[x] == s.reqs[x])
    && (forall x :: x !in out ==>
        (Rq(x) in s.queueHead || Rq(x) in s.driver <==> Rq(x) in t.queueHead || Rq(x) in t.driver))
  }

  lemma Transfer(s: State, t: State, out: set<Id>)
    requires Extends(s, t, out)
    ensures forall x :: x in s.reqs && x !in out && RequestOk(s, x) ==> RequestOk(t, x)
    ensures forall x :: x !in out && Waiting(s, x) ==> Waiting(t, x)
    ensures forall x :: x !in out && Executing(s, x) ==> Executing(t, x)
  {
  }

  // ---------------------------------------------------------------- one step of one request

  /** Request `id` has been taken off every list and can take `step`. */
  ghost predicate Ready(s: State, id: Id, step: Step, ok: bool) {
    && id in s.reqs
    && Rq(id) !in s.queueHead && Rq(id) !in s.driver
    && var r := s.reqs[id];
    && r.flushSeq && r.result == Pending && r.ended == 0
    && r.before <= s.written
    && (r.want.fua ==> r.want.sectors > 0)
    && !r.reqFlush && r.reqFua == (r.want.fua && s.caps.fua)
    && r.bioSize == r.sectors
    && (step != Done ==> Sequenced(s, id) && CurSeq(r.done) == step)
    && (step == Done && ok ==> Durable(s, id))
  }

  lemma QueueForFlushKeeps(s: State, id: Id, now: int)
    requires CoreBut(Unlink(s, id), {id})
    requires Ready(s, id, PreFlush, true) || Ready(s, id, PostFlush, true)
    ensures Core(QueueForFlush(s, id, now))
  {
    hide Without;
    var u := Unlink(s, id);
    UnlinkLists(s, id);
    var t := QueueForFlush(s, id, now);
    DistinctAppend(u.queue[s.pendingIdx], id);
    assert forall x :: x in t.queue[s.pendingIdx] <==> x in u.queue[s.pendingIdx] || x == id;
    assert forall x :: Waiting(u, x) ==> Waiting(t, x);
    assert forall x :: Executing(u, x) ==> Executing(t, x);
    assert Waiting(t, id);
    assert Lists(t);
    assert forall x :: x in t.reqs && x != id ==> RequestOk(u, x);
    assert RequestOk(t, id);
    assert forall x :: OnSomeList(u, x) ==> OnSomeList(t, x);
    assert OnSomeList(t, id);
  }

  lemma QueueDataKeeps(s: State, id: Id)
    requires CoreBut(Unlink(s, id), {id})
    requires Ready(s, id, Data, true)
    ensures Core(QueueData(s, id))
  {
    hide Without;
    var u := Unlink(s, id);
    UnlinkLists(s, id);
    var t := QueueData(s, id);
    DistinctAppend(u.inFlight, id);
    DistinctPrepend(Rq(id), s.queueHead);
    assert forall e :: e in t.queueHead <==> e in s.queueHead || e == Rq(id);
    assert forall x :: x in t.inFlight <==> x in u.inFlight || x == id;
    assert Executing(t, id);
    assert forall x :: x != id && Waiting(u, x) ==> Waiting(t, x);
    assert forall x :: Executing(u, x) ==> Executing(t, x);
    assert Lists(t);
    assert forall x :: x in t.reqs && x != id ==> RequestOk(u, x);
    assert RequestOk(t, id);
    assert forall x :: OnSomeList(u, x) ==> OnSomeList(t, x);
    assert OnSomeList(t, id);
  }

  lemma FinishKeeps(s: State, id: Id, ok: bool)
    requires CoreBut(Unlink(s, id), {id})
    requires Ready(s, id, Done, ok)
    ensures Core(Finish(s, id, ok))
  {
    var u := Unlink(s, id);
    UnlinkLists(s, id);
    var t := Finish(s, id, ok);
    assert t.reqs[id].ended == 1 && !t.reqs[id].hasBio;
    assert forall x :: x != id && Waiting(u, x) ==> Waiting(t, x);
    assert forall x :: x != id && Executing(u, x) ==> Executing(t, x);
    assert Lists(t);
    assert forall x :: x in t.reqs && x != id ==> RequestOk(u, x);
    assert RequestOk(t, id);
  }

  lemma KickKeeps(s: State, now: int)
    requires Core(s)
    ensures Core(KickFlush(s, now)) && Kicked(KickFlush(s, now))
  {
    var t := KickFlush(s, now);
    if t != s {
      DistinctAppend(s.queueHead, FlushRq);
      assert forall e :: e in t.queueHead <==> e in s.queueHead || e == FlushRq;
      assert forall x :: Waiting(s, x) ==> Waiting(t, x);
      assert forall x :: Executing(s, x) ==> Executing(t, x);
      assert Lists(t);
      forall x | x in t.queue[t.runningIdx] ensures x in t.reqs && ServedBy(t, x, t.covered) {
        assert Waiting(s, x) && RequestOk(s, x);
      }
      assert forall x :: x in s.reqs ==> RequestOk(s, x);
    }
  }

  lemma AdvanceKeeps(s: State, id: Id, step: Step, ok: bool, now: int)
    requires CoreBut(Unlink(s, id), {id})
    requires Ready(s, id, step, ok) && (step != Done ==> ok)
    ensures Core(Advance(s, id, step, ok, now))
  {
    match step
    case PreFlush => QueueForFlushKeeps(s, id, now);
    case PostFlush => QueueForFlushKeeps(s, id, now);
    case Data => QueueDataKeeps(s, id);
    case Done => FinishKeeps(s, id, ok);
  }

  // ---------------------------------------------------------------- blk_flush_complete_seq

  /** What a step of `id` leaves alone. */
  ghost predicate Frame(s: State, t: State, id: Id) {
    && t.caps == s.caps && t.written == s.written && t.stable == s.stable
    && t.runningIdx == s.runningIdx
    && t.reqs.Keys == s.reqs.Keys
    && (forall x :: x in s.reqs && x != id ==> t.reqs[x] == s.reqs[x])
  }

  lemma AdvanceFrame(s: State, id: Id, step: Step, ok: bool, now: int)
    requires id in s.reqs
    ensures Frame(s, Advance(s, id, step, ok, now), id)
    ensures step in {Data, Done} ==> Advance(s, id, step, ok, now).queue == Unlink(s, id).queue
  {
    hide Without, UpdateRequest;
  }

  lemma KickFrame(s: State, now: int)
    ensures var t := KickFlush(s, now);
      && t.caps == s.caps && t.written == s.written && t.stable == s.stable
      && t.runningIdx == s.runningIdx && t.reqs == s.reqs && t.queue == s.queue
  {
  }

  lemma CompleteSeqFrame(s: State, id: Id, mask: Mask, ok: bool, now: int)
    requires id in s.reqs
    ensures Frame(s, CompleteSeq(s, id, mask, ok, now), id)
    ensures var s1 := Record(s, id, mask);
      (ok ==> CurSeq(s1.reqs[id].done) in {Data, Done}) ==>
        CompleteSeq(s, id, mask, ok, now).queue == Unlink(s, id).queue
  {
    hide Without, CurSeq, Advance, KickFlush;
    var s1 := Record(s, id, mask);
    var step := if ok then CurSeq(s1.reqs[id].done) else Done;
    AdvanceFrame(s1, id, step, ok, now);
    KickFrame(Advance(s1, id, step, ok, now), now);
  }

  lemma CompleteSeqKeeps(s: State, id: Id, mask: Mask, ok: bool, now: int)
    requires id in s.reqs && !s.reqs[id].done.Overlaps(mask)
    requires CoreBut(Unlink(Record(s, id, mask), id), {id})
    requires var s1 := Record(s, id, mask);
      Ready(s1, id, if ok then CurSeq(s1.reqs[id].done) else Done, ok)
    ensures Core(CompleteSeq(s, id, mask, ok, now))
    ensures Kicked(CompleteSeq(s, id, mask, ok, now))
  {
    hide CoreBut, Ready, Kicked, Advance, KickFlush, Unlink;
    var s1 := Record(s, id, mask);
    var step := if ok then CurSeq(s1.reqs[id].done) else Done;
    AdvanceKeeps(s1, id, step, ok, now);
    KickKeeps(Advance(s1, id, step, ok, now), now);
  }

  /** Taking `id` off every list leaves the rest of the invariant intact. */
  lemma UnlinkKeeps(s: State, id: Id, mask: Mask)
    requires id in s.reqs && !s.reqs[id].done.Overlaps(mask)
    requires CoreBut(s, {id})
    requires FlushInFlight(s) ==> id !in s.queue[s.runningIdx]
    ensures CoreBut(Unlink(Record(s, id, mask), id), {id})
  {
    hide RequestOk, Waiting, Executing, Without;
    var s1 := Record(s, id, mask);
    UnlinkLists(s1, id);
    var u := Unlink(s1, id);
    Transfer(s, u, {id});
    assert Lists(u);
  }

  // ---------------------------------------------------------------- flush_end_io

  /** A request whose flush has succeeded is ready for its next step, which is not another flush. */
  lemma ServedIsReady(s: State, id: Id, ok: bool)
    requires id in s.reqs && s.reqs[id].flushSeq && RequestOk(s, id) && Waiting(s, id)
    requires ok ==> ServedBy(s, id, s.stable)
    requires s.caps.fua ==> s.caps.flush
    ensures var mask := StepMask(CurSeq(s.reqs[id].done));
      var s1 := Record(s, id, mask);
      && !s.reqs[id].done.Overlaps(mask)
      && CurSeq(s1.reqs[id].done) in {Data, Done}
      && Ready(s1, id, if ok then CurSeq(s1.reqs[id].done) else Done, ok)
  {
  }

  lemma HeadIsWaiting(s: State, todo: seq<Id>, r: Bit)
    requires Core(s) && r != s.runningIdx && s.queue[r] == todo != []
    ensures todo[0] in s.reqs && s.reqs[todo[0]].flushSeq
    ensures Waiting(s, todo[0]) && RequestOk(s, todo[0]) && (s.caps.fua ==> s.caps.flush)
    ensures CurSeq(s.reqs[todo[0]].done) in {PreFlush, PostFlush}
    ensures Distinct(todo) && todo[0] !in s.queue[s.runningIdx]
    ensures CoreBut(s, {todo[0]})
  {
    hide RequestOk, ServedBy;
    assert todo[0] in s.queue[r];
  }

  lemma UnlinkHead(s: State, todo: seq<Id>, r: Bit)
    requires s.queue[r] == todo != [] && Distinct(todo)
    ensures Unlink(s, todo[0]).queue[r] == todo[1..]
  {
    WithoutHead(todo);
  }

  /** One iteration of the loop: the flush that `id` waited for is over. */
  lemma PushOneKeeps(s: State, todo: seq<Id>, r: Bit, ok: bool, now: int)
    requires Core(s) && r != s.runningIdx && s.queue[r] == todo != []
    requires ok ==> forall x :: x in todo ==> x in s.reqs && ServedBy(s, x, s.stable)
    ensures todo[0] in s.reqs && CurSeq(s.reqs[todo[0]].done) in {PreFlush, PostFlush}
    ensures var t := CompleteSeq(s, todo[0], StepMask(CurSeq(s.reqs[todo[0]].done)), ok, now);
      && Core(t) && Kicked(t)
      && Frame(s, t, todo[0])
      && t.queue[r] == todo[1..]
      && (ok ==> forall x :: x in todo[1..] ==> x in t.reqs && ServedBy(t, x, t.stable))
  {
    hide CompleteSeq, Kicked, CoreBut, RequestOk, Ready, Waiting, Unlink;
    var id := todo[0];
    HeadIsWaiting(s, todo, r);
    var mask := StepMask(CurSeq(s.reqs[id].done));
    ServedIsReady(s, id, ok);
    UnlinkKeeps(s, id, mask);
    CompleteSeqKeeps(s, id, mask, ok, now);
    CompleteSeqFrame(s, id, mask, ok, now);
    UnlinkHead(s, todo, r);
    var t := CompleteSeq(s, id, mask, ok, now);
    forall x | ok && x in todo[1..] ensures x in t.reqs && ServedBy(t, x, t.stable) {
      assert x in todo && x != id;
    }
  }

  lemma {:induction false} PushAllKeeps(s: State, todo: seq<Id>, r: Bit, ok: bool, now: int)
    requires Core(s) && r != s.runningIdx && s.queue[r] == todo
    requires ok ==> forall x :: x in todo ==> x in s.reqs && ServedBy(s, x, s.stable)
    ensures var t := PushAll(s, todo, ok, now);
      && Core(t) && (todo != [] ==> Kicked(t))
      && t.queue[r] == [] && t.runningIdx == s.runningIdx
    decreases |todo|
  {
    hide CompleteSeq, CoreBut, Kicked, CurSeq, ServedBy;
    if todo != [] {
      PushOneKeeps(s, todo, r, ok, now);
      var step := CurSeq(s.reqs[todo[0]].done);
      var t := CompleteSeq(s, todo[0], StepMask(step), ok, now);
      assert s.(bug := s.bug || !(step == PreFlush || step == PostFlush)) == s;
      PushAllKeeps(t, todo[1..], r, ok, now);
    }
  }

  /** Once the device is done, flush_end_io starts from a state its loop can work on. */
  lemma FlushDoneStart(s: State, ok: bool)
    requires Inv(s) && FlushRq in s.driver
    ensures FlushInFlight(s) && s.queue[s.runningIdx] != []
    ensures var s1 := DeviceFlushed(s, ok).(runningIdx := 1 - s.runningIdx);
      && Core(s1) && !s1.bug
      && (ok ==> forall x :: x in s.queue[s.runningIdx] ==> x in s1.reqs && ServedBy(s1, x, s1.stable))
  {
    hide RequestOk, Waiting, Executing;
    var s1 := DeviceFlushed(s, ok).(runningIdx := 1 - s.runningIdx);
    Transfer(s, s1, {});
    assert Lists(s1);
    assert forall x :: x in s.queue[s.runningIdx] ==> ServedBy(s, x, s.covered);
  }

  lemma FlushDoneKeeps(s: State, ok: bool, now: int)
    requires Inv(s) && FlushRq in s.driver
    ensures Inv(FlushEndIo(DeviceFlushed(s, ok), ok, now))
  {
    hide CompleteSeq, PushAll, CoreBut, Kicked, ServedBy;
    var r := s.runningIdx;
    FlushDoneStart(s, ok);
    var s1 := DeviceFlushed(s, ok).(runningIdx := 1 - r);
    PushAllKeeps(s1, s.queue[r], r, ok, now);
  }

  // ---------------------------------------------------------------- blk_insert_flush

  /** A step of a request that no flush queue holds never fills the queue that nobody waits on. */
  lemma StaysQuiet(s: State, id: Id, mask: Mask, ok: bool, now: int)
    requires id in s.reqs && id !in s.queue[0] && id !in s.queue[1]
    requires !FlushInFlight(s) ==> s.queue[1 - s.pendingIdx] == []
    ensures var t := CompleteSeq(s, id, mask, ok, now);
      !FlushInFlight(t) ==> t.queue[1 - t.pendingIdx] == []
  {
    hide Without, UpdateRequest, TimedOut, CurSeq, Restore, StepMask;
    WithoutMembers(s.queue[0], id);
    WithoutMembers(s.queue[1], id);
  }

  lemma InsertKeeps(s: State, id: Id, want: Want, now: int)
    requires Inv(s) && Enabled(s, Insert(id, want))
    ensures Inv(InsertFlush(s, id, want, now))
  {
    hide Inv, CompleteSeq, UpdateRequest, Add, NewRequest;
    var policy := FlushPolicy(s.caps, want);
    if policy.pre || policy.post {
      InsertSequencedKeeps(s, id, want, now);
    } else if policy.data {
      InsertDirectKeeps(s, id, want);
    } else {
      InsertEmptyKeeps(s, id, want);
    }
  }

  /** A request that needs no flush is complete at once, or goes straight to the driver. */
  lemma InsertedOk(s: State, id: Id, want: Want)
    requires Inv(s) && Enabled(s, Insert(id, want))
    ensures !UpdateRequest(NewRequest(s, want, false), 0).flushSeq
    ensures FlushPolicy(s.caps, want) == Mask(false, false, false) ==>
      RequestOk(Add(s, id, UpdateRequest(NewRequest(s, want, false), 0).(result := Ok)), id)
    ensures FlushPolicy(s.caps, want) == Mask(false, true, false) ==>
      RequestOk(Add(s, id, NewRequest(s, want, false)).(queueHead := s.queueHead + [Rq(id)]), id)
  {
    hide CoreBut;
    NotOnList(s, id);
  }

  lemma NotOnList(s: State, id: Id)
    requires Inv(s) && id !in s.reqs
    ensures !OnSomeList(s, id) && Rq(id) !in s.queueHead && Rq(id) !in s.driver
    ensures Device(s)
  {
    hide RequestOk, Flight;
  }

  lemma InsertEmptyKeeps(s: State, id: Id, want: Want)
    requires Inv(s) && Enabled(s, Insert(id, want))
    requires FlushPolicy(s.caps, want) == Mask(false, false, false)
    ensures Inv(Add(s, id, UpdateRequest(NewRequest(s, want, false), 0).(result := Ok)))
  {
    hide RequestOk, Waiting, Executing, UpdateRequest;
    var t := Add(s, id, UpdateRequest(NewRequest(s, want, false), 0).(result := Ok));
    Transfer(s, t, {id});
    InsertedOk(s, id, want);
    NotOnList(s, id);
    assert Lists(t);
  }

  lemma InsertDirectKeeps(s: State, id: Id, want: Want)
    requires Inv(s) && Enabled(s, Insert(id, want))
    requires FlushPolicy(s.caps, want) == Mask(false, true, false)
    ensures Inv(Add(s, id, NewRequest(s, want, false)).(queueHead := s.queueHead + [Rq(id)]))
  {
    hide RequestOk, Waiting, Executing, FlushPolicy;
    var t := Add(s, id, NewRequest(s, want, false)).(queueHead := s.queueHead + [Rq(id)]);
    DistinctAppend(s.queueHead, Rq(id));
    Transfer(s, t, {id});
    InsertedOk(s, id, want);
    NotOnList(s, id);
    assert Lists(t);
  }

  lemma AddedCore(s: State, id: Id, want: Want)
    requires Inv(s) && Enabled(s, Insert(id, want))
    ensures var t := Add(s, id, NewRequest(s, want, true));
      CoreBut(t, {id}) && !OnSomeList(t, id) && Quiet(t)
  {
    hide RequestOk, Waiting, Executing;
    var t := Add(s, id, NewRequest(s, want, true));
    NotOnList(s, id);
    Transfer(s, t, {id});
    assert Lists(t);
  }

  lemma AddedReady(s: State, id: Id, want: Want)
    requires Inv(s) && Enabled(s, Insert(id, want))
    requires var p := FlushPolicy(s.caps, want); p.pre || p.post
    ensures var s1 := Record(Add(s, id, NewRequest(s, want, true)), id,
                             FlushPolicy(s.caps, want).Complement());
      Ready(s1, id, CurSeq(s1.reqs[id].done), true)
  {
    hide CoreBut;
    NotOnList(s, id);
  }

  lemma InsertSequencedKeeps(s: State, id: Id, want: Want, now: int)
    requires Inv(s) && Enabled(s, Insert(id, want))
    requires var p := FlushPolicy(s.caps, want); p.pre || p.post
    ensures Inv(CompleteSeq(Add(s, id, NewRequest(s, want, true)), id,
                            FlushPolicy(s.caps, want).Complement(), true, now))
  {
    hide CoreBut, CompleteSeq, Ready, CurSeq, Kicked, FlushPolicy, Unlink;
    AddedCore(s, id, want);
    AddedReady(s, id, want);
    var s0 := Add(s, id, NewRequest(s, want, true));
    var mask := FlushPolicy(s.caps, want).Complement();
    UnlinkKeeps(s0, id, mask);
    CompleteSeqKeeps(s0, id, mask, true, now);
    StaysQuiet(s0, id, mask, true, now);
  }

  // ---------------------------------------------------------------- data completion

  lemma DataDoneKeeps(s: State, id: Id, ok: bool, now: int)
    requires Inv(s) && Enabled(s, DataDone(id, ok))
    ensures Inv(DataEndIo(s, id, ok, now))
  {
    hide Inv, CompleteSeq, DataArrived, SetResult;
    if s.reqs[id].flushSeq {
      SequencedDataDoneKeeps(s, id, ok, now);
    } else {
      DirectDataDoneKeeps(s, id, ok);
    }
  }

  lemma DirectDataReady(s: State, id: Id, ok: bool)
    requires Inv(s) && Enabled(s, DataDone(id, ok)) && !s.reqs[id].flushSeq
    ensures var t := SetResult(DataArrived(s, id, ok), id, ok);
      id in t.reqs && RequestOk(t, id) && Extends(s, t, {id}) && !OnSomeList(s, id)
  {
    assert RequestOk(s, id);
    assert !OnSomeList(s, id);
  }

  lemma DirectDataLists(s: State, id: Id, ok: bool)
    requires Inv(s) && Enabled(s, DataDone(id, ok)) && !s.reqs[id].flushSeq
    ensures Lists(SetResult(DataArrived(s, id, ok), id, ok))
  {
    hide RequestOk, Waiting, Executing, UpdateRequest, FlushPolicy, Flight;
    DirectDataReady(s, id, ok);
    Transfer(s, SetResult(DataArrived(s, id, ok), id, ok), {id});
  }

  lemma DirectDataDoneKeeps(s: State, id: Id, ok: bool)
    requires Inv(s) && Enabled(s, DataDone(id, ok)) && !s.reqs[id].flushSeq
    ensures Inv(SetResult(DataArrived(s, id, ok), id, ok))
  {
    hide RequestOk, Lists, UpdateRequest, FlushPolicy;
    DirectDataReady(s, id, ok);
    var t := SetResult(DataArrived(s, id, ok), id, ok);
    Transfer(s, t, {id});
    DirectDataLists(s, id, ok);
    assert Flight(t);
  }

  lemma SequencedDataReady(s: State, id: Id, ok: bool)
    requires Inv(s) && Enabled(s, DataDone(id, ok)) && s.reqs[id].flushSeq
    ensures id in s.inFlight && !s.reqs[id].done.data
    ensures id !in s.queue[0] && id !in s.queue[1]
    ensures DataArrived(s, id, ok).reqs[id].done == s.reqs[id].done
    ensures var s1 := Record(DataArrived(s, id, ok), id, StepMask(Data));
      && Extends(s, s1, {id})
      && Ready(s1, id, if ok then CurSeq(s1.reqs[id].done) else Done, ok)
  {
    assert RequestOk(s, id);
    assert OnSomeList(s, id);
    assert Executing(s, id);
  }

  lemma SequencedDataUnlinked(s: State, id: Id, ok: bool)
    requires Inv(s) && Enabled(s, DataDone(id, ok)) && s.reqs[id].flushSeq
    ensures CoreBut(Unlink(Record(DataArrived(s, id, ok), id, StepMask(Data)), id), {id})
  {
    hide RequestOk, Lists, Without, Ready, UpdateRequest;
    SequencedDataReady(s, id, ok);
    var s1 := Record(DataArrived(s, id, ok), id, StepMask(Data));
    var u := Unlink(s1, id);
    UnlinkLists(s1, id);
    Transfer(s, u, {id});
    SequencedDataLists(s, id, ok);
    assert Flight(u);
  }

  lemma SequencedDataLists(s: State, id: Id, ok: bool)
    requires Inv(s) && Enabled(s, DataDone(id, ok)) && s.reqs[id].flushSeq
    ensures Lists(Unlink(Record(DataArrived(s, id, ok), id, StepMask(Data)), id))
  {
    hide RequestOk, Waiting, Executing, Without, Ready, UpdateRequest, Flight;
    SequencedDataReady(s, id, ok);
    var s1 := Record(DataArrived(s, id, ok), id, StepMask(Data));
    UnlinkLists(s1, id);
    Transfer(s, Unlink(s1, id), {id});
  }

  lemma SequencedDataDoneKeeps(s: State, id: Id, ok: bool, now: int)
    requires Inv(s) && Enabled(s, DataDone(id, ok)) && s.reqs[id].flushSeq
    ensures Inv(CompleteSeq(DataArrived(s, id, ok), id, StepMask(Data), ok, now))
  {
    hide CoreBut, CompleteSeq, Ready, Kicked, Extends, Unlink, Record, UpdateRequest;
    SequencedDataReady(s, id, ok);
    SequencedDataUnlinked(s, id, ok);
    var s1 := DataArrived(s, id, ok);
    CompleteSeqKeeps(s1, id, StepMask(Data), ok, now);
    StaysQuiet(s1, id, StepMask(Data), ok, now);
  }

  // ---------------------------------------------------------------- every run

  lemma DispatchKeeps(s: State)
    requires Inv(s) && s.queueHead != []
    ensures Inv(s.(queueHead := s.queueHead[1..], driver := s.driver + {s.queueHead[0]}))
  {
    hide RequestOk, Waiting, Executing;
    var t := s.(queueHead := s.queueHead[1..], driver := s.driver + {s.queueHead[0]});
    assert s.queueHead == [s.queueHead[0]] + s.queueHead[1..];
    assert s.queueHead[0] !in s.queueHead[1..];
    Transfer(s, t, {});
    assert Lists(t);
  }

  lemma ProgressedOk(s: State, id: Id, n: nat)
    requires Inv(s) && Enabled(s, Progress(id, n))
    ensures var t := s.(reqs := s.reqs[id := UpdateRequest(s.reqs[id], n)]);
      && RequestOk(t, id) && (id in s.inFlight ==> Executing(t, id))
      && id !in s.queue[0] && id !in s.queue[1]
      && t.reqs[id].flushSeq == s.reqs[id].flushSeq
  {
    assert RequestOk(s, id);
    assert s.reqs[id].flushSeq ==> OnSomeList(s, id);
  }

  lemma ProgressKeeps(s: State, id: Id, n: nat)
    requires Inv(s) && Enabled(s, Progress(id, n))
    ensures Inv(s.(reqs := s.reqs[id := UpdateRequest(s.reqs[id], n)]))
  {
    hide RequestOk, Waiting, Executing, UpdateRequest;
    var t := s.(reqs := s.reqs[id := UpdateRequest(s.reqs[id], n)]);
    ProgressedOk(s, id, n);
    Transfer(s, t, {id});
    assert Lists(t);
  }

  lemma PlainWriteKeeps(s: State, id: Id)
    requires Inv(s) && id !in s.reqs
    ensures Inv(s.(written := s.written + {id},
                   stable := if s.caps.flush then s.stable else s.stable + {id}))
  {
    hide RequestOk, Waiting, Executing;
    var t := s.(written := s.written + {id},
                stable := if s.caps.flush then s.stable else s.stable + {id});
    Transfer(s, t, {});
    assert Lists(t);
  }

  lemma NextKeeps(s: State, e: Event, now: int)
    requires Inv(s)
    ensures Inv(Next(s, e, now))
  {
    hide Inv, InsertFlush, DataEndIo, FlushEndIo;
    if Enabled(s, e) {
      match e
      case Insert(id, want) => InsertKeeps(s, id, want, now);
      case DataDone(id, ok) => DataDoneKeeps(s, id, ok, now);
      case FlushDone(ok) => FlushDoneKeeps(s, ok, now);
      case Dispatch => DispatchKeeps(s);
      case Progress(id, n) => ProgressKeeps(s, id, n);
      case PlainWrite(id) => PlainWriteKeeps(s, id);
    }
  }

  lemma {:induction false} RunKeeps(s: State, events: seq<(Event, int)>)
    requires Inv(s)
    ensures Inv(Run(s, events))
    decreases |events|
  {
    hide Inv, Next;
    if events != [] {
      NextKeeps(s, events[0].0, events[0].1);
      RunKeeps(Next(s, events[0].0, events[0].1), events[1..]);
    }
  }

  ghost predicate Reachable(s: State) {
    exists caps: Caps, events :: (caps.fua ==> caps.flush) && s == Run(Init(caps), events)
  }

  lemma ReachableInv(s: State)
    requires Reachable(s)
    ensures Inv(s)
  {
    var caps: Caps, events :| (caps.fua ==> caps.flush) && s == Run(Init(caps), events);
    RunKeeps(Init(caps), events);
  }

  // ---------------------------------------------------------------- main theorems

  /**
  Durability, whatever the device can do. A request that completed without error has its data
  written; if it asked for FUA, on stable media; one that asked for FLUSH has on stable media every write that had
  completed when it was inserted, and so it is already when its own data is handed to the driver.
  The driver sees REQ_FUA exactly when the device supports it, and never REQ_FLUSH.
  */
  lemma Durability(s: State, id: Id)
    requires Reachable(s) && id in s.reqs
    ensures var r := s.reqs[id];
      && (r.result == Ok && r.want.sectors > 0 ==> id in s.written)
      && (r.result == Ok && r.want.fua ==> id in s.stable)
      && (r.result == Ok && r.want.flush ==> r.before <= s.stable)
      && ((Rq(id) in s.queueHead || Rq(id) in s.driver) && r.want.flush ==> r.before <= s.stable)
      && (Rq(id) in s.queueHead || Rq(id) in s.driver ==>
          !r.reqFlush && r.reqFua == (r.want.fua && s.caps.fua))
  {
    ReachableInv(s);
    assert RequestOk(s, id);
    assert s.reqs[id].flushSeq ==> OnSomeList(s, id);
  }

  /** Every bio is ended exactly once, and only when its request has left the sequencer. */
  lemma BioEndedOnce(s: State, id: Id)
    requires Reachable(s) && id in s.reqs
    ensures var r := s.reqs[id];
      && r.ended == (if r.result == Pending then 0 else 1)
      && (r.ended == 1 ==> !r.flushSeq && !OnSomeList(s, id)
                           && Rq(id) !in s.queueHead && Rq(id) !in s.driver)
  {
    ReachableInv(s);
    assert RequestOk(s, id);
    assert OnSomeList(s, id) ==> s.reqs[id].flushSeq;
  }

  /**
  The double buffer. A flush is in flight exactly when the indices differ, the one flush request
  is then queued or executing but not both, and a queue that nobody waits on is empty.
  */
  lemma DoubleBuffer(s: State)
    requires Reachable(s)
    ensures !s.bug
    ensures FlushInFlight(s) <==> FlushRq in s.queueHead || FlushRq in s.driver
    ensures !(FlushRq in s.queueHead && FlushRq in s.driver) && Distinct(s.queueHead)
    ensures FlushInFlight(s) ==> s.queue[s.runningIdx] != []
    ensures !FlushInFlight(s) ==> s.queue[1 - s.pendingIdx] == []
  {
    ReachableInv(s);
  }

  /** A request in the sequencer is on one list, once, and it is the list its step demands. */
  lemma OnItsList(s: State, id: Id)
    requires Reachable(s) && id in s.reqs
    ensures var r := s.reqs[id]; var waits := id in s.queue[0] || id in s.queue[1];
      && (r.flushSeq <==> OnSomeList(s, id))
      && (r.flushSeq ==> (waits <==> CurSeq(r.done) in {PreFlush, PostFlush}))
      && (r.flushSeq ==> (id in s.inFlight <==> CurSeq(r.done) == Data))
      && !(id in s.queue[0] && id in s.queue[1]) && !(waits && id in s.inFlight)
      && Distinct(s.queue[0]) && Distinct(s.queue[1]) && Distinct(s.inFlight)
  {
    ReachableInv(s);
    assert RequestOk(s, id);
    assert s.reqs[id].flushSeq ==> OnSomeList(s, id);
    assert id in s.queue[0] || id in s.queue[1] ==> Waiting(s, id);
    assert id in s.inFlight ==> Executing(s, id);
  }

  /**
  No stall: a pending request always has a flush or some data under way that will kick it, so
  once nothing is queued for or executing in the driver, every request has been completed.
  */
  lemma NoStall(s: State)
    requires Reachable(s)
    ensures s.queue[s.pendingIdx] != [] ==> FlushInFlight(s) || s.inFlight != []
    ensures s.queueHead == [] && s.driver == {} ==>
      forall id :: id in s.reqs ==> s.reqs[id].result != Pending
  {
    ReachableInv(s);
    if s.queueHead == [] && s.driver == {} {
      forall id | id in s.reqs ensures s.reqs[id].result != Pending {
        assert RequestOk(s, id);
        NonEmpty(s.inFlight);
        assert !OnSomeList(s, id);
      }
    }
  }
}
