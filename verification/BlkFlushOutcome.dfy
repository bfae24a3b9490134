/**
How a request ends: with an error exactly when its own data or a flush that it waited for failed. And which way
each request takes, for every kind of device.
*/
module BlkFlushOutcome {
  import opened Common
  import opened BlkFlush
  import opened BlkFlushInvariant

  /** The event brings an error to request `id`: the device fails its data, or the flush that it waits for. */
  predicate Hits(s: State, e: Event, id: Id) {
    && Enabled(s, e) && id in s.reqs
    && (e == DataDone(id, false) || (e == FlushDone(false) && id in s.queue[s.runningIdx]))
  }

  /** Some event of the run does. */
  predicate Struck(s: State, events: seq<(Event, int)>, id: Id)
    decreases |events|
  {
    events != [] && (Hits(s, events[0].0, id) || Struck(Next(s, events[0].0, events[0].1), events[1..], id))
  }

  // ---------------------------------------------------------------- one step

  lemma SeqResult(s: State, id: Id, mask: Mask, ok: bool, now: int)
    requires id in s.reqs
    ensures var t := CompleteSeq(s, id, mask, ok, now);
      && Frame(s, t, id)
      && t.reqs[id].result ==
           if !ok then Failed else if CurSeq(s.reqs[id].done.Union(mask)) == Done then Ok else s.reqs[id].result
  {
    hide Without, UpdateRequest, CurSeq, TimedOut;
    CompleteSeqFrame(s, id, mask, ok, now);
  }

  lemma {:induction false} PushAllResult(s: State, todo: seq<Id>, r: Bit, ok: bool, now: int, x: Id)
    requires Core(s) && r != s.runningIdx && s.queue[r] == todo && x in s.reqs
    requires ok ==> forall y :: y in todo ==> y in s.reqs && ServedBy(s, y, s.stable)
    ensures x in PushAll(s, todo, ok, now).reqs
    ensures x !in todo ==> PushAll(s, todo, ok, now).reqs[x] == s.reqs[x]
    ensures x in todo ==> (PushAll(s, todo, ok, now).reqs[x].result == Failed <==> !ok)
    decreases |todo|
  {
    hide CompleteSeq, CoreBut, RequestOk, ServedBy, CurSeq;
    if todo != [] {
      var id := todo[0];
      HeadIsWaiting(s, todo, r);
      PushOneKeeps(s, todo, r, ok, now);
      var step := CurSeq(s.reqs[id].done);
      SeqResult(s, id, StepMask(step), ok, now);
      WaitingPending(s, id);
      var t := CompleteSeq(s, id, StepMask(step), ok, now);
      assert s.(bug := s.bug || !(step == PreFlush || step == PostFlush)) == s by { NoBug(s); }
      assert id !in todo[1..];
      PushAllResult(t, todo[1..], r, ok, now, x);
    }
  }

  lemma NoBug(s: State)
    requires Core(s)
    ensures !s.bug
  {
  }

  lemma WaitingPending(s: State, id: Id)
    requires id in s.reqs && s.reqs[id].flushSeq && RequestOk(s, id)
    ensures s.reqs[id].result == Pending
  {
  }

  lemma FlushDoneResult(s: State, ok: bool, now: int, x: Id)
    requires Inv(s) && FlushRq in s.driver && x in s.reqs
    ensures var t := FlushEndIo(DeviceFlushed(s, ok), ok, now);
      && x in t.reqs
      && (x !in s.queue[s.runningIdx] ==> t.reqs[x] == s.reqs[x])
      && (x in s.queue[s.runningIdx] ==> s.reqs[x].result == Pending && (t.reqs[x].result == Failed <==> !ok))
  {
    hide PushAll, CoreBut, ServedBy, RequestOk;
    FlushDoneStart(s, ok);
    var s1 := DeviceFlushed(s, ok).(runningIdx := 1 - s.runningIdx);
    PushAllResult(s1, s.queue[s.runningIdx], s.runningIdx, ok, now, x);
    if x in s.queue[s.runningIdx] { QueuedPending(s, s.runningIdx, x); }
    NoBug(s1);
  }

  /** Those who waited for the flush learn how it ended, and nobody else notices. */
  lemma FlushDoneResults(s: State, ok: bool, now: int)
    requires Inv(s) && FlushRq in s.driver
    ensures var t := FlushEndIo(DeviceFlushed(s, ok), ok, now);
      && (forall x :: x in s.queue[s.runningIdx] ==> x in t.reqs && (t.reqs[x].result == Failed <==> !ok))
      && (forall x :: x in s.reqs && x !in s.queue[s.runningIdx] ==> x in t.reqs && t.reqs[x] == s.reqs[x])
  {
    hide Inv, FlushEndIo, DeviceFlushed;
    forall x | x in s.queue[s.runningIdx] ensures x in s.reqs {
      RunningKnown(s, x);
    }
    forall x | x in s.reqs
      ensures var t := FlushEndIo(DeviceFlushed(s, ok), ok, now);
        && x in t.reqs
        && (x in s.queue[s.runningIdx] ==> (t.reqs[x].result == Failed <==> !ok))
        && (x !in s.queue[s.runningIdx] ==> t.reqs[x] == s.reqs[x])
    {
      FlushDoneResult(s, ok, now, x);
    }
  }

  lemma RunningKnown(s: State, x: Id)
    requires Inv(s) && x in s.queue[s.runningIdx]
    ensures x in s.reqs
  {
    QueuedPending(s, s.runningIdx, x);
  }

  lemma QueuedPending(s: State, k: Bit, x: Id)
    requires Core(s) && x in s.queue[k]
    ensures x in s.reqs && s.reqs[x].result == Pending
  {
    assert Waiting(s, x) && RequestOk(s, x);
  }

  lemma DataDoneResult(s: State, id: Id, ok: bool, now: int, x: Id)
    requires Inv(s) && Enabled(s, DataDone(id, ok)) && x in s.reqs
    ensures var t := DataEndIo(s, id, ok, now);
      && x in t.reqs
      && (x != id ==> t.reqs[x] == s.reqs[x])
      && (x == id ==> s.reqs[x].result == Pending && (t.reqs[x].result == Failed <==> !ok))
  {
    hide CompleteSeq, CoreBut, CurSeq, UpdateRequest;
    assert s.reqs[id].result == Pending by { DriverPending(s, id); }
    var s1 := DataArrived(s, id, ok);
    UpdateResult(s.reqs[id], if s.reqs[id].sectors < 0 then 0 else s.reqs[id].sectors);
    if s.reqs[id].flushSeq { SeqResult(s1, id, StepMask(Data), ok, now); }
  }

  lemma DriverPending(s: State, id: Id)
    requires Inv(s) && id in s.reqs && Rq(id) in s.driver
    ensures s.reqs[id].result == Pending
  {
    assert RequestOk(s, id);
  }

  lemma UpdateResult(r: Request, n: nat)
    ensures UpdateRequest(r, n).result == r.result
  {
  }

  lemma InsertResult(s: State, id: Id, want: Want, now: int)
    requires Enabled(s, Insert(id, want))
    ensures var t := InsertFlush(s, id, want, now);
      && id in t.reqs && t.reqs[id].result != Failed
      && (forall x :: x in s.reqs ==> x in t.reqs && t.reqs[x] == s.reqs[x])
      && (forall x :: x in t.reqs ==> x in s.reqs || x == id)
  {
    hide CompleteSeq, UpdateRequest, CurSeq;
    var policy := FlushPolicy(s.caps, want);
    if policy.pre || policy.post {
      SeqResult(Add(s, id, NewRequest(s, want, true)), id, policy.Complement(), true, now);
    }
  }

  /** A request that is being executed ends with an error at this step exactly when the step hits it; one that has
      ended keeps its result, and one that starts has no error. */
  lemma StepResult(s: State, e: Event, now: int, id: Id)
    requires Inv(s)
    ensures var t := Next(s, e, now);
      && (id in s.reqs ==> id in t.reqs)
      && (id in s.reqs && s.reqs[id].result != Pending ==> t.reqs[id].result == s.reqs[id].result && !Hits(s, e, id))
      && (id in s.reqs && s.reqs[id].result == Pending ==> (t.reqs[id].result == Failed <==> Hits(s, e, id)))
      && (id !in s.reqs && id in t.reqs ==> t.reqs[id].result != Failed)
  {
    hide Inv, InsertFlush, DataEndIo, FlushEndIo, DeviceFlushed, UpdateRequest;
    if Enabled(s, e) {
      match e {
        case Insert(x, want) => InsertResult(s, x, want, now);
        case Dispatch =>
        case Progress(x, n) => UpdateResult(s.reqs[x], n);
        case DataDone(x, ok) =>
          if id in s.reqs { DataDoneResult(s, x, ok, now, id); } else { KeysStay(s, e, now); }
        case FlushDone(ok) =>
          if id in s.reqs { FlushDoneResult(s, ok, now, id); } else { KeysStay(s, e, now); }
        case PlainWrite(_) =>
      }
    }
  }

  lemma {:induction false} PushAllKeys(s: State, todo: seq<Id>, ok: bool, now: int)
    ensures PushAll(s, todo, ok, now).reqs.Keys == s.reqs.Keys
    decreases |todo|
  {
    hide CompleteSeq;
    if todo != [] && todo[0] in s.reqs {
      var step := CurSeq(s.reqs[todo[0]].done);
      var s1 := s.(bug := s.bug || !(step == PreFlush || step == PostFlush));
      SeqResult(s1, todo[0], StepMask(step), ok, now);
      PushAllKeys(CompleteSeq(s1, todo[0], StepMask(step), ok, now), todo[1..], ok, now);
    }
  }

  lemma KeysStay(s: State, e: Event, now: int)
    requires (e.DataDone? || e.FlushDone?) && Enabled(s, e)
    ensures Next(s, e, now).reqs.Keys == s.reqs.Keys
  {
    hide CompleteSeq, PushAll, UpdateRequest;
    if e.FlushDone? {
      var s1 := DeviceFlushed(s, e.ok);
      PushAllKeys(s1.(runningIdx := 1 - s1.runningIdx, bug := s1.bug || !FlushInFlight(s1)),
                  s1.queue[s1.runningIdx], e.ok, now);
    } else if s.reqs[e.id].flushSeq {
      SeqResult(DataArrived(s, e.id, e.ok), e.id, StepMask(Data), e.ok, now);
    }
  }

  // ---------------------------------------------------------------- any run

  lemma {:induction false} RunResult(s: State, events: seq<(Event, int)>, id: Id)
    requires Inv(s)
    ensures var t := Run(s, events);
      && (id in s.reqs ==> id in t.reqs)
      && (id in s.reqs && s.reqs[id].result != Pending ==>
            t.reqs[id].result == s.reqs[id].result && !Struck(s, events, id))
      && (id !in s.reqs || s.reqs[id].result == Pending ==>
            (id in t.reqs && t.reqs[id].result == Failed <==> Struck(s, events, id)))
    decreases |events|
  {
    hide Inv, Next, Hits;
    if events != [] {
      NextKeeps(s, events[0].0, events[0].1);
      StepResult(s, events[0].0, events[0].1, id);
      NotThere(s, events[0].0, id);
      RunResult(Next(s, events[0].0, events[0].1), events[1..], id);
    }
  }

  lemma NotThere(s: State, e: Event, id: Id)
    ensures id !in s.reqs ==> !Hits(s, e, id)
  {
  }

  /** In every run a request ends with an error exactly when its own data or a flush that it waited for failed. */
  lemma FailedExactly(caps: Caps, events: seq<(Event, int)>, id: Id)
    requires caps.fua ==> caps.flush
    ensures var s := Run(Init(caps), events);
      id in s.reqs && s.reqs[id].result == Failed <==> Struck(Init(caps), events, id)
  {
    hide Run, Struck;
    RunResult(Init(caps), events, id);
  }

  lemma {:induction false} NotStruck(s: State, events: seq<(Event, int)>, id: Id)
    requires forall i :: 0 <= i < |events| ==> events[i].0 != DataDone(id, false) && events[i].0 != FlushDone(false)
    ensures !Struck(s, events, id)
    decreases |events|
  {
    if events != [] { NotStruck(Next(s, events[0].0, events[0].1), events[1..], id); }
  }

  /** Where the device fails neither the data of a request nor any flush, it ends without error, once nothing is
      queued for or executing in the driver. */
  lemma GoodEnds(caps: Caps, events: seq<(Event, int)>, id: Id)
    requires (caps.fua ==> caps.flush) && id in Run(Init(caps), events).reqs
    requires forall i :: 0 <= i < |events| ==> events[i].0 != DataDone(id, false) && events[i].0 != FlushDone(false)
    ensures var s := Run(Init(caps), events);
      && s.reqs[id].result != Failed
      && (s.queueHead == [] && s.driver == {} ==> s.reqs[id].result == Ok)
  {
    hide Run, Struck;
    FailedExactly(caps, events, id);
    NotStruck(Init(caps), events, id);
    assert Reachable(Run(Init(caps), events));
    NoStall(Run(Init(caps), events));
  }

  // ---------------------------------------------------------------- which way

  /** Without a cache a request needs no flush, and with FUA in the device no flush behind its data: an empty request
      then ends at once and one with data goes straight to the driver. Otherwise it waits for a flush first if it
      asked for FLUSH, and if not its data is next. */
  lemma InsertWay(s: State, id: Id, want: Want, now: int)
    requires Inv(s) && Enabled(s, Insert(id, want))
    ensures var t := InsertFlush(s, id, want, now);
      var flushes := s.caps.flush && (want.flush || (want.fua && !s.caps.fua));
      && id in t.reqs
      && (!flushes && want.sectors == 0 ==> t.reqs[id].result == Ok && t.queueHead == s.queueHead)
      && (!flushes && want.sectors > 0 ==>
            t.reqs[id].result == Pending && !OnSomeList(t, id) && t.queueHead == s.queueHead + [Rq(id)])
      && (flushes ==> t.reqs[id].result == Pending && OnSomeList(t, id))
      && (flushes && want.flush ==> id in t.queue[0] || id in t.queue[1])
      && (flushes && !want.flush ==> id in t.inFlight && t.queueHead[..1] == [Rq(id)])
  {
    hide Inv, CompleteSeq, UpdateRequest;
    NotListed(s, id);
    var policy := FlushPolicy(s.caps, want);
    if policy.pre || policy.post {
      SequencedWay(Add(s, id, NewRequest(s, want, true)), id, policy.Complement(), now);
    }
  }

  lemma SequencedWay(s: State, id: Id, mask: Mask, now: int)
    requires id in s.reqs && !OnSomeList(s, id) && CurSeq(s.reqs[id].done.Union(mask)) != Done
    ensures var (t, step) := (CompleteSeq(s, id, mask, true, now), CurSeq(s.reqs[id].done.Union(mask)));
      && id in t.reqs && t.reqs[id].result == s.reqs[id].result
      && (step != Data ==> id in t.queue[0] || id in t.queue[1])
      && (step == Data ==> id in t.inFlight && t.queueHead[..1] == [Rq(id)])
  {
    hide Without, UpdateRequest, TimedOut, CurSeq;
    WithoutMembers(s.queue[0], id);
    WithoutMembers(s.queue[1], id);
    WithoutMembers(s.inFlight, id);
  }

  lemma NotListed(s: State, id: Id)
    requires Inv(s) && id !in s.reqs
    ensures !OnSomeList(s, id)
  {
    assert id in s.queue[0] || id in s.queue[1] ==> Waiting(s, id);
    assert id in s.inFlight ==> Executing(s, id);
  }
}
