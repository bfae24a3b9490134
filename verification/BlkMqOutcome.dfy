/** Who gets a request and when a queue is stopped, step by step and over every run of the machine of BlkMq. */
module BlkMqOutcome {
  import opened Common
  import opened BlkMq
  import opened BlkMqInvariant

  /** The event is the driver's answer to request `r`. */
  predicate Answers(s: State, e: Event, r: Rq, answer: Answer) {
    && e.IssueEv? && e.answer == answer && e.t < |s.threads|
    && s.threads[e.t].Issue? && s.threads[e.t].list != [] && s.threads[e.t].list[0] == r
  }

  predicate Is(s: State, r: Rq, p: Place) { r in s.place && s.place[r] == p }

  // ---------------------------------------------------------------- one step

  lemma StepGives(s: State, e: Event, r: Rq)
    requires !Is(s, r, Driver) && !Is(s, r, Ended)
    ensures Is(Next(s, e), r, Driver) <==> Answers(s, e, r, Ok)
    ensures Is(Next(s, e), r, Ended) <==> Answers(s, e, r, Error)
  {
    hide InsertStep, CollectStep, Distinct;
    if e.InsertEv? && e.t < |s.threads| { InsertGives(s, e.t, r); }
    if e.CollectEv? && e.t < |s.threads| { CollectGives(s, e.t, r); }
  }

  lemma InsertGives(s: State, t: Tid, r: Rq)
    requires t < |s.threads| && !Is(s, r, Driver) && !Is(s, r, Ended)
    ensures !Is(InsertStep(s, t), r, Driver) && !Is(InsertStep(s, t), r, Ended)
  {
  }

  lemma CollectGives(s: State, t: Tid, r: Rq)
    requires t < |s.threads| && !Is(s, r, Driver) && !Is(s, r, Ended)
    ensures !Is(CollectStep(s, t), r, Driver) && !Is(CollectStep(s, t), r, Ended)
  {
  }

  /** The driver has a request exactly from its taking it until it completes it, and a request has ended once the driver
      completed it or failed it at once. */
  lemma StepOutcome(s: State, e: Event, r: Rq)
    requires Inv(s)
    ensures Is(Next(s, e), r, Driver) <==> Answers(s, e, r, Ok) || (Is(s, r, Driver) && e != Complete(r))
    ensures Is(Next(s, e), r, Ended) <==>
      Answers(s, e, r, Error) || (Is(s, r, Driver) && e == Complete(r)) || Is(s, r, Ended)
  {
    hide Inv, InsertStep, CollectStep, IssueStep;
    if Is(s, r, Driver) || Is(s, r, Ended) {
      NextForward(s, e, r);
      HasAnswer(s, e, r);
      if (e.InsertEv? || e.CollectEv? || e.IssueEv?) && e.t < |s.threads| { KeepsPlace(s, e, r); }
    } else {
      StepGives(s, e, r);
    }
  }

  lemma KeepsPlace(s: State, e: Event, r: Rq)
    requires Inv(s) && (Is(s, r, Driver) || Is(s, r, Ended))
    requires (e.InsertEv? || e.CollectEv? || e.IssueEv?) && e.t < |s.threads|
    ensures r in Next(s, e).place && Next(s, e).place[r] == s.place[r]
  {
    hide Next, Places;
    StepForward(s, e, r);
  }

  /** What a thread is about to issue is with that thread. */
  lemma HasAnswer(s: State, e: Event, r: Rq)
    requires Inv(s) && (Is(s, r, Driver) || Is(s, r, Ended))
    ensures forall answer :: !Answers(s, e, r, answer)
  {
    hide Distinct, Locks, Marked, Owed, Sent;
    if e.IssueEv? && e.t < |s.threads| && s.threads[e.t].Issue? && s.threads[e.t].list != [] {
      assert BlkMqInvariant.Holds(s, LocalList(s.threads[e.t]), Local(e.t));
      assert s.threads[e.t].list[0] in LocalList(s.threads[e.t]);
    }
  }

  // ---------------------------------------------------------------- any run

  /** Somewhere along the run the driver took or failed `r`. */
  predicate Handed(s: State, events: seq<Event>, r: Rq)
    decreases |events|
  {
    events != [] &&
      (Answers(s, events[0], r, Ok) || Answers(s, events[0], r, Error) || Handed(Next(s, events[0]), events[1..], r))
  }

  /** A request is with the driver or has ended exactly when the driver has taken or failed it: until then it is kept
      somewhere, and it is neither issued behind the driver's back nor ended without it. */
  lemma {:induction false} HandedExactly(s: State, events: seq<Event>, r: Rq)
    requires Inv(s)
    ensures var t := Run(s, events);
      Is(t, r, Driver) || Is(t, r, Ended) <==> Is(s, r, Driver) || Is(s, r, Ended) || Handed(s, events, r)
    decreases |events|
  {
    hide Inv, Next, Answers, Is;
    if events != [] {
      StepOutcome(s, events[0], r);
      NextKeeps(s, events[0]);
      HandedExactly(Next(s, events[0]), events[1..], r);
    }
  }

  // ---------------------------------------------------------------- stopping

  /** A queue is stopped by blk_mq_stop_hw_queue and by nothing else, until it is started. */
  lemma StoppedExactly(s: State, e: Event)
    ensures Next(s, e).stopped <==>
      || (e.IssueEv? && e.t < |s.threads| && s.threads[e.t] == StopSet)
      || (s.stopped && !(e.Start? && IsIdle(s, e.t)))
  {
    hide InsertStep, CollectStep, Distinct;
    if e.InsertEv? && e.t < |s.threads| { InsertStops(s, e.t); }
    if e.CollectEv? && e.t < |s.threads| { CollectStops(s, e.t); }
  }

  lemma InsertStops(s: State, t: Tid)
    requires t < |s.threads|
    ensures InsertStep(s, t).stopped == s.stopped
  {
  }

  lemma CollectStops(s: State, t: Tid)
    requires t < |s.threads|
    ensures CollectStep(s, t).stopped == s.stopped
  {
  }

  /** Starting a queue runs it, at once or by the work that it schedules. */
  lemma StartRuns(s: State, t: Tid, async: bool)
    requires IsIdle(s, t)
    ensures var s' := Next(Next(s, Start(t)), IssueEv(t, Ok, async));
      !s'.stopped && if async then s'.work && s'.threads[t] == Idle else s'.threads[t] == RunStart
  {
  }
}
