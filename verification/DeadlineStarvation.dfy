/**
What the deadline scheduler promises: its lists agree in every reachable state, and bounded
starvation of writes by reads and of reads by writes.
*/
module DeadlineStarvation {
  import opened Arithmetic
  import opened Common
  import opened Deadline
  import opened DeadlineProofs

  // ---------------------------------------------------------------- the lists

  /** In every reachable state the two lists of a direction hold the same requests, once each; the one
      is in sector order, the other in deadline order; next_rq names a queued request, for at most one
      direction. */
  lemma ListsAgree(cfg: Config, events: seq<Event>, d: Dir)
    ensures var (s, x) := (Run(cfg, Init, events), On(Run(cfg, Init, events), d));
      && (forall id :: id in x.sort <==> id in x.fifo)
      && Distinct(x.sort) && Distinct(x.fifo)
      && BySector(s.rqs, x.sort) && ByTime(s.rqs, x.fifo)
      && (x.next.Some? ==> x.next.value in x.sort && On(s, Other(d)).next.None?)
  {
    RunKeeps(cfg, Init, events);
  }

  /** deadline_check_fifo looks at the head only, and yet decides whether anything has expired. */
  lemma HeadDecides(cfg: Config, events: seq<Event>, d: Dir, now: nat)
    requires On(Run(cfg, Init, events), d).fifo != []
    ensures var s := Run(cfg, Init, events);
      CheckFifo(s, d, now) <==> exists id :: id in On(s, d).fifo && TimeOf(s.rqs, id) <= now
  {
    hide CheckFifo;
    RunKeeps(cfg, Init, events);
    HeadIsEarliest(cfg, Run(cfg, Init, events), d, now);
  }

  // ---------------------------------------------------------------- steps

  /** Arrivals and merges start no batch, empty no direction and touch no counter. */
  lemma QuietStep(cfg: Config, s: State, e: Event, d: Dir)
    requires Inv(cfg, s) && !e.Issue?
    ensures var s' := Next(cfg, s, e);
      && s'.batching == s.batching && s'.starved == s.starved
      && (On(s', d).next.Some? ==> On(s, d).next.Some?)
      && (On(s, d).fifo != [] ==> On(s', d).fifo != [])
  {
    hide RbAdd, MoveAfter, Without, Latter;
    if e.MergeRequests? && Enabled(s, e) {
      MergeQuiet(cfg, s, e.req, e.next, d);
    }
  }

  lemma MergeQuiet(cfg: Config, s: State, req: Id, next: Id, d: Dir)
    requires Inv(cfg, s) && Enabled(s, MergeRequests(req, next))
    ensures var s' := MergedRequests(s, req, next);
      && s'.batching == s.batching && s'.starved == s.starved
      && (On(s', d).next.Some? ==> On(s, d).next.Some?)
      && (On(s, d).fifo != [] ==> On(s', d).fifo != [])
  {
    hide MoveAfter, Without, Latter, SideOk;
    MergedKeeps(cfg, s, req, next);
    var s' := MergedRequests(s, req, next);
    assert req in s'.rqs;
    FifoHas(cfg, s', req);
  }

  lemma FifoHas(cfg: Config, s: State, id: Id)
    requires Lists(cfg, s) && id in s.rqs
    ensures id in On(s, s.rqs[id].dir).fifo
  {
  }

  /** A dispatch with something queued dispatches. */
  lemma IssueStep(cfg: Config, s: State, now: nat)
    requires Inv(cfg, s) && now >= s.clock
    requires s.read.fifo != [] || s.write.fifo != []
    ensures var (s', e) := (Next(cfg, s, Issue(now)), Issue(now));
      && |Dispatched(cfg, s, e)| == 1
      && (var d := Dispatched(cfg, s, e)[0];
        && On(s', Other(d)).next == None && On(s', Other(d)).fifo == On(s, Other(d)).fifo
        && (if InBatch(cfg, s)
            then On(s, d).next.Some? && s'.batching == s.batching + 1 && s'.starved == s.starved
            else Choose(cfg, s) == (Some(d), s'.starved) && s'.batching == 1))
  {
    hide MoveRequest, SideOk, Dispatch, Lists;
    DispatchCases(cfg, s, now);
    NamedQueued(cfg, s, Read);
    NamedQueued(cfg, s, Write);
    if InBatch(cfg, s) {
      var t := s.(batching := s.batching + 1, clock := now);
      ClockKeeps(cfg, s, t);
      MoveKeeps(cfg, t, NextRq(s).value);
    } else {
      var t := s.(starved := Choose(cfg, s).1, batching := 1, clock := now);
      ClockKeeps(cfg, s, t);
      MoveKeeps(cfg, t, Pick(s, Choose(cfg, s).0.value, now));
    }
  }

  // ---------------------------------------------------------------- writes do not starve

  /** How many more requests the running batch in direction `d` may dispatch. */
  function Left(cfg: Config, s: State, d: Dir): nat {
    if On(s, d).next.Some? && s.batching < cfg.batch then cfg.batch - s.batching else 0
  }

  /** How many reads can still go before a write, as long as one is queued. */
  function ReadsAhead(cfg: Config, s: State): nat
    requires s.starved <= cfg.writesStarved
  {
    Left(cfg, s, Read) + (cfg.writesStarved - s.starved) * cfg.batch
  }

  lemma Round(k: nat, b: nat)
    requires k > 0
    ensures (k - 1) * b + b == k * b
  {
  }

  lemma ReadsAheadFalls(cfg: Config, s: State, e: Event)
    requires Inv(cfg, s) && cfg.batch >= 1 && s.write.fifo != []
    requires Dispatched(cfg, s, e) != [Write]
    ensures var s' := Next(cfg, s, e);
      && s'.write.fifo != [] && s'.starved <= cfg.writesStarved
      && ReadsAhead(cfg, s') + |Dispatched(cfg, s, e)| <= ReadsAhead(cfg, s)
      && |Dispatched(cfg, s, e)| <= 1
  {
    hide Dispatched, Next, Lists;
    if !e.Issue? {
      QuietStep(cfg, s, e, Read);
      QuietStep(cfg, s, e, Write);
      assert Dispatched(cfg, s, e) == [] by { NotIssued(cfg, s, e); }
    } else if e.now < s.clock {
      NotIssued(cfg, s, e);
    } else {
      IssueStep(cfg, s, e.now);
      assert Dispatched(cfg, s, e) == [Read];
      if !InBatch(cfg, s) {
        Round(cfg.writesStarved - s.starved, cfg.batch);
      }
    }
  }

  lemma NotIssued(cfg: Config, s: State, e: Event)
    requires !e.Issue? || e.now < s.clock
    ensures Dispatched(cfg, s, e) == []
    ensures e.Issue? ==> Next(cfg, s, e) == s
  {
  }

  lemma {:induction false} WriteComes(cfg: Config, s: State, events: seq<Event>)
    requires Inv(cfg, s) && cfg.batch >= 1 && s.write.fifo != []
    requires |Trace(cfg, s, events)| > ReadsAhead(cfg, s)
    ensures Write in Trace(cfg, s, events)[..ReadsAhead(cfg, s) + 1]
    decreases |events|
  {
    hide Next, Lists, Dispatched;
    var e := events[0];
    var (first, s') := (Dispatched(cfg, s, e), Next(cfg, s, e));
    var rest := Trace(cfg, s', events[1..]);
    if first == [Write] {
      assert Trace(cfg, s, events)[0] == Write;
    } else {
      ReadsAheadFalls(cfg, s, e);
      NextKeeps(cfg, s, e);
      WriteComes(cfg, s', events[1..]);
      InPrefix(first, rest, ReadsAhead(cfg, s') + 1, ReadsAhead(cfg, s) + 1, Write);
    }
  }

  lemma InPrefix(a: seq<Dir>, b: seq<Dir>, m: nat, n: nat, d: Dir)
    requires m <= |b| && d in b[..m] && |a| + m <= n <= |a + b|
    ensures d in (a + b)[..n]
  {
    var i :| 0 <= i < m && b[i] == d;
    assert (a + b)[..n][|a| + i] == d;
  }

  /** From any reachable state with a write queued, a write is among the next
      (writes_starved + 1) * fifo_batch dispatches, whatever arrives or merges meanwhile. */
  lemma WriteBound(cfg: Config, before: seq<Event>, events: seq<Event>)
    requires cfg.batch >= 1
    requires Run(cfg, Init, before).write.fifo != []
    requires |Trace(cfg, Run(cfg, Init, before), events)| >= (cfg.writesStarved + 1) * cfg.batch
    ensures Write in Trace(cfg, Run(cfg, Init, before), events)[..(cfg.writesStarved + 1) * cfg.batch]
  {
    hide Next, Lists, Trace;
    var s := Run(cfg, Init, before);
    assert Inv(cfg, Init) by { InitInv(cfg); }
    RunKeeps(cfg, Init, before);
    var t := Trace(cfg, s, events);
    var (n, m) := ((cfg.writesStarved + 1) * cfg.batch, ReadsAhead(cfg, s) + 1);
    ReadsAheadBound(cfg, s);
    WriteComes(cfg, s, events);
    InPrefix([], t, m, n, Write);
    assert [] + t == t;
  }

  lemma InitInv(cfg: Config)
    ensures Inv(cfg, Init)
  {
  }

  lemma ReadsAheadBound(cfg: Config, s: State)
    requires Inv(cfg, s) && cfg.batch >= 1
    ensures ReadsAhead(cfg, s) + 1 <= (cfg.writesStarved + 1) * cfg.batch
  {
    hide Lists;
    Round(cfg.writesStarved + 1, cfg.batch);
    MulMono(cfg.batch, cfg.writesStarved - s.starved, cfg.writesStarved);
  }

  // ---------------------------------------------------------------- reads do not starve

  /** How many writes can still go before a read, as long as one is queued. */
  function WritesAhead(cfg: Config, s: State): nat {
    if s.write.next.Some? then Left(cfg, s, Write)
    else if s.starved >= cfg.writesStarved then cfg.batch
    else 0
  }

  lemma WritesAheadFalls(cfg: Config, s: State, e: Event)
    requires Inv(cfg, s) && cfg.batch >= 1 && cfg.writesStarved >= 1 && s.read.fifo != []
    requires Dispatched(cfg, s, e) != [Read]
    ensures var s' := Next(cfg, s, e);
      && s'.read.fifo != []
      && WritesAhead(cfg, s') + |Dispatched(cfg, s, e)| <= WritesAhead(cfg, s)
      && |Dispatched(cfg, s, e)| <= 1
  {
    hide Dispatched, Next, Lists;
    if !e.Issue? {
      QuietStep(cfg, s, e, Read);
      QuietStep(cfg, s, e, Write);
      NotIssued(cfg, s, e);
    } else if e.now < s.clock {
      NotIssued(cfg, s, e);
    } else {
      IssueStep(cfg, s, e.now);
      assert Dispatched(cfg, s, e) == [Write];
    }
  }

  lemma {:induction false} ReadComes(cfg: Config, s: State, events: seq<Event>)
    requires Inv(cfg, s) && cfg.batch >= 1 && cfg.writesStarved >= 1 && s.read.fifo != []
    requires |Trace(cfg, s, events)| > WritesAhead(cfg, s)
    ensures Read in Trace(cfg, s, events)[..WritesAhead(cfg, s) + 1]
    decreases |events|
  {
    hide Next, Lists, Dispatched;
    var e := events[0];
    var (first, s') := (Dispatched(cfg, s, e), Next(cfg, s, e));
    var rest := Trace(cfg, s', events[1..]);
    if first == [Read] {
      assert Trace(cfg, s, events)[0] == Read;
    } else {
      WritesAheadFalls(cfg, s, e);
      NextKeeps(cfg, s, e);
      ReadComes(cfg, s', events[1..]);
      InPrefix(first, rest, WritesAhead(cfg, s') + 1, WritesAhead(cfg, s) + 1, Read);
    }
  }

  /** With writes_starved at least one, a queued read is among the next fifo_batch + 1 dispatches. */
  lemma ReadBound(cfg: Config, before: seq<Event>, events: seq<Event>)
    requires cfg.batch >= 1 && cfg.writesStarved >= 1
    requires Run(cfg, Init, before).read.fifo != []
    requires |Trace(cfg, Run(cfg, Init, before), events)| >= cfg.batch + 1
    ensures Read in Trace(cfg, Run(cfg, Init, before), events)[..cfg.batch + 1]
  {
    hide Next, Lists, Trace;
    var s := Run(cfg, Init, before);
    InitInv(cfg);
    RunKeeps(cfg, Init, before);
    ReadComes(cfg, s, events);
    var t := Trace(cfg, s, events);
    InPrefix([], t, WritesAhead(cfg, s) + 1, cfg.batch + 1, Read);
    assert [] + t == t;
  }

  /** Waiting read `r`, no write queued, no batch running. */
  ghost predicate Idle(cfg: Config, s: State, r: Id) {
    Inv(cfg, s) && r in s.read.fifo && s.read.next == None && s.write == Side([], [], None)
  }

  /** With writes_starved zero a write that arrives goes before the waiting read. */
  lemma WriteOvertakes(cfg: Config, s: State, r: Id, w: Id)
    requires cfg.writesStarved == 0 && Idle(cfg, s, r) && w !in s.rqs
    ensures var (a, b) := (Add(w, 0, Write, s.clock), Issue(s.clock));
      && Dispatched(cfg, s, a) == []
      && Dispatched(cfg, Next(cfg, s, a), b) == [Write]
      && Idle(cfg, Next(cfg, Next(cfg, s, a), b), r)
      && Next(cfg, Next(cfg, s, a), b).rqs == s.rqs
      && Next(cfg, Next(cfg, s, a), b).clock == s.clock
  {
    hide Lists;
    var a := Add(w, 0, Write, s.clock);
    var s1 := Next(cfg, s, a);
    NextKeeps(cfg, s, a);
    assert s1.write == Side([w], [w], None) && w in s1.rqs;
    assert !InBatch(cfg, s1) && Choose(cfg, s1) == (Some(Write), 0);
    assert Pick(s1, Write, s.clock) == w;
    NextKeeps(cfg, s1, Issue(s.clock));
    assert [w][..0] == [] && [w][1..] == [];
    assert Without([w], w) == [] && Latter([w], w) == None;
    assert s1.rqs - {w} == s.rqs;
  }

  /** So with writes_starved zero no bound holds for reads: for every `n` there is a run in which a read
      waits while `n` writes, and nothing else, are dispatched. */
  lemma {:induction false} ReadStarves(cfg: Config, s: State, r: Id, w: Id, n: nat) returns (events: seq<Event>)
    requires cfg.writesStarved == 0 && Idle(cfg, s, r) && w !in s.rqs
    ensures |Trace(cfg, s, events)| == n && Read !in Trace(cfg, s, events)
    ensures r in Run(cfg, s, events).read.fifo
    decreases n
  {
    hide Next, Dispatched;
    if n == 0 {
      events := [];
    } else {
      var (a, b) := (Add(w, 0, Write, s.clock), Issue(s.clock));
      WriteOvertakes(cfg, s, r, w);
      var s1 := Next(cfg, s, a);
      var s2 := Next(cfg, s1, b);
      var rest := ReadStarves(cfg, s2, r, w, n - 1);
      events := [a, b] + rest;
      assert events[1..] == [b] + rest && ([b] + rest)[1..] == rest;
      assert Trace(cfg, s, events) == Dispatched(cfg, s, a) + Trace(cfg, s1, [b] + rest);
      assert Trace(cfg, s1, [b] + rest) == Dispatched(cfg, s1, b) + Trace(cfg, s2, rest);
      assert Run(cfg, s, events) == Run(cfg, s1, [b] + rest) == Run(cfg, s2, rest);
    }
  }

  /** One read on an empty queue is such a state. */
  lemma ReadWaits(cfg: Config)
    ensures Idle(cfg, Run(cfg, Init, [Add(0, 0, Read, 0)]), 0)
    ensures 1 !in Run(cfg, Init, [Add(0, 0, Read, 0)]).rqs
  {
    var e := Add(0, 0, Read, 0);
    InitInv(cfg);
    NextKeeps(cfg, Init, e);
    assert [e][1..] == [];
    assert Run(cfg, Init, [e]) == Next(cfg, Init, e);
  }
}
