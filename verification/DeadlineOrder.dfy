/**
The order in which the deadline scheduler goes over the disk: a batch continues with the next request in sector order,
so that it never turns back; and which sector and deadline each request has.
*/
module DeadlineOrder {
  import opened Common
  import opened Deadline
  import opened DeadlineProofs

  /** The request dispatched leaves, and next_rq names what follows it in sector order, in its direction alone. */
  lemma DispatchFollows(cfg: Config, s: State, now: nat)
    requires Inv(cfg, s)
    ensures var (s', r) := Dispatch(cfg, s, now);
      r.Some? ==>
        && r.value in s.rqs && s'.rqs == s.rqs - {r.value}
        && Follows(s, s.rqs[r.value].dir, r.value, On(s', s.rqs[r.value].dir).next)
        && On(s', Other(s.rqs[r.value].dir)).next == None
  {
    hide Dispatch, SideOk, MoveRequest, Latter;
    DispatchCases(cfg, s, now);
    var (s', r) := Dispatch(cfg, s, now);
    if r.Some? {
      var d := s.rqs[r.value].dir;
      LatterFollows(cfg, s, r.value);
      forall t: State | t.rqs == s.rqs && On(t, d) == On(s, d) && s' == MoveRequest(t, r.value)
        ensures s'.rqs == s.rqs - {r.value} && On(s', d).next == Latter(On(s, d).sort, r.value)
        ensures On(s', Other(d)).next == None
      {
        Moved(t, r.value);
      }
    }
  }

  lemma Moved(s: State, id: Id)
    requires id in s.rqs
    ensures var (d, s') := (s.rqs[id].dir, MoveRequest(s, id));
      s'.rqs == s.rqs - {id} && On(s', Other(d)).next == None
    ensures var (d, s') := (s.rqs[id].dir, MoveRequest(s, id));
      Latter(On(s, d).sort, id) != Some(id) ==> On(s', d).next == Latter(On(s, d).sort, id)
  {
    hide Without, IndexOf;
  }

  // ---------------------------------------------------------------- a batch

  /** A run without front merges, in which every dispatch goes on with the batch. */
  ghost predicate GoesOn(cfg: Config, s: State, events: seq<Event>)
    decreases |events|
  {
    events != [] ==>
      && !events[0].FrontMerge?
      && (events[0].Issue? && Enabled(s, events[0]) ==> InBatch(cfg, s))
      && GoesOn(cfg, Next(cfg, s, events[0]), events[1..])
  }

  /** The sectors of the requests dispatched along a run. */
  ghost function Sectors(cfg: Config, s: State, events: seq<Event>): seq<nat>
    decreases |events|
  {
    if events == [] then []
    else
      var rest := Sectors(cfg, Next(cfg, s, events[0]), events[1..]);
      if events[0].Issue? && Enabled(s, events[0]) && Dispatch(cfg, s, events[0].now).1.Some?
      then [SectorOf(s.rqs, Dispatch(cfg, s, events[0].now).1.value)] + rest
      else rest
  }

  ghost predicate Climbing(list: seq<nat>, low: nat) {
    && (forall i :: 0 <= i < |list| ==> low <= list[i])
    && (forall i, j :: 0 <= i < j < |list| ==> list[i] <= list[j])
  }

  /** next_rq is not behind `low`. */
  predicate Ahead(s: State, low: nat) { NextRq(s).Some? ==> low <= SectorOf(s.rqs, NextRq(s).value) }

  lemma IssueAhead(cfg: Config, s: State, now: nat, low: nat)
    requires Inv(cfg, s) && InBatch(cfg, s) && Ahead(s, low)
    ensures var (s', r) := Dispatch(cfg, s, now);
      r.Some? && low <= SectorOf(s.rqs, r.value) && Ahead(s', SectorOf(s.rqs, r.value))
  {
    hide Dispatch, SideOk, MoveRequest;
    DispatchCases(cfg, s, now);
    DispatchFollows(cfg, s, now);
  }

  lemma MergeAhead(cfg: Config, s: State, req: Id, next: Id, low: nat)
    requires Inv(cfg, s) && Enabled(s, MergeRequests(req, next)) && Ahead(s, low)
    ensures Ahead(MergedRequests(s, req, next), low)
  {
    hide Without, Latter, MoveAfter, SideOk;
    LatterFollows(cfg, s, next);
    NamedQueued(cfg, s, Read);
    NamedQueued(cfg, s, Write);
  }

  lemma AddAhead(cfg: Config, s: State, e: Event, low: nat)
    requires Inv(cfg, s) && e.Add? && Enabled(s, e) && Ahead(s, low)
    ensures Ahead(Next(cfg, s, e), low)
  {
    hide RbAdd, SideOk;
    NamedQueued(cfg, s, Read);
    NamedQueued(cfg, s, Write);
  }

  /** However requests arrive and are merged at the back meanwhile, a batch that goes on never turns back. */
  lemma {:induction false} BatchClimbs(cfg: Config, s: State, events: seq<Event>, low: nat)
    requires Inv(cfg, s) && GoesOn(cfg, s, events) && Ahead(s, low)
    ensures Climbing(Sectors(cfg, s, events), low)
    decreases |events|
  {
    hide Inv, Dispatch, AddRequest, MergedRequests, FrontMerged, Ahead, InBatch;
    if events != [] {
      var e := events[0];
      DeadlineProofs.NextKeeps(cfg, s, e);
      if Enabled(s, e) {
        match e {
          case Add(_, _, _, _) => AddAhead(cfg, s, e, low);
          case MergeRequests(req, next) => MergeAhead(cfg, s, req, next, low);
          case Issue(now) =>
            IssueAhead(cfg, s, now, low);
            BatchClimbs(cfg, Next(cfg, s, e), events[1..], SectorOf(s.rqs, Dispatch(cfg, s, now).1.value));
        }
      }
      if !(e.Issue? && Enabled(s, e)) { BatchClimbs(cfg, Next(cfg, s, e), events[1..], low); }
    }
  }

  // ---------------------------------------------------------------- which direction

  /** A dispatch, told from the lists and counters alone. With a request to go on with, the batch goes on until it has
      fifo_batch requests. Otherwise a batch starts: of reads if there are any, unless writes wait and have been passed
      over writes_starved times; at the head of the fifo if anything there is due or there is nothing to go on from. */
  lemma DispatchIs(cfg: Config, s: State, now: nat)
    requires Inv(cfg, s)
    ensures var (s', r) := Dispatch(cfg, s, now);
      var (anyRead, anyWrite) := (s.read.fifo != [], s.write.fifo != []);
      var next := if s.write.next.Some? then s.write.next else s.read.next;
      if next.Some? && s.batching < cfg.batch then
        r == next && s'.batching == s.batching + 1 && s'.starved == s.starved
      else if !anyRead && !anyWrite then r == None
      else
        var d := if anyRead && !(anyWrite && s.starved >= cfg.writesStarved) then Read else Write;
        var due := exists id :: id in On(s, d).fifo && TimeOf(s.rqs, id) <= now;
        && On(s, d).fifo != []
        && r == Some(if due || On(s, d).next.None? then On(s, d).fifo[0] else On(s, d).next.value)
        && r.value in s.rqs && s.rqs[r.value].dir == d && s'.batching == 1
        && s'.starved == if d == Write then 0 else if anyWrite then s.starved + 1 else s.starved
  {
    hide Dispatch, MoveRequest, SideOk;
    DispatchCases(cfg, s, now);
    if s.read.fifo != [] { HeadIsEarliest(cfg, s, Read, now); }
    if s.write.fifo != [] { HeadIsEarliest(cfg, s, Write, now); }
    var r := Dispatch(cfg, s, now).1;
    if r.Some? {
      MovedCounters(s.(batching := s.batching + 1, clock := now), r.value);
      MovedCounters(s.(starved := Choose(cfg, s).1, batching := 1, clock := now), r.value);
    }
  }

  lemma MovedCounters(s: State, id: Id)
    requires id in s.rqs
    ensures MoveRequest(s, id).batching == s.batching && MoveRequest(s, id).starved == s.starved
  {
    hide Without, Latter;
  }

  /** How often writes that waited have been passed over since a batch of them began, starting from `n`. */
  ghost function PassedOver(cfg: Config, s: State, events: seq<Event>, n: nat): nat
    decreases |events|
  {
    if events == [] then n
    else
      var e := events[0];
      var rest := events[1..];
      var starts := e.Issue? && Enabled(s, e) && !InBatch(cfg, s) && Dispatched(cfg, s, e) != [];
      var m :=
        if !starts then n
        else if Dispatched(cfg, s, e) == [Write] then 0
        else if s.write.fifo != [] then n + 1
        else n;
      PassedOver(cfg, Next(cfg, s, e), rest, m)
  }

  lemma StepPasses(cfg: Config, s: State, e: Event)
    requires Inv(cfg, s)
    ensures Next(cfg, s, e).starved == PassedOver(cfg, s, [e], s.starved)
  {
    hide Dispatch, SideOk, RbAdd, MoveAfter, Without, Latter;
    assert [e][1..] == [];
    if e.Issue? && Enabled(s, e) { DispatchIs(cfg, s, e.now); DispatchCases(cfg, s, e.now); }
  }

  /** The counter counts just that. */
  lemma {:induction false} StarvedCounts(cfg: Config, s: State, events: seq<Event>)
    requires Inv(cfg, s)
    ensures Run(cfg, s, events).starved == PassedOver(cfg, s, events, s.starved)
    decreases |events|
  {
    hide Inv, Next, Dispatched, InBatch;
    if events != [] {
      StepPasses(cfg, s, events[0]);
      DeadlineProofs.NextKeeps(cfg, s, events[0]);
      StarvedCounts(cfg, Next(cfg, s, events[0]), events[1..]);
      assert [events[0]][1..] == [];
    }
  }

  /** After every run, a batch that starts while both kinds wait is one of writes exactly when writes have been passed
      over writes_starved times since their last batch. */
  lemma WritesTurn(cfg: Config, events: seq<Event>, now: nat)
    ensures var s := Run(cfg, Init, events);
      var r := Dispatch(cfg, s, now).1;
      s.read.fifo != [] && s.write.fifo != [] && !InBatch(cfg, s) ==>
        && r.Some? && r.value in s.rqs
        && (s.rqs[r.value].dir == Write <==> PassedOver(cfg, Init, events, 0) >= cfg.writesStarved)
  {
    hide Run, Dispatch, PassedOver, SideOk;
    InitHolds(cfg);
    RunKeeps(cfg, Init, events);
    StarvedCounts(cfg, Init, events);
    DispatchIs(cfg, Run(cfg, Init, events), now);
  }

  lemma InitHolds(cfg: Config)
    ensures Inv(cfg, Init)
  {
  }

  // ---------------------------------------------------------------- sectors and deadlines

  /** Only `id` may have changed, and it is now `r`. */
  ghost predicate Became(s: State, s': State, id: Id, r: Rq) { s'.rqs == s.rqs[id := r] }

  /** A request arrives with its deadline, that of its direction, and waits behind all others. */
  lemma AddedIs(cfg: Config, s: State, id: Id, sector: nat, d: Dir, now: nat)
    ensures var s' := AddRequest(cfg, s, id, sector, d, now);
      && Became(s, s', id, Rq(sector, d, now + if d == Read then cfg.readExpire else cfg.writeExpire))
      && On(s', d).fifo == On(s, d).fifo + [id] && On(s', Other(d)) == On(s, Other(d))
  {
    hide RbAdd;
  }

  /** A front merge moves the start of a request and keeps its deadline and its place in the fifo. */
  lemma FrontMergedIs(s: State, id: Id, sector: nat)
    requires id in s.rqs
    ensures var s' := FrontMerged(s, id, sector);
      && Became(s, s', id, s.rqs[id].(sector := sector))
      && forall d :: On(s', d).fifo == On(s, d).fifo && On(s', d).next == On(s, d).next
  {
    hide RbAdd, Without;
  }

  /** Of two merged requests one is left, where it was and due when the first of the two was. */
  lemma MergedIs(s: State, req: Id, next: Id)
    requires req in s.rqs && next in s.rqs && req != next
    ensures var (s', a, b) := (MergedRequests(s, req, next), s.rqs[req], s.rqs[next]);
      s'.rqs == s.rqs[req := a.(fifoTime := if b.fifoTime < a.fifoTime then b.fifoTime else a.fifoTime)] - {next}
  {
    hide Without, MoveAfter, Latter;
  }

  /** A request goes behind all that do not start later, also those that start at the same sector. */
  lemma AddsBehind(rqs: map<Id, Rq>, list: seq<Id>, id: Id) returns (k: nat)
    requires BySector(rqs, list)
    ensures k <= |list| && RbAdd(rqs, list, id) == list[..k] + [id] + list[k..]
    ensures forall i :: 0 <= i < |list| ==> (i < k <==> SectorOf(rqs, list[i]) <= SectorOf(rqs, id))
  {
    k := Position(rqs, list, SectorOf(rqs, id));
    forall i | k < i < |list| ensures SectorOf(rqs, list[i]) > SectorOf(rqs, id) {
      assert SectorOf(rqs, list[k]) <= SectorOf(rqs, list[i]);
    }
  }
}
