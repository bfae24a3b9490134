/**
One hardware queue driven by one CPU: the insert and run paths of block/blk-mq.c as they update the
software queues and hctx->dispatch in place. Each method is a run of the machine of BlkMq, so all
that is proved of every run holds of it.
*/
module HwQueue {
  import opened Common
  import opened BlkMq
  import opened BlkMqInvariant

  lemma {:induction false} RunConcat(s: State, a: seq<Event>, b: seq<Event>)
    ensures Run(s, a + b) == Run(Run(s, a), b)
    decreases |a|
  {
    hide Next;
    if a == [] {
      assert a + b == b;
    } else {
      assert (a + b)[0] == a[0] && (a + b)[1..] == a[1..] + b;
      RunConcat(Next(s, a[0]), a[1..], b);
    }
  }

  lemma RunOne(s: State, a: seq<Event>, e: Event)
    ensures Run(s, a + [e]) == Next(Run(s, a), e)
  {
    hide Next;
    RunConcat(s, a, [e]);
    assert [e][1..] == [];
  }

  lemma RunNone(s: State)
    ensures Run(s, []) == s
  {
  }

  lemma RunFirst(s: State, e: Event)
    ensures Run(s, [e]) == Next(s, e)
  {
    hide Next;
    RunOne(s, [], e);
    assert [] + [e] == [e];
  }

  class HwQueue {
    const ctxs: array<SwQueue>
    var dispatch: seq<Rq>
    var stopped: bool
    var work: bool
    ghost var pc: Pc
    ghost var place: map<Rq, Place>

    constructor (n: nat)
      ensures St() == Init(1, n) && fresh(ctxs)
    {
      ctxs := new SwQueue[n](_ => SwQueue([], None, false, false));
      dispatch, stopped, work, pc, place := [], false, false, Idle, map[];
    }

    ghost function St(): State
      reads this, ctxs
    {
      State([pc], ctxs[..], dispatch, stopped, work, place)
    }

    /** Between calls no lock is held. */
    ghost predicate Quiet()
      reads this, ctxs
    {
      pc == Idle && Inv(St())
    }

    lemma Unheld()
      requires Inv(St()) && Holding(pc) == None
      ensures forall c :: 0 <= c < ctxs.Length ==> ctxs[c].lock == None
    {
      Unlocked();
    }

    lemma Unlocked()
      requires Locks(St()) && Holding(pc) == None
      ensures forall c :: 0 <= c < ctxs.Length ==> ctxs[c].lock == None
    {
      forall c | 0 <= c < ctxs.Length ensures ctxs[c].lock == None {
        assert St().ctxs[c] == ctxs[c];
        assert HolderIs(St(), St().ctxs[c].lock, c);
      }
    }

    // -------------------------------------------------------------- flush_busy_ctxs

    /** find_next_bit looks at one bit. */
    method TestPending(i: nat, ghost list: seq<Rq>) returns (found: bool)
      requires i < ctxs.Length && pc == Scan(i, list)
      modifies this`pc
      ensures found == ctxs[i].pending && pc == (if found then Found(i, list) else Scan(i + 1, list))
      ensures St() == Next(old(St()), CollectEv(0))
    {
      found := ctxs[i].pending;
      pc := if found then Found(i, list) else Scan(i + 1, list);
      assert St().threads == [pc];
    }

    method ClearPending(i: nat, ghost list: seq<Rq>)
      requires i < ctxs.Length && pc == Found(i, list)
      modifies this`pc, ctxs
      ensures pc == Cleared(i, list) && ctxs[..] == old(ctxs[..])[i := old(ctxs[i]).(pending := false)]
      ensures St() == Next(old(St()), CollectEv(0))
    {
      ctxs[i] := ctxs[i].(pending := false);
      pc := Cleared(i, list);
      assert St().threads == [pc];
    }

    /** list_splice_tail_init under the lock. */
    method SpliceTail(i: nat, list: seq<Rq>) returns (list': seq<Rq>)
      requires i < ctxs.Length && pc == Cleared(i, list) && ctxs[i].lock == None
      modifies this`pc, this`place, ctxs
      ensures list' == list + old(ctxs[i].list) && pc == Scan(i + 1, list')
      ensures ctxs[..] == old(ctxs[..])[i := old(ctxs[i]).(list := [], lazy := false)]
      ensures St() == Next(old(St()), CollectEv(0))
    {
      list' := list + ctxs[i].list;
      place := PutAll(place, ctxs[i].list, Local(0));
      ctxs[i] := ctxs[i].(list := [], lazy := false);
      pc := Scan(i + 1, list');
      assert St().threads == [pc];
    }

    /** One turn of the loop: pass a clear bit, or clear a set one and splice its queue. */
    method Visit(i: nat, list: seq<Rq>) returns (list': seq<Rq>, ghost events: seq<Event>)
      requires i < ctxs.Length && pc == Scan(i, list) && ctxs[i].lock == None
      modifies this`pc, this`place, ctxs
      ensures pc == Scan(i + 1, list') && St() == Run(old(St()), events)
      ensures list' == list + (if old(ctxs[i]).pending then old(ctxs[i]).list else [])
      ensures ctxs[..] == old(ctxs[..])[i := Drain(old(ctxs[i]))]
    {
      hide Run, Next;
      ghost var s := St();
      var found := TestPending(i, list);
      list', events := list, [CollectEv(0)];
      RunFirst(s, CollectEv(0));
      if found {
        RunOne(s, events, CollectEv(0));
        ClearPending(i, list);
        events := events + [CollectEv(0)];
        RunOne(s, events, CollectEv(0));
        list' := SpliceTail(i, list);
        events := events + [CollectEv(0)];
      }
    }

    method FlushBusyCtxs() returns (list: seq<Rq>, ghost events: seq<Event>)
      requires pc == Scan(0, []) && forall c :: 0 <= c < ctxs.Length ==> ctxs[c].lock == None
      modifies this`pc, this`place, ctxs
      ensures pc == CheckDispatch(list) && St() == Run(old(St()), events)
      ensures list == BusyLists(old(ctxs[..]))
      ensures forall c :: 0 <= c < ctxs.Length ==> ctxs[c] == Drain(old(ctxs[c]))
    {
      hide Run, Next, Drain;
      ghost var s := St();
      RunNone(s);
      list, events := [], [];
      var i: nat := 0;
      while i < ctxs.Length
        invariant i <= ctxs.Length && pc == Scan(i, list) && St() == Run(s, events)
        invariant list == BusyLists(s.ctxs[..i])
        invariant forall c :: 0 <= c < i ==> ctxs[c] == Drain(s.ctxs[c])
        invariant forall c :: i <= c < ctxs.Length ==> ctxs[c] == s.ctxs[c]
      {
        assert s.ctxs[..i + 1][..i] == s.ctxs[..i] && ctxs[i] == s.ctxs[i];
        ghost var more;
        list, more := Visit(i, list);
        RunConcat(s, events, more);
        events, i := events + more, i + 1;
      }
      assert s.ctxs[..i] == s.ctxs;
      RunOne(s, events, CollectEv(0));
      EndScan(list);
      events := events + [CollectEv(0)];
    }

    ghost method EndScan(list: seq<Rq>)
      requires pc == Scan(ctxs.Length, list)
      modifies this`pc
      ensures pc == CheckDispatch(list) && St() == Next(old(St()), CollectEv(0))
    {
      pc := CheckDispatch(list);
      assert St().threads == [pc];
    }

    // -------------------------------------------------------------- __blk_mq_run_hw_queue

    /** Put what an earlier run left on hctx->dispatch in front. */
    method GrabDispatch(list: seq<Rq>) returns (all: seq<Rq>, ghost events: seq<Event>)
      requires pc == CheckDispatch(list)
      modifies this`pc, this`place, this`dispatch
      ensures all == old(dispatch) + list && dispatch == [] && pc == Issue(all)
      ensures St() == Run(old(St()), events)
    {
      hide Run;
      all, events := list, [CollectEv(0)];
      ghost var s := St();
      RunFirst(s, CollectEv(0));
      if dispatch == [] {
        pc := Issue(list);
        assert St().threads == [pc];
        assert dispatch + list == list;
      } else {
        RunOne(s, events, CollectEv(0));
        assert Next(s, CollectEv(0)) == s.(threads := [Grab(list)]);
        GrabAll(s, list);
        all := dispatch + list;
        place := PutAll(place, dispatch, Local(0));
        dispatch, pc, events := [], Issue(all), events + [CollectEv(0)];
      }
    }

    static lemma GrabAll(s: State, list: seq<Rq>)
      requires s.threads == [CheckDispatch(list)]
      ensures Next(s.(threads := [Grab(list)]), CollectEv(0)) ==
        s.(threads := [Issue(s.dispatch + list)], dispatch := [],
           place := PutAll(s.place, s.dispatch, Local(0)))
    {
    }

    /** Hand the first request to the driver. */
    method IssueOne(list: seq<Rq>, answer: Answer) returns (rest: seq<Rq>)
      requires pc == Issue(list) && list != []
      modifies this`pc, this`place
      ensures rest == (if answer == Busy then list else list[1..])
      ensures pc == (if answer == Busy then Requeue(list) else Issue(rest))
      ensures St() == Next(old(St()), IssueEv(0, answer, true))
    {
      match answer {
        case Busy => rest, pc := list, Requeue(list);
        case Ok => rest, place, pc := list[1..], place[list[0] := Driver], Issue(list[1..]);
        case Error => rest, place, pc := list[1..], place[list[0] := Ended], Issue(list[1..]);
      }
      assert St().threads == [pc];
    }

    /** Put what the driver refused back on hctx->dispatch. */
    method Refuse(list: seq<Rq>)
      requires pc == Requeue(list)
      modifies this`pc, this`place, this`dispatch
      ensures pc == Kick && dispatch == list + old(dispatch)
      ensures St() == Next(old(St()), IssueEv(0, Ok, true))
    {
      dispatch := list + dispatch;
      place := PutAll(place, list, Dispatch);
      pc := Kick;
      assert St().threads == [pc];
    }

    /** The head of blk_mq_run_hw_queue; `now` says that the caller goes on to run the queue itself. */
    method KickQueue(async: bool) returns (now: bool)
      requires pc == Kick
      modifies this`pc, this`work
      ensures now == (!stopped && !async) && pc == (if now then RunStart else Idle)
      ensures work == (old(work) || (!stopped && async))
      ensures St() == Next(old(St()), IssueEv(0, Ok, async))
    {
      now := !stopped && !async;
      work := work || (!stopped && async);
      pc := if now then RunStart else Idle;
      assert St().threads == [pc];
    }

    /** The driver takes requests in order until it is busy; `ask(n)` is its answer to the n-th. */
    method IssueAll(all: seq<Rq>, ask: nat -> Answer) returns (n: nat, ghost events: seq<Event>)
      requires pc == Issue(all) && dispatch == []
      modifies this`pc, this`place, this`dispatch, this`work
      ensures n <= |all| && pc == Idle && St() == Run(old(St()), events)
      ensures (forall j :: 0 <= j < n ==> ask(j) != Busy) && (n < |all| ==> ask(n) == Busy)
      ensures dispatch == all[n..] && work == (old(work) || (!stopped && n < |all|))
    {
      hide Run, Next;
      ghost var s := St();
      RunNone(s);
      var list := all;
      n, events := 0, [];
      while list != []
        invariant n <= |all| && list == all[n..] && pc == Issue(list) && dispatch == [] && work == old(work)
        invariant (forall j :: 0 <= j < n ==> ask(j) != Busy) && St() == Run(s, events)
        decreases |list|
      {
        RunOne(s, events, IssueEv(0, ask(n), true));
        ghost var e := IssueEv(0, ask(n), true);
        list := IssueOne(list, ask(n));
        events := events + [e];
        if ask(n) == Busy {
          RunOne(s, events, IssueEv(0, Ok, true));
          Refuse(list);
          events := events + [IssueEv(0, Ok, true)];
          RunOne(s, events, IssueEv(0, Ok, true));
          var now := KickQueue(true);
          events := events + [IssueEv(0, Ok, true)];
          return;
        }
        n := n + 1;
      }
      RunOne(s, events, IssueEv(0, Ok, true));
      EndIssue();
      events := events + [IssueEv(0, Ok, true)];
    }

    ghost method EndIssue()
      requires pc == Issue([])
      modifies this`pc
      ensures pc == Idle && St() == Next(old(St()), IssueEv(0, Ok, true))
    {
      pc := Idle;
      assert St().threads == [pc];
    }

    ghost method StartRun()
      requires pc == RunStart
      modifies this`pc
      ensures pc == (if stopped then Idle else Scan(0, []))
      ensures St() == Next(old(St()), CollectEv(0))
    {
      pc := if stopped then Idle else Scan(0, []);
      assert St().threads == [pc];
    }

    /** A run that nobody disturbs empties every pending queue; the driver sees the leftovers of the last
        run first and the rest in queue order; what it refuses goes back in that order, with a run asked for. */
    method RunHwQueue(ask: nat -> Answer) returns (n: nat, ghost events: seq<Event>)
      requires pc == RunStart && Inv(St())
      modifies this, ctxs
      ensures Quiet() && stopped == old(stopped) && St() == Run(old(St()), events)
      ensures var all := old(dispatch) + BusyLists(old(ctxs[..]));
        if stopped then n == 0 && dispatch == old(dispatch) && ctxs[..] == old(ctxs[..]) && work == old(work)
        else
          && n <= |all| && dispatch == all[n..] && work == (old(work) || n < |all|)
          && (forall j :: 0 <= j < n ==> ask(j) != Busy) && (n < |all| ==> ask(n) == Busy)
          && (forall c :: 0 <= c < ctxs.Length ==> ctxs[c] == Drain(old(ctxs[c])))
    {
      hide Run, Next, BusyLists, Drain, Inv;
      ghost var s := St();
      Unheld();
      n, events := 0, [CollectEv(0)];
      RunFirst(s, CollectEv(0));
      StartRun();
      if !stopped {
        ghost var more;
        var list, all;
        list, more := FlushBusyCtxs();
        RunConcat(s, events, more);
        events := events + more;
        all, more := GrabDispatch(list);
        RunConcat(s, events, more);
        events := events + more;
        n, more := IssueAll(all, ask);
        RunConcat(s, events, more);
        events := events + more;
      }
      RunKeeps(s, events);
    }

    /** blk_mq_run_hw_queue. */
    method Kicked(async: bool, ask: nat -> Answer) returns (ghost events: seq<Event>)
      requires pc == Kick && Inv(St())
      modifies this, ctxs
      ensures Quiet() && stopped == old(stopped) && St() == Run(old(St()), events)
      ensures !stopped && async ==> work && dispatch == old(dispatch) && ctxs[..] == old(ctxs[..])
      ensures !stopped && !async ==> forall c :: 0 <= c < ctxs.Length ==> ctxs[c] == Drain(old(ctxs[c]))
      ensures !stopped && dispatch != [] && !async ==> work
    {
      hide Run, Next, BusyLists, Drain, Inv;
      ghost var s := St();
      events := [IssueEv(0, Ok, async)];
      RunFirst(s, IssueEv(0, Ok, async));
      NextKeeps(s, IssueEv(0, Ok, async));
      var now := KickQueue(async);
      if now {
        var n;
        ghost var more;
        n, more := RunHwQueue(ask);
        RunConcat(s, events, more);
        events := events + more;
      }
    }

    // -------------------------------------------------------------- blk_mq_insert_requests

    ghost method Arrive(c: Ctx, rqs: seq<Rq>, atHead: bool, run: bool)
      requires pc == Idle && c < ctxs.Length && Distinct(rqs) && forall r :: r in rqs ==> r !in place
      modifies this`pc, this`place
      ensures pc == WantLock(c, rqs, atHead, run)
      ensures St() == Next(old(St()), Insert(0, c, rqs, atHead, run))
    {
      pc := WantLock(c, rqs, atHead, run);
      place := PutAll(place, rqs, Local(0));
      assert St().threads == [pc];
    }

    method Lock(c: Ctx, ghost rqs: seq<Rq>, ghost atHead: bool, ghost run: bool)
      requires c < ctxs.Length && pc == WantLock(c, rqs, atHead, run) && ctxs[c].lock == None
      modifies this`pc, ctxs
      ensures pc == Adding(c, rqs, atHead, run) && ctxs[..] == old(ctxs[..])[c := old(ctxs[c]).(lock := Some(0))]
      ensures St() == Next(old(St()), InsertEv(0))
    {
      ctxs[c] := ctxs[c].(lock := Some(0));
      pc := Adding(c, rqs, atHead, run);
      assert St().threads == [pc];
    }

    /** __blk_mq_insert_req_list. */
    method AddRequest(c: Ctx, rqs: seq<Rq>, atHead: bool, run: bool) returns (rest: seq<Rq>)
      requires c < ctxs.Length && pc == Adding(c, rqs, atHead, run) && rqs != []
      modifies this`pc, this`place, ctxs
      ensures rest == rqs[1..] && pc == Adding(c, rest, atHead, run)
      ensures ctxs[..] == old(ctxs[..])[c := old(ctxs[c]).(
        list := if atHead then [rqs[0]] + old(ctxs[c]).list else old(ctxs[c]).list + [rqs[0]],
        lazy := old(ctxs[c]).lazy || !run)]
      ensures St() == Next(old(St()), InsertEv(0))
    {
      var q := ctxs[c];
      rest := rqs[1..];
      ctxs[c] := q.(list := if atHead then [rqs[0]] + q.list else q.list + [rqs[0]], lazy := q.lazy || !run);
      place := place[rqs[0] := Queued(c)];
      pc := Adding(c, rest, atHead, run);
      assert St().threads == [pc];
    }

    /** blk_mq_hctx_mark_pending and the unlock. */
    method MarkPending(c: Ctx, ghost atHead: bool, ghost run: bool) returns (ghost events: seq<Event>)
      requires c < ctxs.Length && pc == Adding(c, [], atHead, run)
      modifies this`pc, ctxs
      ensures pc == (if run then Kick else Idle)
      ensures ctxs[..] == old(ctxs[..])[c := old(ctxs[c]).(pending := true, lock := None)]
      ensures St() == Run(old(St()), events)
    {
      hide Run, Next;
      ghost var s := St();
      events := [InsertEv(0)];
      RunFirst(s, InsertEv(0));
      AddingDone(c, atHead, run);
      RunOne(s, events, InsertEv(0));
      var found := TestMark(c, run);
      events := events + [InsertEv(0)];
      if !found {
        RunOne(s, events, InsertEv(0));
        SetMark(c, run);
        events := events + [InsertEv(0)];
      }
      RunOne(s, events, InsertEv(0));
      ReleaseLock(c, run);
      events := events + [InsertEv(0)];
    }

    ghost method AddingDone(c: Ctx, atHead: bool, run: bool)
      requires pc == Adding(c, [], atHead, run)
      modifies this`pc
      ensures pc == TestBit(c, run) && St() == Next(old(St()), InsertEv(0))
    {
      pc := TestBit(c, run);
      assert St().threads == [pc];
    }

    method TestMark(c: Ctx, ghost run: bool) returns (found: bool)
      requires c < ctxs.Length && pc == TestBit(c, run)
      modifies this`pc
      ensures found == ctxs[c].pending && pc == (if found then Unlock(c, run) else SetBit(c, run))
      ensures St() == Next(old(St()), InsertEv(0))
    {
      found := ctxs[c].pending;
      pc := if found then Unlock(c, run) else SetBit(c, run);
      assert St().threads == [pc];
    }

    method SetMark(c: Ctx, ghost run: bool)
      requires c < ctxs.Length && pc == SetBit(c, run)
      modifies this`pc, ctxs
      ensures pc == Unlock(c, run) && ctxs[..] == old(ctxs[..])[c := old(ctxs[c]).(pending := true)]
      ensures St() == Next(old(St()), InsertEv(0))
    {
      ctxs[c] := ctxs[c].(pending := true);
      pc := Unlock(c, run);
      assert St().threads == [pc];
    }

    method ReleaseLock(c: Ctx, ghost run: bool)
      requires c < ctxs.Length && pc == Unlock(c, run)
      modifies this`pc, ctxs
      ensures pc == (if run then Kick else Idle)
      ensures ctxs[..] == old(ctxs[..])[c := old(ctxs[c]).(lock := None)]
      ensures St() == Next(old(St()), InsertEv(0))
    {
      ctxs[c] := ctxs[c].(lock := None);
      pc := if run then Kick else Idle;
      assert St().threads == [pc];
    }

    /** The loop of blk_mq_insert_requests. */
    method AddAll(c: Ctx, rqs: seq<Rq>, atHead: bool, run: bool) returns (ghost events: seq<Event>)
      requires c < ctxs.Length && pc == Adding(c, rqs, atHead, run)
      modifies this`pc, this`place, ctxs
      ensures pc == Adding(c, [], atHead, run) && St() == Run(old(St()), events)
      ensures ctxs[..] == old(ctxs[..])[c := old(ctxs[c]).(
        list := Spread(old(ctxs[c]).list, rqs, atHead), lazy := old(ctxs[c]).lazy || (rqs != [] && !run))]
    {
      hide Run, Next;
      ghost var s := St();
      RunNone(s);
      events := [];
      var list := rqs;
      var k: nat := 0;
      while list != []
        invariant k <= |rqs| && list == rqs[k..] && pc == Adding(c, list, atHead, run) && St() == Run(s, events)
        invariant ctxs[..] == s.ctxs[c := s.ctxs[c].(list := Spread(s.ctxs[c].list, rqs[..k], atHead),
                                                     lazy := s.ctxs[c].lazy || (k > 0 && !run))]
        decreases |list|
      {
        assert rqs[..k + 1][..k] == rqs[..k] && ctxs[c] == ctxs[..][c];
        RunOne(s, events, InsertEv(0));
        list := AddRequest(c, list, atHead, run);
        events, k := events + [InsertEv(0)], k + 1;
      }
      assert rqs[..k] == rqs;
    }

    /** The requests end up in `c`, at the tail in order or one by one at the head, and `c` is pending. */
    method InsertRequests(c: Ctx, rqs: seq<Rq>, atHead: bool, run: bool) returns (ghost events: seq<Event>)
      requires Quiet() && c < ctxs.Length && Distinct(rqs) && forall r :: r in rqs ==> r !in place
      modifies this`pc, this`place, ctxs
      ensures pc == (if run then Kick else Idle) && St() == Run(old(St()), events) && Inv(St())
      ensures ctxs[c].pending && (!atHead ==> ctxs[c].list == old(ctxs[c].list) + rqs)
      ensures atHead ==> |ctxs[c].list| == |rqs| + |old(ctxs[c].list)| && ctxs[c].list[|rqs|..] == old(ctxs[c].list)
      ensures atHead ==> forall i :: 0 <= i < |rqs| ==> ctxs[c].list[i] == rqs[|rqs| - 1 - i]
      ensures ctxs[..] == old(ctxs[..])[c := old(ctxs[c]).(
        list := Spread(old(ctxs[c]).list, rqs, atHead), pending := true,
        lazy := old(ctxs[c]).lazy || (rqs != [] && !run))]
    {
      hide Next, Inv, Run, Spread;
      ghost var s := St();
      Unheld();
      events := [Insert(0, c, rqs, atHead, run)];
      RunFirst(s, Insert(0, c, rqs, atHead, run));
      Arrive(c, rqs, atHead, run);
      RunOne(s, events, InsertEv(0));
      Lock(c, rqs, atHead, run);
      events := events + [InsertEv(0)];
      ghost var more := AddAll(c, rqs, atHead, run);
      RunConcat(s, events, more);
      events := events + more;
      more := MarkPending(c, atHead, run);
      RunConcat(s, events, more);
      events := events + more;
      RunKeeps(s, events);
      SpreadIs(s.ctxs[c].list, rqs);
      assert ctxs[c] == ctxs[..][c];
    }
  }

  /** The requests of the pending queues, queue by queue. */
  function BusyLists(ctxs: seq<SwQueue>): seq<Rq> {
    if ctxs == [] then []
    else
      var q := ctxs[|ctxs| - 1];
      BusyLists(ctxs[..|ctxs| - 1]) + (if q.pending then q.list else [])
  }

  function Drain(q: SwQueue): SwQueue {
    if q.pending then q.(list := [], lazy := false, pending := false) else q
  }

  /** `list` after the requests of `rqs` have been added one by one. */
  function Spread(list: seq<Rq>, rqs: seq<Rq>, atHead: bool): seq<Rq> {
    if rqs == [] then list
    else
      var (l, r) := (Spread(list, rqs[..|rqs| - 1], atHead), rqs[|rqs| - 1]);
      if atHead then [r] + l else l + [r]
  }

  /** At the tail the requests follow in their order, at the head they come in the opposite order. */
  lemma {:induction false} SpreadIs(list: seq<Rq>, rqs: seq<Rq>)
    ensures Spread(list, rqs, false) == list + rqs
    ensures var l := Spread(list, rqs, true);
      && |l| == |rqs| + |list| && l[|rqs|..] == list
      && forall i :: 0 <= i < |rqs| ==> l[i] == rqs[|rqs| - 1 - i]
  {
    if rqs == [] {
      assert list + rqs == list;
    } else {
      var (init, last) := (rqs[..|rqs| - 1], rqs[|rqs| - 1]);
      SpreadIs(list, init);
      assert list + rqs == list + init + [last];
      var l := Spread(list, init, true);
      assert Spread(list, rqs, true) == [last] + l && ([last] + l)[|rqs|..] == l[|init|..];
    }
  }

  /** The requests of a pending queue, and none of another, in the order of the queues. */
  lemma {:induction false} BusyListsAre(a: seq<SwQueue>, q: SwQueue, b: seq<SwQueue>)
    ensures BusyLists(a + [q] + b) == BusyLists(a) + (if q.pending then q.list else []) + BusyLists(b)
    decreases |b|
  {
    var all := a + [q] + b;
    if b == [] {
      assert all[..|all| - 1] == a && all[|all| - 1] == q;
    } else {
      assert all[..|all| - 1] == a + [q] + b[..|b| - 1] && all[|all| - 1] == b[|b| - 1];
      BusyListsAre(a, q, b[..|b| - 1]);
    }
  }
}
