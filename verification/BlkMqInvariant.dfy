/**
No request is lost between the software queues, the runners and the driver, under every
interleaving of inserters, runners, stops and restarts.
*/
module BlkMqInvariant {
  import opened Common
  import opened BlkMq

  // ---------------------------------------------------------------- every request is in one place

  function LocalList(pc: Pc): seq<Rq> {
    if pc.WantLock? || pc.Adding? || pc.Scan? || pc.Found? || pc.Cleared? || pc.CheckDispatch?
       || pc.Grab? || pc.Issue? || pc.Requeue?
    then pc.list else []
  }

  ghost predicate At(s: State, r: Rq, p: Place) { r in s.place && s.place[r] == p }

  /** `q` holds exactly the requests whose place is `p`, each once. */
  ghost predicate Holds(s: State, q: seq<Rq>, p: Place) {
    Distinct(q) && forall r :: r in q <==> At(s, r, p)
  }

  ghost predicate Places(s: State) {
    && (forall t :: 0 <= t < |s.threads| ==> Holds(s, LocalList(s.threads[t]), Local(t)))
    && (forall c :: 0 <= c < |s.ctxs| ==> Holds(s, s.ctxs[c].list, Queued(c)))
    && Holds(s, s.dispatch, Dispatch)
    && (forall r :: r in s.place ==> Real(s, s.place[r]))
  }

  /** A place that exists. */
  predicate Real(s: State, p: Place) {
    (p.Local? ==> p.t < |s.threads|) && (p.Queued? ==> p.c < |s.ctxs|)
  }

  // ---------------------------------------------------------------- locks, bits and runs

  /** The software queue whose lock a thread at `pc` holds. */
  function Holding(pc: Pc): Option<Ctx> {
    if pc.Adding? || pc.TestBit? || pc.SetBit? || pc.Unlock? then Some(pc.c) else None
  }

  ghost predicate Locks(s: State) {
    && (forall t :: 0 <= t < |s.threads| ==> LockIs(s, Holding(s.threads[t]), t))
    && (forall c :: 0 <= c < |s.ctxs| ==> HolderIs(s, s.ctxs[c].lock, c))
  }

  predicate LockIs(s: State, held: Option<Ctx>, t: Tid) {
    held.Some? ==> held.value < |s.ctxs| && s.ctxs[held.value].lock == Some(t)
  }

  predicate HolderIs(s: State, lock: Option<Tid>, c: Ctx) {
    lock.Some? ==> lock.value < |s.threads| && Holding(s.threads[lock.value]) == Some(c)
  }

  ghost predicate SomeCleared(s: State, c: Ctx) {
    exists t :: 0 <= t < |s.threads| && s.threads[t].Cleared? && s.threads[t].i == c
  }

  /** A thread that has the lock and has yet to mark the queue, for a run unless the queue is lazy. */
  predicate Marking(pc: Pc, c: Ctx, lazy: bool) {
    (pc.Adding? || pc.TestBit? || pc.SetBit?) && pc.c == c && (pc.run || lazy)
  }

  ghost predicate AboutToMark(s: State, c: Ctx)
    requires c < |s.ctxs|
  {
    exists t :: 0 <= t < |s.threads| && Marking(s.threads[t], c, s.ctxs[c].lazy)
  }

  /** A non-empty queue with a clear bit is being spliced or is about to be marked. */
  ghost predicate MarkedAt(s: State, c: Ctx)
    requires c < |s.ctxs|
  {
    s.ctxs[c].list != [] && !s.ctxs[c].pending ==> SomeCleared(s, c) || AboutToMark(s, c)
  }

  ghost predicate Marked(s: State) {
    forall c :: 0 <= c < |s.ctxs| ==> MarkedAt(s, c)
  }

  /** A thread at `pc` leads to a visit of queue `c`, or to the queue being stopped. */
  predicate WillRun(pc: Pc, c: Ctx) {
    || ((pc.Adding? || pc.TestBit? || pc.SetBit? || pc.Unlock?) && pc.c == c && pc.run)
    || pc.Kick? || pc.RunStart? || pc.StopSet?
    || ((pc.Scan? || pc.Found? || pc.Cleared?) && pc.i <= c)
  }

  ghost predicate RunComing(s: State, c: Ctx) {
    s.stopped || s.work || exists t :: 0 <= t < |s.threads| && WillRun(s.threads[t], c)
  }

  /** A non-empty queue that was not filled without asking for a run will be visited. */
  ghost predicate OwedAt(s: State, c: Ctx)
    requires c < |s.ctxs|
  {
    s.ctxs[c].list != [] && !s.ctxs[c].lazy ==> RunComing(s, c)
  }

  ghost predicate Owed(s: State) {
    forall c :: 0 <= c < |s.ctxs| ==> OwedAt(s, c)
  }

  /** A thread at `pc` will still look at hctx->dispatch, or stop the queue. */
  predicate WillGrab(pc: Pc) {
    pc.Kick? || pc.RunStart? || pc.Scan? || pc.Found? || pc.Cleared? || pc.CheckDispatch? || pc.Grab?
    || pc.StopSet?
  }

  ghost predicate GrabComing(s: State) {
    s.stopped || s.work || exists t :: 0 <= t < |s.threads| && WillGrab(s.threads[t])
  }

  ghost predicate Sent(s: State) { s.dispatch != [] ==> GrabComing(s) }

  /** A thread at `pc` names one of `n` software queues. */
  predicate Names(pc: Pc, n: nat) {
    && (pc.WantLock? || pc.Adding? || pc.TestBit? || pc.SetBit? || pc.Unlock? ==> pc.c < n)
    && (pc.Found? || pc.Cleared? ==> pc.i < n)
  }

  ghost predicate InRange(s: State) {
    forall t :: 0 <= t < |s.threads| ==> Names(s.threads[t], |s.ctxs|)
  }

  ghost predicate Inv(s: State) {
    Places(s) && Locks(s) && Marked(s) && Owed(s) && Sent(s) && InRange(s)
  }

  // ---------------------------------------------------------------- one thread and one queue change

  /** From `s` to `s'` only thread `t` and software queue `c` changed; no queue did if `c` is none. */
  ghost predicate Moved(s: State, s': State, t: Tid, c: Ctx) {
    && t < |s.threads| == |s'.threads| && |s.ctxs| == |s'.ctxs|
    && (forall u :: 0 <= u < |s.threads| && u != t ==> s'.threads[u] == s.threads[u])
    && (forall d :: 0 <= d < |s.ctxs| && d != c ==> s'.ctxs[d] == s.ctxs[d])
  }

  /** The thread kept what it held, took the lock of `c`, or released it. */
  predicate LockMove(s: State, s': State, t: Tid, c: Ctx)
    requires t < |s.threads| == |s'.threads| && |s.ctxs| == |s'.ctxs|
  {
    var (h, h') := (Holding(s.threads[t]), Holding(s'.threads[t]));
    if c >= |s.ctxs| then h' == h
    else
      var (l, l') := (s.ctxs[c].lock, s'.ctxs[c].lock);
      || (h' == h && l' == l)
      || (h == None && h' == Some(c) && l == None && l' == Some(t))
      || (h == Some(c) && h' == None && l' == None)
  }

  lemma LocksFrame(s: State, s': State, t: Tid, c: Ctx)
    requires Moved(s, s', t, c) && Locks(s) && LockMove(s, s', t, c)
    ensures Locks(s')
  {
    hide Holding;
    forall u | 0 <= u < |s'.threads| ensures LockIs(s', Holding(s'.threads[u]), u) {
      assert LockIs(s, Holding(s.threads[u]), u);
      assert LockIs(s, Holding(s.threads[t]), t);
    }
    forall d | 0 <= d < |s'.ctxs| ensures HolderIs(s', s'.ctxs[d].lock, d) {
      assert HolderIs(s, s.ctxs[d].lock, d);
    }
  }

  lemma RangeFrame(s: State, s': State, t: Tid, c: Ctx)
    requires Moved(s, s', t, c) && InRange(s) && Names(s'.threads[t], |s.ctxs|)
    ensures InRange(s')
  {
    hide Names;
    forall u | 0 <= u < |s'.threads| ensures Names(s'.threads[u], |s'.ctxs|) {
      if u != t { assert Names(s.threads[u], |s.ctxs|); }
    }
  }

  /** The thread is still about to splice or to mark every queue it was about to, other than `c`. */
  predicate MarkMove(pc: Pc, pc': Pc, c: Ctx) {
    && (pc.Cleared? ==> pc.i == c || (pc'.Cleared? && pc'.i == pc.i))
    && (pc.Adding? || pc.TestBit? || pc.SetBit? ==> pc.c == c || pc' == pc)
  }

  /** Queue `d` keeps whoever splices or marks it when thread `t` still does its part. */
  lemma MarkedAtKeeps(s: State, s': State, t: Tid, c: Ctx, d: Ctx)
    requires Moved(s, s', t, c) && d < |s.ctxs| && MarkedAt(s, d)
    requires s'.ctxs[d].list != [] && !s'.ctxs[d].pending ==> s.ctxs[d].list != [] && !s.ctxs[d].pending
    requires s.ctxs[d].lazy ==> s'.ctxs[d].lazy
    requires s.threads[t].Cleared? && s.threads[t].i == d ==> s'.threads[t].Cleared? && s'.threads[t].i == d
    requires Marking(s.threads[t], d, s.ctxs[d].lazy) ==> Marking(s'.threads[t], d, s'.ctxs[d].lazy)
    ensures MarkedAt(s', d)
  {
    if s'.ctxs[d].list != [] && !s'.ctxs[d].pending {
      if SomeCleared(s, d) {
        var u :| 0 <= u < |s.threads| && s.threads[u].Cleared? && s.threads[u].i == d;
        assert s'.threads[u].Cleared? && s'.threads[u].i == d;
      } else {
        var u :| 0 <= u < |s.threads| && Marking(s.threads[u], d, s.ctxs[d].lazy);
        assert Marking(s'.threads[u], d, s'.ctxs[d].lazy);
      }
    }
  }

  lemma MarkedFrame(s: State, s': State, t: Tid, c: Ctx)
    requires Moved(s, s', t, c) && Marked(s) && MarkMove(s.threads[t], s'.threads[t], c)
    requires c < |s.ctxs| ==> MarkedAt(s', c)
    ensures Marked(s')
  {
    hide MarkedAt;
    forall d | 0 <= d < |s'.ctxs| ensures MarkedAt(s', d) {
      if d != c { MarkedAtKeeps(s, s', t, c, d); }
    }
  }

  predicate Comes(s: State, pc: Pc, c: Ctx) { s.stopped || s.work || WillRun(pc, c) }

  /** A debt on queue `d` is kept when thread `t`'s part in it is. */
  lemma OwedAtKeeps(s: State, s': State, t: Tid, c: Ctx, d: Ctx)
    requires Moved(s, s', t, c) && d < |s.ctxs| && OwedAt(s, d)
    requires s'.ctxs[d].list != [] && !s'.ctxs[d].lazy ==> s.ctxs[d].list != [] && !s.ctxs[d].lazy
    requires Comes(s, s.threads[t], d) ==> Comes(s', s'.threads[t], d)
    ensures OwedAt(s', d)
  {
    hide WillRun;
    if s'.ctxs[d].list != [] && !s'.ctxs[d].lazy && !Comes(s', s'.threads[t], d) {
      var u :| 0 <= u < |s.threads| && WillRun(s.threads[u], d);
      assert s'.threads[u] == s.threads[u];
    }
  }

  lemma OwedFrame(s: State, s': State, t: Tid, c: Ctx)
    requires Moved(s, s', t, c) && Owed(s)
    requires forall d :: 0 <= d < |s.ctxs| && d != c && Comes(s, s.threads[t], d) ==> Comes(s', s'.threads[t], d)
    requires c < |s.ctxs| ==> OwedAt(s', c)
    ensures Owed(s')
  {
    hide WillRun, Comes;
    forall d | 0 <= d < |s'.ctxs| ensures OwedAt(s', d) {
      if d != c {
        assert OwedAt(s, d);
        OwedAtKeeps(s, s', t, c, d);
      }
    }
  }

  predicate Grabs(s: State, pc: Pc) { s.stopped || s.work || WillGrab(pc) }

  lemma SentFrame(s: State, s': State, t: Tid, c: Ctx)
    requires Moved(s, s', t, c) && Sent(s)
    requires s'.dispatch != [] ==> Grabs(s', s'.threads[t]) || (s.dispatch != [] && !Grabs(s, s.threads[t]))
    ensures Sent(s')
  {
    hide WillGrab;
    if s'.dispatch != [] && !Grabs(s', s'.threads[t]) {
      var u :| 0 <= u < |s.threads| && WillGrab(s.threads[u]);
      assert s'.threads[u] == s.threads[u];
    }
  }

  /** A place that is neither another thread's list nor another software queue. */
  predicate Near(p: Place, t: Tid, c: Ctx) {
    (p.Local? ==> p.t == t) && (p.Queued? ==> p.c == c)
  }

  lemma PlacesFrame(s: State, s': State, t: Tid, c: Ctx)
    requires Moved(s, s', t, c) && Places(s)
    requires forall r :: r in s.place ==> r in s'.place
    requires forall r :: r in s'.place ==>
      (r in s.place && s'.place[r] == s.place[r])
      || (Near(s'.place[r], t, c) && Real(s', s'.place[r]) && (r in s.place ==> Near(s.place[r], t, c)))
    requires Holds(s', LocalList(s'.threads[t]), Local(t))
    requires c < |s.ctxs| ==> Holds(s', s'.ctxs[c].list, Queued(c))
    requires Holds(s', s'.dispatch, Dispatch)
    ensures Places(s')
  {
    hide LocalList, Distinct;
    forall u | 0 <= u < |s'.threads| ensures Holds(s', LocalList(s'.threads[u]), Local(u)) {
      if u != t {
        assert Holds(s, LocalList(s.threads[u]), Local(u));
        assert forall r :: At(s', r, Local(u)) <==> At(s, r, Local(u));
      }
    }
    forall d | 0 <= d < |s'.ctxs| ensures Holds(s', s'.ctxs[d].list, Queued(d)) {
      if d != c {
        assert Holds(s, s.ctxs[d].list, Queued(d));
        assert forall r :: At(s', r, Queued(d)) <==> At(s, r, Queued(d));
      }
    }
  }

  /** The software queue a step of a thread at `pc` may change, or none. */
  function Touches(s: State, pc: Pc): Ctx {
    if pc.WantLock? || pc.Adding? || pc.TestBit? || pc.SetBit? || pc.Unlock? then pc.c
    else if pc.Scan? || pc.Found? || pc.Cleared? then pc.i
    else |s.ctxs|
  }

  // ---------------------------------------------------------------- an inserter's step

  lemma InsertStepMoves(s: State, t: Tid)
    requires t < |s.threads|
    ensures Moved(s, InsertStep(s, t), t, Touches(s, s.threads[t]))
  {
  }

  lemma InsertStepLocks(s: State, t: Tid)
    requires t < |s.threads| && Locks(s)
    ensures Locks(InsertStep(s, t))
  {
    var (pc, c) := (s.threads[t], Touches(s, s.threads[t]));
    assert LockIs(s, Holding(pc), t);
    InsertStepMoves(s, t);
    LocksFrame(s, InsertStep(s, t), t, c);
  }

  lemma InsertStepRange(s: State, t: Tid)
    requires t < |s.threads| && InRange(s)
    ensures InRange(InsertStep(s, t))
  {
    assert Names(s.threads[t], |s.ctxs|);
    InsertStepMoves(s, t);
    RangeFrame(s, InsertStep(s, t), t, Touches(s, s.threads[t]));
  }

  lemma InsertStepMarks(s: State, t: Tid)
    requires t < |s.threads| && Locks(s) && Marked(s)
    ensures Marked(InsertStep(s, t))
  {
    var (pc, c, s') := (s.threads[t], Touches(s, s.threads[t]), InsertStep(s, t));
    InsertStepMoves(s, t);
    assert LockIs(s, Holding(pc), t);
    if c < |s.ctxs| {
      assert MarkedAt(s, c);
      if pc.Adding? && pc.list != [] {
        assert Marking(s'.threads[t], c, s'.ctxs[c].lazy);
      } else if !s'.ctxs[c].pending {
        MarkedAtKeeps(s, s', t, c, c);
      }
    }
    MarkedFrame(s, s', t, c);
  }

  lemma InsertStepOwes(s: State, t: Tid)
    requires t < |s.threads| && Locks(s) && Owed(s)
    ensures Owed(InsertStep(s, t))
  {
    var (pc, c, s') := (s.threads[t], Touches(s, s.threads[t]), InsertStep(s, t));
    InsertStepMoves(s, t);
    assert LockIs(s, Holding(pc), t);
    if c < |s.ctxs| {
      assert OwedAt(s, c);
      if pc.Adding? && pc.run {
        assert WillRun(s'.threads[t], c);
      } else {
        OwedAtKeeps(s, s', t, c, c);
      }
    }
    OwedFrame(s, s', t, c);
  }

  lemma InsertStepSends(s: State, t: Tid)
    requires t < |s.threads| && Sent(s)
    ensures Sent(InsertStep(s, t))
  {
    InsertStepMoves(s, t);
    SentFrame(s, InsertStep(s, t), t, Touches(s, s.threads[t]));
  }

  lemma AddOneHolds(s: State, t: Tid)
    requires t < |s.threads| && Places(s)
    requires s.threads[t].Adding? && s.threads[t].c < |s.ctxs| && s.threads[t].list != []
    ensures var s' := InsertStep(s, t);
      && Holds(s', s.threads[t].list[1..], Local(t))
      && Holds(s', s'.ctxs[s.threads[t].c].list, Queued(s.threads[t].c))
      && Holds(s', s'.dispatch, Dispatch)
  {
    var (pc, s') := (s.threads[t], InsertStep(s, t));
    var c := pc.c;
    var (r, q, q') := (pc.list[0], s.ctxs[c].list, s'.ctxs[c].list);
    assert Holds(s, LocalList(pc), Local(t)) && Holds(s, q, Queued(c));
    assert r in LocalList(pc) && At(s, r, Local(t)) && r !in q;
    assert forall x :: x in q' <==> x == r || x in q;
    assert Distinct(q');
    assert forall x :: x in pc.list[1..] <==> x in pc.list && x != r by { DistinctTail(pc.list); }
    assert forall x, p :: x != r ==> (At(s', x, p) <==> At(s, x, p));
    assert At(s', r, Queued(c)) && r !in s.dispatch;
  }

  lemma DistinctTail(q: seq<Rq>)
    requires Distinct(q) && q != []
    ensures Distinct(q[1..])
    ensures forall x :: x in q[1..] <==> x in q && x != q[0]
  {
    forall x | x in q && x != q[0] ensures x in q[1..] {
      var i :| 0 <= i < |q| && q[i] == x;
      assert q[1..][i - 1] == x;
    }
  }

  lemma AddOnePlaces(s: State, t: Tid)
    requires t < |s.threads| && Places(s)
    requires s.threads[t].Adding? && s.threads[t].c < |s.ctxs| && s.threads[t].list != []
    ensures Places(InsertStep(s, t))
  {
    hide Distinct;
    var pc := s.threads[t];
    InsertStepMoves(s, t);
    AddOneHolds(s, t);
    assert Holds(s, LocalList(pc), Local(t));
    assert At(s, pc.list[0], Local(t)) by { assert pc.list[0] in LocalList(pc); }
    PlacesFrame(s, InsertStep(s, t), t, pc.c);
  }

  lemma InsertStepPlaces(s: State, t: Tid)
    requires t < |s.threads| && Locks(s) && Places(s)
    ensures Places(InsertStep(s, t))
  {
    hide Distinct, Places;
    var (pc, c, s') := (s.threads[t], Touches(s, s.threads[t]), InsertStep(s, t));
    assert LockIs(s, Holding(pc), t);
    if pc.Adding? && pc.list != [] {
      AddOnePlaces(s, t);
    } else {
      InsertStepMoves(s, t);
      PlacesSame(s, s', t, c);
    }
  }

  /** A step that moves no request. */
  lemma PlacesSame(s: State, s': State, t: Tid, c: Ctx)
    requires Moved(s, s', t, c) && Places(s)
    requires s'.place == s.place && s'.dispatch == s.dispatch
    requires LocalList(s'.threads[t]) == LocalList(s.threads[t])
    requires c < |s.ctxs| ==> s'.ctxs[c].list == s.ctxs[c].list
    ensures Places(s')
  {
    hide LocalList, Distinct;
    assert forall r, p :: At(s', r, p) <==> At(s, r, p);
    assert Holds(s, LocalList(s.threads[t]), Local(t));
    if c < |s.ctxs| { assert Holds(s, s.ctxs[c].list, Queued(c)); }
    PlacesFrame(s, s', t, c);
  }

  // ---------------------------------------------------------------- a runner collecting requests

  lemma CollectStepMoves(s: State, t: Tid)
    requires t < |s.threads|
    ensures Moved(s, CollectStep(s, t), t, Touches(s, s.threads[t]))
  {
  }

  lemma CollectStepLocks(s: State, t: Tid)
    requires t < |s.threads| && Locks(s)
    ensures Locks(CollectStep(s, t))
  {
    CollectStepMoves(s, t);
    LocksFrame(s, CollectStep(s, t), t, Touches(s, s.threads[t]));
  }

  lemma CollectStepRange(s: State, t: Tid)
    requires t < |s.threads| && InRange(s)
    ensures InRange(CollectStep(s, t))
  {
    assert Names(s.threads[t], |s.ctxs|);
    CollectStepMoves(s, t);
    RangeFrame(s, CollectStep(s, t), t, Touches(s, s.threads[t]));
  }

  lemma CollectStepMarks(s: State, t: Tid)
    requires t < |s.threads| && Locks(s) && Marked(s)
    ensures Marked(CollectStep(s, t))
  {
    var (pc, c, s') := (s.threads[t], Touches(s, s.threads[t]), CollectStep(s, t));
    CollectStepMoves(s, t);
    if c < |s.ctxs| {
      assert MarkedAt(s, c);
      if pc.Found? {
        assert s'.threads[t].Cleared? && s'.threads[t].i == c;
        assert SomeCleared(s', c);
      } else if !s'.ctxs[c].pending && s'.ctxs[c].list != [] {
        MarkedAtKeeps(s, s', t, c, c);
      }
    }
    MarkedFrame(s, s', t, c);
  }

  /** A runner that passes a clear bit leaves the queue to whoever cleared it or is about to set it. */
  lemma PassClearBit(s: State, t: Tid)
    requires t < |s.threads| && Marked(s) && Owed(s) && s.threads[t].Scan?
    requires s.threads[t].i < |s.ctxs| && !s.ctxs[s.threads[t].i].pending
    ensures OwedAt(CollectStep(s, t), s.threads[t].i)
  {
    var (c, s') := (s.threads[t].i, CollectStep(s, t));
    CollectStepMoves(s, t);
    assert MarkedAt(s, c) && OwedAt(s, c);
    if s'.ctxs[c].list != [] && !s'.ctxs[c].lazy {
      if SomeCleared(s, c) {
        var u :| 0 <= u < |s.threads| && s.threads[u].Cleared? && s.threads[u].i == c;
        assert WillRun(s'.threads[u], c);
      } else {
        var u :| 0 <= u < |s.threads| && Marking(s.threads[u], c, s.ctxs[c].lazy);
        assert Marking(s'.threads[u], c, s'.ctxs[c].lazy);
      }
    }
  }

  lemma CollectStepOwes(s: State, t: Tid)
    requires t < |s.threads| && Marked(s) && Owed(s)
    ensures Owed(CollectStep(s, t))
  {
    var (pc, c, s') := (s.threads[t], Touches(s, s.threads[t]), CollectStep(s, t));
    CollectStepMoves(s, t);
    if c < |s.ctxs| {
      assert OwedAt(s, c);
      if pc.Scan? && !s.ctxs[c].pending {
        PassClearBit(s, t);
      } else if s'.ctxs[c].list != [] {
        OwedAtKeeps(s, s', t, c, c);
      }
    }
    OwedFrame(s, s', t, c);
  }

  lemma CollectStepSends(s: State, t: Tid)
    requires t < |s.threads| && Sent(s)
    ensures Sent(CollectStep(s, t))
  {
    CollectStepMoves(s, t);
    SentFrame(s, CollectStep(s, t), t, Touches(s, s.threads[t]));
  }

  /** Joining two lists and giving both the place of the first. */
  lemma JoinHolds(s: State, s': State, a: seq<Rq>, b: seq<Rq>, p: Place, q: Place)
    requires Holds(s, a, p) && Holds(s, b, q) && p != q
    requires s'.place == PutAll(s.place, b, p)
    ensures Holds(s', a + b, p) && Holds(s', b + a, p) && Holds(s', [], q)
    ensures forall x, z :: z != p && z != q ==> (At(s', x, z) <==> At(s, x, z))
  {
    assert forall x :: x in b ==> At(s, x, q) && x !in a;
    assert forall x :: At(s', x, p) <==> x in a || x in b;
    DistinctJoin(a, b);
    DistinctJoin(b, a);
  }

  lemma DistinctJoin(a: seq<Rq>, b: seq<Rq>)
    requires Distinct(a) && Distinct(b) && forall x :: x in a ==> x !in b
    ensures Distinct(a + b)
    ensures forall x :: x in a + b <==> x in a || x in b
  {
    forall i, j | 0 <= i < j < |a + b| ensures (a + b)[i] != (a + b)[j] {
      if i < |a| <= j { assert a[i] in a && b[j - |a|] in b; }
    }
  }

  lemma SplicePlaces(s: State, t: Tid)
    requires t < |s.threads| && Places(s)
    requires s.threads[t].Cleared? && s.threads[t].i < |s.ctxs| && s.ctxs[s.threads[t].i].lock == None
    ensures Places(CollectStep(s, t))
  {
    hide Distinct;
    var (pc, s') := (s.threads[t], CollectStep(s, t));
    var c := pc.i;
    CollectStepMoves(s, t);
    assert Holds(s, LocalList(pc), Local(t)) && Holds(s, s.ctxs[c].list, Queued(c));
    assert s'.ctxs[c].list == [] && LocalList(s'.threads[t]) == pc.list + s.ctxs[c].list;
    JoinHolds(s, s', pc.list, s.ctxs[c].list, Local(t), Queued(c));
    assert forall r :: r in s.ctxs[c].list ==> At(s, r, Queued(c));
    PlacesFrame(s, s', t, c);
  }

  lemma GrabPlaces(s: State, t: Tid)
    requires t < |s.threads| && Places(s) && s.threads[t].Grab?
    ensures Places(CollectStep(s, t))
  {
    hide Distinct;
    var (pc, s', c) := (s.threads[t], CollectStep(s, t), |s.ctxs|);
    CollectStepMoves(s, t);
    assert Holds(s, LocalList(pc), Local(t));
    assert LocalList(s'.threads[t]) == s.dispatch + pc.list;
    JoinHolds(s, s', pc.list, s.dispatch, Local(t), Dispatch);
    assert forall r :: r in s.dispatch ==> At(s, r, Dispatch);
    PlacesFrame(s, s', t, c);
  }

  lemma CollectStepPlaces(s: State, t: Tid)
    requires t < |s.threads| && Places(s)
    ensures Places(CollectStep(s, t))
  {
    var (pc, c, s') := (s.threads[t], Touches(s, s.threads[t]), CollectStep(s, t));
    if pc.Grab? {
      GrabPlaces(s, t);
    } else if pc.Cleared? && c < |s.ctxs| && s.ctxs[c].lock == None {
      SplicePlaces(s, t);
    } else {
      CollectStepMoves(s, t);
      PlacesSame(s, s', t, c);
    }
  }

  // ---------------------------------------------------------------- a runner issuing requests

  lemma IssueStepMoves(s: State, t: Tid, answer: Answer, async: bool)
    requires t < |s.threads|
    ensures Moved(s, IssueStep(s, t, answer, async), t, |s.ctxs|)
  {
  }

  lemma IssueStepKeeps(s: State, t: Tid, answer: Answer, async: bool)
    requires t < |s.threads| && Locks(s) && Marked(s) && Owed(s) && Sent(s) && InRange(s)
    ensures var s' := IssueStep(s, t, answer, async);
      Locks(s') && Marked(s') && Owed(s') && Sent(s') && InRange(s')
  {
    var s' := IssueStep(s, t, answer, async);
    IssueStepMoves(s, t, answer, async);
    LocksFrame(s, s', t, |s.ctxs|);
    MarkedFrame(s, s', t, |s.ctxs|);
    OwedFrame(s, s', t, |s.ctxs|);
    SentFrame(s, s', t, |s.ctxs|);
    assert Names(s.threads[t], |s.ctxs|);
    RangeFrame(s, s', t, |s.ctxs|);
  }

  /** One request leaves the runner's list, for the driver or for good. */
  lemma IssuePlaces(s: State, t: Tid, answer: Answer, async: bool)
    requires t < |s.threads| && Places(s) && s.threads[t].Issue? && s.threads[t].list != [] && answer != Busy
    ensures Places(IssueStep(s, t, answer, async))
  {
    var (pc, s') := (s.threads[t], IssueStep(s, t, answer, async));
    var r := pc.list[0];
    IssueStepMoves(s, t, answer, async);
    assert Holds(s, LocalList(pc), Local(t));
    assert r in LocalList(pc) && At(s, r, Local(t));
    DistinctTail(pc.list);
    assert forall x, p :: x != r ==> (At(s', x, p) <==> At(s, x, p));
    PlacesFrame(s, s', t, |s.ctxs|);
  }

  lemma RequeuePlaces(s: State, t: Tid, answer: Answer, async: bool)
    requires t < |s.threads| && Places(s) && s.threads[t].Requeue?
    ensures Places(IssueStep(s, t, answer, async))
  {
    hide Distinct;
    var (pc, s') := (s.threads[t], IssueStep(s, t, answer, async));
    IssueStepMoves(s, t, answer, async);
    assert Holds(s, LocalList(pc), Local(t));
    JoinHolds(s, s', s.dispatch, pc.list, Dispatch, Local(t));
    assert forall r :: r in pc.list ==> At(s, r, Local(t));
    PlacesFrame(s, s', t, |s.ctxs|);
  }

  lemma IssueStepPlaces(s: State, t: Tid, answer: Answer, async: bool)
    requires t < |s.threads| && Places(s)
    ensures Places(IssueStep(s, t, answer, async))
  {
    var pc := s.threads[t];
    if pc.Requeue? {
      RequeuePlaces(s, t, answer, async);
    } else if pc.Issue? && pc.list != [] && answer != Busy {
      IssuePlaces(s, t, answer, async);
    } else {
      IssueStepMoves(s, t, answer, async);
      PlacesSame(s, IssueStep(s, t, answer, async), t, |s.ctxs|);
    }
  }

  // ---------------------------------------------------------------- calls from outside

  lemma ArriveHolds(s: State, s': State, rqs: seq<Rq>, p: Place)
    requires Holds(s, [], p) && Distinct(rqs) && forall r :: r in rqs ==> r !in s.place
    requires s'.place == PutAll(s.place, rqs, p)
    ensures Holds(s', rqs, p)
    ensures forall x, z :: z != p ==> (At(s', x, z) <==> At(s, x, z))
  {
    forall x ensures x in rqs <==> At(s', x, p) {
      assert x !in [] && !At(s, x, p);
    }
  }

  lemma InsertEventPlaces(s: State, t: Tid, c: Ctx, rqs: seq<Rq>, atHead: bool, run: bool)
    requires Places(s)
    ensures Places(Next(s, Insert(t, c, rqs, atHead, run)))
  {
    hide Distinct;
    var s' := Next(s, Insert(t, c, rqs, atHead, run));
    if s' != s {
      assert Holds(s, LocalList(s.threads[t]), Local(t));
      ArriveHolds(s, s', rqs, Local(t));
      PlacesFrame(s, s', t, |s.ctxs|);
    }
  }

  lemma InsertEventKeeps(s: State, t: Tid, c: Ctx, rqs: seq<Rq>, atHead: bool, run: bool)
    requires Inv(s)
    ensures Inv(Next(s, Insert(t, c, rqs, atHead, run)))
  {
    hide Places, Distinct;
    var s' := Next(s, Insert(t, c, rqs, atHead, run));
    InsertEventPlaces(s, t, c, rqs, atHead, run);
    if s' != s {
      LocksFrame(s, s', t, |s.ctxs|);
      MarkedFrame(s, s', t, |s.ctxs|);
      OwedFrame(s, s', t, |s.ctxs|);
      SentFrame(s, s', t, |s.ctxs|);
      RangeFrame(s, s', t, |s.ctxs|);
    }
  }

  lemma ControlPlaces(s: State, e: Event)
    requires Places(s) && Locks(s) && Marked(s) && (e.RunHwQueue? || e.Work? || e.Stop? || e.Start?)
    ensures Places(Next(s, e)) && Locks(Next(s, e)) && Marked(Next(s, e))
  {
    hide Places, Locks, Marked;
    var s' := Next(s, e);
    if s' != s {
      LocksFrame(s, s', e.t, |s.ctxs|);
      MarkedFrame(s, s', e.t, |s.ctxs|);
      PlacesSame(s, s', e.t, |s.ctxs|);
    }
  }

  lemma ControlOwes(s: State, e: Event)
    requires Owed(s) && Sent(s) && InRange(s) && (e.RunHwQueue? || e.Work? || e.Stop? || e.Start?)
    ensures Owed(Next(s, e)) && Sent(Next(s, e)) && InRange(Next(s, e))
  {
    hide Owed, Sent, InRange;
    var s' := Next(s, e);
    if s' != s {
      OwedFrame(s, s', e.t, |s.ctxs|);
      SentFrame(s, s', e.t, |s.ctxs|);
      RangeFrame(s, s', e.t, |s.ctxs|);
    }
  }

  lemma CompleteKeeps(s: State, r: Rq)
    requires Inv(s)
    ensures Inv(Next(s, Complete(r)))
  {
    var s' := Next(s, Complete(r));
    assert s'.threads == s.threads && s'.ctxs == s.ctxs;
    assert Places(s') by {
      assert forall x, p :: p != Driver && p != Ended ==> (At(s', x, p) <==> At(s, x, p));
    }
    assert Locks(s') by { LocksSame(s, s'); }
    assert Marked(s') && Owed(s') by { DebtsSame(s, s'); }
  }

  lemma LocksSame(s: State, s': State)
    requires s'.threads == s.threads && s'.ctxs == s.ctxs && Locks(s)
    ensures Locks(s')
  {
    forall t | 0 <= t < |s'.threads| ensures LockIs(s', Holding(s'.threads[t]), t) {
      assert LockIs(s, Holding(s.threads[t]), t);
    }
    forall c | 0 <= c < |s'.ctxs| ensures HolderIs(s', s'.ctxs[c].lock, c) {
      assert HolderIs(s, s.ctxs[c].lock, c);
    }
  }

  lemma DebtsSame(s: State, s': State)
    requires s'.threads == s.threads && s'.ctxs == s.ctxs && s'.stopped == s.stopped && s'.work == s.work
    requires Marked(s) && Owed(s)
    ensures Marked(s') && Owed(s')
  {
    hide WillRun, Marking;
    forall c | 0 <= c < |s'.ctxs| ensures MarkedAt(s', c) && OwedAt(s', c) {
      assert MarkedAt(s, c) && OwedAt(s, c);
    }
  }

  // ---------------------------------------------------------------- every run

  lemma NextKeeps(s: State, e: Event)
    requires Inv(s)
    ensures Inv(Next(s, e))
  {
    hide Places, Locks, Marked, Owed, Sent, InRange, InsertStep, CollectStep, IssueStep;
    match e {
      case Insert(t, c, rqs, atHead, run) => InsertEventKeeps(s, t, c, rqs, atHead, run);
      case InsertEv(t) =>
        if t < |s.threads| {
          InsertStepPlaces(s, t);
          InsertStepLocks(s, t);
          InsertStepMarks(s, t);
          InsertStepOwes(s, t);
          InsertStepSends(s, t);
          InsertStepRange(s, t);
        }
      case CollectEv(t) =>
        if t < |s.threads| {
          CollectStepPlaces(s, t);
          CollectStepLocks(s, t);
          CollectStepMarks(s, t);
          CollectStepOwes(s, t);
          CollectStepSends(s, t);
          CollectStepRange(s, t);
        }
      case IssueEv(t, answer, async) =>
        if t < |s.threads| {
          IssueStepPlaces(s, t, answer, async);
          IssueStepKeeps(s, t, answer, async);
        }
      case Complete(r) => CompleteKeeps(s, r);
      case _ =>
        ControlPlaces(s, e);
        ControlOwes(s, e);
    }
  }

  lemma InitInv(threads: nat, ctxs: nat)
    ensures Inv(Init(threads, ctxs))
  {
  }

  lemma {:induction false} RunKeeps(s: State, events: seq<Event>)
    requires Inv(s)
    ensures Inv(Run(s, events))
    decreases |events|
  {
    hide Inv, Next;
    if events != [] {
      NextKeeps(s, events[0]);
      RunKeeps(Next(s, events[0]), events[1..]);
    }
  }

  // ---------------------------------------------------------------- what it means

  ghost predicate Reachable(s: State) {
    exists threads: nat, ctxs: nat, events: seq<Event> :: s == Run(Init(threads, ctxs), events)
  }

  lemma ReachableInv(s: State)
    requires Reachable(s)
    ensures Inv(s)
  {
    hide Inv;
    var threads: nat, ctxs: nat, events: seq<Event> :| s == Run(Init(threads, ctxs), events);
    InitInv(threads, ctxs);
    RunKeeps(Init(threads, ctxs), events);
  }

  /** A non-empty software queue with a clear bit: a runner has cleared the bit and not yet spliced,
      or the holder of the lock has yet to set it. */
  lemma NoLostBit(s: State, c: Ctx)
    requires Reachable(s) && c < |s.ctxs| && s.ctxs[c].list != [] && !s.ctxs[c].pending
    ensures (exists t :: 0 <= t < |s.threads| && s.threads[t].Cleared? && s.threads[t].i == c)
         || (s.ctxs[c].lock.Some? && s.ctxs[c].lock.value < |s.threads|
             && var pc := s.threads[s.ctxs[c].lock.value];
                (pc.Adding? || pc.TestBit? || pc.SetBit?) && pc.c == c)
  {
    ReachableInv(s);
    assert MarkedAt(s, c);
    if !SomeCleared(s, c) {
      var t :| 0 <= t < |s.threads| && Marking(s.threads[t], c, s.ctxs[c].lazy);
      assert LockIs(s, Holding(s.threads[t]), t);
    }
  }

  /** No thread ever looks for a software queue that is not there. */
  lemma QueuesExist(s: State, t: Tid)
    requires Reachable(s) && t < |s.threads|
    ensures Names(s.threads[t], |s.ctxs|)
  {
    ReachableInv(s);
  }

  /** The list or the record that says `r` is at `p`. */
  predicate Home(s: State, r: Rq, p: Place) {
    match p
    case Local(t) => t < |s.threads| && r in LocalList(s.threads[t])
    case Queued(c) => c < |s.ctxs| && r in s.ctxs[c].list
    case Dispatch => r in s.dispatch
    case _ => r in s.place && s.place[r] == p
  }

  /** Every request ever handed in is in exactly one place, and no list holds one twice. */
  lemma OneHome(s: State)
    requires Reachable(s)
    ensures forall r :: r in s.place ==> Home(s, r, s.place[r])
    ensures forall r, p :: Home(s, r, p) ==> r in s.place && s.place[r] == p
    ensures forall t :: 0 <= t < |s.threads| ==> Distinct(LocalList(s.threads[t]))
    ensures forall c :: 0 <= c < |s.ctxs| ==> Distinct(s.ctxs[c].list)
    ensures Distinct(s.dispatch)
  {
    hide Distinct, LocalList, Locks, Marked, Owed, Sent;
    ReachableInv(s);
    forall r | r in s.place ensures Home(s, r, s.place[r]) {
      assert At(s, r, s.place[r]) && Real(s, s.place[r]);
    }
    forall r, p | Home(s, r, p) ensures r in s.place && s.place[r] == p {
      assert At(s, r, p);
    }
  }

  /** A request handed in is never forgotten, reaches the driver at most once and ends at most once. */
  lemma NextForward(s: State, e: Event, r: Rq)
    requires Inv(s) && r in s.place
    ensures var s' := Next(s, e);
      && r in s'.place
      && (s.place[r] == Ended ==> s'.place[r] == Ended)
      && (s.place[r] == Driver ==> s'.place[r] == Driver || s'.place[r] == Ended)
  {
    hide Locks, Marked, Owed, Sent, Distinct;
    var s' := Next(s, e);
    assert At(s, r, s.place[r]);
    if e.InsertEv? || e.CollectEv? || e.IssueEv? {
      if e.t < |s.threads| { StepForward(s, e, r); }
    }
  }

  lemma StepForward(s: State, e: Event, r: Rq)
    requires (e.InsertEv? || e.CollectEv? || e.IssueEv?) && e.t < |s.threads|
    requires Places(s) && r in s.place
    ensures r in Next(s, e).place
    ensures s.place[r] == Ended || s.place[r] == Driver ==> Next(s, e).place[r] == s.place[r]
  {
    hide Distinct;
    var pc := s.threads[e.t];
    assert Holds(s, LocalList(pc), Local(e.t));
    assert At(s, r, s.place[r]);
    var c := Touches(s, pc);
    if c < |s.ctxs| { assert Holds(s, s.ctxs[c].list, Queued(c)); }
    if s.place[r] == Ended || s.place[r] == Driver {
      assert r !in LocalList(pc) && r !in s.dispatch;
      if c < |s.ctxs| { assert r !in s.ctxs[c].list; }
    }
  }

  lemma {:induction false} RunForward(s: State, events: seq<Event>, r: Rq)
    requires Inv(s) && r in s.place
    ensures r in Run(s, events).place
    ensures s.place[r] == Ended ==> Run(s, events).place[r] == Ended
    ensures s.place[r] == Driver ==> Run(s, events).place[r] in {Driver, Ended}
    decreases |events|
  {
    hide Inv, Next;
    if events != [] {
      NextKeeps(s, events[0]);
      NextForward(s, events[0], r);
      RunForward(Next(s, events[0]), events[1..], r);
    }
  }

  /** When no thread is at work, no run is scheduled and the queue is not stopped, nothing waits:
      every request is with the driver or ended, unless it sits, marked pending, in a software queue
      into which some request was put without asking for a run. */
  lemma Quiescent(s: State, r: Rq)
    requires Reachable(s) && r in s.place
    requires (forall t :: 0 <= t < |s.threads| ==> s.threads[t] == Idle) && !s.work && !s.stopped
    ensures
      || s.place[r] == Driver
      || s.place[r] == Ended
      || (s.place[r].Queued? && s.place[r].c < |s.ctxs|
          && s.ctxs[s.place[r].c].lazy && s.ctxs[s.place[r].c].pending)
  {
    ReachableInv(s);
    OneHome(s);
    assert !GrabComing(s);
    match s.place[r] {
      case Queued(c) =>
        assert MarkedAt(s, c) && OwedAt(s, c);
        assert r in s.ctxs[c].list;
        assert !SomeCleared(s, c) && !AboutToMark(s, c);
      case _ =>
    }
  }
}
