/** struct deadline_data and the functions of block/deadline-iosched.c that update it in place. */
module DeadlineQueue {
  import opened Common
  import opened Deadline
  import opened DeadlineProofs
  import opened DeadlineOrder

  function Ix(d: Dir): nat { if d == Read then 0 else 1 }

  class DeadlineData {
    const cfg: Config
    var rqs: map<Id, Rq>
    const sort: array<seq<Id>>
    const fifo: array<seq<Id>>
    const next: array<Option<Id>>
    var batching: nat
    var starved: nat
    var clock: nat

    ghost predicate Valid()
      reads this, sort, fifo, next
    {
      sort.Length == 2 && fifo.Length == 2 && next.Length == 2 && sort != fifo
    }

    ghost function SideOf(d: Dir): Side
      requires Valid()
      reads this, sort, fifo, next
    {
      Side(sort[Ix(d)], fifo[Ix(d)], next[Ix(d)])
    }

    ghost function St(): State
      requires Valid()
      reads this, sort, fifo, next
    {
      State(rqs, SideOf(Read), SideOf(Write), batching, starved, clock)
    }

    constructor (cfg: Config)
      ensures Valid() && St() == Init && this.cfg == cfg && fresh(sort) && fresh(fifo) && fresh(next)
    {
      this.cfg := cfg;
      rqs, batching, starved, clock := map[], 0, 0, 0;
      sort := new seq<Id>[2](_ => []);
      fifo := new seq<Id>[2](_ => []);
      next := new Option<Id>[2](_ => None);
    }

    method Add(id: Id, sector: nat, d: Dir, now: nat)
      requires Valid() && id !in rqs
      modifies this, sort, fifo
      ensures Valid() && St() == AddRequest(cfg, old(St()), id, sector, d, now)
      ensures rqs == old(rqs)[id := Rq(sector, d, now + if d == Read then cfg.readExpire else cfg.writeExpire)]
      ensures fifo[Ix(d)] == old(fifo[Ix(d)]) + [id]
    {
      hide RbAdd;
      rqs := rqs[id := Rq(sector, d, now + Expire(cfg, d))];
      clock := now;
      sort[Ix(d)] := RbAdd(rqs, sort[Ix(d)], id);
      fifo[Ix(d)] := fifo[Ix(d)] + [id];
    }

    /** deadline_merged_request; `sector` is the new start of a front-merged request. */
    method Merged(id: Id, sector: nat, front: bool)
      requires Valid() && id in rqs
      modifies this, sort
      ensures Valid() && St() == if front then FrontMerged(old(St()), id, sector) else old(St())
      ensures rqs == if front then old(rqs)[id := old(rqs)[id].(sector := sector)] else old(rqs)
    {
      if front {
        var i := Ix(rqs[id].dir);
        rqs := rqs[id := rqs[id].(sector := sector)];
        sort[i] := Without(sort[i], id);
        sort[i] := RbAdd(rqs, sort[i], id);
      }
    }

    method RemoveIt(id: Id)
      requires Valid() && id in rqs
      modifies this, sort, fifo, next
      ensures Valid() && St() == RemoveRequest(old(St()), id)
    {
      var i := Ix(rqs[id].dir);
      fifo[i] := Without(fifo[i], id);
      if next[i] == Some(id) { next[i] := Latter(sort[i], id); }
      sort[i] := Without(sort[i], id);
      rqs := rqs - {id};
    }

    /** deadline_merged_requests. */
    method MergedTwo(req: Id, nxt: Id)
      requires Valid() && req in rqs && nxt in rqs && req != nxt && rqs[req].dir == rqs[nxt].dir
      modifies this, sort, fifo, next
      ensures Valid() && St() == MergedRequests(old(St()), req, nxt)
      ensures var (a, b) := (old(rqs)[req], old(rqs)[nxt]);
        rqs == old(rqs)[req := a.(fifoTime := if b.fifoTime < a.fifoTime then b.fifoTime else a.fifoTime)] - {nxt}
    {
      if rqs[nxt].fifoTime < rqs[req].fifoTime {
        var i := Ix(rqs[req].dir);
        fifo[i] := MoveAfter(fifo[i], req, nxt);
        rqs := rqs[req := rqs[req].(fifoTime := rqs[nxt].fifoTime)];
      }
      RemoveIt(nxt);
    }

    method Move(id: Id)
      requires Valid() && id in rqs
      modifies this, sort, fifo, next
      ensures Valid() && St() == MoveRequest(old(St()), id)
      ensures rqs == old(rqs) - {id} && next[1 - Ix(old(rqs)[id].dir)] == None
      ensures old(Lists(cfg, St())) ==> Follows(old(St()), old(rqs)[id].dir, id, next[Ix(old(rqs)[id].dir)])
    {
      hide SideOk, Follows;
      if Lists(cfg, St()) { MoveKeeps(cfg, St(), id); }
      var i := Ix(rqs[id].dir);
      next[0] := None;
      next[1] := None;
      next[i] := Latter(sort[i], id);
      RemoveIt(id);
    }

    /** deadline_check_fifo: whether any request of the fifo is due. */
    method Expired(d: Dir, now: nat) returns (expired: bool)
      requires Valid() && Lists(cfg, St()) && fifo[Ix(d)] != []
      ensures expired <==> exists id :: id in fifo[Ix(d)] && TimeOf(rqs, id) <= now
      ensures expired == CheckFifo(St(), d, now)
    {
      NamedQueued(cfg, St(), d);
      HeadIsEarliest(cfg, St(), d, now);
      expired := rqs[fifo[Ix(d)][0]].fifoTime <= now;
    }

    /** The end of deadline_dispatch_requests: a batch starts at the head of the fifo if any of its requests is due
        or there is nowhere to go on from, and otherwise goes on from where the last one stopped. */
    method StartBatch(d: Dir, now: nat) returns (id: Id)
      requires Valid() && Lists(cfg, St()) && fifo[Ix(d)] != []
      modifies this, sort, fifo, next
      ensures Valid() && id in old(rqs) && id == old(Pick(St(), d, now))
      ensures id == old(if next[Ix(d)].None? || exists x :: x in fifo[Ix(d)] && TimeOf(rqs, x) <= now
                        then fifo[Ix(d)][0] else next[Ix(d)].value)
      ensures St() == MoveRequest(old(St()).(batching := 1), id)
    {
      hide SideOk, MoveRequest;
      NamedQueued(cfg, St(), d);
      var expired := Expired(d, now);
      id := if expired || next[Ix(d)].None? then fifo[Ix(d)][0] else next[Ix(d)].value;
      batching := 1;
      Move(id);
    }

    /** deadline_dispatch_requests; `bug` says that one of its BUG_ONs would have fired. */
    method DispatchOne(now: nat) returns (r: Option<Id>, bug: bool)
      requires Valid() && Inv(cfg, St()) && now >= clock
      modifies this, sort, fifo, next
      ensures Valid() && Inv(cfg, St())
      ensures (St(), r) == Dispatch(cfg, old(St()), now) && !bug
      ensures r.Some? ==> r.value in old(rqs) && rqs == old(rqs) - {r.value}
      ensures r.Some? ==> Follows(old(St()), old(rqs)[r.value].dir, r.value, next[Ix(old(rqs)[r.value].dir)])
    {
      hide SideOk, Latter, Without, MoveRequest, Follows;
      ghost var s := St();
      DispatchKeeps(cfg, s, now);
      DispatchCases(cfg, s, now);
      DispatchFollows(cfg, s, now);
      SameRequests(cfg, s);
      bug := false;
      r := if next[1].Some? then next[1] else next[0];
      clock := now;
      if r.Some? && batching < cfg.batch {
        batching := batching + 1;
        Move(r.value);
        return;
      }
      var anyRead, anyWrite := fifo[0] != [], fifo[1] != [];
      if !anyRead && !anyWrite {
        r := None;
        return;
      }
      var d := Read;
      if anyRead {
        bug := bug || sort[0] == [];
        if anyWrite {
          if starved >= cfg.writesStarved { d := Write; }
          starved := starved + 1;
        }
      } else {
        d := Write;
      }
      if d == Write {
        bug := bug || sort[1] == [];
        starved := 0;
      }
      ghost var t := St();
      ClockKeeps(cfg, s, t);
      var id := StartBatch(d, now);
      r := Some(id);
    }

    /** A direction is empty in the one list exactly when it is in the other. */
    static lemma SameRequests(cfg: Config, s: State)
      requires Inv(cfg, s)
      ensures s.read.fifo == [] <==> s.read.sort == []
      ensures s.write.fifo == [] <==> s.write.sort == []
    {
      Empty(s.read.fifo, s.read.sort);
      Empty(s.write.fifo, s.write.sort);
    }

    static lemma Empty(a: seq<Id>, b: seq<Id>)
      requires forall id :: id in a <==> id in b
      ensures a == [] <==> b == []
    {
      if a != [] { assert a[0] in b; }
      if b != [] { assert b[0] in a; }
    }
  }
}
