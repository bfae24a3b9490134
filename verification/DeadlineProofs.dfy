/**
What the deadline scheduler keeps in every run: its two views of the queue agree and are ordered, the
head of a fifo decides whether anything has expired, and neither direction starves.
*/
module DeadlineProofs {
  import opened Common
  import opened Deadline

  // ---------------------------------------------------------------- invariant

  predicate BySector(rqs: map<Id, Rq>, list: seq<Id>) {
    forall i, j :: 0 <= i < j < |list| ==> SectorOf(rqs, list[i]) <= SectorOf(rqs, list[j])
  }

  predicate ByTime(rqs: map<Id, Rq>, list: seq<Id>) {
    forall i, j :: 0 <= i < j < |list| ==> TimeOf(rqs, list[i]) <= TimeOf(rqs, list[j])
  }

  /** `list` holds exactly the queued requests of direction `d`, once each. */
  ghost predicate Holds(rqs: map<Id, Rq>, d: Dir, list: seq<Id>) {
    Distinct(list) && forall id :: id in list <==> id in rqs && rqs[id].dir == d
  }

  ghost predicate SideOk(rqs: map<Id, Rq>, d: Dir, x: Side, latest: nat) {
    && Holds(rqs, d, x.sort) && Holds(rqs, d, x.fifo)
    && BySector(rqs, x.sort)
    && ByTime(rqs, x.fifo) && (forall id :: id in x.fifo ==> TimeOf(rqs, id) <= latest)
    && (x.next.Some? ==> x.next.value in x.sort)
  }

  ghost predicate Lists(cfg: Config, s: State) {
    && SideOk(s.rqs, Read, s.read, s.clock + cfg.readExpire)
    && SideOk(s.rqs, Write, s.write, s.clock + cfg.writeExpire)
  }

  ghost predicate Counters(cfg: Config, s: State) {
    && !(s.read.next.Some? && s.write.next.Some?)
    && s.starved <= cfg.writesStarved
    && (s.write.next.Some? ==> s.starved == 0)
    && (s.read.next.Some? || s.write.next.Some? ==> s.batching >= 1)
  }

  ghost predicate Inv(cfg: Config, s: State) { Lists(cfg, s) && Counters(cfg, s) }

  // ---------------------------------------------------------------- lists

  /** In a list without repetition, list_del takes out one place. */
  lemma {:induction false} WithoutAt(list: seq<Id>, id: Id)
    requires Distinct(list) && id in list
    ensures var k := IndexOf(list, id); Without(list, id) == list[..k] + list[k + 1..]
  {
    if list[0] == id {
      WithoutMembers(list[1..], id);
    } else {
      WithoutAt(list[1..], id);
      var k := IndexOf(list[1..], id);
      assert list[..k + 1] == [list[0]] + list[1..][..k];
    }
  }

  /** What is left of a list is what was there, in the same order. */
  lemma WithoutOrder(list: seq<Id>, id: Id, i: nat, j: nat) returns (p: nat, q: nat)
    requires Distinct(list) && i < j < |Without(list, id)|
    ensures p < q < |list| && list[p] == Without(list, id)[i] && list[q] == Without(list, id)[j]
    ensures list[p] != id && list[q] != id
  {
    hide Without, IndexOf;
    WithoutMembers(list, id);
    var r := Without(list, id);
    assert r[i] in r && r[j] in r;
    p, q := i, j;
    if id in list {
      var k := IndexOf(list, id);
      WithoutAt(list, id);
      p, q := if i < k then i else i + 1, if j < k then j else j + 1;
    }
  }

  lemma SectorsKept(rqs: map<Id, Rq>, rqs': map<Id, Rq>, list: seq<Id>, id: Id)
    requires Distinct(list) && BySector(rqs, list)
    requires forall x :: x in list && x != id ==> SectorOf(rqs', x) == SectorOf(rqs, x)
    ensures BySector(rqs', Without(list, id))
  {
    hide Without, Distinct;
    var r := Without(list, id);
    forall i, j | 0 <= i < j < |r| ensures SectorOf(rqs', r[i]) <= SectorOf(rqs', r[j]) {
      var p, q := WithoutOrder(list, id, i, j);
    }
  }

  lemma TimesKept(rqs: map<Id, Rq>, rqs': map<Id, Rq>, list: seq<Id>, id: Id)
    requires Distinct(list) && ByTime(rqs, list)
    requires forall x :: x in list && x != id ==> TimeOf(rqs', x) == TimeOf(rqs, x)
    ensures ByTime(rqs', Without(list, id))
  {
    hide Without, Distinct;
    var r := Without(list, id);
    forall i, j | 0 <= i < j < |r| ensures TimeOf(rqs', r[i]) <= TimeOf(rqs', r[j]) {
      var p, q := WithoutOrder(list, id, i, j);
    }
  }

  lemma InsertSpec(list: seq<Id>, k: nat, id: Id)
    requires Distinct(list) && id !in list && k <= |list|
    ensures var r := list[..k] + [id] + list[k..];
      && Distinct(r)
      && (forall x :: x in r <==> x in list || x == id)
  {
    var r := list[..k] + [id] + list[k..];
    assert r[k] == id;
    assert list == list[..k] + list[k..];
    forall i, j | 0 <= i < j < |r| ensures r[i] != r[j] {
      assert i != k ==> r[i] == list[if i < k then i else i - 1];
      assert j != k ==> r[j] == list[if j < k then j else j - 1];
    }
  }

  /** The position found splits a sorted list into what starts no later and what starts later. */
  lemma PositionSplits(rqs: map<Id, Rq>, list: seq<Id>, sector: nat)
    requires BySector(rqs, list)
    ensures forall i :: Position(rqs, list, sector) <= i < |list| ==> SectorOf(rqs, list[i]) > sector
  {
    hide SectorOf;
    var k := Position(rqs, list, sector);
    forall i | k <= i < |list| ensures SectorOf(rqs, list[i]) > sector {
      if i > k { assert SectorOf(rqs, list[k]) <= SectorOf(rqs, list[i]); }
    }
  }

  lemma RbAddSpec(rqs: map<Id, Rq>, list: seq<Id>, id: Id)
    requires Distinct(list) && id !in list && BySector(rqs, list)
    ensures Distinct(RbAdd(rqs, list, id)) && BySector(rqs, RbAdd(rqs, list, id))
    ensures forall x :: x in RbAdd(rqs, list, id) <==> x in list || x == id
  {
    hide SectorOf, Distinct, Position, BySector;
    var sector := SectorOf(rqs, id);
    var k := Position(rqs, list, sector);
    InsertSpec(list, k, id);
    PositionSplits(rqs, list, sector);
    InsertSorted(rqs, list, k, id);
  }

  lemma InsertSorted(rqs: map<Id, Rq>, list: seq<Id>, k: nat, id: Id)
    requires BySector(rqs, list) && k <= |list|
    requires forall i :: 0 <= i < k ==> SectorOf(rqs, list[i]) <= SectorOf(rqs, id)
    requires forall i :: k <= i < |list| ==> SectorOf(rqs, list[i]) > SectorOf(rqs, id)
    ensures BySector(rqs, list[..k] + [id] + list[k..])
  {
    hide SectorOf;
    var r := list[..k] + [id] + list[k..];
    forall i, j | 0 <= i < j < |r| ensures SectorOf(rqs, r[i]) <= SectorOf(rqs, r[j]) {
      InsertedAt(list, k, id, i);
      InsertedAt(list, k, id, j);
    }
  }

  lemma InsertedAt(list: seq<Id>, k: nat, id: Id, i: nat)
    requires k <= |list| && i <= |list|
    ensures var r := list[..k] + [id] + list[k..];
      r[i] == if i < k then list[i] else if i == k then id else list[i - 1]
  {
  }

  lemma LatterIn(list: seq<Id>, id: Id)
    ensures Latter(list, id).Some? ==> Latter(list, id).value in list
    ensures Distinct(list) && Latter(list, id).Some? ==> Latter(list, id).value != id
  {
  }

  lemma NotBefore(list: seq<Id>, id: Id)
    requires Distinct(list) && id in list
    ensures id !in list[..IndexOf(list, id)]
  {
  }

  lemma Shifted(l: seq<Id>, k: nat, req: Id)
    requires k < |l|
    ensures var m := l[..k + 1] + [req] + l[k + 1..];
      |m| == |l| + 1 && m[k] == l[k] && m[..k] == l[..k] && m[..k] + m[k + 1..] == l[k := req]
  {
    var m := l[..k + 1] + [req] + l[k + 1..];
    assert m[k + 1..] == [req] + l[k + 1..];
  }

  /** Moving `req` behind `next` and taking `next` out puts `req` in its place. */
  lemma TakeOver(list: seq<Id>, req: Id, next: Id)
    requires Distinct(list) && req in list && next in list && req != next
    ensures var l := Without(list, req);
      next in l && Without(MoveAfter(list, req, next), next) == l[IndexOf(l, next) := req]
  {
    WithoutMembers(list, req);
    MovedOut(Without(list, req), req, next);
  }

  lemma MovedOut(l: seq<Id>, req: Id, next: Id)
    requires Distinct(l) && next in l && req !in l
    ensures var k := IndexOf(l, next); Without(l[..k + 1] + [req] + l[k + 1..], next) == l[k := req]
  {
    hide IndexOf, Distinct, Without;
    var k := IndexOf(l, next);
    InsertSpec(l, k + 1, req);
    var m := l[..k + 1] + [req] + l[k + 1..];
    NotBefore(l, next);
    Shifted(l, k, req);
    forall i | 0 <= i < k ensures m[i] != next {
      assert m[i] == m[..k][i] && m[..k][i] in l[..k];
    }
    FirstIndex(m, next, k);
    WithoutAt(m, next);
  }

  lemma {:induction false} FirstIndex(list: seq<Id>, id: Id, k: nat)
    requires k < |list| && list[k] == id && forall i :: 0 <= i < k ==> list[i] != id
    ensures IndexOf(list, id) == k
    decreases k
  {
    if k > 0 { FirstIndex(list[1..], id, k - 1); }
  }

  // ---------------------------------------------------------------- one direction

  /** Two tables agree on direction `d`. */
  ghost predicate Agree(rqs: map<Id, Rq>, rqs': map<Id, Rq>, d: Dir) {
    forall id ::
      && (id in rqs && rqs[id].dir == d <==> id in rqs' && rqs'[id].dir == d)
      && (id in rqs && rqs[id].dir == d ==> rqs'[id] == rqs[id])
  }

  lemma SideSame(rqs: map<Id, Rq>, rqs': map<Id, Rq>, d: Dir, x: Side, latest: nat, latest': nat)
    requires SideOk(rqs, d, x, latest) && Agree(rqs, rqs', d) && latest <= latest'
    ensures SideOk(rqs', d, x, latest')
  {
    hide Distinct;
    forall i | 0 <= i < |x.sort| ensures SectorOf(rqs', x.sort[i]) == SectorOf(rqs, x.sort[i]) {
      assert x.sort[i] in x.sort;
    }
    forall i | 0 <= i < |x.fifo| ensures TimeOf(rqs', x.fifo[i]) == TimeOf(rqs, x.fifo[i]) {
      assert x.fifo[i] in x.fifo;
    }
  }

  lemma SideRemove(rqs: map<Id, Rq>, d: Dir, x: Side, latest: nat, id: Id, next: Option<Id>)
    requires SideOk(rqs, d, x, latest) && id in rqs && rqs[id].dir == d
    requires next.Some? ==> next.value in x.sort && next.value != id
    ensures SideOk(rqs - {id}, d, Side(Without(x.sort, id), Without(x.fifo, id), next), latest)
  {
    hide Distinct, Without, BySector, ByTime;
    var rqs' := rqs - {id};
    WithoutMembers(x.sort, id);
    WithoutMembers(x.fifo, id);
    SectorsKept(rqs, rqs', x.sort, id);
    TimesKept(rqs, rqs', x.fifo, id);
  }

  lemma SideAdd(rqs: map<Id, Rq>, d: Dir, x: Side, latest: nat, id: Id, r: Rq)
    requires SideOk(rqs, d, x, latest) && id !in rqs && r.dir == d && r.fifoTime >= latest
    ensures var rqs' := rqs[id := r];
      SideOk(rqs', d, x.(sort := RbAdd(rqs', x.sort, id), fifo := x.fifo + [id]), r.fifoTime)
  {
    hide Distinct, RbAdd;
    var rqs' := rqs[id := r];
    assert forall y :: y in x.sort ==> y != id && SectorOf(rqs', y) == SectorOf(rqs, y);
    assert forall y :: y in x.fifo ==> y != id && TimeOf(rqs', y) == TimeOf(rqs, y);
    RbAddSpec(rqs', x.sort, id);
    DistinctAppend(x.fifo, id);
    var f := x.fifo + [id];
    forall i, j | 0 <= i < j < |f| ensures TimeOf(rqs', f[i]) <= TimeOf(rqs', f[j]) {
      assert x.fifo[i] in x.fifo;
    }
  }

  lemma SideFront(rqs: map<Id, Rq>, d: Dir, x: Side, latest: nat, id: Id, sector: nat)
    requires SideOk(rqs, d, x, latest) && id in rqs && rqs[id].dir == d
    ensures var rqs' := rqs[id := rqs[id].(sector := sector)];
      SideOk(rqs', d, x.(sort := RbAdd(rqs', Without(x.sort, id), id)), latest)
  {
    hide Distinct, RbAdd, Without, BySector;
    var rqs' := rqs[id := rqs[id].(sector := sector)];
    WithoutMembers(x.sort, id);
    SectorsKept(rqs, rqs', x.sort, id);
    RbAddSpec(rqs', Without(x.sort, id), id);
    assert forall y :: TimeOf(rqs', y) == TimeOf(rqs, y);
  }

  /** `req` takes the deadline and the place of `next`. */
  lemma SideTakeOver(rqs: map<Id, Rq>, d: Dir, x: Side, latest: nat, req: Id, next: Id, n: Option<Id>)
    requires SideOk(rqs, d, x, latest) && req != next
    requires req in rqs && rqs[req].dir == d && next in rqs && rqs[next].dir == d
    requires n.Some? ==> n.value in x.sort && n.value != next
    ensures var rqs' := rqs[req := rqs[req].(fifoTime := rqs[next].fifoTime)] - {next};
      SideOk(rqs', d, Side(Without(x.sort, next), Without(MoveAfter(x.fifo, req, next), next), n), latest)
  {
    hide Distinct, Without, MoveAfter, IndexOf, BySector;
    var rqs' := rqs[req := rqs[req].(fifoTime := rqs[next].fifoTime)] - {next};
    WithoutMembers(x.sort, next);
    SectorsKept(rqs, rqs', x.sort, next);
    TakeOver(x.fifo, req, next);
    FifoTakeOver(rqs, rqs', d, x.fifo, latest, req, next);
  }

  lemma FifoTakeOver(rqs: map<Id, Rq>, rqs': map<Id, Rq>, d: Dir, fifo: seq<Id>, latest: nat, req: Id, next: Id)
    requires Holds(rqs, d, fifo) && ByTime(rqs, fifo) && (forall id :: id in fifo ==> TimeOf(rqs, id) <= latest)
    requires req in fifo && next in fifo && req != next
    requires rqs' == rqs[req := rqs[req].(fifoTime := rqs[next].fifoTime)] - {next}
    ensures var l := Without(fifo, req);
      next in l && (var f := l[IndexOf(l, next) := req];
        Holds(rqs', d, f) && ByTime(rqs', f) && forall id :: id in f ==> TimeOf(rqs', id) <= latest)
  {
    hide Distinct, Without, IndexOf, ByTime;
    WithoutMembers(fifo, req);
    TimesKept(rqs, rqs, fifo, req);
    var l := Without(fifo, req);
    ReplaceAt(l, IndexOf(l, next), req);
    TimesTakeOver(rqs, rqs', l, latest, req, IndexOf(l, next));
  }

  lemma TimesTakeOver(rqs: map<Id, Rq>, rqs': map<Id, Rq>, l: seq<Id>, latest: nat, req: Id, k: nat)
    requires Distinct(l) && req !in l && k < |l| && ByTime(rqs, l)
    requires req in rqs && forall id :: id in l ==> id in rqs && TimeOf(rqs, id) <= latest
    requires rqs' == rqs[req := rqs[req].(fifoTime := rqs[l[k]].fifoTime)] - {l[k]}
    ensures ByTime(rqs', l[k := req]) && forall id :: id in l[k := req] ==> TimeOf(rqs', id) <= latest
  {
    var f := l[k := req];
    forall i | 0 <= i < |f| ensures TimeOf(rqs', f[i]) == TimeOf(rqs, l[i]) && l[i] in l {
      assert l[i] in l && l[k] in l;
      assert i != k ==> l[i] != l[k] && l[i] != req;
    }
  }

  lemma ReplaceAt(l: seq<Id>, k: nat, req: Id)
    requires Distinct(l) && k < |l| && req !in l
    ensures Distinct(l[k := req])
    ensures forall y :: y in l[k := req] <==> y == req || (y in l && y != l[k])
  {
    var f := l[k := req];
    assert f[k] == req;
    forall y | y in l && y != l[k] ensures y in f {
      var i :| 0 <= i < |l| && l[i] == y;
      assert f[i] == y;
    }
    forall y | y in f ensures y == req || (y in l && y != l[k]) {
      var i :| 0 <= i < |f| && f[i] == y;
      assert i != k ==> l[i] == y;
    }
  }

  // ---------------------------------------------------------------- operations

  function Other(d: Dir): Dir { if d == Read then Write else Read }

  lemma ListsFrom(cfg: Config, s: State, d: Dir)
    requires SideOk(s.rqs, d, On(s, d), s.clock + Expire(cfg, d))
    requires SideOk(s.rqs, Other(d), On(s, Other(d)), s.clock + Expire(cfg, Other(d)))
    ensures Lists(cfg, s)
  {
  }

  lemma ListsTo(cfg: Config, s: State, d: Dir)
    requires Lists(cfg, s)
    ensures SideOk(s.rqs, d, On(s, d), s.clock + Expire(cfg, d))
    ensures SideOk(s.rqs, Other(d), On(s, Other(d)), s.clock + Expire(cfg, Other(d)))
  {
  }

  lemma AddKeeps(cfg: Config, s: State, id: Id, sector: nat, d: Dir, now: nat)
    requires Inv(cfg, s) && id !in s.rqs && now >= s.clock
    ensures Inv(cfg, AddRequest(cfg, s, id, sector, d, now))
  {
    hide SideOk, RbAdd;
    var s' := AddRequest(cfg, s, id, sector, d, now);
    ListsTo(cfg, s, d);
    SideAdd(s.rqs, d, On(s, d), s.clock + Expire(cfg, d), id, s'.rqs[id]);
    SideSame(s.rqs, s'.rqs, Other(d), On(s, Other(d)), s.clock + Expire(cfg, Other(d)), now + Expire(cfg, Other(d)));
    ListsFrom(cfg, s', d);
  }

  lemma FrontKeeps(cfg: Config, s: State, id: Id, sector: nat)
    requires Inv(cfg, s) && id in s.rqs
    ensures Inv(cfg, FrontMerged(s, id, sector))
  {
    hide SideOk, RbAdd, Without;
    var (d, s') := (s.rqs[id].dir, FrontMerged(s, id, sector));
    ListsTo(cfg, s, d);
    SideFront(s.rqs, d, On(s, d), s.clock + Expire(cfg, d), id, sector);
    var late := s.clock + Expire(cfg, Other(d));
    SideSame(s.rqs, s'.rqs, Other(d), On(s, Other(d)), late, late);
    ListsFrom(cfg, s', d);
  }

  lemma SortHas(cfg: Config, s: State, id: Id)
    requires Lists(cfg, s) && id in s.rqs
    ensures id in On(s, s.rqs[id].dir).sort && Distinct(On(s, s.rqs[id].dir).sort)
    ensures On(s, s.rqs[id].dir).next.Some? ==> On(s, s.rqs[id].dir).next.value in On(s, s.rqs[id].dir).sort
  {
  }

  lemma RemoveKeeps(cfg: Config, s: State, id: Id)
    requires Lists(cfg, s) && id in s.rqs
    ensures Lists(cfg, RemoveRequest(s, id))
  {
    hide SideOk, Without, Latter, Distinct;
    var (d, s') := (s.rqs[id].dir, RemoveRequest(s, id));
    ListsTo(cfg, s, d);
    SortHas(cfg, s, id);
    LatterIn(On(s, d).sort, id);
    SideRemove(s.rqs, d, On(s, d), s.clock + Expire(cfg, d), id, On(s', d).next);
    var late := s.clock + Expire(cfg, Other(d));
    SideSame(s.rqs, s'.rqs, Other(d), On(s, Other(d)), late, late);
    ListsFrom(cfg, s', d);
  }

  lemma MergedKeeps(cfg: Config, s: State, req: Id, next: Id)
    requires Inv(cfg, s) && req in s.rqs && next in s.rqs && req != next && s.rqs[req].dir == s.rqs[next].dir
    ensures Inv(cfg, MergedRequests(s, req, next))
  {
    hide SideOk, Without, Latter, MoveAfter, Distinct;
    var (d, s') := (s.rqs[req].dir, MergedRequests(s, req, next));
    if s.rqs[next].fifoTime < s.rqs[req].fifoTime {
      ListsTo(cfg, s, d);
      SortHas(cfg, s, next);
      LatterIn(On(s, d).sort, next);
      SideTakeOver(s.rqs, d, On(s, d), s.clock + Expire(cfg, d), req, next, On(s', d).next);
      var late := s.clock + Expire(cfg, Other(d));
      SideSame(s.rqs, s'.rqs, Other(d), On(s, Other(d)), late, late);
      ListsFrom(cfg, s', d);
    } else {
      RemoveKeeps(cfg, s, next);
    }
  }

  lemma ClearNext(rqs: map<Id, Rq>, d: Dir, x: Side, latest: nat, next: Option<Id>)
    requires SideOk(rqs, d, x, latest) && (next.Some? ==> next.value in x.sort)
    ensures SideOk(rqs, d, x.(next := next), latest)
  {
  }

  /** What moving a request to the dispatch queue does to next_rq. */
  /** `y` is a queued request of direction `d` other than `id`. */
  predicate Queued(s: State, d: Dir, id: Id, y: Id) { y in s.rqs && s.rqs[y].dir == d && y != id }

  /** `next` comes after `id` in sector order and nothing lies between; nothing if nothing comes after. */
  ghost predicate Follows(s: State, d: Dir, id: Id, next: Option<Id>)
    requires id in s.rqs
  {
    match next
    case None => forall y :: Queued(s, d, id, y) ==> s.rqs[y].sector <= s.rqs[id].sector
    case Some(x) =>
      && Queued(s, d, id, x) && s.rqs[id].sector <= s.rqs[x].sector
      && forall y :: Queued(s, d, id, y) ==> !(s.rqs[id].sector < s.rqs[y].sector < s.rqs[x].sector)
  }

  lemma LatterFollows(cfg: Config, s: State, id: Id)
    requires Lists(cfg, s) && id in s.rqs
    ensures Follows(s, s.rqs[id].dir, id, Latter(On(s, s.rqs[id].dir).sort, id))
  {
    var d := s.rqs[id].dir;
    var list := On(s, d).sort;
    var k := IndexOf(list, id);
    forall y | Queued(s, d, id, y)
      ensures if k + 1 < |list| then !(s.rqs[id].sector < s.rqs[y].sector < s.rqs[list[k + 1]].sector)
              else s.rqs[y].sector <= s.rqs[id].sector
    {
      var i :| 0 <= i < |list| && list[i] == y;
      if i < k { assert SectorOf(s.rqs, list[i]) <= SectorOf(s.rqs, list[k]); }
      if k + 1 < i { assert SectorOf(s.rqs, list[k + 1]) <= SectorOf(s.rqs, list[i]); }
    }
    if k + 1 < |list| { assert SectorOf(s.rqs, list[k]) <= SectorOf(s.rqs, list[k + 1]) && list[k + 1] in list; }
  }

  lemma MoveKeeps(cfg: Config, s: State, id: Id)
    requires Lists(cfg, s) && id in s.rqs
    ensures var (d, s') := (s.rqs[id].dir, MoveRequest(s, id));
      && Lists(cfg, s')
      && On(s', d).next == Latter(On(s, d).sort, id) && On(s', Other(d)).next == None
      && Follows(s, d, id, On(s', d).next)
      && On(s', Other(d)).fifo == On(s, Other(d)).fifo
      && s'.batching == s.batching && s'.starved == s.starved && s'.clock == s.clock
  {
    hide SideOk, Without, Latter, Distinct, Follows;
    var d := s.rqs[id].dir;
    ListsTo(cfg, s, d);
    SortHas(cfg, s, id);
    LatterIn(On(s, d).sort, id);
    LatterFollows(cfg, s, id);
    var s1 := s.(read := s.read.(next := None), write := s.write.(next := None));
    var s2 := Put(s1, d, On(s1, d).(next := Latter(On(s, d).sort, id)));
    ClearNext(s.rqs, d, On(s, d), s.clock + Expire(cfg, d), Latter(On(s, d).sort, id));
    ClearNext(s.rqs, Other(d), On(s, Other(d)), s.clock + Expire(cfg, Other(d)), None);
    ListsFrom(cfg, s2, d);
    RemoveKeeps(cfg, s2, id);
  }

  lemma ClockKeeps(cfg: Config, s: State, s': State)
    requires Lists(cfg, s) && s'.rqs == s.rqs && s'.read == s.read && s'.write == s.write && s'.clock >= s.clock
    ensures Lists(cfg, s')
  {
    hide SideOk;
    assert Agree(s.rqs, s.rqs, Read) && Agree(s.rqs, s.rqs, Write);
    SideSame(s.rqs, s.rqs, Read, s.read, s.clock + cfg.readExpire, s'.clock + cfg.readExpire);
    SideSame(s.rqs, s.rqs, Write, s.write, s.clock + cfg.writeExpire, s'.clock + cfg.writeExpire);
  }

  /** Every request a selection can name is queued, in the direction of the list that names it. */
  lemma NamedQueued(cfg: Config, s: State, d: Dir)
    requires Lists(cfg, s)
    ensures On(s, d).next.Some? ==> On(s, d).next.value in s.rqs && s.rqs[On(s, d).next.value].dir == d
    ensures On(s, d).fifo != [] ==> On(s, d).fifo[0] in s.rqs && s.rqs[On(s, d).fifo[0]].dir == d
  {
    if On(s, d).fifo != [] { assert On(s, d).fifo[0] in On(s, d).fifo; }
  }

  /** The first request of the fifo speaks for all of them: it is due if any is. */
  lemma HeadIsEarliest(cfg: Config, s: State, d: Dir, now: nat)
    requires Lists(cfg, s) && On(s, d).fifo != []
    ensures CheckFifo(s, d, now) <==> exists id :: id in On(s, d).fifo && TimeOf(s.rqs, id) <= now
  {
    var fifo := On(s, d).fifo;
    if CheckFifo(s, d, now) {
      assert fifo[0] in fifo;
    } else {
      forall id | id in fifo ensures TimeOf(s.rqs, id) > now {
        var i :| 0 <= i < |fifo| && fifo[i] == id;
        assert TimeOf(s.rqs, fifo[0]) <= TimeOf(s.rqs, fifo[i]);
      }
    }
  }

  /** What a dispatch does: it goes on with the batch, or starts one in the direction chosen, or there
      is nothing to do. */
  lemma DispatchCases(cfg: Config, s: State, now: nat)
    requires Inv(cfg, s)
    ensures var (s', r) := Dispatch(cfg, s, now);
      && (InBatch(cfg, s) ==>
            r == NextRq(s) && r.value in s.rqs
            && s' == MoveRequest(s.(batching := s.batching + 1, clock := now), r.value))
      && (!InBatch(cfg, s) && Choose(cfg, s).0.Some? ==>
            var d := Choose(cfg, s).0.value;
            On(s, d).fifo != [] && r == Some(Pick(s, d, now)) && r.value in s.rqs && s.rqs[r.value].dir == d
            && s' == MoveRequest(s.(starved := Choose(cfg, s).1, batching := 1, clock := now), r.value))
      && (!InBatch(cfg, s) && Choose(cfg, s).0.None? ==> r == None && s' == s.(clock := now))
  {
    hide MoveRequest, SideOk;
    NamedQueued(cfg, s, Read);
    NamedQueued(cfg, s, Write);
  }

  lemma DispatchKeeps(cfg: Config, s: State, now: nat)
    requires Inv(cfg, s) && now >= s.clock
    ensures Inv(cfg, Dispatch(cfg, s, now).0)
  {
    hide MoveRequest, SideOk, Dispatch, Lists;
    DispatchCases(cfg, s, now);
    NamedQueued(cfg, s, Read);
    NamedQueued(cfg, s, Write);
    if InBatch(cfg, s) {
      var t := s.(batching := s.batching + 1, clock := now);
      ClockKeeps(cfg, s, t);
      MoveKeeps(cfg, t, NextRq(s).value);
    } else if Choose(cfg, s).0.Some? {
      var t := s.(starved := Choose(cfg, s).1, batching := 1, clock := now);
      ClockKeeps(cfg, s, t);
      MoveKeeps(cfg, t, Pick(s, Choose(cfg, s).0.value, now));
    } else {
      ClockKeeps(cfg, s, s.(clock := now));
    }
  }

  lemma NextKeeps(cfg: Config, s: State, e: Event)
    requires Inv(cfg, s)
    ensures Inv(cfg, Next(cfg, s, e))
  {
    hide Inv, AddRequest, FrontMerged, MergedRequests, Dispatch;
    if Enabled(s, e) {
      match e {
        case Add(id, sector, d, now) => AddKeeps(cfg, s, id, sector, d, now);
        case FrontMerge(id, sector) => FrontKeeps(cfg, s, id, sector);
        case MergeRequests(req, next) => MergedKeeps(cfg, s, req, next);
        case Issue(now) => DispatchKeeps(cfg, s, now);
      }
    }
  }

  lemma {:induction false} RunKeeps(cfg: Config, s: State, events: seq<Event>)
    requires Inv(cfg, s)
    ensures Inv(cfg, Run(cfg, s, events))
    decreases |events|
  {
    hide Inv, Next;
    if events != [] {
      NextKeeps(cfg, s, events[0]);
      RunKeeps(cfg, Next(cfg, s, events[0]), events[1..]);
    }
  }
}
