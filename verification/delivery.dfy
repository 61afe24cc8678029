/** `Deliverer.Process` run from its first call to its last, and the drain it leads
    to: the attempts still owed form a measure that every finalising write lowers. */
module Delivery {
  import opened Domain
  import opened Ledger
  import opened Program
  import opened Lifecycle
  import opened Preservation
  import Arith
  import Backoff
  import Keyset
  import Recovery
  import Store

  // ---- the attempts still owed ----------------------------------------------------

  function Owed(max: int, r: Row): nat {
    if r.status.Pending? && r.attempt <= max then max - r.attempt + 1 else 0
  }

  ghost function OwedIn(max: int, rows: Rows, ids: set<RowId>): nat
    requires ids <= rows.Keys
  {
    if ids == {} then 0
    else
      var id :| id in ids;
      Owed(max, rows[id]) + OwedIn(max, rows, ids - {id})
  }

  ghost function Work(max: int, rows: Rows): nat {
    OwedIn(max, rows, rows.Keys)
  }

  lemma {:induction false} TakeOut(max: int, rows: Rows, ids: set<RowId>, x: RowId)
    requires ids <= rows.Keys && x in ids
    ensures OwedIn(max, rows, ids) == Owed(max, rows[x]) + OwedIn(max, rows, ids - {x})
    decreases ids
  {
    var y :| y in ids && OwedIn(max, rows, ids) == Owed(max, rows[y]) + OwedIn(max, rows, ids - {y});
    if y != x {
      TakeOut(max, rows, ids - {y}, x);
      TakeOut(max, rows, ids - {x}, y);
      assert ids - {y} - {x} == ids - {x} - {y};
    }
  }

  lemma {:induction false} SameRowsOwe(max: int, rows: Rows, rows': Rows, ids: set<RowId>)
    requires ids <= rows.Keys && ids <= rows'.Keys
    requires forall id :: id in ids ==> rows[id] == rows'[id]
    ensures OwedIn(max, rows, ids) == OwedIn(max, rows', ids)
    decreases ids
  {
    if ids != {} {
      var y :| y in ids;
      TakeOut(max, rows, ids, y);
      TakeOut(max, rows', ids, y);
      SameRowsOwe(max, rows, rows', ids - {y});
    }
  }

  lemma OneRowOwes(max: int, rows: Rows, id: RowId, r: Row)
    ensures Work(max, rows[id := r]) ==
            Work(max, rows) + Owed(max, r) - (if id in rows then Owed(max, rows[id]) else 0)
  {
    var rows' := rows[id := r];
    TakeOut(max, rows', rows'.Keys, id);
    SameRowsOwe(max, rows, rows', rows.Keys - {id});
    assert rows'.Keys - {id} == rows.Keys - {id};
    if id in rows {
      TakeOut(max, rows, rows.Keys, id);
    } else {
      assert rows.Keys - {id} == rows.Keys;
    }
  }

  // ---- one uninterrupted run --------------------------------------------------------

  /** What the world answers during one run: the semaphore, the breaker, the receiver,
      the random source and the database's next id. */
  datatype World = World(permit: bool, admit: bool, reply: Reply, draw: nat, succ: RowId)

  const CONCURRENCY_BACKOFF: Time := 3 * SECOND

  predicate DueAt(db: Db, id: RowId) {
    id in db.rows && Due(db.rows[id], db.now)
  }

  /** When a denied run tries again. */
  function DeniedUntil(c: Config, world: World, now: Time): Time {
    now + if !world.permit then CONCURRENCY_BACKOFF else c.breakerReset
  }

  /** When a failed attempt is retried. */
  function RetryAt(c: Config, attempt: int, draw: nat, now: Time): Time {
    now + Backoff.Jittered(Backoff.Capped(attempt, c.retryBase, c.retryMax), draw)
  }

  /** The tables after the write a run makes from this point. */
  function Written(c: Config, db: Db, pc: Pc, at: Time, succ: RowId): Db {
    match pc
    case Denied(log, _, _, until) => Store.Rescheduled(db, log.id, until).0
    case Settling(log, _, _, reply) =>
      if Is2xx(reply) then Store.MarkSuccess(db, log.id, log.sub, reply.http.value).0
      else if log.attempt < c.maxAttempts then
        Store.FailAndScheduleRetry(db, log.id, reply.http, reply.detail, at, succ).0
      else Store.FinalizeFailure(db, log.id, log.sub, reply.http, reply.detail, c.disableThreshold).0
    case _ => db
  }

  /** The tables after a run whose claim has been won. */
  function AfterClaim(c: Config, db: Db, id: RowId, world: World): Db
    requires Store.IsPending(db, id)
  {
    var row := db.rows[id];
    if row.sub !in db.subs then db
    else if !db.subs[row.sub].active then Store.MarkDropped(db, id, "subscription deactivated").0
    else if !world.permit || !world.admit then Store.Rescheduled(db, id, DeniedUntil(c, world, db.now)).0
    else if Is2xx(world.reply) then Store.MarkSuccess(db, id, row.sub, world.reply.http.value).0
    else if row.attempt < c.maxAttempts then
      Store.FailAndScheduleRetry(db, id, world.reply.http, world.reply.detail,
                                 RetryAt(c, row.attempt, world.draw, db.now), world.succ).0
    else Store.FinalizeFailure(db, id, row.sub, world.reply.http, world.reply.detail, c.disableThreshold).0
  }

  /** The tables after a run that found its row due. */
  function AfterRun(c: Config, db: Db, id: RowId, world: World): Db
    requires DueAt(db, id)
  {
    AfterClaim(c, Store.ClaimPending(db, id, c.lease).0, id, world)
  }

  /** A run that was not denied lowers the owed attempts; a denied one keeps them,
      and the row keeps its attempt number. */
  lemma RunLowersWork(c: Config, db: Db, id: RowId, world: World)
    requires DueAt(db, id) && db.rows[id].sub in db.subs && 1 <= db.rows[id].attempt <= c.maxAttempts
    requires world.succ !in db.rows
    ensures var db' := AfterRun(c, db, id, world);
            if db.subs[db.rows[id].sub].active && !(world.permit && world.admit)
            then
              Work(c.maxAttempts, db'.rows) == Work(c.maxAttempts, db.rows)
              && Store.IsPending(db', id) && db'.rows[id].attempt == db.rows[id].attempt
            else Work(c.maxAttempts, db'.rows) < Work(c.maxAttempts, db.rows)
  {
    var max := c.maxAttempts;
    var held := Store.ClaimPending(db, id, c.lease).0;
    var db' := AfterRun(c, db, id, world);
    OneRowOwes(max, db.rows, id, held.rows[id]);
    if Is2xx(world.reply) || db.rows[id].attempt == max || !db.subs[db.rows[id].sub].active
       || !(world.permit && world.admit) {
      assert db'.rows == held.rows[id := db'.rows[id]];
      OneRowOwes(max, held.rows, id, db'.rows[id]);
    } else {
      var failed := held.rows[id := db'.rows[id]];
      OneRowOwes(max, held.rows, id, db'.rows[id]);
      OneRowOwes(max, failed, world.succ, db'.rows[world.succ]);
      assert db'.rows == failed[world.succ := db'.rows[world.succ]];
    }
  }

  // ---- what a run leaves behind -------------------------------------------------------------

  /** The run got past semaphore and breaker of an active subscription. */
  predicate Undenied(db: Db, id: RowId, world: World) {
    DueAt(db, id) && db.rows[id].sub in db.subs && db.subs[db.rows[id].sub].active && world.permit && world.admit
  }

  /** The row as it was, but for status, reply, flag, due time and stamp. */
  predicate SameAttempt(a: Row, b: Row) {
    a.hook == b.hook && a.sub == b.sub && a.event == b.event && a.attempt == b.attempt && a.replay == b.replay
    && a.created == b.created
  }

  /** A failed attempt with budget left is followed by the next one, whose wait grows
      threefold with each attempt up to the maximum, give or take a fifth. */
  lemma RetryWaits(c: Config, db: Db, id: RowId, world: World)
    requires ConfigOk(c) && Undenied(db, id, world) && world.succ !in db.rows
    requires 1 <= db.rows[id].attempt < c.maxAttempts
    requires world.reply.http.Some? ==> !(200 <= world.reply.http.value <= 299)
    ensures var rows, was := AfterRun(c, db, id, world).rows, db.rows[id];
            var d := Arith.Min(c.retryBase * Backoff.Pow3(was.attempt - 1), c.retryMax);
            && id in rows && SameAttempt(rows[id], was) && rows[id].status == FailedAttempt
            && rows[id].http == world.reply.http && rows[id].detail == world.reply.detail
            && world.succ in rows && SameAttempt(rows[world.succ], was.(attempt := was.attempt + 1, created := db.now))
            && rows[world.succ].status == Pending && rows[world.succ].next.Some?
            && db.now + d - d / 5 <= rows[world.succ].next.value <= db.now + d + d / 5
  {
    Backoff.ClosedForm(db.rows[id].attempt, c.retryBase, c.retryMax);
    Backoff.JitterWithin(Backoff.Capped(db.rows[id].attempt, c.retryBase, c.retryMax), world.draw);
  }

  /** A run refused its permit tries the same attempt again in three seconds, one refused
      by the breaker after the reset timeout. */
  lemma DeniedWaits(c: Config, db: Db, id: RowId, world: World)
    requires DueAt(db, id) && db.rows[id].sub in db.subs && db.subs[db.rows[id].sub].active
    requires !world.permit || !world.admit
    ensures var db', was := AfterRun(c, db, id, world), db.rows[id];
            && db'.rows.Keys == db.rows.Keys && SameAttempt(db'.rows[id], was) && db'.rows[id].status == Pending
            && db'.rows[id].next == Some(db.now + if !world.permit then 3_000_000_000 else c.breakerReset)
            && db'.subs == db.subs && forall x :: x in db.rows && x != id ==> db'.rows[x] == db.rows[x]
  {
  }

  /** A 2xx ends the attempt and the subscription's streak of failures. */
  lemma SuccessEnds(c: Config, db: Db, id: RowId, world: World)
    requires Undenied(db, id, world) && world.reply.http.Some? && 200 <= world.reply.http.value <= 299
    ensures var db', was := AfterRun(c, db, id, world), db.rows[id];
            && db'.rows.Keys == db.rows.Keys && SameAttempt(db'.rows[id], was)
            && db'.rows[id].status == Success && db'.rows[id].http == world.reply.http && db'.rows[id].detail == ""
            && db'.subs == db.subs[was.sub := Sub(true, 0)]
  {
  }

  /** The last attempt ends in the DLQ and counts against the subscription, which stays
      active exactly below the threshold. */
  lemma LastFailureEnds(c: Config, db: Db, id: RowId, world: World)
    requires Undenied(db, id, world) && c.maxAttempts <= db.rows[id].attempt
    requires world.reply.http.Some? ==> !(200 <= world.reply.http.value <= 299)
    ensures var db', was := AfterRun(c, db, id, world), db.rows[id];
            && db'.rows.Keys == db.rows.Keys && SameAttempt(db'.rows[id], was) && db'.rows[id].inDlq
            && db'.rows[id].status == FinalFailure && db'.rows[id].http == world.reply.http
            && db'.rows[id].detail == world.reply.detail
            && var n := db.subs[was.sub].failures + 1;
               db'.subs == db.subs[was.sub := Sub(n < c.disableThreshold, n)]
  {
  }

  /** A run whose subscription is inactive drops the row; one whose subscription is gone
      leaves it leased, for the cascade to take. */
  lemma UnsendableEnds(c: Config, db: Db, id: RowId, world: World)
    requires DueAt(db, id)
    ensures var db', was := AfterRun(c, db, id, world), db.rows[id];
            && (was.sub !in db.subs ==>
                  db'.rows.Keys == db.rows.Keys && db'.rows[id] == was.(next := db'.rows[id].next, updated := db.now)
                  && db'.rows[id].next == Some(db.now + Store.Interval(c.lease)))
            && (was.sub in db.subs && !db.subs[was.sub].active ==>
                  db'.rows.Keys == db.rows.Keys && SameAttempt(db'.rows[id], was) && db'.subs == db.subs
                  && db'.rows[id].status == FinalFailure && !db'.rows[id].inDlq && db'.rows[id].next == None)
  {
  }

  /** What a run may rely on about the rows of a reached state. */
  ghost predicate Dependable(c: Config, s: State) {
    && s.db.rows.Keys <= s.h.book.born.Keys
    && forall id :: Store.IsPending(s.db, id) ==>
         s.db.rows[id].next.Some? && s.db.rows[id].sub in s.db.subs && 1 <= s.db.rows[id].attempt <= c.maxAttempts
  }

  lemma LeadsDependable(c: Config, ss: seq<State>, ls: seq<Step>)
    requires ConfigOk(c) && Leads(c, ss, ls) && Inv(c, ss[0])
    ensures Dependable(c, ss[|ls|])
  {
    LeadsKeeps(c, ss, ls, |ls|);
    var s' := ss[|ls|];
    forall id | Store.IsPending(s'.db, id)
      ensures s'.db.rows[id].next.Some? && s'.db.rows[id].sub in s'.db.subs
      ensures 1 <= s'.db.rows[id].attempt <= c.maxAttempts
    {
      assert ShapeOf(c.maxAttempts, s'.db.rows[id]);
    }
  }

  function PendingIds(rows: Rows): set<RowId> {
    set id | id in rows && rows[id].status.Pending?
  }

  /** A time by which every pending row is due. */
  method Horizon(db: Db) returns (t: Time)
    ensures db.now <= t
    ensures forall id :: Store.IsPending(db, id) && db.rows[id].next.Some? ==> db.rows[id].next.value <= t
  {
    t := db.now;
    var ids := PendingIds(db.rows);
    var rest := ids;
    while rest != {}
      invariant rest <= ids && db.now <= t
      invariant forall id :: id in ids && id !in rest && db.rows[id].next.Some? ==> db.rows[id].next.value <= t
      decreases rest
    {
      var id :| id in rest;
      if db.rows[id].next.Some? && t < db.rows[id].next.value { t := db.rows[id].next.value; }
      rest := rest - {id};
    }
  }

  method NewUuid(used: set<RowId>) returns (id: RowId)
    ensures id !in used
  {
    ghost var bound := Arith.FreshId(used);
    id := 0;
    while id in used
      invariant id <= bound
      decreases bound - id
    {
      id := id + 1;
    }
  }

  predicate Quiet(step: Step) {
    step.Tick? || step.Dequeue? || step.Act?
  }

  class Deliverer {
    const c: Config
    ghost const start: State
    var s: State
    ghost var states: seq<State>  // the states passed so far, the current one last
    ghost var steps: seq<Step>

    ghost predicate Valid()
      reads this
    {
      && Leads(c, states, steps) && states[0] == start && states[|steps|] == s
      && forall i :: 0 <= i < |steps| ==> Quiet(steps[i])
    }

    constructor (c: Config, s: State)
      ensures Valid() && this.c == c && this.s == s && start == s
    {
      this.c, start, this.s, states, steps := c, s, s, [s], [];
    }

    method Do(step: Step)
      requires Valid() && Enabled(c, s, step) && Quiet(step)
      modifies this
      ensures Valid() && s == Apply(c, old(s), step)
    {
      LeadsOn(c, states, steps, step);
      s := Apply(c, s, step);
      states, steps := states + [s], steps + [step];
    }

    /** One call of a run that writes nothing. */
    method Call(w: nat, a: Action)
      requires Valid() && w in s.workers && Calls(s.workers[w], a) && !a.Claim? && !a.Write? && !a.Drop?
      modifies this
      ensures Valid() && s.workers == Moved(old(s.workers), w, Next(old(s.workers[w]), a))
      ensures s.db == old(s.db) && s.h.book == old(s.h.book)
    {
      QuietEffect(c, s, s.workers[w], a);
      Do(Act(w, a));
    }

    /** The write that ends the lease: reschedule, success, retry or final failure. */
    method Settle(w: nat, at: Time, succ: RowId)
      requires Valid() && w in s.workers && (s.workers[w].Settling? || s.workers[w].Denied?) && succ !in s.h.book.born
      modifies this
      ensures Valid() && s.workers == Moved(old(s.workers), w, Next(old(s.workers[w]), Write(true, at, succ)))
      ensures s.db == Written(c, old(s.db), old(s.workers[w]), at, succ)
    {
      Do(Act(w, Write(true, at, succ)));
    }

    /** The run from the first call to the last. Its row is due: the tables end as
        `AfterRun` says. It is not: nothing changes. */
    method Process(w: nat, id: RowId, world: World)
      requires Valid() && 0 < c.retryBase && w !in s.workers && world.succ !in s.h.book.born
      modifies this
      ensures Valid() && s.workers == old(s.workers)
      ensures s.db == if DueAt(old(s.db), id) then AfterRun(c, old(s.db), id, world) else old(s.db)
    {
      var row := id in s.db.rows && s.db.rows[id].status.Pending?;
      Do(Dequeue(w, id));
      if !row { return; }
      var until := s.db.now + Store.Interval(c.lease);
      var won := Store.ClaimPending(s.db, id, c.lease).1;
      Do(Act(w, Claim(won, until)));
      if !won { return; }
      Attempt(w, world);
    }

    /** The run's row is pending and is the row it loaded. */
    predicate Has(w: nat)
      reads this
    {
      w in s.workers && Store.IsPending(s.db, s.workers[w].log.id)
      && s.workers[w].log == LogOf(s.workers[w].log.id, s.db.rows[s.workers[w].log.id])
    }

    /** From the won claim to the released permit. */
    method Attempt(w: nat, world: World)
      requires Valid() && 0 < c.retryBase && Has(w) && s.workers[w].Leased? && world.succ !in s.h.book.born
      modifies this
      ensures Valid() && s.workers == old(s.workers) - {w}
      ensures s.db == AfterClaim(c, old(s.db), old(s.workers[w].log.id), world)
    {
      var log := s.workers[w].log;
      if log.sub !in s.db.subs {
        Call(w, ReadSub(Missing));
      } else if !s.db.subs[log.sub].active {
        Call(w, ReadSub(Inactive));
        Do(Act(w, Drop(true)));
      } else {
        Call(w, ReadSub(Active));
        Contend(w, world);
      }
    }

    /** The active subscription's part: a permit or a later time. */
    method Contend(w: nat, world: World)
      requires Valid() && 0 < c.retryBase && Has(w) && s.workers[w].Cleared? && world.succ !in s.h.book.born
      requires s.workers[w].log.sub in s.db.subs && s.db.subs[s.workers[w].log.sub].active
      modifies this
      ensures Valid() && s.workers == old(s.workers) - {w}
      ensures s.db == AfterClaim(c, old(s.db), old(s.workers[w].log.id), world)
    {
      Call(w, GetSemaphore(0));
      Call(w, TryAcquire(world.permit, s.db.now + CONCURRENCY_BACKOFF));
      if !world.permit {
        Settle(w, s.db.now, world.succ);
      } else {
        Guarded(w, world);
        Call(w, Release);
      }
    }

    method Finish(w: nat, world: World)
      requires Valid() && 0 < c.retryBase && w in s.workers && (s.workers[w].Settling? || s.workers[w].Denied?)
      requires world.succ !in s.h.book.born
      modifies this
      ensures Valid()
      ensures s.workers == Moved(old(s.workers), w, Next(old(s.workers[w]), Write(true, 0, world.succ)))
      ensures s.db == Written(c, old(s.db), old(s.workers[w]),
                              RetryAt(c, old(s.workers[w].log.attempt), world.draw, old(s.db.now)), world.succ)
    {
      var delay := Backoff.RetryDelay(s.workers[w].log.attempt, c.retryBase, c.retryMax, world.draw);
      Settle(w, s.db.now + delay, world.succ);
    }

    /** The section the semaphore guards: breaker, HTTP attempt, report and write. */
    method Guarded(w: nat, world: World)
      requires Valid() && 0 < c.retryBase && Has(w) && s.workers[w].Permitted? && world.permit && world.succ !in s.h.book.born
      requires s.workers[w].log.sub in s.db.subs && s.db.subs[s.workers[w].log.sub].active
      modifies this
      ensures Valid() && w in s.workers && s.workers[w].Releasing? && s.workers - {w} == old(s.workers) - {w}
      ensures s.db == AfterClaim(c, old(s.db), old(s.workers[w].log.id), world)
    {
      Call(w, GetBreaker(0));
      Call(w, Allow(world.admit, 0, s.db.now + c.breakerReset));
      if world.admit { Exchange(w, world.reply); }
      Finish(w, world);
    }

    /** The request, its reply and the report to the breaker. */
    method Exchange(w: nat, reply: Reply)
      requires Valid() && w in s.workers && s.workers[w].Sending?
      modifies this
      ensures Valid() && s.db == old(s.db) && s.h.book == old(s.h.book)
      ensures var pc := old(s.workers[w]);
              s.workers == old(s.workers)[w := Settling(pc.log, pc.until, pc.sem, reply)]
    {
      Call(w, Send(reply));
      Call(w, Report);
    }

    /** A run for `id` that nothing denies; the other runs stay where they are. */
    method Handle(id: RowId, answer: (Reply, nat))
      requires Valid() && ConfigOk(c) && Inv(c, start)
      modifies this
      ensures Valid() && s.workers == old(s.workers)
      ensures Work(c.maxAttempts, s.db.rows) <= Work(c.maxAttempts, old(s.db.rows))
      ensures DueAt(old(s.db), id) ==> Work(c.maxAttempts, s.db.rows) < Work(c.maxAttempts, old(s.db.rows))
    {
      LeadsDependable(c, states, steps);
      var succ := NewUuid(s.h.book.born.Keys);
      var world := World(true, true, answer.0, answer.1, succ);
      if DueAt(s.db, id) { RunLowersWork(c, s.db, id, world); }
      var w := NewUuid(s.workers.Keys);
      Process(w, id, world);
    }

    /** Advance the clock past every due time, page through the due rows, and run what
        the scan found. */
    method Round(batch: nat, answers: RowId -> (Reply, nat))
      requires Valid() && ConfigOk(c) && Inv(c, start) && 1 <= batch
      requires PendingIds(s.db.rows) != {}
      modifies this
      ensures Valid() && s.workers == old(s.workers)
      ensures Work(c.maxAttempts, s.db.rows) < Work(c.maxAttempts, old(s.db.rows))
    {
      LeadsDependable(c, states, steps);
      var t := Horizon(s.db);
      Do(Tick(t));
      ghost var first :| first in PendingIds(s.db.rows);
      assert DueAt(s.db, first);
      var items := Scanned(batch);
      Handle(items[0].id, answers(items[0].id));
      for i := 1 to |items|
        invariant Valid() && s.workers == old(s.workers)
        invariant Work(c.maxAttempts, s.db.rows) < Work(c.maxAttempts, old(s.db.rows))
      {
        Handle(items[i].id, answers(items[i].id));
      }
    }

    /** The recovery scan over the table at rest: exactly the due rows. */
    method Scanned(batch: nat) returns (items: seq<Keyset.Item>)
      requires 1 <= batch
      ensures Keyset.Sorted(items)
      ensures forall it :: it in items <==> Recovery.DueIn(Recovery.Snap(s.db.now, s.db.rows), it)
      ensures forall i :: 0 <= i < |items| ==> DueAt(s.db, items[i].id)
      ensures (exists id :: DueAt(s.db, id)) ==> items != []
    {
      var snap := Recovery.Snap(s.db.now, s.db.rows);
      items := Recovery.Scan([snap], batch);
      forall it ensures it in items <==> Recovery.DueIn(snap, it) {
        Recovery.QuietScanIsExact(snap, items, it);
      }
      forall i | 0 <= i < |items| ensures DueAt(s.db, items[i].id) {
        assert items[i] in items;
      }
      if id :| DueAt(s.db, id) {
        assert Recovery.DueIn(snap, Keyset.Item(s.db.rows[id].next.value, id));
      }
    }

    /** Whatever Redis still holds, whatever the receivers and the random source answer
        and wherever other runs are stuck, draining a reached state without denials or
        new work leaves nothing pending. */
    method Drain(queue: seq<RowId>, batch: nat, answers: RowId -> (Reply, nat))
      requires Valid() && ConfigOk(c) && Inv(c, start) && 1 <= batch
      modifies this
      ensures Valid() && s.workers == old(s.workers)
      ensures PendingIds(s.db.rows) == {}
    {
      for i := 0 to |queue|
        invariant Valid() && s.workers == old(s.workers)
      {
        Handle(queue[i], answers(queue[i]));
      }
      while PendingIds(s.db.rows) != {}
        invariant Valid() && s.workers == old(s.workers)
        decreases Work(c.maxAttempts, s.db.rows)
      {
        Round(batch, answers);
      }
    }
  }
}
