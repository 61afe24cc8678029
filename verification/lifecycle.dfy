/** The delivery lifecycle as a step system: the tables, every run of
    `Deliverer.Process` in progress, and the book of what happened. Redis is an
    adversary: a run may be started for any id at any time, so whatever the work
    list, the retry schedule and the DLQ list lose or duplicate is covered. */
module Lifecycle {
  import opened Domain
  import opened Ledger
  import opened Program
  import Store

  datatype Config = Config(
    maxAttempts: int,
    disableThreshold: int,
    lease: Time,
    retryBase: Time,
    retryMax: Time,
    breakerReset: Time)

  predicate ConfigOk(c: Config) {
    1 <= c.maxAttempts && 1 <= c.disableThreshold && 0 < c.retryBase <= c.retryMax && 0 < c.breakerReset
  }

  /** What befell a subscription's failure counter and active flag. */
  datatype SubEvent = FinalFailed | Succeeded | Wrote(active: bool)

  datatype History = History(
    book: Book,
    origin: map<HookId, RowId>,          // every accepted webhook and its first row
    replies: set<(RowId, bool)>,         // rows some run got a reply for, and whether it was 2xx
    flagged: set<RowId>,                 // rows ever put in the DLQ
    subLog: map<SubId, seq<SubEvent>>)

  datatype State = State(db: Db, workers: Workers, h: History)

  function Init(now: Time): State {
    State(Db(now, map[], map[], map[]), map[], History(Book(map[], map[]), map[], {}, {}, map[]))
  }

  datatype Step =
    | Tick(t: Time)
    | CreateSub(sub: SubId, active: bool)
    | UpdateSub(sub: SubId, active: bool)
    | DeleteSub(sub: SubId)
    | Ingest(p: Store.IngestParams, row: RowId)
    | Dequeue(w: nat, id: RowId)
    | Act(w: nat, a: Action)
    | Ack(sub: SubId, hook: HookId)
    | Replay(sub: SubId, hook: HookId, claimed: RowId, row: RowId)
    | ForceAck(maxAge: Time)
    | Expire(retention: Time)
    | Prune(ttl: Time)
    | Rearm(ids: set<RowId>, orphan: Time)
    | Crash(gone: set<nat>)

  /** Which steps can happen. New identifiers are fresh, and a claim that reports
      success found the row due and stamped the lease end it reports. */
  predicate Enabled(c: Config, s: State, step: Step) {
    match step
    case Tick(t) => s.db.now <= t
    case CreateSub(sub, _) => sub !in s.h.subLog
    case Ingest(p, row) => row !in s.h.book.born && p.hook !in s.h.origin
    case Dequeue(w, _) => w !in s.workers
    case Act(w, a) =>
      && w in s.workers && Calls(s.workers[w], a)
      && (a.Claim? && a.won ==> Store.ClaimPending(s.db, s.workers[w].log.id, c.lease).1
                                && a.until == s.db.now + Store.Interval(c.lease))
      && (a.Write? ==> a.succ !in s.h.book.born)
    case Replay(sub, hook, claimed, row) =>
      claimed in Store.DlqOf(s.db, sub, hook) && row !in s.h.book.born
    case Rearm(ids, orphan) =>
      forall id :: id in ids ==> id in s.db.rows && Store.LeaseLess(s.db.rows[id], s.db.now, orphan)
    case _ => true
  }

  // ---- the steps ----------------------------------------------------------------

  function Noted(h: History, sub: SubId, e: SubEvent): History {
    h.(subLog := h.subLog[sub := (if sub in h.subLog then h.subLog[sub] else []) + [e]])
  }

  function Ingested(s: State, p: Store.IngestParams, row: RowId): State {
    var (db, r) := Store.IngestPending(s.db, p, row);
    if r.Accepted? then
      State(db, s.workers, s.h.(book := Enter(s.h.book, row, BirthOf(db.rows[row])),
                                origin := s.h.origin[p.hook := row]))
    else s.(db := db)
  }

  function Settled(s: State, db: Db, ids: set<RowId>, f: Fate): State {
    s.(db := db, h := s.h.(book := SettleAll(s.h.book, ids, f)))
  }

  function LogOf(id: RowId, r: Row): Log {
    Log(id, r.hook, r.sub, r.event.url, r.attempt)
  }

  function MarkedSuccess(s: State, log: Log, http: int): State {
    var (db, won, _) := Store.MarkSuccess(s.db, log.id, log.sub, http);
    if won then
      var s' := Settled(s, db, {log.id}, Delivered);
      s'.(h := Noted(s'.h, log.sub, Succeeded))
    else s
  }

  function Retry(s: State, log: Log, reply: Reply, at: Time, succ: RowId): State {
    var (db, won) := Store.FailAndScheduleRetry(s.db, log.id, reply.http, reply.detail, at, succ);
    if won then
      s.(db := db,
         h := s.h.(book := Continue(s.h.book, log.id, Retried(succ), succ, BirthOf(db.rows[succ]))))
    else s
  }

  function Finalized(c: Config, s: State, log: Log, reply: Reply): State {
    var (db, won, _) := Store.FinalizeFailure(s.db, log.id, log.sub, reply.http, reply.detail, c.disableThreshold);
    if won then s.(db := db, h := Noted(s.h.(flagged := s.h.flagged + {log.id}), log.sub, FinalFailed))
    else s
  }

  /** The database side of one call of a run. */
  function Effect(c: Config, s: State, pc: Pc, a: Action): State
    requires Calls(pc, a)
  {
    match pc
    case Loaded(log) => if a.won then s.(db := Store.ClaimPending(s.db, log.id, c.lease).0) else s
    case Dropping(log, _) =>
      if a.done && Store.IsPending(s.db, log.id) then
        Settled(s, Store.MarkDropped(s.db, log.id, "subscription deactivated").0, {log.id}, Dropped)
      else s
    case Denied(log, _, _, at) => if a.done then s.(db := Store.Rescheduled(s.db, log.id, at).0) else s
    case Sending(log, _, _, _, _) =>
      s.(h := s.h.(replies := s.h.replies + {(log.id, Is2xx(a.reply))}))
    case Settling(log, _, _, reply) =>
      if !a.done then s
      else if Is2xx(reply) then MarkedSuccess(s, log, reply.http.value)
      else if log.attempt < c.maxAttempts then Retry(s, log, reply, a.at, a.succ)
      else Finalized(c, s, log, reply)
    case _ => s
  }

  function Acted(c: Config, s: State, w: nat, a: Action): State
    requires w in s.workers && Calls(s.workers[w], a)
  {
    Effect(c, s, s.workers[w], a).(workers := Moved(s.workers, w, Next(s.workers[w], a)))
  }

  function ReplayClaimed(s: State, sub: SubId, hook: HookId, claimed: RowId, row: RowId): State
    requires claimed in Store.DlqOf(s.db, sub, hook)
  {
    var db := Store.ReplayDlq(s.db, sub, hook, claimed, row);
    var others := Store.DlqOf(s.db, sub, hook) - {claimed};
    var book := SettleAll(s.h.book, others, Acked);
    s.(db := db, h := s.h.(book := Continue(book, claimed, Replayed(row), row, BirthOf(db.rows[row]))))
  }

  function SubDeleted(s: State, sub: SubId): State {
    var gone := set id | id in s.db.rows && s.db.rows[id].sub == sub && Live(s.db.rows[id]);
    Settled(s, Store.DeleteSub(s.db, sub), gone, Cascaded)
  }

  function Apply(c: Config, s: State, step: Step): State
    requires Enabled(c, s, step)
  {
    match step
    case Tick(t) => s.(db := s.db.(now := t))
    case CreateSub(sub, active) =>
      s.(db := s.db.(subs := s.db.subs[sub := Sub(active, 0)]), h := s.h.(subLog := s.h.subLog[sub := []]))
    case UpdateSub(sub, active) =>
      if sub in s.db.subs then
        s.(db := s.db.(subs := s.db.subs[sub := s.db.subs[sub].(active := active)]), h := Noted(s.h, sub, Wrote(active)))
      else s
    case DeleteSub(sub) => SubDeleted(s, sub)
    case Ingest(p, row) => Ingested(s, p, row)
    case Dequeue(w, id) =>
      if Store.IsPending(s.db, id) then s.(workers := s.workers[w := Loaded(LogOf(id, s.db.rows[id]))]) else s
    case Act(w, a) => Acted(c, s, w, a)
    case Ack(sub, hook) => Settled(s, Store.AckDlq(s.db, sub, hook), Store.DlqOf(s.db, sub, hook), Acked)
    case Replay(sub, hook, claimed, row) => ReplayClaimed(s, sub, hook, claimed, row)
    case ForceAck(age) => Settled(s, Store.ForceAckOldDlq(s.db, age), Store.Aged(s.db, age), ForceAcked)
    case Expire(retention) => s.(db := Store.DeleteExpired(s.db, retention))
    case Prune(ttl) => s.(db := Store.PruneIdempotency(s.db, ttl))
    case Rearm(ids, _) => s.(db := Store.Rearm(s.db, ids))
    case Crash(gone) => s.(workers := s.workers - gone)
  }

  /** The steps lead through the states. */
  ghost predicate Leads(c: Config, ss: seq<State>, ls: seq<Step>) {
    |ss| == |ls| + 1
    && forall i :: 0 <= i < |ls| ==> Enabled(c, ss[i], ls[i]) && ss[i + 1] == Apply(c, ss[i], ls[i])
  }

  // ---- the invariant ---------------------------------------------------------------

  ghost predicate Referenced(db: Db) {
    && (forall id :: id in db.rows ==> db.rows[id].sub in db.subs)
    && (forall k :: k in db.idem ==> k.0 in db.subs)
  }

  predicate IsRoot(b: Book, hook: HookId, id: RowId) {
    id in b.born && b.born[id].hook == hook && b.born[id].replay == 0 && b.born[id].attempt == 1
  }

  ghost predicate Rooted(h: History) {
    && (forall hook :: hook in h.origin ==> IsRoot(h.book, hook, h.origin[hook]))
    && (forall id :: id in h.book.born ==> h.book.born[id].hook in h.origin)
  }

  /** Each retained key names one accepted webhook of its own subscription. */
  ghost predicate KeysOk(db: Db, h: History) {
    && (forall k :: k in db.idem ==>
          && db.idem[k].hook in h.origin
          && h.origin[db.idem[k].hook] in h.book.born
          && h.book.born[h.origin[db.idem[k].hook]].sub == k.0)
    && (forall k, l :: k in db.idem && l in db.idem && db.idem[k].hook == db.idem[l].hook ==> k == l)
  }

  /** Final failures since the last success. */
  function Streak(log: seq<SubEvent>): nat {
    if log == [] then 0
    else match log[|log| - 1]
      case FinalFailed => Streak(log[..|log| - 1]) + 1
      case Succeeded => 0
      case Wrote(_) => Streak(log[..|log| - 1])
  }

  /** An operator wrote the subscription active after its last final failure. */
  predicate Reactivated(log: seq<SubEvent>) {
    log != [] && (
      match log[|log| - 1]
      case FinalFailed => false
      case Succeeded => Reactivated(log[..|log| - 1])
      case Wrote(active) => active || Reactivated(log[..|log| - 1]))
  }

  predicate CounterOk(c: Config, s: Sub, log: seq<SubEvent>) {
    && s.failures == Streak(log)
    && (s.active && s.failures >= c.disableThreshold ==> Reactivated(log))
  }

  ghost predicate Counted(c: Config, db: Db, h: History) {
    forall sub :: sub in db.subs ==> sub in h.subLog && CounterOk(c, db.subs[sub], h.subLog[sub])
  }

  predicate Remembers(b: Book, log: Log) {
    log.id in b.born && log == Log(log.id, b.born[log.id].hook, b.born[log.id].sub,
                                   b.born[log.id].event.url, b.born[log.id].attempt)
  }

  predicate RunOk(h: History, pc: Pc) {
    && Remembers(h.book, pc.log)
    && (pc.Answered? || pc.Settling? ==> (pc.log.id, Is2xx(pc.reply)) in h.replies)
  }

  ghost predicate RunsOk(ws: Workers, h: History) {
    forall w :: w in ws ==> RunOk(h, ws[w])
  }

  /** A delivery rests on a 2xx some run saw, a failure on a reply that was not. */
  ghost predicate Witnessed(h: History) {
    && (forall id :: id in h.book.fate && h.book.fate[id] == Delivered ==> (id, true) in h.replies)
    && (forall id :: id in h.book.fate && h.book.fate[id].Retried? ==> (id, false) in h.replies)
    && (forall id :: id in h.flagged ==> (id, false) in h.replies)
  }

  ghost predicate FlagsOk(rows: Rows, h: History) {
    && (forall id :: id in rows && rows[id].inDlq ==> id in h.flagged)
    && (forall id :: id in h.flagged ==> id in h.book.born && (id in rows ==> rows[id].status.FinalFailure?))
  }

  /** What ties the rest of the state to the book. */
  ghost predicate Tied(c: Config, s: State) {
    && Referenced(s.db)
    && Rooted(s.h)
    && KeysOk(s.db, s.h)
    && Counted(c, s.db, s.h)
    && RunsOk(s.workers, s.h)
    && Witnessed(s.h)
    && FlagsOk(s.db.rows, s.h)
  }

  ghost predicate SoundState(c: Config, s: State) {
    Sound(c.maxAttempts, s.db.now, s.db.rows, s.h.book)
  }

  ghost predicate Inv(c: Config, s: State) {
    SoundState(c, s) && Tied(c, s)
  }
}
