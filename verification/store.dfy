/** The PostgreSQL transactions of the delivery log, each as one function from the
    tables before to the tables after. Identifiers that PostgreSQL generates are
    arguments; the clock is the field `now`. */
module Store {
  import opened Domain

  /** `secondsArg`: a duration as whole seconds, never less than one. */
  function SecondsArg(d: Time): int {
    if d / SECOND < 1 then 1 else d / SECOND
  }

  function Interval(d: Time): Time {
    SecondsArg(d) * SECOND
  }

  predicate IsPending(db: Db, id: RowId) {
    id in db.rows && db.rows[id].status.Pending?
  }

  // ---- ingest -------------------------------------------------------------

  const MAX_TARGET_URL_LENGTH := 2048
  const MAX_EVENT_TYPE_LENGTH := 100

  datatype IngestParams = IngestParams(sub: SubId, key: string, hook: HookId, event: Event, validJson: bool)

  datatype IngestError = InvalidInput | NotFound

  datatype IngestResult =
    | Accepted(hook: HookId, row: RowId)
    | Duplicate(hook: HookId)
    | Refused(error: IngestError)

  /** The bytes of one character in UTF-8. */
  function Width(c: char): nat {
    var code := c as int;
    if code < 0x80 then 1 else if code < 0x800 then 2 else if code < 0x1_0000 then 3 else 4
  }

  /** Go's `len` of a string: its bytes. */
  function Utf8Length(s: string): nat {
    if s == [] then 0 else Utf8Length(s[..|s| - 1]) + Width(s[|s| - 1])
  }

  /** The ingest counts the bytes of a URL and the characters of an event type. */
  predicate ValidParams(p: IngestParams) {
    && p.validJson
    && Utf8Length(p.event.url) <= MAX_TARGET_URL_LENGTH
    && |p.event.eventType| <= MAX_EVENT_TYPE_LENGTH
  }

  function FirstAttempt(p: IngestParams, now: Time): Row {
    Row(p.hook, p.sub, p.event, 1, 0, Pending, None, "", Some(now), false, now, now)
  }

  function IngestPending(db: Db, p: IngestParams, id: RowId): (r: (Db, IngestResult)) {
    if !ValidParams(p) then (db, Refused(InvalidInput))
    else if p.key != "" && (p.sub, p.key) in db.idem then (db, Duplicate(db.idem[(p.sub, p.key)].hook))
    else if p.sub !in db.subs then (db, Refused(NotFound))
    else
      var idem := if p.key == "" then db.idem else db.idem[(p.sub, p.key) := Idem(p.hook, db.now)];
      (db.(rows := db.rows[id := FirstAttempt(p, db.now)], idem := idem), Accepted(p.hook, id))
  }

  // ---- the compare-and-set transitions of one attempt -----------------------

  function ClaimPending(db: Db, id: RowId, lease: Time): (r: (Db, bool)) {
    if id in db.rows && Due(db.rows[id], db.now) then
      (db.(rows := db.rows[id := db.rows[id].(next := Some(db.now + Interval(lease)), updated := db.now)]), true)
    else (db, false)
  }

  function Rescheduled(db: Db, id: RowId, at: Time): (r: (Db, bool)) {
    if IsPending(db, id) then
      (db.(rows := db.rows[id := db.rows[id].(next := Some(at), updated := db.now)]), true)
    else (db, false)
  }

  function MarkDropped(db: Db, id: RowId, detail: string): (r: (Db, bool)) {
    if IsPending(db, id) then
      var row := db.rows[id].(status := FinalFailure, inDlq := false, http := None, detail := detail,
                              next := None, updated := db.now);
      (db.(rows := db.rows[id := row]), true)
    else (db, false)
  }

  /** Third component: whether the subscription row changed. */
  function MarkSuccess(db: Db, id: RowId, sub: SubId, http: int): (r: (Db, bool, bool)) {
    if IsPending(db, id) then
      var row := db.rows[id].(status := Success, http := Some(http), detail := "", updated := db.now);
      var reset := sub in db.subs && db.subs[sub].failures != 0;
      var subs := if reset then db.subs[sub := db.subs[sub].(failures := 0)] else db.subs;
      (db.(rows := db.rows[id := row], subs := subs), true, reset)
    else (db, false, false)
  }

  function Bumped(s: Sub, threshold: int): Sub {
    Sub(s.failures + 1 < threshold && s.active, s.failures + 1)
  }

  /** Third component: whether the subscription is inactive afterwards. */
  function FinalizeFailure(db: Db, id: RowId, sub: SubId, http: Option<int>, detail: string, threshold: int)
    : (r: (Db, bool, bool))
  {
    if IsPending(db, id) then
      var row := db.rows[id].(status := FinalFailure, inDlq := true, http := http, detail := detail,
                              updated := db.now);
      var subs := if sub in db.subs then db.subs[sub := Bumped(db.subs[sub], threshold)] else db.subs;
      (db.(rows := db.rows[id := row], subs := subs), true, sub in subs && !subs[sub].active)
    else (db, false, false)
  }

  function Successor(row: Row, at: Time, now: Time): Row {
    Row(row.hook, row.sub, row.event, row.attempt + 1, row.replay, Pending, None, "", Some(at), false, now, now)
  }

  function FailAndScheduleRetry(db: Db, id: RowId, http: Option<int>, detail: string, at: Time, succ: RowId)
    : (r: (Db, bool))
  {
    if IsPending(db, id) then
      var row := db.rows[id].(status := FailedAttempt, http := http, detail := detail, updated := db.now);
      (db.(rows := db.rows[id := row][succ := Successor(row, at, db.now)]), true)
    else (db, false)
  }

  // ---- the dead-letter queue ------------------------------------------------

  function InDlq(db: Db): set<RowId> {
    set id | id in db.rows && db.rows[id].inDlq
  }

  /** The rows the claim of an ack or a replay matches. */
  function DlqOf(db: Db, sub: SubId, hook: HookId): set<RowId> {
    set id | id in db.rows && db.rows[id].inDlq && db.rows[id].sub == sub && db.rows[id].hook == hook
  }

  function Unflag(rows: map<RowId, Row>, ids: set<RowId>, now: Time): map<RowId, Row> {
    map id | id in rows :: if id in ids then rows[id].(inDlq := false, updated := now) else rows[id]
  }

  function AckDlq(db: Db, sub: SubId, hook: HookId): Db {
    db.(rows := Unflag(db.rows, DlqOf(db, sub, hook), db.now))
  }

  function NewChain(row: Row, now: Time): Row {
    Row(row.hook, row.sub, row.event, 1, row.replay + 1, Pending, None, "", Some(now), false, now, now)
  }

  /** `claimed` is the first row the claim returned. */
  function ReplayDlq(db: Db, sub: SubId, hook: HookId, claimed: RowId, id: RowId): Db
    requires claimed in DlqOf(db, sub, hook)
  {
    var rows := Unflag(db.rows, DlqOf(db, sub, hook), db.now);
    db.(rows := rows[id := NewChain(rows[claimed], db.now)])
  }

  function Aged(db: Db, maxAge: Time): set<RowId> {
    set id | id in db.rows && db.rows[id].inDlq && db.rows[id].updated < db.now - Interval(maxAge)
  }

  function ForceAckOldDlq(db: Db, maxAge: Time): Db {
    db.(rows := Unflag(db.rows, Aged(db, maxAge), db.now))
  }

  // ---- retention, recovery and subscriptions ---------------------------------

  predicate Expired(row: Row, now: Time, retention: Time) {
    row.created < now - Interval(retention) && !row.inDlq && !row.status.Pending?
  }

  function DeleteExpired(db: Db, retention: Time): Db {
    db.(rows := map id | id in db.rows && !Expired(db.rows[id], db.now, retention) :: db.rows[id])
  }

  function PruneIdempotency(db: Db, ttl: Time): Db {
    db.(idem := map k | k in db.idem && !(db.idem[k].created < db.now - Interval(ttl)) :: db.idem[k])
  }

  predicate LeaseLess(row: Row, now: Time, orphan: Time) {
    row.status.Pending? && row.next.None? && row.created <= now - Interval(orphan)
  }

  function Rearm(db: Db, ids: set<RowId>): Db {
    db.(rows := map id | id in db.rows ::
                  if id in ids then db.rows[id].(next := Some(db.now), updated := db.now) else db.rows[id])
  }

  /** Deleting a subscription cascades to its attempts and its idempotency records. */
  function DeleteSub(db: Db, sub: SubId): Db {
    db.(subs := db.subs - {sub},
        rows := map id | id in db.rows && db.rows[id].sub != sub :: db.rows[id],
        idem := map k | k in db.idem && k.0 != sub :: db.idem[k])
  }
}
