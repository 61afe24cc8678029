/** The entities of the delivery system: attempt rows, subscriptions and the
    ingest-idempotency records, together with the clock the database reads. */
module Domain {

  datatype Option<+T> = None | Some(value: T)

  /** Nanoseconds on the database clock. */
  type Time = int

  const SECOND: Time := 1_000_000_000

  /** UUIDs are compared by the recovery cursor, so they are ordered numbers here. */
  type RowId = nat
  type HookId = nat
  type SubId = nat

  datatype Status = Pending | Success | FailedAttempt | FinalFailure

  /** What a webhook carries; every attempt of the webhook sends the same. */
  datatype Event = Event(url: string, payload: string, eventType: string)

  /** One delivery attempt (a `delivery_logs` row). */
  datatype Row = Row(
    hook: HookId,
    sub: SubId,
    event: Event,
    attempt: int,
    replay: int,
    status: Status,
    http: Option<int>,
    detail: string,
    next: Option<Time>,
    inDlq: bool,
    created: Time,
    updated: Time)

  /** The columns of a `subscriptions` row that deliveries read and write. */
  datatype Sub = Sub(active: bool, failures: int)

  /** An `ingest_idempotency` row; its key is the pair (subscription, key). */
  datatype Idem = Idem(hook: HookId, created: Time)

  datatype Db = Db(
    now: Time,
    rows: map<RowId, Row>,
    subs: map<SubId, Sub>,
    idem: map<(SubId, string), Idem>)

  predicate Live(r: Row) {
    r.status.Pending? || r.inDlq
  }

  predicate Due(r: Row, now: Time) {
    r.status.Pending? && r.next.Some? && r.next.value <= now
  }
}
