/** The control flow of `Deliverer.Process`: where one run can stand between two
    calls, and which call it makes next. Nothing here says what a call does; the
    lifecycle interprets the calls on the database, the controls interpret them on
    semaphores and breakers. */
module Program {
  import opened Domain

  /** What a run remembers of the row it loaded. */
  datatype Log = Log(id: RowId, hook: HookId, sub: SubId, url: string, attempt: int)

  /** An HTTP attempt: no response at all, or a status code. */
  datatype Reply = Reply(http: Option<int>, detail: string)

  predicate Is2xx(r: Reply) {
    r.http.Some? && 200 <= r.http.value < 300
  }

  /** What a success means to the receiver: a status from 200 to 299. */
  predicate Accepts(reply: Reply) {
    match reply.http
    case None => false
    case Some(code) => 200 <= code <= 299
  }

  datatype SubView = Missing | Inactive | Active

  /** Object identities of semaphores and breakers. */
  type Obj = nat

  datatype Pc =
    | Loaded(log: Log)
    | Leased(log: Log, until: Time)
    | Dropping(log: Log, until: Time)
    | Cleared(log: Log, until: Time)
    | AtSemaphore(log: Log, until: Time, sem: Obj)
    | Denied(log: Log, until: Time, held: Option<Obj>, at: Time)
    | Permitted(log: Log, until: Time, sem: Obj)
    | AtBreaker(log: Log, until: Time, sem: Obj, br: Obj)
    | Sending(log: Log, until: Time, sem: Obj, br: Obj, token: int)
    | Answered(log: Log, until: Time, sem: Obj, br: Obj, token: int, reply: Reply)
    | Settling(log: Log, until: Time, sem: Obj, reply: Reply)
    | Releasing(log: Log, sem: Obj)

  /** One call and what it returned. `done` is false when the database failed. */
  datatype Action =
    | Claim(won: bool, until: Time)
    | ReadSub(view: SubView)
    | Drop(done: bool)
    | GetSemaphore(obj: Obj)
    | TryAcquire(ok: bool, at: Time)
    | GetBreaker(obj: Obj)
    | Allow(ok: bool, token: int, at: Time)
    | Send(reply: Reply)
    | Report
    | Write(done: bool, at: Time, succ: RowId)
    | Release

  /** The call the run makes at this point. */
  predicate Calls(pc: Pc, a: Action) {
    match pc
    case Loaded(_) => a.Claim?
    case Leased(_, _) => a.ReadSub?
    case Dropping(_, _) => a.Drop?
    case Cleared(_, _) => a.GetSemaphore?
    case AtSemaphore(_, _, _) => a.TryAcquire?
    case Permitted(_, _, _) => a.GetBreaker?
    case AtBreaker(_, _, _, _) => a.Allow?
    case Sending(_, _, _, _, _) => a.Send?
    case Answered(_, _, _, _, _, _) => a.Report?
    case Denied(_, _, _, _) => a.Write?
    case Settling(_, _, _, _) => a.Write?
    case Releasing(_, _) => a.Release?
  }

  /** Where the run stands after the call; `None` is the end of the run. */
  function Next(pc: Pc, a: Action): Option<Pc>
    requires Calls(pc, a)
  {
    match pc
    case Loaded(log) => if a.won then Some(Leased(log, a.until)) else None
    case Leased(log, u) =>
      (match a.view
       case Missing => None
       case Inactive => Some(Dropping(log, u))
       case Active => Some(Cleared(log, u)))
    case Dropping(_, _) => None
    case Cleared(log, u) => Some(AtSemaphore(log, u, a.obj))
    case AtSemaphore(log, u, sem) => Some(if a.ok then Permitted(log, u, sem) else Denied(log, u, None, a.at))
    case Permitted(log, u, sem) => Some(AtBreaker(log, u, sem, a.obj))
    case AtBreaker(log, u, sem, br) =>
      Some(if a.ok then Sending(log, u, sem, br, a.token) else Denied(log, u, Some(sem), a.at))
    case Sending(log, u, sem, br, token) => Some(Answered(log, u, sem, br, token, a.reply))
    case Answered(log, u, sem, _, _, reply) => Some(Settling(log, u, sem, reply))
    case Denied(log, _, held, _) => if held.Some? then Some(Releasing(log, held.value)) else None
    case Settling(log, _, sem, _) => Some(Releasing(log, sem))
    case Releasing(_, _) => None
  }

  /** The run has won the claim and has not yet made the write that ends its lease. */
  predicate Holding(pc: Pc) {
    !pc.Loaded? && !pc.Releasing?
  }

  /** The semaphore whose permit the run has taken and not yet returned. */
  function Permit(pc: Pc): Option<Obj> {
    match pc
    case Permitted(_, _, sem) => Some(sem)
    case AtBreaker(_, _, sem, _) => Some(sem)
    case Sending(_, _, sem, _, _) => Some(sem)
    case Answered(_, _, sem, _, _, _) => Some(sem)
    case Settling(_, _, sem, _) => Some(sem)
    case Denied(_, _, held, _) => held
    case Releasing(_, sem) => Some(sem)
    case _ => None
  }

  type Workers = map<nat, Pc>

  function Moved(ws: Workers, w: nat, pc: Option<Pc>): Workers {
    if pc.Some? then ws[w := pc.value] else ws - {w}
  }
}
