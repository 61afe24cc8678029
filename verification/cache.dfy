/** The subscription cache: PostgreSQL rows, their copies in Redis, and the dirty
    marks that make a failed invalidation harmless. One operation at a time holds a
    lock stripe and moves through its calls; time passes and Redis fails between any
    two of them. */
module Cache {
  import opened Domain

  /** The columns of a subscription row that its readers use. */
  datatype Record = Record(
    url: string,
    secret: string,
    previous: string,  // empty until the first rotation
    rotated: Option<Time>,
    eventTypes: seq<string>,
    active: bool,
    failures: int)

  /** A Redis value; `None` stands for bytes that do not decode. */
  datatype Entry = Entry(value: Option<Record>, expiry: Time)

  /** Where the operation that holds a stripe stands. */
  datatype Op =
    | CheckDirty(id: SubId)
    | AskRedis(id: SubId)
    | AskRepo(id: SubId, refill: bool)
    | Fill(id: SubId, found: Record)
    | Filled(id: SubId, found: Record)
    | FillFailed(id: SubId, found: Record)
    | Purge(id: SubId)
    | Purged(id: SubId)
    | Evict(id: SubId)
    | Evicted(id: SubId)
    | EvictFailed(id: SubId)

  /** How a call to Redis or to the repository ends; a failed Redis call may still
      have taken effect. */
  datatype Io = Ok | Fails(effect: bool)

  datatype Config = Config(ttl: Time, stripeOf: SubId -> nat)

  datatype State = State(
    now: Time,
    db: map<SubId, Record>,
    redis: map<SubId, Entry>,
    dirty: map<SubId, Time>,
    ops: map<nat, Op>)

  datatype Step =
    | Tick(t: Time)
    | Lose(id: SubId)
    | Corrupt(id: SubId)
    | Insert(id: SubId, row: Record)
    | BeginGet(id: SubId)
    | BeginWrite(id: SubId, write: Option<Record>)
    | BeginEvict(id: SubId)
    | Advance(stripe: nat, io: Io)

  predicate Enabled(c: Config, s: State, step: Step) {
    match step
    case Tick(t) => s.now <= t
    case Corrupt(id) => id in s.redis
    case Insert(id, _) => id !in s.db
    case BeginGet(id) => c.stripeOf(id) !in s.ops
    case BeginWrite(id, _) => c.stripeOf(id) !in s.ops && id in s.db
    case BeginEvict(id) => c.stripeOf(id) !in s.ops
    case Advance(stripe, _) => stripe in s.ops
    case _ => true
  }

  /** Redis still serves the entry. */
  predicate Visible(s: State, id: SubId) {
    id in s.redis && s.now < s.redis[id].expiry
  }

  predicate IsDirty(s: State, id: SubId) {
    id in s.dirty && s.now <= s.dirty[id]
  }

  function Lookup(s: State, id: SubId): Option<Record> {
    if id in s.db then Some(s.db[id]) else None
  }

  function MarkDirty(c: Config, s: State, id: SubId): State {
    s.(dirty := s.dirty[id := s.now + c.ttl])
  }

  function ClearDirty(s: State, id: SubId): State {
    s.(dirty := s.dirty - {id})
  }

  function Del(s: State, id: SubId): State {
    s.(redis := s.redis - {id})
  }

  /** One call of the operation: the state after it, and the operation's next point. */
  function Call(c: Config, s: State, op: Op, io: Io): (State, Option<Op>) {
    match op
    case CheckDirty(id) =>
      if IsDirty(s, id) then (s, Some(AskRepo(id, true))) else (ClearDirty(s, id), Some(AskRedis(id)))
    case AskRedis(id) =>
      if io.Fails? then (s, Some(AskRepo(id, false)))
      else if Visible(s, id) && s.redis[id].value.Some? then (s, None)
      else (s, Some(AskRepo(id, true)))
    case AskRepo(id, refill) =>
      if io.Fails? || !refill then (s, None)
      else if id in s.db then (s, Some(Fill(id, s.db[id])))
      else (s, Some(Purge(id)))
    case Fill(id, found) =>
      var stored := s.(redis := s.redis[id := Entry(Some(found), s.now + c.ttl)]);
      if io.Ok? then (stored, Some(Filled(id, found)))
      else (if io.effect then stored else s, Some(FillFailed(id, found)))
    case Filled(id, _) => (ClearDirty(s, id), None)
    case FillFailed(id, _) => (MarkDirty(c, s, id), None)
    case Purge(id) =>
      if io.Ok? then (Del(s, id), Some(Purged(id))) else (if io.effect then Del(s, id) else s, None)
    case Purged(id) => (ClearDirty(s, id), None)
    case Evict(id) =>
      if io.Ok? then (Del(s, id), Some(Evicted(id))) else (if io.effect then Del(s, id) else s, Some(EvictFailed(id)))
    case Evicted(id) => (ClearDirty(s, id), None)
    case EvictFailed(id) => (MarkDirty(c, s, id), None)
  }

  /** What `GetByID` returns when this call is its last; `None` otherwise. */
  function Returned(s: State, op: Op, io: Io): Option<Option<Record>> {
    match op
    case AskRedis(id) =>
      if io.Ok? && Visible(s, id) && s.redis[id].value.Some? then Some(s.redis[id].value) else None
    case AskRepo(id, refill) => if io.Ok? && !refill then Some(Lookup(s, id)) else None
    case Filled(_, found) => Some(Some(found))
    case FillFailed(_, found) => Some(Some(found))
    case Purge(_) => if io.Fails? then Some(None) else None
    case Purged(_) => Some(None)
    case _ => None
  }

  function Apply(c: Config, s: State, step: Step): State
    requires Enabled(c, s, step)
  {
    match step
    case Tick(t) => s.(now := t)
    case Lose(id) => Del(s, id)
    case Corrupt(id) => s.(redis := s.redis[id := s.redis[id].(value := None)])
    case Insert(id, row) => s.(db := s.db[id := row])
    case BeginGet(id) => s.(ops := s.ops[c.stripeOf(id) := CheckDirty(id)])
    case BeginWrite(id, write) =>
      s.(db := if write.Some? then s.db[id := write.value] else s.db - {id}, ops := s.ops[c.stripeOf(id) := Evict(id)])
    case BeginEvict(id) => s.(ops := s.ops[c.stripeOf(id) := Evict(id)])
    case Advance(stripe, io) =>
      var (s', next) := Call(c, s, s.ops[stripe], io);
      s'.(ops := if next.Some? then s.ops[stripe := next.value] else s.ops - {stripe})
  }

  // ---- the timed invariant --------------------------------------------------------------

  /** The entry is the row, or Redis will have dropped it by `grace`. */
  predicate Fresh(s: State, id: SubId, grace: Time) {
    Visible(s, id) && s.redis[id].value.Some? ==> s.redis[id].value == Lookup(s, id) || s.redis[id].expiry <= grace
  }

  /** A stale entry is covered by a mark that outlives it. */
  predicate Covered(s: State, id: SubId, grace: Time) {
    Fresh(s, id, grace) || (id in s.dirty && s.redis[id].expiry <= s.dirty[id])
  }

  /** The row has been written and Redis has not yet been told. */
  predicate Invalidating(c: Config, s: State, id: SubId) {
    c.stripeOf(id) in s.ops
    && (s.ops[c.stripeOf(id)] == Evict(id) || s.ops[c.stripeOf(id)] == EvictFailed(id))
  }

  predicate EntryOk(c: Config, s: State, id: SubId, grace: Time) {
    (id in s.redis ==> s.redis[id].expiry <= s.now + c.ttl)
    && (Covered(s, id, grace) || Invalidating(c, s, id))
  }

  predicate OpOk(c: Config, s: State, stripe: nat, op: Op, grace: Time) {
    && c.stripeOf(op.id) == stripe
    && match op
       case AskRedis(id) => Fresh(s, id, grace)
       case Fill(id, found) => Lookup(s, id) == Some(found)
       case Filled(id, found) => Lookup(s, id) == Some(found) && Fresh(s, id, grace)
       case FillFailed(id, found) => Lookup(s, id) == Some(found)
       case Purged(id) => id !in s.redis
       case Evicted(id) => id !in s.redis
       case _ => true
  }

  ghost predicate Inv(c: Config, s: State, grace: Time) {
    && (forall id :: EntryOk(c, s, id, grace))
    && (forall stripe :: stripe in s.ops ==> OpOk(c, s, stripe, s.ops[stripe], grace))
  }

  // ---- every step keeps it ----------------------------------------------------------------

  /** The two states agree on this key. */
  predicate SameKey(s: State, s': State, id: SubId) {
    && s'.now == s.now && s'.db == s.db
    && (id in s'.redis <==> id in s.redis) && (id in s.redis ==> s'.redis[id] == s.redis[id])
    && (id in s'.dirty <==> id in s.dirty) && (id in s.dirty ==> s'.dirty[id] == s.dirty[id])
  }

  /** The step touched nothing but the key and the stripe of one operation. */
  ghost predicate LocalTo(s: State, s': State, stripe: nat)
    requires stripe in s.ops
  {
    && (forall id :: id != s.ops[stripe].id ==> SameKey(s, s', id))
    && s'.ops - {stripe} == s.ops - {stripe}
  }

  lemma CallIsLocal(c: Config, s: State, stripe: nat, io: Io)
    requires stripe in s.ops
    ensures LocalTo(s, Apply(c, s, Advance(stripe, io)), stripe)
  {
  }

  /** The key of the call, after it. */
  lemma CallKeepsEntry(c: Config, s: State, stripe: nat, io: Io, grace: Time)
    requires stripe in s.ops && OpOk(c, s, stripe, s.ops[stripe], grace) && 0 <= c.ttl
    requires EntryOk(c, s, s.ops[stripe].id, grace)
    ensures var s' := Apply(c, s, Advance(stripe, io));
            && EntryOk(c, s', s.ops[stripe].id, grace)
            && (stripe in s'.ops ==> OpOk(c, s', stripe, s'.ops[stripe], grace))
  {
  }

  lemma OtherEntryKept(c: Config, s: State, s': State, stripe: nat, id: SubId, grace: Time)
    requires EntryOk(c, s, id, grace) && stripe in s.ops && LocalTo(s, s', stripe) && id != s.ops[stripe].id
    ensures EntryOk(c, s', id, grace)
  {
    assert SameKey(s, s', id);
    var own := c.stripeOf(id);
    assert own != stripe && own in s.ops ==> own in s'.ops - {stripe} && s'.ops[own] == s.ops[own];
  }

  lemma OtherOpKept(c: Config, s: State, s': State, stripe: nat, other: nat, grace: Time)
    requires stripe in s.ops && OpOk(c, s, stripe, s.ops[stripe], grace) && LocalTo(s, s', stripe)
    requires other != stripe && other in s'.ops
    requires other in s.ops ==> OpOk(c, s, other, s.ops[other], grace)
    ensures OpOk(c, s', other, s'.ops[other], grace)
  {
    assert other in s'.ops - {stripe} && s'.ops[other] == s.ops[other];
    assert SameKey(s, s', s.ops[other].id);
  }

  lemma LocalKeeps(c: Config, s: State, s': State, stripe: nat, grace: Time)
    requires Inv(c, s, grace) && stripe in s.ops && LocalTo(s, s', stripe)
    requires EntryOk(c, s', s.ops[stripe].id, grace)
    requires stripe in s'.ops ==> OpOk(c, s', stripe, s'.ops[stripe], grace)
    ensures Inv(c, s', grace)
  {
    forall id ensures EntryOk(c, s', id, grace) {
      if id != s.ops[stripe].id { OtherEntryKept(c, s, s', stripe, id, grace); }
    }
    forall other | other in s'.ops ensures OpOk(c, s', other, s'.ops[other], grace) {
      if other != stripe { OtherOpKept(c, s, s', stripe, other, grace); }
    }
  }

  lemma AdvanceKeeps(c: Config, s: State, stripe: nat, io: Io, grace: Time)
    requires Inv(c, s, grace) && stripe in s.ops && 0 <= c.ttl
    ensures Inv(c, Apply(c, s, Advance(stripe, io)), grace)
  {
    CallIsLocal(c, s, stripe, io);
    CallKeepsEntry(c, s, stripe, io, grace);
    LocalKeeps(c, s, Apply(c, s, Advance(stripe, io)), stripe, grace);
  }

  lemma StepKeeps(c: Config, s: State, step: Step, grace: Time)
    requires Inv(c, s, grace) && Enabled(c, s, step) && 0 <= c.ttl
    ensures Inv(c, Apply(c, s, step), grace)
  {
    if step.Advance? {
      AdvanceKeeps(c, s, step.stripe, step.io, grace);
    } else {
      var s' := Apply(c, s, step);
      forall id ensures EntryOk(c, s', id, grace) {
        assert EntryOk(c, s, id, grace);
      }
      forall stripe | stripe in s'.ops ensures OpOk(c, s', stripe, s'.ops[stripe], grace) {
        if stripe in s.ops { assert OpOk(c, s, stripe, s.ops[stripe], grace) && EntryOk(c, s, s.ops[stripe].id, grace); }
      }
    }
  }

  /** A state a process may start in: Redis may hold anything a predecessor left
      behind, as long as it expires within the TTL. */
  ghost predicate Legal(c: Config, s: State) {
    && 0 <= c.ttl && s.dirty == map[] && s.ops == map[]
    && forall id :: id in s.redis ==> s.redis[id].expiry <= s.now + c.ttl
  }

  /** A run of one process. */
  ghost predicate Behaviour(c: Config, ss: seq<State>, ls: seq<Step>) {
    && |ss| == |ls| + 1 && Legal(c, ss[0])
    && forall i :: 0 <= i < |ls| ==> Enabled(c, ss[i], ls[i]) && ss[i + 1] == Apply(c, ss[i], ls[i])
  }

  lemma BehaviourGrows(c: Config, ss: seq<State>, ls: seq<Step>, step: Step)
    requires Behaviour(c, ss, ls) && Enabled(c, ss[|ls|], step)
    ensures Behaviour(c, ss + [Apply(c, ss[|ls|], step)], ls + [step])
  {
  }

  /** Redis serves nothing that differs from the database. */
  ghost predicate Clean(s: State) {
    forall id :: Visible(s, id) && s.redis[id].value.Some? ==> s.redis[id].value == Lookup(s, id)
  }

  /** When stale leftovers of a predecessor are gone. */
  ghost function Grace(c: Config, s0: State): Time {
    if Clean(s0) then s0.now else s0.now + c.ttl
  }

  lemma {:induction false} Holds(c: Config, ss: seq<State>, ls: seq<Step>, k: nat)
    requires Behaviour(c, ss, ls) && k < |ss|
    ensures Inv(c, ss[k], Grace(c, ss[0])) && ss[0].now <= ss[k].now
  {
    if k > 0 {
      Holds(c, ss, ls, k - 1);
      StepKeeps(c, ss[k - 1], ls[k - 1], Grace(c, ss[0]));
    } else {
      forall id ensures EntryOk(c, ss[0], id, Grace(c, ss[0])) {}
    }
  }

  // ---- what a read finds ------------------------------------------------------------------

  /** A read that finds a row finds the database row, under any interleaving and any
      Redis failure: from the start if Redis served only true copies then, and one TTL
      after the start otherwise. */
  lemma GetReturnsTheRow(c: Config, ss: seq<State>, ls: seq<Step>, k: nat, stripe: nat, io: Io, row: Record)
    requires Behaviour(c, ss, ls) && k < |ss| && stripe in ss[k].ops
    requires Clean(ss[0]) || ss[0].now + c.ttl <= ss[k].now
    requires Returned(ss[k], ss[k].ops[stripe], io) == Some(Some(row))
    ensures Lookup(ss[k], ss[k].ops[stripe].id) == Some(row)
  {
    Holds(c, ss, ls, k);
    assert OpOk(c, ss[k], stripe, ss[k].ops[stripe], Grace(c, ss[0]));
  }

  /** A read is about to return a row that is not the database row. */
  predicate Stale(s: State, stripe: nat, io: Io) {
    stripe in s.ops && var r := Returned(s, s.ops[stripe], io);
    r.Some? && r.value.Some? && r.value != Lookup(s, s.ops[stripe].id)
  }

  /** Some run from this state has a stale read. */
  ghost predicate CanBeStale(c: Config, s0: State) {
    exists ss: seq<State>, ls: seq<Step>, k: nat, stripe: nat, io: Io ::
      Behaviour(c, ss, ls) && ss[0] == s0 && k < |ss| && Stale(ss[k], stripe, io)
  }

  /** An untrue copy that Redis still serves is what the first read of its key returns. */
  lemma LeftoverIsServed(c: Config, s0: State, id: SubId) returns (ss: seq<State>, ls: seq<Step>)
    requires Legal(c, s0) && Visible(s0, id) && s0.redis[id].value.Some? && s0.redis[id].value != Lookup(s0, id)
    ensures Behaviour(c, ss, ls) && ss[0] == s0 && |ls| == 2
    ensures c.stripeOf(id) in ss[2].ops && ss[2].ops[c.stripeOf(id)].id == id
    ensures Returned(ss[2], ss[2].ops[c.stripeOf(id)], Ok) == Some(s0.redis[id].value) && Stale(ss[2], c.stripeOf(id), Ok)
  {
    ss, ls := [s0], [];
    BehaviourGrows(c, ss, ls, BeginGet(id));
    ss, ls := ss + [Apply(c, s0, BeginGet(id))], ls + [BeginGet(id)];
    BehaviourGrows(c, ss, ls, Advance(c.stripeOf(id), Ok));
    ss, ls := ss + [Apply(c, ss[1], Advance(c.stripeOf(id), Ok))], ls + [Advance(c.stripeOf(id), Ok)];
  }

  /** Stale reads are possible exactly when Redis serves an untrue copy at the start. */
  lemma StaleExactly(c: Config, s0: State)
    requires Legal(c, s0)
    ensures CanBeStale(c, s0) <==> !Clean(s0)
  {
    if !Clean(s0) {
      var id :| Visible(s0, id) && s0.redis[id].value.Some? && s0.redis[id].value != Lookup(s0, id);
      var ss, ls := LeftoverIsServed(c, s0, id);
      assert Stale(ss[2], c.stripeOf(id), Ok);
    } else if CanBeStale(c, s0) {
      var ss: seq<State>, ls: seq<Step>, k: nat, stripe: nat, io: Io :|
        Behaviour(c, ss, ls) && ss[0] == s0 && k < |ss| && Stale(ss[k], stripe, io);
      GetReturnsTheRow(c, ss, ls, k, stripe, io, Returned(ss[k], ss[k].ops[stripe], io).value.value);
    }
  }

  /** A copy kept from before a row changed while nobody could invalidate it. */
  lemma LeftoverCanBeStale(c: Config, now: Time, id: SubId, row: Record, copy: Record)
    requires 0 < c.ttl && row != copy
    ensures CanBeStale(c, State(now, map[id := row], map[id := Entry(Some(copy), now + c.ttl)], map[], map[]))
  {
    var s0 := State(now, map[id := row], map[id := Entry(Some(copy), now + c.ttl)], map[], map[]);
    assert Visible(s0, id) && s0.redis[id].value != Lookup(s0, id);
    StaleExactly(c, s0);
  }

  // ---- what a read does not find ------------------------------------------------------------

  predicate Inserts(step: Step, id: SubId) {
    step.Insert? && step.id == id
  }

  predicate Purging(op: Op) {
    op.Purge? || op.Purged?
  }

  /** While an operation holds the stripe, only an insertion brings its row about. */
  lemma RowWhileHeld(c: Config, s: State, step: Step, id: SubId)
    requires Enabled(c, s, step) && c.stripeOf(id) in s.ops
    ensures id in Apply(c, s, step).db <==> id in s.db || Inserts(step, id)
  {
  }

  /** A read that found no row came from the repository read, or was already past it. */
  lemma BeforePurging(c: Config, s: State, step: Step, stripe: nat)
    requires Enabled(c, s, step) && stripe in Apply(c, s, step).ops && Purging(Apply(c, s, step).ops[stripe])
    ensures stripe in s.ops && s.ops[stripe].id == Apply(c, s, step).ops[stripe].id
    ensures Purging(s.ops[stripe])
            || (s.ops[stripe].AskRepo? && s.ops[stripe].id !in s.db && step.Advance? && step.stripe == stripe)
  {
  }

  /** The read that stands at `k` made its repository read at `r`, found no row, and has
      held its stripe on the way out ever since; its row came about exactly if somebody
      inserted it. */
  ghost predicate NotFoundSince(ss: seq<State>, ls: seq<Step>, r: nat, k: nat, stripe: nat, id: SubId)
    requires |ss| == |ls| + 1 && r <= k < |ss|
  {
    && stripe in ss[r].ops && ss[r].ops[stripe].AskRepo? && ss[r].ops[stripe].id == id && id !in ss[r].db
    && (r < k ==> ls[r].Advance? && ls[r].stripe == stripe)
    && (forall m :: r < m <= k ==> stripe in ss[m].ops && Purging(ss[m].ops[stripe]) && ss[m].ops[stripe].id == id)
    && (id in ss[k].db <==> exists m :: r <= m < k && Inserts(ls[m], id))
  }

  lemma {:induction false} PurgeSince(c: Config, ss: seq<State>, ls: seq<Step>, k: nat, stripe: nat) returns (r: nat)
    requires Behaviour(c, ss, ls) && k < |ss| && stripe in ss[k].ops && Purging(ss[k].ops[stripe])
    ensures r <= k && NotFoundSince(ss, ls, r, k, stripe, ss[k].ops[stripe].id)
  {
    var id, p := ss[k].ops[stripe].id, k - 1;
    Holds(c, ss, ls, k);
    assert OpOk(c, ss[k], stripe, ss[k].ops[stripe], Grace(c, ss[0]));
    BeforePurging(c, ss[p], ls[p], stripe);
    RowWhileHeld(c, ss[p], ls[p], id);
    if Purging(ss[p].ops[stripe]) {
      r := PurgeSince(c, ss, ls, p, stripe);
    } else {
      r := p;
    }
    assert (exists m :: r <= m < k && Inserts(ls[m], id)) <==> (exists m :: r <= m < p && Inserts(ls[m], id)) || Inserts(ls[p], id);
  }

  /** A read that answers not-found saw no row at its repository read; at its return
      there is one exactly if somebody inserted it in between. */
  lemma NotFoundExactly(c: Config, ss: seq<State>, ls: seq<Step>, k: nat, stripe: nat, io: Io) returns (r: nat)
    requires Behaviour(c, ss, ls) && k < |ss| && stripe in ss[k].ops
    requires Returned(ss[k], ss[k].ops[stripe], io) == Some(None)
    ensures r <= k && NotFoundSince(ss, ls, r, k, stripe, ss[k].ops[stripe].id)
  {
    if Purging(ss[k].ops[stripe]) {
      r := PurgeSince(c, ss, ls, k, stripe);
    } else {
      r := k;
    }
  }

  /** A read of a missing row, and its creation before the read returns. */
  function LatePlan(c: Config, id: SubId, row: Record, n: nat): Step {
    if n == 0 then BeginGet(id) else if n == 4 then Insert(id, row) else Advance(c.stripeOf(id), Ok)
  }

  /** Where the read stands after `n` steps. */
  function LateOp(id: SubId, n: nat): Op {
    match n
    case 1 => CheckDirty(id)
    case 2 => AskRedis(id)
    case 3 => AskRepo(id, true)
    case 4 => Purge(id)
    case 5 => Purge(id)
    case _ => Purged(id)
  }

  predicate LateAt(c: Config, s: State, id: SubId, row: Record, n: nat) {
    && s.redis == map[] && s.dirty == map[] && (if n <= 4 then id !in s.db else Lookup(s, id) == Some(row))
    && s.ops == if n == 0 then map[] else map[c.stripeOf(id) := LateOp(id, n)]
  }

  lemma LateStep(c: Config, s: State, id: SubId, row: Record, n: nat)
    requires n < 6 && LateAt(c, s, id, row, n)
    ensures Enabled(c, s, LatePlan(c, id, row, n)) && LateAt(c, Apply(c, s, LatePlan(c, id, row, n)), id, row, n + 1)
  {
  }

  /** A row created while a read of it is on its way out: creation takes no stripe. */
  lemma NotFoundCanBeLate(c: Config, now: Time, id: SubId, row: Record) returns (ss: seq<State>, ls: seq<Step>)
    requires 0 <= c.ttl
    ensures Behaviour(c, ss, ls) && |ls| == 6 && Inserts(ls[4], id)
    ensures var s, st := ss[6], c.stripeOf(id);
            st in s.ops && Returned(s, s.ops[st], Ok) == Some(None) && Lookup(s, id) == Some(row)
  {
    ss, ls := [State(now, map[], map[], map[], map[])], [];
    while |ls| < 6
      invariant |ls| <= 6 && Behaviour(c, ss, ls) && LateAt(c, ss[|ls|], id, row, |ls|)
      invariant |ls| > 4 ==> ls[4] == Insert(id, row)
    {
      var step := LatePlan(c, id, row, |ls|);
      LateStep(c, ss[|ls|], id, row, |ls|);
      BehaviourGrows(c, ss, ls, step);
      ss, ls := ss + [Apply(c, ss[|ls|], step)], ls + [step];
    }
  }

  // ---- the operations, uninterrupted ---------------------------------------------------------

  /** In any state, whoever else is at work: a read asks Redis exactly if its key has no live
      mark, and is answered by Redis exactly if Redis then serves a readable copy. */
  lemma RedisAnswersExactly(c: Config, s: State, stripe: nat, io: Io, id: SubId)
    requires stripe in s.ops
    ensures s.ops[stripe] == CheckDirty(id) ==>
      Call(c, s, s.ops[stripe], io).1 ==
        Some(if id in s.dirty && s.now <= s.dirty[id] then AskRepo(id, true) else AskRedis(id))
    ensures s.ops[stripe] == AskRedis(id) ==>
      Returned(s, s.ops[stripe], io) ==
        if io.Ok? && id in s.redis && s.now < s.redis[id].expiry && s.redis[id].value.Some? then Some(s.redis[id].value)
        else None
  {
  }

  /** Entries and marks of all other keys are as they were. */
  ghost predicate SameElsewhere(s: State, s': State, id: SubId) {
    && (forall x :: x != id ==> (x in s'.redis <==> x in s.redis) && (x in s.redis ==> s'.redis[x] == s.redis[x]))
    && (forall x :: x != id ==> (x in s'.dirty <==> x in s.dirty) && (x in s.dirty ==> s'.dirty[x] == s.dirty[x]))
  }

  lemma ElsewhereChain(s: State, t: State, u: State, id: SubId)
    requires SameElsewhere(s, t, id) && SameElsewhere(t, u, id)
    ensures SameElsewhere(s, u, id)
  {
  }

  /** A call of an operation touches the entry and the mark of its own key only. */
  lemma OtherKeysUntouched(c: Config, s: State, stripe: nat, io: Io)
    requires stripe in s.ops
    ensures SameElsewhere(s, Apply(c, s, Advance(stripe, io)), s.ops[stripe].id)
  {
  }

  /** What the three calls of a write amount to. */
  lemma WriteOutcome(c: Config, s: State, id: SubId, write: Option<Record>, del: Io)
    requires c.stripeOf(id) !in s.ops && id in s.db && 0 <= c.ttl
    ensures var st := c.stripeOf(id);
            var s1 := Apply(c, s, BeginWrite(id, write));
            st in s1.ops &&
            var s2 := Apply(c, s1, Advance(st, del));
            st in s2.ops &&
            var s3 := Apply(c, s2, Advance(st, Ok));
            && s3.ops == s.ops
            && s3.db == (if write.Some? then s.db[id := write.value] else s.db - {id})
            && (del.Ok? ==> id !in s3.redis && id !in s3.dirty) && (del.Fails? ==> id in s3.dirty && s3.dirty[id] == s3.now + c.ttl)
            && s3.now == s.now && SameElsewhere(s, s3, id)
  {
  }

  datatype Got = Found(row: Record) | NotFound | Failed

  /** `subscription.State`: each method takes its stripe, makes its calls and lets go. */
  class SubscriptionState {
    const c: Config
    ghost const grace: Time
    var s: State

    ghost predicate Valid()
      reads this
    {
      0 <= c.ttl && Inv(c, s, grace)
    }

    constructor (c: Config, s: State, ghost grace: Time)
      requires 0 <= c.ttl && Inv(c, s, grace)
      ensures Valid() && this.c == c && this.s == s && this.grace == grace
    {
      this.c, this.s, this.grace := c, s, grace;
    }

    method Do(step: Step)
      requires Valid() && Enabled(c, s, step)
      modifies this
      ensures Valid() && s == Apply(c, old(s), step)
    {
      StepKeeps(c, s, step, grace);
      s := Apply(c, s, step);
    }

    /** Take the stripe and look at the dirty mark. */
    method Lock(id: SubId)
      requires Valid() && c.stripeOf(id) !in s.ops
      modifies this
      ensures Valid() && s.db == old(s.db) && s.now == old(s.now) && s.redis == old(s.redis)
      ensures IsDirty(old(s), id) || id !in s.dirty
      ensures SameElsewhere(old(s), s, id)
      ensures s.ops == old(s.ops)[c.stripeOf(id) := if IsDirty(old(s), id) then AskRepo(id, true) else AskRedis(id)]
    {
      Do(BeginGet(id));
      Do(Advance(c.stripeOf(id), Ok));
    }

    /** An unmarked key is answered by the copy Redis still serves, whatever the repository
        would do; everything else by the repository. */
    method GetByID(id: SubId, get: Io, repo: Io, put: Io) returns (r: Got)
      requires Valid() && c.stripeOf(id) !in s.ops
      modifies this
      ensures Valid() && s.db == old(s.db) && s.ops == old(s.ops) && s.now == old(s.now) && SameElsewhere(old(s), s, id)
      ensures r.Found? && grace <= s.now ==> Lookup(s, id) == Some(r.row)
      ensures r.NotFound? ==> Lookup(s, id) == None
      ensures r.Failed? ==> repo.Fails?
      ensures get.Ok? && !(id in old(s.dirty) && old(s.now) <= old(s.dirty)[id])
              && id in old(s.redis) && old(s.now) < old(s.redis)[id].expiry && old(s.redis)[id].value.Some? ==>
        r == Found(old(s.redis)[id].value.value) && s.redis == old(s.redis) && id !in s.dirty
      ensures get.Fails? || (id in old(s.dirty) && old(s.now) <= old(s.dirty)[id])
              || id !in old(s.redis) || old(s.redis)[id].expiry <= old(s.now) || old(s.redis)[id].value.None? ==>
        r == if repo.Fails? then Failed else if id in s.db then Found(s.db[id]) else NotFound
      ensures r.Found? && get.Ok? && put.Ok? && 0 < c.ttl ==>
        id in s.redis && s.now < s.redis[id].expiry && s.redis[id].value == Some(r.row) && id !in s.dirty
      ensures get.Fails? && !(id in old(s.dirty) && old(s.now) <= old(s.dirty)[id]) ==> s.redis == old(s.redis)
      ensures id in old(s.dirty) && old(s.now) <= old(s.dirty)[id] && r.Found? && put.Fails? ==>
        id in s.dirty && s.dirty[id] == s.now + c.ttl
    {
      var hit := TryRedis(id, get);
      if hit.Some? { return Found(hit.value); }
      ghost var asked := s;
      r := FromRepo(id, repo, put);
      ElsewhereChain(old(s), asked, s, id);
    }

    /** A marked key goes past Redis. */
    method TryRedis(id: SubId, get: Io) returns (hit: Option<Record>)
      requires Valid() && c.stripeOf(id) !in s.ops
      modifies this
      ensures Valid() && s.db == old(s.db) && s.now == old(s.now) && s.redis == old(s.redis) && SameElsewhere(old(s), s, id)
      ensures var marked := id in old(s.dirty) && s.now <= old(s.dirty)[id];
              && (!marked ==> id !in s.dirty)
              && (hit.Some? <==> !marked && get.Ok? && id in s.redis && s.now < s.redis[id].expiry && s.redis[id].value.Some?)
              && (hit.None? ==> s.ops == old(s.ops)[c.stripeOf(id) := AskRepo(id, marked || get.Ok?)])
      ensures hit.Some? ==> hit == s.redis[id].value && s.ops == old(s.ops)
      ensures hit.Some? && grace <= s.now ==> Lookup(s, id) == hit
    {
      Lock(id);
      if s.ops[c.stripeOf(id)].AskRepo? { return None; }
      hit := FromRedis(id, get);
    }

    /** The copy in Redis, if Redis answers and still serves one that can be read. */
    method FromRedis(id: SubId, get: Io) returns (hit: Option<Record>)
      requires Valid() && c.stripeOf(id) in s.ops && s.ops[c.stripeOf(id)] == AskRedis(id)
      modifies this
      ensures Valid() && s == old(s).(ops := s.ops)
      ensures hit.Some? <==> get.Ok? && id in s.redis && s.now < s.redis[id].expiry && s.redis[id].value.Some?
      ensures hit.Some? ==> hit == s.redis[id].value && s.ops == old(s.ops) - {c.stripeOf(id)}
      ensures hit.Some? && grace <= s.now ==> Lookup(s, id) == hit
      ensures hit.None? ==> s.ops == old(s.ops)[c.stripeOf(id) := AskRepo(id, get.Ok?)]
    {
      var st := c.stripeOf(id);
      assert OpOk(c, s, st, s.ops[st], grace);
      var answer := Returned(s, s.ops[st], get);
      Do(Advance(st, get));
      hit := if answer.Some? then answer.value else None;
    }

    /** The fall-back to the repository, and the refill. */
    method FromRepo(id: SubId, repo: Io, put: Io) returns (r: Got)
      requires Valid() && c.stripeOf(id) in s.ops
      requires s.ops[c.stripeOf(id)].AskRepo? && s.ops[c.stripeOf(id)].id == id
      modifies this
      ensures Valid() && s.db == old(s.db) && s.ops == old(s.ops) - {c.stripeOf(id)} && s.now == old(s.now)
      ensures SameElsewhere(old(s), s, id)
      ensures r == if repo.Fails? then Failed else if id in s.db then Found(s.db[id]) else NotFound
      ensures old(s.ops[c.stripeOf(id)]).refill && r.Found? && put.Ok? ==>
        id in s.redis && s.redis[id] == Entry(Some(r.row), s.now + c.ttl) && id !in s.dirty
      ensures old(s.ops[c.stripeOf(id)]).refill && r.NotFound? && put.Ok? ==> id !in s.redis && id !in s.dirty
      ensures old(s.ops[c.stripeOf(id)]).refill && r.Found? && put.Fails? ==> id in s.dirty && s.dirty[id] == s.now + c.ttl
      ensures !old(s.ops[c.stripeOf(id)]).refill || repo.Fails? ==> s.redis == old(s.redis) && s.dirty == old(s.dirty)
    {
      var st := c.stripeOf(id);
      r := if repo.Fails? then Failed else if id in s.db then Found(s.db[id]) else NotFound;
      Do(Advance(st, repo));
      if st in s.ops { Refill(id, put); }
    }

    /** Redis is told what the repository answered, and the mark follows. */
    method Refill(id: SubId, put: Io)
      requires Valid() && c.stripeOf(id) in s.ops
      requires s.ops[c.stripeOf(id)] == if id in s.db then Fill(id, s.db[id]) else Purge(id)
      modifies this
      ensures Valid() && s.db == old(s.db) && s.ops == old(s.ops) - {c.stripeOf(id)} && s.now == old(s.now)
      ensures SameElsewhere(old(s), s, id)
      ensures put.Ok? ==> id !in s.dirty
      ensures put.Ok? && id in s.db ==> id in s.redis && s.redis[id] == Entry(Some(s.db[id]), s.now + c.ttl)
      ensures put.Ok? && id !in s.db ==> id !in s.redis
      ensures put.Fails? && id in s.db ==> id in s.dirty && s.dirty[id] == s.now + c.ttl
      ensures put.Fails? && id !in s.db ==> s.dirty == old(s.dirty)
    {
      var st := c.stripeOf(id);
      OtherKeysUntouched(c, s, st, put);
      Do(Advance(st, put));
      if st in s.ops {
        OtherKeysUntouched(c, s, st, Ok);
        Do(Advance(st, Ok));
      }
    }

    /** What every mutation comes to: the row is written and the copy evicted before the
        stripe is free again. */
    method Write(id: SubId, write: Option<Record>, del: Io) returns (ok: bool)
      requires Valid() && c.stripeOf(id) !in s.ops
      modifies this
      ensures Valid() && s.ops == old(s.ops) && ok == (id in old(s.db)) && (!ok ==> s == old(s))
      ensures s.db == if !ok then old(s.db) else if write.Some? then old(s.db)[id := write.value] else old(s.db) - {id}
      ensures ok && del.Ok? ==> id !in s.redis && id !in s.dirty
      ensures ok && del.Fails? ==> id in s.dirty && s.dirty[id] == s.now + c.ttl
      ensures s.now == old(s.now) && SameElsewhere(old(s), s, id)
    {
      if id !in s.db { return false; }
      WriteOutcome(c, s, id, write, del);
      var st := c.stripeOf(id);
      Do(BeginWrite(id, write));
      Do(Advance(st, del));
      Do(Advance(st, Ok));
      return true;
    }

    /** The operator's fields change; secrets and the failure counter do not. */
    method Update(id: SubId, url: string, eventTypes: seq<string>, active: bool, del: Io) returns (ok: bool)
      requires Valid() && c.stripeOf(id) !in s.ops
      modifies this
      ensures Valid() && s.ops == old(s.ops) && ok == (id in old(s.db))
      ensures !ok ==> s == old(s)
      ensures ok ==>
        s.db == old(s.db)[id := old(s.db)[id].(url := url, eventTypes := eventTypes, active := active)]
      ensures ok ==> if del.Ok? then id !in s.redis && id !in s.dirty else id in s.dirty && s.dirty[id] == s.now + c.ttl
      ensures s.now == old(s.now) && SameElsewhere(old(s), s, id)
    {
      if id !in s.db { return false; }
      ok := Write(id, Some(s.db[id].(url := url, eventTypes := eventTypes, active := active)), del);
    }

    /** The secret in use becomes the previous one, whatever was previous before. */
    method RotateSecret(id: SubId, newSecret: string, del: Io) returns (r: Option<Record>)
      requires Valid() && c.stripeOf(id) !in s.ops
      modifies this
      ensures Valid() && s.ops == old(s.ops) && r.Some? == (id in old(s.db))
      ensures r.None? ==> s == old(s)
      ensures r.Some? ==> Lookup(s, id) == r && s.db == old(s.db)[id := r.value]
      ensures r.Some? ==>
        && r.value.secret == newSecret && r.value.previous == old(s.db)[id].secret && r.value.rotated == Some(old(s.now))
        && r.value.active == old(s.db)[id].active && r.value.failures == old(s.db)[id].failures
        && r.value.url == old(s.db)[id].url && r.value.eventTypes == old(s.db)[id].eventTypes
      ensures r.Some? ==> if del.Ok? then id !in s.redis && id !in s.dirty else id in s.dirty && s.dirty[id] == s.now + c.ttl
      ensures s.now == old(s.now) && SameElsewhere(old(s), s, id)
    {
      if id !in s.db { return None; }
      var row := s.db[id].(previous := s.db[id].secret, secret := newSecret, rotated := Some(s.now));
      var _ := Write(id, Some(row), del);
      return Some(row);
    }

    method Delete(id: SubId, del: Io) returns (ok: bool)
      requires Valid() && c.stripeOf(id) !in s.ops
      modifies this
      ensures Valid() && s.ops == old(s.ops) && ok == (id in old(s.db)) && Lookup(s, id) == None
      ensures forall x :: x != id ==> Lookup(s, x) == Lookup(old(s), x)
      ensures ok ==> if del.Ok? then id !in s.redis && id !in s.dirty else id in s.dirty && s.dirty[id] == s.now + c.ttl
      ensures s.now == old(s.now) && SameElsewhere(old(s), s, id)
    {
      ok := Write(id, None, del);
    }
  }
}
