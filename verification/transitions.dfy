/** What each step does to the tables and which steps do it: for every kind of change,
    the exact cause, read off the submitted values and the rows and not off the
    transactions. */
module Transitions {
  import opened Domain
  import opened Ledger
  import opened Program
  import opened Lifecycle
  import opened Preservation
  import opened Theorems
  import Store

  // ---- the writes that follow a reply -------------------------------------------------------

  /** The step is the write of a run that has its reply, and its row is still pending. */
  predicate Settles(s: State, step: Step, id: RowId) {
    step.Act? && step.w in s.workers && s.workers[step.w].Settling? && s.workers[step.w].log.id == id
    && step.a.Write? && step.a.done && id in s.db.rows && s.db.rows[id].status.Pending?
  }

  function ReplyTo(s: State, step: Step, id: RowId): Reply
    requires Settles(s, step, id)
  {
    s.workers[step.w].reply
  }

  predicate Succeeds(s: State, step: Step, id: RowId) {
    Settles(s, step, id) && Accepts(ReplyTo(s, step, id))
  }

  /** The attempt failed and the budget allows another. */
  predicate Retries(c: Config, s: State, step: Step, id: RowId) {
    Settles(s, step, id) && !Accepts(ReplyTo(s, step, id)) && s.workers[step.w].log.attempt < c.maxAttempts
  }

  /** The last attempt of the budget failed. */
  predicate Fails(c: Config, s: State, step: Step, id: RowId) {
    Settles(s, step, id) && !Accepts(ReplyTo(s, step, id)) && c.maxAttempts <= s.workers[step.w].log.attempt
  }

  /** The step drops the pending row of an inactive subscription. */
  predicate DropsRow(s: State, step: Step, id: RowId) {
    step.Act? && step.w in s.workers && s.workers[step.w].Dropping? && s.workers[step.w].log.id == id
    && step.a.Drop? && step.a.done && id in s.db.rows && s.db.rows[id].status.Pending?
  }

  /** A run's call leaves every row alone that is neither its own nor inserted by it. */
  lemma OthersKept(c: Config, s: State, pc: Pc, a: Action, id: RowId)
    requires Calls(pc, a) && id != pc.log.id && (a.Write? ==> a.succ != id)
    ensures var rows := Effect(c, s, pc, a).db.rows;
            (id in rows <==> id in s.db.rows) && (id in rows ==> rows[id] == s.db.rows[id])
  {
  }

  /** A row that is not pending is left alone by its runs too. */
  lemma DecidedKept(c: Config, s: State, pc: Pc, a: Action)
    requires Calls(pc, a) && !Store.IsPending(s.db, pc.log.id)
    requires pc.Loaded? && a.won ==> Store.ClaimPending(s.db, pc.log.id, c.lease).1
    ensures Effect(c, s, pc, a).db == s.db
  {
  }

  /** A run's write records the reply and leaves identity and due time alone. */
  lemma SettledColumns(c: Config, s: State, step: Step, id: RowId)
    requires Enabled(c, s, step) && Settles(s, step, id) && step.a.succ != id
    ensures id in Apply(c, s, step).db.rows && var row := Apply(c, s, step).db.rows[id];
            && BirthOf(row) == BirthOf(s.db.rows[id]) && row.next == s.db.rows[id].next && row.updated == s.db.now
            && row.http == ReplyTo(s, step, id).http
  {
    OutcomeIs(c, s, s.workers[step.w], step.a);
  }

  lemma SuccessColumns(c: Config, s: State, step: Step, id: RowId)
    requires Enabled(c, s, step) && Succeeds(s, step, id)
    ensures id in Apply(c, s, step).db.rows && var row := Apply(c, s, step).db.rows[id];
            row.status == Success && row.detail == "" && row.inDlq == s.db.rows[id].inDlq
  {
    OutcomeIs(c, s, s.workers[step.w], step.a);
  }

  lemma FailedColumns(c: Config, s: State, step: Step, id: RowId)
    requires Enabled(c, s, step) && Retries(c, s, step, id) && step.a.succ != id
    ensures id in Apply(c, s, step).db.rows && var row := Apply(c, s, step).db.rows[id];
            row.status == FailedAttempt && row.detail == ReplyTo(s, step, id).detail && row.inDlq == s.db.rows[id].inDlq
  {
    OutcomeIs(c, s, s.workers[step.w], step.a);
  }

  lemma FinalColumns(c: Config, s: State, step: Step, id: RowId)
    requires Enabled(c, s, step) && Fails(c, s, step, id)
    ensures id in Apply(c, s, step).db.rows && var row := Apply(c, s, step).db.rows[id];
            row.status == FinalFailure && row.detail == ReplyTo(s, step, id).detail && row.inDlq
  {
    OutcomeIs(c, s, s.workers[step.w], step.a);
  }

  // ---- rows appear ------------------------------------------------------------------------

  /** The submission is well-formed, names a subscription that exists, and brings no key
      that is already taken. */
  predicate Acceptable(db: Db, p: Store.IngestParams) {
    && p.validJson && Store.Utf8Length(p.event.url) <= 2048 && |p.event.eventType| <= 100
    && p.sub in db.subs && (p.key == "" || (p.sub, p.key) !in db.idem)
  }

  predicate InsertsFirst(s: State, step: Step, id: RowId) {
    step.Ingest? && step.row == id && Acceptable(s.db, step.p)
  }

  predicate InsertsReplay(step: Step, id: RowId) {
    step.Replay? && step.row == id
  }

  ghost predicate InsertsRetry(c: Config, s: State, step: Step, id: RowId) {
    step.Act? && step.a.Write? && step.a.succ == id && step.w in s.workers && Retries(c, s, step, s.workers[step.w].log.id)
  }

  lemma CallInserts(c: Config, s: State, w: nat, a: Action, id: RowId)
    requires Enabled(c, s, Act(w, a)) && id !in s.db.rows
    ensures id in Effect(c, s, s.workers[w], a).db.rows <==> InsertsRetry(c, s, Act(w, a), id)
  {
    var pc := s.workers[w];
    if pc.log.id == id {
      DecidedKept(c, s, pc, a);
    } else if !(a.Write? && a.succ == id) {
      OthersKept(c, s, pc, a, id);
    }
  }

  /** A row appears exactly by an accepted submission, a replay, or a failed attempt with
      budget left. */
  lemma RowComesExactly(c: Config, s: State, step: Step, id: RowId)
    requires Enabled(c, s, step) && id !in s.db.rows
    ensures id in Apply(c, s, step).db.rows <==>
            InsertsFirst(s, step, id) || InsertsReplay(step, id) || InsertsRetry(c, s, step, id)
  {
    if step.Act? { CallInserts(c, s, step.w, step.a, id); }
  }

  predicate IsFresh(row: Row, now: Time) {
    row.status == Pending && !row.inDlq && row.http == None && row.detail == "" && row.created == now && row.updated == now
  }

  /** A first attempt carries what was submitted and is due at once. */
  lemma FirstColumns(c: Config, s: State, p: Store.IngestParams, id: RowId)
    requires Enabled(c, s, Ingest(p, id)) && Acceptable(s.db, p)
    ensures var db := Apply(c, s, Ingest(p, id)).db;
            id in db.rows && var row := db.rows[id];
            && row.hook == p.hook && row.sub == p.sub && row.event.url == p.event.url
            && row.event.payload == p.event.payload && row.event.eventType == p.event.eventType
            && row.attempt == 1 && row.replay == 0 && row.next == Some(s.db.now) && IsFresh(row, s.db.now)
            && (p.key != "" ==> (p.sub, p.key) in db.idem && db.idem[(p.sub, p.key)] == Idem(p.hook, s.db.now))
  {
  }

  /** A retry repeats the failed attempt under the next number, at the time chosen. */
  lemma RetryColumns(c: Config, s: State, w: nat, a: Action)
    requires Enabled(c, s, Act(w, a)) && s.workers[w].Settling? && s.workers[w].log.id != a.succ
    requires Retries(c, s, Act(w, a), s.workers[w].log.id)
    ensures var was, rows := s.db.rows[s.workers[w].log.id], Apply(c, s, Act(w, a)).db.rows;
            a.succ in rows && var row := rows[a.succ];
            && row.hook == was.hook && row.sub == was.sub && row.event == was.event && row.replay == was.replay
            && row.attempt == was.attempt + 1 && row.next == Some(a.at) && IsFresh(row, s.db.now)
  {
  }

  /** A replay starts the next chain of the webhook, due at once. */
  lemma ReplayColumns(c: Config, s: State, sub: SubId, hook: HookId, claimed: RowId, id: RowId)
    requires Enabled(c, s, Replay(sub, hook, claimed, id)) && id !in s.db.rows
    ensures claimed in s.db.rows
    ensures var was, rows := s.db.rows[claimed], Apply(c, s, Replay(sub, hook, claimed, id)).db.rows;
            && was.inDlq && was.sub == sub && was.hook == hook && id in rows
            && var row := rows[id];
               row.hook == hook && row.sub == sub && row.event == was.event && row.replay == was.replay + 1
               && row.attempt == 1 && row.next == Some(s.db.now) && IsFresh(row, s.db.now)
  {
  }

  // ---- rows end -----------------------------------------------------------------------------

  lemma CallKeepsRow(c: Config, s: State, pc: Pc, a: Action, id: RowId)
    requires Calls(pc, a) && id in s.db.rows
    ensures id in Effect(c, s, pc, a).db.rows
  {
  }

  /** A row leaves the table exactly with its subscription, or by retention once it is
      settled and older than the configured time. */
  lemma RowGoesExactly(c: Config, s: State, step: Step, id: RowId)
    requires Enabled(c, s, step) && id in s.db.rows
    ensures var row := s.db.rows[id];
            id !in Apply(c, s, step).db.rows <==>
              || step == DeleteSub(row.sub)
              || (step.Expire? && row.created < s.db.now - Store.Interval(step.retention)
                  && !row.status.Pending? && !row.inDlq)
  {
    if step.Act? { CallKeepsRow(c, s, s.workers[step.w], step.a, id); }
  }

  lemma CallDecides(c: Config, s: State, w: nat, a: Action, id: RowId)
    requires Enabled(c, s, Act(w, a)) && Store.IsPending(s.db, id) && (a.Write? ==> a.succ != id)
    ensures Store.IsPending(Effect(c, s, s.workers[w], a).db, id) <==>
            !Settles(s, Act(w, a), id) && !DropsRow(s, Act(w, a), id)
  {
    var pc := s.workers[w];
    if pc.log.id != id { OthersKept(c, s, pc, a, id); }
  }

  /** A pending row that stays in the table is decided exactly by the write of a run that
      has its reply, or by a drop. */
  lemma DecidedExactly(c: Config, s: State, step: Step, id: RowId)
    requires Recorded(s.db.rows, s.h.book) && Enabled(c, s, step)
    requires Store.IsPending(s.db, id) && id in Apply(c, s, step).db.rows
    ensures !Apply(c, s, step).db.rows[id].status.Pending? <==> Settles(s, step, id) || DropsRow(s, step, id)
  {
    if step.Act? {
      CallDecides(c, s, step.w, step.a, id);
    } else {
      PlainKeepsPending(c, s, step, id);
    }
  }

  lemma PlainKeepsPending(c: Config, s: State, step: Step, id: RowId)
    requires s.db.rows.Keys <= s.h.book.born.Keys && Enabled(c, s, step) && !step.Act?
    requires Store.IsPending(s.db, id) && id in Apply(c, s, step).db.rows
    ensures Store.IsPending(Apply(c, s, step).db, id)
  {
  }

  // ---- rows change -----------------------------------------------------------------------------

  /** The step is the claim of the row. */
  predicate Claims(s: State, step: Step, id: RowId) {
    step.Act? && step.w in s.workers && s.workers[step.w].Loaded? && s.workers[step.w].log.id == id
    && step.a.Claim? && step.a.won
  }

  /** The step puts off the row of a run that was denied. */
  predicate Delays(s: State, step: Step, id: RowId) {
    step.Act? && step.w in s.workers && s.workers[step.w].Denied? && s.workers[step.w].log.id == id
    && step.a.Write? && step.a.done
  }

  /** The moment to which the step moves the due time of a pending row, if it does. */
  function MovedTo(c: Config, s: State, step: Step, id: RowId): Option<Time> {
    if Claims(s, step, id) then Some(s.db.now + Store.Interval(c.lease))
    else if Delays(s, step, id) then Some(s.workers[step.w].at)
    else if step.Rearm? && id in step.ids then Some(s.db.now)
    else None
  }

  predicate DueMoved(was: Row, row: Row, to: Option<Time>, now: Time) {
    row == if to.Some? then was.(next := to, updated := now) else was
  }

  lemma CallMovesDue(c: Config, s: State, w: nat, a: Action, id: RowId)
    requires Enabled(c, s, Act(w, a)) && Store.IsPending(s.db, id) && (a.Write? ==> a.succ != id)
    requires Store.IsPending(Effect(c, s, s.workers[w], a).db, id)
    ensures DueMoved(s.db.rows[id], Effect(c, s, s.workers[w], a).db.rows[id], MovedTo(c, s, Act(w, a), id), s.db.now)
  {
    var pc := s.workers[w];
    if pc.log.id != id { OthersKept(c, s, pc, a, id); }
  }

  /** A pending row that stays pending changes in its due time alone, exactly when it is
      claimed, put off or rearmed. */
  lemma PendingColumns(c: Config, s: State, step: Step, id: RowId)
    requires Recorded(s.db.rows, s.h.book) && Enabled(c, s, step)
    requires Store.IsPending(s.db, id) && !s.db.rows[id].inDlq && Store.IsPending(Apply(c, s, step).db, id)
    ensures DueMoved(s.db.rows[id], Apply(c, s, step).db.rows[id], MovedTo(c, s, step, id), s.db.now)
  {
    if step.Act? {
      CallMovesDue(c, s, step.w, step.a, id);
    } else {
      PlainMovesDue(c, s, step, id);
    }
  }

  lemma PlainMovesDue(c: Config, s: State, step: Step, id: RowId)
    requires s.db.rows.Keys <= s.h.book.born.Keys && Enabled(c, s, step) && !step.Act?
    requires Store.IsPending(s.db, id) && Store.IsPending(Apply(c, s, step).db, id) && !s.db.rows[id].inDlq
    ensures DueMoved(s.db.rows[id], Apply(c, s, step).db.rows[id], MovedTo(c, s, step, id), s.db.now)
  {
  }

  /** A decided row that stays in the table changes only by leaving the DLQ. */
  lemma DecidedColumns(c: Config, s: State, step: Step, id: RowId)
    requires Recorded(s.db.rows, s.h.book) && Enabled(c, s, step)
    requires id in s.db.rows && !s.db.rows[id].status.Pending? && id in Apply(c, s, step).db.rows
    ensures Apply(c, s, step).db.rows[id] == Released(s, step, id)
  {
    if step.Act? {
      CallKeepsDecided(c, s, step.w, step.a, id);
    } else {
      PlainKeepsDecided(c, s, step, id);
    }
  }

  /** The row without its flag if the step takes it off the DLQ. */
  function Released(s: State, step: Step, id: RowId): Row
    requires id in s.db.rows
  {
    var was := s.db.rows[id];
    if was.inDlq && Unflags(s, step, id) then was.(inDlq := false, updated := s.db.now) else was
  }

  lemma CallKeepsDecided(c: Config, s: State, w: nat, a: Action, id: RowId)
    requires Enabled(c, s, Act(w, a)) && id in s.db.rows && !s.db.rows[id].status.Pending? && (a.Write? ==> a.succ != id)
    ensures var rows := Effect(c, s, s.workers[w], a).db.rows;
            id in rows && rows[id] == s.db.rows[id]
  {
    var pc := s.workers[w];
    if pc.log.id == id { DecidedKept(c, s, pc, a); } else { OthersKept(c, s, pc, a, id); }
  }

  lemma PlainKeepsDecided(c: Config, s: State, step: Step, id: RowId)
    requires s.db.rows.Keys <= s.h.book.born.Keys && Enabled(c, s, step) && !step.Act?
    requires id in s.db.rows && !s.db.rows[id].status.Pending? && id in Apply(c, s, step).db.rows
    ensures Apply(c, s, step).db.rows[id] == Released(s, step, id)
  {
  }

  /** A drop says why and keeps the row out of the DLQ. */
  lemma DroppedColumns(c: Config, s: State, step: Step, id: RowId)
    requires Enabled(c, s, step) && DropsRow(s, step, id)
    ensures id in Apply(c, s, step).db.rows && var row := Apply(c, s, step).db.rows[id];
            && BirthOf(row) == BirthOf(s.db.rows[id]) && row.status == FinalFailure && !row.inDlq
            && row.http == None && row.next == None && row.detail == "subscription deactivated" && row.updated == s.db.now
  {
  }

  // ---- the dead-letter queue ------------------------------------------------------------------

  lemma CallFlags(c: Config, s: State, w: nat, a: Action, id: RowId)
    requires Enabled(c, s, Act(w, a)) && Recorded(s.db.rows, s.h.book)
    requires id in s.db.rows ==> ShapeOf(c.maxAttempts, s.db.rows[id])
    ensures Flagged(Effect(c, s, s.workers[w], a).db, id) <==> Flagged(s.db, id) || Fails(c, s, Act(w, a), id)
  {
    var pc := s.workers[w];
    if id !in s.db.rows {
      CallInserts(c, s, w, a, id);
      if pc.log.id == id { DecidedKept(c, s, pc, a); }
    } else if pc.log.id != id {
      OthersKept(c, s, pc, a, id);
    } else if !Store.IsPending(s.db, id) {
      DecidedKept(c, s, pc, a);
    }
  }

  /** The step takes the row off the DLQ: an ack or a replay by its own subscription, the
      safety valve past the age, or the end of the subscription. */
  predicate Unflags(s: State, step: Step, id: RowId)
    requires id in s.db.rows
  {
    var row := s.db.rows[id];
    || (step.Ack? && step.sub == row.sub && step.hook == row.hook)
    || (step.Replay? && step.sub == row.sub && step.hook == row.hook)
    || (step.ForceAck? && row.updated < s.db.now - Store.Interval(step.maxAge))
    || step == DeleteSub(row.sub)
  }

  /** In the DLQ afterwards: exactly the rows that were and were not taken off, and the
      row whose last attempt failed. */
  lemma FlaggedExactly(c: Config, s: State, step: Step, id: RowId)
    requires SoundState(c, s) && Enabled(c, s, step)
    ensures Flagged(Apply(c, s, step).db, id) <==>
            (Flagged(s.db, id) && !Unflags(s, step, id)) || Fails(c, s, step, id)
  {
    assert id in s.db.rows ==> ShapeOf(c.maxAttempts, s.db.rows[id]);
    if step.Act? {
      CallFlags(c, s, step.w, step.a, id);
    } else {
      PlainFlags(c, s, step, id);
    }
  }

  lemma PlainFlags(c: Config, s: State, step: Step, id: RowId)
    requires Recorded(s.db.rows, s.h.book) && Enabled(c, s, step) && !step.Act?
    ensures Flagged(Apply(c, s, step).db, id) <==> Flagged(s.db, id) && !Unflags(s, step, id)
  {
  }

  // ---- subscriptions ------------------------------------------------------------------------

  /** The last attempt of one of the subscription's webhooks failed. */
  ghost predicate FailsFor(c: Config, s: State, step: Step, sub: SubId) {
    step.Act? && step.w in s.workers && s.workers[step.w].log.sub == sub && Fails(c, s, step, s.workers[step.w].log.id)
  }

  ghost predicate SucceedsFor(s: State, step: Step, sub: SubId) {
    step.Act? && step.w in s.workers && s.workers[step.w].log.sub == sub && Succeeds(s, step, s.workers[step.w].log.id)
  }

  /** What the subscription row becomes, given whether this is one of its final failures
      or one of its successes. */
  predicate SubFollows(c: Config, was: Sub, after: Sub, fails: bool, succeeds: bool) {
    && after.failures == (if fails then was.failures + 1 else if succeeds then 0 else was.failures)
    && (after.active <==> was.active && !(fails && c.disableThreshold <= was.failures + 1))
  }

  lemma QuietSubs(c: Config, s: State, pc: Pc, a: Action)
    requires Calls(pc, a) && (pc.Settling? ==> !a.done || !Store.IsPending(s.db, pc.log.id))
    ensures Effect(c, s, pc, a).db.subs == s.db.subs
  {
  }

  lemma OutcomeSub(c: Config, s: State, w: nat, a: Action, sub: SubId)
    requires Enabled(c, s, Act(w, a)) && sub in s.db.subs && Settles(s, Act(w, a), s.workers[w].log.id)
    ensures sub in Effect(c, s, s.workers[w], a).db.subs
    ensures SubFollows(c, s.db.subs[sub], Effect(c, s, s.workers[w], a).db.subs[sub],
                       FailsFor(c, s, Act(w, a), sub), SucceedsFor(s, Act(w, a), sub))
  {
    OutcomeIs(c, s, s.workers[w], a);
  }

  /** A call counts one final failure, resets on one success, and disables exactly at the
      threshold. */
  lemma CallSub(c: Config, s: State, w: nat, a: Action, sub: SubId)
    requires Enabled(c, s, Act(w, a)) && sub in s.db.subs
    ensures sub in Effect(c, s, s.workers[w], a).db.subs
    ensures SubFollows(c, s.db.subs[sub], Effect(c, s, s.workers[w], a).db.subs[sub],
                       FailsFor(c, s, Act(w, a), sub), SucceedsFor(s, Act(w, a), sub))
  {
    if Settles(s, Act(w, a), s.workers[w].log.id) {
      OutcomeSub(c, s, w, a, sub);
    } else {
      QuietSubs(c, s, s.workers[w], a);
    }
  }

  lemma CallKeepsSubs(c: Config, s: State, pc: Pc, a: Action)
    requires Calls(pc, a)
    ensures Effect(c, s, pc, a).db.subs.Keys == s.db.subs.Keys
  {
  }

  /** A subscription is there exactly if it was just created, or was there and was not just
      deleted. A new one has the flag it was created with and no failures. */
  lemma SubThereExactly(c: Config, s: State, step: Step, sub: SubId)
    requires Enabled(c, s, step)
    ensures sub in Apply(c, s, step).db.subs <==>
            (step.CreateSub? && step.sub == sub) || (sub in s.db.subs && step != DeleteSub(sub))
    ensures step.CreateSub? && step.sub == sub ==> Apply(c, s, step).db.subs[sub] == Sub(step.active, 0)
  {
    if step.Act? { CallKeepsSubs(c, s, s.workers[step.w], step.a); }
  }

  // ---- the counter over runs ----------------------------------------------------------------

  /** The final failures of the subscription's webhooks since its last success. */
  ghost function FailuresSince(c: Config, ss: seq<State>, ls: seq<Step>, k: nat, sub: SubId): nat
    requires k <= |ls| <= |ss|
  {
    if k == 0 then 0
    else if FailsFor(c, ss[k - 1], ls[k - 1], sub) then FailuresSince(c, ss, ls, k - 1, sub) + 1
    else if SucceedsFor(ss[k - 1], ls[k - 1], sub) || (ls[k - 1].CreateSub? && ls[k - 1].sub == sub) then 0
    else FailuresSince(c, ss, ls, k - 1, sub)
  }

  lemma StepFailures(c: Config, s: State, step: Step, sub: SubId)
    requires Enabled(c, s, step) && sub in s.db.subs && sub in Apply(c, s, step).db.subs && !(step.CreateSub? && step.sub == sub)
    ensures Apply(c, s, step).db.subs[sub].failures ==
            if FailsFor(c, s, step, sub) then s.db.subs[sub].failures + 1
            else if SucceedsFor(s, step, sub) then 0
            else s.db.subs[sub].failures
  {
    if step.Act? { CallSub(c, s, step.w, step.a, sub); }
  }

  /** In every state of every run the counter is the number of final failures since the
      last success. */
  lemma {:induction false} CounterIsStreak(c: Config, ss: seq<State>, ls: seq<Step>, k: nat, sub: SubId)
    requires Behaviour(c, ss, ls) && k < |ss| && sub in ss[k].db.subs
    ensures ss[k].db.subs[sub].failures == FailuresSince(c, ss, ls, k, sub)
  {
    if k > 0 {
      var s, step := ss[k - 1], ls[k - 1];
      SubThereExactly(c, s, step, sub);
      if sub in s.db.subs {
        CounterIsStreak(c, ss, ls, k - 1, sub);
        Reached(c, ss, ls, k - 1);
        assert sub in s.h.subLog;
        StepFailures(c, s, step, sub);
      }
    }
  }

  /** Active afterwards: exactly what an operator wrote; otherwise as before, unless this
      is the final failure that brings the streak to the threshold. */
  lemma ActiveExactly(c: Config, ss: seq<State>, ls: seq<Step>, k: nat, sub: SubId)
    requires Behaviour(c, ss, ls) && k < |ls| && sub in ss[k].db.subs && sub in ss[k + 1].db.subs
    ensures ss[k + 1].db.subs[sub].active <==>
            if ls[k].UpdateSub? && ls[k].sub == sub then ls[k].active
            else ss[k].db.subs[sub].active
                 && !(FailsFor(c, ss[k], ls[k], sub) && c.disableThreshold <= FailuresSince(c, ss, ls, k, sub) + 1)
  {
    Reached(c, ss, ls, k);
    CounterIsStreak(c, ss, ls, k, sub);
    assert sub in ss[k].h.subLog;
    StepActive(c, ss[k], ls[k], sub);
  }

  lemma StepActive(c: Config, s: State, step: Step, sub: SubId)
    requires Enabled(c, s, step) && sub in s.db.subs && sub in s.h.subLog && sub in Apply(c, s, step).db.subs
    ensures Apply(c, s, step).db.subs[sub].active <==>
            if step.UpdateSub? && step.sub == sub then step.active
            else s.db.subs[sub].active
                 && !(FailsFor(c, s, step, sub) && c.disableThreshold <= s.db.subs[sub].failures + 1)
  {
    if step.Act? { CallSub(c, s, step.w, step.a, sub); }
  }

  // ---- idempotency keys -----------------------------------------------------------------------

  /** A key is forgotten exactly with its subscription, or once it is older than the
      configured time. */
  lemma KeyGoesExactly(c: Config, s: State, step: Step, key: (SubId, string))
    requires Enabled(c, s, step) && key in s.db.idem
    ensures key !in Apply(c, s, step).db.idem <==>
            || step == DeleteSub(key.0)
            || (step.Prune? && s.db.idem[key].created < s.db.now - Store.Interval(step.ttl))
  {
    if step.Act? { EffectKeepsKeys(c, s, s.workers[step.w], step.a); }
  }
}
