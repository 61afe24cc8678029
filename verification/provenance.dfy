/** Where the columns of a row come from, over whole runs: the submission that was
    accepted, the reply that was received, the moment it entered the DLQ. */
module Provenance {
  import opened Domain
  import opened Ledger
  import opened Program
  import opened Lifecycle
  import opened Preservation
  import opened Theorems
  import opened Transitions
  import Store

  // ---- the submission -----------------------------------------------------------------------

  lemma StepOrigin(c: Config, s: State, step: Step, hook: HookId)
    requires Enabled(c, s, step) && hook in Apply(c, s, step).h.origin && hook !in s.h.origin
    ensures step.Ingest? && step.p.hook == hook && Acceptable(s.db, step.p)
  {
    if step.Act? { EffectKeepsOrigin(c, s, s.workers[step.w], step.a); }
  }

  lemma EffectKeepsOrigin(c: Config, s: State, pc: Pc, a: Action)
    requires Calls(pc, a)
    ensures Effect(c, s, pc, a).h.origin == s.h.origin
  {
  }

  /** Step `m` accepted the webhook. */
  ghost predicate AcceptedAt(ss: seq<State>, ls: seq<Step>, m: nat, hook: HookId) {
    m < |ls| <= |ss| && ls[m].Ingest? && ls[m].p.hook == hook && Acceptable(ss[m].db, ls[m].p)
  }

  ghost predicate OriginStep(s: State, s': State, step: Step, hook: HookId) {
    hook in s'.h.origin && hook !in s.h.origin ==> step.Ingest? && step.p.hook == hook && Acceptable(s.db, step.p)
  }

  lemma {:induction false} FirstSeen(ss: seq<State>, ls: seq<Step>, k: nat, hook: HookId) returns (m: nat)
    requires |ss| == |ls| + 1 && k < |ss| && hook in ss[k].h.origin && hook !in ss[0].h.origin
    requires forall i :: 0 <= i < |ls| ==> OriginStep(ss[i], ss[i + 1], ls[i], hook)
    ensures m < k && AcceptedAt(ss, ls, m, hook)
  {
    assert OriginStep(ss[k - 1], ss[k - 1 + 1], ls[k - 1], hook);
    if hook in ss[k - 1].h.origin {
      m := FirstSeen(ss, ls, k - 1, hook);
    } else {
      m := k - 1;
    }
  }

  lemma AcceptedSometime(c: Config, ss: seq<State>, ls: seq<Step>, k: nat, hook: HookId) returns (m: nat)
    requires Behaviour(c, ss, ls) && k < |ss| && hook in ss[k].h.origin
    ensures m < k && AcceptedAt(ss, ls, m, hook)
  {
    forall i | 0 <= i < |ls| ensures OriginStep(ss[i], ss[i + 1], ls[i], hook) {
      if hook in ss[i + 1].h.origin && hook !in ss[i].h.origin { StepOrigin(c, ss[i], ls[i], hook); }
    }
    m := FirstSeen(ss, ls, k, hook);
  }

  /** The book enters the accepted submission as it was made. */
  lemma EnteredAsSubmitted(c: Config, s: State, p: Store.IngestParams, row: RowId)
    requires Enabled(c, s, Ingest(p, row)) && Acceptable(s.db, p)
    ensures var born := Apply(c, s, Ingest(p, row)).h.book.born;
            row in born && born[row].hook == p.hook && born[row].sub == p.sub && born[row].event == p.event
  {
  }

  lemma SubmissionStays(c: Config, ss: seq<State>, ls: seq<Step>, m: nat, k: nat, hook: HookId)
    requires Behaviour(c, ss, ls) && m < k < |ss| && AcceptedAt(ss, ls, m, hook)
    ensures var born, p := ss[k].h.book.born, ls[m].p;
            ls[m].row in born && born[ls[m].row].hook == hook && born[ls[m].row].sub == p.sub && born[ls[m].row].event == p.event
  {
    EnteredAsSubmitted(c, ss[m], ls[m].p, ls[m].row);
    NeverUndone(c, ss, ls, m + 1, k);
  }

  /** Every attempt ever made for a webhook, original, retried or replayed, carries the
      subscription and the event of the submission that was accepted. */
  lemma EventAsSubmitted(c: Config, ss: seq<State>, ls: seq<Step>, k: nat, id: RowId) returns (m: nat)
    requires Behaviour(c, ss, ls) && k < |ss| && id in ss[k].h.book.born
    ensures m < k && AcceptedAt(ss, ls, m, ss[k].h.book.born[id].hook)
    ensures ss[k].h.book.born[id].sub == ls[m].p.sub && ss[k].h.book.born[id].event == ls[m].p.event
    ensures id in ss[k].db.rows ==>
      ss[k].db.rows[id].hook == ls[m].p.hook && ss[k].db.rows[id].sub == ls[m].p.sub && ss[k].db.rows[id].event == ls[m].p.event
  {
    Reached(c, ss, ls, k);
    var b := ss[k].h.book;
    m := AcceptedSometime(c, ss, ls, k, b.born[id].hook);
    SubmissionStays(c, ss, ls, m, k, b.born[id].hook);
    assert id == ls[m].row || PairOk(b, id, ls[m].row);
  }

  // ---- the reply ----------------------------------------------------------------------------

  /** A success has a status from 200 to 299, a failed attempt and a DLQ row have not. */
  predicate ReplyFits(r: Row) {
    && (r.status == Success ==> Accepts(Reply(r.http, r.detail)))
    && (r.status == FailedAttempt || r.inDlq ==> !Accepts(Reply(r.http, r.detail)))
  }

  ghost predicate RepliesFit(rows: Rows) {
    forall id :: id in rows ==> ReplyFits(rows[id])
  }

  lemma CallRepliesFit(c: Config, s: State, w: nat, a: Action, id: RowId)
    requires Enabled(c, s, Act(w, a)) && RepliesFit(s.db.rows)
    requires id in s.db.rows ==> ShapeOf(c.maxAttempts, s.db.rows[id])
    requires a.Write? ==> a.succ !in s.db.rows
    ensures var rows := Effect(c, s, s.workers[w], a).db.rows;
            id in rows ==> ReplyFits(rows[id])
  {
    var pc := s.workers[w];
    if id !in s.db.rows {
      CallInserts(c, s, w, a, id);
      if InsertsRetry(c, s, Act(w, a), id) { RetryColumns(c, s, w, a); }
    } else if pc.log.id != id {
      OthersKept(c, s, pc, a, id);
    } else if Settles(s, Act(w, a), id) {
      SettledColumns(c, s, Act(w, a), id);
      if Succeeds(s, Act(w, a), id) {
        SuccessColumns(c, s, Act(w, a), id);
      } else if Retries(c, s, Act(w, a), id) {
        FailedColumns(c, s, Act(w, a), id);
      } else {
        FinalColumns(c, s, Act(w, a), id);
      }
    }
  }

  lemma StepRepliesFit(c: Config, s: State, step: Step)
    requires RepliesFit(s.db.rows) && SoundState(c, s) && Enabled(c, s, step)
    ensures RepliesFit(Apply(c, s, step).db.rows)
  {
    if step.Act? {
      forall id | id in Apply(c, s, step).db.rows ensures ReplyFits(Apply(c, s, step).db.rows[id]) {
        assert id in s.db.rows ==> ShapeOf(c.maxAttempts, s.db.rows[id]);
        CallRepliesFit(c, s, step.w, step.a, id);
      }
    } else {
      PlainRepliesFit(c, s, step);
    }
  }

  lemma PlainRepliesFit(c: Config, s: State, step: Step)
    requires RepliesFit(s.db.rows) && Enabled(c, s, step) && !step.Act?
    ensures RepliesFit(Apply(c, s, step).db.rows)
  {
  }

  ghost predicate FitStep(s: State, s': State) {
    RepliesFit(s.db.rows) ==> RepliesFit(s'.db.rows)
  }

  lemma {:induction false} FitChain(ss: seq<State>, k: nat)
    requires k < |ss| && RepliesFit(ss[0].db.rows) && forall i :: 0 <= i < k ==> FitStep(ss[i], ss[i + 1])
    ensures RepliesFit(ss[k].db.rows)
  {
    if k > 0 {
      FitChain(ss, k - 1);
      assert FitStep(ss[k - 1], ss[k - 1 + 1]);
    }
  }

  /** In every state of every run, the recorded status codes agree with the outcomes. */
  lemma StatusMatchesReply(c: Config, ss: seq<State>, ls: seq<Step>, k: nat, id: RowId)
    requires Behaviour(c, ss, ls) && k < |ss| && id in ss[k].db.rows
    ensures ReplyFits(ss[k].db.rows[id])
  {
    forall i | 0 <= i < k ensures FitStep(ss[i], ss[i + 1]) {
      Reached(c, ss, ls, i);
      if RepliesFit(ss[i].db.rows) { StepRepliesFit(c, ss[i], ls[i]); }
    }
    FitChain(ss, k);
  }

  // ---- the stamp ------------------------------------------------------------------------------

  /** The row stays as it is, or is stamped with the clock. */
  ghost predicate RowStamped(db: Db, db': Db, id: RowId) {
    id in db'.rows ==> (id in db.rows && db'.rows[id] == db.rows[id]) || db'.rows[id].updated == db'.now
  }

  lemma EffectStamps(c: Config, s: State, pc: Pc, a: Action, id: RowId)
    requires Calls(pc, a)
    ensures RowStamped(s.db, Effect(c, s, pc, a).db, id)
  {
  }

  lemma StepStamps(c: Config, s: State, step: Step, id: RowId)
    requires Enabled(c, s, step)
    ensures RowStamped(s.db, Apply(c, s, step).db, id)
  {
    if step.Act? { EffectStamps(c, s, s.workers[step.w], step.a, id); }
  }

  /** From `i` on to `k` the row is in the table and stays as it is. */
  ghost predicate RowRests(ss: seq<State>, i: nat, k: nat, id: RowId)
    requires i <= k < |ss|
  {
    id in ss[k].db.rows && forall m :: i <= m <= k ==> id in ss[m].db.rows && ss[m].db.rows[id] == ss[k].db.rows[id]
  }

  lemma {:induction false} RestsSinceStamp(ss: seq<State>, k: nat, id: RowId) returns (i: nat)
    requires k < |ss| && id in ss[k].db.rows && id !in ss[0].db.rows
    requires forall m :: 0 <= m < k ==> RowStamped(ss[m].db, ss[m + 1].db, id)
    ensures i <= k && RowRests(ss, i, k, id) && ss[i].db.now == ss[k].db.rows[id].updated
  {
    assert RowStamped(ss[k - 1].db, ss[k - 1 + 1].db, id);
    if ss[k].db.rows[id].updated == ss[k].db.now {
      i := k;
    } else {
      i := RestsSinceStamp(ss, k - 1, id);
    }
  }

  /** The update time of a row is a moment since which it has not changed. */
  lemma StampIsLastChange(c: Config, ss: seq<State>, ls: seq<Step>, k: nat, id: RowId) returns (i: nat)
    requires Behaviour(c, ss, ls) && k < |ss| && id in ss[k].db.rows
    ensures i <= k && RowRests(ss, i, k, id) && ss[i].db.now == ss[k].db.rows[id].updated
  {
    forall m | 0 <= m < k ensures RowStamped(ss[m].db, ss[m + 1].db, id) {
      StepStamps(c, ss[m], ls[m], id);
    }
    i := RestsSinceStamp(ss, k, id);
  }

  // ---- the age of a DLQ row -------------------------------------------------------------------

  lemma {:induction false} StampKept(ss: seq<State>, i: nat, k: nat, id: RowId)
    requires i <= k < |ss| && Flagged(ss[i].db, id) && Flagged(ss[k].db, id)
    requires forall m :: i <= m < k ==> FlagKept(ss[m].db, ss[m + 1].db, id)
    requires forall m :: i <= m <= k ==> Flagged(ss[m].db, id)
    ensures ss[k].db.rows[id] == ss[i].db.rows[id]
    decreases k
  {
    if i < k {
      StampKept(ss, i, k - 1, id);
      assert FlagKept(ss[k - 1].db, ss[k - 1 + 1].db, id);
    }
  }

  ghost predicate FlagKept(db: Db, db': Db, id: RowId) {
    Flagged(db, id) && Flagged(db', id) ==> db'.rows[id] == db.rows[id]
  }

  lemma StepKeepsFlagged(c: Config, s: State, step: Step, id: RowId)
    requires SoundState(c, s) && Enabled(c, s, step)
    ensures FlagKept(s.db, Apply(c, s, step).db, id)
  {
    if Flagged(s.db, id) && Flagged(Apply(c, s, step).db, id) {
      assert ShapeOf(c.maxAttempts, s.db.rows[id]);
      DecidedColumns(c, s, step, id);
    }
  }

  /** Flagged at both ends means flagged all along, on an unchanged row. */
  lemma FlaggedBetween(c: Config, ss: seq<State>, ls: seq<Step>, i: nat, k: nat, id: RowId)
    requires Behaviour(c, ss, ls) && i <= k < |ss| && Flagged(ss[i].db, id) && Flagged(ss[k].db, id)
    ensures ss[k].db.rows[id] == ss[i].db.rows[id]
  {
    forall m | i <= m <= k ensures Flagged(ss[m].db, id) {
      ClearedForGood(c, ss, ls, i, m, k, id);
    }
    forall m | i <= m < k ensures FlagKept(ss[m].db, ss[m + 1].db, id) {
      Reached(c, ss, ls, m);
      StepKeepsFlagged(c, ss[m], ls[m], id);
    }
    StampKept(ss, i, k, id);
  }

  lemma ClearedForGood(c: Config, ss: seq<State>, ls: seq<Step>, i: nat, m: nat, k: nat, id: RowId)
    requires Behaviour(c, ss, ls) && i <= m <= k < |ss| && Flagged(ss[i].db, id) && Flagged(ss[k].db, id)
    ensures Flagged(ss[m].db, id)
  {
    Reached(c, ss, ls, i);
    NeverUndone(c, ss, ls, i, m);
    NeverUndone(c, ss, ls, m, k);
  }

  lemma ClockNeverBack(c: Config, ss: seq<State>, ls: seq<Step>, i: nat, k: nat)
    requires Behaviour(c, ss, ls) && i <= k < |ss|
    ensures ss[i].db.now <= ss[k].db.now
  {
    forall m | i <= m < k ensures ss[m].db.now <= ss[m + 1].db.now {
      StepClock(c, ss[m], ls[m]);
    }
    ClockChain(ss, i, k);
  }

  /** The safety valve takes a row only after it has been in the DLQ, untouched, for
      the whole of the configured age. */
  lemma ForcedOnlyWhenOld(c: Config, ss: seq<State>, ls: seq<Step>, k: nat, i: nat, id: RowId, maxAge: Time)
    requires Behaviour(c, ss, ls) && i <= k < |ss| && id in Store.Aged(ss[k].db, maxAge)
    requires ss[k].db.now - Store.Interval(maxAge) <= ss[i].db.now
    ensures Flagged(ss[i].db, id) && ss[i].db.rows[id] == ss[k].db.rows[id]
  {
    var at := StampIsLastChange(c, ss, ls, k, id);
    if i < at { ClockNeverBack(c, ss, ls, i, at); }
  }

  /** A row in the DLQ then and now was last stamped before then. */
  lemma StampedByThen(c: Config, ss: seq<State>, ls: seq<Step>, i: nat, k: nat, id: RowId)
    requires Behaviour(c, ss, ls) && i <= k < |ss| && Flagged(ss[i].db, id) && Flagged(ss[k].db, id)
    ensures ss[k].db.rows[id].updated <= ss[i].db.now
  {
    FlaggedBetween(c, ss, ls, i, k, id);
    var j := StampIsLastChange(c, ss, ls, i, id);
    ClockNeverBack(c, ss, ls, j, i);
  }

  /** The moment of its last change is the witness. */
  lemma FlaggedAtStamp(c: Config, ss: seq<State>, ls: seq<Step>, k: nat, id: RowId) returns (i: nat)
    requires Behaviour(c, ss, ls) && k < |ss| && Flagged(ss[k].db, id)
    ensures i <= k && Flagged(ss[i].db, id) && ss[i].db.now == ss[k].db.rows[id].updated
  {
    i := StampIsLastChange(c, ss, ls, k, id);
  }

  lemma ForcedByStamp(c: Config, s: State, id: RowId, maxAge: Time)
    requires SoundState(c, s) && Flagged(s.db, id)
    ensures !Flagged(Apply(c, s, ForceAck(maxAge)).db, id) <==> s.db.rows[id].updated < s.db.now - Store.Interval(maxAge)
  {
    FlaggedExactly(c, s, ForceAck(maxAge), id);
  }

  /** The safety valve takes a DLQ row exactly when it was already there before the
      configured age began. */
  lemma ForcedExactly(c: Config, ss: seq<State>, ls: seq<Step>, k: nat, id: RowId, maxAge: Time)
    requires Behaviour(c, ss, ls) && k < |ss| && Flagged(ss[k].db, id)
    ensures !Flagged(Apply(c, ss[k], ForceAck(maxAge)).db, id) <==>
            exists i :: 0 <= i <= k && Flagged(ss[i].db, id) && ss[i].db.now < ss[k].db.now - Store.Interval(maxAge)
  {
    Reached(c, ss, ls, k);
    ForcedByStamp(c, ss[k], id, maxAge);
    var at := FlaggedAtStamp(c, ss, ls, k, id);
    if i: nat :| i <= k && Flagged(ss[i].db, id) && ss[i].db.now < ss[k].db.now - Store.Interval(maxAge) {
      StampedByThen(c, ss, ls, i, k, id);
    }
  }

  // ---- a deleted subscription ------------------------------------------------------------------

  lemma CallKeepsLogs(c: Config, s: State, pc: Pc, a: Action)
    requires Calls(pc, a)
    ensures s.h.subLog.Keys <= Effect(c, s, pc, a).h.subLog.Keys
  {
  }

  /** A subscription that has been there and is gone does not come back by any step. */
  ghost predicate GoneStays(s: State, s': State, sub: SubId) {
    sub in s.h.subLog && sub !in s.db.subs ==> sub in s'.h.subLog && sub !in s'.db.subs
  }

  lemma StepGoneStays(c: Config, s: State, step: Step, sub: SubId)
    requires Enabled(c, s, step)
    ensures GoneStays(s, Apply(c, s, step), sub)
  {
    SubThereExactly(c, s, step, sub);
    if step.Act? { CallKeepsLogs(c, s, s.workers[step.w], step.a); }
  }

  lemma {:induction false} GoneChain(ss: seq<State>, i: nat, k: nat, sub: SubId)
    requires i <= k < |ss| && sub in ss[i].h.subLog && sub !in ss[i].db.subs
    requires forall m :: 0 <= m < |ss| - 1 ==> GoneStays(ss[m], ss[m + 1], sub)
    ensures sub !in ss[k].db.subs
    decreases k - i
  {
    if i < k {
      assert GoneStays(ss[i], ss[i + 1], sub);
      GoneChain(ss, i + 1, k, sub);
    }
  }

  /** Once a subscription is deleted, it, its attempts and its idempotency records are gone
      for good, and nothing is accepted for it any more. */
  lemma DeletedForGood(c: Config, ss: seq<State>, ls: seq<Step>, i: nat, k: nat, sub: SubId)
    requires Behaviour(c, ss, ls) && i < k < |ss| && sub in ss[i].db.subs && ls[i] == DeleteSub(sub)
    ensures sub !in ss[k].db.subs
    ensures forall id :: id in ss[k].db.rows ==> ss[k].db.rows[id].sub != sub
    ensures forall key :: key in ss[k].db.idem ==> key.0 != sub
    ensures k < |ls| && ls[k].Ingest? && ls[k].p.sub == sub ==> !Acceptable(ss[k].db, ls[k].p)
  {
    Reached(c, ss, ls, i);
    Reached(c, ss, ls, k);
    SubThereExactly(c, ss[i], ls[i], sub);
    forall m | 0 <= m < |ss| - 1 ensures GoneStays(ss[m], ss[m + 1], sub) { StepGoneStays(c, ss[m], ls[m], sub); }
    GoneChain(ss, i + 1, k, sub);
  }
}
