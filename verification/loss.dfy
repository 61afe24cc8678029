/** No silent loss. What became of a row is decided by exactly one step of the run, and
    every accepted webhook has exactly one row that is still waiting or was ended by such
    a step. */
module Loss {
  import opened Domain
  import opened Ledger
  import opened Program
  import opened Lifecycle
  import opened Preservation
  import opened Theorems
  import opened Transitions
  import opened Provenance
  import Store

  // ---- the steps that end a row ---------------------------------------------------------------

  /** The step acknowledges the row, by its own subscription and webhook. */
  predicate AcksRow(s: State, step: Step, id: RowId) {
    Flagged(s.db, id) && step.Ack? && step.sub == s.db.rows[id].sub && step.hook == s.db.rows[id].hook
  }

  predicate ReplaysRow(s: State, step: Step, id: RowId) {
    Flagged(s.db, id) && step.Replay? && step.sub == s.db.rows[id].sub && step.hook == s.db.rows[id].hook
  }

  /** The safety valve takes the row, which has been in the DLQ past the age. */
  predicate ForcesRow(s: State, step: Step, id: RowId) {
    Flagged(s.db, id) && step.ForceAck? && s.db.rows[id].updated < s.db.now - Store.Interval(step.maxAge)
  }

  /** The subscription of the waiting row is deleted. */
  predicate CascadesRow(s: State, step: Step, id: RowId) {
    id in s.db.rows && Live(s.db.rows[id]) && step == DeleteSub(s.db.rows[id].sub)
  }

  /** The step brings this fate about. */
  predicate Causes(c: Config, s: State, step: Step, id: RowId, f: Fate) {
    match f
    case Retried(next) => Retries(c, s, step, id) && step.a.succ == next
    case Replayed(next) => ReplaysRow(s, step, id) && step.row == next
    case Delivered => Succeeds(s, step, id)
    case Dropped => DropsRow(s, step, id)
    case Acked => AcksRow(s, step, id)
    case ForceAcked => ForcesRow(s, step, id)
    case Cascaded => CascadesRow(s, step, id)
  }

  ghost predicate HasFate(s: State, id: RowId, f: Fate) {
    id in s.h.book.fate && s.h.book.fate[id] == f
  }

  lemma SuccessFate(s: State, log: Log, http: int, id: RowId, f: Fate)
    requires id !in s.h.book.fate
    ensures HasFate(MarkedSuccess(s, log, http), id, f) <==> id == log.id && Store.IsPending(s.db, id) && f == Delivered
  {
  }

  lemma RetryFate(s: State, log: Log, reply: Reply, at: Time, succ: RowId, id: RowId, f: Fate)
    requires id !in s.h.book.fate
    ensures HasFate(Retry(s, log, reply, at, succ), id, f) <==> id == log.id && Store.IsPending(s.db, id) && f == Retried(succ)
  {
  }

  lemma FailureFate(c: Config, s: State, log: Log, reply: Reply)
    ensures Finalized(c, s, log, reply).h.book == s.h.book
  {
  }

  lemma WriteFate(c: Config, s: State, w: nat, a: Action, id: RowId, f: Fate)
    requires Enabled(c, s, Act(w, a)) && s.workers[w].Settling? && id !in s.h.book.fate
    ensures HasFate(Effect(c, s, s.workers[w], a), id, f) <==> Causes(c, s, Act(w, a), id, f)
  {
    var pc := s.workers[w];
    OutcomeIs(c, s, pc, a);
    if Is2xx(pc.reply) {
      SuccessFate(s, pc.log, pc.reply.http.value, id, f);
    } else {
      RetryFate(s, pc.log, pc.reply, a.at, a.succ, id, f);
      FailureFate(c, s, pc.log, pc.reply);
    }
  }

  /** A run's call decides only its own row, and only if it is pending. */
  lemma CallFate(c: Config, s: State, w: nat, a: Action, id: RowId, f: Fate)
    requires Enabled(c, s, Act(w, a)) && id !in s.h.book.fate
    ensures HasFate(Effect(c, s, s.workers[w], a), id, f) <==> Causes(c, s, Act(w, a), id, f)
  {
    if s.workers[w].Settling? {
      WriteFate(c, s, w, a, id, f);
    } else if s.workers[w].Dropping? {
      DropFate(c, s, w, a, id, f);
    } else {
      QuietFate(c, s, w, a);
    }
  }

  lemma DropFate(c: Config, s: State, w: nat, a: Action, id: RowId, f: Fate)
    requires Enabled(c, s, Act(w, a)) && s.workers[w].Dropping? && id !in s.h.book.fate
    ensures HasFate(Effect(c, s, s.workers[w], a), id, f) <==> Causes(c, s, Act(w, a), id, f)
  {
  }

  lemma QuietFate(c: Config, s: State, w: nat, a: Action)
    requires Enabled(c, s, Act(w, a)) && !s.workers[w].Settling? && !s.workers[w].Dropping?
    ensures Effect(c, s, s.workers[w], a).h.book == s.h.book
  {
  }

  lemma ReplayFate(c: Config, s: State, step: Step, id: RowId, f: Fate)
    requires SoundState(c, s) && Enabled(c, s, step) && step.Replay? && id !in s.h.book.fate
    ensures HasFate(Apply(c, s, step), id, f) <==> Causes(c, s, step, id, f)
  {
    DlqRowIsUnique(c, s, step.sub, step.hook, step.claimed);
    ReplayOnlyFate(c, s, step, id, f);
  }

  lemma ReplayOnlyFate(c: Config, s: State, step: Step, id: RowId, f: Fate)
    requires Enabled(c, s, step) && step.Replay? && id !in s.h.book.fate
    requires Store.DlqOf(s.db, step.sub, step.hook) == {step.claimed}
    ensures HasFate(Apply(c, s, step), id, f) <==> Causes(c, s, step, id, f)
  {
    assert id in Store.DlqOf(s.db, step.sub, step.hook) <==> id == step.claimed;
  }

  lemma PlainFate(c: Config, s: State, step: Step, id: RowId, f: Fate)
    requires Enabled(c, s, step) && !step.Act? && !step.Replay? && id !in s.h.book.fate
    ensures HasFate(Apply(c, s, step), id, f) <==> Causes(c, s, step, id, f)
  {
  }

  /** A row that had no fate gets one exactly by the step that brings it about. */
  lemma FateExactly(c: Config, s: State, step: Step, id: RowId, f: Fate)
    requires SoundState(c, s) && Enabled(c, s, step) && id !in s.h.book.fate
    ensures HasFate(Apply(c, s, step), id, f) <==> Causes(c, s, step, id, f)
  {
    if step.Act? {
      CallFate(c, s, step.w, step.a, id, f);
    } else if step.Replay? {
      ReplayFate(c, s, step, id, f);
    } else {
      PlainFate(c, s, step, id, f);
    }
  }

  // ---- over runs ------------------------------------------------------------------------------

  /** Behind every fate there is the step that brought it about. */
  lemma {:induction false} FateHasCause(c: Config, ss: seq<State>, ls: seq<Step>, k: nat, id: RowId) returns (m: nat)
    requires Behaviour(c, ss, ls) && k < |ss| && id in ss[k].h.book.fate
    ensures m < k && Causes(c, ss[m], ls[m], id, ss[k].h.book.fate[id])
  {
    var p := k - 1;
    NeverUndone(c, ss, ls, p, k);
    if id in ss[p].h.book.fate {
      m := FateHasCause(c, ss, ls, p, id);
    } else {
      Reached(c, ss, ls, p);
      m := p;
      FateExactly(c, ss[p], ls[p], id, ss[k].h.book.fate[id]);
    }
  }

  lemma CausedIsLive(c: Config, s: State, step: Step, id: RowId, f: Fate)
    requires SoundState(c, s) && Causes(c, s, step, id, f)
    ensures id !in s.h.book.fate
  {
    assert id in s.db.rows && Live(s.db.rows[id]);
    assert id in s.h.book.born;
  }

  /** What a step brought about stays. */
  lemma CauseHasFate(c: Config, ss: seq<State>, ls: seq<Step>, m: nat, k: nat, id: RowId, f: Fate)
    requires Behaviour(c, ss, ls) && m < k < |ss| && Causes(c, ss[m], ls[m], id, f)
    ensures HasFate(ss[k], id, f)
  {
    Reached(c, ss, ls, m);
    CausedIsLive(c, ss[m], ls[m], id, f);
    FateExactly(c, ss[m], ls[m], id, f);
    NeverUndone(c, ss, ls, m + 1, k);
  }

  // ---- no silent loss ---------------------------------------------------------------------------

  /** The row is pending or in the DLQ. */
  predicate Waits(s: State, id: RowId) {
    id in s.db.rows && (s.db.rows[id].status.Pending? || s.db.rows[id].inDlq)
  }

  /** The step ends the row: a 2xx recorded by the run that got it, a drop, an ack, a
      force-ack past the age, or the end of its subscription. */
  predicate Ends(s: State, step: Step, id: RowId) {
    || Succeeds(s, step, id) || DropsRow(s, step, id) || AcksRow(s, step, id) || ForcesRow(s, step, id)
    || CascadesRow(s, step, id)
  }

  ghost predicate Ended(ss: seq<State>, ls: seq<Step>, k: nat, id: RowId)
    requires k <= |ls| <= |ss|
  {
    exists m :: 0 <= m < k && Ends(ss[m], ls[m], id)
  }

  /** Which fate an ending step brings about. */
  function FinalFate(s: State, step: Step, id: RowId): Fate {
    if Succeeds(s, step, id) then Delivered
    else if DropsRow(s, step, id) then Dropped
    else if AcksRow(s, step, id) then Acked
    else if ForcesRow(s, step, id) then ForceAcked
    else Cascaded
  }

  /** A row was ended exactly if its fate is one that nothing continues. */
  lemma EndedExactly(c: Config, ss: seq<State>, ls: seq<Step>, k: nat, id: RowId)
    requires Behaviour(c, ss, ls) && k < |ss|
    ensures Ended(ss, ls, k, id) <==> id in ss[k].h.book.fate && !Continued(ss[k].h.book.fate[id])
  {
    if m: nat :| m < k && Ends(ss[m], ls[m], id) {
      CauseHasFate(c, ss, ls, m, k, id, FinalFate(ss[m], ls[m], id));
    }
    if id in ss[k].h.book.fate && !Continued(ss[k].h.book.fate[id]) {
      var m := FateHasCause(c, ss, ls, k, id);
      assert Ends(ss[m], ls[m], id);
    }
  }

  lemma AcceptedHasRoot(c: Config, ss: seq<State>, ls: seq<Step>, m: nat, k: nat, hook: HookId)
    requires Behaviour(c, ss, ls) && m < k < |ss| && AcceptedAt(ss, ls, m, hook)
    ensures ls[m].row in ss[k].h.book.born && ss[k].h.book.born[ls[m].row].hook == hook
  {
    SubmissionStays(c, ss, ls, m, k, hook);
  }

  /** Beside the end of a chain, every row of the webhook has gone over into a later one. */
  lemma OthersContinue(c: Config, s: State, end: RowId, id: RowId)
    requires SoundState(c, s) && end in s.h.book.born && id in s.h.book.born && id != end && AtEnd(s.h.book, end)
    requires s.h.book.born[id].hook == s.h.book.born[end].hook
    ensures Follows(s.h.book, id, end) && id in s.h.book.fate && Continued(s.h.book.fate[id]) && !Waits(s, id)
  {
    assert PairOk(s.h.book, end, id) && PairOk(s.h.book, id, end);
  }

  /** Every accepted webhook has exactly one row that still waits or was ended by a step of
      the run, later than all its others: whatever Redis lost, whoever crashed. */
  lemma NoSilentLoss(c: Config, ss: seq<State>, ls: seq<Step>, m: nat, k: nat, hook: HookId) returns (end: RowId)
    requires Behaviour(c, ss, ls) && m < k < |ss| && AcceptedAt(ss, ls, m, hook)
    ensures end in ss[k].h.book.born && ss[k].h.book.born[end].hook == hook
    ensures Waits(ss[k], end) || Ended(ss, ls, k, end)
    ensures !(Waits(ss[k], end) && Ended(ss, ls, k, end))
    ensures forall id :: id in ss[k].h.book.born && ss[k].h.book.born[id].hook == hook && id != end ==>
      Follows(ss[k].h.book, id, end) && !Waits(ss[k], id) && !Ended(ss, ls, k, id)
  {
    Reached(c, ss, ls, k);
    AcceptedHasRoot(c, ss, ls, m, k, hook);
    var s := ss[k];
    end := EndOf(s.h.book, ls[m].row);
    EndedExactly(c, ss, ls, k, end);
    forall id | id in s.h.book.born && s.h.book.born[id].hook == hook && id != end
      ensures Follows(s.h.book, id, end) && !Waits(s, id) && !Ended(ss, ls, k, id)
    {
      OthersContinue(c, s, end, id);
      EndedExactly(c, ss, ls, k, id);
    }
  }
}
