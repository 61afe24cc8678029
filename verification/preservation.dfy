/** Every step of the lifecycle keeps its invariant. The first half keeps the book
    sound, the second keeps the rest of the state tied to it. */
module Preservation {
  import opened Domain
  import opened Ledger
  import opened Program
  import opened Lifecycle
  import Store

  // ---- the book stays sound -----------------------------------------------------

  lemma IngestSound(c: Config, s: State, p: Store.IngestParams, row: RowId)
    requires ConfigOk(c) && SoundState(c, s) && Rooted(s.h)
    requires row !in s.h.book.born && p.hook !in s.h.origin
    ensures SoundState(c, Ingested(s, p, row))
  {
    if Store.IngestPending(s.db, p, row).1.Accepted? {
      RootKeeps(c.maxAttempts, s.db.now, s.db.rows, s.h.book, row, Store.FirstAttempt(p, s.db.now));
    }
  }

  lemma DeleteSubSound(c: Config, s: State, sub: SubId)
    requires SoundState(c, s)
    ensures SoundState(c, SubDeleted(s, sub))
  {
    var gone := set id | id in s.db.rows && s.db.rows[id].sub == sub && Live(s.db.rows[id]);
    CascadeKeeps(c.maxAttempts, s.db.now, s.db.rows, s.h.book, sub, Store.DeleteSub(s.db, sub).rows, gone);
  }

  function Unflagged(s: State, ids: set<RowId>, f: Fate): State {
    Settled(s, s.db.(rows := Store.Unflag(s.db.rows, ids, s.db.now)), ids, f)
  }

  /** Clearing DLQ flags settles exactly the rows that carried them. */
  lemma UnflagSound(c: Config, s: State, ids: set<RowId>, f: Fate)
    requires SoundState(c, s) && (f == Acked || f == ForceAcked)
    requires forall id :: id in ids ==> id in s.db.rows && s.db.rows[id].inDlq
    ensures SoundState(c, Unflagged(s, ids, f))
  {
    SettleKeeps(c.maxAttempts, s.db.now, s.db.rows, s.h.book, ids, f, Store.Unflag(s.db.rows, ids, s.db.now));
  }

  /** The claim of an ack or a replay never matches two rows. */
  lemma DlqRowIsUnique(c: Config, s: State, sub: SubId, hook: HookId, id: RowId)
    requires SoundState(c, s) && id in Store.DlqOf(s.db, sub, hook)
    ensures Store.DlqOf(s.db, sub, hook) == {id}
  {
    LiveIsLast(c.maxAttempts, s.db.now, s.db.rows, s.h.book, id);
  }

  /** A replay: the one claimed row leaves the DLQ and the new chain follows it. */
  function Rechained(s: State, claimed: RowId, row: RowId): State
    requires claimed in s.db.rows
  {
    var was := s.db.rows[claimed].(inDlq := false, updated := s.db.now);
    var chain := Store.NewChain(was, s.db.now);
    s.(db := s.db.(rows := s.db.rows[claimed := was][row := chain]),
       h := s.h.(book := Continue(s.h.book, claimed, Replayed(row), row, BirthOf(chain))))
  }

  lemma ReplayIsRechained(c: Config, s: State, sub: SubId, hook: HookId, claimed: RowId, row: RowId)
    requires SoundState(c, s) && claimed in Store.DlqOf(s.db, sub, hook)
    ensures ReplayClaimed(s, sub, hook, claimed, row) == Rechained(s, claimed, row)
  {
    DlqRowIsUnique(c, s, sub, hook, claimed);
    assert Store.DlqOf(s.db, sub, hook) - {claimed} == {};
    assert SettleAll(s.h.book, {}, Acked) == s.h.book;
    assert Store.ReplayDlq(s.db, sub, hook, claimed, row).rows == Rechained(s, claimed, row).db.rows;
  }

  lemma ReplaySound(c: Config, s: State, claimed: RowId, row: RowId)
    requires ConfigOk(c) && SoundState(c, s)
    requires claimed in s.db.rows && s.db.rows[claimed].inDlq && row !in s.h.book.born
    ensures SoundState(c, Rechained(s, claimed, row))
  {
    var was := s.db.rows[claimed].(inDlq := false, updated := s.db.now);
    ContinueKeeps(c.maxAttempts, s.db.now, s.db.rows, s.h.book, claimed, was, row,
                  Store.NewChain(was, s.db.now), Replayed(row));
  }

  lemma ExpireSound(c: Config, s: State, retention: Time)
    requires SoundState(c, s)
    ensures SoundState(c, Apply(c, s, Expire(retention)))
  {
    var rows' := Store.DeleteExpired(s.db, retention).rows;
    ExpireKeeps(c.maxAttempts, s.db.now, s.db.rows, s.h.book, s.db.now - Store.Interval(retention), rows');
  }

  /** No reachable pending row lacks a due time, so the rearm finds nothing. */
  lemma RearmFindsNothing(c: Config, s: State, ids: set<RowId>, orphan: Time)
    requires SoundState(c, s) && Enabled(c, s, Rearm(ids, orphan))
    ensures ids == {} && Apply(c, s, Rearm(ids, orphan)) == s
  {
    assert forall id :: id in ids ==> !ShapeOf(c.maxAttempts, s.db.rows[id]);
    assert ids == {};
    assert Store.Rearm(s.db, {}).rows == s.db.rows;
  }

  lemma SuccessSound(c: Config, s: State, log: Log, http: int)
    requires SoundState(c, s)
    ensures SoundState(c, MarkedSuccess(s, log, http))
  {
    if Store.IsPending(s.db, log.id) {
      var db := Store.MarkSuccess(s.db, log.id, log.sub, http).0;
      SettleKeeps(c.maxAttempts, s.db.now, s.db.rows, s.h.book, {log.id}, Delivered, db.rows);
    }
  }

  lemma RetrySound(c: Config, s: State, log: Log, reply: Reply, at: Time, succ: RowId)
    requires SoundState(c, s) && Remembers(s.h.book, log)
    requires log.attempt < c.maxAttempts && succ !in s.h.book.born
    ensures SoundState(c, Retry(s, log, reply, at, succ))
  {
    if Store.IsPending(s.db, log.id) {
      var row := s.db.rows[log.id].(status := FailedAttempt, http := reply.http, detail := reply.detail,
                                    updated := s.db.now);
      ContinueKeeps(c.maxAttempts, s.db.now, s.db.rows, s.h.book, log.id, row, succ,
                    Store.Successor(row, at, s.db.now), Retried(succ));
    }
  }

  lemma FinalizeSound(c: Config, s: State, log: Log, reply: Reply)
    requires SoundState(c, s) && Remembers(s.h.book, log) && c.maxAttempts <= log.attempt
    ensures SoundState(c, Finalized(c, s, log, reply))
  {
    if Store.IsPending(s.db, log.id) {
      var db := Store.FinalizeFailure(s.db, log.id, log.sub, reply.http, reply.detail, c.disableThreshold).0;
      TouchKeeps(c.maxAttempts, s.db.now, s.db.rows, s.h.book, log.id, db.rows[log.id]);
    }
  }

  lemma DropSound(c: Config, s: State, id: RowId, detail: string)
    requires SoundState(c, s) && Store.IsPending(s.db, id)
    ensures SoundState(c, Settled(s, Store.MarkDropped(s.db, id, detail).0, {id}, Dropped))
  {
    var db := Store.MarkDropped(s.db, id, detail).0;
    SettleKeeps(c.maxAttempts, s.db.now, s.db.rows, s.h.book, {id}, Dropped, db.rows);
  }

  lemma StampSound(c: Config, s: State, id: RowId, at: Time)
    requires SoundState(c, s) && Store.IsPending(s.db, id)
    ensures SoundState(c, s.(db := Store.Rescheduled(s.db, id, at).0))
  {
    TouchKeeps(c.maxAttempts, s.db.now, s.db.rows, s.h.book, id,
               s.db.rows[id].(next := Some(at), updated := s.db.now));
  }

  lemma OutcomeIs(c: Config, s: State, pc: Pc, a: Action)
    requires pc.Settling? && a.Write?
    ensures Effect(c, s, pc, a) ==
            if !a.done then s
            else if Is2xx(pc.reply) then MarkedSuccess(s, pc.log, pc.reply.http.value)
            else if pc.log.attempt < c.maxAttempts then Retry(s, pc.log, pc.reply, a.at, a.succ)
            else Finalized(c, s, pc.log, pc.reply)
  {
  }

  lemma OutcomeSound(c: Config, s: State, pc: Pc, a: Action)
    requires SoundState(c, s) && Remembers(s.h.book, pc.log)
    requires pc.Settling? && a.Write? && a.succ !in s.h.book.born
    ensures SoundState(c, Effect(c, s, pc, a))
  {
    OutcomeIs(c, s, pc, a);
    if a.done {
      if Is2xx(pc.reply) {
        SuccessSound(c, s, pc.log, pc.reply.http.value);
      } else if pc.log.attempt < c.maxAttempts {
        RetrySound(c, s, pc.log, pc.reply, a.at, a.succ);
      } else {
        FinalizeSound(c, s, pc.log, pc.reply);
      }
    }
  }

  /** A winning claim is a reschedule to the end of the lease. */
  lemma ClaimIsStamp(c: Config, s: State, id: RowId, until: Time)
    requires Store.ClaimPending(s.db, id, c.lease).1 && until == s.db.now + Store.Interval(c.lease)
    ensures Store.ClaimPending(s.db, id, c.lease).0 == Store.Rescheduled(s.db, id, until).0
    ensures Store.IsPending(s.db, id)
  {
  }

  /** The other calls write nothing. */
  lemma QuietEffect(c: Config, s: State, pc: Pc, a: Action)
    requires Calls(pc, a) && !pc.Settling? && !(pc.Loaded? && a.won)
    requires (pc.Dropping? || pc.Denied?) && a.done ==> !Store.IsPending(s.db, pc.log.id)
    ensures Effect(c, s, pc, a).db == s.db && Effect(c, s, pc, a).h.book == s.h.book
  {
  }

  lemma EffectSound(c: Config, s: State, w: nat, a: Action)
    requires SoundState(c, s) && RunsOk(s.workers, s.h) && Enabled(c, s, Act(w, a))
    ensures SoundState(c, Effect(c, s, s.workers[w], a))
  {
    var pc := s.workers[w];
    if pc.Settling? {
      OutcomeSound(c, s, pc, a);
    } else if pc.Loaded? && a.won {
      ClaimIsStamp(c, s, pc.log.id, a.until);
      StampSound(c, s, pc.log.id, a.until);
    } else if pc.Dropping? && a.done && Store.IsPending(s.db, pc.log.id) {
      DropSound(c, s, pc.log.id, "subscription deactivated");
    } else if pc.Denied? && a.done && Store.IsPending(s.db, pc.log.id) {
      StampSound(c, s, pc.log.id, pc.at);
    } else {
      QuietEffect(c, s, pc, a);
    }
  }

  lemma StepSound(c: Config, s: State, step: Step)
    requires ConfigOk(c) && Inv(c, s) && Enabled(c, s, step)
    ensures SoundState(c, Apply(c, s, step))
  {
    match step
    case Tick(t) => LaterClockKeeps(c.maxAttempts, s.db.now, t, s.db.rows, s.h.book);
    case DeleteSub(sub) => DeleteSubSound(c, s, sub);
    case Ingest(p, row) => IngestSound(c, s, p, row);
    case Act(w, a) => EffectSound(c, s, w, a);
    case Ack(sub, hook) => UnflagSound(c, s, Store.DlqOf(s.db, sub, hook), Acked);
    case Replay(sub, hook, claimed, row) =>
      ReplayIsRechained(c, s, sub, hook, claimed, row);
      ReplaySound(c, s, claimed, row);
    case ForceAck(age) => UnflagSound(c, s, Store.Aged(s.db, age), ForceAcked);
    case Expire(retention) => ExpireSound(c, s, retention);
    case Rearm(ids, orphan) => RearmFindsNothing(c, s, ids, orphan);
    case _ =>
  }

  // ---- the rest stays tied to the book --------------------------------------------

  /** The book only grows. */
  ghost predicate Grew(h: History, h': History) {
    && (forall id :: id in h.book.born ==> id in h'.book.born && h'.book.born[id] == h.book.born[id])
    && h.replies <= h'.replies
  }

  lemma RunsStay(ws: Workers, h: History, h': History)
    requires RunsOk(ws, h) && Grew(h, h')
    ensures RunsOk(ws, h')
  {
  }

  lemma KeyEntered(db: Db, h: History, p: Store.IngestParams, row: RowId, s': State)
    requires KeysOk(db, h) && Rooted(h) && row !in h.book.born && p.hook !in h.origin
    requires Store.IngestPending(db, p, row).1.Accepted? && s'.db == Store.IngestPending(db, p, row).0
    requires s'.h.book.born == h.book.born[row := BirthOf(Store.FirstAttempt(p, db.now))]
    requires s'.h.origin == h.origin[p.hook := row]
    ensures KeysOk(s'.db, s'.h) && Rooted(s'.h)
  {
  }

  lemma IngestTied(c: Config, s: State, p: Store.IngestParams, row: RowId)
    requires Tied(c, s) && row !in s.h.book.born && p.hook !in s.h.origin
    ensures Tied(c, Ingested(s, p, row))
  {
    if Store.IngestPending(s.db, p, row).1.Accepted? {
      var s' := Ingested(s, p, row);
      RunsStay(s.workers, s.h, s'.h);
      KeyEntered(s.db, s.h, p, row, s');
    }
  }

  /** The tables under a write to one row and, perhaps, a row inserted after it. */
  lemma WrittenTied(c: Config, s: State, db: Db, id: RowId, r: Row)
    requires Referenced(s.db) && FlagsOk(s.db.rows, s.h) && id in s.db.rows
    requires db == s.db.(rows := s.db.rows[id := r]) && r.sub == s.db.rows[id].sub && !r.inDlq
    requires s.db.rows[id].status.Pending? || (s.db.rows[id].inDlq && r.status.FinalFailure?)
    ensures Referenced(db) && FlagsOk(db.rows, s.h)
  {
  }

  lemma InsertedTied(c: Config, db: Db, h: History, n: RowId, r: Row)
    requires Referenced(db) && FlagsOk(db.rows, h) && n !in h.book.born && r.sub in db.subs && !r.inDlq
    ensures Referenced(db.(rows := db.rows[n := r])) && FlagsOk(db.rows[n := r], h)
  {
  }

  /** A row inserted after another one brings no new webhook. */
  lemma ContinueTied(c: Config, s: State, id: RowId, f: Fate, n: RowId, birth: Birth)
    requires Rooted(s.h) && RunsOk(s.workers, s.h) && Witnessed(s.h) && KeysOk(s.db, s.h)
    requires id in s.h.book.born && n !in s.h.book.born && Continued(f)
    requires f.Retried? ==> (id, false) in s.h.replies
    requires birth.hook == s.h.book.born[id].hook
    ensures var h := s.h.(book := Continue(s.h.book, id, f, n, birth));
            Rooted(h) && RunsOk(s.workers, h) && Witnessed(h) && KeysOk(s.db, h)
  {
    RunsStay(s.workers, s.h, s.h.(book := Continue(s.h.book, id, f, n, birth)));
  }

  lemma DeleteSubTied(c: Config, s: State, sub: SubId)
    requires Tied(c, s)
    ensures Tied(c, SubDeleted(s, sub))
  {
  }

  lemma UnflagTied(c: Config, s: State, ids: set<RowId>, f: Fate)
    requires Tied(c, s) && f != Delivered && !f.Retried?
    ensures Tied(c, Unflagged(s, ids, f))
  {
  }

  lemma ReplayTied(c: Config, s: State, claimed: RowId, row: RowId)
    requires Tied(c, s) && claimed in s.db.rows && s.db.rows[claimed].inDlq
    requires row !in s.h.book.born && claimed in s.h.book.born
    requires BirthOf(s.db.rows[claimed]) == s.h.book.born[claimed]
    ensures Tied(c, Rechained(s, claimed, row))
  {
    var was := s.db.rows[claimed].(inDlq := false, updated := s.db.now);
    var chain := Store.NewChain(was, s.db.now);
    var written := s.db.(rows := s.db.rows[claimed := was]);
    WrittenTied(c, s, written, claimed, was);
    InsertedTied(c, written, s.h, row, chain);
    ContinueTied(c, s, claimed, Replayed(row), row, BirthOf(chain));
  }

  lemma CleanupTied(c: Config, s: State, d: Time)
    requires Tied(c, s)
    ensures Tied(c, Apply(c, s, Expire(d))) && Tied(c, Apply(c, s, Prune(d)))
  {
  }

  lemma SubWriteTied(c: Config, s: State, sub: SubId, active: bool)
    requires ConfigOk(c) && Tied(c, s)
    ensures Tied(c, Apply(c, s, UpdateSub(sub, active)))
    ensures sub !in s.h.subLog ==> Tied(c, Apply(c, s, CreateSub(sub, active)))
  {
    if sub in s.h.subLog {
      assert (s.h.subLog[sub] + [Wrote(active)])[..|s.h.subLog[sub]|] == s.h.subLog[sub];
    }
  }

  lemma SuccessCounted(c: Config, s: State, log: Log, http: int)
    requires ConfigOk(c) && Counted(c, s.db, s.h)
    ensures Counted(c, MarkedSuccess(s, log, http).db, MarkedSuccess(s, log, http).h)
  {
    if log.sub in s.h.subLog {
      var events := s.h.subLog[log.sub];
      assert (events + [Succeeded])[..|events|] == events;
    }
  }

  lemma SuccessTied(c: Config, s: State, log: Log, http: int)
    requires ConfigOk(c) && Tied(c, s) && (log.id, true) in s.h.replies
    ensures Tied(c, MarkedSuccess(s, log, http))
  {
    SuccessCounted(c, s, log, http);
    if Store.IsPending(s.db, log.id) {
      var s' := MarkedSuccess(s, log, http);
      RunsStay(s.workers, s.h, s'.h);
      WrittenTied(c, s, s.db.(rows := s'.db.rows), log.id, s'.db.rows[log.id]);
    }
  }

  lemma RetryTied(c: Config, s: State, log: Log, reply: Reply, at: Time, succ: RowId)
    requires Tied(c, s) && Remembers(s.h.book, log) && succ !in s.h.book.born && (log.id, false) in s.h.replies
    requires log.id in s.db.rows ==> BirthOf(s.db.rows[log.id]) == s.h.book.born[log.id]
    ensures Tied(c, Retry(s, log, reply, at, succ))
  {
    if Store.IsPending(s.db, log.id) {
      var row := s.db.rows[log.id].(status := FailedAttempt, http := reply.http, detail := reply.detail,
                                    updated := s.db.now);
      var next := Store.Successor(row, at, s.db.now);
      var written := s.db.(rows := s.db.rows[log.id := row]);
      WrittenTied(c, s, written, log.id, row);
      InsertedTied(c, written, s.h, succ, next);
      ContinueTied(c, s, log.id, Retried(succ), succ, BirthOf(next));
    }
  }

  lemma FinalizeCounted(c: Config, s: State, log: Log, reply: Reply)
    requires ConfigOk(c) && Counted(c, s.db, s.h)
    ensures Counted(c, Finalized(c, s, log, reply).db, Finalized(c, s, log, reply).h)
  {
    if log.sub in s.h.subLog {
      var events := s.h.subLog[log.sub];
      assert (events + [FinalFailed])[..|events|] == events;
    }
  }

  lemma FinalizeTied(c: Config, s: State, log: Log, reply: Reply)
    requires ConfigOk(c) && Tied(c, s) && Remembers(s.h.book, log) && (log.id, false) in s.h.replies
    ensures Tied(c, Finalized(c, s, log, reply))
  {
    FinalizeCounted(c, s, log, reply);
    if Store.IsPending(s.db, log.id) {
      RunsStay(s.workers, s.h, Finalized(c, s, log, reply).h);
    }
  }

  lemma DropTied(c: Config, s: State, id: RowId, detail: string)
    requires Tied(c, s) && Store.IsPending(s.db, id)
    ensures Tied(c, Settled(s, Store.MarkDropped(s.db, id, detail).0, {id}, Dropped))
  {
  }

  lemma StampTied(c: Config, s: State, id: RowId, at: Time)
    requires Tied(c, s)
    ensures Tied(c, s.(db := Store.Rescheduled(s.db, id, at).0))
  {
  }

  lemma OutcomeTied(c: Config, s: State, w: nat, a: Action)
    requires ConfigOk(c) && Tied(c, s) && Recorded(s.db.rows, s.h.book)
    requires Enabled(c, s, Act(w, a)) && s.workers[w].Settling?
    ensures Tied(c, Effect(c, s, s.workers[w], a))
  {
    var pc := s.workers[w];
    assert RunOk(s.h, pc);
    if a.done {
      if Is2xx(pc.reply) {
        SuccessTied(c, s, pc.log, pc.reply.http.value);
      } else if pc.log.attempt < c.maxAttempts {
        RetryTied(c, s, pc.log, pc.reply, a.at, a.succ);
      } else {
        FinalizeTied(c, s, pc.log, pc.reply);
      }
    }
  }

  lemma ReplySeenTied(c: Config, s: State, seen: (RowId, bool))
    requires Tied(c, s)
    ensures Tied(c, s.(h := s.h.(replies := s.h.replies + {seen})))
  {
    RunsStay(s.workers, s.h, s.h.(replies := s.h.replies + {seen}));
  }

  lemma EffectTied(c: Config, s: State, w: nat, a: Action)
    requires ConfigOk(c) && Tied(c, s) && Recorded(s.db.rows, s.h.book) && Enabled(c, s, Act(w, a))
    ensures Tied(c, Effect(c, s, s.workers[w], a))
  {
    var pc := s.workers[w];
    if pc.Settling? {
      OutcomeTied(c, s, w, a);
    } else if pc.Loaded? && a.won {
      ClaimIsStamp(c, s, pc.log.id, a.until);
      StampTied(c, s, pc.log.id, a.until);
    } else if pc.Dropping? && a.done && Store.IsPending(s.db, pc.log.id) {
      DropTied(c, s, pc.log.id, "subscription deactivated");
    } else if pc.Denied? && a.done {
      StampTied(c, s, pc.log.id, pc.at);
    } else if pc.Sending? {
      ReplySeenTied(c, s, (pc.log.id, Is2xx(a.reply)));
    }
  }

  /** The run's next point still remembers its row and the reply it saw. */
  lemma MoveOk(c: Config, s: State, pc: Pc, a: Action)
    requires RunOk(s.h, pc) && Calls(pc, a) && Grew(s.h, Effect(c, s, pc, a).h)
    ensures Next(pc, a).Some? ==> RunOk(Effect(c, s, pc, a).h, Next(pc, a).value)
  {
  }

  lemma EffectGrows(c: Config, s: State, pc: Pc, a: Action)
    requires Calls(pc, a) && (a.Write? ==> a.succ !in s.h.book.born)
    ensures Grew(s.h, Effect(c, s, pc, a).h) && Effect(c, s, pc, a).workers == s.workers
  {
  }

  lemma MoveTied(c: Config, s: State, w: nat, a: Action)
    requires ConfigOk(c) && Tied(c, s) && Recorded(s.db.rows, s.h.book) && Enabled(c, s, Act(w, a))
    ensures Tied(c, Acted(c, s, w, a))
  {
    var pc := s.workers[w];
    assert RunOk(s.h, pc);
    EffectTied(c, s, w, a);
    EffectGrows(c, s, pc, a);
    MoveOk(c, s, pc, a);
    RunMoved(Effect(c, s, pc, a), w, Next(pc, a));
  }

  lemma RunMoved(s: State, w: nat, next: Option<Pc>)
    requires RunsOk(s.workers, s.h) && (next.Some? ==> RunOk(s.h, next.value))
    ensures RunsOk(Moved(s.workers, w, next), s.h)
  {
  }

  /** The clock, and runs that begin or crash. */
  lemma RunsTied(c: Config, s: State, step: Step)
    requires Tied(c, s) && Recorded(s.db.rows, s.h.book) && Enabled(c, s, step)
    requires step.Tick? || step.Dequeue? || step.Crash?
    ensures Tied(c, Apply(c, s, step))
  {
  }

  lemma PlainStepTied(c: Config, s: State, step: Step)
    requires ConfigOk(c) && Tied(c, s) && Recorded(s.db.rows, s.h.book) && Enabled(c, s, step)
    requires !step.Replay? && !step.Rearm?
    ensures Tied(c, Apply(c, s, step))
  {
    match step
    case CreateSub(sub, active) => SubWriteTied(c, s, sub, active);
    case UpdateSub(sub, active) => SubWriteTied(c, s, sub, active);
    case DeleteSub(sub) => DeleteSubTied(c, s, sub);
    case Ingest(p, row) => IngestTied(c, s, p, row);
    case Act(w, a) => MoveTied(c, s, w, a);
    case Ack(sub, hook) => UnflagTied(c, s, Store.DlqOf(s.db, sub, hook), Acked);
    case ForceAck(age) => UnflagTied(c, s, Store.Aged(s.db, age), ForceAcked);
    case Expire(d) => CleanupTied(c, s, d);
    case Prune(d) => CleanupTied(c, s, d);
    case _ => RunsTied(c, s, step);
  }

  lemma StepTied(c: Config, s: State, step: Step)
    requires ConfigOk(c) && Inv(c, s) && Enabled(c, s, step)
    ensures Tied(c, Apply(c, s, step))
  {
    match step
    case Replay(sub, hook, claimed, row) =>
      ReplayIsRechained(c, s, sub, hook, claimed, row);
      ReplayTied(c, s, claimed, row);
    case Rearm(ids, orphan) => RearmFindsNothing(c, s, ids, orphan);
    case _ => PlainStepTied(c, s, step);
  }

  // ---- along any steps ------------------------------------------------------------------------

  lemma LeadsOn(c: Config, ss: seq<State>, ls: seq<Step>, step: Step)
    requires Leads(c, ss, ls) && Enabled(c, ss[|ls|], step)
    ensures Leads(c, ss + [Apply(c, ss[|ls|], step)], ls + [step])
  {
  }

  lemma {:induction false} LeadsKeeps(c: Config, ss: seq<State>, ls: seq<Step>, k: nat)
    requires ConfigOk(c) && Leads(c, ss, ls) && Inv(c, ss[0]) && k < |ss|
    ensures Inv(c, ss[k])
  {
    if k > 0 {
      LeadsKeeps(c, ss, ls, k - 1);
      StepSound(c, ss[k - 1], ls[k - 1]);
      StepTied(c, ss[k - 1], ls[k - 1]);
    }
  }
}
