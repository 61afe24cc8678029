/** What holds in every state of every run of the lifecycle. */
module Theorems {
  import opened Domain
  import opened Ledger
  import opened Program
  import opened Lifecycle
  import opened Preservation
  import Store

  /** A run: states `ss` joined by the steps `ls`, from an empty database. */
  ghost predicate Behaviour(c: Config, ss: seq<State>, ls: seq<Step>) {
    ConfigOk(c) && Leads(c, ss, ls) && ss[0] == Init(ss[0].db.now)
  }

  lemma Reached(c: Config, ss: seq<State>, ls: seq<Step>, k: nat)
    requires Behaviour(c, ss, ls) && k < |ss|
    ensures Inv(c, ss[k])
  {
    assert Inv(c, Init(ss[0].db.now));
    LeadsKeeps(c, ss, ls, k);
  }

  /** A row in the table still has the columns it was inserted with. */
  lemma RowAsBorn(c: Config, ss: seq<State>, ls: seq<Step>, k: nat, id: RowId)
    requires Behaviour(c, ss, ls) && k < |ss| && id in ss[k].db.rows
    ensures id in ss[k].h.book.born && BirthOf(ss[k].db.rows[id]) == ss[k].h.book.born[id]
  {
    Reached(c, ss, ls, k);
  }

  // ---- what never changes back ------------------------------------------------------

  predicate Flagged(db: Db, id: RowId) {
    id in db.rows && db.rows[id].inDlq
  }

  ghost predicate FatesKept(b: Book, b': Book) {
    forall id :: id in b.fate ==> id in b'.fate && b'.fate[id] == b.fate[id]
  }

  ghost predicate ClearedStays(s: State, s': State) {
    && s.h.flagged <= s'.h.flagged
    && (forall id :: id in s.h.flagged && !Flagged(s.db, id) ==> !Flagged(s'.db, id))
  }

  /** Births and fates are written once, and a DLQ flag once cleared stays cleared. */
  ghost predicate Forward(s: State, s': State) {
    Grew(s.h, s'.h) && FatesKept(s.h.book, s'.h.book) && ClearedStays(s, s')
  }

  lemma EffectKeepsFates(c: Config, s: State, pc: Pc, a: Action)
    requires Accounted(s.db.rows, s.h.book) && pc.log.id in s.h.book.born && Calls(pc, a)
    ensures FatesKept(s.h.book, Effect(c, s, pc, a).h.book)
  {
    if Store.IsPending(s.db, pc.log.id) {
      assert pc.log.id !in s.h.book.fate;
    } else {
      LateEffect(c, s, pc, a);
    }
  }

  /** A run whose row is no longer pending writes nothing to the book. */
  lemma LateEffect(c: Config, s: State, pc: Pc, a: Action)
    requires Calls(pc, a) && !Store.IsPending(s.db, pc.log.id)
    ensures Effect(c, s, pc, a).h.book == s.h.book
  {
  }

  lemma EffectKeepsCleared(c: Config, s: State, pc: Pc, a: Action)
    requires FlagsOk(s.db.rows, s.h) && Calls(pc, a) && (a.Write? ==> a.succ !in s.h.book.born)
    ensures ClearedStays(s, Effect(c, s, pc, a))
  {
  }

  lemma StepKeepsFates(c: Config, s: State, step: Step)
    requires Accounted(s.db.rows, s.h.book) && Recorded(s.db.rows, s.h.book) && RunsOk(s.workers, s.h)
    requires Enabled(c, s, step)
    ensures FatesKept(s.h.book, Apply(c, s, step).h.book)
  {
    if step.Act? {
      assert RunOk(s.h, s.workers[step.w]);
      EffectKeepsFates(c, s, s.workers[step.w], step.a);
    }
  }

  lemma StepKeepsCleared(c: Config, s: State, step: Step)
    requires FlagsOk(s.db.rows, s.h) && Enabled(c, s, step)
    ensures ClearedStays(s, Apply(c, s, step))
  {
    if step.Act? { EffectKeepsCleared(c, s, s.workers[step.w], step.a); }
  }

  lemma StepGrows(c: Config, s: State, step: Step)
    requires Enabled(c, s, step)
    ensures Grew(s.h, Apply(c, s, step).h)
  {
    if step.Act? { EffectGrows(c, s, s.workers[step.w], step.a); }
  }

  lemma NextIsForward(c: Config, ss: seq<State>, ls: seq<Step>, k: nat)
    requires Behaviour(c, ss, ls) && k < |ls|
    ensures Forward(ss[k], ss[k + 1])
  {
    Reached(c, ss, ls, k);
    StepGrows(c, ss[k], ls[k]);
    StepKeepsFates(c, ss[k], ls[k]);
    StepKeepsCleared(c, ss[k], ls[k]);
  }

  lemma ForwardReflexive(s: State)
    ensures Forward(s, s)
  {
  }

  lemma ForwardTransitive(s: State, s1: State, s2: State)
    requires Forward(s, s1) && Forward(s1, s2)
    ensures Forward(s, s2)
  {
  }

  lemma {:induction false} ForwardChain(ss: seq<State>, i: nat, j: nat)
    requires i <= j < |ss| && forall k :: i <= k < j ==> Forward(ss[k], ss[k + 1])
    ensures Forward(ss[i], ss[j])
    decreases j
  {
    if i == j {
      ForwardReflexive(ss[i]);
    } else {
      ForwardChain(ss, i, j - 1);
      assert Forward(ss[j - 1], ss[j - 1 + 1]);
      ForwardTransitive(ss[i], ss[j - 1], ss[j]);
    }
  }

  /** Over any stretch of any run: births and fates stay, cleared flags stay cleared. */
  lemma NeverUndone(c: Config, ss: seq<State>, ls: seq<Step>, i: nat, j: nat)
    requires Behaviour(c, ss, ls) && i <= j < |ss|
    ensures Forward(ss[i], ss[j])
  {
    forall k | i <= k < j ensures Forward(ss[k], ss[k + 1]) {
      NextIsForward(c, ss, ls, k);
    }
    ForwardChain(ss, i, j);
  }

  // ---- lease exclusion ---------------------------------------------------------------

  /** The run is between its claim of the row and its write. */
  predicate Holds(s: State, w: nat, id: RowId) {
    w in s.workers && Holding(s.workers[w]) && s.workers[w].log.id == id
  }

  /** Every run that holds the row still has lease time left. */
  ghost predicate Timely(s: State, id: RowId) {
    forall w :: Holds(s, w, id) ==> s.db.now < s.workers[w].until
  }

  /** At most one run holds the row, and while it is pending it is leased to that run. */
  ghost predicate Exclusive(s: State, id: RowId) {
    && (forall w :: Holds(s, w, id) && Store.IsPending(s.db, id) ==> s.db.rows[id].next == Some(s.workers[w].until))
    && (forall v, w :: Holds(s, v, id) && Holds(s, w, id) ==> v == w)
  }

  /** Apart from winning a claim, a call touches only the row of a run that lets go. */
  lemma CallTouchesOwn(c: Config, s: State, pc: Pc, a: Action, id: RowId)
    requires Calls(pc, a) && !(a.Claim? && a.won) && (a.Write? ==> a.succ !in s.h.book.born)
    requires id in s.h.book.born
    requires id != pc.log.id || (Next(pc, a).Some? && Holding(Next(pc, a).value))
    ensures Store.IsPending(Effect(c, s, pc, a).db, id) ==>
      Store.IsPending(s.db, id) && Effect(c, s, pc, a).db.rows[id].next == s.db.rows[id].next
  {
  }

  /** A run that still holds its row remembers the same row and lease. */
  predicate Continues(pc: Pc, next: Option<Pc>) {
    next.Some? && Holding(next.value) ==>
      Holding(pc) && next.value.log == pc.log && next.value.until == pc.until
  }

  /** The row of a run that goes on holding it keeps the end of its lease. */
  lemma HolderKept(c: Config, s: State, w: nat, a: Action, v: nat, id: RowId)
    requires Exclusive(s, id) && Enabled(c, s, Act(w, a)) && !(a.Claim? && a.won)
    requires Holds(s, v, id) && id in s.h.book.born
    requires v == w ==> Next(s.workers[w], a).Some? && Holding(Next(s.workers[w], a).value)
    ensures var db := Effect(c, s, s.workers[w], a).db;
            Store.IsPending(db, id) ==> db.rows[id].next == Some(s.workers[v].until)
  {
    if Holding(s.workers[w]) {
      assert w != v ==> !Holds(s, w, id);
      CallTouchesOwn(c, s, s.workers[w], a, id);
    } else {
      QuietEffect(c, s, s.workers[w], a);
    }
  }

  lemma MovedExclusive(s: State, s1: State, w: nat, next: Option<Pc>, id: RowId)
    requires Exclusive(s, id) && w in s.workers && Continues(s.workers[w], next)
    requires forall v :: Holds(s, v, id) && (v == w ==> next.Some? && Holding(next.value)) ==>
      (Store.IsPending(s1.db, id) ==> s1.db.rows[id].next == Some(s.workers[v].until))
    ensures Exclusive(s1.(workers := Moved(s.workers, w, next)), id)
  {
    var s' := s1.(workers := Moved(s.workers, w, next));
    forall v | Holds(s', v, id) ensures Holds(s, v, id) && s'.workers[v].until == s.workers[v].until {}
  }

  lemma CallExclusive(c: Config, s: State, w: nat, a: Action, id: RowId)
    requires RunsOk(s.workers, s.h) && Exclusive(s, id) && Enabled(c, s, Act(w, a)) && !(a.Claim? && a.won)
    ensures Exclusive(Acted(c, s, w, a), id)
  {
    var s1 := Effect(c, s, s.workers[w], a);
    var next := Next(s.workers[w], a);
    forall v | Holds(s, v, id) && (v == w ==> next.Some? && Holding(next.value))
      ensures Store.IsPending(s1.db, id) ==> s1.db.rows[id].next == Some(s.workers[v].until)
    {
      assert RunOk(s.h, s.workers[v]);
      HolderKept(c, s, w, a, v, id);
    }
    MovedExclusive(s, s1, w, next, id);
  }

  /** A due row has no timely holder, so the claim makes the only one. */
  lemma ClaimExclusive(c: Config, s: State, w: nat, a: Action, id: RowId)
    requires Exclusive(s, id) && Timely(s, id) && Enabled(c, s, Act(w, a)) && a.Claim? && a.won
    ensures Exclusive(Acted(c, s, w, a), id)
  {
    var s' := Acted(c, s, w, a);
    if s.workers[w].log.id == id {
      forall v ensures !Holds(s, v, id) {}
      forall v | Holds(s', v, id) ensures v == w { assert v != w ==> Holds(s, v, id); }
    } else {
      forall v | Holds(s', v, id) ensures Holds(s, v, id) && s'.workers[v] == s.workers[v] {}
    }
  }

  lemma ActExclusive(c: Config, s: State, w: nat, a: Action, id: RowId)
    requires RunsOk(s.workers, s.h) && Exclusive(s, id) && Timely(s, id) && Enabled(c, s, Act(w, a))
    ensures Exclusive(Acted(c, s, w, a), id)
  {
    if a.Claim? && a.won { ClaimExclusive(c, s, w, a, id); } else { CallExclusive(c, s, w, a, id); }
  }

  /** The hypothesis is tight: a second claim of a held row succeeds exactly when the
      holder's lease has ended, and then two runs hold the row. */
  lemma OvertakenExactly(c: Config, s: State, v: nat, w: nat)
    requires w in s.workers && s.workers[w].Loaded? && Store.IsPending(s.db, s.workers[w].log.id)
    requires Exclusive(s, s.workers[w].log.id) && Holds(s, v, s.workers[w].log.id)
    ensures var claim := Act(w, Claim(true, s.db.now + Store.Interval(c.lease)));
            && (Enabled(c, s, claim) <==> s.workers[v].until <= s.db.now)
            && (Enabled(c, s, claim) ==>
                  var s', id := Apply(c, s, claim), s.workers[w].log.id; v != w && Holds(s', v, id) && Holds(s', w, id))
  {
  }

  /** One more step of a run being built. */
  lemma Extended(c: Config, ss: seq<State>, ls: seq<Step>, step: Step) returns (ss': seq<State>, ls': seq<Step>)
    requires Behaviour(c, ss, ls) && Enabled(c, ss[|ls|], step)
    ensures Behaviour(c, ss', ls') && ss'[|ls'|] == Apply(c, ss[|ls|], step)
  {
    LeadsOn(c, ss, ls, step);
    ss', ls' := ss + [Apply(c, ss[|ls|], step)], ls + [step];
  }

  /** A webhook has been accepted and its first row is due. */
  lemma OneAccepted(c: Config, now: Time) returns (ss: seq<State>, ls: seq<Step>)
    requires ConfigOk(c)
    ensures Behaviour(c, ss, ls) && ss[|ls|].workers == map[] && ss[|ls|].db.now == now
    ensures 0 in ss[|ls|].db.rows && Due(ss[|ls|].db.rows[0], now)
  {
    ss, ls := [Init(now)], [];
    ss, ls := Extended(c, ss, ls, CreateSub(0, true));
    ss, ls := Extended(c, ss, ls, Ingest(Store.IngestParams(0, "", 0, Event("", "", ""), true), 0));
  }

  /** Two runs have loaded the same due row: a duplicate in the queue. */
  lemma TwoLoaded(c: Config, now: Time) returns (ss: seq<State>, ls: seq<Step>)
    requires ConfigOk(c)
    ensures Behaviour(c, ss, ls) && ss[|ls|].db.now == now
    ensures 0 in ss[|ls|].db.rows && Due(ss[|ls|].db.rows[0], now)
    ensures var log := LogOf(0, ss[|ls|].db.rows[0]);
            ss[|ls|].workers == map[0 := Loaded(log), 1 := Loaded(log)]
  {
    ss, ls := OneAccepted(c, now);
    var s := ss[|ls|];
    ss, ls := Extended(c, ss, ls, Dequeue(0, 0));
    ss, ls := Extended(c, ss, ls, Dequeue(1, 0));
    assert ss[|ls|].db == s.db;
  }

  lemma ClaimTaken(c: Config, s: State, w: nat, until: Time)
    requires w in s.workers && s.workers[w].Loaded? && s.workers[w].log.id in s.db.rows
    requires Due(s.db.rows[s.workers[w].log.id], s.db.now) && until == s.db.now + Store.Interval(c.lease)
    ensures Enabled(c, s, Act(w, Claim(true, until)))
    ensures var s', log := Apply(c, s, Act(w, Claim(true, until))), s.workers[w].log;
            && s'.workers == s.workers[w := Leased(log, until)] && s'.db.now == s.db.now
            && log.id in s'.db.rows && s'.db.rows[log.id].status.Pending? && s'.db.rows[log.id].next == Some(until)
  {
  }

  /** Under every configuration, a run that outlasts its lease can be overtaken: two
      runs are between claim and write for one row. */
  lemma SlowRunIsOvertaken(c: Config, now: Time) returns (ss: seq<State>, ls: seq<Step>)
    requires ConfigOk(c)
    ensures Behaviour(c, ss, ls)
    ensures Holds(ss[|ls|], 0, 0) && Holds(ss[|ls|], 1, 0)
  {
    ss, ls := TwoLoaded(c, now);
    var until := now + Store.Interval(c.lease);
    ClaimTaken(c, ss[|ls|], 0, until);
    ss, ls := Extended(c, ss, ls, Act(0, Claim(true, until)));
    var s := ss[|ls|];
    ss, ls := Extended(c, ss, ls, Tick(until));
    assert ss[|ls|] == s.(db := s.db.(now := until));
    ClaimTaken(c, ss[|ls|], 1, until + Store.Interval(c.lease));
    ss, ls := Extended(c, ss, ls, Act(1, Claim(true, until + Store.Interval(c.lease))));
  }

  /** No row known to the book becomes pending or gets another due time. */
  ghost predicate Untouched(s: State, s': State) {
    forall id :: id in s.h.book.born && Store.IsPending(s'.db, id) ==>
      Store.IsPending(s.db, id) && s'.db.rows[id].next == s.db.rows[id].next
  }

  /** Only the runs themselves move a due time. */
  lemma OnlyRunsTouch(c: Config, s: State, step: Step)
    requires Enabled(c, s, step) && !step.Act? && Shaped(c.maxAttempts, s.db.rows, s.h.book)
    ensures Untouched(s, Apply(c, s, step))
  {
    if step.Rearm? {
      assert forall id :: id in step.ids ==> !ShapeOf(c.maxAttempts, s.db.rows[id]);
    }
  }

  lemma UntouchedExclusive(c: Config, s: State, step: Step, id: RowId)
    requires Exclusive(s, id) && RunsOk(s.workers, s.h) && Enabled(c, s, step) && !step.Act?
    requires Untouched(s, Apply(c, s, step))
    ensures Exclusive(Apply(c, s, step), id)
  {
    var s' := Apply(c, s, step);
    forall w | Holds(s', w, id) ensures Holds(s, w, id) && s'.workers[w] == s.workers[w] && id in s.h.book.born {
      assert w in s.workers && RunOk(s.h, s.workers[w]);
    }
  }

  lemma StepExclusive(c: Config, s: State, step: Step, id: RowId)
    requires Inv(c, s) && Exclusive(s, id) && Timely(s, id) && Enabled(c, s, step)
    ensures Exclusive(Apply(c, s, step), id)
  {
    if step.Act? {
      ActExclusive(c, s, step.w, step.a, id);
    } else {
      OnlyRunsTouch(c, s, step);
      UntouchedExclusive(c, s, step, id);
    }
  }

  /** As long as every run that claimed the row made its write inside its lease, no two
      runs are ever between claim and write for it, whatever the runs of other rows do. */
  lemma {:induction false} LeaseExclusion(c: Config, ss: seq<State>, ls: seq<Step>, k: nat, id: RowId)
    requires Behaviour(c, ss, ls) && k < |ss|
    requires forall i :: 0 <= i < k ==> Timely(ss[i], id)
    ensures forall v, w :: Holds(ss[k], v, id) && Holds(ss[k], w, id) ==> v == w
    ensures Exclusive(ss[k], id)
  {
    if k > 0 {
      LeaseExclusion(c, ss, ls, k - 1, id);
      Reached(c, ss, ls, k - 1);
      StepExclusive(c, ss[k - 1], ls[k - 1], id);
    }
  }

  // ---- chains, retention and bounded attempts ----------------------------------------

  /** Two rows of one webhook carry one event at different positions, a live row is
      the latest of them, and what retention left is the tail of the history. */
  lemma ChainShape(c: Config, ss: seq<State>, ls: seq<Step>, k: nat, i: RowId, j: RowId)
    requires Behaviour(c, ss, ls) && k < |ss|
    requires i in ss[k].db.rows && j in ss[k].h.book.born && i != j
    requires ss[k].db.rows[i].hook == ss[k].h.book.born[j].hook
    ensures SameWebhook(BirthOf(ss[k].db.rows[i]), ss[k].h.book.born[j])
    ensures Follows(ss[k].h.book, i, j) != Follows(ss[k].h.book, j, i)
    ensures Live(ss[k].db.rows[i]) ==> Follows(ss[k].h.book, j, i) && !(j in ss[k].db.rows && Live(ss[k].db.rows[j]))
    ensures Follows(ss[k].h.book, i, j) ==> j in ss[k].db.rows && ss[k].db.rows[i].created <= ss[k].db.rows[j].created
  {
    Reached(c, ss, ls, k);
    var b := ss[k].h.book;
    assert PairOk(b, i, j) && PairOk(b, j, i);
  }

  /** A failed attempt still in the table has its successor beside it. */
  lemma SuccessorSurvives(c: Config, ss: seq<State>, ls: seq<Step>, k: nat, id: RowId) returns (succ: RowId)
    requires Behaviour(c, ss, ls) && k < |ss|
    requires id in ss[k].db.rows && ss[k].db.rows[id].status.FailedAttempt?
    ensures succ in ss[k].db.rows && ss[k].db.rows[succ].hook == ss[k].db.rows[id].hook
    ensures ss[k].db.rows[succ].replay == ss[k].db.rows[id].replay
    ensures ss[k].db.rows[succ].attempt == ss[k].db.rows[id].attempt + 1
  {
    Reached(c, ss, ls, k);
    var b := ss[k].h.book;
    assert ShapeOf(c.maxAttempts, ss[k].db.rows[id]) && id in b.fate && LinkOk(b, id);
    succ := b.fate[id].next;
    assert Follows(b, id, succ);
  }

  /** The DLQ holds only rows that used the whole attempt budget and got a reply
      that was not 2xx. */
  lemma DlqIsExhausted(c: Config, ss: seq<State>, ls: seq<Step>, k: nat, id: RowId)
    requires Behaviour(c, ss, ls) && k < |ss| && Flagged(ss[k].db, id)
    ensures ss[k].db.rows[id].attempt == c.maxAttempts && ss[k].db.rows[id].status.FinalFailure?
    ensures (id, false) in ss[k].h.replies
  {
    Reached(c, ss, ls, k);
    assert ShapeOf(c.maxAttempts, ss[k].db.rows[id]);
  }

  /** A pending row is always leased or scheduled and within the attempt budget. */
  lemma PendingBounded(c: Config, ss: seq<State>, ls: seq<Step>, k: nat, id: RowId)
    requires Behaviour(c, ss, ls) && k < |ss| && Store.IsPending(ss[k].db, id)
    ensures ss[k].db.rows[id].next.Some? && 1 <= ss[k].db.rows[id].attempt <= c.maxAttempts
  {
    Reached(c, ss, ls, k);
    assert ShapeOf(c.maxAttempts, ss[k].db.rows[id]);
  }

  /** An ack or a replay claims at most one row. */
  lemma ClaimIsSingle(c: Config, ss: seq<State>, ls: seq<Step>, k: nat, sub: SubId, hook: HookId)
    requires Behaviour(c, ss, ls) && k < |ss|
    ensures |Store.DlqOf(ss[k].db, sub, hook)| <= 1
  {
    Reached(c, ss, ls, k);
    if id :| id in Store.DlqOf(ss[k].db, sub, hook) {
      DlqRowIsUnique(c, ss[k], sub, hook, id);
    }
  }

  // ---- the clock -----------------------------------------------------------------------

  lemma StepClock(c: Config, s: State, step: Step)
    requires Enabled(c, s, step)
    ensures s.db.now <= Apply(c, s, step).db.now
  {
    if step.Act? { EffectClock(c, s, s.workers[step.w], step.a); }
  }

  lemma EffectClock(c: Config, s: State, pc: Pc, a: Action)
    requires Calls(pc, a)
    ensures Effect(c, s, pc, a).db.now == s.db.now
  {
  }

  lemma {:induction false} ClockChain(ss: seq<State>, i: nat, j: nat)
    requires i <= j < |ss| && forall k :: i <= k < j ==> ss[k].db.now <= ss[k + 1].db.now
    ensures ss[i].db.now <= ss[j].db.now
    decreases j
  {
    if i < j {
      ClockChain(ss, i, j - 1);
      assert ss[j - 1].db.now <= ss[j - 1 + 1].db.now;
    }
  }

  // ---- idempotent ingest ---------------------------------------------------------------

  lemma EffectKeepsKeys(c: Config, s: State, pc: Pc, a: Action)
    requires Calls(pc, a)
    ensures Effect(c, s, pc, a).db.idem == s.db.idem
  {
  }

  lemma StepKeepsKey(c: Config, s: State, step: Step, key: (SubId, string))
    requires Enabled(c, s, step) && key in s.db.idem && key in Apply(c, s, step).db.idem
    ensures Apply(c, s, step).db.idem[key] == s.db.idem[key]
  {
    if step.Act? { EffectKeepsKeys(c, s, s.workers[step.w], step.a); }
  }

  ghost predicate KeyAgrees(db: Db, db': Db, key: (SubId, string)) {
    key in db.idem && key in db'.idem ==> db'.idem[key] == db.idem[key]
  }

  lemma {:induction false} AgreeChain(ss: seq<State>, i: nat, j: nat, key: (SubId, string))
    requires i <= j < |ss| && forall m :: i <= m <= j ==> key in ss[m].db.idem
    requires forall m :: i <= m < j ==> KeyAgrees(ss[m].db, ss[m + 1].db, key)
    ensures ss[j].db.idem[key] == ss[i].db.idem[key]
    decreases j
  {
    if i < j {
      AgreeChain(ss, i, j - 1, key);
      assert KeyAgrees(ss[j - 1].db, ss[j - 1 + 1].db, key);
    }
  }

  lemma KeyNamesOneWebhook(c: Config, ss: seq<State>, ls: seq<Step>, i: nat, j: nat, key: (SubId, string))
    requires Behaviour(c, ss, ls) && i <= j < |ss|
    requires forall m :: i <= m <= j ==> key in ss[m].db.idem
    ensures ss[j].db.idem[key] == ss[i].db.idem[key]
  {
    forall m | i <= m < j ensures KeyAgrees(ss[m].db, ss[m + 1].db, key) {
      assert key in ss[m].db.idem && key in ss[m + 1].db.idem;
      StepKeepsKey(c, ss[m], ls[m], key);
    }
    AgreeChain(ss, i, j, key);
  }

  lemma StepRetainsKey(c: Config, s: State, step: Step, key: (SubId, string), window: Time)
    requires Enabled(c, s, step) && key in s.db.idem && s.db.now <= s.db.idem[key].created + window
    requires step != DeleteSub(key.0) && (step.Prune? ==> window <= Store.Interval(step.ttl))
    ensures key in Apply(c, s, step).db.idem
  {
    if step.Act? { EffectKeepsKeys(c, s, s.workers[step.w], step.a); }
  }

  ghost predicate KeyStays(db: Db, db': Db, key: (SubId, string), window: Time) {
    key in db.idem && db.now <= db.idem[key].created + window ==> key in db'.idem && db'.idem[key] == db.idem[key]
  }

  lemma {:induction false} KeyChain(ss: seq<State>, i: nat, j: nat, key: (SubId, string), window: Time)
    requires i <= j < |ss| && key in ss[i].db.idem && ss[j].db.now <= ss[i].db.idem[key].created + window
    requires forall m :: i <= m < j ==> KeyStays(ss[m].db, ss[m + 1].db, key, window)
    requires forall m :: i <= m < j ==> ss[m].db.now <= ss[m + 1].db.now
    ensures key in ss[j].db.idem && ss[j].db.idem[key] == ss[i].db.idem[key]
    decreases j
  {
    if i < j {
      assert ss[j - 1].db.now <= ss[j - 1 + 1].db.now && KeyStays(ss[j - 1].db, ss[j - 1 + 1].db, key, window);
      KeyChain(ss, i, j - 1, key, window);
    }
  }

  /** A key names its webhook for the whole deduplication window: only deleting the
      subscription ends it earlier. */
  lemma KeyRetained(c: Config, ss: seq<State>, ls: seq<Step>, i: nat, j: nat, key: (SubId, string), window: Time)
    requires Behaviour(c, ss, ls) && i <= j < |ss| && key in ss[i].db.idem
    requires forall m :: i <= m < j ==> ls[m] != DeleteSub(key.0) && (ls[m].Prune? ==> window <= Store.Interval(ls[m].ttl))
    requires ss[j].db.now <= ss[i].db.idem[key].created + window
    ensures key in ss[j].db.idem && ss[j].db.idem[key] == ss[i].db.idem[key]
  {
    forall m | i <= m < j
      ensures KeyStays(ss[m].db, ss[m + 1].db, key, window) && ss[m].db.now <= ss[m + 1].db.now
    {
      StepClock(c, ss[m], ls[m]);
      if key in ss[m].db.idem && ss[m].db.now <= ss[m].db.idem[key].created + window {
        StepRetainsKey(c, ss[m], ls[m], key, window);
        StepKeepsKey(c, ss[m], ls[m], key);
      }
    }
    KeyChain(ss, i, j, key, window);
  }

  /** While the record of a key is retained, an ingest with that key returns the
      webhook of the first one and changes nothing, and that webhook has had exactly
      one original first attempt. */
  lemma IdempotentIngest(c: Config, ss: seq<State>, ls: seq<Step>, i: nat, j: nat, p: Store.IngestParams, row: RowId)
    requires Behaviour(c, ss, ls) && i <= j < |ss| && p.key != "" && Store.ValidParams(p)
    requires forall m :: i <= m <= j ==> (p.sub, p.key) in ss[m].db.idem
    ensures var hook := ss[i].db.idem[(p.sub, p.key)].hook;
            && Store.IngestPending(ss[j].db, p, row) == (ss[j].db, Store.Duplicate(hook))
            && hook in ss[j].h.origin
            && forall id :: IsRoot(ss[j].h.book, hook, id) <==> id == ss[j].h.origin[hook]
  {
    KeyNamesOneWebhook(c, ss, ls, i, j, (p.sub, p.key));
    Reached(c, ss, ls, j);
    var h := ss[j].h;
    var hook := ss[i].db.idem[(p.sub, p.key)].hook;
    assert IsRoot(h.book, hook, h.origin[hook]);
    forall id | IsRoot(h.book, hook, id) ensures id == h.origin[hook] {
      assert id == h.origin[hook] || PairOk(h.book, id, h.origin[hook]);
    }
  }

  // ---- the failure counter ----------------------------------------------------------------

  /** The counter is the number of final failures since the last success, and a
      subscription active at or above the threshold was reactivated by an operator
      after its last final failure. */
  lemma FailureCounter(c: Config, ss: seq<State>, ls: seq<Step>, k: nat, sub: SubId)
    requires Behaviour(c, ss, ls) && k < |ss| && sub in ss[k].db.subs
    ensures sub in ss[k].h.subLog && ss[k].db.subs[sub].failures == Streak(ss[k].h.subLog[sub])
    ensures ss[k].db.subs[sub].active && c.disableThreshold <= ss[k].db.subs[sub].failures ==>
      Reactivated(ss[k].h.subLog[sub])
  {
    Reached(c, ss, ls, k);
    assert CounterOk(c, ss[k].db.subs[sub], ss[k].h.subLog[sub]);
  }
}
