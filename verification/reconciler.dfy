/** The DLQ reconciler. PostgreSQL flags are the truth, the Redis list is an index;
    a pass repairs the list while workers flag and push rows and operators clear and
    remove them between any two of its calls. */
module Reconciler {
  import opened Domain
  import L = Lifecycle
  import P = Program
  import Store
  import T = Theorems
  import V = Preservation

  function AllOf(list: seq<RowId>): set<RowId> {
    set id | id in list
  }

  /** LREM with count 0: every occurrence goes. */
  function Without(list: seq<RowId>, id: RowId): (r: seq<RowId>)
    ensures forall x :: x in r <==> x in list && x != id
  {
    if list == [] then []
    else
      assert list == [list[0]] + list[1..];
      if list[0] == id then Without(list[1..], id) else [list[0]] + Without(list[1..], id)
  }

  datatype Pc =
    | Idle
    | Forced(todo: seq<RowId>)
    | ReadFlags
    | ReadList(flagged: seq<RowId>)
    | Pushing(flagged: seq<RowId>, listed: seq<RowId>, i: nat)
    | PushDue(flagged: seq<RowId>, listed: seq<RowId>, i: nat)
    | Sweeping(flagged: seq<RowId>, listed: seq<RowId>, i: nat)
    | RemoveDue(flagged: seq<RowId>, listed: seq<RowId>, i: nat)

  datatype State = State(
    flagged: set<RowId>,   // rows with in_dlq = TRUE
    once: set<RowId>,      // rows that ever had it
    list: seq<RowId>,      // the Redis list
    pc: Pc)

  datatype Step =
    | Flag(id: RowId)
    | Clear(ids: set<RowId>)
    | WorkerPush(id: RowId)
    | HandlerRemove(id: RowId)
    | Lose(id: RowId)
    | Begin(aged: set<RowId>, order: seq<RowId>)
    | Advance(ok: bool, order: seq<RowId>)

  /** A row is flagged at most once in its life; a worker pushes only rows it flagged;
      a handler removes only rows it cleared. `order` is the order of a result set. */
  predicate Enabled(s: State, step: Step) {
    match step
    case Flag(id) => id !in s.once
    case Clear(ids) => ids <= s.flagged
    case WorkerPush(id) => id in s.once
    case HandlerRemove(id) => id in s.once && id !in s.flagged
    case Lose(_) => true
    case Begin(aged, order) => s.pc.Idle? && aged <= s.flagged && AllOf(order) == aged
    case Advance(_, order) => !s.pc.Idle? && (s.pc.ReadFlags? ==> AllOf(order) == s.flagged)
  }

  function Pushed(s: State, id: RowId): State {
    s.(list := [id] + s.list)
  }

  function Removed(s: State, id: RowId): State {
    s.(list := Without(s.list, id))
  }

  /** One call of the pass; `ok` is false when the call failed without effect. */
  function Call(s: State, ok: bool, order: seq<RowId>): State {
    match s.pc
    case Idle => s
    case Forced(todo) =>
      if todo == [] then s.(pc := ReadFlags)
      else (if ok then Removed(s, todo[0]) else s).(pc := Forced(todo[1..]))
    case ReadFlags => s.(pc := if ok then ReadList(order) else Idle)
    case ReadList(flagged) => s.(pc := if ok then Pushing(flagged, s.list, 0) else Idle)
    case Pushing(flagged, listed, i) =>
      if i >= |flagged| then s.(pc := Sweeping(flagged, listed, 0))
      else if flagged[i] in listed || !ok || flagged[i] !in s.flagged then s.(pc := Pushing(flagged, listed, i + 1))
      else s.(pc := PushDue(flagged, listed, i))
    case PushDue(flagged, listed, i) =>
      (if ok && i < |flagged| then Pushed(s, flagged[i]) else s).(pc := Pushing(flagged, listed, i + 1))
    case Sweeping(flagged, listed, i) =>
      if i >= |listed| then s.(pc := Idle)
      else if listed[i] in flagged || !ok || listed[i] in s.flagged then s.(pc := Sweeping(flagged, listed, i + 1))
      else s.(pc := RemoveDue(flagged, listed, i))
    case RemoveDue(flagged, listed, i) =>
      (if ok && i < |listed| then Removed(s, listed[i]) else s).(pc := Sweeping(flagged, listed, i + 1))
  }

  function Apply(s: State, step: Step): State
    requires Enabled(s, step)
  {
    match step
    case Flag(id) => s.(flagged := s.flagged + {id}, once := s.once + {id})
    case Clear(ids) => s.(flagged := s.flagged - ids)
    case WorkerPush(id) => Pushed(s, id)
    case HandlerRemove(id) => Removed(s, id)
    case Lose(id) => Removed(s, id)
    case Begin(aged, order) => s.(flagged := s.flagged - aged, pc := Forced(order))
    case Advance(ok, order) => Call(s, ok, order)
  }

  // ---- no removal hits a flagged row ----------------------------------------------------

  predicate Cleared(s: State, id: RowId) {
    id in s.once && id !in s.flagged
  }

  predicate PcOk(s: State) {
    match s.pc
    case Idle => true
    case Forced(todo) => forall id :: id in todo ==> Cleared(s, id)
    case ReadFlags => true
    case ReadList(flagged) => AllOf(flagged) <= s.once
    case Pushing(flagged, listed, _) => AllOf(flagged) <= s.once && AllOf(listed) <= s.once
    case PushDue(flagged, listed, i) => AllOf(flagged) <= s.once && AllOf(listed) <= s.once && i < |flagged|
    case Sweeping(flagged, listed, _) => AllOf(flagged) <= s.once && AllOf(listed) <= s.once
    case RemoveDue(flagged, listed, i) =>
      AllOf(flagged) <= s.once && AllOf(listed) <= s.once && i < |listed| && Cleared(s, listed[i])
  }

  predicate Inv(s: State) {
    s.flagged <= s.once && AllOf(s.list) <= s.once && PcOk(s)
  }

  lemma CallKeeps(s: State, ok: bool, order: seq<RowId>)
    requires Inv(s) && Enabled(s, Advance(ok, order))
    ensures Inv(Call(s, ok, order))
  {
    if s.pc.Forced? && s.pc.todo != [] {
      forall id | id in s.pc.todo[1..] ensures Cleared(Call(s, ok, order), id) {
        assert id in s.pc.todo && Cleared(s, id);
      }
    }
  }

  lemma StepKeeps(s: State, step: Step)
    requires Inv(s) && Enabled(s, step)
    ensures Inv(Apply(s, step))
  {
    if step.Advance? {
      CallKeeps(s, step.ok, step.order);
    } else if step.Begin? {
      assert forall id :: id in step.order ==> id in AllOf(step.order);
    }
  }

  /** The steps lead through the states. */
  ghost predicate Leads(ss: seq<State>, ls: seq<Step>) {
    |ss| == |ls| + 1
    && forall i :: 0 <= i < |ls| ==> Enabled(ss[i], ls[i]) && ss[i + 1] == Apply(ss[i], ls[i])
  }

  ghost predicate Behaviour(ss: seq<State>, ls: seq<Step>) {
    Leads(ss, ls) && ss[0].flagged == {} && ss[0].once == {} && ss[0].list == [] && ss[0].pc.Idle?
  }

  lemma {:induction false} Reached(ss: seq<State>, ls: seq<Step>, k: nat)
    requires Behaviour(ss, ls) && k < |ss|
    ensures Inv(ss[k])
  {
    if k > 0 {
      Reached(ss, ls, k - 1);
      StepKeeps(ss[k - 1], ls[k - 1]);
    }
  }

  /** The check-then-remove of the pass never drops a flagged row, whatever happened
      between the check and the removal; only Redis itself can lose one. */
  lemma FlaggedStaysListed(ss: seq<State>, ls: seq<Step>, k: nat, id: RowId)
    requires Behaviour(ss, ls) && k < |ls| && ls[k] != Lose(id)
    requires id in ss[k].flagged && id in ss[k].list
    ensures id in ss[k + 1].list
  {
    Reached(ss, ls, k);
    StaysListed(ss[k], ls[k], id);
  }

  lemma StaysListed(s: State, step: Step, id: RowId)
    requires Inv(s) && Enabled(s, step) && step != Lose(id) && id in s.flagged && id in s.list
    ensures id in Apply(s, step).list
  {
    if step.Advance? && s.pc.Forced? && s.pc.todo != [] {
      assert s.pc.todo[0] in s.pc.todo;
    }
  }

  // ---- a pass lists every row flagged throughout it -----------------------------------------

  /** What the pass still owes to a row flagged since it began. */
  predicate Owed(s: State, id: RowId) {
    match s.pc
    case Idle => id in s.list
    case Forced(_) => true
    case ReadFlags => true
    case ReadList(flagged) => id in flagged
    case Pushing(flagged, listed, i) => id in s.list || (i <= |flagged| && id in flagged[i..] && id !in listed)
    case PushDue(flagged, listed, i) => id in s.list || (i <= |flagged| && id in flagged[i..] && id !in listed)
    case Sweeping(_, _, _) => id in s.list
    case RemoveDue(_, _, _) => id in s.list
  }

  /** Nothing goes wrong that concerns the row: Redis does not lose it, both reads of the
      pass succeed, and so do the check and the push of this row. Calls for other rows may
      fail. */
  predicate Spares(s: State, step: Step, id: RowId) {
    && step != Lose(id)
    && (step.Advance? && !step.ok ==>
          match s.pc
          case ReadFlags => false
          case ReadList(_) => false
          case Pushing(flagged, _, i) => i < |flagged| ==> flagged[i] != id
          case PushDue(flagged, _, i) => i < |flagged| ==> flagged[i] != id
          case _ => true)
  }

  lemma FirstOff(flagged: seq<RowId>, i: nat, id: RowId)
    requires i < |flagged|
    ensures id in flagged[i..] <==> id == flagged[i] || id in flagged[i + 1..]
  {
    assert flagged[i..] == [flagged[i]] + flagged[i + 1..];
  }

  lemma PushPays(s: State, ok: bool, order: seq<RowId>, id: RowId)
    requires (s.pc.Pushing? || s.pc.PushDue?) && id in s.flagged && id !in s.list
    requires Spares(s, Advance(ok, order), id) && Owed(s, id)
    ensures Owed(Call(s, ok, order), id)
  {
    if s.pc.i < |s.pc.flagged| { FirstOff(s.pc.flagged, s.pc.i, id); }
  }

  lemma CallPays(s: State, ok: bool, order: seq<RowId>, id: RowId)
    requires Inv(s) && Enabled(s, Advance(ok, order)) && Spares(s, Advance(ok, order), id) && id in s.flagged && Owed(s, id)
    ensures Owed(Call(s, ok, order), id)
  {
    if s.pc.ReadFlags? {
      assert id in AllOf(order);
    } else if id in s.list {
      StaysListed(s, Advance(ok, order), id);
    } else if s.pc.Pushing? || s.pc.PushDue? {
      PushPays(s, ok, order, id);
    } else if s.pc.ReadList? {
      assert s.pc.flagged[0..] == s.pc.flagged;
    }
  }

  lemma StepPays(s: State, step: Step, id: RowId)
    requires Inv(s) && Enabled(s, step) && Spares(s, step, id) && id in s.flagged && id in Apply(s, step).flagged
    requires Owed(s, id)
    ensures Owed(Apply(s, step), id)
  {
    if step.Advance? {
      CallPays(s, step.ok, step.order, id);
    } else if id in s.list {
      StaysListed(s, step, id);
    }
  }

  lemma {:induction false} PassPays(ss: seq<State>, ls: seq<Step>, a: nat, m: nat, id: RowId)
    requires Behaviour(ss, ls) && a < m < |ss| && ss[a].pc.Idle? && ls[a].Begin?
    requires forall k :: a <= k < m ==> Spares(ss[k], ls[k], id)
    requires forall k :: a <= k <= m ==> id in ss[k].flagged
    ensures Owed(ss[m], id)
  {
    if m > a + 1 {
      PassPays(ss, ls, a, m - 1, id);
      Reached(ss, ls, m - 1);
      assert id in ss[m].flagged && ss[m] == Apply(ss[m - 1], ls[m - 1]);
      StepPays(ss[m - 1], ls[m - 1], id);
    }
  }

  /** From the beginning of a pass to its end: a row flagged all along is listed, however
      the other rows changed and whichever calls for them failed. */
  lemma PassListsFlagged(ss: seq<State>, ls: seq<Step>, a: nat, b: nat, id: RowId)
    requires Behaviour(ss, ls) && a < b < |ss| && ss[a].pc.Idle? && ls[a].Begin? && ss[b].pc.Idle?
    requires forall k :: a <= k < b ==> Spares(ss[k], ls[k], id)
    requires forall k :: a <= k <= b ==> id in ss[k].flagged
    ensures id in ss[b].list
  {
    PassPays(ss, ls, a, b, id);
  }

  // ---- and takes off every row unflagged throughout it ----------------------------------------

  /** What the pass still owes to a row unflagged since it began. */
  predicate OwedOff(s: State, id: RowId) {
    match s.pc
    case Idle => id !in s.list
    case Forced(_) => true
    case ReadFlags => true
    case ReadList(flagged) => id !in flagged
    case Pushing(flagged, listed, _) => id !in flagged && (id in s.list ==> id in listed)
    case PushDue(flagged, listed, _) => id !in flagged && (id in s.list ==> id in listed)
    case Sweeping(flagged, listed, i) => id !in flagged && (id in s.list ==> i <= |listed| && id in listed[i..])
    case RemoveDue(flagged, listed, i) => id !in flagged && (id in s.list ==> i <= |listed| && id in listed[i..])
  }

  /** Nobody pushes the row, both reads of the pass succeed, and so do the check and the
      removal of this row. */
  predicate SparesOff(s: State, step: Step, id: RowId) {
    && step != WorkerPush(id)
    && (step.Advance? && !step.ok ==>
          match s.pc
          case ReadFlags => false
          case ReadList(_) => false
          case Sweeping(_, listed, i) => i < |listed| ==> listed[i] != id
          case RemoveDue(_, listed, i) => i < |listed| ==> listed[i] != id
          case _ => true)
  }

  lemma SweepPays(s: State, ok: bool, order: seq<RowId>, id: RowId)
    requires (s.pc.Sweeping? || s.pc.RemoveDue?) && PcOk(s) && id !in s.flagged
    requires SparesOff(s, Advance(ok, order), id) && OwedOff(s, id)
    ensures OwedOff(Call(s, ok, order), id)
  {
    if s.pc.i < |s.pc.listed| { FirstOff(s.pc.listed, s.pc.i, id); }
  }

  lemma CallPaysOff(s: State, ok: bool, order: seq<RowId>, id: RowId)
    requires Inv(s) && Enabled(s, Advance(ok, order)) && SparesOff(s, Advance(ok, order), id)
    requires id !in s.flagged && OwedOff(s, id)
    ensures OwedOff(Call(s, ok, order), id)
  {
    if s.pc.Sweeping? || s.pc.RemoveDue? {
      SweepPays(s, ok, order, id);
    } else if s.pc.ReadFlags? {
      assert id !in AllOf(order);
    } else if s.pc.Pushing? {
      assert s.pc.listed[0..] == s.pc.listed;
    }
  }

  lemma StepPaysOff(s: State, step: Step, id: RowId)
    requires Inv(s) && Enabled(s, step) && SparesOff(s, step, id) && id !in s.flagged && id !in Apply(s, step).flagged
    requires OwedOff(s, id)
    ensures OwedOff(Apply(s, step), id)
  {
    if step.Advance? { CallPaysOff(s, step.ok, step.order, id); }
  }

  lemma {:induction false} PassPaysOff(ss: seq<State>, ls: seq<Step>, a: nat, m: nat, id: RowId)
    requires Behaviour(ss, ls) && a < m < |ss| && ss[a].pc.Idle? && ls[a].Begin?
    requires forall k :: a <= k < m ==> SparesOff(ss[k], ls[k], id)
    requires forall k :: a < k <= m ==> id !in ss[k].flagged
    ensures OwedOff(ss[m], id)
  {
    if m > a + 1 {
      PassPaysOff(ss, ls, a, m - 1, id);
      Reached(ss, ls, m - 1);
      assert id !in ss[m].flagged && ss[m] == Apply(ss[m - 1], ls[m - 1]);
      StepPaysOff(ss[m - 1], ls[m - 1], id);
    }
  }

  /** From the beginning of a pass to its end: a row unflagged all along, be it force-acked
      by this pass, is off the list, however the other rows changed and whichever calls for
      them failed. */
  lemma PassUnlistsCleared(ss: seq<State>, ls: seq<Step>, a: nat, b: nat, id: RowId)
    requires Behaviour(ss, ls) && a < b < |ss| && ss[a].pc.Idle? && ls[a].Begin? && ss[b].pc.Idle?
    requires forall k :: a <= k < b ==> SparesOff(ss[k], ls[k], id)
    requires forall k :: a < k <= b ==> id !in ss[k].flagged
    ensures id !in ss[b].list
  {
    PassPaysOff(ss, ls, a, b, id);
  }

  // ---- every push and every removal is checked ---------------------------------------------

  /** At step `j` a call of the pass checked the row, and the pass stands there since. */
  ghost predicate PushChecked(ss: seq<State>, ls: seq<Step>, j: nat, k: nat)
    requires j < k < |ss| == |ls| + 1 && ss[k].pc.PushDue?
  {
    var pc := ss[k].pc;
    && ls[j].Advance? && ls[j].ok
    && pc.i < |pc.flagged| && ss[j].pc == Pushing(pc.flagged, pc.listed, pc.i)
    && pc.flagged[pc.i] in ss[j].flagged && pc.flagged[pc.i] !in pc.listed
    && forall m :: j < m <= k ==> ss[m].pc == pc
  }

  ghost predicate RemoveChecked(ss: seq<State>, ls: seq<Step>, j: nat, k: nat)
    requires j < k < |ss| == |ls| + 1 && ss[k].pc.RemoveDue?
  {
    var pc := ss[k].pc;
    && ls[j].Advance? && ls[j].ok
    && pc.i < |pc.listed| && ss[j].pc == Sweeping(pc.flagged, pc.listed, pc.i)
    && pc.listed[pc.i] !in ss[j].flagged && pc.listed[pc.i] !in pc.flagged
    && forall m :: j < m <= k ==> ss[m].pc == pc
  }

  lemma IntoDue(s: State, step: Step)
    requires Enabled(s, step) && (Apply(s, step).pc.PushDue? || Apply(s, step).pc.RemoveDue?) && Apply(s, step).pc != s.pc
    ensures step.Advance? && step.ok
    ensures var pc := Apply(s, step).pc;
            && (pc.PushDue? ==> s.pc == Pushing(pc.flagged, pc.listed, pc.i) && pc.i < |pc.flagged|
                                && pc.flagged[pc.i] in s.flagged && pc.flagged[pc.i] !in pc.listed)
            && (pc.RemoveDue? ==> s.pc == Sweeping(pc.flagged, pc.listed, pc.i) && pc.i < |pc.listed|
                                  && pc.listed[pc.i] !in s.flagged && pc.listed[pc.i] !in pc.flagged)
  {
  }

  /** The pass pushes only a row missing from its copy of the list that a successful check
      has just seen flagged, and removes only a row that one has just seen unflagged. */
  lemma {:induction false} OnlyChecked(ss: seq<State>, ls: seq<Step>, k: nat) returns (j: nat)
    requires Behaviour(ss, ls) && k < |ss| && (ss[k].pc.PushDue? || ss[k].pc.RemoveDue?)
    ensures j < k && (ss[k].pc.PushDue? ==> PushChecked(ss, ls, j, k)) && (ss[k].pc.RemoveDue? ==> RemoveChecked(ss, ls, j, k))
  {
    if ss[k - 1].pc == ss[k].pc {
      j := OnlyChecked(ss, ls, k - 1);
    } else {
      IntoDue(ss[k - 1], ls[k - 1]);
      j := k - 1;
    }
  }

  /** The pass has both its copies. */
  predicate Working(pc: Pc) {
    pc.Pushing? || pc.PushDue? || pc.Sweeping? || pc.RemoveDue?
  }

  /** The copies are what two successful reads of this pass saw: first the flags, then the
      list. */
  ghost predicate CopiesRead(ss: seq<State>, ls: seq<Step>, f: nat, l: nat, k: nat)
    requires f < l < k < |ss| == |ls| + 1 && Working(ss[k].pc)
  {
    && ss[f].pc.ReadFlags? && ls[f].Advance? && ls[f].ok && AllOf(ss[k].pc.flagged) == ss[f].flagged
    && ss[l].pc == ReadList(ss[k].pc.flagged) && ls[l].Advance? && ls[l].ok && ss[k].pc.listed == ss[l].list
    && (forall m :: f < m <= l ==> ss[m].pc == ss[l].pc) && (forall m :: l < m <= k ==> Working(ss[m].pc))
  }

  lemma IntoWorking(s: State, step: Step)
    requires Enabled(s, step) && Working(Apply(s, step).pc)
    ensures var pc := Apply(s, step).pc;
            if Working(s.pc) then pc.flagged == s.pc.flagged && pc.listed == s.pc.listed
            else s.pc == ReadList(pc.flagged) && step.Advance? && step.ok && pc.listed == s.list
  {
  }

  lemma IntoReadList(s: State, step: Step)
    requires Enabled(s, step) && Apply(s, step).pc.ReadList? && Apply(s, step).pc != s.pc
    ensures s.pc.ReadFlags? && step.Advance? && step.ok && AllOf(Apply(s, step).pc.flagged) == s.flagged
  {
  }

  lemma {:induction false} FlagsRead(ss: seq<State>, ls: seq<Step>, l: nat) returns (f: nat)
    requires Behaviour(ss, ls) && l < |ss| && ss[l].pc.ReadList?
    ensures f < l && ss[f].pc.ReadFlags? && ls[f].Advance? && ls[f].ok && AllOf(ss[l].pc.flagged) == ss[f].flagged
    ensures forall m :: f < m <= l ==> ss[m].pc == ss[l].pc
  {
    if ss[l - 1].pc == ss[l].pc {
      f := FlagsRead(ss, ls, l - 1);
    } else {
      IntoReadList(ss[l - 1], ls[l - 1]);
      f := l - 1;
    }
  }

  /** In every state of every run, what the pass compares is what it has read. */
  lemma {:induction false} ComparesWhatItRead(ss: seq<State>, ls: seq<Step>, k: nat) returns (f: nat, l: nat)
    requires Behaviour(ss, ls) && k < |ss| && Working(ss[k].pc)
    ensures f < l < k && CopiesRead(ss, ls, f, l, k)
  {
    IntoWorking(ss[k - 1], ls[k - 1]);
    if Working(ss[k - 1].pc) {
      f, l := ComparesWhatItRead(ss, ls, k - 1);
    } else {
      l := k - 1;
      f := FlagsRead(ss, ls, l);
    }
  }

  /** The lifecycle keeps the rule the pass relies on: a row gets its flag only once. */
  lemma LifecycleFlagsOnce(c: L.Config, ss: seq<L.State>, ls: seq<L.Step>, i: nat, j: nat, k: nat, id: RowId)
    requires T.Behaviour(c, ss, ls) && i <= j <= k < |ss|
    requires T.Flagged(ss[i].db, id) && !T.Flagged(ss[j].db, id)
    ensures !T.Flagged(ss[k].db, id)
  {
    T.Reached(c, ss, ls, i);
    T.NeverUndone(c, ss, ls, i, j);
    T.NeverUndone(c, ss, ls, j, k);
  }

  // ---- the lifecycle behind these steps ------------------------------------------------------

  /** What the reconciler sees of a lifecycle state, beside its own position and the list. */
  function Seen(s: L.State, list: seq<RowId>, pc: Pc): State {
    State(Store.InDlq(s.db), s.h.flagged, list, pc)
  }

  /** No flag appears, or exactly one does, on a row that never had it. */
  predicate FlagsStep(s: L.State, s': L.State, id: RowId) {
    || (s'.h.flagged == s.h.flagged && Store.InDlq(s'.db) <= Store.InDlq(s.db))
    || (id !in s.h.flagged && s'.h.flagged == s.h.flagged + {id} && Store.InDlq(s'.db) == Store.InDlq(s.db) + {id})
  }

  /** Writing one row that does not gain the flag, and inserting one without it. */
  lemma OneRowFlags(db: Db, db': Db, id: RowId, succ: RowId)
    requires forall x :: x in db'.rows && x != id && x != succ ==> x in db.rows && db'.rows[x] == db.rows[x]
    requires T.Flagged(db', id) ==> T.Flagged(db, id)
    requires T.Flagged(db', succ) ==> T.Flagged(db, succ)
    ensures Store.InDlq(db') <= Store.InDlq(db)
  {
  }

  lemma FinalFlags(c: L.Config, s: L.State, log: P.Log, reply: P.Reply)
    requires L.FlagsOk(s.db.rows, s.h)
    ensures FlagsStep(s, L.Finalized(c, s, log, reply), log.id)
  {
    var s' := L.Finalized(c, s, log, reply);
    if Store.IsPending(s.db, log.id) {
      assert s'.db.rows == s.db.rows[log.id := s'.db.rows[log.id]];
      assert Store.InDlq(s'.db) == Store.InDlq(s.db) + {log.id};
    }
  }

  lemma SettleFlags(c: L.Config, s: L.State, log: P.Log, reply: P.Reply, at: Time, succ: RowId)
    requires L.FlagsOk(s.db.rows, s.h) && succ !in s.db.rows
    ensures FlagsStep(s, L.Retry(s, log, reply, at, succ), log.id)
    ensures reply.http.Some? ==> FlagsStep(s, L.MarkedSuccess(s, log, reply.http.value), log.id)
  {
    OneRowFlags(s.db, L.Retry(s, log, reply, at, succ).db, log.id, succ);
    if reply.http.Some? { OneRowFlags(s.db, L.MarkedSuccess(s, log, reply.http.value).db, log.id, log.id); }
  }

  lemma CallFlags(c: L.Config, s: L.State, pc: P.Pc, a: P.Action)
    requires L.FlagsOk(s.db.rows, s.h) && P.Calls(pc, a) && (a.Write? ==> a.succ !in s.db.rows)
    ensures FlagsStep(s, L.Effect(c, s, pc, a), pc.log.id)
  {
    if pc.Settling? {
      V.OutcomeIs(c, s, pc, a);
      FinalFlags(c, s, pc.log, pc.reply);
      SettleFlags(c, s, pc.log, pc.reply, a.at, a.succ);
    } else {
      OneRowFlags(s.db, L.Effect(c, s, pc, a).db, pc.log.id, pc.log.id);
    }
  }

  /** Outside the runs no flag appears. */
  lemma PlainFlags(c: L.Config, s: L.State, step: L.Step)
    requires L.Enabled(c, s, step) && !step.Act? && s.db.rows.Keys <= s.h.book.born.Keys
    ensures FlagsStep(s, L.Apply(c, s, step), 0)
  {
    var db, db' := s.db, L.Apply(c, s, step).db;
    forall x | x in Store.InDlq(db') ensures x in Store.InDlq(db) {
      assert T.Flagged(db, x);
    }
  }

  lemma StepFlags(c: L.Config, s: L.State, step: L.Step) returns (id: RowId)
    requires L.FlagsOk(s.db.rows, s.h) && s.db.rows.Keys <= s.h.book.born.Keys && L.Enabled(c, s, step)
    ensures FlagsStep(s, L.Apply(c, s, step), id)
  {
    if step.Act? {
      id := s.workers[step.w].log.id;
      CallFlags(c, s, s.workers[step.w], step.a);
    } else {
      id := 0;
      PlainFlags(c, s, step);
    }
  }

  lemma Projection(s: L.State, s': L.State, id: RowId, list: seq<RowId>, pc: Pc) returns (r: Step)
    requires FlagsStep(s, s', id)
    ensures (r.Flag? || r.Clear?) && Enabled(Seen(s, list, pc), r) && Apply(Seen(s, list, pc), r) == Seen(s', list, pc)
  {
    if Store.InDlq(s'.db) <= Store.InDlq(s.db) && s'.h.flagged == s.h.flagged {
      var gone := Store.InDlq(s.db) - Store.InDlq(s'.db);
      r := Clear(gone);
      assert Store.InDlq(s.db) - gone == Store.InDlq(s'.db);
    } else {
      r := Flag(id);
    }
  }

  /** Every lifecycle step is, for the reconciler, one flag set for the first time or
      some flags cleared. */
  lemma LifecycleProjects(c: L.Config, s: L.State, step: L.Step, list: seq<RowId>, pc: Pc) returns (r: Step)
    requires L.Inv(c, s) && L.Enabled(c, s, step)
    ensures (r.Flag? || r.Clear?) && Enabled(Seen(s, list, pc), r)
    ensures Apply(Seen(s, list, pc), r) == Seen(L.Apply(c, s, step), list, pc)
  {
    var id := StepFlags(c, s, step);
    r := Projection(s, L.Apply(c, s, step), id, list, pc);
  }

  /** A worker that flagged a row may push it at any later time. */
  lemma PushIsAllowed(c: L.Config, ss: seq<L.State>, ls: seq<L.Step>, i: nat, k: nat, id: RowId, list: seq<RowId>, pc: Pc)
    requires T.Behaviour(c, ss, ls) && i <= k < |ss| && T.Flagged(ss[i].db, id)
    ensures Enabled(Seen(ss[k], list, pc), WorkerPush(id))
  {
    T.Reached(c, ss, ls, i);
    T.NeverUndone(c, ss, ls, i, k);
  }

  /** A handler that cleared a row may remove it at any later time. */
  lemma RemoveIsAllowed(c: L.Config, ss: seq<L.State>, ls: seq<L.Step>, i: nat, j: nat, k: nat, id: RowId,
                        list: seq<RowId>, pc: Pc)
    requires T.Behaviour(c, ss, ls) && i <= j <= k < |ss|
    requires T.Flagged(ss[i].db, id) && !T.Flagged(ss[j].db, id)
    ensures Enabled(Seen(ss[k], list, pc), HandlerRemove(id))
  {
    LifecycleFlagsOnce(c, ss, ls, i, j, k, id);
    PushIsAllowed(c, ss, ls, i, k, id, list, pc);
  }

  // ---- an undisturbed pass -----------------------------------------------------------------

  lemma AllOfNext(list: seq<RowId>, n: nat)
    requires n < |list|
    ensures AllOf(list[..n + 1]) == AllOf(list[..n]) + {list[n]}
  {
    assert list[..n + 1] == list[..n] + [list[n]];
  }

  lemma AllOfPushed(list: seq<RowId>, id: RowId)
    ensures AllOf([id] + list) == {id} + AllOf(list)
  {
  }

  class DlqReconciler {
    var s: State
    ghost var states: seq<State>  // the states passed so far, the current one last
    ghost var steps: seq<Step>

    ghost predicate Valid()
      reads this
    {
      Leads(states, steps) && states[|steps|] == s
    }

    constructor (s: State)
      ensures Valid() && this.s == s && steps == []
    {
      this.s, states, steps := s, [s], [];
    }

    method Do(step: Step)
      requires Valid() && Enabled(s, step)
      modifies this
      ensures Valid() && s == Apply(old(s), step)
    {
      s := Apply(s, step);
      states, steps := states + [s], steps + [step];
    }

    /** The pass from its first call to its last. Whatever the list held: afterwards it
        holds the flagged rows and nothing else. */
    method Reconcile(forced: seq<RowId>, order: seq<RowId>)
      requires Valid() && s.pc.Idle?
      requires AllOf(forced) <= s.flagged && AllOf(order) == s.flagged - AllOf(forced)
      modifies this
      ensures Valid() && s.pc.Idle?
      ensures s.flagged == old(s.flagged) - AllOf(forced) && AllOf(s.list) == s.flagged
    {
      Do(Begin(AllOf(forced), forced));
      RemoveForced(forced);
      Do(Advance(true, order));
      Do(Advance(true, []));
      var listed := s.list;
      PushMissing(order, listed);
      RemoveStale(order, listed);
    }

    /** The rows the safety valve cleared leave the list, and no other does. */
    method RemoveForced(forced: seq<RowId>)
      requires Valid() && s.pc == Forced(forced)
      modifies this
      ensures Valid() && s.pc == ReadFlags && s.flagged == old(s.flagged)
      ensures AllOf(s.list) == AllOf(old(s.list)) - AllOf(forced)
    {
      for n := 0 to |forced|
        invariant Valid() && s.pc == Forced(forced[n..]) && s.flagged == old(s.flagged)
        invariant AllOf(s.list) == AllOf(old(s.list)) - AllOf(forced[..n])
      {
        AllOfNext(forced, n);
        assert AllOf(Without(s.list, forced[n])) == AllOf(s.list) - {forced[n]};
        Do(Advance(true, []));
      }
      assert forced[..|forced|] == forced;
      Do(Advance(true, []));
    }

    method PushMissing(order: seq<RowId>, listed: seq<RowId>)
      requires Valid() && s.pc == Pushing(order, listed, 0) && AllOf(order) == s.flagged && s.list == listed
      modifies this
      ensures Valid() && s.pc == Sweeping(order, listed, 0) && s.flagged == old(s.flagged)
      ensures AllOf(s.list) == AllOf(listed) + s.flagged
    {
      for n := 0 to |order|
        invariant Valid() && s.pc == Pushing(order, listed, n) && s.flagged == old(s.flagged)
        invariant AllOf(s.list) == AllOf(listed) + AllOf(order[..n])
      {
        AllOfNext(order, n);
        AllOfPushed(s.list, order[n]);
        assert order[n] in AllOf(order);
        Do(Advance(true, []));
        if s.pc.PushDue? { Do(Advance(true, [])); }
      }
      assert order[..|order|] == order;
      Do(Advance(true, []));
    }

    method RemoveStale(order: seq<RowId>, listed: seq<RowId>)
      requires Valid() && s.pc == Sweeping(order, listed, 0) && AllOf(order) == s.flagged
      requires AllOf(s.list) == AllOf(listed) + s.flagged
      modifies this
      ensures Valid() && s.pc.Idle? && s.flagged == old(s.flagged) && AllOf(s.list) == s.flagged
    {
      for n := 0 to |listed|
        invariant Valid() && s.pc == Sweeping(order, listed, n) && s.flagged == old(s.flagged)
        invariant s.flagged <= AllOf(s.list) <= AllOf(listed) + s.flagged
        invariant AllOf(s.list) * AllOf(listed[..n]) <= s.flagged
      {
        AllOfNext(listed, n);
        assert listed[n] in order <==> listed[n] in AllOf(order);
        Do(Advance(true, []));
        if s.pc.RemoveDue? { Do(Advance(true, [])); }
      }
      assert listed[..|listed|] == listed;
      Do(Advance(true, []));
    }
  }
}
