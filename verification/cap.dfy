/** The concurrency cap per subscription: it holds as long as the registry does not
    forget a semaphore under a run, and prompt runs see to that. */
module Cap {
  import Arith
  import opened Domain
  import opened Program
  import opened Controls
  import R = Registry

  // A run that has made its write and only has to give its permit back holds the permit
  // and delivers no more. `all` says whether such runs count.

  /** The semaphore the run has asked for and not yet let go. */
  function Asked(pc: Pc, all: bool): Option<Obj> {
    if pc.AtSemaphore? then Some(pc.sem) else if pc.Releasing? && !all then None else Permit(pc)
  }

  /** The deliveries in progress for one subscription. */
  function Delivering(ws: Workers, sub: SubId, all: bool): set<nat> {
    set w | w in ws && Permit(ws[w]).Some? && (all || !ws[w].Releasing?) && ws[w].log.sub == sub
  }

  /** No run of the subscription has asked for its semaphore. */
  ghost predicate Unused(s: State, sub: SubId, all: bool) {
    forall w :: w in s.workers && s.workers[w].log.sub == sub ==> Asked(s.workers[w], all).None?
  }

  /** The step makes the registry forget the semaphore of the subscription. */
  predicate Drops(c: Config, s: State, step: Step, sub: SubId) {
    sub in s.semReg
    && (step == RemoveSemaphore(sub) || (step.SweepSemaphores? && R.Idle(s.semReg[sub], s.now, c.idleTtl)))
  }

  /** It does so only when no run uses it. */
  ghost predicate Spares(c: Config, s: State, step: Step, sub: SubId, all: bool) {
    Drops(c, s, step, sub) ==> Unused(s, sub, all)
  }

  // ---- the registry and the runs agree ------------------------------------------------------

  /** The registry hands out the semaphore the run works under, if that is not `but`. */
  predicate Link(s: State, pc: Pc, but: Option<Obj>, all: bool) {
    var o := Asked(pc, all);
    o.Some? && o != but ==> pc.log.sub in s.semReg && s.semReg[pc.log.sub].obj == o.value
  }

  ghost predicate Linked(s: State, sub: SubId, but: Option<Obj>, all: bool) {
    forall w :: w in s.workers && s.workers[w].log.sub == sub ==> Link(s, s.workers[w], but, all)
  }

  /** What a call does to the registry and to the run's request. */
  lemma LookupMoves(c: Config, s: State, w: nat, pc: Pc, a: Action)
    requires CallEnabled(c, s, pc, a)
    ensures var s' := Effect(c, s, w, pc, a);
            && s'.now == s.now
            && s'.workers == s.workers
            && (if pc.Cleared? then
                  s'.semReg == s.semReg[pc.log.sub := R.Slot(a.obj, s.now)] && s'.since == s.since[w := s.now]
                  && Next(pc, a) == Some(AtSemaphore(pc.log, pc.until, a.obj))
                else s'.semReg == s.semReg && s'.since == s.since)
    ensures Next(pc, a).Some? ==> Next(pc, a).value.log == pc.log
    ensures forall all :: !pc.Cleared? && Next(pc, a).Some? && Asked(Next(pc, a).value, all).Some? ==>
      Asked(Next(pc, a).value, all) == Asked(pc, all)
  {
  }

  lemma StaysLinked(c: Config, s: State, w: nat, a: Action, v: nat, but: Option<Obj>, all: bool)
    requires Enabled(c, s, Call(w, a)) && v in s.workers && Link(s, s.workers[v], but, all)
    ensures v != w ==> Link(Apply(c, s, Call(w, a)), s.workers[v], but, all)
    ensures var next := Next(s.workers[w], a); v == w && next.Some? ==> Link(Apply(c, s, Call(w, a)), next.value, but, all)
  {
    LookupMoves(c, s, w, s.workers[w], a);
  }

  lemma CallLinked(c: Config, s: State, w: nat, a: Action, sub: SubId, but: Option<Obj>, all: bool)
    requires Linked(s, sub, but, all) && Enabled(c, s, Call(w, a))
    ensures Linked(Apply(c, s, Call(w, a)), sub, but, all)
  {
    var s' := Apply(c, s, Call(w, a));
    LookupMoves(c, s, w, s.workers[w], a);
    forall v | v in s'.workers && s'.workers[v].log.sub == sub ensures Link(s', s'.workers[v], but, all) {
      assert v in s.workers && s.workers[v].log.sub == sub && Link(s, s.workers[v], but, all);
      StaysLinked(c, s, w, a, v, but, all);
    }
  }

  lemma StepLinked(c: Config, s: State, step: Step, sub: SubId, but: Option<Obj>, all: bool)
    requires Linked(s, sub, but, all) && Enabled(c, s, step) && Spares(c, s, step, sub, all)
    ensures Linked(Apply(c, s, step), sub, but, all)
  {
    if step.Call? {
      CallLinked(c, s, step.w, step.a, sub, but, all);
    } else {
      var s' := Apply(c, s, step);
      forall w | w in s'.workers && s'.workers[w].log.sub == sub ensures Link(s', s'.workers[w], but, all) {
        assert w in s.workers && s'.workers[w] == s.workers[w] ==> Link(s, s.workers[w], but, all);
      }
    }
  }

  /** A semaphore serves one subscription. */
  ghost predicate Owned(s: State) {
    && (forall a, b :: a in s.semReg && b in s.semReg && s.semReg[a].obj == s.semReg[b].obj ==> a == b)
    && (forall w, y :: w in s.workers && y in s.semReg && Asked(s.workers[w], true) == Some(s.semReg[y].obj) ==>
          s.workers[w].log.sub == y)
  }

  /** A lookup that finds a slot, or makes an object nobody knows, keeps owners apart. */
  lemma LookupOwned(s: State, ws: Workers, w: nat, pc: Pc, slots: map<SubId, R.Slot>)
    requires AllPlaced(s) && Owned(s) && pc.AtSemaphore? && ws == s.workers[w := pc]
    requires slots == s.semReg[pc.log.sub := R.Slot(pc.sem, s.now)]
    requires if pc.log.sub in s.semReg then pc.sem == s.semReg[pc.log.sub].obj else pc.sem !in s.sems
    ensures Owned(s.(workers := ws, semReg := slots))
  {
    forall v, y | v in ws && y in slots && Asked(ws[v], true) == Some(slots[y].obj) ensures ws[v].log.sub == y {
      assert v != w ==> Placed(s, s.workers[v]);
    }
  }

  lemma CallOwned(c: Config, s: State, w: nat, a: Action)
    requires AllPlaced(s) && Owned(s) && Enabled(c, s, Call(w, a))
    ensures Owned(Apply(c, s, Call(w, a)))
  {
    var pc, s' := s.workers[w], Apply(c, s, Call(w, a));
    LookupMoves(c, s, w, pc, a);
    if pc.Cleared? {
      LookupOwned(s, s'.workers, w, AtSemaphore(pc.log, pc.until, a.obj), s'.semReg);
    } else {
      forall v, y | v in s'.workers && y in s'.semReg && Asked(s'.workers[v], true) == Some(s'.semReg[y].obj)
        ensures s'.workers[v].log.sub == y {}
    }
  }

  lemma StepOwned(c: Config, s: State, step: Step)
    requires AllPlaced(s) && Owned(s) && Enabled(c, s, step)
    ensures Owned(Apply(c, s, step))
  {
    if step.Call? { CallOwned(c, s, step.w, step.a); }
  }

  lemma {:induction false} OwnedAlong(c: Config, ss: seq<State>, ls: seq<Step>, k: nat)
    requires Behaviour(c, ss, ls) && k < |ss|
    ensures Owned(ss[k])
  {
    if k > 0 {
      OwnedAlong(c, ss, ls, k - 1);
      ControlsNeverAbandoned(c, ss, ls, k - 1);
      StepOwned(c, ss[k - 1], ls[k - 1]);
    }
  }

  lemma {:induction false} LinkedAlong(c: Config, ss: seq<State>, ls: seq<Step>, k: nat, sub: SubId, but: Option<Obj>,
                                       all: bool)
    requires Leads(c, ss, ls) && Linked(ss[0], sub, but, all) && k < |ss|
    requires forall i :: 0 <= i < k ==> Spares(c, ss[i], ls[i], sub, all)
    ensures Linked(ss[k], sub, but, all)
  {
    if k > 0 {
      LinkedAlong(c, ss, ls, k - 1, sub, but, all);
      StepLinked(c, ss[k - 1], ls[k - 1], sub, but, all);
    }
  }

  // ---- the cap ------------------------------------------------------------------------------

  lemma LinkedCap(c: Config, s: State, sub: SubId, all: bool)
    requires PermitsOk(c, s) && AllPlaced(s) && Linked(s, sub, None, all)
    ensures |Delivering(s.workers, sub, all)| <= c.limit
  {
    if w :| w in Delivering(s.workers, sub, all) {
      assert forall v :: v in Delivering(s.workers, sub, all) ==> Link(s, s.workers[v], None, all);
      Arith.SubsetCard(Delivering(s.workers, sub, all), Holders(s.workers, s.semReg[sub].obj));
    }
  }

  /** At most the limit of deliveries per subscription, in every state of every run that
      does not forget its semaphore under a run; whether or not runs count that only have
      to give their permit back. */
  lemma CapHolds(c: Config, ss: seq<State>, ls: seq<Step>, k: nat, sub: SubId, all: bool)
    requires Behaviour(c, ss, ls) && k < |ss|
    requires forall i :: 0 <= i < k ==> Spares(c, ss[i], ls[i], sub, all)
    ensures Linked(ss[k], sub, None, all) && |Delivering(ss[k].workers, sub, all)| <= c.limit
  {
    LinkedAlong(c, ss, ls, k, sub, None, all);
    ControlsNeverAbandoned(c, ss, ls, k);
    LinkedCap(c, ss[k], sub, all);
  }

  // ---- prompt runs --------------------------------------------------------------------------

  /** Every run lets its semaphore go within the idle time of its registry lookup. */
  ghost predicate Prompt(c: Config, s: State) {
    forall w :: w in s.workers && Asked(s.workers[w], true).Some? ==> w in s.since && s.now <= s.since[w] + c.idleTtl
  }

  /** Runs are prompt, and a semaphore is removed outright only when nobody uses it. */
  ghost predicate Tame(c: Config, s: State, step: Step) {
    Prompt(c, s) && (step.RemoveSemaphore? ==> Unused(s, step.sub, true))
  }

  /** The registry hands out the run's semaphore and was last asked after the run asked. */
  predicate Tied(s: State, w: nat, pc: Pc) {
    Asked(pc, true).Some? ==> Link(s, pc, None, true) && w in s.since && s.since[w] <= s.semReg[pc.log.sub].lastUsed
  }

  ghost predicate Attached(s: State) {
    && (forall w :: w in s.workers ==> Tied(s, w, s.workers[w]))
    && (forall w :: w in s.since ==> s.since[w] <= s.now)
  }

  /** The lookup stamps the slot and the run alike; no other call touches either. */
  lemma StaysTied(c: Config, s: State, w: nat, a: Action, v: nat)
    requires Attached(s) && Enabled(c, s, Call(w, a)) && v in s.workers
    ensures v != w ==> Tied(Apply(c, s, Call(w, a)), v, s.workers[v])
    ensures var next := Next(s.workers[w], a); next.Some? ==> Tied(Apply(c, s, Call(w, a)), w, next.value)
  {
    LookupMoves(c, s, w, s.workers[w], a);
    assert Tied(s, v, s.workers[v]) && Tied(s, w, s.workers[w]);
  }

  lemma CallAttached(c: Config, s: State, w: nat, a: Action)
    requires Attached(s) && Enabled(c, s, Call(w, a))
    ensures Attached(Apply(c, s, Call(w, a)))
  {
    var s' := Apply(c, s, Call(w, a));
    LookupMoves(c, s, w, s.workers[w], a);
    forall v | v in s'.workers ensures Tied(s', v, s'.workers[v]) {
      StaysTied(c, s, w, a, v);
    }
  }

  lemma StepAttached(c: Config, s: State, step: Step)
    requires Attached(s) && Tame(c, s, step) && Enabled(c, s, step)
    ensures Attached(Apply(c, s, step))
  {
    if step.Call? {
      CallAttached(c, s, step.w, step.a);
    } else {
      var s' := Apply(c, s, step);
      forall w | w in s'.workers ensures Tied(s', w, s'.workers[w]) {
        if w in s.workers && s'.workers[w] == s.workers[w] { assert Tied(s, w, s.workers[w]); }
      }
    }
  }

  lemma {:induction false} StaysAttached(c: Config, ss: seq<State>, ls: seq<Step>, k: nat)
    requires Behaviour(c, ss, ls) && k < |ss|
    requires forall i :: 0 <= i < k ==> Tame(c, ss[i], ls[i])
    ensures Attached(ss[k])
  {
    if k > 0 {
      StaysAttached(c, ss, ls, k - 1);
      StepAttached(c, ss[k - 1], ls[k - 1]);
    }
  }

  /** A sweep does not reach the slot of a prompt run. */
  lemma TameSpares(c: Config, s: State, step: Step, sub: SubId)
    requires Attached(s) && Tame(c, s, step)
    ensures Spares(c, s, step, sub, true)
  {
    forall w | w in s.workers && s.workers[w].log.sub == sub && Asked(s.workers[w], true).Some?
      ensures !Drops(c, s, step, sub)
    {
      assert Tied(s, w, s.workers[w]);
    }
  }

  /** So sweeps never lift the cap on prompt runs. */
  lemma PromptCapHolds(c: Config, ss: seq<State>, ls: seq<Step>, k: nat, sub: SubId)
    requires Behaviour(c, ss, ls) && k < |ss|
    requires forall i :: 0 <= i < k ==> Tame(c, ss[i], ls[i])
    ensures |Delivering(ss[k].workers, sub, true)| <= c.limit
  {
    forall i | 0 <= i < k ensures Spares(c, ss[i], ls[i], sub, true) {
      StaysAttached(c, ss, ls, i);
      TameSpares(c, ss[i], ls[i], sub);
    }
    CapHolds(c, ss, ls, k, sub, true);
  }
}
