/** When the concurrency cap is lifted: exactly when the registry forgets a semaphore
    that a run works under or waits for, be it removed or swept. */
module Overload {
  import Arith
  import opened Domain
  import opened Program
  import opened Controls
  import opened Cap
  import R = Registry

  // ---- building a run step by step --------------------------------------------------------

  /** Runs begin and make their calls; no time passes and nothing is swept or removed. */
  predicate Busy(step: Step) {
    step.Begin? || step.Call?
  }

  /** No two runs begin for the same row. */
  predicate OwnRows(ls: seq<Step>) {
    forall i, j :: 0 <= i < j < |ls| && ls[i].Begin? && ls[j].Begin? ==> ls[i].log.id != ls[j].log.id
  }

  /** The rows for which runs have begun. */
  function Begun(ls: seq<Step>): set<RowId> {
    set i | 0 <= i < |ls| && ls[i].Begin? :: ls[i].log.id
  }

  predicate Fits(ls: seq<Step>, step: Step) {
    step.Begin? ==> step.log.id !in Begun(ls)
  }

  lemma RowsOn(ls: seq<Step>, step: Step)
    requires OwnRows(ls) && Fits(ls, step)
    ensures OwnRows(ls + [step])
  {
    var ls' := ls + [step];
    forall i, j | 0 <= i < j < |ls'| && ls'[i].Begin? && ls'[j].Begin? ensures ls'[i].log.id != ls'[j].log.id {
      assert ls'[i] == ls[i];
      assert ls[i].log.id in Begun(ls);
    }
  }

  /** Every run has a row of its own, and from step `base` on all steps are busy ones. */
  ghost predicate Path(c: Config, ss: seq<State>, ls: seq<Step>, base: nat) {
    Leads(c, ss, ls) && OwnRows(ls) && forall i :: base <= i < |ls| ==> Busy(ls[i])
  }

  lemma PathOn(c: Config, ss: seq<State>, ls: seq<Step>, base: nat, step: Step)
    requires Path(c, ss, ls, base) && Enabled(c, ss[|ls|], step) && (base <= |ls| ==> Busy(step)) && Fits(ls, step)
    ensures Path(c, ss + [Apply(c, ss[|ls|], step)], ls + [step], base)
  {
    RowsOn(ls, step);
  }

  lemma Goes(c: Config, ss: seq<State>, ls: seq<Step>, base: nat, step: Step, s': State)
    returns (ss': seq<State>, ls': seq<Step>)
    requires Path(c, ss, ls, base) && Busy(step) && Fits(ls, step)
    requires Enabled(c, ss[|ls|], step) && Apply(c, ss[|ls|], step) == s'
    ensures Path(c, ss', ls', base) && ss' == ss + [s'] && ls' == ls + [step]
  {
    PathOn(c, ss, ls, base, step);
    ss', ls' := ss + [s'], ls + [step];
  }

  // ---- one more delivery ------------------------------------------------------------------

  function At(s: State, w: nat, pc: Pc): State {
    s.(workers := s.workers[w := pc])
  }

  predicate IsCleared(s: State, w: nat) {
    w in s.workers && s.workers[w].Cleared?
  }

  /** After the run's registry lookup. */
  function LookedUp(s: State, w: nat, obj: Obj): State
    requires IsCleared(s, w)
  {
    var pc := s.workers[w];
    At(s.(semReg := s.semReg[pc.log.sub := R.Slot(obj, s.now)],
          sems := if pc.log.sub in s.semReg then s.sems else s.sems[obj := 0],
          since := s.since[w := s.now]), w, AtSemaphore(pc.log, pc.until, obj))
  }

  /** The run stands at a semaphore with a free permit. */
  predicate AtFree(c: Config, s: State, w: nat) {
    w in s.workers && s.workers[w].AtSemaphore? && s.workers[w].sem in s.sems && s.sems[s.workers[w].sem] < c.limit
  }

  /** After it took the permit. */
  function Acquired(c: Config, s: State, w: nat): State
    requires AtFree(c, s, w)
  {
    var pc := s.workers[w];
    At(s.(sems := s.sems[pc.sem := s.sems[pc.sem] + 1]), w, Permitted(pc.log, pc.until, pc.sem))
  }

  /** The semaphore the registry would hand out has `n` permits out. */
  predicate Room(s: State, sub: SubId, n: nat) {
    if sub in s.semReg then s.semReg[sub].obj in s.sems && s.sems[s.semReg[sub].obj] == n else n == 0
  }

  predicate Offered(s: State, sub: SubId, obj: Obj) {
    if sub in s.semReg then obj == s.semReg[sub].obj else obj !in s.sems
  }

  /** A call that the controls do not care about. */
  lemma PlainCall(c: Config, s: State, w: nat, pc: Pc, a: Action, next: Pc)
    requires (pc.Loaded? || pc.Leased?) && Calls(pc, a) && Next(pc, a) == Some(next)
    ensures Enabled(c, At(s, w, pc), Call(w, a)) && Apply(c, At(s, w, pc), Call(w, a)) == At(s, w, next)
  {
    assert s.workers[w := pc][w := next] == s.workers[w := next];
  }

  lemma LooksUp(c: Config, s: State, w: nat, obj: Obj)
    requires IsCleared(s, w) && Offered(s, s.workers[w].log.sub, obj)
    ensures Enabled(c, s, Call(w, GetSemaphore(obj))) && Apply(c, s, Call(w, GetSemaphore(obj))) == LookedUp(s, w, obj)
  {
    LookupMoves(c, s, w, s.workers[w], GetSemaphore(obj));
  }

  lemma Acquires(c: Config, s: State, w: nat)
    requires AtFree(c, s, w)
    ensures Enabled(c, s, Call(w, TryAcquire(true, 0))) && Apply(c, s, Call(w, TryAcquire(true, 0))) == Acquired(c, s, w)
  {
  }

  lemma RoomForOne(c: Config, s: State, w: nat, obj: Obj, n: nat)
    requires IsCleared(s, w) && Offered(s, s.workers[w].log.sub, obj) && Room(s, s.workers[w].log.sub, n) && n < c.limit
    ensures var s1, pc := LookedUp(s, w, obj), s.workers[w];
            AtFree(c, s1, w) && var s2 := Acquired(c, s1, w);
            Room(s2, pc.log.sub, n + 1) && s2.workers == s.workers[w := Permitted(pc.log, pc.until, obj)]
  {
    var s1, pc := LookedUp(s, w, obj), s.workers[w];
    assert s1.workers[w := Permitted(pc.log, pc.until, obj)] == s.workers[w := Permitted(pc.log, pc.until, obj)];
  }

  /** A run about to look up its semaphore gets a permit, as long as one is free. */
  lemma Enters(c: Config, ss: seq<State>, ls: seq<Step>, base: nat, w: nat, n: nat)
    returns (ss': seq<State>, ls': seq<Step>, obj: Obj)
    requires Path(c, ss, ls, base) && IsCleared(ss[|ls|], w)
    requires Room(ss[|ls|], ss[|ls|].workers[w].log.sub, n) && n < c.limit
    ensures Path(c, ss', ls', base) && ss <= ss' && ls' == ls + [Call(w, GetSemaphore(obj)), Call(w, TryAcquire(true, 0))]
    ensures var s, s' := ss[|ls|], ss'[|ls'|];
            && Room(s', s.workers[w].log.sub, n + 1)
            && s'.workers == s.workers[w := Permitted(s.workers[w].log, s.workers[w].until, obj)]
            && s.workers[w].log.sub in s'.semReg && s'.semReg[s.workers[w].log.sub].obj == obj && s'.brReg == s.brReg
  {
    var s := ss[|ls|];
    var sub := s.workers[w].log.sub;
    var o := Arith.FreshId(s.sems.Keys);
    obj := if sub in s.semReg then s.semReg[sub].obj else o;
    LooksUp(c, s, w, obj);
    RoomForOne(c, s, w, obj, n);
    var s1 := LookedUp(s, w, obj);
    Acquires(c, s1, w);
    ss', ls' := Goes(c, ss, ls, base, Call(w, GetSemaphore(obj)), s1);
    ss', ls' := Goes(c, ss', ls', base, Call(w, TryAcquire(true, 0)), Acquired(c, s1, w));
  }

  /** The run works on a row of its own. */
  function LogFor(w: nat, sub: SubId, attempt: int): Log {
    Log(w, w, sub, "", attempt)
  }

  /** A new run of an active subscription gets as far as the registry lookup. */
  lemma Arrives(c: Config, ss: seq<State>, ls: seq<Step>, base: nat, w: nat, sub: SubId, attempt: int)
    returns (ss': seq<State>, ls': seq<Step>)
    requires Path(c, ss, ls, base) && w !in ss[|ls|].workers && w !in Begun(ls)
    ensures Path(c, ss', ls', base) && ss <= ss' && ls <= ls' && (forall i :: |ls| <= i < |ls'| ==> Busy(ls'[i]))
    ensures ss'[|ls'|] == At(ss[|ls|], w, Cleared(LogFor(w, sub, attempt), 0))
  {
    var s, log := ss[|ls|], LogFor(w, sub, attempt);
    ss', ls' := Goes(c, ss, ls, base, Begin(w, log), At(s, w, Loaded(log)));
    PlainCall(c, s, w, Loaded(log), Claim(true, 0), Leased(log, 0));
    ss', ls' := Goes(c, ss', ls', base, Call(w, Claim(true, 0)), At(s, w, Leased(log, 0)));
    PlainCall(c, s, w, Leased(log, 0), ReadSub(Active), Cleared(log, 0));
    ss', ls' := Goes(c, ss', ls', base, Call(w, ReadSub(Active)), At(s, w, Cleared(log, 0)));
  }

  lemma DeliveringGrows(ws: Workers, w: nat, pc: Pc)
    requires (w in ws ==> Permit(ws[w]).None?) && Permit(pc).Some? && !pc.Releasing?
    ensures |Delivering(ws[w := pc], pc.log.sub, false)| == |Delivering(ws, pc.log.sub, false)| + 1
    ensures Delivering(ws[w := pc], pc.log.sub, false) == Delivering(ws, pc.log.sub, false) + {w}
  {
    assert Delivering(ws[w := pc], pc.log.sub, false) == Delivering(ws, pc.log.sub, false) + {w};
  }

  /** Another run of the subscription delivers, as long as a permit is free. */
  lemma OneMore(c: Config, ss: seq<State>, ls: seq<Step>, base: nat, sub: SubId, n: nat)
    returns (ss': seq<State>, ls': seq<Step>)
    requires Path(c, ss, ls, base)
    requires Room(ss[|ls|], sub, n) && n < c.limit
    ensures Path(c, ss', ls', base) && ss <= ss' && ls <= ls' && (forall i :: |ls| <= i < |ls'| ==> Busy(ls'[i]))
    ensures Room(ss'[|ls'|], sub, n + 1)
    ensures |Delivering(ss'[|ls'|].workers, sub, false)| == |Delivering(ss[|ls|].workers, sub, false)| + 1
  {
    var s := ss[|ls|];
    var w := Arith.FreshId(s.workers.Keys + Begun(ls));
    var ss1, ls1 := Arrives(c, ss, ls, base, w, sub, 1);
    var obj;
    ss', ls', obj := Enters(c, ss1, ls1, base, w, n);
    var pc := Permitted(LogFor(w, sub, 1), 0, obj);
    assert ss'[|ls'|].workers == s.workers[w := pc];
    DeliveringGrows(s.workers, w, pc);
  }

  /** Once the registry has forgotten a semaphore under a delivery, the next one admits
      a whole limit beside it. */
  lemma FillsUp(c: Config, ss: seq<State>, ls: seq<Step>, base: nat, sub: SubId) returns (ss': seq<State>, ls': seq<Step>)
    requires Path(c, ss, ls, base) && 1 <= c.limit
    requires sub !in ss[|ls|].semReg && Delivering(ss[|ls|].workers, sub, false) != {}
    ensures Path(c, ss', ls', base) && ss <= ss' && ls <= ls' && (forall i :: |ls| <= i < |ls'| ==> Busy(ls'[i]))
    ensures |Delivering(ss'[|ls'|].workers, sub, false)| > c.limit
  {
    ss', ls' := ss, ls;
    for n := 0 to c.limit
      invariant Path(c, ss', ls', base) && ss <= ss' && ls <= ls' && (forall i :: |ls| <= i < |ls'| ==> Busy(ls'[i]))
      invariant Room(ss'[|ls'|], sub, n)
      invariant |Delivering(ss'[|ls'|].workers, sub, false)| >= n + 1
    {
      ss', ls' := OneMore(c, ss', ls', base, sub, n);
    }
  }

  // ---- giving permits back -----------------------------------------------------------------

  /** After the run gave its permit back. */
  function GaveBack(s: State, w: nat): State
    requires w in s.workers && s.workers[w].Releasing? && s.workers[w].sem in s.sems && 0 < s.sems[s.workers[w].sem]
  {
    var o := s.workers[w].sem;
    s.(sems := s.sems[o := s.sems[o] - 1], workers := s.workers - {w})
  }

  lemma GivesBack(c: Config, s: State, w: nat)
    requires w in s.workers && s.workers[w].Releasing? && s.workers[w].sem in s.sems && 0 < s.sems[s.workers[w].sem]
    ensures Enabled(c, s, Call(w, Release)) && Apply(c, s, Call(w, Release)) == GaveBack(s, w)
  {
  }

  // ---- exactly when -----------------------------------------------------------------------

  /** Steps that forget no semaphore of the subscription under a run lead from here past
      the limit. */
  ghost predicate CanExceed(c: Config, s: State, sub: SubId) {
    exists ss: seq<State>, ls: seq<Step> ::
      Leads(c, ss, ls) && ss[0] == s && (forall i :: 0 <= i < |ls| ==> Spares(c, ss[i], ls[i], sub, false))
      && |Delivering(ss[|ls|].workers, sub, false)| > c.limit
  }

  /** Whoever has a permit of a registered semaphore runs for its subscription, and every
      delivery of the subscription has one. */
  lemma OwnHolders(c: Config, s: State, sub: SubId)
    requires PermitsOk(c, s) && AllPlaced(s) && Owned(s) && Linked(s, sub, None, false) && sub in s.semReg
    ensures var o := s.semReg[sub].obj;
            && o in s.sems && s.sems[o] == |Holders(s.workers, o)| <= c.limit
            && Delivering(s.workers, sub, false) <= Holders(s.workers, o) <= Delivering(s.workers, sub, true)
  {
    var o := s.semReg[sub].obj;
    forall w | w in Delivering(s.workers, sub, false) ensures w in Holders(s.workers, o) {
      assert Link(s, s.workers[w], None, false);
    }
  }

  /** When nobody delivers, a permit of the semaphore is free, or some run only has to
      give one back. */
  lemma SomeoneGivesBack(c: Config, s: State, sub: SubId) returns (v: nat)
    requires PermitsOk(c, s) && AllPlaced(s) && Owned(s) && Linked(s, sub, None, false) && 1 <= c.limit
    requires sub in s.semReg && Delivering(s.workers, sub, false) == {}
    requires s.semReg[sub].obj in s.sems && s.sems[s.semReg[sub].obj] == c.limit
    ensures v in s.workers && s.workers[v] == Releasing(s.workers[v].log, s.semReg[sub].obj)
  {
    OwnHolders(c, s, sub);
    v :| v in Holders(s.workers, s.semReg[sub].obj);
    assert v in Delivering(s.workers, sub, true) && v !in Delivering(s.workers, sub, false);
  }

  /** A run that waits for the semaphore then finds a permit. */
  lemma FindsRoom(c: Config, s: State, s1: State, sub: SubId, w: nat) returns (ss: seq<State>, ls: seq<Step>)
    requires PermitsOk(c, s) && AllPlaced(s) && Owned(s) && Linked(s, sub, None, false) && 1 <= c.limit
    requires w in s.workers && s.workers[w].log.sub == sub && s.workers[w].AtSemaphore?
    requires Delivering(s.workers, sub, false) == {} && s1 == s.(semReg := s1.semReg)
    ensures Path(c, ss, ls, 0) && ss[0] == s1
    ensures var s2 := ss[|ls|];
            s2.semReg == s1.semReg && AtFree(c, s2, w) && s2.workers[w] == s.workers[w]
  {
    var o := s.workers[w].sem;
    assert Link(s, s.workers[w], None, false);
    OwnHolders(c, s, sub);
    ss, ls := [s1], [];
    if s.sems[o] == c.limit {
      var v := SomeoneGivesBack(c, s, sub);
      GivesBack(c, s1, v);
      ss, ls := Goes(c, ss, ls, 0, Call(v, Release), GaveBack(s1, v));
    }
  }

  lemma WaiterGetsIn(c: Config, s: State, s1: State, sub: SubId, w: nat) returns (ss: seq<State>, ls: seq<Step>)
    requires PermitsOk(c, s) && AllPlaced(s) && Owned(s) && Linked(s, sub, None, false) && 1 <= c.limit
    requires w in s.workers && s.workers[w].log.sub == sub && s.workers[w].AtSemaphore?
    requires Delivering(s.workers, sub, false) == {} && s1 == s.(semReg := s1.semReg) && sub !in s1.semReg
    ensures Path(c, ss, ls, 0) && ss[0] == s1
    ensures sub !in ss[|ls|].semReg && Delivering(ss[|ls|].workers, sub, false) != {}
  {
    ss, ls := FindsRoom(c, s, s1, sub, w);
    var s2, pc := ss[|ls|], s.workers[w];
    Acquires(c, s2, w);
    DeliveringGrows(s2.workers, w, Permitted(pc.log, pc.until, pc.sem));
    ss, ls := Goes(c, ss, ls, 0, Call(w, TryAcquire(true, 0)), Acquired(c, s2, w));
  }

  /** A run that has asked for the semaphore delivers, or can, when it is forgotten. */
  lemma AskedDelivers(c: Config, s: State, s1: State, sub: SubId, w: nat) returns (ss: seq<State>, ls: seq<Step>)
    requires PermitsOk(c, s) && AllPlaced(s) && Owned(s) && Linked(s, sub, None, false) && 1 <= c.limit
    requires w in s.workers && s.workers[w].log.sub == sub && Asked(s.workers[w], false).Some?
    requires s1 == s.(semReg := s1.semReg) && sub !in s1.semReg
    ensures Path(c, ss, ls, 0) && ss[0] == s1
    ensures sub !in ss[|ls|].semReg && Delivering(ss[|ls|].workers, sub, false) != {}
  {
    if Delivering(s.workers, sub, false) == {} {
      assert s.workers[w].AtSemaphore? by { assert w !in Delivering(s.workers, sub, false); }
      ss, ls := WaiterGetsIn(c, s, s1, sub, w);
    } else {
      ss, ls := [s1], [];
    }
  }

  lemma SparedIsSafe(c: Config, s: State, step: Step, sub: SubId)
    requires 1 <= c.threshold && Inv(c, s) && Linked(s, sub, None, false)
    requires Enabled(c, s, step) && Spares(c, s, step, sub, false)
    ensures !CanExceed(c, Apply(c, s, step), sub)
  {
    StepKeeps(c, s, step);
    StepLinked(c, s, step, sub, None, false);
    if CanExceed(c, Apply(c, s, step), sub) {
      var ss: seq<State>, ls: seq<Step> :|
        Leads(c, ss, ls) && ss[0] == Apply(c, s, step)
        && (forall i :: 0 <= i < |ls| ==> Spares(c, ss[i], ls[i], sub, false))
        && |Delivering(ss[|ls|].workers, sub, false)| > c.limit;
      LinkedAlong(c, ss, ls, |ls|, sub, None, false);
      InvAlong(c, ss, ls, |ls|);
      LinkedCap(c, ss[|ls|], sub, false);
    }
  }

  lemma TakenLifts(c: Config, s: State, step: Step, sub: SubId)
    requires PermitsOk(c, s) && AllPlaced(s) && Owned(s) && Linked(s, sub, None, false) && 1 <= c.limit
    requires Drops(c, s, step, sub) && !Unused(s, sub, false) && Enabled(c, s, step)
    ensures CanExceed(c, Apply(c, s, step), sub)
  {
    var s1 := Apply(c, s, step);
    var w :| w in s.workers && s.workers[w].log.sub == sub && Asked(s.workers[w], false).Some?;
    var ss1, ls1 := AskedDelivers(c, s, s1, sub, w);
    var ss2, ls2 := FillsUp(c, ss1, ls1, 0, sub);
    BusyExceeds(c, ss2, ls2, sub);
  }

  lemma BusyExceeds(c: Config, ss: seq<State>, ls: seq<Step>, sub: SubId)
    requires Path(c, ss, ls, 0) && |Delivering(ss[|ls|].workers, sub, false)| > c.limit
    ensures CanExceed(c, ss[0], sub)
  {
    forall i | 0 <= i < |ls| ensures Spares(c, ss[i], ls[i], sub, false) {
      assert Busy(ls[i]);
    }
  }

  /** After a run that never lost its semaphore, a step opens the way past the limit
      exactly when it takes the semaphore from a run that works under it or waits for it. */
  lemma LiftedExactly(c: Config, ss: seq<State>, ls: seq<Step>, k: nat, step: Step, sub: SubId)
    requires Behaviour(c, ss, ls) && k < |ss| && 1 <= c.limit && Enabled(c, ss[k], step)
    requires forall i :: 0 <= i < k ==> Spares(c, ss[i], ls[i], sub, false)
    ensures CanExceed(c, Apply(c, ss[k], step), sub) <==> Drops(c, ss[k], step, sub) && !Unused(ss[k], sub, false)
  {
    CapHolds(c, ss, ls, k, sub, false);
    ControlsNeverAbandoned(c, ss, ls, k);
    OwnedAlong(c, ss, ls, k);
    if Spares(c, ss[k], step, sub, false) {
      SparedIsSafe(c, ss[k], step, sub);
    } else {
      TakenLifts(c, ss[k], step, sub);
    }
  }

  /** A sweep: exactly when some run works or waits and no lookup came within the idle
      time. */
  lemma SweepLiftsCapExactly(c: Config, ss: seq<State>, ls: seq<Step>, k: nat, sub: SubId)
    requires Behaviour(c, ss, ls) && k < |ss| && 1 <= c.limit
    requires forall i :: 0 <= i < k ==> Spares(c, ss[i], ls[i], sub, false)
    ensures CanExceed(c, Apply(c, ss[k], SweepSemaphores), sub) <==>
            !Unused(ss[k], sub, false) && sub in ss[k].semReg && R.Idle(ss[k].semReg[sub], ss[k].now, c.idleTtl)
  {
    LiftedExactly(c, ss, ls, k, SweepSemaphores, sub);
  }

  // ---- a final failure that leaves the subscription inactive --------------------------------

  /** The step is the write of the run after a reply that was not 2xx to the last attempt
      of the budget. */
  predicate FailsAt(s: State, step: Step, w: nat, sub: SubId, budget: int) {
    && w in s.workers && s.workers[w].Settling? && s.workers[w].log.sub == sub && budget <= s.workers[w].log.attempt
    && !Is2xx(s.workers[w].reply) && step.Call? && step.w == w && step.a.Write? && step.a.done
  }

  /** The run has written its final failure and not yet returned: here the runtime of the
      subscription is reset if the failure left it inactive. */
  ghost predicate Finalising(ss: seq<State>, ls: seq<Step>, k: nat, w: nat, sub: SubId, budget: int)
    requires k < |ss| == |ls| + 1
  {
    exists m :: 0 <= m < k && FailsAt(ss[m], ls[m], w, sub, budget)
                && forall j :: m < j <= k ==> w in ss[j].workers && ss[j].workers[w].Releasing?
  }

  /** Another run of the subscription works under its semaphore or waits for it. */
  ghost predicate OtherAsks(s: State, sub: SubId, w: nat) {
    exists v :: v in s.workers && v != w && s.workers[v].log.sub == sub && Asked(s.workers[v], false).Some?
  }

  /** The reset at the end of a final failure, while the subscription can be read active
      again: exactly when another run works or waits. */
  lemma FinalFailureLiftsCapExactly(c: Config, ss: seq<State>, ls: seq<Step>, k: nat, w: nat, sub: SubId, budget: int)
    requires Behaviour(c, ss, ls) && k < |ss| && 1 <= c.limit && Finalising(ss, ls, k, w, sub, budget)
    requires forall i :: 0 <= i < k ==> Spares(c, ss[i], ls[i], sub, false)
    ensures CanExceed(c, Apply(c, ss[k], RemoveSemaphore(sub)), sub) <==> OtherAsks(ss[k], sub, w)
  {
    var s := ss[k];
    CapHolds(c, ss, ls, k, sub, false);
    LiftedExactly(c, ss, ls, k, RemoveSemaphore(sub), sub);
    forall v | v in s.workers && s.workers[v].log.sub == sub && Asked(s.workers[v], false).Some?
      ensures sub in s.semReg && v != w
    {
      assert Link(s, s.workers[v], None, false);
    }
  }

  // ---- runs that show it --------------------------------------------------------------------

  predicate Inside(pc: Pc) {
    pc.Permitted? || pc.AtBreaker? || pc.Sending? || pc.Answered? || pc.Settling?
  }

  /** The calls between permit and write leave semaphores and other runs alone. */
  lemma InsideCall(c: Config, s: State, w: nat, a: Action)
    requires Enabled(c, s, Call(w, a)) && Inside(s.workers[w])
    ensures var s' := Apply(c, s, Call(w, a));
            && s'.sems == s.sems && s'.semReg == s.semReg && s'.now == s.now
            && Next(s.workers[w], a).Some? && s'.workers == s.workers[w := Next(s.workers[w], a).value]
  {
  }

  lemma GoesInside(c: Config, ss: seq<State>, ls: seq<Step>, base: nat, w: nat, a: Action)
    returns (ss': seq<State>, ls': seq<Step>)
    requires Path(c, ss, ls, base) && Enabled(c, ss[|ls|], Call(w, a)) && Inside(ss[|ls|].workers[w])
    ensures Path(c, ss', ls', base) && ss' == ss + [Apply(c, ss[|ls|], Call(w, a))] && ls' == ls + [Call(w, a)]
    ensures var s, s' := ss[|ls|], ss'[|ls'|];
            && s'.sems == s.sems && s'.semReg == s.semReg
            && Next(s.workers[w], a).Some? && s'.workers == s.workers[w := Next(s.workers[w], a).value]
  {
    InsideCall(c, ss[|ls|], w, a);
    ss', ls' := Goes(c, ss, ls, base, Call(w, a), Apply(c, ss[|ls|], Call(w, a)));
  }

  /** A run at a target not met before is admitted. */
  lemma IsAdmitted(c: Config, ss: seq<State>, ls: seq<Step>, base: nat, w: nat)
    returns (ss': seq<State>, ls': seq<Step>)
    requires Path(c, ss, ls, base) && w in ss[|ls|].workers && ss[|ls|].workers[w].Permitted?
    requires ss[|ls|].workers[w].log.url !in ss[|ls|].brReg
    ensures Path(c, ss', ls', base) && ss <= ss' && ls <= ls' && (forall i :: |ls| <= i < |ls'| ==> Busy(ls'[i]))
    ensures var s, s' := ss[|ls|], ss'[|ls'|];
            && s'.sems == s.sems && s'.semReg == s.semReg && w in s'.workers
            && s'.workers == s.workers[w := s'.workers[w]]
            && s'.workers[w].Sending? && s'.workers[w].log == s.workers[w].log && s'.workers[w].sem == s.workers[w].sem
            && s'.workers[w].until == s.workers[w].until
  {
    var br := Arith.FreshId(ss[|ls|].breakers.Keys);
    ss', ls' := GoesInside(c, ss, ls, base, w, GetBreaker(br));
    var b := ss'[|ls'|].breakers[br];
    ss', ls' := GoesInside(c, ss', ls', base, w, Allow(true, b.generation, 0));
  }

  /** It sends, gets no reply, reports, and comes to its write. */
  lemma ComesToWrite(c: Config, ss: seq<State>, ls: seq<Step>, base: nat, w: nat)
    returns (ss': seq<State>, ls': seq<Step>)
    requires Path(c, ss, ls, base) && w in ss[|ls|].workers && ss[|ls|].workers[w].Sending?
    ensures Path(c, ss', ls', base) && ss <= ss' && ls <= ls' && (forall i :: |ls| <= i < |ls'| ==> Busy(ls'[i]))
    ensures var s, s', pc := ss[|ls|], ss'[|ls'|], ss[|ls|].workers[w];
            && s'.sems == s.sems && s'.semReg == s.semReg
            && s'.workers == s.workers[w := Settling(pc.log, pc.until, pc.sem, Reply(None, ""))]
  {
    ss', ls' := GoesInside(c, ss, ls, base, w, Send(Reply(None, "")));
    ss', ls' := GoesInside(c, ss', ls', base, w, Report);
  }

  /** One run about to write its final failure, another waiting for the same semaphore. */
  predicate Meeting(s: State, sub: SubId, o: Obj, w: nat, v: nat, budget: int) {
    && w != v && w in s.workers && v in s.workers && sub in s.semReg && s.semReg[sub].obj == o
    && s.workers[w] == Settling(LogFor(w, sub, budget), 0, o, Reply(None, ""))
    && s.workers[v] == AtSemaphore(LogFor(v, sub, 1), 0, o)
    && o in s.sems && s.sems[o] == 1
  }

  /** From a fresh start, a run alone comes to the write of its final failure. */
  lemma FirstComes(c: Config, now: Time, sub: SubId, budget: int)
    returns (ss: seq<State>, ls: seq<Step>, o: Obj)
    requires 1 <= c.limit
    ensures Path(c, ss, ls, 0) && ss[0] == Init(now)
    ensures var s := ss[|ls|];
            && sub in s.semReg && s.semReg[sub].obj == o && o in s.sems && s.sems[o] == 1
            && 0 in s.workers && s.workers[0] == Settling(LogFor(0, sub, budget), 0, o, Reply(None, ""))
  {
    ss, ls := Arrives(c, [Init(now)], [], 0, 0, sub, budget);
    ss, ls, o := Enters(c, ss, ls, 0, 0, 0);
    ss, ls := IsAdmitted(c, ss, ls, 0, 0);
    ss, ls := ComesToWrite(c, ss, ls, 0, 0);
  }

  lemma Meets(c: Config, now: Time, sub: SubId, budget: int)
    returns (ss: seq<State>, ls: seq<Step>, o: Obj, v: nat)
    requires 1 <= c.limit
    ensures Path(c, ss, ls, 0) && ss[0] == Init(now) && Meeting(ss[|ls|], sub, o, 0, v, budget)
  {
    ss, ls, o := FirstComes(c, now, sub, budget);
    v := Arith.FreshId(ss[|ls|].workers.Keys + Begun(ls));
    ss, ls := Arrives(c, ss, ls, 0, v, sub, 1);
    LooksUp(c, ss[|ls|], v, o);
    ss, ls := Goes(c, ss, ls, 0, Call(v, GetSemaphore(o)), LookedUp(ss[|ls|], v, o));
  }

  /** The write of the final failure, and the reset after it. */
  lemma FailsAndResets(c: Config, ss: seq<State>, ls: seq<Step>, sub: SubId, o: Obj, w: nat, v: nat, budget: int)
    returns (ss': seq<State>, ls': seq<Step>)
    requires Path(c, ss, ls, 0) && Meeting(ss[|ls|], sub, o, w, v, budget)
    ensures |ls'| == |ls| + 2 && Path(c, ss', ls', |ls'|) && ss <= ss' && ls <= ls'
    ensures Busy(ls'[|ls|]) && ls'[|ls| + 1] == RemoveSemaphore(sub) && Finalising(ss', ls', |ls| + 1, w, sub, budget)
    ensures var s := ss'[|ls'|];
            && sub !in s.semReg && o in s.sems && s.sems[o] == 1 && w in s.workers && s.workers[w].Releasing?
            && s.workers[w].sem == o && v in s.workers && s.workers[v] == AtSemaphore(LogFor(v, sub, 1), 0, o)
  {
    var m := |ls|;
    ss', ls' := GoesInside(c, ss, ls, 0, w, Write(true, 0, 0));
    assert FailsAt(ss'[m], ls'[m], w, sub, budget) && ss'[m + 1].workers[w].Releasing?;
    assert Path(c, ss', ls', |ls'| + 1);
    PathOn(c, ss', ls', |ls'| + 1, RemoveSemaphore(sub));
    ss', ls' := ss' + [Apply(c, ss'[m + 1], RemoveSemaphore(sub))], ls' + [RemoveSemaphore(sub)];
    assert FailsAt(ss'[m], ls'[m], w, sub, budget);
  }

  /** The failing run gives its permit back and the waiting one takes it, after the
      registry has forgotten both. */
  lemma TakesOver(c: Config, ss: seq<State>, ls: seq<Step>, base: nat, sub: SubId, o: Obj, w: nat, v: nat)
    returns (ss': seq<State>, ls': seq<Step>)
    requires Path(c, ss, ls, base) && 1 <= c.limit && sub !in ss[|ls|].semReg && w != v
    requires w in ss[|ls|].workers && ss[|ls|].workers[w].Releasing? && ss[|ls|].workers[w].sem == o
    requires v in ss[|ls|].workers && ss[|ls|].workers[v] == AtSemaphore(LogFor(v, sub, 1), 0, o)
    requires o in ss[|ls|].sems && ss[|ls|].sems[o] == 1
    ensures Path(c, ss', ls', base) && ss <= ss' && ls <= ls' && (forall i :: |ls| <= i < |ls'| ==> Busy(ls'[i]))
    ensures sub !in ss'[|ls'|].semReg && Delivering(ss'[|ls'|].workers, sub, false) != {}
  {
    var s := ss[|ls|];
    GivesBack(c, s, w);
    var s1 := GaveBack(s, w);
    Acquires(c, s1, v);
    DeliveringGrows(s1.workers, v, Permitted(LogFor(v, sub, 1), 0, o));
    ss', ls' := Goes(c, ss, ls, base, Call(w, Release), s1);
    ss', ls' := Goes(c, ss', ls', base, Call(v, TryAcquire(true, 0)), Acquired(c, s1, v));
  }

  /** From a fresh start: a run writes its final failure and resets the runtime at step
      `r`; another has been waiting; the subscription is read active again; and then more
      deliveries are in progress than the limit. Nothing else is removed or swept, and
      every run has a row of its own. */
  lemma CapCanBeLifted(c: Config, now: Time, sub: SubId, budget: int)
    returns (ss: seq<State>, ls: seq<Step>, r: nat, w: nat)
    requires 1 <= c.threshold && 1 <= c.limit
    ensures Behaviour(c, ss, ls) && OwnRows(ls) && |Delivering(ss[|ls|].workers, sub, false)| > c.limit
    ensures r < |ls| && ls[r] == RemoveSemaphore(sub) && Finalising(ss, ls, r, w, sub, budget)
    ensures forall i :: 0 <= i < |ls| && i != r ==> Busy(ls[i])
  {
    w := 0;
    var ss0, ls0, o, v := Meets(c, now, sub, budget);
    var ss1, ls1 := FailsAndResets(c, ss0, ls0, sub, o, w, v, budget);
    r := |ls0| + 1;
    var ss2, ls2 := TakesOver(c, ss1, ls1, r + 1, sub, o, w, v);
    ss, ls := FillsUp(c, ss2, ls2, r + 1, sub);
    StillFinalising(ss1, ls1, ss, ls, r, w, sub, budget);
    forall i | 0 <= i < |ls| && i != r ensures Busy(ls[i]) {
      assert i < |ls0| ==> ls[i] == ls0[i];
      assert i == |ls0| ==> ls[i] == ls1[i];
    }
  }

  lemma StillFinalising(ss: seq<State>, ls: seq<Step>, ss': seq<State>, ls': seq<Step>, k: nat, w: nat, sub: SubId, budget: int)
    requires |ss| == |ls| + 1 && |ss'| == |ls'| + 1 && ss <= ss' && ls <= ls' && k < |ss|
    requires Finalising(ss, ls, k, w, sub, budget)
    ensures Finalising(ss', ls', k, w, sub, budget)
  {
    var m :| 0 <= m < k && FailsAt(ss[m], ls[m], w, sub, budget)
             && forall j :: m < j <= k ==> w in ss[j].workers && ss[j].workers[w].Releasing?;
    assert FailsAt(ss'[m], ls'[m], w, sub, budget);
  }

  /** A delivery slower than the idle time loses its semaphore to a sweep, and then more
      deliveries than the limit are in progress, each on a row of its own. */
  lemma SlowRunLiftsCap(c: Config, now: Time, sub: SubId) returns (ss: seq<State>, ls: seq<Step>)
    requires 1 <= c.threshold && 1 <= c.limit
    ensures Behaviour(c, ss, ls) && OwnRows(ls) && forall i :: 0 <= i < |ls| ==> !ls[i].RemoveSemaphore?
    ensures |Delivering(ss[|ls|].workers, sub, false)| > c.limit
  {
    ss, ls := OneMore(c, [Init(now)], [], 0, sub, 0);
    var s, base := ss[|ls|], |ls| + 2;
    var late := s.semReg[sub].lastUsed + c.idleTtl + 1;
    var t := if late < s.now then s.now else late;
    ghost var before := ls;
    assert Path(c, ss, ls, base);
    PathOn(c, ss, ls, base, Tick(t));
    ss, ls := ss + [s.(now := t)], ls + [Tick(t)];
    PathOn(c, ss, ls, base, SweepSemaphores);
    ss, ls := ss + [Apply(c, s.(now := t), SweepSemaphores)], ls + [SweepSemaphores];
    ghost var swept := ls;
    ss, ls := FillsUp(c, ss, ls, base, sub);
    forall i | 0 <= i < |ls| ensures !ls[i].RemoveSemaphore? {
      assert i < base ==> ls[i] == swept[i];
      assert i < |before| ==> swept[i] == before[i];
    }
  }
}
