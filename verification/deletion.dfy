/** The concurrency cap when a subscription is deleted: its semaphore goes, and no run
    reads it active any more. The deliveries that can still meet are those of the runs
    that had asked for the semaphore and of the runs about to ask. */
module Deletion {
  import Arith
  import opened Domain
  import opened Program
  import opened Controls
  import opened Cap
  import opened Overload
  import R = Registry

  /** The step is no active read of the subscription. */
  predicate Unread(s: State, step: Step, sub: SubId) {
    step.Call? && step.w in s.workers && s.workers[step.w].log.sub == sub ==> step.a != ReadSub(Active)
  }

  /** The runs that work under their semaphore or wait for it. */
  function Askers(s: State, sub: SubId): set<nat> {
    set w | w in s.workers && s.workers[w].log.sub == sub && Asked(s.workers[w], false).Some?
  }

  /** The runs that have read the subscription active and are about to ask. */
  function Waiters(s: State, sub: SubId): set<nat> {
    set w | w in s.workers && s.workers[w].log.sub == sub && s.workers[w].Cleared?
  }

  /** Without further active reads, steps that forget no semaphore under a run lead from
      here past the limit. */
  ghost predicate CanExceedGone(c: Config, s: State, sub: SubId) {
    exists ss: seq<State>, ls: seq<Step> ::
      Leads(c, ss, ls) && ss[0] == s
      && (forall i :: 0 <= i < |ls| ==> Spares(c, ss[i], ls[i], sub, false) && Unread(ss[i], ls[i], sub))
      && |Delivering(ss[|ls|].workers, sub, false)| > c.limit
  }

  // ---- no more than the two groups ----------------------------------------------------------

  /** No run of the subscription is past its read. */
  ghost predicate Quiet(s: State, sub: SubId) {
    forall w :: w in s.workers && s.workers[w].log.sub == sub ==> !s.workers[w].Cleared? && Asked(s.workers[w], false).None?
  }

  /** The runs at the forgotten semaphore `o` are among the askers, those elsewhere or
      about to ask are among the waiters, and the registry no longer knows `o`. */
  ghost predicate Split(s: State, sub: SubId, o: Obj, askers: set<nat>, waiters: set<nat>) {
    && o in s.sems && (sub in s.semReg ==> s.semReg[sub].obj != o)
    && forall w :: w in s.workers && s.workers[w].log.sub == sub ==> Sided(s.workers[w], w, o, askers, waiters)
  }

  predicate Sided(pc: Pc, w: nat, o: Obj, askers: set<nat>, waiters: set<nat>) {
    && (Asked(pc, false) == Some(o) ==> w in askers)
    && (pc.Cleared? || (Asked(pc, false).Some? && Asked(pc, false) != Some(o)) ==> w in waiters)
  }

  lemma ClearedComesFromRead(pc: Pc, a: Action)
    requires Calls(pc, a) && Next(pc, a).Some? && Next(pc, a).value.Cleared?
    ensures a == ReadSub(Active)
  {
  }

  lemma CallSplit(c: Config, s: State, w: nat, a: Action, sub: SubId, o: Obj, askers: set<nat>, waiters: set<nat>)
    requires Split(s, sub, o, askers, waiters) && Enabled(c, s, Call(w, a)) && Unread(s, Call(w, a), sub)
    ensures Split(Apply(c, s, Call(w, a)), sub, o, askers, waiters)
  {
    var pc, s' := s.workers[w], Apply(c, s, Call(w, a));
    LookupMoves(c, s, w, pc, a);
    EffectKept(c, s, w, pc, a);
    forall v | v in s'.workers && s'.workers[v].log.sub == sub ensures Sided(s'.workers[v], v, o, askers, waiters) {
      assert Sided(s.workers[v], v, o, askers, waiters);
      if v == w && s'.workers[w].Cleared? { ClearedComesFromRead(pc, a); }
    }
  }

  lemma QuietStays(c: Config, s: State, step: Step, sub: SubId)
    requires Quiet(s, sub) && Enabled(c, s, step) && Unread(s, step, sub)
    ensures Quiet(Apply(c, s, step), sub)
  {
    if step.Call? {
      var pc := s.workers[step.w];
      LookupMoves(c, s, step.w, pc, step.a);
      if Next(pc, step.a).Some? && Next(pc, step.a).value.Cleared? { ClearedComesFromRead(pc, step.a); }
    }
  }

  lemma StepSplit(c: Config, s: State, step: Step, sub: SubId, o: Obj, askers: set<nat>, waiters: set<nat>)
    requires Split(s, sub, o, askers, waiters) || Quiet(s, sub)
    requires Enabled(c, s, step) && Unread(s, step, sub)
    ensures Split(Apply(c, s, step), sub, o, askers, waiters) || Quiet(Apply(c, s, step), sub)
  {
    if Quiet(s, sub) {
      QuietStays(c, s, step, sub);
    } else if step.Call? {
      CallSplit(c, s, step.w, step.a, sub, o, askers, waiters);
    } else if !step.Crash? {
      var s' := Apply(c, s, step);
      forall v | v in s'.workers && s'.workers[v].log.sub == sub ensures Sided(s'.workers[v], v, o, askers, waiters) {
        assert v in s.workers && s'.workers[v] == s.workers[v] ==> Sided(s.workers[v], v, o, askers, waiters);
      }
    }
  }

  lemma {:induction false} SplitAlong(c: Config, ss: seq<State>, ls: seq<Step>, k: nat, sub: SubId, o: Obj,
                                      askers: set<nat>, waiters: set<nat>)
    requires Leads(c, ss, ls) && Split(ss[0], sub, o, askers, waiters) && k < |ss|
    requires forall i :: 0 <= i < k ==> Unread(ss[i], ls[i], sub)
    ensures Split(ss[k], sub, o, askers, waiters) || Quiet(ss[k], sub)
  {
    if k > 0 {
      SplitAlong(c, ss, ls, k - 1, sub, o, askers, waiters);
      StepSplit(c, ss[k - 1], ls[k - 1], sub, o, askers, waiters);
    }
  }

  lemma UnionCard(d: set<nat>, a: set<nat>, b: set<nat>)
    requires d <= a + b
    ensures |d| <= |a| + |b|
  {
    Arith.SubsetCard(d, a + b);
    Arith.SubsetCard(b - a, b);
    assert a + b == a + (b - a);
  }

  /** A set of permit holders is bounded by the limit and by the group it comes from. */
  lemma Bounded(c: Config, s: State, o: Obj, d: set<nat>, group: set<nat>)
    requires PermitsOk(c, s) && o in s.sems && d <= Holders(s.workers, o) && d <= group
    ensures |d| <= Arith.Min(c.limit, |group|)
  {
    Arith.SubsetCard(d, Holders(s.workers, o));
    Arith.SubsetCard(d, group);
  }

  lemma SplitBound(c: Config, s: State, sub: SubId, o: Obj, askers: set<nat>, waiters: set<nat>)
    requires PermitsOk(c, s) && AllPlaced(s) && Split(s, sub, o, askers, waiters) && Linked(s, sub, Some(o), false)
    ensures |Delivering(s.workers, sub, false)| <= Arith.Min(c.limit, |askers|) + Arith.Min(c.limit, |waiters|)
  {
    var d := Delivering(s.workers, sub, false);
    var there := set w | w in d && Permit(s.workers[w]) == Some(o);
    var here := d - there;
    assert forall w :: w in d ==> Sided(s.workers[w], w, o, askers, waiters) && Link(s, s.workers[w], Some(o), false);
    Bounded(c, s, o, there, askers);
    if w :| w in here {
      Bounded(c, s, s.semReg[sub].obj, here, waiters);
    }
    UnionCard(d, there, here);
  }

  // ---- and as many as the two groups --------------------------------------------------------

  /** The askers stand at `o`, whose permits are the deliveries; the registry has
      forgotten it; the waiters are about to ask. */
  ghost predicate Parted(s: State, sub: SubId, o: Obj, askers: set<nat>, waiters: set<nat>) {
    && sub !in s.semReg && o in s.sems && s.sems[o] == |Delivering(s.workers, sub, false)|
    && Delivering(s.workers, sub, false) <= askers
    && (forall w :: w in askers ==> w in s.workers && s.workers[w].log.sub == sub && Asked(s.workers[w], false) == Some(o))
    && (forall w :: w in waiters ==> w in s.workers && s.workers[w].log.sub == sub && s.workers[w].Cleared?)
  }

  /** Steps of runs that have read the subscription before. */
  ghost predicate Late(c: Config, ss: seq<State>, ls: seq<Step>, base: nat) {
    Path(c, ss, ls, base) && forall i :: base <= i < |ls| ==> ls[i].Call? && !ls[i].a.ReadSub?
  }

  lemma TakeOne(c: Config, s: State, sub: SubId, o: Obj, askers: set<nat>, waiters: set<nat>, w: nat)
    requires Parted(s, sub, o, askers, waiters) && w in askers && w !in Delivering(s.workers, sub, false) && s.sems[o] < c.limit
    ensures AtFree(c, s, w)
    ensures Parted(Acquired(c, s, w), sub, o, askers, waiters)
    ensures |Delivering(Acquired(c, s, w).workers, sub, false)| == |Delivering(s.workers, sub, false)| + 1
  {
    var pc := s.workers[w];
    assert pc.AtSemaphore? && pc.sem == o;
    DeliveringGrows(s.workers, w, Permitted(pc.log, pc.until, o));
  }

  /** One asker takes a permit that is left at the forgotten semaphore. */
  lemma AskerDelivers(c: Config, ss: seq<State>, ls: seq<Step>, base: nat, sub: SubId, o: Obj,
                      askers: set<nat>, waiters: set<nat>) returns (ss': seq<State>, ls': seq<Step>)
    requires Late(c, ss, ls, base) && Parted(ss[|ls|], sub, o, askers, waiters)
    requires |Delivering(ss[|ls|].workers, sub, false)| < Arith.Min(c.limit, |askers|)
    ensures Late(c, ss', ls', base) && ss <= ss' && ls <= ls' && Parted(ss'[|ls'|], sub, o, askers, waiters)
    ensures |Delivering(ss'[|ls'|].workers, sub, false)| == |Delivering(ss[|ls|].workers, sub, false)| + 1
  {
    var s := ss[|ls|];
    var w := Missing(askers, Delivering(s.workers, sub, false));
    TakeOne(c, s, sub, o, askers, waiters, w);
    Acquires(c, s, w);
    ss', ls' := Goes(c, ss, ls, base, Call(w, TryAcquire(true, 0)), Acquired(c, s, w));
  }

  lemma Missing(a: set<nat>, b: set<nat>) returns (x: nat)
    requires |b| < |a|
    ensures x in a && x !in b
  {
    if a <= b { Arith.SubsetCard(a, b); }
    x :| x in a && x !in b;
  }

  /** The askers take all of them. */
  lemma AskersDeliver(c: Config, ss: seq<State>, ls: seq<Step>, base: nat, sub: SubId, o: Obj,
                      askers: set<nat>, waiters: set<nat>) returns (ss': seq<State>, ls': seq<Step>)
    requires Late(c, ss, ls, base) && Parted(ss[|ls|], sub, o, askers, waiters)
    ensures Late(c, ss', ls', base) && ss <= ss' && ls <= ls' && Parted(ss'[|ls'|], sub, o, askers, waiters)
    ensures |Delivering(ss'[|ls'|].workers, sub, false)| >= Arith.Min(c.limit, |askers|)
  {
    ss', ls' := ss, ls;
    while |Delivering(ss'[|ls'|].workers, sub, false)| < Arith.Min(c.limit, |askers|)
      invariant Late(c, ss', ls', base) && ss <= ss' && ls <= ls' && Parted(ss'[|ls'|], sub, o, askers, waiters)
      decreases c.limit - |Delivering(ss'[|ls'|].workers, sub, false)|
    {
      ss', ls' := AskerDelivers(c, ss', ls', base, sub, o, askers, waiters);
    }
  }

  ghost predicate AllCleared(s: State, sub: SubId, waiters: set<nat>) {
    forall w :: w in waiters ==> w in s.workers && s.workers[w].log.sub == sub && s.workers[w].Cleared?
  }

  /** One waiter gets a permit of the new semaphore. */
  lemma WaiterDelivers(c: Config, ss: seq<State>, ls: seq<Step>, base: nat, sub: SubId, waiters: set<nat>, w: nat, n: nat)
    returns (ss': seq<State>, ls': seq<Step>)
    requires Late(c, ss, ls, base) && AllCleared(ss[|ls|], sub, waiters) && w in waiters
    requires Room(ss[|ls|], sub, n) && n < c.limit
    ensures Late(c, ss', ls', base) && ss <= ss' && ls <= ls' && AllCleared(ss'[|ls'|], sub, waiters - {w})
    ensures Room(ss'[|ls'|], sub, n + 1)
    ensures |Delivering(ss'[|ls'|].workers, sub, false)| == |Delivering(ss[|ls|].workers, sub, false)| + 1
  {
    var s := ss[|ls|];
    var pc := s.workers[w];
    var obj;
    ss', ls', obj := Enters(c, ss, ls, base, w, n);
    DeliveringGrows(s.workers, w, Permitted(pc.log, pc.until, obj));
  }

  /** Enough of both groups are past the limit together. */
  lemma BothDeliver(c: Config, ss: seq<State>, ls: seq<Step>, base: nat, sub: SubId, o: Obj,
                    askers: set<nat>, waiters: set<nat>) returns (ss': seq<State>, ls': seq<Step>)
    requires Late(c, ss, ls, base) && Parted(ss[|ls|], sub, o, askers, waiters)
    requires askers != {} && waiters != {} && |askers| + |waiters| > c.limit && 1 <= c.limit
    ensures Late(c, ss', ls', base) && ss <= ss' && ls <= ls'
    ensures |Delivering(ss'[|ls'|].workers, sub, false)| > c.limit
  {
    ss', ls' := AskersDeliver(c, ss, ls, base, sub, o, askers, waiters);
    var n: nat, left := 0, waiters;
    var first := Arith.Min(c.limit, |askers|);
    while |Delivering(ss'[|ls'|].workers, sub, false)| <= c.limit
      invariant Late(c, ss', ls', base) && ss <= ss' && ls <= ls'
      invariant AllCleared(ss'[|ls'|], sub, left) && |left| + n == |waiters| && Room(ss'[|ls'|], sub, n)
      invariant |Delivering(ss'[|ls'|].workers, sub, false)| >= first + n
      decreases left
    {
      var w :| w in left;
      ss', ls' := WaiterDelivers(c, ss', ls', base, sub, left, w, n);
      n, left := n + 1, left - {w};
    }
  }

  // ---- exactly when -----------------------------------------------------------------------

  function Without(s: State, sub: SubId): State {
    s.(semReg := s.semReg - {sub})
  }

  /** The runs that only have to give a permit of `o` back. */
  function Leaving(s: State, o: Obj): set<nat> {
    set w | w in s.workers && s.workers[w].Releasing? && s.workers[w].sem == o
  }

  /** Some of the leaving runs are gone; everything else is as before. */
  predicate Left(s: State, s': State, o: Obj) {
    && s'.semReg == s.semReg && o in s'.sems && s'.sems[o] == |Holders(s'.workers, o)|
    && s'.workers.Keys <= s.workers.Keys && s.workers.Keys - Leaving(s, o) <= s'.workers.Keys
    && forall w :: w in s'.workers ==> s'.workers[w] == s.workers[w]
  }

  lemma LeavesOne(c: Config, s0: State, s: State, o: Obj, w: nat)
    requires Left(s0, s, o) && w in Leaving(s, o)
    ensures 0 < s.sems[o] && Left(s0, GaveBack(s, w), o) && Leaving(GaveBack(s, w), o) == Leaving(s, o) - {w}
  {
    var h := Holders(s.workers, o);
    assert w in h;
    Arith.MovedCard(h, w);
    assert Holders(s.workers - {w}, o) == h - {w};
  }

  /** They all give their permits back. */
  lemma AllLeave(c: Config, ss: seq<State>, ls: seq<Step>, base: nat, o: Obj) returns (ss': seq<State>, ls': seq<Step>)
    requires Late(c, ss, ls, base) && o in ss[|ls|].sems && ss[|ls|].sems[o] == |Holders(ss[|ls|].workers, o)|
    ensures Late(c, ss', ls', base) && ss <= ss' && ls <= ls'
    ensures Left(ss[|ls|], ss'[|ls'|], o) && Leaving(ss'[|ls'|], o) == {}
  {
    ss', ls' := ss, ls;
    while Leaving(ss'[|ls'|], o) != {}
      invariant Late(c, ss', ls', base) && ss <= ss' && ls <= ls' && Left(ss[|ls|], ss'[|ls'|], o)
      decreases Leaving(ss'[|ls'|], o)
    {
      var s := ss'[|ls'|];
      var w :| w in Leaving(s, o);
      LeavesOne(c, ss[|ls|], s, o, w);
      GivesBack(c, s, w);
      ss', ls' := Goes(c, ss', ls', base, Call(w, Release), GaveBack(s, w));
    }
  }

  /** When the semaphore goes and the leaving runs are gone, the runs are the two groups. */
  lemma Parts(c: Config, s: State, s': State, sub: SubId)
    requires PermitsOk(c, s) && AllPlaced(s) && Owned(s) && Linked(s, sub, None, false) && Askers(s, sub) != {}
    requires sub in s.semReg && Left(Without(s, sub), s', s.semReg[sub].obj) && Leaving(s', s.semReg[sub].obj) == {}
    ensures Parted(s', sub, s.semReg[sub].obj, Askers(s, sub), Waiters(s, sub))
  {
    var o := s.semReg[sub].obj;
    AskersShare(s, sub);
    OwnHolders(c, s, sub);
    forall w | w in s'.workers ensures w in Holders(s'.workers, o) <==> w in Delivering(s'.workers, sub, false) {
      assert w in Holders(s'.workers, o) ==> w !in Leaving(s', o) && w in Holders(s.workers, o);
    }
    assert Holders(s'.workers, o) == Delivering(s'.workers, sub, false);
    assert forall w :: w in Askers(s, sub) || w in Waiters(s, sub) ==> w !in Leaving(s, o);
  }

  /** From the moment the semaphore goes, enough of both groups get past the limit. */
  lemma Exceeds(c: Config, s: State, ss: seq<State>, ls: seq<Step>, base: nat, sub: SubId)
    returns (ss': seq<State>, ls': seq<Step>)
    requires PermitsOk(c, s) && AllPlaced(s) && Owned(s) && Linked(s, sub, None, false) && 1 <= c.limit && Enough(c, s, sub)
    requires Late(c, ss, ls, base) && ss[|ls|] == Without(s, sub)
    ensures Late(c, ss', ls', base) && ss <= ss' && ls <= ls'
    ensures |Delivering(ss'[|ls'|].workers, sub, false)| > c.limit
  {
    AskersShare(s, sub);
    var o := s.semReg[sub].obj;
    OwnHolders(c, s, sub);
    ss', ls' := AllLeave(c, ss, ls, base, o);
    Parts(c, s, ss'[|ls'|], sub);
    ss', ls' := BothDeliver(c, ss', ls', base, sub, o, Askers(s, sub), Waiters(s, sub));
  }

  lemma AskersShare(s: State, sub: SubId)
    requires Linked(s, sub, None, false) && Askers(s, sub) != {}
    ensures sub in s.semReg && forall w :: w in Askers(s, sub) ==> Asked(s.workers[w], false) == Some(s.semReg[sub].obj)
  {
    forall w | w in Askers(s, sub) ensures Link(s, s.workers[w], None, false) {}
    var w :| w in Askers(s, sub);
    assert Link(s, s.workers[w], None, false);
  }

  lemma Splits(s: State, sub: SubId)
    requires AllPlaced(s) && Linked(s, sub, None, false) && Askers(s, sub) != {}
    ensures sub in s.semReg
    ensures var o, s1 := s.semReg[sub].obj, Without(s, sub);
            Split(s1, sub, o, Askers(s, sub), Waiters(s, sub)) && Linked(s1, sub, Some(o), false)
  {
    AskersShare(s, sub);
    forall w | w in s.workers && s.workers[w].log.sub == sub && Asked(s.workers[w], false).Some? ensures w in Askers(s, sub) {}
  }

  predicate Enough(c: Config, s: State, sub: SubId) {
    Askers(s, sub) != {} && Waiters(s, sub) != {} && |Askers(s, sub)| + |Waiters(s, sub)| > c.limit
  }

  lemma LateExceeds(c: Config, ss: seq<State>, ls: seq<Step>, sub: SubId)
    requires Late(c, ss, ls, 0) && |Delivering(ss[|ls|].workers, sub, false)| > c.limit
    ensures CanExceedGone(c, ss[0], sub)
  {
    forall i | 0 <= i < |ls| ensures Spares(c, ss[i], ls[i], sub, false) && Unread(ss[i], ls[i], sub) {
      assert ls[i].Call? && !ls[i].a.ReadSub?;
    }
  }

  lemma EnoughExceeds(c: Config, s: State, sub: SubId)
    requires PermitsOk(c, s) && AllPlaced(s) && Owned(s) && Linked(s, sub, None, false) && 1 <= c.limit && Enough(c, s, sub)
    ensures CanExceedGone(c, Without(s, sub), sub)
  {
    var s1 := Without(s, sub);
    var ss, ls := Exceeds(c, s, [s1], [], 0, sub);
    assert ss[0] == s1;
    LateExceeds(c, ss, ls, sub);
  }

  /** Whatever follows the deletion, the two groups bound the deliveries. */
  lemma StaysBounded(c: Config, s: State, sub: SubId, ss: seq<State>, ls: seq<Step>)
    requires 1 <= c.threshold && Inv(c, Without(s, sub)) && AllPlaced(s) && Linked(s, sub, None, false) && Askers(s, sub) != {}
    requires Leads(c, ss, ls) && ss[0] == Without(s, sub)
    requires forall i :: 0 <= i < |ls| ==> Spares(c, ss[i], ls[i], sub, false) && Unread(ss[i], ls[i], sub)
    ensures |Delivering(ss[|ls|].workers, sub, false)| <= Arith.Min(c.limit, |Askers(s, sub)|) + Arith.Min(c.limit, |Waiters(s, sub)|)
  {
    Splits(s, sub);
    var o := s.semReg[sub].obj;
    SplitAlong(c, ss, ls, |ls|, sub, o, Askers(s, sub), Waiters(s, sub));
    LinkedAlong(c, ss, ls, |ls|, sub, Some(o), false);
    InvAlong(c, ss, ls, |ls|);
    EndBound(c, ss[|ls|], sub, o, Askers(s, sub), Waiters(s, sub));
  }

  lemma NoAskersStay(c: Config, s: State, sub: SubId)
    requires 1 <= c.threshold && Inv(c, s) && Linked(s, sub, None, false) && Askers(s, sub) == {}
    ensures !CanExceed(c, Without(s, sub), sub)
  {
    forall w | w in s.workers && s.workers[w].log.sub == sub ensures Asked(s.workers[w], false).None? {
      assert w !in Askers(s, sub);
    }
    assert Apply(c, s, RemoveSemaphore(sub)) == Without(s, sub);
    SparedIsSafe(c, s, RemoveSemaphore(sub), sub);
  }

  lemma TooFewStay(c: Config, s: State, sub: SubId)
    requires 1 <= c.threshold && Inv(c, s) && Linked(s, sub, None, false) && !Enough(c, s, sub)
    ensures !CanExceedGone(c, Without(s, sub), sub)
  {
    var s1 := Without(s, sub);
    if CanExceedGone(c, s1, sub) {
      var ss: seq<State>, ls: seq<Step> :|
        Leads(c, ss, ls) && ss[0] == s1
        && (forall i :: 0 <= i < |ls| ==> Spares(c, ss[i], ls[i], sub, false) && Unread(ss[i], ls[i], sub))
        && |Delivering(ss[|ls|].workers, sub, false)| > c.limit;
      if Askers(s, sub) == {} {
        NoAskersStay(c, s, sub);
        assert CanExceed(c, s1, sub);
      } else {
        RemovalKeeps(c, s, sub);
        StaysBounded(c, s, sub, ss, ls);
      }
    }
  }

  lemma RemovalKeeps(c: Config, s: State, sub: SubId)
    requires 1 <= c.threshold && Inv(c, s)
    ensures Inv(c, Without(s, sub))
  {
    assert Apply(c, s, RemoveSemaphore(sub)) == Without(s, sub);
    StepKeeps(c, s, RemoveSemaphore(sub));
  }

  lemma EndBound(c: Config, s: State, sub: SubId, o: Obj, askers: set<nat>, waiters: set<nat>)
    requires PermitsOk(c, s) && AllPlaced(s) && Linked(s, sub, Some(o), false)
    requires Split(s, sub, o, askers, waiters) || Quiet(s, sub)
    ensures |Delivering(s.workers, sub, false)| <= Arith.Min(c.limit, |askers|) + Arith.Min(c.limit, |waiters|)
  {
    if Quiet(s, sub) {
      assert Delivering(s.workers, sub, false) == {};
    } else {
      SplitBound(c, s, sub, o, askers, waiters);
    }
  }

  lemma GoneExactly(c: Config, s: State, sub: SubId)
    requires 1 <= c.threshold && 1 <= c.limit && Inv(c, s) && Owned(s) && Linked(s, sub, None, false)
    ensures CanExceedGone(c, Without(s, sub), sub) <==> Enough(c, s, sub)
  {
    if Enough(c, s, sub) {
      EnoughExceeds(c, s, sub);
    } else {
      TooFewStay(c, s, sub);
    }
  }

  /** Deleting a subscription lets its deliveries exceed the limit exactly when a run has
      asked for the semaphore, another is about to, and together they are more than the
      limit. */
  lemma DeleteLiftsCapExactly(c: Config, ss: seq<State>, ls: seq<Step>, k: nat, sub: SubId)
    requires Behaviour(c, ss, ls) && k < |ss| && 1 <= c.limit
    requires forall i :: 0 <= i < k ==> Spares(c, ss[i], ls[i], sub, false)
    ensures CanExceedGone(c, Apply(c, ss[k], RemoveSemaphore(sub)), sub) <==> Enough(c, ss[k], sub)
  {
    CapHolds(c, ss, ls, k, sub, false);
    ControlsNeverAbandoned(c, ss, ls, k);
    OwnedAlong(c, ss, ls, k);
    GoneExactly(c, ss[k], sub);
    assert Apply(c, ss[k], RemoveSemaphore(sub)) == Without(ss[k], sub);
  }

  // ---- a run that shows it --------------------------------------------------------------------

  lemma ArrivalWaits(s: State, w: nat, sub: SubId)
    requires w !in s.workers
    ensures var s' := At(s, w, Cleared(LogFor(w, sub, 1), 0));
            |Waiters(s', sub)| == |Waiters(s, sub)| + 1 && Askers(s', sub) == Askers(s, sub)
  {
    assert Waiters(At(s, w, Cleared(LogFor(w, sub, 1), 0)), sub) == Waiters(s, sub) + {w};
  }

  /** One run delivers and as many as the limit have read the subscription active. */
  lemma CrowdGathers(c: Config, now: Time, sub: SubId) returns (ss: seq<State>, ls: seq<Step>)
    requires 1 <= c.threshold && 1 <= c.limit
    ensures Behaviour(c, ss, ls) && Path(c, ss, ls, 0) && Enough(c, ss[|ls|], sub)
  {
    ss, ls := OneMore(c, [Init(now)], [], 0, sub, 0);
    assert Delivering(ss[|ls|].workers, sub, false) <= Askers(ss[|ls|], sub);
    var w :| w in Delivering(ss[|ls|].workers, sub, false);
    assert w in Askers(ss[|ls|], sub);
    for n := 0 to c.limit
      invariant Behaviour(c, ss, ls) && Path(c, ss, ls, 0)
      invariant w in Askers(ss[|ls|], sub) && |Waiters(ss[|ls|], sub)| >= n
    {
      var s := ss[|ls|];
      var v := Arith.FreshId(s.workers.Keys + Begun(ls));
      ArrivalWaits(s, v, sub);
      ss, ls := Arrives(c, ss, ls, 0, v, sub, 1);
    }
    Arith.SubsetCard({w}, Askers(ss[|ls|], sub));
  }

  /** From a fresh start: a run whose subscription is deleted at step `r`, never read
      active afterwards, and that ends with more deliveries than the limit, each on a row
      of its own. */
  lemma DeleteCanLiftCap(c: Config, now: Time, sub: SubId) returns (ss: seq<State>, ls: seq<Step>, r: nat)
    requires 1 <= c.threshold && 1 <= c.limit
    ensures Behaviour(c, ss, ls) && OwnRows(ls) && r < |ls| && ls[r] == RemoveSemaphore(sub)
    ensures forall i :: r < i < |ls| ==> ls[i].Call? && !ls[i].a.ReadSub?
    ensures |Delivering(ss[|ls|].workers, sub, false)| > c.limit
  {
    ss, ls := CrowdGathers(c, now, sub);
    var s := ss[|ls|];
    r := |ls|;
    CapHolds(c, ss, ls, r, sub, false);
    ControlsNeverAbandoned(c, ss, ls, r);
    OwnedAlong(c, ss, ls, r);
    var step := RemoveSemaphore(sub);
    assert Path(c, ss, ls, r + 1);
    PathOn(c, ss, ls, r + 1, step);
    ss, ls := ss + [Without(s, sub)], ls + [step];
    ss, ls := Exceeds(c, s, ss, ls, r + 1, sub);
  }
}
