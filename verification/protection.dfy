/** What protects a target: the runs to one URL meet one breaker for as long as the
    registry keeps it, and once that breaker has opened nobody is let through to the URL
    for the reset timeout. */
module Protection {
  import opened Domain
  import opened Program
  import opened Controls
  import opened Targets
  import opened Reports
  import Arith
  import B = Breaker
  import O = Overload
  import R = Registry

  // ---- one breaker for one URL -------------------------------------------------------------

  /** The step asks the registry for the breaker of the URL. */
  predicate LooksUp(s: State, step: Step, url: string) {
    step.Call? && step.w in s.workers && s.workers[step.w].Permitted? && s.workers[step.w].log.url == url && step.a.GetBreaker?
  }

  /** Some lookup of the URL, from step `i` on, is at most the idle time before step `k`. */
  ghost predicate Recent(c: Config, ss: seq<State>, ls: seq<Step>, i: nat, k: nat, url: string)
    requires k <= |ls| < |ss|
  {
    exists l :: i <= l < k && LooksUp(ss[l], ls[l], url) && ss[k].now - ss[l].now <= c.idleTtl
  }

  /** No sweep between the two steps came later than the idle time after the lookup before it. */
  ghost predicate KeptBusy(c: Config, ss: seq<State>, ls: seq<Step>, i: nat, k: nat, url: string)
    requires k <= |ls| < |ss|
  {
    forall m :: i < m < k && ls[m].SweepBreakers? ==> Recent(c, ss, ls, i, m, url)
  }

  ghost predicate NoCrash(ls: seq<Step>, i: nat, k: nat)
    requires k <= |ls|
  {
    forall m :: i <= m < k ==> !ls[m].Crash?
  }

  /** What a step does to the slot of one URL. */
  lemma SlotMoves(c: Config, s: State, step: Step, url: string)
    requires Enabled(c, s, step) && !step.Crash?
    ensures var s' := Apply(c, s, step);
            if LooksUp(s, step, url) then
              && url in s'.brReg && s'.brReg[url] == R.Slot(step.a.obj, s.now)
              && (if url in s.brReg then step.a.obj == s.brReg[url].obj else step.a.obj !in s.breakers)
            else if step.SweepBreakers? then
              && (url in s'.brReg <==> url in s.brReg && s.now - s.brReg[url].lastUsed <= c.idleTtl)
              && (url in s'.brReg ==> s'.brReg[url] == s.brReg[url])
            else (url in s'.brReg <==> url in s.brReg) && (url in s'.brReg ==> s'.brReg[url] == s.brReg[url])
    ensures s.breakers.Keys <= Apply(c, s, step).breakers.Keys && s.now <= Apply(c, s, step).now
  {
    if step.Call? {
      BreakerLookup(c, s, step.w, s.workers[step.w], step.a);
      EffectKept(c, s, step.w, s.workers[step.w], step.a);
    }
  }

  /** The slot was stamped by the latest lookup since step `i`. */
  ghost predicate Stamped(ss: seq<State>, ls: seq<Step>, i: nat, k: nat, url: string)
    requires k <= |ls| < |ss| && url in ss[k].brReg
  {
    var t := ss[k].brReg[url].lastUsed;
    && t <= ss[k].now
    && (exists l :: i <= l < k && LooksUp(ss[l], ls[l], url) && ss[l].now == t)
    && (forall l :: i <= l < k && LooksUp(ss[l], ls[l], url) ==> ss[l].now <= t)
  }

  /** The slot at step `k`, against the lookup at step `i`. */
  ghost predicate SlotOk(c: Config, ss: seq<State>, ls: seq<Step>, i: nat, k: nat, url: string, br: Obj)
    requires k <= |ls| < |ss|
  {
    && br in ss[k].breakers
    && (KeptBusy(c, ss, ls, i, k, url) <==> Serves(ss[k], url, br))
    && (Serves(ss[k], url, br) ==> Stamped(ss, ls, i, k, url))
  }

  lemma RecentExactly(c: Config, ss: seq<State>, ls: seq<Step>, i: nat, k: nat, url: string)
    requires k <= |ls| < |ss| && url in ss[k].brReg && Stamped(ss, ls, i, k, url)
    ensures Recent(c, ss, ls, i, k, url) <==> ss[k].now - ss[k].brReg[url].lastUsed <= c.idleTtl
  {
  }

  lemma BusyOn(c: Config, ss: seq<State>, ls: seq<Step>, i: nat, k: nat, url: string)
    requires i < k < |ls| < |ss|
    ensures KeptBusy(c, ss, ls, i, k + 1, url) <==>
            KeptBusy(c, ss, ls, i, k, url) && (ls[k].SweepBreakers? ==> Recent(c, ss, ls, i, k, url))
  {
  }

  lemma StampOn(c: Config, ss: seq<State>, ls: seq<Step>, i: nat, k: nat, url: string)
    requires i <= k < |ls| < |ss| && Enabled(c, ss[k], ls[k]) && ss[k + 1] == Apply(c, ss[k], ls[k]) && !ls[k].Crash?
    requires url in ss[k + 1].brReg
    requires LooksUp(ss[k], ls[k], url) ==> forall l :: i <= l < k && LooksUp(ss[l], ls[l], url) ==> ss[l].now <= ss[k].now
    requires !LooksUp(ss[k], ls[k], url) ==> url in ss[k].brReg && Stamped(ss, ls, i, k, url)
    ensures Stamped(ss, ls, i, k + 1, url)
  {
    SlotMoves(c, ss[k], ls[k], url);
  }

  lemma SlotOn(c: Config, ss: seq<State>, ls: seq<Step>, i: nat, k: nat, url: string, br: Obj)
    requires i < k < |ls| < |ss| && Enabled(c, ss[k], ls[k]) && ss[k + 1] == Apply(c, ss[k], ls[k]) && !ls[k].Crash?
    requires SlotOk(c, ss, ls, i, k, url, br)
    ensures SlotOk(c, ss, ls, i, k + 1, url, br)
  {
    SlotMoves(c, ss[k], ls[k], url);
    BusyOn(c, ss, ls, i, k, url);
    if Serves(ss[k], url, br) { RecentExactly(c, ss, ls, i, k, url); }
    if Serves(ss[k + 1], url, br) { StampOn(c, ss, ls, i, k, url); }
  }

  lemma SlotStarts(c: Config, ss: seq<State>, ls: seq<Step>, i: nat, url: string)
    requires i < |ls| < |ss| && Enabled(c, ss[i], ls[i]) && ss[i + 1] == Apply(c, ss[i], ls[i])
    requires LooksUp(ss[i], ls[i], url) && AllPlaced(ss[i + 1])
    ensures SlotOk(c, ss, ls, i, i + 1, url, ls[i].a.obj)
  {
    SlotMoves(c, ss[i], ls[i], url);
    StampOn(c, ss, ls, i, i, url);
  }

  ghost predicate SlotStep(c: Config, ss: seq<State>, ls: seq<Step>, i: nat, k: nat, url: string, br: Obj)
    requires k < |ls| < |ss|
  {
    SlotOk(c, ss, ls, i, k, url, br) ==> SlotOk(c, ss, ls, i, k + 1, url, br)
  }

  lemma {:induction false} SlotChain(c: Config, ss: seq<State>, ls: seq<Step>, i: nat, k: nat, url: string, br: Obj)
    requires i < k <= |ls| < |ss| && SlotOk(c, ss, ls, i, i + 1, url, br)
    requires forall m: nat :: i < m < k ==> SlotStep(c, ss, ls, i, m, url, br)
    ensures SlotOk(c, ss, ls, i, k, url, br)
  {
    if i + 1 < k {
      SlotChain(c, ss, ls, i, k - 1, url, br);
      assert SlotStep(c, ss, ls, i, k - 1, url, br);
    }
  }

  lemma SlotAlong(c: Config, ss: seq<State>, ls: seq<Step>, i: nat, k: nat, url: string)
    requires Behaviour(c, ss, ls) && i < k <= |ls| && LooksUp(ss[i], ls[i], url) && NoCrash(ls, i, k)
    ensures SlotOk(c, ss, ls, i, k, url, ls[i].a.obj)
  {
    var br := ls[i].a.obj;
    ControlsNeverAbandoned(c, ss, ls, i + 1);
    SlotStarts(c, ss, ls, i, url);
    forall m: nat | i < m < k ensures SlotStep(c, ss, ls, i, m, url, br) {
      if SlotOk(c, ss, ls, i, m, url, br) { SlotOn(c, ss, ls, i, m, url, br); }
    }
    SlotChain(c, ss, ls, i, k, url, br);
  }

  /** Two lookups of one URL in one process find the same breaker exactly if every sweep
      between them came within the idle time of some lookup of the URL since the first. */
  lemma SameBreakerExactly(c: Config, ss: seq<State>, ls: seq<Step>, i: nat, j: nat, url: string)
    requires Behaviour(c, ss, ls) && i < j < |ls| && NoCrash(ls, i, j)
    requires LooksUp(ss[i], ls[i], url) && LooksUp(ss[j], ls[j], url)
    ensures ls[i].a.obj == ls[j].a.obj <==>
            forall k :: i < k < j && ls[k].SweepBreakers? ==>
              exists l :: i <= l < k && LooksUp(ss[l], ls[l], url) && ss[k].now - ss[l].now <= c.idleTtl
  {
    SlotAlong(c, ss, ls, i, j, url);
    SlotMoves(c, ss[j], ls[j], url);
    assert KeptBusy(c, ss, ls, i, j, url) <==>
      forall k :: i < k < j && ls[k].SweepBreakers? ==>
        exists l :: i <= l < k && LooksUp(ss[l], ls[l], url) && ss[k].now - ss[l].now <= c.idleTtl by {
      forall k | i < k < j && ls[k].SweepBreakers?
        ensures Recent(c, ss, ls, i, k, url) <==>
                exists l :: i <= l < k && LooksUp(ss[l], ls[l], url) && ss[k].now - ss[l].now <= c.idleTtl {}
    }
  }

  // ---- an open breaker -------------------------------------------------------------------------

  /** Open since `since` or later, and no probe out. */
  predicate Shut(c: Config, s: State, br: Obj, since: Time) {
    && br in s.breakers && s.breakers[br].phase.Open? && !s.breakers[br].probing
    && since <= s.breakers[br].lastOpened && s.breakers[br].resetTimeout == c.reset
  }

  lemma StaysShut(c: Config, s: State, step: Step, br: Obj, since: Time)
    requires Enabled(c, s, step) && !step.Crash? && Shut(c, s, br, since) && since <= s.now <= since + c.reset
    ensures Shut(c, Apply(c, s, step), br, since)
  {
    StepTells(c, s, step, br);
  }

  predicate ClockStep(s: State, s': State) {
    s.now <= s'.now
  }

  lemma StepClock(c: Config, s: State, step: Step)
    requires Enabled(c, s, step)
    ensures ClockStep(s, Apply(c, s, step))
  {
    if step.Call? { EffectClock(c, s, step.w, s.workers[step.w], step.a); }
  }

  lemma EffectClock(c: Config, s: State, w: nat, pc: Pc, a: Action)
    requires CallEnabled(c, s, pc, a)
    ensures Effect(c, s, w, pc, a).now == s.now
  {
  }

  lemma {:induction false} ClockChain(ss: seq<State>, i: nat, k: nat)
    requires i <= k < |ss| && forall m :: 0 <= m < |ss| - 1 ==> ClockStep(ss[m], ss[m + 1])
    ensures ss[i].now <= ss[k].now
    decreases k
  {
    if i < k {
      ClockChain(ss, i, k - 1);
      assert ClockStep(ss[k - 1], ss[k - 1 + 1]);
    }
  }

  ghost predicate ShutStep(c: Config, s: State, s': State, br: Obj, since: Time) {
    Shut(c, s, br, since) && since <= s.now <= since + c.reset ==> Shut(c, s', br, since)
  }

  lemma {:induction false} ShutChain(c: Config, ss: seq<State>, k: nat, j: nat, br: Obj)
    requires k < j < |ss| && Shut(c, ss[k + 1], br, ss[k].now)
    requires forall m :: 0 <= m < |ss| - 1 ==> ClockStep(ss[m], ss[m + 1])
    requires forall m :: k < m < j ==> ShutStep(c, ss[m], ss[m + 1], br, ss[k].now)
    requires ss[j].now <= ss[k].now + c.reset
    ensures Shut(c, ss[j], br, ss[k].now)
  {
    if k + 1 < j {
      ClockChain(ss, j - 1, j);
      ClockChain(ss, k, j - 1);
      ShutChain(c, ss, k, j - 1, br);
      assert ShutStep(c, ss[j - 1], ss[j - 1 + 1], br, ss[k].now);
    }
  }

  lemma ShutAlong(c: Config, ss: seq<State>, ls: seq<Step>, k: nat, j: nat, br: Obj)
    requires Behaviour(c, ss, ls) && k < j <= |ls| && NoCrash(ls, k, j) && Shut(c, ss[k + 1], br, ss[k].now)
    requires ss[j].now <= ss[k].now + c.reset
    ensures Shut(c, ss[j], br, ss[k].now) && ss[k].now <= ss[j].now
  {
    forall m | 0 <= m < |ss| - 1 ensures ClockStep(ss[m], ss[m + 1]) { StepClock(c, ss[m], ls[m]); }
    forall m | k < m < j ensures ShutStep(c, ss[m], ss[m + 1], br, ss[k].now) {
      if Shut(c, ss[m], br, ss[k].now) && ss[k].now <= ss[m].now <= ss[k].now + c.reset {
        StaysShut(c, ss[m], ls[m], br, ss[k].now);
      }
    }
    ClockChain(ss, k, j);
    ShutChain(c, ss, k, j, br);
  }

  /** The breaker leaves Closed at this step. */
  predicate OpensAt(s: State, s': State, br: Obj) {
    br in s.breakers && s.breakers[br].phase.Closed? && br in s'.breakers && !s'.breakers[br].phase.Closed?
  }

  lemma OpensShut(c: Config, ss: seq<State>, ls: seq<Step>, k: nat, br: Obj)
    requires Behaviour(c, ss, ls) && k < |ls| && !ls[k].Crash? && OpensAt(ss[k], ss[k + 1], br)
    ensures Shut(c, ss[k + 1], br, ss[k].now)
  {
    BreakerIsItsCalls(c, ss, ls, k, br);
    B.BreakerRefines(c.threshold, c.reset, CallsTo(ss, ls, k, br));
    StepTells(c, ss[k], ls[k], br);
  }

  /** Once a breaker has opened, whatever is reported to it, nobody is admitted until more
      than the reset timeout has passed. */
  lemma ShutForReset(c: Config, ss: seq<State>, ls: seq<Step>, k: nat, j: nat, br: Obj)
    requires Behaviour(c, ss, ls) && k < j < |ls| && NoCrash(ls, k, j) && OpensAt(ss[k], ss[k + 1], br)
    requires ls[j].Call? && ls[j].w in ss[j].workers && ss[j].workers[ls[j].w].AtBreaker? && ss[j].workers[ls[j].w].br == br
    requires ss[j].now - ss[k].now <= c.reset
    ensures ls[j].a.Allow? && !ls[j].a.ok
  {
    OpensShut(c, ss, ls, k, br);
    ShutAlong(c, ss, ls, k, j, br);
    assert ss[j].breakers[br].phase.Open?;
  }

  /** The run makes no call between the two steps. */
  ghost predicate Rests(ls: seq<Step>, m: nat, j: nat, w: nat)
    requires j <= |ls|
  {
    forall n :: m < n < j ==> !(ls[n].Call? && ls[n].w == w)
  }

  lemma {:induction false} RestsThere(c: Config, ss: seq<State>, ls: seq<Step>, m: nat, j: nat, url: string)
    requires Behaviour(c, ss, ls) && m < j <= |ls| && NoCrash(ls, m, j) && LooksUp(ss[m], ls[m], url) && Rests(ls, m, j, ls[m].w)
    ensures var w := ls[m].w; w in ss[j].workers && ss[j].workers[w].AtBreaker? && ss[j].workers[w].br == ls[m].a.obj
  {
    if m + 1 < j {
      RestsThere(c, ss, ls, m, j - 1, url);
    } else {
      BreakerLookup(c, ss[m], ls[m].w, ss[m].workers[ls[m].w], ls[m].a);
    }
  }

  /** A target whose breaker has opened is left alone: the breaker was looked up for the URL
      at step `i` and opens at step `k`; a run to the URL that looked it up at step `m` and
      asks within the reset timeout is refused, if the registry kept the breaker so long. */
  lemma TargetLeftAlone(c: Config, ss: seq<State>, ls: seq<Step>, i: nat, k: nat, m: nat, j: nat, url: string)
    requires Behaviour(c, ss, ls) && i <= k < j < |ls| && i < m < j && NoCrash(ls, i, j)
    requires LooksUp(ss[i], ls[i], url) && OpensAt(ss[k], ss[k + 1], ls[i].a.obj)
    requires LooksUp(ss[m], ls[m], url) && KeptBusy(c, ss, ls, i, m, url)
    requires Rests(ls, m, j, ls[m].w) && ls[j].Call? && ls[j].w == ls[m].w
    requires ss[j].now - ss[k].now <= c.reset
    ensures ls[j].a.Allow? && !ls[j].a.ok
  {
    SlotAlong(c, ss, ls, i, m, url);
    SlotMoves(c, ss[m], ls[m], url);
    RestsThere(c, ss, ls, m, j, url);
    ShutForReset(c, ss, ls, k, j, ls[i].a.obj);
  }

  // ---- a breaker forgotten under a run -----------------------------------------------------------

  /** After the run's lookup of its breaker. */
  function Met(c: Config, s: State, w: nat, br: Obj): State
    requires w in s.workers && s.workers[w].Permitted?
  {
    var pc := s.workers[w];
    s.(brReg := s.brReg[pc.log.url := R.Slot(br, s.now)],
       breakers := if pc.log.url in s.brReg then s.breakers else s.breakers[br := B.New(c.threshold, c.reset)],
       workers := s.workers[w := AtBreaker(pc.log, pc.until, pc.sem, br)])
  }

  lemma Meets(c: Config, s: State, w: nat, br: Obj)
    requires w in s.workers && s.workers[w].Permitted? && s.workers[w].log.url !in s.brReg && br !in s.breakers
    ensures Enabled(c, s, Call(w, GetBreaker(br))) && Apply(c, s, Call(w, GetBreaker(br))) == Met(c, s, w, br)
    ensures LooksUp(s, Call(w, GetBreaker(br)), s.workers[w].log.url)
  {
  }

  /** A run of a subscription that nobody else delivers for gets to its breaker. */
  lemma Comes(c: Config, ss: seq<State>, ls: seq<Step>, w: nat) returns (ss': seq<State>, ls': seq<Step>, br: Obj)
    requires O.Path(c, ss, ls, |ls|) && 1 <= c.limit && w !in ss[|ls|].workers && w !in O.Begun(ls)
    requires w !in ss[|ls|].semReg && "" !in ss[|ls|].brReg
    ensures O.Path(c, ss', ls', |ls|) && ss <= ss' && ls < ls' && br !in ss[|ls|].breakers
    ensures ls'[|ls'| - 1] == Call(w, GetBreaker(br)) && LooksUp(ss'[|ls'| - 1], ls'[|ls'| - 1], "")
    ensures ss'[|ls'|].brReg == ss[|ls|].brReg["" := R.Slot(br, ss[|ls|].now)] && ss'[|ls'|].now == ss[|ls|].now
    ensures br in ss'[|ls'|].breakers && forall i :: |ls| <= i < |ls'| ==> O.Busy(ls'[i])
  {
    var base, obj := |ls|, 0;
    ss', ls' := O.Arrives(c, ss, ls, base, w, w, 1);
    ss', ls', obj := O.Enters(c, ss', ls', base, w, 0);
    var s := ss'[|ls'|];
    br := Arith.FreshId(s.breakers.Keys + ss[|ls|].breakers.Keys);
    Meets(c, s, w, br);
    BusyClock(c, ss', ls', base);
    ss', ls' := O.Goes(c, ss', ls', base, Call(w, GetBreaker(br)), Met(c, s, w, br));
  }

  /** No time passes while runs only begin and make their calls. */
  lemma {:induction false} BusyClock(c: Config, ss: seq<State>, ls: seq<Step>, base: nat)
    requires O.Path(c, ss, ls, base) && base <= |ls|
    ensures ss[|ls|].now == ss[base].now
    decreases |ls| - base
  {
    if base < |ls| {
      var s, step := ss[base], ls[base];
      assert O.Busy(step) && ss[base + 1] == Apply(c, s, step);
      if step.Call? { EffectClock(c, s, step.w, s.workers[step.w], step.a); }
      BusyClock(c, ss, ls, base + 1);
    }
  }

  /** Time passes until the breaker of the URL is swept. */
  lemma GoesIdle(c: Config, ss: seq<State>, ls: seq<Step>) returns (ss': seq<State>, ls': seq<Step>)
    requires O.Path(c, ss, ls, |ls|) && "" in ss[|ls|].brReg && ss[|ls|].brReg[""].lastUsed == ss[|ls|].now
    ensures O.Path(c, ss', ls', |ls'|) && ss <= ss' && |ls'| == |ls| + 2 && ls <= ls'
    ensures ls'[|ls|].Tick? && ls'[|ls| + 1].SweepBreakers?
    ensures "" !in ss'[|ls'|].brReg && ss'[|ls'|].breakers == ss[|ls|].breakers
  {
    var s, base := ss[|ls|], |ls| + 2;
    var t := if c.idleTtl < 0 then s.now else s.now + c.idleTtl + 1;
    assert O.Path(c, ss, ls, base);
    O.PathOn(c, ss, ls, base, Tick(t));
    var ss1, ls1 := ss + [s.(now := t)], ls + [Tick(t)];
    O.PathOn(c, ss1, ls1, base, SweepBreakers);
    ss', ls' := ss1 + [Apply(c, s.(now := t), SweepBreakers)], ls1 + [SweepBreakers];
  }

  /** First a run that meets its breaker, then the sweep. */
  lemma SweptUnderRun(c: Config, now: Time) returns (ss: seq<State>, ls: seq<Step>, i: nat)
    requires 1 <= c.limit
    ensures O.Path(c, ss, ls, |ls|) && ss[0] == Init(now) && i < |ls| && NoCrash(ls, i, |ls|)
    ensures LooksUp(ss[i], ls[i], "") && ls[i].a.obj in ss[|ls|].breakers && "" !in ss[|ls|].brReg
  {
    var ss1, ls1, br := Comes(c, [Init(now)], [], 0);
    ss, ls := GoesIdle(c, ss1, ls1);
    i := |ls1| - 1;
    assert ss[i] == ss1[i] && ls[i] == ls1[i];
    assert ss[0] == ss1[0] == [Init(now)][0];
  }

  /** Under every configuration, a run in which a sweep overtakes a slow delivery and the
      next one to its URL meets another breaker. */
  lemma ForgottenUnderRun(c: Config, now: Time) returns (ss: seq<State>, ls: seq<Step>, i: nat, j: nat)
    requires 1 <= c.threshold && 1 <= c.limit
    ensures Behaviour(c, ss, ls) && i < j < |ls| && NoCrash(ls, i, j)
    ensures LooksUp(ss[i], ls[i], "") && LooksUp(ss[j], ls[j], "") && ls[i].a.obj != ls[j].a.obj
  {
    var ss1, ls1, other;
    ss1, ls1, i := SweptUnderRun(c, now);
    var s := ss1[|ls1|];
    var w := Arith.FreshId(s.workers.Keys + O.Begun(ls1) + s.semReg.Keys);
    ss, ls, other := Comes(c, ss1, ls1, w);
    j := |ls| - 1;
    assert ss[i] == ss1[i] && ls[i] == ls1[i] && ss[0] == ss1[0];
    forall m | i <= m < j ensures !ls[m].Crash? {
      assert m < |ls1| ==> ls[m] == ls1[m];
    }
  }
}
