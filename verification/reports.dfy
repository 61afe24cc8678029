/** What the breakers of concurrent runs are told. Every breaker is, in every state, a new
    breaker with the configured threshold and reset timeout after exactly the calls the
    runs made to it: one admission request each, and one report of the reply it got. */
module Reports {
  import opened Domain
  import opened Program
  import opened Controls
  import B = Breaker

  /** What the step asks or tells this breaker. */
  function CallBy(s: State, step: Step, br: Obj): seq<B.Call> {
    if !step.Call? || step.w !in s.workers then []
    else
      match s.workers[step.w]
      case AtBreaker(_, _, _, at) => if at == br then [B.AllowAt(s.now)] else []
      case Answered(_, _, _, at, token, reply) =>
        if at != br then [] else if Accepts(reply) then [B.SuccessOf(token)] else [B.FailureOf(token, s.now)]
      case _ => []
  }

  /** All it was asked and told since the process started. */
  function CallsTo(ss: seq<State>, ls: seq<Step>, k: nat, br: Obj): seq<B.Call>
    requires k <= |ls| <= |ss|
  {
    if k == 0 || ls[k - 1].Crash? then [] else CallsTo(ss, ls, k - 1, br) + CallBy(ss[k - 1], ls[k - 1], br)
  }

  lemma StepTells(c: Config, s: State, step: Step, br: Obj)
    requires Enabled(c, s, step) && br in s.breakers && !step.Crash?
    ensures br in Apply(c, s, step).breakers
    ensures var calls := CallBy(s, step, br);
            Apply(c, s, step).breakers[br] == if calls == [] then s.breakers[br] else B.Do(s.breakers[br], calls[0])
    ensures |CallBy(s, step, br)| <= 1
  {
    if step.Call? { BreakerMoves(c, s, step.w, s.workers[step.w], step.a, br); }
  }

  /** A breaker that does not exist is asked nothing, and begins as configured. */
  lemma StepCreates(c: Config, s: State, step: Step, br: Obj)
    requires AllPlaced(s) && Enabled(c, s, step) && br !in s.breakers
    ensures CallBy(s, step, br) == []
    ensures br in Apply(c, s, step).breakers ==> Apply(c, s, step).breakers[br] == B.New(c.threshold, c.reset)
  {
    if step.Call? { assert Placed(s, s.workers[step.w]); }
  }

  /** In every state of every run, each breaker is what its calls have made of a new one. */
  lemma {:induction false} BreakerIsItsCalls(c: Config, ss: seq<State>, ls: seq<Step>, k: nat, br: Obj)
    requires Behaviour(c, ss, ls) && k < |ss|
    ensures br in ss[k].breakers ==>
      ss[k].breakers[br] == B.Run(B.New(c.threshold, c.reset), CallsTo(ss, ls, k, br))
    ensures br !in ss[k].breakers ==> CallsTo(ss, ls, k, br) == []
  {
    if k > 0 {
      var s, step := ss[k - 1], ls[k - 1];
      BreakerIsItsCalls(c, ss, ls, k - 1, br);
      ControlsNeverAbandoned(c, ss, ls, k - 1);
      if br !in s.breakers {
        StepCreates(c, s, step, br);
      } else if !step.Crash? {
        StepTells(c, s, step, br);
        var before, calls := CallsTo(ss, ls, k - 1, br), CallBy(s, step, br);
        if calls == [] {
          assert before + calls == before;
        } else {
          assert calls == [calls[0]];
          B.RunOn(B.New(c.threshold, c.reset), before, calls[0]);
        }
      }
    }
  }

  // ---- consequences over runs ----------------------------------------------------------------

  /** The step reports a failure with the token of the generation the breaker is in. */
  predicate ReportsFailure(s: State, step: Step, br: Obj)
    requires br in s.breakers
  {
    && step.Call? && step.w in s.workers && s.workers[step.w].Answered? && s.workers[step.w].br == br
    && !Accepts(s.workers[step.w].reply) && s.workers[step.w].token == s.breakers[br].generation
  }

  /** The failures heard since the last success, in the present generation. */
  function FailuresHeard(c: Config, ss: seq<State>, ls: seq<Step>, k: nat, br: Obj): nat
    requires k <= |ls| <= |ss|
  {
    B.Streak(B.New(c.threshold, c.reset), CallsTo(ss, ls, k, br))
  }

  /** A closed breaker opens exactly at the failed delivery that makes the failures in a
      row as many as the configured threshold. */
  lemma OpensAtThreshold(c: Config, ss: seq<State>, ls: seq<Step>, k: nat, br: Obj)
    requires Behaviour(c, ss, ls) && k < |ls| && !ls[k].Crash? && br in ss[k].breakers && ss[k].breakers[br].phase.Closed?
    ensures br in ss[k + 1].breakers
    ensures !ss[k + 1].breakers[br].phase.Closed? <==>
            ReportsFailure(ss[k], ls[k], br) && FailuresHeard(c, ss, ls, k, br) + 1 == c.threshold
  {
    BreakerIsItsCalls(c, ss, ls, k, br);
    StepTells(c, ss[k], ls[k], br);
    var told, calls := CallsTo(ss, ls, k, br), CallBy(ss[k], ls[k], br);
    if calls != [] {
      B.OpensExactly(c.threshold, c.reset, told, calls[0]);
      B.RunOn(B.New(c.threshold, c.reset), told, calls[0]);
    }
  }

  /** Nobody talks to the breaker between the two states. */
  ghost predicate Silent(ss: seq<State>, ls: seq<Step>, i: nat, j: nat, br: Obj)
    requires i <= j <= |ls| <= |ss|
  {
    forall m :: i <= m < j ==> !ls[m].Crash? && CallBy(ss[m], ls[m], br) == []
  }

  lemma {:induction false} SilenceKeeps(c: Config, ss: seq<State>, ls: seq<Step>, i: nat, j: nat, br: Obj)
    requires Behaviour(c, ss, ls) && i <= j <= |ls| && br in ss[i].breakers && Silent(ss, ls, i, j, br)
    ensures br in ss[j].breakers && ss[j].breakers[br] == ss[i].breakers[br]
    decreases j
  {
    if i < j {
      SilenceKeeps(c, ss, ls, i, j - 1, br);
      StepTells(c, ss[j - 1], ls[j - 1], br);
    }
  }

  /** After a failed probe the next run at the breaker is admitted exactly if more than the
      configured reset timeout has passed since. */
  lemma FailedProbeDenies(c: Config, ss: seq<State>, ls: seq<Step>, k: nat, j: nat, br: Obj)
    requires Behaviour(c, ss, ls) && k < j < |ls| && br in ss[k].breakers && ss[k].breakers[br].phase.HalfOpen?
    requires ReportsFailure(ss[k], ls[k], br) && Silent(ss, ls, k + 1, j, br)
    requires ls[j].Call? && ls[j].w in ss[j].workers && ss[j].workers[ls[j].w].AtBreaker? && ss[j].workers[ls[j].w].br == br
    ensures ls[j].a.Allow? && (ls[j].a.ok <==> ss[j].now - ss[k].now > c.reset)
  {
    BreakerIsItsCalls(c, ss, ls, k, br);
    StepTells(c, ss[k], ls[k], br);
    SilenceKeeps(c, ss, ls, k + 1, j, br);
    var told, token := CallsTo(ss, ls, k, br), ss[k].workers[ls[k].w].token;
    B.FailedProbeReopens(c.threshold, c.reset, told, token, ss[k].now, ss[j].now);
    B.RunOn(B.New(c.threshold, c.reset), told, B.FailureOf(token, ss[k].now));
  }

  /** After a successful probe the next run at the breaker is admitted. */
  lemma SuccessfulProbeAdmits(c: Config, ss: seq<State>, ls: seq<Step>, k: nat, j: nat, br: Obj)
    requires Behaviour(c, ss, ls) && k < j < |ls| && br in ss[k].breakers && ss[k].breakers[br].phase.HalfOpen?
    requires ls[k].Call? && ls[k].w in ss[k].workers && ss[k].workers[ls[k].w].Answered? && ss[k].workers[ls[k].w].br == br
    requires Accepts(ss[k].workers[ls[k].w].reply) && ss[k].workers[ls[k].w].token == ss[k].breakers[br].generation
    requires Silent(ss, ls, k + 1, j, br)
    requires ls[j].Call? && ls[j].w in ss[j].workers && ss[j].workers[ls[j].w].AtBreaker? && ss[j].workers[ls[j].w].br == br
    ensures ls[j].a.Allow? && ls[j].a.ok
  {
    BreakerIsItsCalls(c, ss, ls, k, br);
    StepTells(c, ss[k], ls[k], br);
    SilenceKeeps(c, ss, ls, k + 1, j, br);
    var told, token := CallsTo(ss, ls, k, br), ss[k].workers[ls[k].w].token;
    B.SuccessfulProbeCloses(c.threshold, c.reset, told, token, ss[j].now);
    B.RunOn(B.New(c.threshold, c.reset), told, B.SuccessOf(token));
  }
}
