/** Circuit breakers are per target URL: no breaker ever serves two URLs, so whatever
    happens at one target leaves the admission to every other target alone. */
module Targets {
  import opened Domain
  import opened Program
  import opened Controls
  import R = Registry

  /** The breaker the run stands at or waits to report to. */
  function Using(pc: Pc): Option<Obj> {
    if pc.AtBreaker? then Some(pc.br) else Awaited(pc)
  }

  predicate SameBreaker(a: Pc, b: Pc) {
    Using(a).Some? && Using(a) == Using(b)
  }

  predicate Serves(s: State, url: string, br: Obj) {
    url in s.brReg && s.brReg[url].obj == br
  }

  /** A breaker serves one URL. */
  ghost predicate OneTarget(s: State) {
    && (forall a, b, br :: Serves(s, a, br) && Serves(s, b, br) ==> a == b)
    && (forall w, url, br :: w in s.workers && Using(s.workers[w]) == Some(br) && Serves(s, url, br) ==>
          s.workers[w].log.url == url)
    && (forall v, w :: v in s.workers && w in s.workers && SameBreaker(s.workers[v], s.workers[w]) ==>
          s.workers[v].log.url == s.workers[w].log.url)
  }

  /** What a call does to the registry of breakers and to the breaker the run uses. */
  lemma BreakerLookup(c: Config, s: State, w: nat, pc: Pc, a: Action)
    requires CallEnabled(c, s, pc, a)
    ensures var s' := Effect(c, s, w, pc, a);
            && s'.workers == s.workers
            && s'.brReg == if pc.Permitted? then s.brReg[pc.log.url := R.Slot(a.obj, s.now)] else s.brReg
    ensures pc.Permitted? ==> Next(pc, a) == Some(AtBreaker(pc.log, pc.until, pc.sem, a.obj))
    ensures Next(pc, a).Some? ==> Next(pc, a).value.log == pc.log
    ensures !pc.Permitted? && Next(pc, a).Some? && Using(Next(pc, a).value).Some? ==> Using(Next(pc, a).value) == Using(pc)
  {
  }

  /** A lookup finds the breaker of its URL, or makes one nobody knows. */
  lemma LookupOneTarget(c: Config, s: State, s': State, w: nat, url: string, br: Obj)
    requires AllPlaced(s) && OneTarget(s)
    requires if url in s.brReg then br == s.brReg[url].obj else br !in s.breakers
    requires s'.brReg == s.brReg[url := R.Slot(br, s.now)]
    requires w in s'.workers && s'.workers[w].log.url == url && Using(s'.workers[w]) == Some(br)
    requires forall v :: v in s'.workers && v != w ==> v in s.workers && s'.workers[v] == s.workers[v]
    ensures OneTarget(s')
  {
    forall v | v in s.workers && Using(s.workers[v]) == Some(br) ensures s.workers[v].log.url == url {
      assert Placed(s, s.workers[v]);
      assert Serves(s, url, br);
    }
    forall a | Serves(s', a, br) ensures a == url {
      if a != url {
        assert Serves(s, a, br) && s.brReg[a].obj in s.breakers;
        assert Serves(s, url, br);
      }
    }
    forall a, o | Serves(s', a, o) ensures Serves(s, a, o) || (a == url && o == br) {}
  }

  lemma CallOneTarget(c: Config, s: State, w: nat, a: Action)
    requires AllPlaced(s) && OneTarget(s) && Enabled(c, s, Call(w, a))
    ensures OneTarget(Apply(c, s, Call(w, a)))
  {
    var pc, s' := s.workers[w], Apply(c, s, Call(w, a));
    BreakerLookup(c, s, w, pc, a);
    if pc.Permitted? {
      LookupOneTarget(c, s, s', w, pc.log.url, a.obj);
    } else {
      SameOrGone(s, s');
    }
  }

  /** Runs that keep their breaker or let it go, and a registry that forgets. */
  lemma SameOrGone(s: State, s': State)
    requires OneTarget(s)
    requires forall url :: url in s'.brReg ==> url in s.brReg && s'.brReg[url] == s.brReg[url]
    requires forall w :: w in s'.workers && Using(s'.workers[w]).Some? ==>
      w in s.workers && Using(s.workers[w]) == Using(s'.workers[w]) && s.workers[w].log.url == s'.workers[w].log.url
    ensures OneTarget(s')
  {
    forall url, br | Serves(s', url, br) ensures Serves(s, url, br) {}
  }

  lemma StepOneTarget(c: Config, s: State, step: Step)
    requires AllPlaced(s) && OneTarget(s) && Enabled(c, s, step)
    ensures OneTarget(Apply(c, s, step))
  {
    if step.Call? {
      CallOneTarget(c, s, step.w, step.a);
    } else {
      SameOrGone(s, Apply(c, s, step));
    }
  }

  /** In every state of every run, runs at one breaker go to one URL, and no two URLs are
      handed the same breaker. */
  lemma {:induction false} BreakersArePerTarget(c: Config, ss: seq<State>, ls: seq<Step>, k: nat)
    requires Behaviour(c, ss, ls) && k < |ss|
    ensures OneTarget(ss[k])
  {
    if k > 0 {
      BreakersArePerTarget(c, ss, ls, k - 1);
      ControlsNeverAbandoned(c, ss, ls, k - 1);
      StepOneTarget(c, ss[k - 1], ls[k - 1]);
    }
  }

  /** No call of a run changes the breaker of another URL than its own: what one target
      does decides nothing about the others. */
  lemma OtherTargetsUntouched(c: Config, ss: seq<State>, ls: seq<Step>, k: nat, url: string)
    requires Behaviour(c, ss, ls) && k < |ls| && ls[k].Call? && ls[k].w in ss[k].workers && url in ss[k].brReg
    requires ss[k].workers[ls[k].w].log.url != url
    ensures url in ss[k + 1].brReg && ss[k + 1].brReg[url] == ss[k].brReg[url]
    ensures ss[k].brReg[url].obj in ss[k].breakers && ss[k].brReg[url].obj in ss[k + 1].breakers
    ensures ss[k + 1].breakers[ss[k].brReg[url].obj] == ss[k].breakers[ss[k].brReg[url].obj]
  {
    var s, w, a := ss[k], ls[k].w, ls[k].a;
    BreakersArePerTarget(c, ss, ls, k);
    ControlsNeverAbandoned(c, ss, ls, k);
    BreakerLookup(c, s, w, s.workers[w], a);
    BreakerMoves(c, s, w, s.workers[w], a, s.brReg[url].obj);
    assert Serves(s, url, s.brReg[url].obj);
  }
}
