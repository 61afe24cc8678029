/** The in-process controls around concurrent runs of `Deliverer.Process`: the
    semaphores and breakers behind their registries, every run's position, and who
    took or reported what. The database is an adversary here: any read or write may
    come back any way. */
module Controls {
  import Arith
  import opened Domain
  import opened Program
  import B = Breaker
  import R = Registry

  datatype Config = Config(limit: nat, idleTtl: Time, threshold: int, reset: Time)

  datatype State = State(
    now: Time,
    sems: map<Obj, nat>,           // permits out, for every semaphore ever created
    semReg: map<SubId, R.Slot>,
    breakers: map<Obj, B.Fields>,  // every breaker ever created
    brReg: map<string, R.Slot>,
    admitted: map<Obj, nat>,       // admissions granted by each breaker
    reported: map<Obj, nat>,       // results reported to each breaker
    since: map<nat, Time>,         // when each run asked for its semaphore
    workers: Workers)

  function Init(now: Time): State {
    State(now, map[], map[], map[], map[], map[], map[], map[], map[])
  }

  datatype Step =
    | Tick(t: Time)
    | Begin(w: nat, log: Log)
    | Call(w: nat, a: Action)
    | SweepSemaphores
    | SweepBreakers
    | RemoveSemaphore(sub: SubId)
    | Crash

  predicate CallEnabled(c: Config, s: State, pc: Pc, a: Action) {
    Calls(pc, a) &&
    match pc
    case Cleared(log, _) => if log.sub in s.semReg then a.obj == s.semReg[log.sub].obj else a.obj !in s.sems
    case AtSemaphore(_, _, sem) => sem in s.sems && (a.ok <==> s.sems[sem] < c.limit)
    case Permitted(log, _, _) => if log.url in s.brReg then a.obj == s.brReg[log.url].obj else a.obj !in s.breakers
    case AtBreaker(_, _, _, br) =>
      br in s.breakers
      && var (_, ok, token) := B.Allow(s.breakers[br], s.now);
         a.ok == ok && (ok ==> a.token == token)
    case _ => true
  }

  predicate Enabled(c: Config, s: State, step: Step) {
    match step
    case Tick(t) => s.now <= t
    case Begin(w, _) => w !in s.workers
    case Call(w, a) => w in s.workers && CallEnabled(c, s, s.workers[w], a)
    case _ => true
  }

  function Count(m: map<Obj, nat>, o: Obj): nat {
    if o in m then m[o] else 0
  }

  /** The control side of one call of a run. */
  function Effect(c: Config, s: State, w: nat, pc: Pc, a: Action): State
    requires CallEnabled(c, s, pc, a)
  {
    match pc
    case Cleared(log, _) =>
      s.(semReg := R.Got(s.semReg, log.sub, a.obj, s.now).0,
         sems := if log.sub in s.semReg then s.sems else s.sems[a.obj := 0],
         since := s.since[w := s.now])
    case AtSemaphore(_, _, sem) => if a.ok then s.(sems := s.sems[sem := s.sems[sem] + 1]) else s
    case Permitted(log, _, _) =>
      s.(brReg := R.Got(s.brReg, log.url, a.obj, s.now).0,
         breakers := if log.url in s.brReg then s.breakers else s.breakers[a.obj := B.New(c.threshold, c.reset)])
    case AtBreaker(_, _, _, br) =>
      s.(breakers := s.breakers[br := B.Allow(s.breakers[br], s.now).0],
         admitted := if a.ok then s.admitted[br := Count(s.admitted, br) + 1] else s.admitted)
    case Answered(_, _, _, br, token, reply) =>
      if br in s.breakers then
        s.(breakers := s.breakers[br := if Is2xx(reply) then B.RecordSuccess(s.breakers[br], token)
                                        else B.RecordFailure(s.breakers[br], token, s.now)],
           reported := s.reported[br := Count(s.reported, br) + 1])
      else s
    case Releasing(_, sem) =>
      if sem in s.sems && 0 < s.sems[sem] then s.(sems := s.sems[sem := s.sems[sem] - 1]) else s
    case _ => s
  }

  function Apply(c: Config, s: State, step: Step): State
    requires Enabled(c, s, step)
  {
    match step
    case Tick(t) => s.(now := t)
    case Begin(w, log) => s.(workers := s.workers[w := Loaded(log)])
    case Call(w, a) =>
      var pc := s.workers[w];
      Effect(c, s, w, pc, a).(workers := Moved(s.workers, w, Next(pc, a)))
    case SweepSemaphores => s.(semReg := R.Swept(s.semReg, s.now, c.idleTtl))
    case SweepBreakers => s.(brReg := R.Swept(s.brReg, s.now, c.idleTtl))
    case RemoveSemaphore(sub) => s.(semReg := s.semReg - {sub})
    case Crash => Init(s.now)
  }

  // ---- who holds what -------------------------------------------------------------

  function Holders(ws: Workers, sem: Obj): set<nat> {
    set w | w in ws && Permit(ws[w]) == Some(sem)
  }

  /** The breaker that admitted the run and still waits for its report. */
  function Awaited(pc: Pc): Option<Obj> {
    if pc.Sending? || pc.Answered? then Some(pc.br) else None
  }

  function InFlight(ws: Workers, br: Obj): set<nat> {
    set w | w in ws && Awaited(ws[w]) == Some(br)
  }

  /** The runs whose report the breaker will not ignore. */
  function Heard(ws: Workers, br: Obj, generation: int): set<nat> {
    set w | w in ws && Awaited(ws[w]) == Some(br) && ws[w].token == generation
  }

  predicate Placed(s: State, pc: Pc) {
    && (Permit(pc).Some? ==> Permit(pc).value in s.sems)
    && (pc.AtSemaphore? ==> pc.sem in s.sems)
    && (pc.AtBreaker? ==> pc.br in s.breakers)
    && (Awaited(pc).Some? ==> pc.br in s.breakers && pc.token <= s.breakers[pc.br].generation)
  }

  ghost predicate AllPlaced(s: State) {
    && (forall w :: w in s.workers ==> Placed(s, s.workers[w]))
    && (forall sub :: sub in s.semReg ==> s.semReg[sub].obj in s.sems)
    && (forall url :: url in s.brReg ==> s.brReg[url].obj in s.breakers)
    && s.admitted.Keys <= s.breakers.Keys && s.reported.Keys <= s.breakers.Keys
  }

  /** Permits out of a semaphore are exactly the runs inside its guarded section. */
  ghost predicate PermitsOk(c: Config, s: State) {
    forall o :: o in s.sems ==> s.sems[o] == |Holders(s.workers, o)| <= c.limit
  }

  /** Every admission has been reported once or still has its run in flight. */
  ghost predicate ReportsOk(s: State) {
    forall br :: br in s.breakers ==>
      Count(s.admitted, br) == Count(s.reported, br) + |InFlight(s.workers, br)|
  }

  /** A half-open breaker has exactly one run whose report it waits for; an open one none. */
  predicate ProberOk(ws: Workers, br: Obj, b: B.Fields) {
    && B.Sane(b) && 1 <= b.threshold
    && (b.phase.HalfOpen? ==> |Heard(ws, br, b.generation)| == 1)
    && (b.phase.Open? ==> Heard(ws, br, b.generation) == {})
  }

  ghost predicate ProbersOk(s: State) {
    forall br :: br in s.breakers ==> ProberOk(s.workers, br, s.breakers[br])
  }

  ghost predicate Inv(c: Config, s: State) {
    AllPlaced(s) && PermitsOk(c, s) && ReportsOk(s) && ProbersOk(s)
  }

  // ---- every call keeps it ------------------------------------------------------------

  /** No call forgets an object or takes a breaker back to an earlier generation. */
  ghost predicate Kept(s: State, s': State) {
    && s.sems.Keys <= s'.sems.Keys
    && (forall br :: br in s.breakers ==> br in s'.breakers && s.breakers[br].generation <= s'.breakers[br].generation)
  }

  lemma EffectKept(c: Config, s: State, w: nat, pc: Pc, a: Action)
    requires CallEnabled(c, s, pc, a)
    ensures Kept(s, Effect(c, s, w, pc, a))
  {
  }

  lemma RegistriesPlaced(c: Config, s: State, w: nat, pc: Pc, a: Action)
    requires AllPlaced(s) && Placed(s, pc) && CallEnabled(c, s, pc, a)
    ensures var s' := Effect(c, s, w, pc, a);
            && (forall sub :: sub in s'.semReg ==> s'.semReg[sub].obj in s'.sems)
            && (forall url :: url in s'.brReg ==> s'.brReg[url].obj in s'.breakers)
            && s'.admitted.Keys <= s'.breakers.Keys && s'.reported.Keys <= s'.breakers.Keys
  {
  }

  lemma NextPlaced(c: Config, s: State, w: nat, pc: Pc, a: Action)
    requires AllPlaced(s) && Placed(s, pc) && CallEnabled(c, s, pc, a)
    ensures Next(pc, a).Some? ==> Placed(Effect(c, s, w, pc, a), Next(pc, a).value)
  {
  }

  lemma CallPlaced(c: Config, s: State, w: nat, a: Action)
    requires AllPlaced(s) && Enabled(c, s, Call(w, a))
    ensures AllPlaced(Apply(c, s, Call(w, a)))
  {
    var pc := s.workers[w];
    var s' := Apply(c, s, Call(w, a));
    EffectKept(c, s, w, pc, a);
    RegistriesPlaced(c, s, w, pc, a);
    NextPlaced(c, s, w, pc, a);
    forall v | v in s'.workers ensures Placed(s', s'.workers[v]) {
      assert v != w ==> Placed(s, s.workers[v]);
    }
  }

  lemma HoldersMoved(ws: Workers, w: nat, pc: Option<Pc>, o: Obj)
    requires w in ws
    ensures Holders(Moved(ws, w, pc), o) ==
            if pc.Some? && Permit(pc.value) == Some(o) then Holders(ws, o) + {w} else Holders(ws, o) - {w}
  {
  }

  lemma InFlightMoved(ws: Workers, w: nat, pc: Option<Pc>, br: Obj)
    requires w in ws
    ensures InFlight(Moved(ws, w, pc), br) ==
            if pc.Some? && Awaited(pc.value) == Some(br) then InFlight(ws, br) + {w} else InFlight(ws, br) - {w}
  {
  }

  lemma HeardMoved(ws: Workers, w: nat, pc: Option<Pc>, br: Obj, g: int)
    requires w in ws
    ensures Heard(Moved(ws, w, pc), br, g) ==
            if pc.Some? && Awaited(pc.value) == Some(br) && pc.value.token == g
            then Heard(ws, br, g) + {w} else Heard(ws, br, g) - {w}
  {
  }

  function PermitAfter(pc: Pc, a: Action): Option<Obj>
    requires Calls(pc, a)
  {
    var n := Next(pc, a);
    if n.Some? then Permit(n.value) else None
  }

  lemma PermitMoves(pc: Pc, a: Action)
    requires Calls(pc, a)
    ensures PermitAfter(pc, a) ==
            if pc.AtSemaphore? && a.ok then Some(pc.sem) else if pc.Releasing? then None else Permit(pc)
  {
  }

  lemma SemaphoreMoves(c: Config, s: State, w: nat, pc: Pc, a: Action, o: Obj)
    requires CallEnabled(c, s, pc, a) && o in s.sems
    ensures var s' := Effect(c, s, w, pc, a);
            o in s'.sems && s'.sems[o] ==
              if pc.AtSemaphore? && pc.sem == o && a.ok then s.sems[o] + 1
              else if pc.Releasing? && pc.sem == o && 0 < s.sems[o] then s.sems[o] - 1
              else s.sems[o]
  {
    match pc
    case Cleared(_, _) =>
    case AtSemaphore(_, _, _) =>
    case Releasing(_, _) =>
    case _ => assert Effect(c, s, w, pc, a).sems == s.sems;
  }

  /** A call changes a semaphore's count exactly as it changes the run's permit. */
  lemma CountFollowsPermit(c: Config, s: State, w: nat, pc: Pc, a: Action, o: Obj)
    requires CallEnabled(c, s, pc, a) && o in s.sems && s.sems[o] <= c.limit
    requires Permit(pc) == Some(o) ==> 0 < s.sems[o]
    ensures var s' := Effect(c, s, w, pc, a);
            o in s'.sems && s'.sems[o] <= c.limit
            && s'.sems[o] + (if Permit(pc) == Some(o) then 1 else 0)
               == s.sems[o] + (if PermitAfter(pc, a) == Some(o) then 1 else 0)
  {
    PermitMoves(pc, a);
    SemaphoreMoves(c, s, w, pc, a, o);
  }

  lemma CallPermit(c: Config, s: State, w: nat, a: Action, o: Obj)
    requires w in s.workers && CallEnabled(c, s, s.workers[w], a)
    requires o in s.sems && s.sems[o] == |Holders(s.workers, o)| <= c.limit
    ensures var s' := Apply(c, s, Call(w, a));
            o in s'.sems && s'.sems[o] == |Holders(s'.workers, o)| <= c.limit
  {
    var pc := s.workers[w];
    HoldersMoved(s.workers, w, Next(pc, a), o);
    Arith.MovedCard(Holders(s.workers, o), w);
    assert Permit(pc) == Some(o) <==> w in Holders(s.workers, o);
    CountFollowsPermit(c, s, w, pc, a, o);
  }

  lemma CallPermits(c: Config, s: State, w: nat, a: Action)
    requires AllPlaced(s) && PermitsOk(c, s) && Enabled(c, s, Call(w, a))
    ensures PermitsOk(c, Apply(c, s, Call(w, a)))
  {
    var s' := Apply(c, s, Call(w, a));
    forall o | o in s'.sems ensures s'.sems[o] == |Holders(s'.workers, o)| <= c.limit {
      if o in s.sems {
        CallPermit(c, s, w, a, o);
      } else {
        assert forall v :: v in s.workers ==> Placed(s, s.workers[v]);
        HoldersMoved(s.workers, w, Next(s.workers[w], a), o);
        assert Holders(s.workers, o) == {} && Holders(s'.workers, o) == {};
      }
    }
  }

  function AwaitedAfter(pc: Pc, a: Action): Option<Obj>
    requires Calls(pc, a)
  {
    var n := Next(pc, a);
    if n.Some? then Awaited(n.value) else None
  }

  /** Admissions and reports are counted exactly when a run starts or stops being awaited. */
  lemma CountsFollowFlight(c: Config, s: State, w: nat, pc: Pc, a: Action, br: Obj)
    requires CallEnabled(c, s, pc, a) && br in s.breakers && Placed(s, pc)
    ensures var s' := Effect(c, s, w, pc, a);
            Count(s'.admitted, br) + Count(s.reported, br) + (if Awaited(pc) == Some(br) then 1 else 0)
            == Count(s.admitted, br) + Count(s'.reported, br) + (if AwaitedAfter(pc, a) == Some(br) then 1 else 0)
  {
  }

  lemma CallReport(c: Config, s: State, w: nat, a: Action, br: Obj)
    requires w in s.workers && CallEnabled(c, s, s.workers[w], a) && Placed(s, s.workers[w]) && br in s.breakers
    requires Count(s.admitted, br) == Count(s.reported, br) + |InFlight(s.workers, br)|
    ensures var s' := Apply(c, s, Call(w, a));
            Count(s'.admitted, br) == Count(s'.reported, br) + |InFlight(s'.workers, br)|
  {
    var pc := s.workers[w];
    InFlightMoved(s.workers, w, Next(pc, a), br);
    Arith.MovedCard(InFlight(s.workers, br), w);
    assert Awaited(pc) == Some(br) <==> w in InFlight(s.workers, br);
    CountsFollowFlight(c, s, w, pc, a, br);
  }

  /** A call counts only at the breaker the run stands at. */
  lemma CountsElsewhere(c: Config, s: State, w: nat, pc: Pc, a: Action, br: Obj)
    requires CallEnabled(c, s, pc, a) && Placed(s, pc) && br !in s.breakers
    ensures var s' := Effect(c, s, w, pc, a);
            Count(s'.admitted, br) == Count(s.admitted, br) && Count(s'.reported, br) == Count(s.reported, br)
    ensures AwaitedAfter(pc, a) != Some(br)
  {
    AwaitedMoves(pc, a);
  }

  /** Nobody is in flight at a breaker that has just been created. */
  lemma NewBreakerUnused(c: Config, s: State, w: nat, a: Action, br: Obj)
    requires AllPlaced(s) && Enabled(c, s, Call(w, a)) && br !in s.breakers
    ensures var s' := Apply(c, s, Call(w, a));
            Count(s'.admitted, br) == 0 && Count(s'.reported, br) == 0 && InFlight(s'.workers, br) == {}
  {
    assert forall v :: v in s.workers ==> Placed(s, s.workers[v]);
    CountsElsewhere(c, s, w, s.workers[w], a, br);
    InFlightMoved(s.workers, w, Next(s.workers[w], a), br);
    assert InFlight(s.workers, br) == {};
  }

  lemma CallReports(c: Config, s: State, w: nat, a: Action)
    requires AllPlaced(s) && ReportsOk(s) && Enabled(c, s, Call(w, a))
    ensures ReportsOk(Apply(c, s, Call(w, a)))
  {
    var s' := Apply(c, s, Call(w, a));
    forall br | br in s'.breakers
      ensures Count(s'.admitted, br) == Count(s'.reported, br) + |InFlight(s'.workers, br)|
    {
      if br in s.breakers {
        CallReport(c, s, w, a, br);
      } else {
        NewBreakerUnused(c, s, w, a, br);
      }
    }
  }

  // ---- the probe ------------------------------------------------------------------------

  /** A fresh generation is heard from nobody. */
  lemma NobodyAhead(s: State, br: Obj, g: int)
    requires AllPlaced(s) && (br in s.breakers ==> s.breakers[br].generation < g)
    ensures Heard(s.workers, br, g) == {}
  {
    assert forall v :: v in s.workers ==> Placed(s, s.workers[v]);
  }

  /** An admission is the new probe, or joins a closed breaker. */
  lemma AdmissionProber(ws: Workers, w: nat, pc: Pc, a: Action, b: B.Fields, now: Time)
    requires w in ws && ws[w] == pc && pc.AtBreaker? && a.Allow?
    requires ProberOk(ws, pc.br, b) && Heard(ws, pc.br, b.generation + 1) == {}
    requires a.ok == B.Allow(b, now).1 && (a.ok ==> a.token == B.Allow(b, now).2)
    ensures ProberOk(Moved(ws, w, Next(pc, a)), pc.br, B.Allow(b, now).0)
  {
    var b' := B.Allow(b, now).0;
    HeardMoved(ws, w, Next(pc, a), pc.br, b'.generation);
    var heard := Heard(ws, pc.br, b'.generation);
    assert w !in heard && heard - {w} == heard;
    if b.phase.Open? && a.ok {
      assert Heard(Moved(ws, w, Next(pc, a)), pc.br, b'.generation) == {w};
    }
  }

  /** A report closes the probe, reopens the breaker, or is no longer heard. */
  lemma ReportProber(ws: Workers, w: nat, pc: Pc, a: Action, b: B.Fields, now: Time)
    requires w in ws && ws[w] == pc && pc.Answered? && a.Report?
    requires ProberOk(ws, pc.br, b) && Heard(ws, pc.br, b.generation + 1) == {}
    ensures var b' := if Is2xx(pc.reply) then B.RecordSuccess(b, pc.token) else B.RecordFailure(b, pc.token, now);
            ProberOk(Moved(ws, w, Next(pc, a)), pc.br, b')
  {
    var ws' := Moved(ws, w, Next(pc, a));
    var heard := Heard(ws, pc.br, b.generation);
    HeardMoved(ws, w, Next(pc, a), pc.br, b.generation);
    HeardMoved(ws, w, Next(pc, a), pc.br, b.generation + 1);
    assert Heard(ws', pc.br, b.generation + 1) == {};
    if pc.token != b.generation {
      assert w !in heard && heard - {w} == heard;
    } else {
      assert w in heard;
    }
  }

  lemma BreakerMoves(c: Config, s: State, w: nat, pc: Pc, a: Action, br: Obj)
    requires CallEnabled(c, s, pc, a) && br in s.breakers
    ensures var s' := Effect(c, s, w, pc, a);
            br in s'.breakers && s'.breakers[br] ==
              if pc.AtBreaker? && pc.br == br then B.Allow(s.breakers[br], s.now).0
              else if pc.Answered? && pc.br == br then
                if Is2xx(pc.reply) then B.RecordSuccess(s.breakers[br], pc.token)
                else B.RecordFailure(s.breakers[br], pc.token, s.now)
              else s.breakers[br]
  {
  }

  lemma AwaitedMoves(pc: Pc, a: Action)
    requires Calls(pc, a)
    ensures AwaitedAfter(pc, a) ==
            if pc.AtBreaker? && a.ok then Some(pc.br) else if pc.Answered? then None else Awaited(pc)
    ensures pc.Sending? ==> Next(pc, a).Some? && Next(pc, a).value.Answered? && Next(pc, a).value.token == pc.token
  {
  }

  /** A run elsewhere, or waiting for its reply, leaves what the breaker hears. */
  lemma UnheardProber(ws: Workers, w: nat, a: Action, br: Obj, b: B.Fields)
    requires w in ws && Calls(ws[w], a) && ProberOk(ws, br, b)
    requires !((ws[w].AtBreaker? || ws[w].Answered?) && ws[w].br == br)
    ensures ProberOk(Moved(ws, w, Next(ws[w], a)), br, b)
  {
    AwaitedMoves(ws[w], a);
    HeardMoved(ws, w, Next(ws[w], a), br, b.generation);
    Arith.MovedCard(Heard(ws, br, b.generation), w);
  }

  lemma CallProber(c: Config, s: State, w: nat, a: Action, br: Obj)
    requires Enabled(c, s, Call(w, a)) && br in s.breakers && Heard(s.workers, br, s.breakers[br].generation + 1) == {}
    requires ProberOk(s.workers, br, s.breakers[br])
    ensures var s' := Apply(c, s, Call(w, a));
            br in s'.breakers && ProberOk(s'.workers, br, s'.breakers[br])
  {
    var pc := s.workers[w];
    BreakerMoves(c, s, w, pc, a, br);
    if pc.AtBreaker? && pc.br == br {
      AdmissionProber(s.workers, w, pc, a, s.breakers[br], s.now);
    } else if pc.Answered? && pc.br == br {
      ReportProber(s.workers, w, pc, a, s.breakers[br], s.now);
    } else {
      UnheardProber(s.workers, w, a, br, s.breakers[br]);
    }
  }

  lemma CallProbers(c: Config, s: State, w: nat, a: Action)
    requires AllPlaced(s) && ProbersOk(s) && Enabled(c, s, Call(w, a)) && 1 <= c.threshold
    ensures ProbersOk(Apply(c, s, Call(w, a)))
  {
    var s' := Apply(c, s, Call(w, a));
    forall br | br in s'.breakers ensures ProberOk(s'.workers, br, s'.breakers[br]) {
      if br in s.breakers {
        NobodyAhead(s, br, s.breakers[br].generation + 1);
        CallProber(c, s, w, a, br);
      }
    }
  }

  lemma StepKeeps(c: Config, s: State, step: Step)
    requires Inv(c, s) && Enabled(c, s, step) && 1 <= c.threshold
    ensures Inv(c, Apply(c, s, step))
  {
    if step.Call? {
      CallPlaced(c, s, step.w, step.a);
      CallPermits(c, s, step.w, step.a);
      CallReports(c, s, step.w, step.a);
      CallProbers(c, s, step.w, step.a);
    } else if step.Begin? {
      BeginKeeps(c, s, step.w, step.log);
    }
  }

  /** A run that has just begun holds nothing and nobody waits for it. */
  lemma BeginHoldsNothing(ws: Workers, w: nat, log: Log, o: Obj, g: int)
    requires w !in ws
    ensures Holders(ws[w := Loaded(log)], o) == Holders(ws, o)
    ensures InFlight(ws[w := Loaded(log)], o) == InFlight(ws, o)
    ensures Heard(ws[w := Loaded(log)], o, g) == Heard(ws, o, g)
  {
  }

  lemma BeginKeeps(c: Config, s: State, w: nat, log: Log)
    requires Inv(c, s) && w !in s.workers
    ensures Inv(c, s.(workers := s.workers[w := Loaded(log)]))
  {
    var ws := s.workers[w := Loaded(log)];
    forall o | o in s.sems ensures Holders(ws, o) == Holders(s.workers, o) {
      BeginHoldsNothing(s.workers, w, log, o, 0);
    }
    forall br | br in s.breakers
      ensures InFlight(ws, br) == InFlight(s.workers, br)
      ensures ProberOk(ws, br, s.breakers[br])
    {
      BeginHoldsNothing(s.workers, w, log, br, s.breakers[br].generation);
    }
  }

  // ---- every run ---------------------------------------------------------------------------

  /** The steps lead through the states. */
  ghost predicate Leads(c: Config, ss: seq<State>, ls: seq<Step>) {
    |ss| == |ls| + 1
    && forall i :: 0 <= i < |ls| ==> Enabled(c, ss[i], ls[i]) && ss[i + 1] == Apply(c, ss[i], ls[i])
  }

  ghost predicate Behaviour(c: Config, ss: seq<State>, ls: seq<Step>) {
    1 <= c.threshold && Leads(c, ss, ls) && ss[0] == Init(ss[0].now)
  }

  lemma {:induction false} InvAlong(c: Config, ss: seq<State>, ls: seq<Step>, k: nat)
    requires 1 <= c.threshold && Leads(c, ss, ls) && Inv(c, ss[0]) && k < |ss|
    ensures Inv(c, ss[k])
  {
    if k > 0 {
      InvAlong(c, ss, ls, k - 1);
      StepKeeps(c, ss[k - 1], ls[k - 1]);
    }
  }

  /** In every state of every run: the permits out of a semaphore are the runs inside
      its guarded section, never more than the limit; every breaker admission was
      reported exactly once or its run is still in flight; a half-open breaker waits
      for exactly one live run. */
  lemma ControlsNeverAbandoned(c: Config, ss: seq<State>, ls: seq<Step>, k: nat)
    requires Behaviour(c, ss, ls) && k < |ss|
    ensures Inv(c, ss[k])
  {
    assert Inv(c, ss[0]);
    InvAlong(c, ss, ls, k);
  }
}
