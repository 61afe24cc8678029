/** How often an attempt goes out. Every HTTP request made for a row is accounted for:
    its run is still on the way to its write, was lost there, or wrote; and with leases
    kept at most one run of a row gets that far. */
module Sends {
  import Arith
  import opened Domain
  import opened Program
  import opened Lifecycle
  import opened Theorems
  import Store

  // ---- counting ---------------------------------------------------------------------------

  /** The run has sent its request and has not made its write. */
  predicate Sent(pc: Pc) {
    pc.Answered? || pc.Settling?
  }

  function Unwritten(ws: Workers, id: RowId): set<nat> {
    set w | w in ws && Sent(ws[w]) && ws[w].log.id == id
  }

  predicate ActsFor(s: State, step: Step, id: RowId) {
    step.Act? && step.w in s.workers && s.workers[step.w].log.id == id
  }

  /** The step is a request for the row. */
  function SendAt(s: State, step: Step, id: RowId): nat {
    if ActsFor(s, step, id) && step.a.Send? then 1 else 0
  }

  /** The step is the write that follows a request. */
  function WriteAt(s: State, step: Step, id: RowId): nat {
    if ActsFor(s, step, id) && s.workers[step.w].Settling? && step.a.Write? && step.a.done then 1 else 0
  }

  /** Runs lost between their request and their write: the database failed, or they
      crashed. */
  function LostAt(s: State, step: Step, id: RowId): nat {
    if step.Crash? then |Unwritten(s.workers, id) * step.gone|
    else if ActsFor(s, step, id) && s.workers[step.w].Settling? && step.a.Write? && !step.a.done then 1
    else 0
  }

  function SendCount(ss: seq<State>, ls: seq<Step>, k: nat, id: RowId): nat
    requires k <= |ls| <= |ss|
  {
    if k == 0 then 0 else SendCount(ss, ls, k - 1, id) + SendAt(ss[k - 1], ls[k - 1], id)
  }

  function WriteCount(ss: seq<State>, ls: seq<Step>, k: nat, id: RowId): nat
    requires k <= |ls| <= |ss|
  {
    if k == 0 then 0 else WriteCount(ss, ls, k - 1, id) + WriteAt(ss[k - 1], ls[k - 1], id)
  }

  function LostCount(ss: seq<State>, ls: seq<Step>, k: nat, id: RowId): nat
    requires k <= |ls| <= |ss|
  {
    if k == 0 then 0 else LostCount(ss, ls, k - 1, id) + LostAt(ss[k - 1], ls[k - 1], id)
  }

  // ---- every request is accounted for -------------------------------------------------------

  lemma UnwrittenMoved(ws: Workers, w: nat, next: Option<Pc>, id: RowId)
    requires w in ws
    ensures var u := Unwritten(ws, id) - {w};
            Unwritten(Moved(ws, w, next), id) ==
              if next.Some? && Sent(next.value) && next.value.log.id == id then u + {w} else u
  {
  }

  lemma SentMoves(pc: Pc, a: Action)
    requires Calls(pc, a)
    ensures Next(pc, a).Some? ==> Next(pc, a).value.log == pc.log
    ensures Next(pc, a).Some? && Sent(Next(pc, a).value) <==> pc.Sending? || pc.Answered?
  {
  }

  lemma MoveBalance(ws: Workers, w: nat, a: Action, id: RowId)
    requires w in ws && Calls(ws[w], a)
    ensures |Unwritten(Moved(ws, w, Next(ws[w], a)), id)| + (if ws[w].Settling? && ws[w].log.id == id then 1 else 0)
            == |Unwritten(ws, id)| + (if ws[w].Sending? && ws[w].log.id == id then 1 else 0)
  {
    SentMoves(ws[w], a);
    UnwrittenMoved(ws, w, Next(ws[w], a), id);
    Arith.MovedCard(Unwritten(ws, id), w);
    Arith.MovedCard(Unwritten(ws, id) - {w}, w);
    assert w in Unwritten(ws, id) <==> Sent(ws[w]) && ws[w].log.id == id;
  }

  lemma CrashBalance(ws: Workers, gone: set<nat>, id: RowId)
    ensures |Unwritten(ws - gone, id)| + |Unwritten(ws, id) * gone| == |Unwritten(ws, id)|
  {
    assert Unwritten(ws - gone, id) == Unwritten(ws, id) - gone;
    Arith.SplitCard(Unwritten(ws, id), gone);
  }

  lemma QuietStep(c: Config, s: State, step: Step, id: RowId)
    requires Enabled(c, s, step) && !step.Act? && !step.Crash?
    ensures Unwritten(Apply(c, s, step).workers, id) == Unwritten(s.workers, id)
  {
  }

  lemma StepBalance(c: Config, s: State, step: Step, id: RowId)
    requires Enabled(c, s, step)
    ensures |Unwritten(Apply(c, s, step).workers, id)| + LostAt(s, step, id) + WriteAt(s, step, id)
            == |Unwritten(s.workers, id)| + SendAt(s, step, id)
  {
    if step.Act? {
      MoveBalance(s.workers, step.w, step.a, id);
    } else if step.Crash? {
      CrashBalance(s.workers, step.gone, id);
    } else {
      QuietStep(c, s, step, id);
    }
  }

  /** In every state of every run, the requests made for a row are the runs on their way
      to the write, those lost there, and those that wrote. */
  lemma {:induction false} SendsAccounted(c: Config, ss: seq<State>, ls: seq<Step>, k: nat, id: RowId)
    requires Behaviour(c, ss, ls) && k < |ss|
    ensures SendCount(ss, ls, k, id) ==
            |Unwritten(ss[k].workers, id)| + LostCount(ss, ls, k, id) + WriteCount(ss, ls, k, id)
  {
    if k > 0 {
      SendsAccounted(c, ss, ls, k - 1, id);
      StepBalance(c, ss[k - 1], ls[k - 1], id);
    } else {
      assert Unwritten(ss[0].workers, id) == {};
    }
  }

  // ---- at most one run gets through -----------------------------------------------------------

  /** The row is decided and nobody works on it. */
  ghost predicate Finished(s: State, id: RowId) {
    && id in s.h.book.born && !Store.IsPending(s.db, id)
    && forall w :: w in s.workers && s.workers[w].log.id == id ==> !Holding(s.workers[w])
  }

  lemma EffectStaysDecided(c: Config, s: State, pc: Pc, a: Action, id: RowId)
    requires Calls(pc, a) && id in s.h.book.born && !Store.IsPending(s.db, id)
    requires a.Write? ==> a.succ !in s.h.book.born
    ensures !Store.IsPending(Effect(c, s, pc, a).db, id)
  {
  }

  /** A row that is no longer pending never is again. */
  lemma StaysDecided(c: Config, s: State, step: Step, id: RowId)
    requires Enabled(c, s, step) && id in s.h.book.born && !Store.IsPending(s.db, id)
    ensures !Store.IsPending(Apply(c, s, step).db, id)
  {
    if step.Act? { EffectStaysDecided(c, s, s.workers[step.w], step.a, id); }
  }

  lemma HoldingComesFromClaim(pc: Pc, a: Action)
    requires Calls(pc, a) && Next(pc, a).Some? && Holding(Next(pc, a).value)
    ensures Next(pc, a).value.log == pc.log && (Holding(pc) || (a.Claim? && a.won))
  {
  }

  lemma NobodyStarts(c: Config, s: State, step: Step, id: RowId)
    requires Enabled(c, s, step) && !Store.IsPending(s.db, id)
    requires forall w :: w in s.workers && s.workers[w].log.id == id ==> !Holding(s.workers[w])
    ensures var ws := Apply(c, s, step).workers;
            forall w :: w in ws && ws[w].log.id == id ==> !Holding(ws[w])
  {
    if step.Act? {
      var pc := s.workers[step.w];
      if Next(pc, step.a).Some? && Holding(Next(pc, step.a).value) { HoldingComesFromClaim(pc, step.a); }
    }
  }

  lemma StaysFinished(c: Config, s: State, step: Step, id: RowId)
    requires Finished(s, id) && Enabled(c, s, step)
    ensures Finished(Apply(c, s, step), id)
  {
    StaysDecided(c, s, step, id);
    NobodyStarts(c, s, step, id);
    StepGrows(c, s, step);
  }

  lemma WriteDecides(c: Config, s: State, pc: Pc, a: Action)
    requires pc.Settling? && a.Write? && a.done && a.succ != pc.log.id
    ensures !Store.IsPending(Effect(c, s, pc, a).db, pc.log.id)
  {
  }

  /** The write of the only run that holds the row finishes it. */
  lemma WriteFinishes(c: Config, s: State, step: Step, id: RowId)
    requires Exclusive(s, id) && RunsOk(s.workers, s.h) && Enabled(c, s, step) && WriteAt(s, step, id) == 1
    ensures Finished(Apply(c, s, step), id)
  {
    var w, a := step.w, step.a;
    var pc := s.workers[w];
    assert RunOk(s.h, pc);
    WriteDecides(c, s, pc, a);
    StepGrows(c, s, step);
    assert Next(pc, a).value.Releasing? && Holds(s, w, id);
    var s' := Apply(c, s, step);
    forall v | v in s'.workers && s'.workers[v].log.id == id ensures !Holding(s'.workers[v]) {
      assert v != w ==> !Holds(s, v, id) && s'.workers[v] == s.workers[v];
    }
  }

  /** With every lease of the row kept, at most one write follows a request for it, and
      then the row is finished. */
  lemma {:induction false} OneWrite(c: Config, ss: seq<State>, ls: seq<Step>, k: nat, id: RowId)
    requires Behaviour(c, ss, ls) && k < |ss|
    requires forall i :: 0 <= i < k ==> Timely(ss[i], id)
    ensures WriteCount(ss, ls, k, id) == 0 || (WriteCount(ss, ls, k, id) == 1 && Finished(ss[k], id))
  {
    if k > 0 {
      OneWrite(c, ss, ls, k - 1, id);
      var s, step := ss[k - 1], ls[k - 1];
      if WriteCount(ss, ls, k - 1, id) == 1 {
        StaysFinished(c, s, step, id);
        assert WriteAt(s, step, id) == 0;
      } else if WriteAt(s, step, id) == 1 {
        LeaseExclusion(c, ss, ls, k - 1, id);
        Reached(c, ss, ls, k - 1);
        WriteFinishes(c, s, step, id);
      }
    }
  }

  lemma FewUnwritten(s: State, id: RowId)
    requires Exclusive(s, id)
    ensures |Unwritten(s.workers, id)| <= 1
    ensures Finished(s, id) ==> Unwritten(s.workers, id) == {}
  {
    var u := Unwritten(s.workers, id);
    if w :| w in u {
      forall v | v in u ensures v == w { assert Holds(s, v, id) && Holds(s, w, id); }
      assert u == {w};
    }
  }

  /** While every run that claims the row writes inside its lease, an attempt is sent once, and once
      more for each run of it that was lost between its request and its write. */
  lemma SentOnce(c: Config, ss: seq<State>, ls: seq<Step>, k: nat, id: RowId)
    requires Behaviour(c, ss, ls) && k < |ss|
    requires forall i :: 0 <= i < k ==> Timely(ss[i], id)
    ensures SendCount(ss, ls, k, id) <= 1 + LostCount(ss, ls, k, id)
  {
    SendsAccounted(c, ss, ls, k, id);
    OneWrite(c, ss, ls, k, id);
    LeaseExclusion(c, ss, ls, k, id);
    FewUnwritten(ss[k], id);
  }
}
