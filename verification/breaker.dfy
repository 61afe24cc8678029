/** The per-URL circuit breaker: its three methods as functions of its fields, the
    class that updates the fields in place, and what every sequence of calls obeys. */
module Breaker {
  import opened Domain

  datatype Phase = Closed | Open | HalfOpen

  datatype Fields = Fields(
    phase: Phase,
    failures: int,
    lastOpened: Time,
    generation: int,
    probing: bool,
    threshold: int,
    resetTimeout: Time)

  function New(threshold: int, resetTimeout: Time): Fields {
    Fields(Closed, 0, 0, 0, false, threshold, resetTimeout)
  }

  /** Whether a request may proceed, and the token to report with. */
  function Allow(b: Fields, now: Time): (Fields, bool, int) {
    match b.phase
    case Closed => (b, true, b.generation)
    case Open =>
      if now - b.lastOpened > b.resetTimeout && !b.probing then
        (b.(phase := HalfOpen, probing := true, generation := b.generation + 1), true, b.generation + 1)
      else (b, false, 0)
    case HalfOpen => (b, false, 0)
  }

  function RecordSuccess(b: Fields, token: int): Fields {
    if b.generation != token then b
    else if b.phase.HalfOpen? then b.(phase := Closed, probing := false, failures := 0)
    else b.(failures := 0)
  }

  function RecordFailure(b: Fields, token: int, now: Time): Fields {
    if b.generation != token then b
    else if b.phase.HalfOpen? then
      b.(lastOpened := now, phase := Open, generation := b.generation + 1, probing := false)
    else if b.failures + 1 >= b.threshold then
      if b.phase.Closed? then
        b.(failures := b.failures + 1, lastOpened := now, phase := Open, generation := b.generation + 1)
      else b.(failures := b.failures + 1, lastOpened := now)
    else b.(failures := b.failures + 1)
  }

  class CircuitBreaker {
    var phase: Phase
    var failures: int
    var lastOpened: Time
    var generation: int
    var probing: bool
    const threshold: int
    const resetTimeout: Time

    function Value(): Fields
      reads this
    {
      Fields(phase, failures, lastOpened, generation, probing, threshold, resetTimeout)
    }

    constructor (threshold: int, resetTimeout: Time)
      ensures Value() == New(threshold, resetTimeout)
    {
      this.threshold, this.resetTimeout := threshold, resetTimeout;
      phase, failures, lastOpened, generation, probing := Closed, 0, 0, 0, false;
    }

    method TryAllow(now: Time) returns (ok: bool, token: int)
      modifies this
      ensures (Value(), ok, token) == Allow(old(Value()), now)
      ensures ok ==> token == generation
      ensures ok && old(phase).Open? ==> phase.HalfOpen? && now - lastOpened > resetTimeout
    {
      if phase.Closed? { return true, generation; }
      if phase.Open? {
        var elapsed := now - lastOpened;
        if elapsed > resetTimeout && !probing {
          probing := true;
          phase := HalfOpen;
          generation := generation + 1;
          return true, generation;
        }
      }
      return false, 0;
    }

    method Succeeded(token: int)
      modifies this
      ensures Value() == RecordSuccess(old(Value()), token)
      ensures token != old(generation) ==> Value() == old(Value())
    {
      if generation != token { return; }
      if phase.HalfOpen? {
        phase := Closed;
        probing := false;
      }
      failures := 0;
    }

    method Failed(token: int, now: Time)
      modifies this
      ensures Value() == RecordFailure(old(Value()), token, now)
      ensures token != old(generation) ==> Value() == old(Value())
    {
      if generation != token { return; }
      if phase.HalfOpen? {
        lastOpened := now;
        phase := Open;
        generation := generation + 1;
        probing := false;
        return;
      }
      failures := failures + 1;
      if failures >= threshold {
        lastOpened := now;
        if phase.Closed? {
          phase := Open;
          generation := generation + 1;
        }
      }
    }
  }

  // ---- any sequence of calls --------------------------------------------------------

  datatype Call = AllowAt(now: Time) | SuccessOf(token: int) | FailureOf(token: int, now: Time)

  function Do(b: Fields, c: Call): Fields {
    match c
    case AllowAt(now) => Allow(b, now).0
    case SuccessOf(token) => RecordSuccess(b, token)
    case FailureOf(token, now) => RecordFailure(b, token, now)
  }

  /** The breaker after the calls. */
  function Run(b: Fields, calls: seq<Call>): Fields {
    if calls == [] then b else Do(Run(b, calls[..|calls| - 1]), calls[|calls| - 1])
  }

  /** The result carries the token of the generation it arrives in. */
  predicate Current(b: Fields, c: Call) {
    !c.AllowAt? && c.token == b.generation
  }

  /** Current failures since the last current success or the last new generation. */
  function Streak(b: Fields, calls: seq<Call>): nat {
    if calls == [] then 0
    else
      var before := Run(b, calls[..|calls| - 1]);
      var c := calls[|calls| - 1];
      var streak := Streak(b, calls[..|calls| - 1]);
      if Do(before, c).generation != before.generation then 0
      else if !Current(before, c) then streak
      else if c.SuccessOf? then 0
      else streak + 1
  }

  /** A probe was admitted and nobody has reported with its token. */
  predicate ProbeOut(b: Fields, calls: seq<Call>) {
    calls != [] &&
    var before := Run(b, calls[..|calls| - 1]);
    var c := calls[|calls| - 1];
    IsProbe(before, c) || (ProbeOut(b, calls[..|calls| - 1]) && !Current(before, c))
  }

  /** The call is a probe admission. */
  predicate IsProbe(before: Fields, c: Call) {
    c.AllowAt? && before.phase.Open? && Allow(before, c.now).1
  }

  predicate Sane(b: Fields) {
    && (b.phase.HalfOpen? <==> b.probing)
    && (b.phase.Closed? ==> 0 <= b.failures < b.threshold)
  }

  /** Closed counts the current failures and stays below the threshold; half-open is
      exactly the time a probe is out. */
  lemma {:induction false} BreakerRefines(threshold: int, reset: Time, calls: seq<Call>)
    requires 1 <= threshold
    ensures var b := Run(New(threshold, reset), calls);
            && Sane(b) && b.threshold == threshold && b.resetTimeout == reset && 0 <= b.generation
            && (b.phase.Closed? ==> b.failures == Streak(New(threshold, reset), calls))
            && (b.phase.HalfOpen? <==> ProbeOut(New(threshold, reset), calls))
  {
    if calls != [] {
      BreakerRefines(threshold, reset, calls[..|calls| - 1]);
    }
  }

  /** A closed breaker leaves Closed exactly at the current failure that completes
      the threshold. */
  lemma OpensExactly(threshold: int, reset: Time, calls: seq<Call>, c: Call)
    requires 1 <= threshold && Run(New(threshold, reset), calls).phase.Closed?
    ensures var b := Run(New(threshold, reset), calls);
            !Run(New(threshold, reset), calls + [c]).phase.Closed? <==>
              c.FailureOf? && Current(b, c) && Streak(New(threshold, reset), calls) + 1 == threshold
  {
    BreakerRefines(threshold, reset, calls);
    assert (calls + [c])[..|calls|] == calls;
  }

  /** It admits when closed, and as a probe once the reset timeout has passed. */
  lemma AdmitsExactly(threshold: int, reset: Time, calls: seq<Call>, now: Time)
    requires 1 <= threshold
    ensures var b := Run(New(threshold, reset), calls);
            && (Allow(b, now).1 <==> b.phase.Closed? || (b.phase.Open? && now - b.lastOpened > reset))
            && (Allow(b, now).1 ==> Allow(b, now).2 == Allow(b, now).0.generation)
  {
    BreakerRefines(threshold, reset, calls);
  }

  // ---- what a report brings about -----------------------------------------------------------

  lemma RunOn(b: Fields, calls: seq<Call>, c: Call)
    ensures Run(b, calls + [c]) == Do(Run(b, calls), c)
  {
    assert (calls + [c])[..|calls|] == calls;
  }

  /** A failed probe keeps everybody out for another reset timeout. */
  lemma FailedProbeReopens(threshold: int, reset: Time, calls: seq<Call>, token: int, now: Time, later: Time)
    requires 1 <= threshold && Run(New(threshold, reset), calls).phase.HalfOpen?
    requires token == Run(New(threshold, reset), calls).generation
    ensures Allow(Run(New(threshold, reset), calls + [FailureOf(token, now)]), later).1 <==> later - now > reset
  {
    BreakerRefines(threshold, reset, calls);
    RunOn(New(threshold, reset), calls, FailureOf(token, now));
  }

  /** A successful probe lets everybody in at once, with a clean count. */
  lemma SuccessfulProbeCloses(threshold: int, reset: Time, calls: seq<Call>, token: int, later: Time)
    requires 1 <= threshold && Run(New(threshold, reset), calls).phase.HalfOpen?
    requires token == Run(New(threshold, reset), calls).generation
    ensures var after := calls + [SuccessOf(token)];
            Allow(Run(New(threshold, reset), after), later).1 && Run(New(threshold, reset), after).failures == 0
  {
    RunOn(New(threshold, reset), calls, SuccessOf(token));
  }

  /** The failure that completes the threshold keeps everybody out for the reset timeout;
      one before it keeps nobody out. */
  lemma FailureWhileClosed(threshold: int, reset: Time, calls: seq<Call>, token: int, now: Time, later: Time)
    requires 1 <= threshold && Run(New(threshold, reset), calls).phase.Closed?
    requires token == Run(New(threshold, reset), calls).generation
    ensures var b0 := New(threshold, reset);
            Allow(Run(b0, calls + [FailureOf(token, now)]), later).1 <==>
              Streak(b0, calls) + 1 < threshold || later - now > reset
  {
    BreakerRefines(threshold, reset, calls);
    RunOn(New(threshold, reset), calls, FailureOf(token, now));
  }

  /** Current failures outside half-open since the last current success. */
  function Tally(b: Fields, calls: seq<Call>): nat {
    if calls == [] then 0
    else
      var rest, c := calls[..|calls| - 1], calls[|calls| - 1];
      if !Current(Run(b, rest), c) then Tally(b, rest)
      else if c.SuccessOf? then 0
      else if ProbeOut(b, rest) then Tally(b, rest)
      else Tally(b, rest) + 1
  }

  lemma {:induction false} FailuresAreTally(threshold: int, reset: Time, calls: seq<Call>)
    requires 1 <= threshold
    ensures Run(New(threshold, reset), calls).failures == Tally(New(threshold, reset), calls)
  {
    if calls != [] {
      FailuresAreTally(threshold, reset, calls[..|calls| - 1]);
      BreakerRefines(threshold, reset, calls[..|calls| - 1]);
    }
  }

  /** While open, a report with the current token never lets anybody in; a failure puts
      off the next probe exactly when the tally is at the threshold again. */
  lemma ReportWhileOpen(threshold: int, reset: Time, calls: seq<Call>, c: Call, later: Time)
    requires 1 <= threshold && Run(New(threshold, reset), calls).phase.Open?
    requires Current(Run(New(threshold, reset), calls), c)
    ensures var b0 := New(threshold, reset);
            Allow(Run(b0, calls + [c]), later).1 <==>
              if c.FailureOf? && threshold <= Tally(b0, calls) + 1 then later - c.now > reset
              else Allow(Run(b0, calls), later).1
  {
    FailuresAreTally(threshold, reset, calls);
    BreakerRefines(threshold, reset, calls);
    RunOn(New(threshold, reset), calls, c);
  }

  // ---- stale reports ------------------------------------------------------------------

  /** Over any stretch of calls the generation never goes back. */
  lemma {:induction false} GenerationsGrow(b: Fields, calls: seq<Call>, i: nat, j: nat)
    requires i <= j <= |calls|
    ensures Run(b, calls[..i]).generation <= Run(b, calls[..j]).generation
    decreases j
  {
    if i < j {
      GenerationsGrow(b, calls, i, j - 1);
      assert calls[..j][..j - 1] == calls[..j - 1];
    }
  }

  /** The call is an admission with this token. */
  predicate Admits(before: Fields, c: Call, token: int) {
    c.AllowAt? && Allow(before, c.now).1 && Allow(before, c.now).2 == token
  }

  /** A token whose generation has passed is dead for good: reporting with it changes
      nothing at any later call. */
  lemma StaleForGood(b: Fields, calls: seq<Call>, i: nat, k: nat, j: nat, token: int)
    requires i < k <= j < |calls| && Admits(Run(b, calls[..i]), calls[i], token)
    requires Run(b, calls[..k]).generation != token
    requires !calls[j].AllowAt? && calls[j].token == token
    ensures Run(b, calls[..j + 1]) == Run(b, calls[..j])
  {
    assert calls[..i + 1][..i] == calls[..i] && calls[..j + 1][..j] == calls[..j];
    GenerationsGrow(b, calls, i + 1, k);
    GenerationsGrow(b, calls, k, j);
  }

  /** The calls without the reports that arrived after their generation. */
  function Timely(b: Fields, calls: seq<Call>): seq<Call> {
    if calls == [] then []
    else
      var rest, c := calls[..|calls| - 1], calls[|calls| - 1];
      Timely(b, rest) + (if c.AllowAt? || Current(Run(b, rest), c) then [c] else [])
  }

  /** Leaving out every stale report leaves the breaker where it was. */
  lemma {:induction false} StaleReportsAreVoid(b: Fields, calls: seq<Call>)
    ensures Run(b, Timely(b, calls)) == Run(b, calls)
  {
    if calls != [] {
      var rest, c := calls[..|calls| - 1], calls[|calls| - 1];
      StaleReportsAreVoid(b, rest);
      assert Timely(b, rest) + [] == Timely(b, rest);
      assert (Timely(b, rest) + [c])[..|Timely(b, rest)|] == Timely(b, rest);
    }
  }

  // ---- the distance between probes -----------------------------------------------------

  /** The clock readings of the calls never go back. */
  predicate Ordered(calls: seq<Call>) {
    forall i, j :: 0 <= i <= j < |calls| && !calls[i].SuccessOf? && !calls[j].SuccessOf? ==> calls[i].now <= calls[j].now
  }

  /** After a probe at `t` the breaker stays clear of Open, or reopened at or after `t`. */
  predicate Since(b: Fields, t: Time) {
    b.phase.Open? ==> t <= b.lastOpened
  }

  lemma {:induction false} ReopenedLater(threshold: int, reset: Time, calls: seq<Call>, i: nat, k: nat)
    requires 1 <= threshold && Ordered(calls) && i < k <= |calls|
    requires IsProbe(Run(New(threshold, reset), calls[..i]), calls[i])
    ensures Since(Run(New(threshold, reset), calls[..k]), calls[i].now)
    decreases k
  {
    var b0 := New(threshold, reset);
    assert calls[..k][..k - 1] == calls[..k - 1];
    BreakerRefines(threshold, reset, calls[..k - 1]);
    if k > i + 1 {
      ReopenedLater(threshold, reset, calls, i, k - 1);
    }
  }

  /** Two probe admissions are more than the reset timeout apart. */
  lemma ProbesAreApart(threshold: int, reset: Time, calls: seq<Call>, i: nat, j: nat)
    requires 1 <= threshold && Ordered(calls) && i < j < |calls|
    requires IsProbe(Run(New(threshold, reset), calls[..i]), calls[i])
    requires IsProbe(Run(New(threshold, reset), calls[..j]), calls[j])
    ensures calls[j].now - calls[i].now > reset
  {
    ReopenedLater(threshold, reset, calls, i, j);
    BreakerRefines(threshold, reset, calls[..j]);
  }
}
