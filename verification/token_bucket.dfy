/** The per-subscription token bucket in fixed point: thousandths of a token. */
module TokenBucket {
  import opened Arith
  import opened Domain

  const SCALE := 1000

  datatype Bucket = Bucket(tokens: int, maxTokens: int, refillRate: int, lastRefill: Time)

  function New(ratePerSec: int, burst: int, now: Time): Bucket {
    Bucket(burst * SCALE, burst * SCALE, ratePerSec * SCALE, now)
  }

  /** Thousandths gained in `elapsed` nanoseconds, truncated. */
  function Gain(rate: int, elapsed: Time): int {
    (elapsed * rate) / SECOND
  }

  function Refill(b: Bucket, now: Time): Bucket {
    if now <= b.lastRefill then b
    else b.(tokens := Min(b.maxTokens, b.tokens + Gain(b.refillRate, now - b.lastRefill)), lastRefill := now)
  }

  function Allow(b: Bucket, now: Time): (Bucket, bool) {
    var r := Refill(b, now);
    if r.tokens >= SCALE then (r.(tokens := r.tokens - SCALE), true) else (r, false)
  }

  class TokenBucket {
    var tokens: int
    const maxTokens: int
    const refillRate: int
    var lastRefill: Time

    function Value(): Bucket
      reads this
    {
      Bucket(tokens, maxTokens, refillRate, lastRefill)
    }

    constructor (ratePerSec: int, burst: int, now: Time)
      ensures Value() == New(ratePerSec, burst, now)
    {
      tokens, maxTokens, refillRate, lastRefill := burst * SCALE, burst * SCALE, ratePerSec * SCALE, now;
    }

    method TryAllow(now: Time) returns (ok: bool)
      modifies this
      ensures (Value(), ok) == Allow(old(Value()), now)
    {
      DoRefill(now);
      if tokens >= SCALE {
        tokens := tokens - SCALE;
        return true;
      }
      return false;
    }

    method DoRefill(now: Time)
      modifies this
      ensures Value() == Refill(old(Value()), now)
    {
      var elapsed := now - lastRefill;
      if elapsed <= 0 { return; }
      tokens := Min(maxTokens, tokens + Gain(refillRate, elapsed));
      lastRefill := now;
    }
  }

  // ---- any sequence of calls ----------------------------------------------------------

  /** The bucket after calls at these times. */
  function Run(b: Bucket, times: seq<Time>): Bucket {
    if times == [] then b else Allow(Run(b, times[..|times| - 1]), times[|times| - 1]).0
  }

  /** How many of the calls were admitted. */
  function Admitted(b: Bucket, times: seq<Time>): nat {
    if times == [] then 0
    else Admitted(b, times[..|times| - 1]) + (if Allow(Run(b, times[..|times| - 1]), times[|times| - 1]).1 then 1 else 0)
  }

  predicate Ordered(times: seq<Time>) {
    forall i, j :: 0 <= i <= j < |times| ==> times[i] <= times[j]
  }

  predicate Valid(b: Bucket) {
    0 <= b.tokens <= b.maxTokens && 0 <= b.refillRate
  }

  /** Truncation loses less than one thousandth of a token per refill. */
  lemma GainTruncates(rate: int, elapsed: Time)
    requires 0 <= rate && 0 <= elapsed
    ensures 0 <= Gain(rate, elapsed)
    ensures Gain(rate, elapsed) * SECOND <= elapsed * rate < (Gain(rate, elapsed) + 1) * SECOND
  {
    Product(rate, elapsed);
  }

  lemma Product(a: int, b: int)
    requires 0 <= a && 0 <= b
    ensures 0 <= b * a
  {
  }

  lemma StepValid(b: Bucket, now: Time)
    requires Valid(b)
    ensures Valid(Allow(b, now).0) && b.lastRefill <= Allow(b, now).0.lastRefill
    ensures Allow(b, now).0.maxTokens == b.maxTokens && Allow(b, now).0.refillRate == b.refillRate
    ensures now <= Allow(b, now).0.lastRefill
  {
    if now > b.lastRefill { GainTruncates(b.refillRate, now - b.lastRefill); }
  }

  lemma {:induction false} RunValid(b: Bucket, times: seq<Time>)
    requires Valid(b)
    ensures Valid(Run(b, times)) && b.lastRefill <= Run(b, times).lastRefill
    ensures Run(b, times).maxTokens == b.maxTokens && Run(b, times).refillRate == b.refillRate
  {
    if times != [] {
      RunValid(b, times[..|times| - 1]);
      StepValid(Run(b, times[..|times| - 1]), times[|times| - 1]);
    }
  }

  /** One call: what is admitted and what remains came from what was there and what
      the elapsed time bought. */
  lemma StepBalance(b: Bucket, now: Time)
    requires Valid(b)
    ensures var (b', ok) := Allow(b, now);
            SECOND * (SCALE * (if ok then 1 else 0) + b'.tokens) <=
              SECOND * b.tokens + b.refillRate * (b'.lastRefill - b.lastRefill)
  {
    if now > b.lastRefill { GainTruncates(b.refillRate, now - b.lastRefill); }
  }

  lemma {:induction false} RunBalance(b: Bucket, times: seq<Time>)
    requires Valid(b)
    ensures SECOND * (SCALE * Admitted(b, times) + Run(b, times).tokens) <=
              SECOND * b.tokens + b.refillRate * (Run(b, times).lastRefill - b.lastRefill)
  {
    if times != [] {
      var rest := times[..|times| - 1];
      var mid := Run(b, rest);
      RunBalance(b, rest);
      RunValid(b, rest);
      StepBalance(mid, times[|times| - 1]);
      Distribute(b.refillRate, mid.lastRefill - b.lastRefill, Run(b, times).lastRefill - mid.lastRefill);
    }
  }

  lemma Distribute(k: int, x: int, y: int)
    ensures k * (x + y) == k * x + k * y
  {
  }

  /** Any window: the calls `times`, made after any earlier calls `before`, admit at
      most the burst plus the rate times the window's length. */
  lemma WindowBound(rate: int, burst: int, start: Time, before: seq<Time>, times: seq<Time>)
    requires 0 < rate && 0 < burst && times != [] && Ordered(times) && start <= times[0]
    requires forall i :: 0 <= i < |before| ==> before[i] <= times[0]
    ensures var b := Run(New(rate, burst, start), before);
            SECOND * Admitted(b, times) <= SECOND * burst + rate * (times[|times| - 1] - times[0])
  {
    var b0 := New(rate, burst, start);
    RunValid(b0, before);
    LastSeen(b0, before, times[0]);
    FirstCall(Run(b0, before), times, rate, burst);
  }

  /** The clock the bucket has seen never passes the latest call. */
  lemma {:induction false} LastSeen(b: Bucket, times: seq<Time>, t: Time)
    requires b.lastRefill <= t && forall i :: 0 <= i < |times| ==> times[i] <= t
    ensures Run(b, times).lastRefill <= t
  {
    if times != [] { LastSeen(b, times[..|times| - 1], t); }
  }

  /** The bucket as the first call of the window finds it: refilled, at most full. */
  lemma FirstCall(b: Bucket, times: seq<Time>, rate: int, burst: int)
    requires Valid(b) && times != [] && Ordered(times) && b.lastRefill <= times[0]
    requires b.maxTokens == burst * SCALE && b.refillRate == rate * SCALE
    ensures SECOND * Admitted(b, times) <= SECOND * burst + rate * (times[|times| - 1] - times[0])
  {
    var full := Refill(b, times[0]);
    if times[0] > b.lastRefill { GainTruncates(b.refillRate, times[0] - b.lastRefill); }
    SameRun(b, full, times);
    FromFull(full, times, rate, burst);
  }

  lemma FromFull(full: Bucket, times: seq<Time>, rate: int, burst: int)
    requires Valid(full) && times != [] && Ordered(times) && full.lastRefill == times[0]
    requires full.maxTokens == burst * SCALE && full.refillRate == rate * SCALE
    ensures SECOND * Admitted(full, times) <= SECOND * burst + rate * (times[|times| - 1] - times[0])
  {
    RunBalance(full, times);
    RunValid(full, times);
    LastSeen(full, times, times[|times| - 1]);
    var end := Run(full, times);
    Balance(Admitted(full, times), end.tokens, full.tokens, burst, rate, end.lastRefill - full.lastRefill,
            times[|times| - 1] - times[0]);
  }

  lemma Balance(admitted: nat, left: int, tokens: int, burst: int, rate: int, dt: Time, width: Time)
    requires SECOND * (SCALE * admitted + left) <= SECOND * tokens + (rate * SCALE) * dt
    requires 0 <= left && tokens <= burst * SCALE && dt <= width && 0 <= rate * SCALE
    ensures SECOND * admitted <= SECOND * burst + rate * width
  {
    Scale(rate, dt, width);
    assert (rate * SCALE) * dt == SCALE * (rate * dt);
  }

  /** Refilling at the time of the first call changes nothing about the calls. */
  lemma {:induction false} SameRun(b: Bucket, full: Bucket, times: seq<Time>)
    requires times != [] && full == Refill(b, times[0])
    ensures Run(full, times) == Run(b, times) && Admitted(full, times) == Admitted(b, times)
  {
    if |times| > 1 {
      SameRun(b, full, times[..|times| - 1]);
    } else {
      assert times[..0] == [];
    }
  }

  /** A refill fills the bucket, or brings what the elapsed time bought but for less than
      a thousandth of a token. */
  lemma RefillExactly(b: Bucket, now: Time)
    requires Valid(b) && b.lastRefill <= now
    ensures var r, bought := Refill(b, now), (now - b.lastRefill) * b.refillRate;
            && r.lastRefill == now && b.tokens <= r.tokens <= r.maxTokens == b.maxTokens && r.refillRate == b.refillRate
            && SECOND * (r.tokens - b.tokens) <= bought
            && (r.tokens < r.maxTokens ==> bought < SECOND * (r.tokens - b.tokens + 1))
  {
    GainTruncates(b.refillRate, now - b.lastRefill);
  }

  function At(now: Time, n: nat): seq<Time> {
    seq(n, _ => now)
  }

  /** As many calls in one instant are admitted as there are whole tokens. */
  lemma {:induction false} BurstAdmitted(b: Bucket, now: Time, n: nat)
    requires b.lastRefill == now && SCALE * n <= b.tokens
    ensures Admitted(b, At(now, n)) == n && Run(b, At(now, n)) == b.(tokens := b.tokens - SCALE * n)
  {
    if n > 0 {
      BurstAdmitted(b, now, n - 1);
      assert At(now, n)[..n - 1] == At(now, n - 1);
    }
  }

  /** A new bucket admits its whole burst at once, and no more. */
  lemma FreshBucketAdmitsBurst(rate: int, burst: nat, now: Time)
    ensures Admitted(New(rate, burst, now), At(now, burst)) == burst
    ensures !Allow(Run(New(rate, burst, now), At(now, burst)), now).1
  {
    BurstAdmitted(New(rate, burst, now), now, burst);
  }

  /** After the time `n` tokens take, they are there, if the burst allows as many. */
  lemma RefilledFor(b: Bucket, rate: int, burst: int, now: Time, n: nat)
    requires Valid(b) && b.maxTokens == burst * SCALE && b.refillRate == rate * SCALE && n <= burst
    requires b.lastRefill < now && SECOND * n <= rate * (now - b.lastRefill)
    ensures SCALE * n <= Refill(b, now).tokens
  {
    RefillExactly(b, now);
    Rescaled(now - b.lastRefill, rate);
  }

  lemma Rescaled(elapsed: int, rate: int)
    ensures elapsed * (rate * SCALE) == SCALE * (rate * elapsed)
  {
  }

  /** Left alone for the time `n` tokens take, the bucket admits `n` calls at once, if the
      burst allows as many. */
  lemma PatienceBuys(b: Bucket, rate: int, burst: int, now: Time, n: nat)
    requires Valid(b) && b.maxTokens == burst * SCALE && b.refillRate == rate * SCALE && n <= burst
    requires b.lastRefill < now && SECOND * n <= rate * (now - b.lastRefill)
    ensures Admitted(b, At(now, n)) == n
  {
    if n > 0 {
      var full := Refill(b, now);
      RefilledFor(b, rate, burst, now, n);
      SameRun(b, full, At(now, n));
      BurstAdmitted(full, now, n);
    }
  }

  /** After any earlier calls, a pause that is long enough for `n` tokens at the configured
      rate buys `n` admissions at once, up to the burst. */
  lemma PauseBuys(rate: int, burst: int, start: Time, before: seq<Time>, now: Time, n: nat)
    requires 0 < rate && 0 < burst && n <= burst
    requires start < now && forall i :: 0 <= i < |before| ==> before[i] < now
    requires SECOND * n <= rate * (now - start)
    requires forall i :: 0 <= i < |before| ==> SECOND * n <= rate * (now - before[i])
    ensures Admitted(Run(New(rate, burst, start), before), At(now, n)) == n
  {
    var b0 := New(rate, burst, start);
    RunValid(b0, before);
    LastIsSome(b0, before);
    PatienceBuys(Run(b0, before), rate, burst, now, n);
  }

  /** The last refill was at the start or at one of the calls. */
  lemma {:induction false} LastIsSome(b: Bucket, times: seq<Time>)
    ensures Run(b, times).lastRefill == b.lastRefill || Run(b, times).lastRefill in times
  {
    if times != [] { LastIsSome(b, times[..|times| - 1]); }
  }

  /** Left alone for the time one token takes, the bucket admits. */
  lemma PatienceAdmits(b: Bucket, rate: int, burst: int, now: Time)
    requires Valid(b) && b.maxTokens == burst * SCALE && b.refillRate == rate * SCALE && 0 < burst
    requires b.lastRefill < now && SECOND <= rate * (now - b.lastRefill)
    ensures Allow(b, now).1
  {
    var dt := now - b.lastRefill;
    GainTruncates(b.refillRate, dt);
    assert dt * b.refillRate == SCALE * (rate * dt);
  }

  // ---- in thousandths, by number ----------------------------------------------------------

  /** After any calls, a refill fills the bucket of 1000 thousandths per token of burst, or
      brings what the time bought at 1000 thousandths per token of the rate, but for less
      than one. */
  lemma RefillsThousandths(rate: int, burst: int, start: Time, before: seq<Time>, now: Time)
    requires 0 < rate && 0 < burst && start <= now && forall i :: 0 <= i < |before| ==> before[i] <= now
    ensures var b := Run(New(rate, burst, start), before);
            var r, bought := Refill(b, now), (now - b.lastRefill) * (1000 * rate);
            && r.lastRefill == now && b.tokens <= r.tokens <= 1000 * burst
            && SECOND * (r.tokens - b.tokens) <= bought
            && (r.tokens < 1000 * burst ==> bought < SECOND * (r.tokens - b.tokens + 1))
    ensures var b := Run(New(rate, burst, start), before);
            Allow(b, now).1 <==> 1000 <= Refill(b, now).tokens
  {
    var b0 := New(rate, burst, start);
    RunValid(b0, before);
    LastSeen(b0, before, now);
    RefillExactly(Run(b0, before), now);
  }

  /** A bucket whose looks were all refused holds what the time bought, but for less than a
      thousandth per look. */
  lemma {:induction false} RefusedGains(b: Bucket, rate: int, burst: int, looks: seq<Time>)
    requires Valid(b) && b.maxTokens == burst * SCALE && b.refillRate == rate * SCALE && 0 < burst && After(b, looks)
    requires Admitted(b, looks) == 0
    ensures var r := Run(b, looks);
            (r.lastRefill - b.lastRefill) * (rate * SCALE) <= SECOND * (r.tokens - b.tokens + |looks|)
    ensures Run(b, looks).lastRefill == if looks == [] then b.lastRefill else looks[|looks| - 1]
  {
    if looks != [] {
      var rest, now := looks[..|looks| - 1], looks[|looks| - 1];
      var mid := Run(b, rest);
      RefusedGains(b, rate, burst, rest);
      RunValid(b, rest);
      RefillExactly(mid, now);
      RefusedOnce(rate * SCALE, mid.lastRefill - b.lastRefill, now - mid.lastRefill, mid.tokens - b.tokens + |rest|,
                  Refill(mid, now).tokens - mid.tokens);
    }
  }

  lemma RefusedOnce(r: int, x: int, y: int, gained: int, more: int)
    requires x * r <= SECOND * gained && y * r < SECOND * (more + 1)
    ensures (x + y) * r <= SECOND * (gained + more + 1)
  {
  }

  lemma Bought(rate: int, dt: Time, tokens: int, n: nat)
    requires dt * (rate * SCALE) <= SECOND * (tokens + n + 1)
    requires 1_000_000_000 * (1000 + n + 1) <= rate * 1000 * dt
    ensures 1000 <= tokens
  {
    Rescaled(dt, rate);
    assert rate * 1000 * dt == 1000 * (rate * dt);
  }

  lemma HeldAdmits(b: Bucket, rate: int, burst: nat, n: nat, dt: Time, now: Time)
    requires Valid(b) && b.maxTokens == burst * SCALE && b.refillRate == rate * SCALE && 0 < burst && b.lastRefill <= now
    requires dt * (rate * SCALE) <= SECOND * (b.tokens + n)
    requires 1_000_000_000 * (1000 + n + 1) <= rate * 1000 * (dt + (now - b.lastRefill))
    ensures Allow(b, now).1
  {
    RefillExactly(b, now);
    var r := Refill(b, now);
    if r.tokens < r.maxTokens {
      RefusedOnce(rate * SCALE, dt, now - b.lastRefill, b.tokens + n, r.tokens - b.tokens);
      Bought(rate, dt + (now - b.lastRefill), r.tokens, n);
    }
  }

  lemma SpentAdmits(spent: Bucket, rate: int, burst: nat, looks: seq<Time>, now: Time)
    requires Valid(spent) && spent.maxTokens == burst * SCALE && spent.refillRate == rate * SCALE && spent.tokens == 0
    requires 0 < burst && After(spent, looks) && Run(spent, looks).lastRefill <= now && Admitted(spent, looks) == 0
    requires 1_000_000_000 * (1000 + |looks| + 1) <= rate * 1000 * (now - spent.lastRefill)
    ensures Allow(Run(spent, looks), now).1
  {
    RefusedGains(spent, rate, burst, looks);
    RunValid(spent, looks);
    var b := Run(spent, looks);
    assert b.lastRefill - spent.lastRefill + (now - b.lastRefill) == now - spent.lastRefill;
    HeldAdmits(b, rate, burst, |looks|, b.lastRefill - spent.lastRefill, now);
  }

  /** Nobody is refused for good: with the burst spent and every look since refused, a call
      is admitted as soon as the time has bought 1000 thousandths and one more for each look. */
  lemma PersistenceAdmits(rate: int, burst: nat, start: Time, looks: seq<Time>, now: Time)
    requires 0 < rate && 0 < burst && Ordered(looks) && start <= now
    requires looks != [] ==> start <= looks[0] && looks[|looks| - 1] <= now
    requires Admitted(Run(New(rate, burst, start), At(start, burst)), looks) == 0
    requires 1_000_000_000 * (1000 + |looks| + 1) <= rate * 1000 * (now - start)
    ensures Allow(Run(Run(New(rate, burst, start), At(start, burst)), looks), now).1
  {
    BurstAdmitted(New(rate, burst, start), start, burst);
    var spent := New(rate, burst, start).(tokens := 0);
    LastSeen(spent, looks, now);
    SpentAdmits(spent, rate, burst, looks, now);
  }

  /** A refill buys nothing exactly when it spans less than one thousandth's time. */
  lemma GainsNothingExactly(rate: int, elapsed: Time)
    requires 0 <= rate && 0 <= elapsed
    ensures Gain(rate, elapsed) == 0 <==> elapsed * rate < SECOND
  {
    GainTruncates(rate, elapsed);
  }

  // ---- starvation -------------------------------------------------------------------------

  /** The calls come in order and not before the bucket's last refill. */
  predicate After(b: Bucket, times: seq<Time>) {
    Ordered(times) && (times != [] ==> b.lastRefill <= times[0])
  }

  /** How long before the call the bucket was last looked at. */
  function Gap(b: Bucket, times: seq<Time>, i: nat): Time
    requires i < |times|
  {
    times[i] - if i == 0 then b.lastRefill else times[i - 1]
  }

  /** The call comes too soon to gain anything, or finds the bucket full as it started. */
  predicate GainsNothing(b: Bucket, times: seq<Time>, i: nat)
    requires i < |times|
  {
    Gap(b, times, i) * b.refillRate < SECOND || (i == 0 && b.tokens == b.maxTokens)
  }

  /** What the calls have brought in: admissions and remaining tokens over the start. */
  function Gained(b: Bucket, times: seq<Time>): int {
    SCALE * Admitted(b, times) + Run(b, times).tokens - b.tokens
  }

  lemma {:induction false} SeenLast(b: Bucket, times: seq<Time>)
    requires After(b, times) && times != []
    ensures Run(b, times).lastRefill == times[|times| - 1]
  {
    var rest := times[..|times| - 1];
    if rest != [] { SeenLast(b, rest); }
  }

  /** One call gains nothing exactly when it comes too soon or the bucket was full; it
      never loses anything, and leaves the bucket less than full. */
  lemma StepGains(b: Bucket, now: Time)
    requires Valid(b) && SCALE <= b.maxTokens && b.lastRefill <= now
    ensures var (b', ok) := Allow(b, now);
            var gain := SCALE * (if ok then 1 else 0) + b'.tokens - b.tokens;
            && 0 <= gain && b'.tokens < b'.maxTokens
            && (gain == 0 <==> (now - b.lastRefill) * b.refillRate < SECOND || b.tokens == b.maxTokens)
  {
    GainsNothingExactly(b.refillRate, now - b.lastRefill);
    GainTruncates(b.refillRate, now - b.lastRefill);
    assert now == b.lastRefill ==> (now - b.lastRefill) * b.refillRate == 0;
  }

  /** Over any calls the bucket gains nothing exactly when every single call does: when
      none of them comes a thousandth of a token's time after the one before. */
  lemma {:induction false} StarvesExactly(b: Bucket, times: seq<Time>)
    requires Valid(b) && SCALE <= b.maxTokens && After(b, times)
    ensures 0 <= Gained(b, times)
    ensures Gained(b, times) == 0 <==> forall i :: 0 <= i < |times| ==> GainsNothing(b, times, i)
    ensures times != [] ==> Run(b, times).tokens < b.maxTokens
  {
    if times != [] {
      var n := |times| - 1;
      var rest := times[..n];
      StarvesExactly(b, rest);
      RunValid(b, rest);
      if rest != [] { SeenLast(b, rest); }
      StepGains(Run(b, rest), times[n]);
      assert Gap(b, times, n) == times[n] - Run(b, rest).lastRefill;
      assert GainsNothing(b, times, n) <==>
        (times[n] - Run(b, rest).lastRefill) * b.refillRate < SECOND || Run(b, rest).tokens == b.maxTokens;
      assert forall i :: 0 <= i < n ==> (GainsNothing(b, times, i) <==> GainsNothing(b, rest, i));
    }
  }

  /** A call every 0.9 milliseconds. */
  function Eager(n: nat): seq<Time> {
    seq(n, i => 900_000 * (i + 1))
  }

  /** At one token a second and a burst of one, a caller that eager gets one admission
      however long it goes on. */
  lemma EagerCallerStarves(n: nat)
    ensures Admitted(New(1, 1, 0), Eager(n)) <= 1
  {
    var b, times := New(1, 1, 0), Eager(n);
    assert forall i :: 0 <= i < n ==> GainsNothing(b, times, i) by {
      assert forall i :: 0 <= i < n ==> Gap(b, times, i) == 900_000;
    }
    StarvesExactly(b, times);
    RunValid(b, times);
  }
}
