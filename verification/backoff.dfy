/** `retryDelay`: capped ×3 backoff with ±20% jitter. */
module Backoff {
  import opened Arith
  import opened Domain

  function Pow3(n: nat): nat {
    if n == 0 then 1 else 3 * Pow3(n - 1)
  }

  /** Go's integer division truncates toward zero. */
  function Quotient(a: int, b: int): int
    requires 0 < b
  {
    if 0 <= a then a / b else -(-a / b)
  }

  /** The delay before jitter. */
  function Capped(attempt: int, base: Time, max: Time): Time {
    if attempt <= 1 || base <= 0 || max <= base then base else Min(base * Pow3(attempt - 1), max)
  }

  lemma {:induction false} Pow3Grows(m: nat, n: nat)
    requires m <= n
    ensures 1 <= Pow3(m) <= Pow3(n)
    decreases n
  {
    if n > 0 && m < n {
      Pow3Grows(m, n - 1);
    } else if n > 0 {
      Pow3Grows(m - 1, n - 1);
    }
  }

  lemma CapReached(base: Time, max: Time, i: nat, attempt: int)
    requires 0 < base && 1 <= i < attempt && base * Pow3(i - 1) > max / 3
    ensures max <= base * Pow3(attempt - 1)
  {
    Pow3Grows(i, attempt - 1);
    var p, q := Pow3(i), Pow3(attempt - 1);
    assert base * p <= base * q by { Scale(base, p, q); }
    assert base * p == 3 * (base * Pow3(i - 1)) by { assert p == 3 * Pow3(i - 1); }
  }

  /** The loop. It never multiplies past the cap, and it yields the closed form. */
  method Delay(attempt: int, base: Time, max: Time) returns (delay: Time)
    requires 0 < base
    ensures delay == Capped(attempt, base, max)
  {
    delay := base;
    var i := 1;
    while i < attempt && delay < max
      invariant 1 <= i && (i <= attempt || i == 1)
      invariant delay == base * Pow3(i - 1) && base <= delay && (delay <= max || i == 1)
      decreases attempt - i
    {
      if delay > Quotient(max, 3) {
        CapReached(base, max, i, attempt);
        return max;
      }
      assert base * Pow3(i) == 3 * (base * Pow3(i - 1)) by { assert Pow3(i) == 3 * Pow3(i - 1); }
      delay := delay * 3;
      i := i + 1;
    }
    if i < attempt {
      Pow3Grows(i - 1, attempt - 1);
      Scale(base, Pow3(i - 1), Pow3(attempt - 1));
    }
  }

  /** The delay with its jitter; `draw` stands for the random source. */
  function Jittered(delay: Time, draw: nat): Time {
    var jitter := Quotient(delay, 5);
    if jitter <= 0 then delay else delay - jitter + draw % (2 * jitter)
  }

  lemma SmallMod(n: nat, m: nat)
    requires n < m
    ensures n % m == n
  {
  }

  lemma JitterWithin(delay: Time, draw: nat)
    requires 0 < delay
    ensures 0 < Jittered(delay, draw) && delay - delay / 5 <= Jittered(delay, draw) <= delay + delay / 5
    ensures 5 <= delay ==> Jittered(delay, draw) < delay + delay / 5
  {
  }

  /** Every value of the range comes from some draw. */
  lemma JitterReaches(delay: Time, d: Time) returns (draw: nat)
    requires 5 <= delay && delay - delay / 5 <= d < delay + delay / 5
    ensures Jittered(delay, draw) == d
  {
    draw := d - (delay - delay / 5);
    assert draw % (2 * (delay / 5)) == draw by { SmallMod(draw, 2 * (delay / 5)); }
  }

  method RetryDelay(attempt: int, base: Time, max: Time, draw: nat) returns (d: Time)
    requires 0 < base
    ensures d == Jittered(Capped(attempt, base, max), draw)
    ensures var delay := Capped(attempt, base, max);
            0 < d && delay - delay / 5 <= d && (delay < 5 ==> d == delay) && (5 <= delay ==> d < delay + delay / 5)
    ensures base <= max ==> d <= max + max / 5
    ensures 1 <= attempt && base <= max ==> Capped(attempt, base, max) == Min(base * Pow3(attempt - 1), max)
  {
    var delay := Delay(attempt, base, max);
    if 1 <= attempt && base <= max { ClosedForm(attempt, base, max); }
    var jitter := Quotient(delay, 5);
    if jitter <= 0 { return delay; }
    d := delay - jitter + draw % (2 * jitter);
  }

  lemma ClosedForm(attempt: int, base: Time, max: Time)
    requires 0 < base <= max && 1 <= attempt
    ensures Capped(attempt, base, max) == Min(base * Pow3(attempt - 1), max)
    ensures 0 < Capped(attempt, base, max) <= max
  {
    Pow3Grows(0, attempt - 1);
    Scale(base, 1, Pow3(attempt - 1));
  }

  /** The first attempt waits the base, each further one three times as long, up to the cap. */
  lemma DelaysTriple(attempt: int, base: Time, max: Time)
    requires 0 < base <= max && 1 <= attempt
    ensures Capped(1, base, max) == base
    ensures Capped(attempt + 1, base, max) == Min(3 * Capped(attempt, base, max), max)
  {
    ClosedForm(attempt, base, max);
    ClosedForm(attempt + 1, base, max);
    assert base * Pow3(attempt) == 3 * (base * Pow3(attempt - 1)) by { assert Pow3(attempt) == 3 * Pow3(attempt - 1); }
  }

  /** A later attempt never waits less, before jitter. */
  lemma DelaysGrow(attempt: int, base: Time, max: Time)
    requires 0 < base <= max && 1 <= attempt
    ensures Capped(attempt, base, max) <= Capped(attempt + 1, base, max)
  {
    ClosedForm(attempt, base, max);
    ClosedForm(attempt + 1, base, max);
    Pow3Grows(attempt - 1, attempt);
    Scale(base, Pow3(attempt - 1), Pow3(attempt));
  }
}
