/** The rate limit a subscription meets: its token bucket behind the registry, which
    forgets a bucket that has been idle, or at once, and makes a full one at the next
    lookup. */
module Admission {
  import opened Arith
  import opened Domain
  import opened TokenBucket
  import R = Registry

  datatype Config = Config(rate: int, burst: int, idleTtl: Time)

  /** The bucket of one subscription, if the registry holds one, and when it was last asked
      for. */
  datatype Entry = Absent | Present(bucket: Bucket, lastUsed: Time)

  /** A lookup and its `Allow`, taken as one; a sweep; a removal. */
  datatype Event = Ask(at: Time) | Sweep(at: Time) | Reset(at: Time)

  function Found(c: Config, e: Entry, now: Time): Bucket {
    if e.Present? then e.bucket else New(c.rate, c.burst, now)
  }

  function Do(c: Config, e: Entry, ev: Event): (Entry, bool) {
    match ev
    case Ask(now) => var (b, ok) := Allow(Found(c, e, now), now); (Present(b, now), ok)
    case Sweep(now) => (if e.Present? && R.Idle(R.Slot(0, e.lastUsed), now, c.idleTtl) then Absent else e, false)
    case Reset(_) => (Absent, false)
  }

  /** The entry after the events. */
  function After(c: Config, e: Entry, events: seq<Event>): Entry {
    if events == [] then e else Do(c, After(c, e, events[..|events| - 1]), events[|events| - 1]).0
  }

  /** How many of the events were admissions. */
  function Admits(c: Config, e: Entry, events: seq<Event>): nat {
    if events == [] then 0
    else
      Admits(c, e, events[..|events| - 1])
      + (if Do(c, After(c, e, events[..|events| - 1]), events[|events| - 1]).1 then 1 else 0)
  }

  function Resets(events: seq<Event>): nat {
    if events == [] then 0 else Resets(events[..|events| - 1]) + (if events[|events| - 1].Reset? then 1 else 0)
  }

  predicate InOrder(events: seq<Event>) {
    forall i, j :: 0 <= i <= j < |events| ==> events[i].at <= events[j].at
  }

  predicate Configured(c: Config) {
    0 < c.rate && 0 < c.burst && 0 <= c.idleTtl
  }

  /** The time after which a sweep forgets a bucket is enough to fill it. */
  predicate FillsWhileIdle(c: Config) {
    SECOND * c.burst <= c.rate * (c.idleTtl + 1)
  }

  // ---- what every event keeps -----------------------------------------------------------

  predicate EntryOk(c: Config, e: Entry, t: Time) {
    e.Present? ==>
      && Valid(e.bucket) && e.bucket.maxTokens == c.burst * SCALE && e.bucket.refillRate == c.rate * SCALE
      && e.bucket.lastRefill == e.lastUsed <= t
  }

  lemma DoOk(c: Config, e: Entry, ev: Event, t: Time)
    requires Configured(c) && EntryOk(c, e, t) && t <= ev.at
    ensures EntryOk(c, Do(c, e, ev).0, ev.at)
  {
    if ev.Ask? { StepValid(Found(c, e, ev.at), ev.at); }
  }

  /** What was admitted in the window that began at `start`, and what is still there, came
      from one burst for the beginning, one for each removal, and what the time bought. */
  predicate Paid(c: Config, e: Entry, admitted: nat, bursts: int, start: Time, now: Time) {
    admitted == 0
    || match e
       case Absent =>
         SECOND * (SCALE * admitted + c.burst * SCALE) <= SECOND * bursts + (c.rate * SCALE) * (now - start)
       case Present(b, _) =>
         SECOND * (SCALE * admitted + b.tokens) <= SECOND * bursts + (c.rate * SCALE) * (b.lastRefill - start)
  }

  lemma AskPays(c: Config, e: Entry, admitted: nat, bursts: int, start: Time, t: Time, now: Time)
    requires Configured(c) && EntryOk(c, e, t) && start <= t <= now && c.burst * SCALE <= bursts
    requires Paid(c, e, admitted, bursts, start, t)
    ensures var (e', ok) := Do(c, e, Ask(now)); Paid(c, e', admitted + if ok then 1 else 0, bursts, start, now)
  {
    var b := Found(c, e, now);
    var b' := Allow(b, now).0;
    StepValid(b, now);
    StepBalance(b, now);
    Distribute(c.rate * SCALE, b.lastRefill - start, b'.lastRefill - b.lastRefill);
    Scale(c.rate * SCALE, t - start, now - start);
    Product(now - start, c.rate * SCALE);
  }

  lemma SweepPays(c: Config, e: Entry, admitted: nat, bursts: int, start: Time, t: Time, now: Time)
    requires Configured(c) && FillsWhileIdle(c) && EntryOk(c, e, t) && start <= t <= now
    requires Paid(c, e, admitted, bursts, start, t)
    ensures Paid(c, Do(c, e, Sweep(now)).0, admitted, bursts, start, now)
  {
    Scale(c.rate * SCALE, t - start, now - start);
    if e.Present? && Do(c, e, Sweep(now)).0.Absent? {
      var last := e.bucket.lastRefill;
      Scale(c.rate, c.idleTtl + 1, now - last);
      Rescaled(now - last, c.rate);
      Distribute(c.rate * SCALE, last - start, now - last);
    }
  }

  lemma ResetPays(c: Config, e: Entry, admitted: nat, bursts: int, start: Time, t: Time, now: Time)
    requires Configured(c) && EntryOk(c, e, t) && start <= t <= now
    requires Paid(c, e, admitted, bursts, start, t)
    ensures Paid(c, Absent, admitted, bursts + c.burst * SCALE, start, now)
  {
    Scale(c.rate * SCALE, t - start, now - start);
    if e.Present? { Scale(c.rate * SCALE, e.bucket.lastRefill - start, now - start); }
  }

  function Bursts(c: Config, events: seq<Event>): int {
    c.burst * SCALE * (1 + Resets(events))
  }

  lemma OneMoreBurst(m: int, r: int)
    requires 0 <= m && 0 <= r
    ensures m * (1 + r + 1) == m * (1 + r) + m && m <= m * (1 + r)
  {
  }

  lemma EventPays(c: Config, e: Entry, admitted: nat, bursts: int, start: Time, t: Time, ev: Event)
    requires Configured(c) && FillsWhileIdle(c) && EntryOk(c, e, t) && start <= t <= ev.at && c.burst * SCALE <= bursts
    requires Paid(c, e, admitted, bursts, start, t)
    ensures var (e', ok) := Do(c, e, ev);
            Paid(c, e', admitted + if ok then 1 else 0, bursts + (if ev.Reset? then c.burst * SCALE else 0), start, ev.at)
  {
    match ev
    case Ask(now) => AskPays(c, e, admitted, bursts, start, t, now);
    case Sweep(now) => SweepPays(c, e, admitted, bursts, start, t, now);
    case Reset(now) => ResetPays(c, e, admitted, bursts, start, t, now);
  }

  /** When the events have reached: the last one, or `start` if there was none. */
  function Reached(start: Time, events: seq<Event>): Time {
    if events == [] then start else events[|events| - 1].at
  }

  lemma {:induction false} WindowPays(c: Config, e: Entry, start: Time, events: seq<Event>)
    requires Configured(c) && FillsWhileIdle(c) && EntryOk(c, e, start)
    requires InOrder(events) && (events != [] ==> start <= events[0].at)
    ensures EntryOk(c, After(c, e, events), Reached(start, events)) && start <= Reached(start, events)
    ensures Paid(c, After(c, e, events), Admits(c, e, events), Bursts(c, events), start, Reached(start, events))
  {
    if events != [] {
      var rest, ev := events[..|events| - 1], events[|events| - 1];
      WindowPays(c, e, start, rest);
      var t, mid := Reached(start, rest), After(c, e, rest);
      assert t <= ev.at;
      OneMoreBurst(c.burst * SCALE, Resets(rest));
      DoOk(c, mid, ev, t);
      EventPays(c, mid, Admits(c, e, rest), Bursts(c, rest), start, t, ev);
    }
  }

  lemma {:induction false} ReachedOk(c: Config, events: seq<Event>)
    requires Configured(c) && InOrder(events)
    ensures events == [] ==> After(c, Absent, events).Absent?
    ensures events != [] ==> EntryOk(c, After(c, Absent, events), events[|events| - 1].at)
  {
    if events != [] {
      var rest, ev := events[..|events| - 1], events[|events| - 1];
      ReachedOk(c, rest);
      DoOk(c, After(c, Absent, rest), ev, if rest == [] then ev.at else rest[|rest| - 1].at);
    }
  }

  predicate Within(c: Config, admitted: nat, resets: nat, width: Time) {
    SECOND * admitted <= SECOND * (c.burst * (1 + resets)) + c.rate * width
  }

  /** The limit in a window: what it admits is at most the burst, once more for each
      removal in it, and the rate times its length. */
  ghost predicate Bounded(c: Config, before: seq<Event>, window: seq<Event>) {
    window != [] && InOrder(before + window) ==>
      Within(c, Admits(c, After(c, Absent, before), window), Resets(window), window[|window| - 1].at - window[0].at)
  }

  lemma Unscaled(admitted: int, left: int, bursts: int, rate: int, dt: Time, width: Time)
    requires SECOND * (SCALE * admitted + left) <= SECOND * (SCALE * bursts) + (rate * SCALE) * dt
    requires 0 <= left && dt <= width && 0 <= rate
    ensures SECOND * admitted <= SECOND * bursts + rate * width
  {
    Scale(rate, dt, width);
    Rescaled(dt, rate);
  }

  lemma BurstsScale(c: Config, window: seq<Event>)
    ensures Bursts(c, window) == SCALE * (c.burst * (1 + Resets(window)))
  {
  }

  lemma PaidIsBounded(c: Config, e: Entry, admitted: nat, bursts: int, start: Time, now: Time)
    requires Configured(c) && EntryOk(c, e, now) && Paid(c, e, admitted, SCALE * bursts, start, now) && start <= now && 0 <= bursts
    ensures SECOND * admitted <= SECOND * bursts + c.rate * (now - start)
  {
    if admitted == 0 {
      Product(now - start, c.rate);
    } else if e.Present? {
      Unscaled(admitted, e.bucket.tokens, bursts, c.rate, e.bucket.lastRefill - start, now - start);
    } else {
      Unscaled(admitted, c.burst * SCALE, bursts, c.rate, now - start, now - start);
    }
  }

  /** Whatever was asked, swept and removed before and within it, if an idle bucket has
      time to fill. */
  lemma BoundHolds(c: Config, before: seq<Event>, window: seq<Event>)
    requires Configured(c) && FillsWhileIdle(c)
    ensures Bounded(c, before, window)
  {
    if window != [] && InOrder(before + window) {
      var e, start := After(c, Absent, before), window[0].at;
      assert forall i :: 0 <= i < |before| ==> (before + window)[i] == before[i];
      assert forall i :: 0 <= i < |window| ==> (before + window)[|before| + i] == window[i];
      ReachedOk(c, before);
      WindowPays(c, e, start, window);
      BurstsScale(c, window);
      Product(1 + Resets(window), c.burst);
      PaidIsBounded(c, After(c, e, window), Admits(c, e, window), c.burst * (1 + Resets(window)), start, window[|window| - 1].at);
    }
  }

  // ---- a bucket forgotten too early -------------------------------------------------------

  function Asks(now: Time, n: nat): seq<Event> {
    seq(n, _ => Ask(now))
  }

  /** Asking as often as the burst allows, of a new bucket. */
  lemma {:induction false} AsksAdmitted(c: Config, now: Time, n: nat)
    requires Configured(c) && n <= c.burst
    ensures Admits(c, Absent, Asks(now, n)) == n && Resets(Asks(now, n)) == 0
    ensures After(c, Absent, Asks(now, n)) ==
            if n == 0 then Absent else Present(New(c.rate, c.burst, now).(tokens := SCALE * (c.burst - n)), now)
  {
    if n > 0 {
      AsksAdmitted(c, now, n - 1);
      assert Asks(now, n)[..n - 1] == Asks(now, n - 1);
    }
  }

  lemma LastOff<T>(a: seq<T>, b: seq<T>)
    requires b != []
    ensures (a + b)[..|a + b| - 1] == a + b[..|b| - 1] && (a + b)[|a + b| - 1] == b[|b| - 1]
  {
  }

  lemma {:induction false} RunSplits(c: Config, e: Entry, a: seq<Event>, b: seq<Event>)
    ensures After(c, e, a + b) == After(c, After(c, e, a), b)
    ensures Admits(c, e, a + b) == Admits(c, e, a) + Admits(c, After(c, e, a), b)
  {
    if b == [] {
      assert a + b == a;
    } else {
      RunSplits(c, e, a, b[..|b| - 1]);
      LastOff(a, b);
    }
  }

  lemma {:induction false} ResetsAdd(a: seq<Event>, b: seq<Event>)
    ensures Resets(a + b) == Resets(a) + Resets(b)
  {
    if b == [] {
      assert a + b == a;
    } else {
      ResetsAdd(a, b[..|b| - 1]);
      LastOff(a, b);
    }
  }

  /** A burst, an event that makes the registry forget the bucket, and a burst again. */
  function TwoBursts(c: Config, forget: Event): seq<Event>
    requires 0 < c.burst
  {
    Asks(0, c.burst) + [forget] + Asks(forget.at, c.burst)
  }

  lemma TwoBurstsAdmitted(c: Config, forget: Event)
    requires Configured(c) && 0 <= forget.at
    requires forget.Reset? || forget == Sweep(c.idleTtl + 1)
    ensures var w := TwoBursts(c, forget);
            && w != [] && InOrder(w) && w[0].at == 0 && w[|w| - 1].at == forget.at
            && Admits(c, Absent, w) == 2 * c.burst && Resets(w) == if forget.Reset? then 1 else 0
  {
    var first, second := Asks(0, c.burst), Asks(forget.at, c.burst);
    AsksAdmitted(c, 0, c.burst);
    AsksAdmitted(c, forget.at, c.burst);
    RunSplits(c, Absent, first, [forget]);
    RunSplits(c, Absent, first + [forget], second);
    ResetsAdd(first, [forget]);
    ResetsAdd(first + [forget], second);
    var e := After(c, Absent, first);
    assert [forget][..0] == [] && After(c, e, []) == e && Admits(c, e, []) == 0;
    assert After(c, e, [forget]) == Absent && Admits(c, e, [forget]) == 0 && Resets([forget]) == if forget.Reset? then 1 else 0;
  }

  lemma TwiceTheBurst(c: Config)
    requires 0 < c.burst && !FillsWhileIdle(c)
    ensures !Within(c, 2 * c.burst, 0, c.idleTtl + 1)
  {
  }

  lemma NothingBefore(c: Config, w: seq<Event>)
    ensures InOrder([] + w) == InOrder(w) && After(c, Absent, []) == Absent
  {
    assert [] + w == w;
  }

  lemma TooMuch(c: Config, w: seq<Event>, admitted: nat, resets: nat, width: Time)
    requires w != [] && InOrder(w) && Admits(c, Absent, w) == admitted && Resets(w) == resets
    requires w[|w| - 1].at - w[0].at == width && !Within(c, admitted, resets, width)
    ensures !Bounded(c, [], w)
  {
    NothingBefore(c, w);
  }

  /** Swept before it is full again, the bucket admits a second burst too early. */
  lemma ForgottenEarly(c: Config)
    requires Configured(c) && !FillsWhileIdle(c)
    ensures !Bounded(c, [], TwoBursts(c, Sweep(c.idleTtl + 1)))
  {
    TwoBurstsAdmitted(c, Sweep(c.idleTtl + 1));
    TwiceTheBurst(c);
    TooMuch(c, TwoBursts(c, Sweep(c.idleTtl + 1)), 2 * c.burst, 0, c.idleTtl + 1);
  }

  ghost predicate AlwaysBounded(c: Config) {
    forall before, window :: Bounded(c, before, window)
  }

  /** Sweeping leaves the limit as it is exactly if an idle bucket has time to fill. */
  lemma BoundedExactly(c: Config)
    requires Configured(c)
    ensures AlwaysBounded(c) <==> FillsWhileIdle(c)
  {
    if FillsWhileIdle(c) {
      forall before, window ensures Bounded(c, before, window) { BoundHolds(c, before, window); }
    } else {
      ForgottenEarly(c);
    }
  }

  /** A removal really brings the whole burst again, in the same instant. */
  lemma RemovalAddsBurst(c: Config)
    requires Configured(c)
    ensures var w := TwoBursts(c, Reset(0));
            InOrder(w) && w[0].at == w[|w| - 1].at && Admits(c, Absent, w) == c.burst * (1 + Resets(w)) == 2 * c.burst
  {
    TwoBurstsAdmitted(c, Reset(0));
  }
}
