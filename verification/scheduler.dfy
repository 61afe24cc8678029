/** The retry schedule: a Redis sorted set of due times, and the script that moves due
    members to the work list. */
module Scheduler {
  import opened Domain
  import opened Keyset

  const MILLI: Time := 1_000_000
  const BATCH := 100

  /** `unixScore`: milliseconds, rounded down. */
  function Score(t: Time): int {
    t / MILLI
  }

  /** The sorted set lists `a` before `b`. */
  predicate Listed(zset: map<RowId, int>, a: RowId, b: RowId) {
    a in zset && b in zset && Less(Item(zset[a], a), Item(zset[b], b))
  }

  /** LPUSH of one member after the other. */
  function PushAll(queue: seq<RowId>, ids: seq<RowId>): seq<RowId> {
    if ids == [] then queue else [ids[|ids| - 1]] + PushAll(queue, ids[..|ids| - 1])
  }

  predicate DueMember(zset: map<RowId, int>, id: RowId, now: Time) {
    id in zset && 0 <= zset[id] <= Score(now)
  }

  function ScoreOf(zset: map<RowId, int>, id: RowId): int {
    if id in zset then zset[id] else 0
  }

  /** The schedule after a run that lost its claim has looked at the row again: a pending
      row that falls due later is put back. */
  function Healed(zset: map<RowId, int>, id: RowId, cur: Option<Row>, now: Time): map<RowId, int> {
    if cur.Some? && cur.value.status.Pending? && cur.value.next.Some? && now < cur.value.next.value
    then zset[id := Score(cur.value.next.value)]
    else zset
  }

  class Schedule {
    var zset: map<RowId, int>
    var queue: seq<RowId>

    /** ZADD: whatever score the member had, it is due from `at` on and not a
        millisecond before. */
    method Add(id: RowId, at: Time)
      modifies this`zset
      ensures zset == old(zset)[id := Score(at)]
      ensures zset[id] * 1_000_000 <= at < (zset[id] + 1) * 1_000_000
      ensures forall now: Time :: 0 <= at <= now ==> DueMember(zset, id, now)
      ensures forall now: Time :: now + 1_000_000 <= at ==> !DueMember(zset, id, now)
    {
      zset := zset[id := Score(at)];
    }

    /** `rescheduleIfNotDue`, after the claim of the row has been lost. */
    method RescheduleIfNotDue(id: RowId, cur: Option<Row>, now: Time)
      modifies this`zset
      ensures zset == Healed(old(zset), id, cur, now)
      ensures cur.None? || !cur.value.status.Pending? || cur.value.next.None? ==> zset == old(zset)
      ensures cur.Some? && cur.value.status.Pending? && cur.value.next.Some? ==>
        zset == if cur.value.next.value <= now then old(zset) else old(zset)[id := Score(cur.value.next.value)]
    {
      if cur.None? || !cur.value.status.Pending? || cur.value.next.None? { return; }
      if cur.value.next.value > now { Add(id, cur.value.next.value); }
    }

    /** The script: the least due members, at most a hundred, leave the set for the
        list; every other member stays as it was. */
    method ClaimDue(now: Time) returns (moved: seq<RowId>)
      modifies this
      ensures IsRange(old(zset), now, moved)
      ensures forall i, j :: 0 <= i < j < |moved| ==> ScoreOf(old(zset), moved[i]) <= ScoreOf(old(zset), moved[j])
      ensures zset == map id | id in old(zset) && id !in moved :: old(zset)[id]
      ensures queue == PushAll(old(queue), moved)
      ensures |queue| == |old(queue)| + |moved| && queue[|moved|..] == old(queue)
      ensures forall i :: 0 <= i < |moved| ==> queue[i] == moved[|moved| - 1 - i]
    {
      moved := RangeByScore(zset, now);
      for i := 0 to |moved|
        invariant zset == map id | id in old(zset) && id !in moved[..i] :: old(zset)[id]
        invariant queue == PushAll(old(queue), moved[..i])
      {
        assert moved[..i + 1] == moved[..i] + [moved[i]] && moved[..i + 1][..i] == moved[..i];
        zset := zset - {moved[i]};
        queue := [moved[i]] + queue;
      }
      assert moved[..|moved|] == moved;
      PushedInFront(old(queue), moved);
    }
  }

  /** The pushed ids stand before the old ones, the last pushed first. */
  lemma {:induction false} PushedInFront(queue: seq<RowId>, ids: seq<RowId>)
    ensures var q := PushAll(queue, ids);
            && |q| == |queue| + |ids| && q[|ids|..] == queue
            && forall i :: 0 <= i < |ids| ==> q[i] == ids[|ids| - 1 - i]
  {
    if ids != [] { PushedInFront(queue, ids[..|ids| - 1]); }
  }

  /** ZRANGEBYSCORE 0 now LIMIT 0 100: due members in order, and none left out unless
      the batch is full of sooner ones. */
  ghost predicate IsRange(zset: map<RowId, int>, now: Time, ids: seq<RowId>) {
    && |ids| <= BATCH
    && (forall id :: id in ids ==> DueMember(zset, id, now))
    && (forall i, j :: 0 <= i < j < |ids| ==> Listed(zset, ids[i], ids[j]))
    && (forall id :: DueMember(zset, id, now) && id !in ids ==>
          |ids| == BATCH && forall i :: 0 <= i < |ids| ==> Listed(zset, ids[i], id))
  }

  function DueItems(zset: map<RowId, int>, now: Time): set<Item> {
    set id | id in zset && DueMember(zset, id, now) :: Item(zset[id], id)
  }

  method RangeByScore(zset: map<RowId, int>, now: Time) returns (ids: seq<RowId>)
    ensures IsRange(zset, now, ids)
  {
    var items := First(DueItems(zset, now), BATCH);
    ids := seq(|items|, i requires 0 <= i < |items| => items[i].id);
    forall i | 0 <= i < |items| ensures DueMember(zset, ids[i], now) && items[i] == Item(zset[ids[i]], ids[i]) {
      assert items[i] in items;
    }
    forall id | DueMember(zset, id, now) && id !in ids
      ensures |ids| == BATCH && forall i :: 0 <= i < |ids| ==> Listed(zset, ids[i], id)
    {
      assert Item(zset[id], id) in DueItems(zset, now);
    }
  }

  // ---- early moves -----------------------------------------------------------------------

  /** How many due members come before this one. */
  function Ahead(zset: map<RowId, int>, now: Time, id: RowId): nat
    requires id in zset
  {
    |Sooner(DueItems(zset, now), Item(zset[id], id))|
  }

  /** What the script moves: the due members with fewer than a batch ahead of them. */
  lemma MovedExactly(zset: map<RowId, int>, now: Time, moved: seq<RowId>, id: RowId)
    requires IsRange(zset, now, moved) && id in zset
    ensures id in moved <==> 0 <= zset[id] <= now / 1_000_000 && Ahead(zset, now, id) < 100
  {
    var items := seq(|moved|, i requires 0 <= i < |moved| => assert moved[i] in moved; Item(zset[moved[i]], moved[i]));
    forall it | it in DueItems(zset, now) && it !in items
      ensures |items| == BATCH && forall i :: 0 <= i < |items| ==> Less(items[i], it)
    {
      assert forall i :: 0 <= i < |moved| ==> items[i] in items && items[i].id == moved[i];
      assert it.id !in moved;
    }
    forall i, j | 0 <= i < j < |items| ensures Less(items[i], items[j]) {
      assert Listed(zset, moved[i], moved[j]);
    }
    forall it | it in items ensures it in DueItems(zset, now) {
      var i :| 0 <= i < |items| && items[i] == it;
      assert moved[i] in moved;
    }
    assert IsFirst(DueItems(zset, now), BATCH, items);
    if DueMember(zset, id, now) {
      SelectedExactly(DueItems(zset, now), BATCH, items, Item(zset[id], id));
    }
    assert id in moved <==> Item(zset[id], id) in items by {
      assert forall i :: 0 <= i < |moved| ==> items[i].id == moved[i];
    }
  }

  /** The scores are those of the due times. */
  ghost predicate Scored(zset: map<RowId, int>, due: map<RowId, Time>) {
    forall id :: id in zset ==> id in due && zset[id] == Score(due[id])
  }

  /** No member is moved a millisecond or more before its due time. */
  lemma NeverAMilliEarly(zset: map<RowId, int>, due: map<RowId, Time>, now: Time, moved: seq<RowId>, id: RowId)
    requires Scored(zset, due) && IsRange(zset, now, moved) && id in zset && 0 <= now && now + 1_000_000 <= due[id]
    ensures id !in moved
  {
    MovedExactly(zset, now, moved, id);
  }

  /** A member that is not yet due is moved exactly when its due time lies in the
      current millisecond and the batch has room for it. */
  lemma MovedEarlyExactly(zset: map<RowId, int>, due: map<RowId, Time>, now: Time, moved: seq<RowId>, id: RowId)
    requires Scored(zset, due) && IsRange(zset, now, moved) && id in zset && 0 <= now < due[id]
    ensures id in moved <==> due[id] / 1_000_000 == now / 1_000_000 && Ahead(zset, now, id) < 100
    ensures id in moved ==> due[id] < now + 1_000_000
  {
    MovedExactly(zset, now, moved, id);
  }

  /** A row due half a millisecond from now is moved now. */
  lemma MovedEarly(moved: seq<RowId>)
    requires IsRange(map[1 := Score(5_500_000)], 5_000_000, moved)
    ensures 1 in moved && 5_000_000 < 5_500_000
  {
    var zset := map[1 := Score(5_500_000)];
    assert Sooner(DueItems(zset, 5_000_000), Item(zset[1], 1)) == {};
    MovedExactly(zset, 5_000_000, moved, 1);
  }

  // ---- healing an early move -----------------------------------------------------------------

  /** A row moved early loses its claim. The poll at or after its due time brings it back,
      for a claim that then succeeds, exactly if the row had not fallen due by the time the
      run looked again. */
  lemma HealsExactly(zset: map<RowId, int>, id: RowId, row: Row, claimAt: Time, checkAt: Time, pollAt: Time,
                     moved: seq<RowId>)
    requires row.status.Pending? && row.next.Some? && 0 <= row.next.value
    requires id !in zset && claimAt < row.next.value <= pollAt && claimAt <= checkAt
    requires var z := Healed(zset, id, Some(row), checkAt);
             IsRange(z, pollAt, moved) && |Sooner(DueItems(z, pollAt), Item(Score(row.next.value), id))| < 100
    ensures !Due(row, claimAt) && Due(row, pollAt)
    ensures id in moved <==> checkAt < row.next.value
  {
    if checkAt < row.next.value { MovedExactly(Healed(zset, id, Some(row), checkAt), pollAt, moved, id); }
  }

  /** The beginning of the millisecond the time lies in. */
  function MilliOf(t: Time): Time {
    t / 1_000_000 * 1_000_000
  }

  /** For any due time inside a millisecond: the row is moved early, loses its claim, falls
      due before the run looks again, and is then on neither schedule nor list. */
  lemma HealCanMiss(id: RowId, row: Row, moved: seq<RowId>)
    requires row.status.Pending? && row.next.Some? && 0 < row.next.value && row.next.value % 1_000_000 != 0
    requires IsRange(map[id := Score(row.next.value)], MilliOf(row.next.value), moved)
    ensures MilliOf(row.next.value) < row.next.value && !Due(row, MilliOf(row.next.value)) && id in moved
    ensures Healed(map[], id, Some(row), row.next.value) == map[]
  {
    var zset, early := map[id := Score(row.next.value)], MilliOf(row.next.value);
    assert Score(early) == Score(row.next.value);
    assert Sooner(DueItems(zset, early), Item(zset[id], id)) == {};
    MovedExactly(zset, early, moved, id);
  }
}
