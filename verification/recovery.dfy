/** The recovery scan: keyset pages of due pending rows, read while other processes
    claim, finalise and insert rows between two pages; then the rearm loop. */
module Recovery {
  import opened Domain
  import opened Keyset
  import Store

  /** What one query sees. */
  datatype Snap = Snap(now: Time, rows: map<RowId, Row>)

  /** A scanned row: its id, and the due time it had as its key. */
  predicate DueIn(s: Snap, it: Item) {
    it.id in s.rows && Due(s.rows[it.id], s.now) && s.rows[it.id].next == Some(it.key)
  }

  predicate Past(after: Option<Item>, it: Item) {
    after.Some? ==> Less(after.value, it)
  }

  function DueAfter(s: Snap, after: Option<Item>): set<Item> {
    set id | id in s.rows && Due(s.rows[id], s.now) && Past(after, Item(s.rows[id].next.value, id)) ::
      Item(s.rows[id].next.value, id)
  }

  /** ORDER BY next_retry_at, id LIMIT: the least due rows past the cursor. */
  method FindDuePending(s: Snap, limit: nat, after: Option<Item>) returns (items: seq<Item>)
    ensures Sorted(items) && |items| <= limit
    ensures forall i, j :: 0 <= i < j < |items| ==> items[i].key <= items[j].key
    ensures forall it :: it in items ==> DueIn(s, it) && Past(after, it)
    ensures forall it :: DueIn(s, it) && Past(after, it) && it !in items ==>
      |items| == limit && forall i :: 0 <= i < |items| ==> Less(items[i], it)
  {
    items := First(DueAfter(s, after), limit);
    assert forall it :: it in DueAfter(s, after) <==> DueIn(s, it) && Past(after, it);
  }

  /** The row is due at the start and nobody moves its due time during the scan. */
  ghost predicate Stable(world: seq<Snap>, it: Item) {
    forall k :: 0 <= k < |world| ==> DueIn(world[k], it)
  }

  /** Nothing but rows that some query found due. */
  ghost predicate Genuine(world: seq<Snap>, items: seq<Item>) {
    forall it :: it in items ==> exists k :: 0 <= k < |world| && DueIn(world[k], it)
  }

  function View(world: seq<Snap>, n: nat): Snap
    requires world != []
  {
    if n < |world| then world[n] else world[|world| - 1]
  }

  lemma CursorMoves(s: Snap, after: Option<Item>, last: Item)
    requires Past(after, last)
    ensures DueAfter(s, Some(last)) <= DueAfter(s, after)
    ensures DueIn(s, last) ==> last in DueAfter(s, after) && last !in DueAfter(s, Some(last))
  {
  }

  lemma AppendSorted(a: seq<Item>, b: seq<Item>)
    requires Sorted(a) && Sorted(b)
    requires a != [] ==> forall it :: it in b ==> Less(a[|a| - 1], it)
    ensures Sorted(a + b)
  {
    forall i, j | 0 <= i < j < |a + b| ensures Less((a + b)[i], (a + b)[j]) {
      if i < |a| <= j {
        assert b[j - |a|] in b && Less(a[|a| - 1], b[j - |a|]);
      }
    }
  }

  /** The paging loop. The n-th query sees the n-th state of the table; after the last
      one the table rests. Whatever the others did, a stable row is enqueued, the
      enqueued rows are in strict (due, id) order, and the loop ends. */
  method Scan(world: seq<Snap>, batch: nat) returns (enqueued: seq<Item>)
    requires world != [] && 1 <= batch
    ensures Sorted(enqueued) && Genuine(world, enqueued)
    ensures forall it :: Stable(world, it) ==> it in enqueued
  {
    enqueued := [];
    var after: Option<Item> := None;
    var n := 0;
    ghost var last := world[|world| - 1];
    while true
      invariant Sorted(enqueued) && Genuine(world, enqueued)
      invariant after.None? ==> enqueued == []
      invariant after.Some? ==> enqueued != [] && after.value == enqueued[|enqueued| - 1]
      invariant forall it :: Stable(world, it) ==> it in enqueued || Past(after, it)
      decreases if n < |world| then |world| - n else 0, DueAfter(last, after)
    {
      var s := View(world, n);
      assert exists k :: 0 <= k < |world| && s == world[k];
      var items := FindDuePending(s, batch, after);
      AppendSorted(enqueued, items);
      enqueued := enqueued + items;
      assert forall it :: Stable(world, it) ==> DueIn(s, it);
      if |items| < batch { break; }
      var cursor := items[|items| - 1];
      CursorMoves(last, after, cursor);
      after := Some(cursor);
      n := n + 1;
    }
  }

  /** Strict order and genuineness make it exactly once. */
  lemma StableExactlyOnce(world: seq<Snap>, enqueued: seq<Item>, it: Item, i: nat)
    requires Sorted(enqueued) && Genuine(world, enqueued) && Stable(world, it)
    requires i < |enqueued| && enqueued[i].id == it.id
    ensures enqueued[i] == it
    ensures forall j :: 0 <= j < |enqueued| && j != i ==> enqueued[j].id != it.id
  {
    forall j | 0 <= j < |enqueued| && enqueued[j].id == it.id ensures enqueued[j] == it {
      assert enqueued[j] in enqueued;
      var k :| 0 <= k < |world| && DueIn(world[k], enqueued[j]);
      assert DueIn(world[k], it);
    }
  }

  /** On a table at rest the scan is the sorted list of the due rows. */
  lemma QuietScanIsExact(s: Snap, enqueued: seq<Item>, it: Item)
    requires Sorted(enqueued) && Genuine([s], enqueued)
    requires forall it :: Stable([s], it) ==> it in enqueued
    ensures it in enqueued <==> DueIn(s, it)
  {
    assert DueIn(s, it) ==> Stable([s], it);
  }

  // ---- the rearm loop ------------------------------------------------------------------

  function LeaseLessRows(rows: map<RowId, Row>, now: Time, orphan: Time): set<RowId> {
    set id | id in rows && Store.LeaseLess(rows[id], now, orphan)
  }

  /** Pending, without a due time, and as old as the threshold. */
  predicate Orphaned(s: Snap, id: RowId, orphan: Time)
    requires id in s.rows
  {
    s.rows[id].status == Pending && s.rows[id].next == None && s.rows[id].created + Store.Interval(orphan) <= s.now
  }

  function Rearmed(r: Row, now: Time): Row {
    r.(next := Some(now), updated := now)
  }

  function Age(rows: map<RowId, Row>, id: RowId): Item
    requires id in rows
  {
    Item(rows[id].created, id)
  }

  predicate Distinct(ids: seq<RowId>) {
    forall i, j :: 0 <= i < j < |ids| ==> ids[i] != ids[j]
  }

  /** One batch: the oldest lease-less rows that nobody has locked, at most `limit` of
      them, get a due time. */
  method RearmBatch(s: Snap, limit: nat, orphan: Time, locked: set<RowId>) returns (t: Snap, ids: seq<RowId>)
    ensures |ids| <= limit && t.now == s.now && t.rows.Keys == s.rows.Keys
    ensures Distinct(ids)
    ensures forall id :: id in ids ==> id in LeaseLessRows(s.rows, s.now, orphan) && id !in locked
    ensures forall id :: id in ids ==> id in s.rows && Orphaned(s, id, orphan)
    ensures forall id, x :: id in s.rows && Orphaned(s, id, orphan) && id !in ids && id !in locked && x in ids ==>
      x in s.rows && s.rows[x].created <= s.rows[id].created
    ensures forall id :: id in s.rows && Orphaned(s, id, orphan) && id !in ids && id !in locked ==> |ids| == limit
    ensures forall id :: id in LeaseLessRows(s.rows, s.now, orphan) && id !in locked && id !in ids ==>
      |ids| == limit && forall x :: x in ids && x in s.rows ==> Less(Age(s.rows, x), Age(s.rows, id))
    ensures forall id :: id in s.rows ==>
      t.rows[id] == if id in ids then s.rows[id].(next := Some(s.now), updated := s.now) else s.rows[id]
  {
    var candidates := set id | id in s.rows && id in LeaseLessRows(s.rows, s.now, orphan) && id !in locked :: Age(s.rows, id);
    var items := First(candidates, limit);
    ids := seq(|items|, i requires 0 <= i < |items| => items[i].id);
    forall i | 0 <= i < |items| ensures items[i] in candidates && ids[i] in s.rows && items[i] == Age(s.rows, ids[i]) {
      assert items[i] in items;
    }
    forall id | id in LeaseLessRows(s.rows, s.now, orphan) && id !in locked && id !in ids
      ensures |ids| == limit && forall x :: x in ids && x in s.rows ==> Less(Age(s.rows, x), Age(s.rows, id))
    {
      assert Age(s.rows, id) in candidates;
      assert forall i :: 0 <= i < |items| ==> ids[i] in ids && items[i].id == ids[i];
    }
    t := Snap(s.now, map id | id in s.rows :: if id in ids then Rearmed(s.rows[id], s.now) else s.rows[id]);
  }

  /** What the other processes do before one batch: they change the table, let time
      pass, and hold some rows locked while the batch runs. */
  datatype Others = Others(change: Snap -> Snap, locked: set<RowId>)

  ghost predicate LeavesAlone(o: Others, id: RowId) {
    && id !in o.locked
    && forall s: Snap ::
         var s' := o.change(s);
         s.now <= s'.now && (id in s.rows <==> id in s'.rows) && (id in s.rows ==> s'.rows[id] == s.rows[id])
  }

  ghost predicate Undisturbed(others: seq<Others>, id: RowId) {
    forall n :: 0 <= n < |others| ==> LeavesAlone(others[n], id)
  }

  lemma {:induction false} DistinctOnce(ids: seq<RowId>, id: RowId)
    requires Distinct(ids)
    ensures multiset(ids)[id] == if id in ids then 1 else 0
  {
    if ids != [] {
      var n := |ids| - 1;
      DistinctOnce(ids[..n], id);
      assert ids == ids[..n] + [ids[n]];
    }
  }

  /** A row nobody else touches: enqueued at most once and rearmed then, if it was
      lease-less and old enough, and otherwise as it was. */
  ghost predicate Followed(s: Snap, t: Snap, enqueued: seq<RowId>, orphan: Time, id: RowId)
    requires id in s.rows
  {
    && id in t.rows && s.now <= t.now
    && if id in enqueued then
         multiset(enqueued)[id] == 1 && Store.LeaseLess(s.rows[id], t.now, orphan)
         && t.rows[id].next.Some? && s.now <= t.rows[id].next.value <= t.now
         && t.rows[id] == Rearmed(s.rows[id], t.rows[id].next.value)
       else t.rows[id] == s.rows[id]
  }

  /** One round of the loop, for one row nobody else touches. */
  lemma RoundFollows(s: Snap, t: Snap, u: Snap, v: Snap, enqueued: seq<RowId>, ids: seq<RowId>, orphan: Time, id: RowId)
    requires id in s.rows && Followed(s, t, enqueued, orphan, id)
    requires t.now <= u.now == v.now && id in u.rows && u.rows[id] == t.rows[id]
    requires Distinct(ids) && (id in ids ==> id in LeaseLessRows(u.rows, u.now, orphan))
    requires id in v.rows && v.rows[id] == if id in ids then Rearmed(u.rows[id], u.now) else u.rows[id]
    ensures Followed(s, v, enqueued + ids, orphan, id)
  {
    DistinctOnce(ids, id);
    assert multiset(enqueued + ids) == multiset(enqueued) + multiset(ids);
    assert multiset(enqueued)[id] == 0 <==> id !in enqueued;
  }

  /** The loop ends, and of the rows nobody else touches it enqueues exactly once each
      that was lease-less and old enough, whatever happens to the other rows. */
  method RearmAll(s: Snap, others: seq<Others>, batch: nat, orphan: Time) returns (t: Snap, enqueued: seq<RowId>)
    requires 1 <= batch
    ensures others == [] ==> t.now == s.now
    ensures forall id :: id in s.rows && Undisturbed(others, id) ==> Followed(s, t, enqueued, orphan, id)
    ensures forall id :: id in LeaseLessRows(s.rows, s.now, orphan) && Undisturbed(others, id) ==> id in enqueued
  {
    t, enqueued := s, [];
    var n := 0;
    while true
      invariant others == [] ==> t.now == s.now
      invariant forall id :: id in s.rows && Undisturbed(others, id) ==> Followed(s, t, enqueued, orphan, id)
      decreases if n < |others| then |others| - n else 0, LeaseLessRows(t.rows, t.now, orphan)
    {
      var u := if n < |others| then others[n].change(t) else t;
      var locked := if n < |others| then others[n].locked else {};
      var v, ids := RearmBatch(u, batch, orphan, locked);
      forall id | id in s.rows && Undisturbed(others, id)
        ensures Followed(s, v, enqueued + ids, orphan, id) && id !in locked
        ensures id in LeaseLessRows(s.rows, s.now, orphan) && id !in enqueued ==> id in LeaseLessRows(u.rows, u.now, orphan)
      {
        assert n < |others| ==> LeavesAlone(others[n], id);
        RoundFollows(s, t, u, v, enqueued, ids, orphan, id);
      }
      if |ids| == batch { assert ids[0] in LeaseLessRows(u.rows, u.now, orphan) && ids[0] !in LeaseLessRows(v.rows, v.now, orphan); }
      t, enqueued := v, enqueued + ids;
      if |ids| < batch { break; }
      n := n + 1;
    }
  }
}
