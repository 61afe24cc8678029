/** `DeliveryLogRepo`: the same transactions as statements that change the tables in
    place, in the order the repository issues them. Each is proved against its
    function in `Store`, on which the lifecycle is built. */
module Repo {
  import opened Domain
  import Store

  /** The row is in the DLQ and belongs to this webhook of this subscription. */
  predicate Claimable(r: Row, sub: SubId, hook: HookId) {
    r.inDlq && r.sub == sub && r.hook == hook
  }

  class DeliveryLogRepo {
    var now: Time
    var rows: map<RowId, Row>
    var subs: map<SubId, Sub>
    var idem: map<(SubId, string), Idem>

    function Tables(): Db
      reads this
    {
      Db(now, rows, subs, idem)
    }

    constructor (db: Db)
      ensures Tables() == db
    {
      now, rows, subs, idem := db.now, db.rows, db.subs, db.idem;
    }

    /** `UPDATE … WHERE id = $1 AND status = 'pending'`: the compare-and-set. */
    method UpdatePending(id: RowId, f: Row -> Row) returns (affected: nat)
      modifies this`rows
      ensures affected == if Store.IsPending(old(Tables()), id) then 1 else 0
      ensures rows == if affected == 1 then old(rows)[id := f(old(rows)[id])] else old(rows)
    {
      if id in rows && rows[id].status.Pending? {
        rows := rows[id := f(rows[id])];
        return 1;
      }
      return 0;
    }

    method IngestPending(p: Store.IngestParams, id: RowId) returns (r: Store.IngestResult)
      modifies this`rows, this`idem
      ensures (Tables(), r) == Store.IngestPending(old(Tables()), p, id)
      ensures r.Duplicate? ==> rows == old(rows) && idem == old(idem)
      ensures r.Refused? ==> Tables() == old(Tables())
      ensures r == Store.Refused(Store.InvalidInput) <==>
              !(p.validJson && Store.Utf8Length(p.event.url) <= 2048 && |p.event.eventType| <= 100)
      ensures r.Duplicate? <==> r != Store.Refused(Store.InvalidInput) && p.key != "" && (p.sub, p.key) in old(idem)
      ensures r.Duplicate? ==> r.hook == old(idem)[(p.sub, p.key)].hook
      ensures r == Store.Refused(Store.NotFound) ==> p.sub !in subs
      ensures r.Accepted? ==> p.sub in subs && r.hook == p.hook && r.row == id && rows == old(rows)[id := rows[id]]
      ensures r.Accepted? ==>
        var row := rows[id];
        && row.hook == p.hook && row.sub == p.sub && row.event.url == p.event.url
        && row.event.payload == p.event.payload && row.event.eventType == p.event.eventType
        && row.attempt == 1 && row.replay == 0 && row.status == Pending && !row.inDlq && row.next == Some(now)
      ensures r.Accepted? ==> idem == if p.key == "" then old(idem) else old(idem)[(p.sub, p.key) := Idem(p.hook, now)]
    {
      if !Store.ValidParams(p) { return Store.Refused(Store.InvalidInput); }
      if p.key != "" {
        if (p.sub, p.key) in idem { return Store.Duplicate(idem[(p.sub, p.key)].hook); }
        if p.sub !in subs { return Store.Refused(Store.NotFound); }
        idem := idem[(p.sub, p.key) := Idem(p.hook, now)];
      }
      if p.sub !in subs { return Store.Refused(Store.NotFound); }
      rows := rows[id := Store.FirstAttempt(p, now)];
      return Store.Accepted(p.hook, id);
    }

    method ClaimPending(id: RowId, lease: Time) returns (claimed: bool)
      modifies this`rows
      ensures (Tables(), claimed) == Store.ClaimPending(old(Tables()), id, lease)
      ensures claimed <==>
        id in old(rows) && old(rows)[id].status.Pending? && old(rows)[id].next.Some? && old(rows)[id].next.value <= now
      ensures claimed ==>
        rows == old(rows)[id := old(rows)[id].(next := Some(now + Store.Interval(lease)), updated := now)] && !Due(rows[id], now)
      ensures !claimed ==> rows == old(rows)
    {
      claimed := id in rows && Due(rows[id], now);
      if claimed {
        rows := rows[id := rows[id].(next := Some(now + Store.Interval(lease)), updated := now)];
      }
    }

    method RescheduleSamePending(id: RowId, at: Time) returns (won: bool)
      modifies this`rows
      ensures (Tables(), won) == Store.Rescheduled(old(Tables()), id, at)
      ensures won ==> rows[id].next == Some(at) && rows[id].attempt == old(rows)[id].attempt
    {
      var t := now;
      var n := UpdatePending(id, (r: Row) => r.(next := Some(at), updated := t));
      won := n == 1;
    }

    method MarkDropped(id: RowId, detail: string) returns (won: bool)
      modifies this`rows
      ensures (Tables(), won) == Store.MarkDropped(old(Tables()), id, detail)
      ensures won ==> rows[id].status.FinalFailure? && !rows[id].inDlq && rows[id].next.None?
    {
      var t := now;
      var n := UpdatePending(id, (r: Row) => r.(status := FinalFailure, inDlq := false, http := None, detail := detail,
                                                next := None, updated := t));
      won := n == 1;
    }

    method MarkSuccess(id: RowId, sub: SubId, http: int) returns (won: bool, reset: bool)
      modifies this`rows, this`subs
      ensures (Tables(), won, reset) == Store.MarkSuccess(old(Tables()), id, sub, http)
      ensures won ==> rows[id].status.Success? && rows[id].http == Some(http) && rows[id].detail == ""
      ensures won && sub in subs ==> subs[sub].failures == 0 && subs[sub].active == old(subs)[sub].active
      ensures reset <==> subs != old(subs)
      ensures !won ==> Tables() == old(Tables())
    {
      won, reset := false, false;
      var t := now;
      var n := UpdatePending(id, (r: Row) => r.(status := Success, http := Some(http), detail := "", updated := t));
      if n == 0 { return; }
      if sub in subs && subs[sub].failures != 0 {
        subs := subs[sub := subs[sub].(failures := 0)];
        reset := true;
      }
      won := true;
    }

    method FinalizeFailure(id: RowId, sub: SubId, http: Option<int>, detail: string, threshold: int)
      returns (won: bool, disabled: bool)
      modifies this`rows, this`subs
      ensures (Tables(), won, disabled) == Store.FinalizeFailure(old(Tables()), id, sub, http, detail, threshold)
      ensures won ==> rows[id].inDlq && rows[id].http == http && rows[id].detail == detail
      ensures won && sub in subs ==>
        && subs == old(subs)[sub := subs[sub]] && subs[sub].failures == old(subs)[sub].failures + 1
        && (subs[sub].active <==> old(subs)[sub].active && old(subs)[sub].failures + 1 < threshold)
      ensures disabled <==> won && sub in subs && !subs[sub].active
      ensures !won ==> Tables() == old(Tables())
    {
      won, disabled := false, false;
      var t := now;
      var n := UpdatePending(id, (r: Row) => r.(status := FinalFailure, inDlq := true, http := http, detail := detail,
                                                updated := t));
      if n == 0 { return; }
      if sub in subs {
        subs := subs[sub := Store.Bumped(subs[sub], threshold)];
        disabled := !subs[sub].active;
      }
      won := true;
    }

    method FailAndScheduleRetry(id: RowId, http: Option<int>, detail: string, at: Time, succ: RowId) returns (won: bool)
      requires succ !in rows
      modifies this`rows
      ensures (Tables(), won) == Store.FailAndScheduleRetry(old(Tables()), id, http, detail, at, succ)
      ensures won ==> rows[id].status.FailedAttempt? && rows[id].http == http && rows[id].detail == detail
      ensures won ==>
        var was, row := old(rows)[id], rows[succ];
        && succ in rows && row.hook == was.hook && row.sub == was.sub && row.event == was.event
        && row.replay == was.replay && row.attempt == was.attempt + 1 && row.next == Some(at)
        && row.status == Pending && !row.inDlq && row.http == None && row.detail == "" && row.created == now
    {
      var t := now;
      var n := UpdatePending(id, (r: Row) => r.(status := FailedAttempt, http := http, detail := detail, updated := t));
      if n == 0 { return false; }
      rows := rows[succ := Store.Successor(rows[id], at, now)];
      return true;
    }

    /** The first row the update returned, if any; the update clears every match. */
    method AckDlq(sub: SubId, hook: HookId) returns (claimed: Option<RowId>)
      modifies this`rows
      ensures Tables() == Store.AckDlq(old(Tables()), sub, hook)
      ensures claimed.None? <==> Store.DlqOf(old(Tables()), sub, hook) == {}
      ensures claimed.Some? ==> claimed.value in Store.DlqOf(old(Tables()), sub, hook)
      ensures claimed.Some? <==> exists id :: id in old(rows) && Claimable(old(rows)[id], sub, hook)
      ensures claimed.Some? ==> claimed.value in old(rows) && Claimable(old(rows)[claimed.value], sub, hook)
      ensures rows.Keys == old(rows).Keys
      ensures forall id :: id in rows ==>
        rows[id] == if Claimable(old(rows)[id], sub, hook) then old(rows)[id].(inDlq := false, updated := now) else old(rows)[id]
    {
      var matched := Store.DlqOf(Tables(), sub, hook);
      assert forall id :: id in matched <==> id in rows && Claimable(rows[id], sub, hook);
      rows := Store.Unflag(rows, matched, now);
      if matched == {} { return None; }
      var id :| id in matched;
      return Some(id);
    }

    method ReplayDlq(sub: SubId, hook: HookId, newId: RowId) returns (claimed: Option<RowId>)
      requires newId !in rows
      modifies this`rows
      ensures claimed.None? <==> Store.DlqOf(old(Tables()), sub, hook) == {}
      ensures claimed.None? ==> Tables() == old(Tables())
      ensures claimed.Some? ==>
        claimed.value in Store.DlqOf(old(Tables()), sub, hook)
        && Tables() == Store.ReplayDlq(old(Tables()), sub, hook, claimed.value, newId)
      ensures claimed.Some? <==> exists id :: id in old(rows) && Claimable(old(rows)[id], sub, hook)
      ensures claimed.Some? ==> claimed.value in old(rows) && Claimable(old(rows)[claimed.value], sub, hook)
      ensures old(rows).Keys <= rows.Keys
      ensures forall id :: id in old(rows) ==>
        rows[id] == if Claimable(old(rows)[id], sub, hook) then old(rows)[id].(inDlq := false, updated := now) else old(rows)[id]
      ensures claimed.Some? ==>
        var was, row := old(rows)[claimed.value], rows[newId];
        && rows.Keys == old(rows).Keys + {newId} && row.hook == hook && row.sub == sub && row.event == was.event
        && row.replay == was.replay + 1 && row.attempt == 1 && row.next == Some(now)
        && row.status == Pending && !row.inDlq && row.http == None && row.detail == "" && row.created == now
    {
      var matched := Store.DlqOf(Tables(), sub, hook);
      assert forall id :: id in matched <==> id in rows && Claimable(rows[id], sub, hook);
      if matched == {} { return None; }
      var id :| id in matched;
      rows := Store.Unflag(rows, matched, now);
      rows := rows[newId := Store.NewChain(rows[id], now)];
      return Some(id);
    }

    method ForceAckOldDlq(maxAge: Time) returns (ids: set<RowId>)
      modifies this`rows
      ensures Tables() == Store.ForceAckOldDlq(old(Tables()), maxAge) && ids == Store.Aged(old(Tables()), maxAge)
      ensures Store.InDlq(Tables()) == Store.InDlq(old(Tables())) - ids
      ensures forall id :: id in ids <==>
        id in old(rows) && old(rows)[id].inDlq && old(rows)[id].updated < now - Store.Interval(maxAge)
    {
      ids := Store.Aged(Tables(), maxAge);
      rows := Store.Unflag(rows, ids, now);
    }

    /** The rows leave one by one; the count is what the command tag reports. */
    method DeleteExpired(retention: Time) returns (deleted: nat)
      modifies this`rows
      ensures Tables() == Store.DeleteExpired(old(Tables()), retention)
      ensures deleted == |old(rows)| - |rows|
      ensures forall id :: id in rows ==> id in old(rows) && rows[id] == old(rows)[id]
      ensures forall id :: id in old(rows) ==>
        (id in rows <==> old(rows)[id].status.Pending? || old(rows)[id].inDlq
                         || now - Store.Interval(retention) <= old(rows)[id].created)
    {
      deleted := 0;
      var todo := rows.Keys;
      while todo != {}
        invariant rows.Keys <= old(rows).Keys && todo <= rows.Keys && deleted + |rows| == |old(rows)|
        invariant forall id :: id in rows ==> rows[id] == old(rows)[id]
        invariant forall id :: id in old(rows) && id !in todo ==>
          (id in rows <==> !Store.Expired(old(rows)[id], now, retention))
        decreases todo
      {
        var id :| id in todo;
        if Store.Expired(rows[id], now, retention) {
          assert (rows - {id}).Keys == rows.Keys - {id};
          rows := rows - {id};
          deleted := deleted + 1;
        }
        todo := todo - {id};
      }
    }

    /** The loop that scans the result into a slice. */
    method ListInDlq() returns (ids: seq<RowId>)
      ensures forall id :: id in ids <==> id in Store.InDlq(Tables())
      ensures forall i, j :: 0 <= i < j < |ids| ==> ids[i] != ids[j]
    {
      ids := [];
      var result := Store.InDlq(Tables());
      var left := result;
      while left != {}
        invariant left <= result
        invariant forall id :: id in ids <==> id in result && id !in left
        invariant forall i, j :: 0 <= i < j < |ids| ==> ids[i] != ids[j]
        decreases left
      {
        var id :| id in left;
        ids := ids + [id];
        left := left - {id};
      }
    }
  }

  // ---- lengths ----------------------------------------------------------------------------

  /** A string has at least as many bytes as characters, and the same number exactly if
      it is plain ASCII. */
  lemma {:induction false} BytesAndCharacters(s: string)
    ensures |s| <= Store.Utf8Length(s) <= 4 * |s|
    ensures Store.Utf8Length(s) == |s| <==> forall i :: 0 <= i < |s| ==> s[i] as int < 128
  {
    if s != [] {
      var rest := s[..|s| - 1];
      BytesAndCharacters(rest);
      assert forall i :: 0 <= i < |rest| ==> rest[i] == s[i];
    }
  }

  lemma {:induction false} RepeatedWidth(c: char, n: nat)
    ensures Store.Utf8Length(seq(n, _ => c)) == n * Store.Width(c)
  {
    if n > 0 {
      RepeatedWidth(c, n - 1);
      assert seq(n, _ => c)[..n - 1] == seq(n - 1, _ => c);
      assert n * Store.Width(c) == (n - 1) * Store.Width(c) + Store.Width(c);
    }
  }

  lemma {:induction false} LengthAdds(a: string, b: string)
    ensures Store.Utf8Length(a + b) == Store.Utf8Length(a) + Store.Utf8Length(b)
  {
    if b == [] {
      assert a + b == a;
    } else {
      LengthAdds(a, b[..|b| - 1]);
      assert (a + b)[..|a + b| - 1] == a + b[..|b| - 1];
    }
  }

  /** A subscription is validated by the characters of its URL, an ingest by the bytes:
      an https URL with 700 three-byte characters in its path passes the first and not the
      second. */
  lemma LongUrlIsRefused(db: Db, sub: SubId, hook: HookId, id: RowId)
    ensures var url := "https://a.example/" + seq(700, _ => '\U{754C}');
            |url| <= 2048 && Store.IngestPending(db, Store.IngestParams(sub, "", hook, Event(url, "{}", ""), true), id)
                             == (db, Store.Refused(Store.InvalidInput))
  {
    LengthAdds("https://a.example/", seq(700, _ => '\U{754C}'));
    RepeatedWidth('\U{754C}', 700);
  }

  // ---- the report of a disable --------------------------------------------------------

  /** The subscription was active and is not any more. */
  predicate TurnedOff(db: Db, db': Db, sub: SubId) {
    sub in db.subs && db.subs[sub].active && sub in db'.subs && !db'.subs[sub].active
  }

  /** A final failure reports a disable exactly when it brought one about, unless it won
      and the subscription was inactive before. */
  lemma DisabledReportExactly(db: Db, id: RowId, sub: SubId, http: Option<int>, detail: string, threshold: int)
    ensures var (db', won, disabled) := Store.FinalizeFailure(db, id, sub, http, detail, threshold);
            (disabled <==> TurnedOff(db, db', sub)) <==> !(won && sub in db.subs && !db.subs[sub].active)
  {
  }

  /** The operator deactivates the subscription while the last attempt is under way: the
      first failure of all is reported as the one that disabled it. */
  lemma DisabledReportCanBeWrong(db: Db, id: RowId, sub: SubId, http: Option<int>, detail: string, threshold: int)
    requires Store.IsPending(db, id) && sub in db.subs && db.subs[sub] == Sub(true, 0) && 1 < threshold
    ensures var off := db.(subs := db.subs[sub := Sub(false, 0)]);
            var (db', won, disabled) := Store.FinalizeFailure(off, id, sub, http, detail, threshold);
            won && disabled && !TurnedOff(off, db', sub) && db'.subs[sub].failures < threshold
  {
  }

  // ---- the lease --------------------------------------------------------------------

  /** Rounding the lease down to whole seconds can undo VISIBILITY_TIMEOUT >
      WEBHOOK_TIMEOUT; the lease outlasts the HTTP timeout exactly when a second
      boundary lies between them, or both are below one second. */
  lemma LeaseOutlastsTimeout(visibility: Time, timeout: Time)
    requires 0 < timeout < visibility
    ensures timeout < Store.Interval(visibility) <==> visibility < SECOND || timeout / SECOND < visibility / SECOND
    ensures visibility % SECOND == 0 ==> timeout < Store.Interval(visibility) == visibility
  {
  }

  /** Whole seconds, rounded down, and never less than one. */
  lemma IntervalRounds(d: Time)
    ensures SECOND <= Store.Interval(d) && Store.Interval(d) % SECOND == 0
    ensures SECOND <= d ==> Store.Interval(d) <= d < Store.Interval(d) + SECOND
    ensures d < SECOND ==> Store.Interval(d) == SECOND
  {
  }

  lemma LeaseShorterThanTimeout()
    ensures var visibility, timeout := 10_800_000_000, 10_500_000_000;
            0 < timeout < visibility && Store.Interval(visibility) < timeout
  {
  }
}
