/** The status endpoint: the statistics loop, and why the last listed row is the
    webhook's current one. */
module StatusEndpoint {
  import Arith
  import opened Domain
  import opened Ledger
  import opened Lifecycle
  import T = Theorems

  datatype Statistics = Statistics(total: nat, successful: nat, failed: nat, pending: nat, finalFailure: nat)

  datatype Response = NotFound | Status(current: Row, attempts: seq<Row>, stats: Statistics)

  function CountOf(logs: seq<Row>, s: Status): nat {
    if logs == [] then 0 else CountOf(logs[..|logs| - 1], s) + (if logs[|logs| - 1].status == s then 1 else 0)
  }

  function Having(logs: seq<Row>, s: Status): set<nat> {
    set i: nat | i < |logs| && logs[i].status == s
  }

  /** The count is the number of attempts with that status. */
  lemma {:induction false} CountIsNumber(logs: seq<Row>, s: Status)
    ensures CountOf(logs, s) == |Having(logs, s)|
  {
    if logs != [] {
      var n := |logs| - 1;
      CountIsNumber(logs[..n], s);
      assert Having(logs[..n], s) == Having(logs, s) - {n};
      Arith.MovedCard(Having(logs, s), n);
    }
  }

  method WebhookStatus(logs: seq<Row>) returns (r: Response)
    ensures r.NotFound? <==> logs == []
    ensures r.Status? ==> r.current == logs[|logs| - 1] && r.attempts == logs
    ensures r.Status? ==>
      && r.stats.total == |logs|
      && r.stats.successful == |set i: nat | i < |logs| && logs[i].status.Success?|
      && r.stats.failed == |set i: nat | i < |logs| && logs[i].status.FailedAttempt?|
      && r.stats.pending == |set i: nat | i < |logs| && logs[i].status.Pending?|
      && r.stats.finalFailure == |set i: nat | i < |logs| && logs[i].status.FinalFailure?|
      && r.stats.successful + r.stats.failed + r.stats.pending + r.stats.finalFailure == r.stats.total
  {
    if |logs| == 0 { return NotFound; }
    var current := logs[|logs| - 1];
    var attempts: seq<Row> := [];
    var s, f, p, z := 0, 0, 0, 0;
    for i := 0 to |logs|
      invariant attempts == logs[..i] && s + f + p + z == i
      invariant s == CountOf(logs[..i], Success) && f == CountOf(logs[..i], FailedAttempt)
      invariant p == CountOf(logs[..i], Pending) && z == CountOf(logs[..i], FinalFailure)
    {
      assert logs[..i + 1] == logs[..i] + [logs[i]] && logs[..i + 1][..i] == logs[..i];
      attempts := attempts + [logs[i]];
      match logs[i].status
      case Success => s := s + 1;
      case FailedAttempt => f := f + 1;
      case Pending => p := p + 1;
      case FinalFailure => z := z + 1;
    }
    assert logs[..|logs|] == logs;
    CountIsNumber(logs, Success);
    CountIsNumber(logs, FailedAttempt);
    CountIsNumber(logs, Pending);
    CountIsNumber(logs, FinalFailure);
    assert (set i: nat | i < |logs| && logs[i].status.Success?) == Having(logs, Success);
    assert (set i: nat | i < |logs| && logs[i].status.FailedAttempt?) == Having(logs, FailedAttempt);
    assert (set i: nat | i < |logs| && logs[i].status.Pending?) == Having(logs, Pending);
    assert (set i: nat | i < |logs| && logs[i].status.FinalFailure?) == Having(logs, FinalFailure);
    return Status(current, attempts, Statistics(|logs|, s, f, p, z));
  }

  /** A result of `ListByWebhookID`: the rows of the webhook, in (replay, attempt) order. */
  ghost predicate Listing(rows: Rows, hook: HookId, ids: seq<RowId>) {
    && (forall id :: id in ids <==> id in rows && rows[id].hook == hook)
    && (forall i, j :: 0 <= i < j < |ids| ==>
          ids[i] != ids[j] && !Earlier(BirthOf(rows[ids[j]]), BirthOf(rows[ids[i]])))
  }

  /** The listing has no ties, so it is the only one; and a row that is pending or in
      the DLQ is its last. */
  lemma CurrentRowIsLast(c: Config, ss: seq<State>, ls: seq<Step>, k: nat, hook: HookId, ids: seq<RowId>)
    requires T.Behaviour(c, ss, ls) && k < |ss| && Listing(ss[k].db.rows, hook, ids)
    ensures forall i, j :: 0 <= i < j < |ids| ==>
      Earlier(BirthOf(ss[k].db.rows[ids[i]]), BirthOf(ss[k].db.rows[ids[j]]))
    ensures forall i :: 0 <= i < |ids| && Live(ss[k].db.rows[ids[i]]) ==> i == |ids| - 1
  {
    var rows := ss[k].db.rows;
    forall i, j | 0 <= i < j < |ids|
      ensures Earlier(BirthOf(rows[ids[i]]), BirthOf(rows[ids[j]])) && !Live(rows[ids[i]])
    {
      assert ids[i] in ids && ids[j] in ids;
      T.RowAsBorn(c, ss, ls, k, ids[i]);
      T.RowAsBorn(c, ss, ls, k, ids[j]);
      T.ChainShape(c, ss, ls, k, ids[i], ids[j]);
    }
    forall i | 0 <= i < |ids| - 1 ensures !Live(rows[ids[i]]) {
      assert Earlier(BirthOf(rows[ids[i]]), BirthOf(rows[ids[|ids| - 1]]));
    }
  }
}
