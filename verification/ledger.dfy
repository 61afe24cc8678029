/** The accounting behind the attempt rows. The book remembers every row ever
    inserted (its birth) and what became of each row that is no longer live (its
    fate); `Sound` ties the book to the table, and each lemma below shows that one
    kind of table change keeps it. */
module Ledger {
  import opened Domain

  /** The columns of a row that no transaction changes. */
  datatype Birth = Birth(hook: HookId, sub: SubId, event: Event, attempt: int, replay: int, created: Time)

  datatype Fate =
    | Retried(next: RowId)   // a failed attempt and the successor inserted with it
    | Replayed(next: RowId)  // left the DLQ for a new chain
    | Delivered
    | Dropped
    | Acked
    | ForceAcked
    | Cascaded

  datatype Book = Book(born: map<RowId, Birth>, fate: map<RowId, Fate>)

  type Rows = map<RowId, Row>

  function BirthOf(r: Row): Birth {
    Birth(r.hook, r.sub, r.event, r.attempt, r.replay, r.created)
  }

  /** The order of the status endpoint: (replay_number, attempt_number). */
  predicate Earlier(a: Birth, b: Birth) {
    a.replay < b.replay || (a.replay == b.replay && a.attempt < b.attempt)
  }

  predicate Continued(f: Fate) {
    f.Retried? || f.Replayed?
  }

  /** Nothing was inserted after this row: it is live, or its fate is final. */
  predicate AtEnd(b: Book, id: RowId) {
    id !in b.fate || !Continued(b.fate[id])
  }

  // ---- what the book and the table agree on -----------------------------------

  ghost predicate Recorded(rows: Rows, b: Book) {
    && (forall id :: id in rows ==> id in b.born && BirthOf(rows[id]) == b.born[id])
    && b.fate.Keys <= b.born.Keys
  }

  /** Each row ever inserted is either live or settled, never both and never neither. */
  ghost predicate Accounted(rows: Rows, b: Book) {
    forall id :: id in b.born ==> (id in b.fate <==> !(id in rows && Live(rows[id])))
  }

  predicate FateFits(r: Row, f: Fate) {
    match r.status
    case Pending => false
    case Success => f == Delivered
    case FailedAttempt => f.Retried?
    case FinalFailure => f.Dropped? || f.Acked? || f.ForceAcked? || f.Replayed?
  }

  predicate ShapeOf(max: int, r: Row) {
    && (r.status.Pending? ==> !r.inDlq && r.next.Some? && 1 <= r.attempt <= max)
    && (r.inDlq ==> r.status.FinalFailure? && r.attempt == max)
  }

  ghost predicate Shaped(max: int, rows: Rows, b: Book) {
    && (forall id :: id in rows ==> ShapeOf(max, rows[id]))
    && (forall id :: id in rows && id in b.fate ==> FateFits(rows[id], b.fate[id]))
  }

  predicate SameWebhook(a: Birth, b: Birth) {
    a.hook == b.hook && a.sub == b.sub && a.event == b.event
  }

  /** Two rows of one webhook carry the same event, never the same position, and
      a row at the end of its chain comes after every other. */
  ghost predicate Chained(b: Book) {
    forall i, j :: i in b.born && j in b.born && i != j && b.born[i].hook == b.born[j].hook ==> PairOk(b, i, j)
  }

  predicate LinkOk(b: Book, id: RowId)
    requires id in b.fate && id in b.born
  {
    match b.fate[id]
    case Retried(n) =>
      n in b.born && SameWebhook(b.born[id], b.born[n]) &&
      b.born[n].replay == b.born[id].replay && b.born[n].attempt == b.born[id].attempt + 1
    case Replayed(n) =>
      n in b.born && SameWebhook(b.born[id], b.born[n]) &&
      b.born[n].replay == b.born[id].replay + 1 && b.born[n].attempt == 1
    case _ => true
  }

  /** The row a continued fate names is the next attempt, or the first of the next chain. */
  ghost predicate Linked(b: Book) {
    forall id :: id in b.fate && id in b.born ==> LinkOk(b, id)
  }

  /** Both rows belong to one webhook and `j` was inserted after `i`. */
  predicate Follows(b: Book, i: RowId, j: RowId) {
    i in b.born && j in b.born && b.born[i].hook == b.born[j].hook && Earlier(b.born[i], b.born[j])
  }

  predicate PairOk(b: Book, i: RowId, j: RowId)
    requires i in b.born && j in b.born
  {
    && SameWebhook(b.born[i], b.born[j])
    && (Follows(b, i, j) || Follows(b, j, i))
    && (AtEnd(b, i) ==> Follows(b, j, i))
  }

  ghost predicate Dated(now: Time, b: Book) {
    && (forall id :: id in b.born ==> b.born[id].created <= now)
    && (forall i, j :: Follows(b, i, j) ==> b.born[i].created <= b.born[j].created)
  }

  /** The rows of a webhook still in the table are the latest ones of its history. */
  ghost predicate SuffixKept(rows: Rows, b: Book) {
    forall i, j :: Follows(b, i, j) && i in rows ==> j in rows
  }

  ghost predicate Sound(max: int, now: Time, rows: Rows, b: Book) {
    && Recorded(rows, b)
    && Accounted(rows, b)
    && Shaped(max, rows, b)
    && Chained(b)
    && Linked(b)
    && Dated(now, b)
    && SuffixKept(rows, b)
  }

  // ---- how the book changes --------------------------------------------------------

  function SettleAll(b: Book, ids: set<RowId>, f: Fate): Book {
    Book(b.born, b.fate + map id | id in ids :: f)
  }

  function Enter(b: Book, id: RowId, birth: Birth): Book {
    Book(b.born[id := birth], b.fate)
  }

  function Continue(b: Book, id: RowId, f: Fate, n: RowId, birth: Birth): Book {
    Book(b.born[n := birth], b.fate[id := f])
  }

  /** A final fate moves no row away from the end of its chain. */
  lemma SettledChained(b: Book, ids: set<RowId>, f: Fate)
    requires Chained(b) && Linked(b) && !Continued(f)
    requires ids !! b.fate.Keys
    ensures Chained(SettleAll(b, ids, f)) && Linked(SettleAll(b, ids, f))
  {
    var b' := SettleAll(b, ids, f);
    forall i, j | i in b'.born && j in b'.born && i != j && b'.born[i].hook == b'.born[j].hook
      ensures PairOk(b', i, j)
    {
      assert PairOk(b, i, j) && AtEnd(b', i) == AtEnd(b, i);
    }
    forall id | id in b'.fate && id in b'.born ensures LinkOk(b', id) {
      if id !in ids { assert LinkOk(b, id); }
    }
  }

  lemma EnteredChained(b: Book, id: RowId, birth: Birth)
    requires Chained(b) && Linked(b)
    requires id !in b.born && id !in b.fate
    requires forall i :: i in b.born ==> b.born[i].hook != birth.hook
    ensures Chained(Enter(b, id, birth)) && Linked(Enter(b, id, birth))
  {
    var b' := Enter(b, id, birth);
    forall i, j | i in b'.born && j in b'.born && i != j && b'.born[i].hook == b'.born[j].hook
      ensures PairOk(b', i, j)
    {
      assert PairOk(b, i, j);
    }
    forall i | i in b'.fate && i in b'.born ensures LinkOk(b', i) {
      assert LinkOk(b, i);
    }
  }

  /** The row inserted after the end of a chain is the new end. */
  lemma NewEndIsLast(b: Book, id: RowId, birth: Birth, i: RowId)
    requires Chained(b) && id in b.born && AtEnd(b, id)
    requires SameWebhook(b.born[id], birth) && Earlier(b.born[id], birth)
    requires i in b.born && b.born[i].hook == birth.hook
    ensures Earlier(b.born[i], birth) && SameWebhook(b.born[i], birth)
    ensures i != id ==> !AtEnd(b, i)
  {
    if i != id {
      assert PairOk(b, i, id) && PairOk(b, id, i);
    }
  }

  lemma ContinuedChained(b: Book, id: RowId, f: Fate, n: RowId, birth: Birth)
    requires Chained(b) && id in b.born && id !in b.fate
    requires Continued(f) && n !in b.born && n !in b.fate
    requires SameWebhook(b.born[id], birth) && Earlier(b.born[id], birth)
    ensures Chained(Continue(b, id, f, n, birth))
  {
    var b' := Continue(b, id, f, n, birth);
    forall i, j | i in b'.born && j in b'.born && i != j && b'.born[i].hook == b'.born[j].hook
      ensures PairOk(b', i, j)
    {
      if i == n {
        NewEndIsLast(b, id, birth, j);
      } else if j == n {
        NewEndIsLast(b, id, birth, i);
      } else {
        assert PairOk(b, i, j);
      }
    }
  }

  lemma ContinuedLinked(b: Book, id: RowId, f: Fate, n: RowId, birth: Birth)
    requires Linked(b) && id in b.born && n !in b.born && n !in b.fate
    requires Continued(f) && f.next == n && SameWebhook(b.born[id], birth)
    requires f.Retried? ==> birth.replay == b.born[id].replay && birth.attempt == b.born[id].attempt + 1
    requires f.Replayed? ==> birth.replay == b.born[id].replay + 1 && birth.attempt == 1
    ensures Linked(Continue(b, id, f, n, birth))
  {
    var b' := Continue(b, id, f, n, birth);
    forall i | i in b'.fate && i in b'.born ensures LinkOk(b', i) {
      if i != id { assert LinkOk(b, i); }
    }
  }

  lemma ContinuedDated(now: Time, b: Book, id: RowId, f: Fate, n: RowId, birth: Birth)
    requires Dated(now, b) && Chained(b) && id in b.born && id !in b.fate && n !in b.born
    requires SameWebhook(b.born[id], birth) && Earlier(b.born[id], birth) && birth.created == now
    ensures Dated(now, Continue(b, id, f, n, birth))
  {
    var b' := Continue(b, id, f, n, birth);
    forall i, j | Follows(b', i, j) ensures b'.born[i].created <= b'.born[j].created {
      if i == n {
        NewEndIsLast(b, id, birth, j);
      } else if j != n {
        assert Follows(b, i, j);
      }
    }
  }

  // ---- the table changes --------------------------------------------------------

  lemma LaterClockKeeps(max: int, now: Time, later: Time, rows: Rows, b: Book)
    requires Sound(max, now, rows, b) && now <= later
    ensures Sound(max, later, rows, b)
  {
  }

  /** A live row changes but stays live: a claim, a reschedule, a final failure. */
  lemma TouchKeeps(max: int, now: Time, rows: Rows, b: Book, id: RowId, r: Row)
    requires Sound(max, now, rows, b)
    requires id in rows && Live(rows[id]) && Live(r) && BirthOf(r) == BirthOf(rows[id]) && ShapeOf(max, r)
    ensures Sound(max, now, rows[id := r], b)
  {
  }

  /** Live rows stop being live and the book notes a final fate for each. */
  lemma SettleKeeps(max: int, now: Time, rows: Rows, b: Book, ids: set<RowId>, f: Fate, rows': Rows)
    requires Sound(max, now, rows, b) && !Continued(f)
    requires rows'.Keys == rows.Keys
    requires forall id :: id in rows && id !in ids ==> rows'[id] == rows[id]
    requires forall id :: id in ids ==>
      id in rows && Live(rows[id]) && !Live(rows'[id]) && BirthOf(rows'[id]) == BirthOf(rows[id])
      && ShapeOf(max, rows'[id]) && FateFits(rows'[id], f)
    ensures Sound(max, now, rows', SettleAll(b, ids, f))
  {
    SettledChained(b, ids, f);
    var b' := SettleAll(b, ids, f);
    forall i, j | Follows(b', i, j) ensures Follows(b, i, j) {}
  }

  /** The first attempt of a new webhook. */
  lemma RootKeeps(max: int, now: Time, rows: Rows, b: Book, id: RowId, r: Row)
    requires Sound(max, now, rows, b)
    requires id !in b.born && Live(r) && ShapeOf(max, r) && r.created <= now
    requires forall i :: i in b.born ==> b.born[i].hook != r.hook
    ensures Sound(max, now, rows[id := r], Enter(b, id, BirthOf(r)))
  {
    var b' := Enter(b, id, BirthOf(r));
    EnteredChained(b, id, BirthOf(r));
    EnteredTable(max, rows, b, id, r);
    forall i, j | Follows(b', i, j) ensures Follows(b, i, j) {}
  }

  lemma EnteredTable(max: int, rows: Rows, b: Book, id: RowId, r: Row)
    requires Recorded(rows, b) && Accounted(rows, b) && Shaped(max, rows, b)
    requires id !in b.born && Live(r) && ShapeOf(max, r)
    ensures var rows', b' := rows[id := r], Enter(b, id, BirthOf(r));
            Recorded(rows', b') && Accounted(rows', b') && Shaped(max, rows', b')
  {
  }

  /** A live row is settled by the row inserted after it: a retry or a replay. */
  lemma ContinueKeeps(max: int, now: Time, rows: Rows, b: Book, id: RowId, r: Row, n: RowId, nr: Row, f: Fate)
    requires Sound(max, now, rows, b)
    requires id in rows && Live(rows[id]) && !Live(r) && BirthOf(r) == BirthOf(rows[id]) && ShapeOf(max, r)
    requires Continued(f) && f.next == n && FateFits(r, f)
    requires n !in b.born && Live(nr) && ShapeOf(max, nr) && nr.created == now
    requires SameWebhook(BirthOf(r), BirthOf(nr))
    requires f.Retried? ==> nr.replay == r.replay && nr.attempt == r.attempt + 1
    requires f.Replayed? ==> nr.replay == r.replay + 1 && nr.attempt == 1
    ensures Sound(max, now, rows[id := r][n := nr], Continue(b, id, f, n, BirthOf(nr)))
  {
    var birth := BirthOf(nr);
    ContinuedChained(b, id, f, n, birth);
    ContinuedLinked(b, id, f, n, birth);
    ContinuedDated(now, b, id, f, n, birth);
    ContinuedSuffix(rows, b, id, r, f, n, nr);
    ContinuedTable(max, rows, b, id, r, n, nr, f);
  }

  lemma ContinuedTable(max: int, rows: Rows, b: Book, id: RowId, r: Row, n: RowId, nr: Row, f: Fate)
    requires Recorded(rows, b) && Accounted(rows, b) && Shaped(max, rows, b)
    requires id in rows && !Live(r) && BirthOf(r) == BirthOf(rows[id]) && ShapeOf(max, r) && FateFits(r, f)
    requires n !in b.born && Live(nr) && ShapeOf(max, nr)
    ensures var rows', b' := rows[id := r][n := nr], Continue(b, id, f, n, BirthOf(nr));
            Recorded(rows', b') && Accounted(rows', b') && Shaped(max, rows', b')
  {
  }

  lemma ContinuedSuffix(rows: Rows, b: Book, id: RowId, r: Row, f: Fate, n: RowId, nr: Row)
    requires SuffixKept(rows, b) && Chained(b) && id in rows && id in b.born && id !in b.fate && n !in b.born
    requires SameWebhook(b.born[id], BirthOf(nr)) && Earlier(b.born[id], BirthOf(nr))
    ensures SuffixKept(rows[id := r][n := nr], Continue(b, id, f, n, BirthOf(nr)))
  {
    var b' := Continue(b, id, f, n, BirthOf(nr));
    forall i, j | Follows(b', i, j) && i in rows[id := r][n := nr] ensures j in rows[id := r][n := nr] {
      if i == n {
        NewEndIsLast(b, id, BirthOf(nr), j);
      } else if j != n {
        assert Follows(b, i, j);
      }
    }
  }

  /** Retention: settled rows older than a horizon leave the table. */
  lemma ExpireKeeps(max: int, now: Time, rows: Rows, b: Book, horizon: Time, rows': Rows)
    requires Sound(max, now, rows, b)
    requires rows' == map id | id in rows && !(rows[id].created < horizon && !Live(rows[id])) :: rows[id]
    ensures Sound(max, now, rows', b)
  {
    forall i, j | Follows(b, i, j) && i in rows' ensures j in rows' {
      assert PairOk(b, i, j);
    }
  }

  /** A deleted subscription takes every row of its webhooks along. */
  lemma CascadeKeeps(max: int, now: Time, rows: Rows, b: Book, sub: SubId, rows': Rows, gone: set<RowId>)
    requires Sound(max, now, rows, b)
    requires rows' == map id | id in rows && rows[id].sub != sub :: rows[id]
    requires gone == set id | id in rows && rows[id].sub == sub && Live(rows[id])
    ensures Sound(max, now, rows', SettleAll(b, gone, Cascaded))
  {
    var b' := SettleAll(b, gone, Cascaded);
    SettledChained(b, gone, Cascaded);
    forall i, j | Follows(b', i, j) ensures Follows(b, i, j) && (i in rows' ==> j in rows') {
      assert Follows(b, i, j) && PairOk(b, i, j);
    }
  }

  // ---- what soundness means for one webhook ---------------------------------------

  ghost function After(b: Book, id: RowId): set<RowId> {
    set j | j in b.born && Follows(b, id, j)
  }

  /** From any row the fates lead to the one row its webhook ends in. */
  lemma {:induction false} EndOf(b: Book, id: RowId) returns (end: RowId)
    requires Linked(b) && id in b.born
    ensures end in b.born && b.born[end].hook == b.born[id].hook && AtEnd(b, end)
    decreases After(b, id)
  {
    end := id;
    if !AtEnd(b, id) {
      assert LinkOk(b, id);
      var n := b.fate[id].next;
      assert n in After(b, id) && n !in After(b, n);
      assert forall j :: j in After(b, n) ==> j in After(b, id);
      end := EndOf(b, n);
    }
  }

  /** At most one row of a webhook is live, and it is the latest of all its rows. */
  lemma LiveIsLast(max: int, now: Time, rows: Rows, b: Book, id: RowId)
    requires Sound(max, now, rows, b) && id in rows && Live(rows[id])
    ensures forall j :: j in rows && j != id && rows[j].hook == rows[id].hook ==>
      !Live(rows[j]) && Earlier(BirthOf(rows[j]), BirthOf(rows[id]))
  {
    forall j | j in rows && j != id && rows[j].hook == rows[id].hook
      ensures !Live(rows[j]) && Earlier(BirthOf(rows[j]), BirthOf(rows[id]))
    {
      assert PairOk(b, id, j) && PairOk(b, j, id);
    }
  }
}
