/** The detailed report: the filtered, limited query, the loop over its rows, and what its amounts add up to. */
module DetailedReports {
  import opened Wrappers
  import opened Domain
  import opened Tables

  datatype EntryType = SaleEntry | RefundEntry | VoidEntry

  datatype TransactionEntry = TransactionEntry(
    id: string, kind: EntryType, amount: uint32, cardLastFour: string, loyaltyAmount: uint32, confirmation: string,
    receipt: string, createdAt: int, bankId: uint32, currency: string, installments: uint32)

  /** A limit of 0 is no limit. */
  datatype Query = Query(from: Time, to: Time, limit: uint32, includeVoids: bool)

  predicate Passes(q: Query, r: Row) {
    && InSeconds(q.from) <= r.fixed.createdAt <= InSeconds(q.to)
    && (q.includeVoids || r.state != Voided)
  }

  /** The rows among the first n that pass the range and void filters. */
  function PassingFirst(t: Table, q: Query, n: nat): seq<Row>
    requires n <= |t.order|
  {
    if n == 0 then []
    else
      var id := t.order[n - 1];
      PassingFirst(t, q, n - 1) + (if id in t.rows && Passes(q, t.rows[id]) then [t.rows[id]] else [])
  }

  /** What the query returns: the LIMIT applies to the rows that pass. */
  function Selected(t: Table, q: Query): seq<Row> {
    var passing := PassingFirst(t, q, |t.order|);
    if 0 < q.limit < |passing| then passing[..q.limit] else passing
  }

  // ---------- Specification of the loop ----------

  function KindOf(state: State): Option<EntryType> {
    match state
    case PaymentCompleted => Some(SaleEntry)
    case Refunded => Some(RefundEntry)
    case Voided => Some(VoidEntry)
    case _ => None
  }

  function EntryOf(r: Row, kind: EntryType): TransactionEntry {
    var f := r.fixed;
    TransactionEntry(f.id, kind, f.amount, LastFour(f.lastFour), f.loyaltyAmount, f.confirmation, f.receipt,
                     f.createdAt, f.bankId, f.currency, f.installments)
  }

  /** The entry of a row that is a sale, refund or void; no entry for any other. */
  function EntryFor(r: Row): seq<TransactionEntry> {
    if KindOf(r.state).Some? then [EntryOf(r, KindOf(r.state).value)] else []
  }

  /** The entries of the rows, in order. */
  function EntriesOf(rows: seq<Row>): seq<TransactionEntry> {
    if rows == [] then [] else EntriesOf(rows[..|rows| - 1]) + EntryFor(rows[|rows| - 1])
  }

  lemma EntriesOneMore(rows: seq<Row>, r: Row)
    ensures EntriesOf(rows + [r]) == EntriesOf(rows) + EntryFor(r)
  {
    assert (rows + [r])[..|rows|] == rows;
  }

  lemma EntriesOfNone()
    ensures EntriesOf([]) == []
  {
  }

  lemma TimesCancel(t: int)
    ensures InSeconds(t * SECOND) == t
  {
  }

  /** GenerateDetailedReport, over what the database answered. */
  method GenerateDetailedReport(rows: seq<Row>) returns (entries: seq<TransactionEntry>)
    ensures entries == EntriesOf(rows)
  {
    hide EntriesOf;
    entries := [];
    EntriesOfNone();
    for i := 0 to |rows|
      invariant entries == EntriesOf(rows[..i])
    {
      EntriesOneMore(rows[..i], rows[i]);
      assert rows[..i + 1] == rows[..i] + [rows[i]];
      TimesCancel(rows[i].fixed.createdAt);
      var txn := TransactionOf(rows[i]);
      var kind: EntryType;
      match txn.state {
        case PaymentCompleted => kind := SaleEntry;
        case Refunded => kind := RefundEntry;
        case Voided => kind := VoidEntry;
        case _ => continue;
      }
      var cardLastFour := "";
      if txn.card.Some? && |txn.card.value.number| >= 4 {
        cardLastFour := txn.card.value.number[|txn.card.value.number| - 4..];
      }
      entries := entries + [TransactionEntry(txn.id, kind, txn.amount, cardLastFour, txn.loyaltyAmount,
                                             txn.confirmation, txn.receipt, InSeconds(txn.createdAt), txn.bankId,
                                             txn.currency, txn.installments)];
    }
    assert rows[..|rows|] == rows;
  }

  // ---------- What the report holds ----------

  function Dropped(rows: seq<Row>): nat {
    if rows == [] then 0
    else Dropped(rows[..|rows| - 1]) + (if KindOf(rows[|rows| - 1].state).Some? then 0 else 1)
  }

  lemma {:induction false} EntriesAndDropped(rows: seq<Row>)
    ensures |EntriesOf(rows)| + Dropped(rows) == |rows|
  {
    if rows != [] {
      EntriesAndDropped(rows[..|rows| - 1]);
    }
  }

  /** A full page is short of the limit by the failed rows in it, because these are dropped after the LIMIT. */
  lemma LimitCountsDroppedRows(t: Table, q: Query)
    requires 0 < q.limit <= |PassingFirst(t, q, |t.order|)|
    ensures |EntriesOf(Selected(t, q))| == q.limit - Dropped(Selected(t, q))
  {
    EntriesAndDropped(Selected(t, q));
  }

  /** The i-th row passes the filters, has not failed, and its entry is e. */
  predicate Shows(t: Table, q: Query, i: nat, e: TransactionEntry)
    requires i < |t.order|
  {
    t.order[i] in t.rows && Passes(q, t.rows[t.order[i]]) && EntryFor(t.rows[t.order[i]]) == [e]
  }

  /** Some of the first n rows gives the entry. */
  predicate ShownFirst(t: Table, q: Query, n: nat, e: TransactionEntry)
    requires n <= |t.order|
  {
    exists i :: 0 <= i < n && Shows(t, q, i, e)
  }

  lemma ShownOneMore(t: Table, q: Query, n: nat, e: TransactionEntry)
    requires n < |t.order|
    ensures ShownFirst(t, q, n + 1, e) <==> ShownFirst(t, q, n, e) || Shows(t, q, n, e)
  {
    hide Shows;
    if ShownFirst(t, q, n + 1, e) {
      var i :| 0 <= i < n + 1 && Shows(t, q, i, e);
      assert i < n ==> ShownFirst(t, q, n, e);
    }
  }

  lemma NothingFirst(t: Table, q: Query, e: TransactionEntry)
    ensures e !in EntriesOf(PassingFirst(t, q, 0)) && !ShownFirst(t, q, 0, e)
  {
    EntriesOfNone();
  }

  lemma LastRowShows(t: Table, q: Query, n: nat, e: TransactionEntry)
    requires n < |t.order|
    ensures e in EntriesOf(PassingFirst(t, q, n + 1)) <==> e in EntriesOf(PassingFirst(t, q, n)) || Shows(t, q, n, e)
  {
    hide EntriesOf, EntryFor, Passes;
    var id, before := t.order[n], PassingFirst(t, q, n);
    if id in t.rows && Passes(q, t.rows[id]) {
      EntriesOneMore(before, t.rows[id]);
      AtMostOneEntry(t.rows[id]);
    } else {
      assert PassingFirst(t, q, n + 1) == before;
    }
  }

  /** Without a limit the entries are exactly those of the rows that pass both filters and have not failed. */
  lemma {:induction false} EntriesAreTheRows(t: Table, q: Query, n: nat, e: TransactionEntry)
    requires n <= |t.order|
    ensures e in EntriesOf(PassingFirst(t, q, n)) <==> ShownFirst(t, q, n, e)
  {
    hide EntriesOf, PassingFirst, Shows, ShownFirst;
    if n == 0 {
      NothingFirst(t, q, e);
    } else {
      EntriesAreTheRows(t, q, n - 1, e);
      LastRowShows(t, q, n - 1, e);
      ShownOneMore(t, q, n - 1, e);
    }
  }

  lemma AtMostOneEntry(r: Row)
    ensures |EntryFor(r)| <= 1
  {
  }

  /** What the entries of a currency add up to. */
  function EntriesTotal(entries: seq<TransactionEntry>, c: string): nat {
    if entries == [] then 0
    else
      var last := entries[|entries| - 1];
      EntriesTotal(entries[..|entries| - 1], c) + (if last.currency == c then last.amount else 0)
  }

  lemma TotalOneMore(entries: seq<TransactionEntry>, more: seq<TransactionEntry>, c: string)
    requires |more| <= 1
    ensures EntriesTotal(entries + more, c)
         == EntriesTotal(entries, c) + (if more != [] && more[0].currency == c then more[0].amount else 0)
  {
    if more != [] {
      assert (entries + more)[..|entries|] == entries;
    } else {
      assert entries + more == entries;
    }
  }

  lemma EntryAmountIsWeight(r: Row, c: string)
    ensures |EntryFor(r)| == if r.state in SETTLED then 1 else 0
    ensures EntryFor(r) != [] ==> EntryFor(r)[0].currency == r.fixed.currency && EntryFor(r)[0].amount == r.fixed.amount
  {
  }

  /** A query that no row of the table fails. */
  predicate TakesAll(t: Table, q: Query) {
    && q.limit == 0 && q.includeVoids
    && forall id :: id in t.rows ==> InSeconds(q.from) <= t.rows[id].fixed.createdAt <= InSeconds(q.to)
  }

  lemma NoRowsNoTotal(t: Table, q: Query, c: string)
    ensures EntriesTotal(EntriesOf(PassingFirst(t, q, 0)), c) == 0
  {
    EntriesOfNone();
  }

  lemma {:induction false} EntriesTotalFirst(t: Table, q: Query, n: nat, c: string)
    requires n <= |t.order| && TakesAll(t, q)
    ensures EntriesTotal(EntriesOf(PassingFirst(t, q, n)), c)
             == TallyFirst(Cents, t, Selection(AnyBatch, {c}, SETTLED), n)
  {
    hide EntriesOf, EntriesTotal, PassingFirst, Weight;
    if n == 0 {
      NoRowsNoTotal(t, q, c);
    } else {
      EntriesTotalFirst(t, q, n - 1, c);
      OneMoreRow(t, q, n - 1, c);
    }
  }

  lemma OneMoreRow(t: Table, q: Query, n: nat, c: string)
    requires n < |t.order| && TakesAll(t, q)
    ensures EntriesTotal(EntriesOf(PassingFirst(t, q, n + 1)), c)
         == EntriesTotal(EntriesOf(PassingFirst(t, q, n)), c)
          + Weight(Cents, t, Selection(AnyBatch, {c}, SETTLED), t.order[n])
  {
    hide EntriesOf, EntriesTotal, EntryFor;
    var id, before := t.order[n], PassingFirst(t, q, n);
    if id in t.rows {
      EntryAmountIsWeight(t.rows[id], c);
      EntriesOneMore(before, t.rows[id]);
      TotalOneMore(EntriesOf(before), EntryFor(t.rows[id]), c);
    } else {
      assert PassingFirst(t, q, n + 1) == before;
    }
  }

  /** Without limit or filter the amounts of a currency add up to its settled rows. */
  lemma FullReportTotal(t: Table, q: Query, c: string)
    requires TakesAll(t, q)
    ensures EntriesTotal(EntriesOf(Selected(t, q)), c) == Tally(Cents, t, Selection(AnyBatch, {c}, SETTLED))
  {
    EntriesTotalFirst(t, q, |t.order|, c);
  }

  // ---------- By columns ----------

  /** The entry tells of the row: a sale, refund or void by its state, and the columns by name. */
  predicate Tells(e: TransactionEntry, r: Row) {
    && (r.state == PaymentCompleted || r.state == Refunded || r.state == Voided)
    && (e.kind == SaleEntry <==> r.state == PaymentCompleted)
    && (e.kind == RefundEntry <==> r.state == Refunded)
    && (e.kind == VoidEntry <==> r.state == Voided)
    && e.id == r.fixed.id && e.amount == r.fixed.amount && e.currency == r.fixed.currency
    && e.loyaltyAmount == r.fixed.loyaltyAmount && e.installments == r.fixed.installments && e.bankId == r.fixed.bankId
    && e.confirmation == r.fixed.confirmation && e.receipt == r.fixed.receipt && e.createdAt == r.fixed.createdAt
    && (|r.fixed.lastFour| == 4 ==> e.cardLastFour == r.fixed.lastFour)
    && (|r.fixed.lastFour| < 4 ==> e.cardLastFour == "")
  }

  /** The row was created in the range, to the second, and is no void unless voids are asked for. */
  predicate InRange(q: Query, r: Row) {
    && q.from / 1_000_000_000 <= r.fixed.createdAt <= q.to / 1_000_000_000
    && (r.state == Voided ==> q.includeVoids)
  }

  lemma EntryTells(r: Row)
    ensures |EntryFor(r)| == 1 <==> r.state in {PaymentCompleted, Refunded, Voided}
    ensures EntryFor(r) != [] ==> |EntryFor(r)| == 1 && Tells(EntryFor(r)[0], r)
  {
  }

  /** Without a limit the report has an entry for each row in the range that has not failed, and no other. */
  lemma ReportTellsOfTheRows(t: Table, q: Query)
    requires WellFormed(t) && q.limit == 0
    ensures forall e :: e in EntriesOf(Selected(t, q)) ==>
              e.id in t.rows && InRange(q, t.rows[e.id]) && Tells(e, t.rows[e.id])
    ensures forall id :: (id in t.rows && InRange(q, t.rows[id])
                          && t.rows[id].state in {PaymentCompleted, Refunded, Voided}) ==>
              exists e :: e in EntriesOf(Selected(t, q)) && Tells(e, t.rows[id])
  {
    hide EntriesOf, PassingFirst, EntryFor, Tells;
    var n := |t.order|;
    forall e | e in EntriesOf(Selected(t, q))
      ensures e.id in t.rows && InRange(q, t.rows[e.id]) && Tells(e, t.rows[e.id])
    {
      EntriesAreTheRows(t, q, n, e);
      var i :| 0 <= i < n && Shows(t, q, i, e);
      EntryTells(t.rows[t.order[i]]);
      TellsOfItsId(e, t.rows[t.order[i]]);
    }
    forall id | id in t.rows && InRange(q, t.rows[id]) && t.rows[id].state in {PaymentCompleted, Refunded, Voided}
      ensures exists e :: e in EntriesOf(Selected(t, q)) && Tells(e, t.rows[id])
    {
      EntryTells(t.rows[id]);
      var e := EntryFor(t.rows[id])[0];
      var i :| 0 <= i < n && t.order[i] == id;
      assert Shows(t, q, i, e);
      EntriesAreTheRows(t, q, n, e);
    }
  }

  lemma TellsOfItsId(e: TransactionEntry, r: Row)
    requires Tells(e, r)
    ensures e.id == r.fixed.id
  {
  }

  /** A limit keeps the first rows that pass, as many as it says. */
  lemma LimitKeepsTheFirst(t: Table, q: Query)
    ensures var all, kept := Selected(t, q.(limit := 0)), Selected(t, q);
            && kept <= all
            && |kept| == (if q.limit == 0 || |all| < q.limit then |all| else q.limit)
  {
    hide PassingFirst;
    SamePassing(t, q, |t.order|);
  }

  lemma {:induction false} SamePassing(t: Table, q: Query, n: nat)
    requires n <= |t.order|
    ensures PassingFirst(t, q.(limit := 0), n) == PassingFirst(t, q, n)
  {
    if n > 0 {
      SamePassing(t, q, n - 1);
    }
  }

  lemma {:induction false} PassingComesFrom(t: Table, q: Query, n: nat, k: nat)
    requires WellFormed(t) && n <= |t.order| && k < |PassingFirst(t, q, n)|
    ensures var r := PassingFirst(t, q, n)[k];
             r.fixed.id in t.rows && t.rows[r.fixed.id] == r && r.fixed.id in t.order[..n]
  {
    var id := t.order[n - 1];
    assert t.order[..n] == t.order[..n - 1] + [id];
    if k < |PassingFirst(t, q, n - 1)| {
      PassingComesFrom(t, q, n - 1, k);
    }
  }

  /** The rows come in the order of their insertion. */
  lemma {:induction false} RowsComeInOrder(t: Table, q: Query, n: nat, i: nat, j: nat, a: nat, b: nat)
    requires WellFormed(t) && n <= |t.order| && i < j < |PassingFirst(t, q, n)| && a < |t.order| && b < |t.order|
    requires t.order[a] == PassingFirst(t, q, n)[i].fixed.id && t.order[b] == PassingFirst(t, q, n)[j].fixed.id
    ensures a < b
  {
    var before := PassingFirst(t, q, n - 1);
    if j < |before| {
      RowsComeInOrder(t, q, n - 1, i, j, a, b);
    } else {
      PassingComesFrom(t, q, n - 1, i);
      assert t.order[b] == t.order[n - 1];
      var m :| 0 <= m < n - 1 && t.order[..n - 1][m] == t.order[a];
      assert t.order[m] == t.order[a];
    }
  }
}
