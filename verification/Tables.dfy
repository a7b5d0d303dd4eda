/** The transactions table: rows by primary key, in insertion order, and sums over selections of rows. */
module Tables {
  import opened Domain

  /** `order` lists the keys in the order of their INSERTs. */
  datatype Table = Table(rows: map<string, Row>, order: seq<string>)

  const EMPTY := Table(map[], [])

  ghost predicate WellFormed(t: Table) {
    && (forall i, j :: 0 <= i < j < |t.order| ==> t.order[i] != t.order[j])
    && (forall id :: id in t.order <==> id in t.rows)
    && (forall id :: id in t.rows ==> t.rows[id].fixed.id == id)
  }

  function Append(t: Table, id: string, r: Row): Table {
    Table(t.rows[id := r], t.order + [id])
  }

  function Put(t: Table, id: string, r: Row): Table {
    Table(t.rows[id := r], t.order)
  }

  /** `UPDATE transactions SET z_report_id = n WHERE z_report_id = 0`. */
  function StampOpen(t: Table, n: nat): Table {
    Table(map id | id in t.rows :: if t.rows[id].zReportId == 0 then t.rows[id].(zReportId := n) else t.rows[id],
          t.order)
  }

  function OpenIds(t: Table): set<string> {
    set id | id in t.rows && t.rows[id].zReportId == 0
  }

  // ---------- Selections and sums ----------

  datatype Batch = Open | Closed | AnyBatch

  datatype Measure = Cents | Rows

  datatype Selection = Selection(batch: Batch, currencies: set<string>, states: set<State>)

  const SETTLED: set<State> := {PaymentCompleted, Refunded, Voided}

  predicate Selects(s: Selection, r: Row) {
    && (s.batch == Open ==> r.zReportId == 0)
    && (s.batch == Closed ==> r.zReportId != 0)
    && r.fixed.currency in s.currencies
    && r.state in s.states
  }

  function Weight(m: Measure, t: Table, s: Selection, id: string): nat {
    if id in t.rows && Selects(s, t.rows[id]) then (if m == Cents then t.rows[id].fixed.amount else 1) else 0
  }

  /** Sum of the amounts, or number, of the selected rows among the first n. */
  function TallyFirst(m: Measure, t: Table, s: Selection, n: nat): nat
    requires n <= |t.order|
  {
    if n == 0 then 0 else TallyFirst(m, t, s, n - 1) + Weight(m, t, s, t.order[n - 1])
  }

  function Tally(m: Measure, t: Table, s: Selection): nat {
    TallyFirst(m, t, s, |t.order|)
  }

  /** Selections that weigh every row alike, over tables with the same keys, have the same sum. */
  lemma {:induction false} SameWeights(m: Measure, t: Table, s: Selection, t': Table, s': Selection, n: nat)
    requires n <= |t.order| <= |t'.order| && t.order[..n] == t'.order[..n]
    requires forall i :: 0 <= i < n ==> Weight(m, t, s, t.order[i]) == Weight(m, t', s', t.order[i])
    ensures TallyFirst(m, t, s, n) == TallyFirst(m, t', s', n)
  {
    if n > 0 {
      assert t.order[..n - 1] == t.order[..n][..n - 1] == t'.order[..n][..n - 1] == t'.order[..n - 1];
      SameWeights(m, t, s, t', s', n - 1);
      assert t.order[n - 1] == t.order[..n][n - 1] == t'.order[..n][n - 1] == t'.order[n - 1];
    }
  }

  /** A selection that splits into two that never overlap has the sum of both. */
  lemma {:induction false} WeightsAdd(m: Measure, t: Table, a: Selection, b: Selection, c: Selection, n: nat)
    requires n <= |t.order|
    requires forall i :: 0 <= i < n ==>
               Weight(m, t, c, t.order[i]) == Weight(m, t, a, t.order[i]) + Weight(m, t, b, t.order[i])
    ensures TallyFirst(m, t, c, n) == TallyFirst(m, t, a, n) + TallyFirst(m, t, b, n)
  {
    if n > 0 {
      WeightsAdd(m, t, a, b, c, n - 1);
    }
  }

  /** No selection counts more rows than there are, nor amounts beyond the cap for each counted row. */
  lemma {:induction false} TallyBounds(t: Table, s: Selection, cap: nat, n: nat)
    requires n <= |t.order|
    requires forall id :: id in t.rows ==> t.rows[id].fixed.amount <= cap
    ensures TallyFirst(Rows, t, s, n) <= n
    ensures TallyFirst(Cents, t, s, n) <= TallyFirst(Rows, t, s, n) * cap
  {
    if n > 0 {
      TallyBounds(t, s, cap, n - 1);
      var w := Weight(Rows, t, s, t.order[n - 1]);
      assert Weight(Cents, t, s, t.order[n - 1]) <= w * cap;
      Distribute(TallyFirst(Rows, t, s, n - 1), w, cap);
    }
  }

  lemma Distribute(a: nat, b: nat, c: nat)
    ensures (a + b) * c == a * c + b * c
  {
  }

  /** A count is zero exactly when no row is selected. */
  lemma {:induction false} CountIsZero(t: Table, s: Selection, n: nat)
    requires n <= |t.order|
    ensures TallyFirst(Rows, t, s, n) == 0 <==>
            forall i :: 0 <= i < n ==> !(t.order[i] in t.rows && Selects(s, t.rows[t.order[i]]))
  {
    if n > 0 {
      CountIsZero(t, s, n - 1);
    }
  }

  // ---------- How the table evolves ----------

  function Rank(s: State): nat {
    match s
    case PaymentCompleted => 0
    case Voided => 1
    case Refunded => 2
    case _ => 3
  }

  /** A settled row never becomes completed or failed again, a refunded row stays refunded, a failed one failed. */
  predicate StateEvolves(s: State, s': State) {
    s == s' || (s in SETTLED && s' in SETTLED && Rank(s) < Rank(s'))
  }

  /** What can happen to a row: its state moves on, its stamp is set once, its response is stored. */
  predicate RowEvolves(r: Row, r': Row) {
    && r'.fixed == r.fixed
    && StateEvolves(r.state, r'.state)
    && (r.zReportId == 0 || r'.zReportId == r.zReportId)
  }

  ghost predicate Evolves(t: Table, t': Table) {
    && t.order <= t'.order
    && (forall id :: id in t.rows ==> id in t'.rows && RowEvolves(t.rows[id], t'.rows[id]))
  }

  lemma AppendIsWellFormed(t: Table, id: string, r: Row)
    requires WellFormed(t) && id !in t.rows && r.fixed.id == id
    ensures WellFormed(Append(t, id, r)) && Evolves(t, Append(t, id, r))
  {
    hide RowEvolves;
    var t' := Append(t, id, r);
    forall i | 0 <= i < |t.order| ensures t'.order[i] == t.order[i] && t'.order[i] != id {
      assert t.order[i] in t.order;
    }
    forall id' | id' in t.rows ensures RowEvolves(t.rows[id'], t'.rows[id']) {
      RowEvolvesToItself(t.rows[id']);
    }
    assert forall id' :: id' in t'.order <==> id' in t.order || id' == id;
  }

  lemma RowEvolvesToItself(r: Row)
    ensures RowEvolves(r, r)
  {
  }

  lemma EvolvesToItself(t: Table)
    ensures Evolves(t, t)
  {
  }

  lemma EvolvesTransitively(t: Table, t': Table, t'': Table)
    requires Evolves(t, t') && Evolves(t', t'')
    ensures Evolves(t, t'')
  {
    assert forall id :: id in t.rows ==> RowEvolves(t.rows[id], t'.rows[id]) && RowEvolves(t'.rows[id], t''.rows[id]);
  }

  /** Between two tables with the same keys and stamps, states moving on change no sum over all settled states. */
  lemma SettledSumIsKept(m: Measure, t: Table, t': Table, batch: Batch, currency: string)
    requires Evolves(t, t') && t.order == t'.order && t.rows.Keys == t'.rows.Keys
    requires forall id :: id in t.rows ==> t.rows[id].zReportId == t'.rows[id].zReportId
    ensures Tally(m, t, Selection(batch, {currency}, SETTLED)) == Tally(m, t', Selection(batch, {currency}, SETTLED))
  {
    var s := Selection(batch, {currency}, SETTLED);
    forall i | 0 <= i < |t.order| ensures Weight(m, t, s, t.order[i]) == Weight(m, t', s, t.order[i]) {
      if t.order[i] in t.rows {
        assert RowEvolves(t.rows[t.order[i]], t'.rows[t.order[i]]);
      }
    }
    SameWeights(m, t, s, t', s, |t.order|);
  }

  /** Stamping moves exactly the open rows of every selection into the closed ones. */
  lemma StampingMovesOpenRows(m: Measure, t: Table, n: nat, currency: string)
    requires n > 0
    ensures var t' := StampOpen(t, n);
            var open, closed := Selection(Open, {currency}, SETTLED), Selection(Closed, {currency}, SETTLED);
            && Tally(m, t', closed) == Tally(m, t, closed) + Tally(m, t, open)
            && Tally(m, t', open) == 0
  {
    var t' := StampOpen(t, n);
    var open, closed := Selection(Open, {currency}, SETTLED), Selection(Closed, {currency}, SETTLED);
    var all := Selection(AnyBatch, {currency}, SETTLED);
    var none := Selection(AnyBatch, {}, {});
    SameWeights(m, t', closed, t, all, |t.order|);
    WeightsAdd(m, t, closed, open, all, |t.order|);
    SameWeights(m, t', open, t, none, |t.order|);
    WeightsAdd(m, t, none, none, none, |t.order|);
  }

  /** Every settled row of a currency is in the open batch or in a closed one. */
  lemma OpenAndClosed(m: Measure, t: Table, currency: string)
    ensures Tally(m, t, Selection(AnyBatch, {currency}, SETTLED))
         == Tally(m, t, Selection(Closed, {currency}, SETTLED)) + Tally(m, t, Selection(Open, {currency}, SETTLED))
  {
    WeightsAdd(m, t, Selection(Closed, {currency}, SETTLED), Selection(Open, {currency}, SETTLED),
               Selection(AnyBatch, {currency}, SETTLED), |t.order|);
  }

  // ---------- Batch stamps ----------

  /** `SELECT COALESCE(MAX(z_report_id), 0)`, over the first n rows. */
  function MaxStampFirst(t: Table, n: nat): nat
    requires n <= |t.order|
  {
    if n == 0 then 0
    else
      var m := MaxStampFirst(t, n - 1);
      var id := t.order[n - 1];
      if id in t.rows && t.rows[id].zReportId > m then t.rows[id].zReportId else m
  }

  function MaxStamp(t: Table): nat {
    MaxStampFirst(t, |t.order|)
  }

  lemma {:induction false} MaxStampIsMax(t: Table, n: nat)
    requires n <= |t.order|
    ensures forall i :: 0 <= i < n && t.order[i] in t.rows ==> t.rows[t.order[i]].zReportId <= MaxStampFirst(t, n)
    ensures MaxStampFirst(t, n) == 0 ||
            exists i :: 0 <= i < n && t.order[i] in t.rows && t.rows[t.order[i]].zReportId == MaxStampFirst(t, n)
  {
    if n > 0 {
      MaxStampIsMax(t, n - 1);
      if MaxStampFirst(t, n) != 0 && MaxStampFirst(t, n) == MaxStampFirst(t, n - 1) {
        var i :| 0 <= i < n - 1 && t.order[i] in t.rows && t.rows[t.order[i]].zReportId == MaxStampFirst(t, n - 1);
        assert t.rows[t.order[i]].zReportId == MaxStampFirst(t, n);
      }
    }
  }

  /** The maximum is the only bound that is reached. */
  lemma MaxStampIs(t: Table, n: nat)
    requires WellFormed(t)
    requires forall id :: id in t.rows ==> t.rows[id].zReportId <= n
    requires n > 0 ==> exists id :: id in t.rows && t.rows[id].zReportId == n
    ensures MaxStamp(t) == n
  {
    MaxStampIsMax(t, |t.order|);
    assert forall i :: 0 <= i < |t.order| ==> t.order[i] in t.order;
    if n > 0 {
      var id :| id in t.rows && t.rows[id].zReportId == n;
      assert id in t.order;
    }
  }

  lemma StampsAtMostMax(t: Table)
    requires WellFormed(t)
    ensures forall id :: id in t.rows ==> t.rows[id].zReportId <= MaxStamp(t)
  {
    MaxStampIsMax(t, |t.order|);
    forall id | id in t.rows ensures t.rows[id].zReportId <= MaxStamp(t) {
      assert id in t.order;
    }
  }

  /** Stamping the open rows with the next number: the maximum moves by one exactly when there are open rows. */
  lemma StampMax(t: Table)
    requires WellFormed(t)
    ensures MaxStamp(StampOpen(t, MaxStamp(t) + 1)) == if OpenIds(t) == {} then MaxStamp(t) else MaxStamp(t) + 1
  {
    var n := MaxStamp(t) + 1;
    var t' := StampOpen(t, n);
    StampsAtMostMax(t);
    if OpenIds(t) == {} {
      assert forall id :: id in t.rows ==> id !in OpenIds(t);
      assert t'.rows == t.rows;
    } else {
      var id :| id in OpenIds(t);
      assert t'.rows[id].zReportId == n;
      MaxStampIs(t', n);
    }
  }

  lemma StampingClosesAll(t: Table, n: nat)
    requires n > 0
    ensures OpenIds(StampOpen(t, n)) == {}
  {
  }

  lemma StampEvolves(t: Table, n: nat)
    requires WellFormed(t)
    ensures WellFormed(StampOpen(t, n)) && Evolves(t, StampOpen(t, n))
  {
  }

  /** Without open rows stamping changes nothing. */
  lemma NothingToStamp(t: Table, n: nat)
    requires OpenIds(t) == {}
    ensures StampOpen(t, n) == t
  {
    assert forall id :: id in t.rows ==> id !in OpenIds(t);
    assert StampOpen(t, n).rows == t.rows;
  }

  // ---------- What is counted ----------

  function SelectedFirst(t: Table, s: Selection, n: nat): set<string>
    requires n <= |t.order|
  {
    set id | id in t.order[..n] && id in t.rows && Selects(s, t.rows[id])
  }

  lemma OneMoreSelected(t: Table, s: Selection, n: nat)
    requires WellFormed(t) && n < |t.order|
    ensures t.order[n] !in SelectedFirst(t, s, n)
    ensures SelectedFirst(t, s, n + 1)
         == SelectedFirst(t, s, n) + (if Selects(s, t.rows[t.order[n]]) then {t.order[n]} else {})
  {
    hide Selects;
    assert t.order[..n + 1] == t.order[..n] + [t.order[n]];
    assert t.order[n] in t.order;
  }

  lemma {:induction false} CountsFirst(t: Table, s: Selection, n: nat)
    requires WellFormed(t) && n <= |t.order|
    ensures TallyFirst(Rows, t, s, n) == |SelectedFirst(t, s, n)|
  {
    hide Selects, SelectedFirst, Weight, WellFormed;
    NoneSelected(t, s);
    if n > 0 {
      CountsFirst(t, s, n - 1);
      OneMoreSelected(t, s, n - 1);
      SelectedWeighsOne(t, s, n - 1);
    }
  }

  lemma NoneSelected(t: Table, s: Selection)
    ensures SelectedFirst(t, s, 0) == {}
  {
  }

  lemma SelectedWeighsOne(t: Table, s: Selection, i: nat)
    requires WellFormed(t) && i < |t.order|
    ensures t.order[i] in t.rows && Weight(Rows, t, s, t.order[i]) == if Selects(s, t.rows[t.order[i]]) then 1 else 0
  {
    assert t.order[i] in t.order;
  }

  /** The count of a selection is the number of its rows. */
  lemma CountIsCardinality(t: Table, s: Selection)
    requires WellFormed(t)
    ensures Tally(Rows, t, s) == |set id | id in t.rows && Selects(s, t.rows[id])|
  {
    CountsFirst(t, s, |t.order|);
    assert t.order[..|t.order|] == t.order;
    assert SelectedFirst(t, s, |t.order|) == set id | id in t.rows && Selects(s, t.rows[id]);
  }
}
