/** X- and Z-report totals: the loop that fills them, and that they are the sums per currency and state. */
module Reports {
  import opened Domain
  import opened Tables

  /** One row of `SELECT currency, state, SUM(amount_cents), COUNT(*) ... GROUP BY currency, state`. */
  datatype Group = Group(currency: string, state: State, total: nat, count: nat)

  datatype CurrencyTotals = CurrencyTotals(currency: string, amount: uint32, count: uint32)

  /** The totals of a report by currency; the code fills three such maps. */
  datatype Report = Report(transactionCount: uint32, sales: map<string, CurrencyTotals>,
                           refunds: map<string, CurrencyTotals>, voids: map<string, CurrencyTotals>)

  // ---------- Specification: sums per currency and state ----------

  function GroupOf(currency: string, state: State): Selection {
    Selection(Open, {currency}, {state})
  }

  function CountOf(t: Table, currency: string, state: State): nat {
    Tally(Rows, t, GroupOf(currency, state))
  }

  function TotalOf(t: Table, currency: string, state: State): nat {
    Tally(Cents, t, GroupOf(currency, state))
  }

  function Currencies(t: Table): set<string> {
    set id | id in t.rows :: t.rows[id].fixed.currency
  }

  /** Currencies with a group that the code can scan: a count beyond 32 bits makes Scan fail and drops the group. */
  function ShownCurrencies(t: Table, state: State): set<string> {
    set c | c in Currencies(t) && 0 < CountOf(t, c, state) < TWO32
  }

  function Entry(t: Table, currency: string, state: State): CurrencyTotals {
    CurrencyTotals(currency, Wrap32(TotalOf(t, currency, state)), Wrap32(CountOf(t, currency, state)))
  }

  function Entries(t: Table, state: State, currencies: set<string>): map<string, CurrencyTotals> {
    map c | c in currencies :: Entry(t, c, state)
  }

  function ReportOf(t: Table): Report {
    var sales := ShownCurrencies(t, PaymentCompleted);
    Report(Wrap32(Tally(Rows, t, Selection(Open, sales, {PaymentCompleted}))),
           Entries(t, PaymentCompleted, sales),
           Entries(t, Refunded, ShownCurrencies(t, Refunded)),
           Entries(t, Voided, ShownCurrencies(t, Voided)))
  }

  function AmountIn(m: map<string, CurrencyTotals>, currency: string): nat {
    if currency in m then m[currency].amount else 0
  }

  /** What a report shows for a currency: sales, refunds and voids together. */
  function ReportTotal(r: Report, currency: string): nat {
    AmountIn(r.sales, currency) + AmountIn(r.refunds, currency) + AmountIn(r.voids, currency)
  }

  // ---------- The query and the loop ----------

  /** A query result: every group of the open batch with a row in it, once, in some order, with its sum and count. */
  ghost predicate IsGroupBy(groups: seq<Group>, t: Table) {
    && (forall i, j :: 0 <= i < j < |groups| ==>
        (groups[i].currency, groups[i].state) != (groups[j].currency, groups[j].state))
    && (forall i :: 0 <= i < |groups| ==>
          && groups[i].count == CountOf(t, groups[i].currency, groups[i].state) > 0
          && groups[i].total == TotalOf(t, groups[i].currency, groups[i].state))
    && (forall c, st :: CountOf(t, c, st) > 0 ==>
          exists i :: 0 <= i < |groups| && groups[i].currency == c && groups[i].state == st)
  }

  function OpenKeys(t: Table): set<(string, State)> {
    set id | id in t.rows && t.rows[id].zReportId == 0 :: (t.rows[id].fixed.currency, t.rows[id].state)
  }

  /** What the database does to answer the query: each key of an open row once, in any order. */
  method QueryGroups(t: Table) returns (groups: seq<Group>)
    requires WellFormed(t)
    ensures IsGroupBy(groups, t)
  {
    hide CountOf, TotalOf, OpenKeys;
    groups := [];
    var pending := OpenKeys(t);
    while pending != {}
      invariant pending <= OpenKeys(t)
      invariant forall i, j :: 0 <= i < j < |groups| ==>
                (groups[i].currency, groups[i].state) != (groups[j].currency, groups[j].state)
      invariant forall i :: 0 <= i < |groups| ==>
          && groups[i].count == CountOf(t, groups[i].currency, groups[i].state) > 0
          && groups[i].total == TotalOf(t, groups[i].currency, groups[i].state)
          && (groups[i].currency, groups[i].state) !in pending
      invariant forall k :: k in OpenKeys(t) - pending ==>
          exists i :: 0 <= i < |groups| && groups[i].currency == k.0 && groups[i].state == k.1
      decreases pending
    {
      var key :| key in pending;
      OpenKeyIsCounted(t, key.0, key.1);
      var g := Group(key.0, key.1, TotalOf(t, key.0, key.1), CountOf(t, key.0, key.1));
      ghost var before := groups;
      groups := groups + [g];
      pending := pending - {key};
      forall k | k in OpenKeys(t) - pending
        ensures exists i :: 0 <= i < |groups| && groups[i].currency == k.0 && groups[i].state == k.1
      {
        if k == key {
          assert groups[|before|] == g;
        } else {
          var i :| 0 <= i < |before| && before[i].currency == k.0 && before[i].state == k.1;
          assert groups[i] == before[i];
        }
      }
    }
    forall c, st | CountOf(t, c, st) > 0
      ensures exists i :: 0 <= i < |groups| && groups[i].currency == c && groups[i].state == st
    {
      OpenKeyIsCounted(t, c, st);
      assert (c, st) in OpenKeys(t) - pending;
    }
  }

  /** A group has rows exactly when its key is that of an open row. */
  lemma OpenKeyIsCounted(t: Table, c: string, st: State)
    requires WellFormed(t)
    ensures CountOf(t, c, st) > 0 <==> (c, st) in OpenKeys(t)
  {
    CountIsZero(t, GroupOf(c, st), |t.order|);
    if (c, st) in OpenKeys(t) {
      var id :| id in t.rows && t.rows[id].zReportId == 0 && (t.rows[id].fixed.currency, t.rows[id].state) == (c, st);
      assert id in t.order;
    }
  }

  /** Currencies already entered for a state after the first n groups. */
  function Done(groups: seq<Group>, n: nat, state: State): set<string>
    requires n <= |groups|
  {
    set i | 0 <= i < n && groups[i].state == state && groups[i].count < TWO32 :: groups[i].currency
  }

  /** generateReport: one pass over the groups, filling three maps and the sales count. */
  method GenerateReport(groups: seq<Group>, ghost t: Table) returns (r: Report)
    requires WellFormed(t) && IsGroupBy(groups, t)
    ensures r == ReportOf(t)
  {
    hide Tally, Done, Entries, CountOf, TotalOf;
    var sales, refunds, voids := map[], map[], map[];
    var transactionCount: uint32 := 0;
    NothingSelected(t, Selection(Open, {}, {PaymentCompleted}));
    NothingDone(groups, t);
    for n := 0 to |groups|
      invariant sales == Entries(t, PaymentCompleted, Done(groups, n, PaymentCompleted))
      invariant refunds == Entries(t, Refunded, Done(groups, n, Refunded))
      invariant voids == Entries(t, Voided, Done(groups, n, Voided))
      invariant transactionCount
             == Wrap32(Tally(Rows, t, Selection(Open, Done(groups, n, PaymentCompleted), {PaymentCompleted})))
    {
      var g := groups[n];
      DoneGrows(groups, n, PaymentCompleted);
      DoneGrows(groups, n, Refunded);
      DoneGrows(groups, n, Voided);
      if g.count >= TWO32 {
        continue;
      }
      var ct := CurrencyTotals(g.currency, Wrap32(g.total), g.count);
      EntriesGrow(t, g.state, Done(groups, n, g.state), g.currency);
      match g.state
      case PaymentCompleted =>
        NotDoneYet(groups, n);
        OneMoreCurrency(t, Done(groups, n, PaymentCompleted), g.currency, PaymentCompleted);
        transactionCount := Wrap32(transactionCount + g.count);
        sales := sales[g.currency := ct];
      case Refunded =>
        refunds := refunds[g.currency := ct];
      case Voided =>
        voids := voids[g.currency := ct];
      case _ =>
    }
    AllDone(groups, t, PaymentCompleted);
    AllDone(groups, t, Refunded);
    AllDone(groups, t, Voided);
    r := Report(transactionCount, sales, refunds, voids);
  }

  lemma NothingDone(groups: seq<Group>, t: Table)
    ensures forall st :: Done(groups, 0, st) == {}
    ensures forall st :: Entries(t, st, {}) == map[]
  {
  }

  lemma EntriesGrow(t: Table, state: State, done: set<string>, c: string)
    ensures Entries(t, state, done + {c}) == Entries(t, state, done)[c := Entry(t, c, state)]
  {
  }

  lemma DoneGrows(groups: seq<Group>, n: nat, state: State)
    requires n < |groups|
    ensures var g := groups[n];
            Done(groups, n + 1, state)
            == if g.state == state && g.count < TWO32 then Done(groups, n, state) + {g.currency}
               else Done(groups, n, state)
  {
    var g := groups[n];
    var more := if g.state == state && g.count < TWO32 then {g.currency} else {};
    forall c | c in Done(groups, n, state) + more ensures c in Done(groups, n + 1, state) {
      if c in more {
        assert groups[n].currency == c;
      } else {
        var i :| 0 <= i < n && groups[i].state == state && groups[i].count < TWO32 && groups[i].currency == c;
      }
    }
  }

  lemma NotDoneYet(groups: seq<Group>, n: nat)
    requires n < |groups|
    requires forall i, j :: 0 <= i < j < |groups| ==>
             (groups[i].currency, groups[i].state) != (groups[j].currency, groups[j].state)
    ensures groups[n].currency !in Done(groups, n, groups[n].state)
  {
  }

  lemma NothingSelected(t: Table, s: Selection)
    requires s.currencies == {}
    ensures Tally(Rows, t, s) == 0
  {
    CountIsZero(t, s, |t.order|);
  }

  /** Counting one more currency adds the rows of its group. */
  lemma OneMoreCurrency(t: Table, done: set<string>, c: string, state: State)
    requires c !in done
    ensures Tally(Rows, t, Selection(Open, done + {c}, {state}))
         == Tally(Rows, t, Selection(Open, done, {state})) + CountOf(t, c, state)
  {
    WeightsAdd(Rows, t, Selection(Open, done, {state}), GroupOf(c, state), Selection(Open, done + {c}, {state}),
               |t.order|);
  }

  lemma CountedCurrencyOccurs(t: Table, c: string, st: State)
    requires WellFormed(t)
    ensures CountOf(t, c, st) > 0 ==> c in Currencies(t)
  {
    OpenKeyIsCounted(t, c, st);
    if (c, st) in OpenKeys(t) {
      var id :| id in t.rows && t.rows[id].zReportId == 0 && (t.rows[id].fixed.currency, t.rows[id].state) == (c, st);
      assert t.rows[id].fixed.currency in Currencies(t);
    }
  }

  lemma AllDone(groups: seq<Group>, t: Table, state: State)
    requires WellFormed(t) && IsGroupBy(groups, t)
    ensures Done(groups, |groups|, state) == ShownCurrencies(t, state)
  {
    hide Tally;
    var done := Done(groups, |groups|, state);
    forall c | c in done ensures c in ShownCurrencies(t, state) {
      var i :| 0 <= i < |groups| && groups[i].state == state && groups[i].count < TWO32 && groups[i].currency == c;
      CountedCurrencyOccurs(t, c, state);
    }
    forall c | c in ShownCurrencies(t, state) ensures c in done {
      var i :| 0 <= i < |groups| && groups[i].currency == c && groups[i].state == state;
      assert groups[i].count < TWO32;
    }
  }

  /** toSlice: the totals of one kind as a list, in any order. */
  method ToSlice(m: map<string, CurrencyTotals>) returns (s: seq<CurrencyTotals>)
    requires forall c :: c in m ==> m[c].currency == c
    ensures forall i, j :: 0 <= i < j < |s| ==> s[i].currency != s[j].currency
    ensures forall ct :: ct in s <==> ct.currency in m && m[ct.currency] == ct
  {
    s := [];
    var pending := m.Keys;
    while pending != {}
      invariant pending <= m.Keys
      invariant forall i, j :: 0 <= i < j < |s| ==> s[i].currency != s[j].currency
      invariant forall ct :: ct in s <==> ct.currency in m && ct.currency !in pending && m[ct.currency] == ct
      decreases pending
    {
      var c :| c in pending;
      assert forall i :: 0 <= i < |s| ==> s[i] in s;
      s := s + [m[c]];
      pending := pending - {c};
    }
  }

  // ---------- What a report's totals amount to ----------

  lemma SettledIsThreeGroups(m: Measure, t: Table, c: string)
    ensures Tally(m, t, Selection(Open, {c}, SETTLED))
         == Tally(m, t, GroupOf(c, PaymentCompleted)) + Tally(m, t, GroupOf(c, Refunded))
          + Tally(m, t, GroupOf(c, Voided))
  {
    var two := Selection(Open, {c}, {PaymentCompleted, Refunded});
    WeightsAdd(m, t, GroupOf(c, PaymentCompleted), GroupOf(c, Refunded), two, |t.order|);
    WeightsAdd(m, t, two, GroupOf(c, Voided), Selection(Open, {c}, SETTLED), |t.order|);
  }

  /** What a report shows for a group: its sum modulo 2^32, and nothing if the count of its rows cannot be scanned. */
  function GroupShown(t: Table, c: string, state: State): uint32 {
    if CountOf(t, c, state) < TWO32 then Wrap32(TotalOf(t, c, state)) else 0
  }

  /** An absent entry shows zero, as a group without rows does. */
  lemma EntryAmount(t: Table, c: string, state: State)
    requires WellFormed(t)
    ensures AmountIn(Entries(t, state, ShownCurrencies(t, state)), c) == GroupShown(t, c, state)
  {
    TallyBounds(t, GroupOf(c, state), TWO32 - 1, |t.order|);
    CountedCurrencyOccurs(t, c, state);
    if CountOf(t, c, state) == 0 {
      assert TotalOf(t, c, state) <= 0 * (TWO32 - 1);
    }
  }

  /** The sum of a group fits 32 bits, and so does the count of its rows unless they are all of amount zero. */
  predicate GroupFits(t: Table, c: string, state: State) {
    TotalOf(t, c, state) < TWO32 && (CountOf(t, c, state) < TWO32 || TotalOf(t, c, state) == 0)
  }

  predicate GroupsFit(t: Table, c: string) {
    GroupFits(t, c, PaymentCompleted) && GroupFits(t, c, Refunded) && GroupFits(t, c, Voided)
  }

  /** The counts of the rows in the three groups of a currency fit 32 bits. */
  predicate CountsFit(t: Table, c: string) {
    CountOf(t, c, PaymentCompleted) < TWO32 && CountOf(t, c, Refunded) < TWO32 && CountOf(t, c, Voided) < TWO32
  }

  lemma ShownIsAtMost(t: Table, c: string, state: State)
    ensures GroupShown(t, c, state) <= TotalOf(t, c, state)
    ensures GroupShown(t, c, state) == TotalOf(t, c, state) <==> GroupFits(t, c, state)
  {
    hide TotalOf, CountOf;
  }

  /**
   * A report shows at most the sum of the settled open rows of a currency, and exactly that if and only if every group
   * fits; the two are equal modulo 2^32 as long as the counts fit.
   */
  lemma ReportShowsOpenBatch(t: Table, c: string)
    requires WellFormed(t)
    ensures var shown, sum := ReportTotal(ReportOf(t), c), Tally(Cents, t, Selection(Open, {c}, SETTLED));
            && shown <= sum
            && (shown == sum <==> GroupsFit(t, c))
            && (CountsFit(t, c) ==> Wrap32(shown) == Wrap32(sum))
  {
    hide Tally, TotalOf, CountOf, GroupFits, Entries, ShownCurrencies, Currencies, WellFormed;
    SettledIsThreeGroups(Cents, t, c);
    TotalsAreTallies(t, c);
    EntryAmount(t, c, PaymentCompleted);
    EntryAmount(t, c, Refunded);
    EntryAmount(t, c, Voided);
    ShownIsAtMost(t, c, PaymentCompleted);
    ShownIsAtMost(t, c, Refunded);
    ShownIsAtMost(t, c, Voided);
    WrapThree(TotalOf(t, c, PaymentCompleted), TotalOf(t, c, Refunded), TotalOf(t, c, Voided));
  }

  lemma TotalsAreTallies(t: Table, c: string)
    ensures forall state :: TotalOf(t, c, state) == Tally(Cents, t, GroupOf(c, state))
  {
    hide Tally;
  }

  lemma WrapThree(x: nat, y: nat, z: nat)
    ensures Wrap32(Wrap32(x) + Wrap32(y) + Wrap32(z)) == Wrap32(x + y + z)
  {
    assert x == Wrap32(x) + x / TWO32 * TWO32;
    assert y == Wrap32(y) + y / TWO32 * TWO32;
    assert z == Wrap32(z) + z / TWO32 * TWO32;
  }

  /** A group of k rows cannot overflow when k times the largest amount fits 32 bits. */
  lemma FewRowsFit(t: Table, c: string, cap: nat)
    requires forall id :: id in t.rows ==> t.rows[id].fixed.amount <= cap
    requires forall state :: state in SETTLED ==> CountOf(t, c, state) * cap < TWO32
    ensures GroupsFit(t, c)
  {
    FewRowsFitOne(t, c, PaymentCompleted, cap);
    FewRowsFitOne(t, c, Refunded, cap);
    FewRowsFitOne(t, c, Voided, cap);
  }

  lemma FewRowsFitOne(t: Table, c: string, state: State, cap: nat)
    requires forall id :: id in t.rows ==> t.rows[id].fixed.amount <= cap
    requires CountOf(t, c, state) * cap < TWO32
    ensures GroupFits(t, c, state)
  {
    TallyBounds(t, GroupOf(c, state), cap, |t.order|);
    if cap > 0 {
      AtLeastItself(CountOf(t, c, state), cap);
    }
  }

  lemma AtLeastItself(a: nat, b: nat)
    requires b > 0
    ensures a <= a * b
  {
  }

  /** In a group whose rows all have one amount the sum is the count times that amount. */
  lemma {:induction false} EqualAmounts(t: Table, s: Selection, amount: nat, n: nat)
    requires n <= |t.order|
    requires forall id :: id in t.rows && Selects(s, t.rows[id]) ==> t.rows[id].fixed.amount == amount
    ensures TallyFirst(Cents, t, s, n) == TallyFirst(Rows, t, s, n) * amount
  {
    if n > 0 {
      EqualAmounts(t, s, amount, n - 1);
      Distribute(TallyFirst(Rows, t, s, n - 1), Weight(Rows, t, s, t.order[n - 1]), amount);
    }
  }

  /**
   * The transaction count is the number of sales in the open batch modulo 2^32, as long as that of each currency fits.
   */
  lemma CountIsOpenSales(t: Table)
    requires WellFormed(t) && forall c :: CountOf(t, c, PaymentCompleted) < TWO32
    ensures ReportOf(t).transactionCount
         == Wrap32(Tally(Rows, t, Selection(Open, Currencies(t), {PaymentCompleted})))
  {
    var shown := ShownCurrencies(t, PaymentCompleted);
    var s, all := Selection(Open, shown, {PaymentCompleted}), Selection(Open, Currencies(t), {PaymentCompleted});
    forall i | 0 <= i < |t.order| ensures Weight(Rows, t, s, t.order[i]) == Weight(Rows, t, all, t.order[i]) {
      var id := t.order[i];
      var r := t.rows[id];
      if Selects(all, r) {
        assert (r.fixed.currency, r.state) in OpenKeys(t);
        OpenKeyIsCounted(t, r.fixed.currency, PaymentCompleted);
      }
    }
    SameWeights(Rows, t, s, t, all, |t.order|);
  }

  const EMPTY_REPORT := Report(0, map[], map[], map[])

  lemma NothingOpenNothingShown(t: Table)
    requires WellFormed(t) && OpenIds(t) == {}
    ensures ReportOf(t) == EMPTY_REPORT
  {
    hide Tally;
    assert forall id :: id in t.rows ==> id !in OpenIds(t);
    forall c, state ensures CountOf(t, c, state) == 0 {
      OpenKeyIsCounted(t, c, state);
    }
    NothingSelected(t, Selection(Open, {}, {PaymentCompleted}));
    assert forall state :: ShownCurrencies(t, state) == {};
  }

  // ---------- Which map holds what ----------

  /** The open rows of a currency in a state. */
  function OpenRows(t: Table, c: string, state: State): set<string> {
    set id | id in t.rows && t.rows[id].zReportId == 0 && t.rows[id].fixed.currency == c && t.rows[id].state == state
  }

  lemma CountIsOpenRows(t: Table, c: string, state: State)
    requires WellFormed(t)
    ensures CountOf(t, c, state) == |OpenRows(t, c, state)|
  {
    hide Tally;
    CountIsCardinality(t, GroupOf(c, state));
    assert OpenRows(t, c, state) == set id | id in t.rows && Selects(GroupOf(c, state), t.rows[id]);
  }

  /** A map shows for a currency the rows of one state: their number, and their sum modulo 2^32. */
  ghost predicate Holds(m: map<string, CurrencyTotals>, t: Table, state: State, c: string) {
    var n := |OpenRows(t, c, state)|;
    && (c in m <==> 0 < n < TWO32)
    && (c in m ==> m[c].currency == c && m[c].count == n && m[c].amount == TotalOf(t, c, state) % TWO32)
  }

  lemma EntriesHold(t: Table, state: State, c: string)
    requires WellFormed(t)
    ensures Holds(Entries(t, state, ShownCurrencies(t, state)), t, state, c)
    ensures AmountIn(Entries(t, state, ShownCurrencies(t, state)), c) == GroupShown(t, c, state)
  {
    hide TotalOf, CountOf, OpenRows;
    CountIsOpenRows(t, c, state);
    CountedCurrencyOccurs(t, c, state);
    EntryAmount(t, c, state);
  }

  /** Sales are the completed rows, refunds the refunded and voids the voided ones, by amount and by count. */
  lemma MapsHoldTheirKind(t: Table, c: string)
    requires WellFormed(t)
    ensures var r := ReportOf(t);
            && Holds(r.sales, t, PaymentCompleted, c)
            && Holds(r.refunds, t, Refunded, c)
            && Holds(r.voids, t, Voided, c)
            && AmountIn(r.sales, c) == GroupShown(t, c, PaymentCompleted)
            && AmountIn(r.refunds, c) == GroupShown(t, c, Refunded)
            && AmountIn(r.voids, c) == GroupShown(t, c, Voided)
  {
    hide Entries, ShownCurrencies, Holds, GroupShown, Tally;
    EntriesHold(t, PaymentCompleted, c);
    EntriesHold(t, Refunded, c);
    EntriesHold(t, Voided, c);
  }

  lemma OneRowTotal(t: Table, id: string)
    requires WellFormed(t) && t.order == [id] && t.rows[id].zReportId == 0
    ensures TotalOf(t, t.rows[id].fixed.currency, t.rows[id].state) == t.rows[id].fixed.amount
  {
    assert TallyFirst(Cents, t, GroupOf(t.rows[id].fixed.currency, t.rows[id].state), 0) == 0;
  }

  lemma OneRowCounts(t: Table, id: string, c: string, state: State)
    requires WellFormed(t) && t.order == [id] && t.rows[id].zReportId == 0
    ensures CountOf(t, c, state) == if c == t.rows[id].fixed.currency && state == t.rows[id].state then 1 else 0
    ensures Currencies(t) == {t.rows[id].fixed.currency}
  {
    hide Tally;
    CountIsOpenRows(t, c, state);
    assert t.rows.Keys == {id} by { assert forall x :: x in t.rows <==> x in t.order; }
    assert OpenRows(t, c, state) == if c == t.rows[id].fixed.currency && state == t.rows[id].state then {id} else {};
  }

  lemma OneRowEntries(t: Table, id: string, state: State)
    requires WellFormed(t) && t.order == [id] && t.rows[id].zReportId == 0
    ensures var c := t.rows[id].fixed.currency;
            Entries(t, state, ShownCurrencies(t, state))
            == if t.rows[id].state == state then map[c := CurrencyTotals(c, t.rows[id].fixed.amount, 1)] else map[]
    ensures ShownCurrencies(t, state) == if t.rows[id].state == state then {t.rows[id].fixed.currency} else {}
  {
    hide Tally, TotalOf, CountOf, Currencies;
    OneRowTotal(t, id);
    OneRowCounts(t, id, t.rows[id].fixed.currency, state);
  }

  lemma OneRowSales(t: Table, id: string)
    requires WellFormed(t) && t.order == [id] && t.rows[id].zReportId == 0
    ensures Tally(Rows, t, Selection(Open, ShownCurrencies(t, PaymentCompleted), {PaymentCompleted}))
         == if t.rows[id].state == PaymentCompleted then 1 else 0
  {
    hide Tally, ShownCurrencies;
    var c := t.rows[id].fixed.currency;
    OneRowEntries(t, id, PaymentCompleted);
    OneRowCounts(t, id, c, PaymentCompleted);
    NothingSelected(t, Selection(Open, {}, {PaymentCompleted}));
  }

  /** A batch of one row: a voided row is shown under voids, a refunded one under refunds, a sale under sales. */
  lemma ReportOfOneRow(t: Table, id: string)
    requires WellFormed(t) && t.order == [id] && t.rows[id].zReportId == 0
    ensures var r, row := ReportOf(t), t.rows[id];
            var shown := map[row.fixed.currency := CurrencyTotals(row.fixed.currency, row.fixed.amount, 1)];
            && r.sales == (if row.state == PaymentCompleted then shown else map[])
            && r.refunds == (if row.state == Refunded then shown else map[])
            && r.voids == (if row.state == Voided then shown else map[])
            && r.transactionCount == (if row.state == PaymentCompleted then 1 else 0)
  {
    hide Tally, Entries, ShownCurrencies;
    OneRowEntries(t, id, PaymentCompleted);
    OneRowEntries(t, id, Refunded);
    OneRowEntries(t, id, Voided);
    OneRowSales(t, id);
  }
}
