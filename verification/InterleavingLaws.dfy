/** What holds over every run of the interleaved transaction manager. */
module InterleavingLaws {
  import opened Wrappers
  import opened Decimals
  import opened Domain
  import opened Tables
  import opened Ledgers
  import opened Reports
  import opened DetailedReports
  import opened Interleavings
  import opened InterleavingSteps

  lemma InitialOk(cfg: Config)
    ensures Inv(Initial(cfg))
  {
  }

  lemma {:induction false} RunKeeps(s: System, actions: seq<Action>)
    requires Inv(s) && s.steps + |actions| <= LONGEST_RUN
    ensures Inv(Run(s, actions)) && Run(s, actions).steps == s.steps + |actions|
    ensures Evolves(s.ledger.table, Run(s, actions).ledger.table)
    decreases |actions|
  {
    hide Inv, Evolves, Effect;
    if actions == [] {
      EvolvesToItself(s.ledger.table);
    } else {
      var front := actions[..|actions| - 1];
      RunKeeps(s, front);
      StepKeeps(Run(s, front), actions[|actions| - 1]);
      EvolvesTransitively(s.ledger.table, Run(s, front).ledger.table, Run(s, actions).ledger.table);
    }
  }

  /** The states that some run from an empty terminal reaches before the 64-bit receipt counter could wrap. */
  ghost predicate Reachable(s: System) {
    exists cfg, actions :: |actions| <= LONGEST_RUN && s == Run(Initial(cfg), actions)
  }

  lemma ReachableOk(s: System)
    requires Reachable(s)
    ensures Inv(s) && s.steps <= LONGEST_RUN
  {
    var cfg, actions :| |actions| <= LONGEST_RUN && s == Run(Initial(cfg), actions);
    InitialOk(cfg);
    RunKeeps(Initial(cfg), actions);
  }

  // ---------- Settlement ----------

  /**
   * At-most-once settlement, id reuse included: whatever runs on, an id keeps its one row; nothing in it changes but
   * the state, which moves forward only, the stamp, which is set once, and the stored response.
   */
  lemma SettlementIsFinal(s: System, actions: seq<Action>, id: string)
    requires Reachable(s) && s.steps + |actions| <= LONGEST_RUN
    requires id in s.ledger.table.rows
    ensures var r, rows := s.ledger.table.rows[id], Run(s, actions).ledger.table.rows;
            && id in rows
            && rows[id].fixed == r.fixed
            && (r.state == Failed ==> rows[id].state == Failed)
            && (r.state != PaymentCompleted ==> rows[id].state != PaymentCompleted)
            && (r.state != Failed ==> rows[id].state != Failed)
            && (r.zReportId != 0 ==> rows[id].zReportId == r.zReportId)
  {
    hide PartsOk, Run, Reachable;
    ReachableOk(s);
    RunKeeps(s, actions);
    assert RowEvolves(s.ledger.table.rows[id], Run(s, actions).ledger.table.rows[id]);
  }

  /** Each id occurs once in the order of insertion, and rows are never deleted or moved. */
  lemma OneRowPerId(s: System, actions: seq<Action>)
    requires Reachable(s) && s.steps + |actions| <= LONGEST_RUN
    ensures var t, t' := s.ledger.table, Run(s, actions).ledger.table;
            && t.order <= t'.order
            && (forall i, j :: 0 <= i < j < |t'.order| ==> t'.order[i] != t'.order[j])
            && t'.rows.Keys == (set id | id in t'.order)
  {
    hide PartsOk, Run, Reachable;
    ReachableOk(s);
    RunKeeps(s, actions);
    TablesAreWellFormed(Run(s, actions));
  }

  /** Void succeeds at most once per id, under every interleaving. */
  lemma VoidSucceedsAtMostOnce(s: System)
    requires Reachable(s)
    ensures forall i, j :: 0 <= i < j < |s.voided| ==> s.voided[i] != s.voided[j]
  {
    ReachableOk(s);
  }

  /** The terminal holds the id, as an active transaction or as a row. */
  predicate Known(s: System, id: string) {
    id in s.ledger.active || id in s.ledger.table.rows
  }

  lemma StaysKnown(s: System, a: Action, id: string)
    requires Inv(s) && !a.RestartTerminal? && Known(s, id)
    ensures Known(Effect(s, a), id)
  {
    hide BatchesOk, ReceiptsOk, VoidsOk, LockFreeOk, TableOk, Begin, Continue;
    match a
    case Start(t, op) => BeginKeepsKnown(s, t, op, id);
    case Advance(t) =>
      assert HoldsMutex(PhaseOf(s, t)) ==> s.mutex == Some(t);
      ContinueKeepsKnown(s, t, id);
  }

  lemma BeginKeepsKnown(s: System, t: Tid, op: Op, id: string)
    requires Known(s, id)
    ensures Known(Begin(s, t, op), id)
  {
    hide CheckNew;
  }

  lemma ContinueKeepsKnown(s: System, t: Tid, id: string)
    requires Known(s, id)
    requires PhaseOf(s, t).CompleteDrop? || PhaseOf(s, t).FailDrop? ==> PhaseOf(s, t).id in s.ledger.table.rows
    ensures Known(Continue(s, t), id)
  {
    hide MarkCompleted, MarkFailed, Insert, PersistCounter, StampOpen, StoreRefund, MaxStamp;
    var l := s.ledger;
    match PhaseOf(s, t)
    case CompleteMark(x, confirmation, auth, now) =>
      if x in l.active { MarkKeepsKnown(l, x, confirmation, auth, "", now, id); }
    case FailMark(x, error, now) => if x in l.active { MarkKeepsKnown(l, x, "", "", error, now, id); }
    case CompleteInsert(x) => if x in l.active { InsertKeepsKnown(l, x, id); }
    case FailInsert(x) => if x in l.active { InsertKeepsKnown(l, x, id); }
    case CompletePersist(_) => PersistKeepsKnown(l);
    case ZUpdate(_, n) => UpdatesKeepRows(l, id, 0, n);
    case RefundStore(x, now) => UpdatesKeepRows(l, x, now, 0);
    case _ =>
  }

  lemma MarkKeepsKnown(l: Ledger, x: string, confirmation: string, auth: string, error: string, now: Time, id: string)
    requires x in l.active
    ensures id in l.active ==> id in MarkCompleted(l, x, confirmation, auth, now).active
    ensures id in l.active ==> id in MarkFailed(l, x, error, now).active
    ensures MarkCompleted(l, x, confirmation, auth, now).table == MarkFailed(l, x, error, now).table == l.table
  {
  }

  lemma InsertKeepsKnown(l: Ledger, x: string, id: string)
    requires x in l.active
    ensures Insert(l, x).active == l.active && (id in l.table.rows ==> id in Insert(l, x).table.rows)
  {
  }

  lemma PersistKeepsKnown(l: Ledger)
    ensures PersistCounter(l).active == l.active && PersistCounter(l).table == l.table
  {
  }

  lemma UpdatesKeepRows(l: Ledger, id: string, now: Time, n: nat)
    ensures StampOpen(l.table, n).rows.Keys == l.table.rows.Keys
    ensures StoreRefund(l, id, now).active == l.active && StoreRefund(l, id, now).table.rows.Keys == l.table.rows.Keys
  {
  }

  /** Unless the terminal restarts, no step of any thread loses an id. */
  lemma {:induction false} RunKeepsKnown(s: System, actions: seq<Action>, id: string)
    requires Inv(s) && s.steps + |actions| <= LONGEST_RUN && Known(s, id)
    requires forall i :: 0 <= i < |actions| ==> !actions[i].RestartTerminal?
    ensures Known(Run(s, actions), id)
    decreases |actions|
  {
    hide Inv, Effect, Known;
    if actions != [] {
      var front := actions[..|actions| - 1];
      RunKeeps(s, front);
      RunKeepsKnown(s, front, id);
      StaysKnown(Run(s, front), actions[|actions| - 1], id);
      SameButCounted(Run(s, front), actions[|actions| - 1], id);
    }
  }

  lemma SameButCounted(s: System, a: Action, id: string)
    requires Known(Effect(s, a), id)
    ensures Known(Step(s, a), id)
  {
    hide Effect;
  }

  /**
   * When Complete returns, by whichever way, the id has a row: the SELECT that follows it in processPayment finds one,
   * however other threads interleave and whether or not Complete itself failed.
   */
  lemma CompleteLeavesARow(s: System, t: Tid, id: string)
    requires Inv(s) && Known(s, id)
    requires PhaseOf(s, t).CompleteMark? || PhaseOf(s, t).CompleteInsert? || PhaseOf(s, t).CompleteDrop?
    requires PhaseOf(s, t).id == id && PhaseOf(Continue(s, t), t) == Idle
    ensures id in Continue(s, t).ledger.table.rows
  {
    hide BatchesOk, ReceiptsOk, VoidsOk, LockFreeOk, TableOk, RowOf, LoadCounter, Format, MaxStamp, SameBatch,
         StampOpen;
    assert s.mutex == Some(t);
  }

  // ---------- Receipts ----------

  /** Rows that were ever completed carry pairwise different receipt texts, numbered upwards in insertion order. */
  lemma ReceiptsAreUnique(s: System, i: nat, j: nat)
    requires Reachable(s) && i < j < |s.ledger.table.order|
    ensures var t := s.ledger.table;
            && t.order[i] in t.rows && t.order[j] in t.rows
            && (t.rows[t.order[i]].state != Failed && t.rows[t.order[j]].state != Failed ==>
                  && ReceiptAt(t, t.order[i]) < ReceiptAt(t, t.order[j])
                  && t.rows[t.order[i]].fixed.receipt != t.rows[t.order[j]].fixed.receipt)
  {
    hide LoadCounter, ReceiptsAtMost, BatchesOk, MutexOk, LockFreeOk, VoidsOk, HolderOk, ReceiptNumber, Reachable;
    ReachableOk(s);
    var t := s.ledger.table;
    assert t.order[i] in t.order && t.order[j] in t.order;
  }

  /**
   * Between operations no receipt exceeds the persisted counter, nor that the counter in memory, so restarts reuse
   * none.
   */
  lemma CountersAreOrdered(s: System)
    requires Reachable(s) && s.mutex == None
    ensures ReceiptsAtMost(s.ledger.table, LoadCounter(s.ledger.metadata))
    ensures LoadCounter(s.ledger.metadata) <= s.ledger.counter
  {
    hide BatchesOk, LoadCounter, MutexOk, LockFreeOk, VoidsOk, TableOk, Reachable, ReceiptAt, ReceiptsIncrease;
    ReachableOk(s);
  }

  // ---------- Batches ----------

  /**
   * Each Z-report stamped exactly the rows that its SELECT saw as open, whatever Void and Refund did in between; those
   * rows carry its number from then on; and no row is stamped by two reports.
   */
  lemma ZReportStampsWhatItSummed(s: System)
    requires Reachable(s)
    ensures forall i :: 0 <= i < |s.issued| ==>
              && s.issued[i].stamped == OpenIds(s.issued[i].seen)
              && (forall id :: id in s.issued[i].stamped ==>
                    id in s.ledger.table.rows && s.ledger.table.rows[id].zReportId == s.issued[i].number)
    ensures forall i, j :: 0 <= i < j < |s.issued| ==> s.issued[i].stamped !! s.issued[j].stamped
    ensures forall id :: id in s.ledger.table.rows && s.ledger.table.rows[id].zReportId != 0 ==> StampedBy(s.issued, id)
  {
    ReachableOk(s);
    forall i | 0 <= i < |s.issued| ensures IssueOk(s.ledger.table, s.issued[i]) {
    }
  }

  /** Report numbers start at 1, never decrease, and repeat exactly after a batch without rows. */
  lemma BatchNumbering(s: System)
    requires Reachable(s)
    ensures s.issued != [] ==> s.issued[0].number == 1
    ensures forall i :: 0 <= i < |s.issued| - 1 ==>
              s.issued[i + 1].number == s.issued[i].number + (if s.issued[i].stamped == {} then 0 else 1)
    ensures NextBatch(s.ledger) == NextNumber(s.issued)
  {
    hide MutexOk, LockFreeOk, VoidsOk, HolderOk, TableOk, ReceiptsOk, StampsContiguous, IssueOk, StampedBy, MaxStamp,
         Reachable;
    ReachableOk(s);
    NumbersFollow(s.issued);
  }

  lemma NumbersFollow(issued: seq<Issue>)
    requires NumbersOk(issued)
    ensures issued != [] ==> issued[0].number == 1
    ensures forall i :: 0 <= i < |issued| - 1 ==>
              issued[i + 1].number == issued[i].number + (if issued[i].stamped == {} then 0 else 1)
  {
    forall i | 0 <= i < |issued| - 1
      ensures issued[i + 1].number == issued[i].number + (if issued[i].stamped == {} then 0 else 1)
    {
      assert issued[..i + 1][i] == issued[i];
      assert issued[i + 1].number == NextNumber(issued[..i + 1]);
    }
    if issued != [] {
      assert issued[0].number == NextNumber(issued[..0]);
    }
  }

  /** The stamps in the table are 1 up to the number before the next, without a gap, besides 0 for the open rows. */
  lemma StampsHaveNoGaps(s: System, k: nat)
    requires Reachable(s) && k > 0
    ensures k < NextBatch(s.ledger) <==> HasStamp(s.ledger.table, k)
  {
    hide MutexOk, LockFreeOk, VoidsOk, HolderOk, ReceiptsOk, NumbersOk, IssueOk, StampedBy, MaxStamp, Reachable;
    ReachableOk(s);
    StampsAtMostMax(s.ledger.table);
  }

  lemma ZLeavesNothingOpen(s: System, t: Tid)
    requires Inv(s) && PhaseOf(s, t).ZUpdate?
    ensures OpenIds(Continue(s, t).ledger.table) == {}
  {
    hide BatchesOk, ReceiptsOk, LockFreeOk, VoidsOk, TableOk, MaxStamp, StampOpen;
    assert s.mutex == Some(t);
    StampingClosesAll(s.ledger.table, PhaseOf(s, t).number);
  }

  /**
   * After a Z-report has closed its batch, an X-report is empty as long as no row has been added, whatever else has
   * run, voids, refunds, further Z-reports and restarts included.
   */
  lemma XAfterZIsEmpty(s: System, t: Tid, actions: seq<Action>)
    requires Reachable(s) && PhaseOf(s, t).ZUpdate? && s.steps + 1 + |actions| <= LONGEST_RUN
    requires |Run(Step(s, Advance(t)), actions).ledger.table.order| == |s.ledger.table.order|
    ensures ReportOf(Run(Step(s, Advance(t)), actions).ledger.table) == EMPTY_REPORT
  {
    hide Run, ReportOf, Reachable, Inv, Continue, OpenIds;
    ReachableOk(s);
    ZLeavesNothingOpen(s, t);
    StepKeeps(s, Advance(t));
    ZAddsNoRow(s, t);
    NothingOpenStaysSo(Step(s, Advance(t)), actions);
  }

  lemma ZAddsNoRow(s: System, t: Tid)
    requires PhaseOf(s, t).ZUpdate?
    ensures |Continue(s, t).ledger.table.order| == |s.ledger.table.order| && Continue(s, t).steps == s.steps
  {
  }

  lemma NothingOpenStaysSo(s: System, actions: seq<Action>)
    requires Inv(s) && s.steps + |actions| <= LONGEST_RUN
    requires OpenIds(s.ledger.table) == {} && |Run(s, actions).ledger.table.order| == |s.ledger.table.order|
    ensures ReportOf(Run(s, actions).ledger.table) == EMPTY_REPORT
  {
    hide Run, ReportOf, PartsOk;
    RunKeeps(s, actions);
    var t, t' := s.ledger.table, Run(s, actions).ledger.table;
    TablesAreWellFormed(s);
    TablesAreWellFormed(Run(s, actions));
    assert t'.order == t.order;
    forall id | id in t'.rows ensures t'.rows[id].zReportId != 0 {
      assert id in t.order && id in t.rows && id !in OpenIds(t);
      assert RowEvolves(t.rows[id], t'.rows[id]);
    }
    NothingOpenNothingShown(t');
  }

  // ---------- Conservation ----------

  /** What the open batches held, by currency, that the Z-reports issued so far summed. */
  function SummedByZReports(issued: seq<Issue>, c: string): nat {
    if issued == [] then 0
    else
      SummedByZReports(issued[..|issued| - 1], c)
      + Tally(Cents, issued[|issued| - 1].seen, Selection(Open, {c}, SETTLED))
  }

  /** What the Z-reports issued so far showed for a currency. */
  function ShownByZReports(issued: seq<Issue>, c: string): nat {
    if issued == [] then 0
    else ShownByZReports(issued[..|issued| - 1], c) + ReportTotal(ReportOf(issued[|issued| - 1].seen), c)
  }

  ghost predicate Balanced(s: System, c: string) {
    SummedByZReports(s.issued, c) == Tally(Cents, s.ledger.table, Selection(Closed, {c}, SETTLED))
  }

  /** A step that issues no Z-report stamps nothing. */
  ghost predicate StampsNothing(t: Table, t': Table) {
    && (forall id :: id in t.rows ==> id in t'.rows && t'.rows[id].zReportId == t.rows[id].zReportId)
    && (forall id :: id in t'.rows && id !in t.rows ==> t'.rows[id].zReportId == 0)
  }

  lemma StampsNothingUnlessZ(s: System, a: Action)
    requires Inv(s) && Effect(s, a).issued == s.issued
    ensures StampsNothing(s.ledger.table, Effect(s, a).ledger.table)
  {
    hide PartsOk, Begin, Continue;
    match a
    case Start(t, op) => if PhaseOf(s, t) == Idle { BeginStampsNothing(s, t, op); }
    case Advance(t) => ContinueStampsNothing(s, t);
    case RestartTerminal =>
  }

  lemma BeginStampsNothing(s: System, t: Tid, op: Op)
    ensures StampsNothing(s.ledger.table, Begin(s, t, op).ledger.table)
  {
  }

  lemma InsertStampsNothing(l: Ledger, id: string)
    requires id in l.active
    ensures StampsNothing(l.table, Insert(l, id).table)
  {
  }

  lemma StoreRefundStampsNothing(l: Ledger, id: string, now: Time)
    ensures StampsNothing(l.table, StoreRefund(l, id, now).table)
  {
  }

  lemma ContinueStampsNothing(s: System, t: Tid)
    requires Continue(s, t).issued == s.issued
    ensures StampsNothing(s.ledger.table, Continue(s, t).ledger.table)
  {
    hide LoadCounter, ReceiptText, StampOpen, MaxStamp, Insert, StoreRefund, Format;
    assert PhaseOf(s, t).ZUpdate? ==> |Continue(s, t).issued| == |s.issued| + 1;
    match PhaseOf(s, t)
    case CompleteInsert(id) => if id in s.ledger.active { InsertStampsNothing(s.ledger, id); }
    case FailInsert(id) => if id in s.ledger.active { InsertStampsNothing(s.ledger, id); }
    case RefundStore(id, now) => StoreRefundStampsNothing(s.ledger, id, now);
    case _ =>
  }

  lemma {:induction false} NothingBeyond(t: Table, s: Selection, a: nat, b: nat)
    requires a <= b <= |t.order|
    requires forall i :: a <= i < b ==> Weight(Cents, t, s, t.order[i]) == 0
    ensures TallyFirst(Cents, t, s, b) == TallyFirst(Cents, t, s, a)
  {
    if a < b {
      NothingBeyond(t, s, a, b - 1);
    }
  }

  lemma ClosedSumIsKept(t: Table, t': Table, c: string)
    requires WellFormed(t) && WellFormed(t') && Evolves(t, t') && StampsNothing(t, t')
    ensures Tally(Cents, t, Selection(Closed, {c}, SETTLED)) == Tally(Cents, t', Selection(Closed, {c}, SETTLED))
  {
    hide TallyFirst;
    var s := Selection(Closed, {c}, SETTLED);
    var n := |t.order|;
    assert t'.order[..n] == t.order[..n];
    forall i | 0 <= i < n ensures Weight(Cents, t, s, t.order[i]) == Weight(Cents, t', s, t.order[i]) {
      assert t.order[i] in t.order;
      assert RowEvolves(t.rows[t.order[i]], t'.rows[t.order[i]]);
    }
    SameWeights(Cents, t, s, t', s, n);
    forall i | n <= i < |t'.order| ensures Weight(Cents, t', s, t'.order[i]) == 0 {
      NewIsNotOld(t, t', i);
    }
    NothingBeyond(t', s, n, |t'.order|);
  }

  lemma NewIsNotOld(t: Table, t': Table, i: nat)
    requires WellFormed(t) && WellFormed(t') && t.order <= t'.order && |t.order| <= i < |t'.order|
    ensures t'.order[i] !in t.rows && t'.order[i] in t'.rows
  {
    assert t'.order[i] in t'.order;
    assert forall j :: 0 <= j < |t.order| ==> t'.order[j] == t.order[j];
    assert t'.order[i] !in t.order;
  }

  lemma StepKeepsBalance(s: System, a: Action, c: string)
    requires Inv(s) && s.steps < LONGEST_RUN && Balanced(s, c)
    ensures Balanced(Step(s, a), c)
  {
    hide Tally, Evolves, BatchesOk, ReceiptsOk, LockFreeOk, VoidsOk;
    var s' := Effect(s, a);
    StepKeeps(s, a);
    assert Inv(Step(s, a));
    if s'.issued == s.issued {
      StampsNothingUnlessZ(s, a);
      ClosedSumIsKept(s.ledger.table, s'.ledger.table, c);
    } else {
      OnlyZIssues(s, a);
      var p := PhaseOf(s, a.tid);
      var t := s.ledger.table;
      assert s'.issued[..|s.issued|] == s.issued;
      SettledSumIsKept(Cents, p.seen, t, Open, c);
      StampingMovesOpenRows(Cents, t, p.number, c);
    }
  }

  lemma OnlyZIssues(s: System, a: Action)
    requires Inv(s) && Effect(s, a).issued != s.issued
    ensures a.Advance? && PhaseOf(s, a.tid).ZUpdate? && s.mutex == Some(a.tid)
    ensures var p := PhaseOf(s, a.tid);
            && SameBatch(p.seen, s.ledger.table) && p.number > 0
            && Effect(s, a).issued == s.issued + [Issue(p.number, p.seen, OpenIds(s.ledger.table))]
            && Effect(s, a).ledger.table == StampOpen(s.ledger.table, p.number)
  {
    hide BatchesOk, ReceiptsOk, LockFreeOk, VoidsOk, LoadCounter, MaxStamp, TableOk;
  }

  lemma {:induction false} RunKeepsBalance(s: System, actions: seq<Action>, c: string)
    requires Inv(s) && s.steps + |actions| <= LONGEST_RUN && Balanced(s, c)
    ensures Balanced(Run(s, actions), c)
    decreases |actions|
  {
    hide Inv, Effect, Balanced;
    if actions != [] {
      var front := actions[..|actions| - 1];
      RunKeeps(s, front);
      RunKeepsBalance(s, front, c);
      StepKeepsBalance(Run(s, front), actions[|actions| - 1], c);
    }
  }

  ghost predicate NoGroupOverflows(issued: seq<Issue>, c: string) {
    forall i :: 0 <= i < |issued| ==> GroupsFit(issued[i].seen, c)
  }

  /** In each Z-report the counts of the rows in its groups fit 32 bits. */
  ghost predicate NoCountOverflows(issued: seq<Issue>, c: string) {
    forall i :: 0 <= i < |issued| ==> CountsFit(issued[i].seen, c)
  }

  lemma {:induction false} ShownAndSummed(issued: seq<Issue>, c: string)
    requires forall i :: 0 <= i < |issued| ==> WellFormed(issued[i].seen)
    ensures ShownByZReports(issued, c) <= SummedByZReports(issued, c)
    ensures ShownByZReports(issued, c) == SummedByZReports(issued, c) <==> NoGroupOverflows(issued, c)
    ensures NoCountOverflows(issued, c) ==> Wrap32(ShownByZReports(issued, c)) == Wrap32(SummedByZReports(issued, c))
    decreases |issued|
  {
    hide Tally, ReportTotal, ReportOf, GroupsFit, CountsFit, WellFormed, Wrap32;
    if issued != [] {
      var front, last := issued[..|issued| - 1], issued[|issued| - 1];
      ShownAndSummed(front, c);
      ReportShowsOpenBatch(last.seen, c);
      assert issued == front + [last];
      if NoCountOverflows(issued, c) {
        assert NoCountOverflows(front, c) && CountsFit(last.seen, c);
        WrapSum(ShownByZReports(front, c), ReportTotal(ReportOf(last.seen), c),
                SummedByZReports(front, c), Tally(Cents, last.seen, Selection(Open, {c}, SETTLED)));
      }
      assert NoGroupOverflows(issued, c) <==> NoGroupOverflows(front, c) && GroupsFit(last.seen, c);
    }
  }

  lemma WrapSum(a: nat, b: nat, x: nat, y: nat)
    requires Wrap32(a) == Wrap32(x) && Wrap32(b) == Wrap32(y)
    ensures Wrap32(a + b) == Wrap32(x + y)
  {
    assert a == Wrap32(a) + a / TWO32 * TWO32 && x == Wrap32(x) + x / TWO32 * TWO32;
    assert b == Wrap32(b) + b / TWO32 * TWO32 && y == Wrap32(y) + y / TWO32 * TWO32;
  }

  /**
   * Conservation over every run and interleaving: what all Z-reports issued and the X-report of this moment show for a
   * currency is never more than the total of its settled rows, and exactly that if and only if no group ever
   * overflowed; the two are equal modulo 2^32 as long as no count of rows in a group overflowed.
   */
  lemma Conservation(s: System, c: string)
    requires Reachable(s)
    ensures var shown := ShownByZReports(s.issued, c) + ReportTotal(ReportOf(s.ledger.table), c);
            var total := Tally(Cents, s.ledger.table, Selection(AnyBatch, {c}, SETTLED));
            && shown <= total
            && (shown == total <==> NoGroupOverflows(s.issued, c) && GroupsFit(s.ledger.table, c))
            && (NoCountOverflows(s.issued, c) && CountsFit(s.ledger.table, c) ==> Wrap32(shown) == Wrap32(total))
  {
    hide Tally, ReportTotal, ReportOf, GroupsFit, CountsFit, Reachable, WellFormed, PartsOk, NoGroupOverflows,
         NoCountOverflows, Wrap32;
    ReachableIsBalanced(s, c);
    TablesAreWellFormed(s);
    OpenAndClosed(Cents, s.ledger.table, c);
    IssuesAreSound(s);
    ShownAndSummed(s.issued, c);
    ReportShowsOpenBatch(s.ledger.table, c);
    if NoCountOverflows(s.issued, c) && CountsFit(s.ledger.table, c) {
      WrapSum(ShownByZReports(s.issued, c), ReportTotal(ReportOf(s.ledger.table), c), SummedByZReports(s.issued, c),
              Tally(Cents, s.ledger.table, Selection(Open, {c}, SETTLED)));
    }
  }

  lemma ReachableIsBalanced(s: System, c: string)
    requires Reachable(s)
    ensures Inv(s) && Balanced(s, c)
  {
    hide Run, Initial, Inv, Balanced;
    var cfg, actions :| |actions| <= LONGEST_RUN && s == Run(Initial(cfg), actions);
    ReachableOk(s);
    StartsBalanced(cfg, c);
    RunKeepsBalance(Initial(cfg), actions, c);
  }

  lemma TablesAreWellFormed(s: System)
    requires Inv(s)
    ensures WellFormed(s.ledger.table)
  {
  }

  lemma StartsBalanced(cfg: Config, c: string)
    ensures Inv(Initial(cfg)) && Initial(cfg).steps == 0 && Balanced(Initial(cfg), c)
  {
  }

  lemma IssuesAreSound(s: System)
    requires Inv(s)
    ensures forall i :: 0 <= i < |s.issued| ==> WellFormed(s.issued[i].seen)
    ensures forall i, id :: 0 <= i < |s.issued| && id in s.issued[i].seen.rows ==>
              s.issued[i].seen.rows[id].fixed.amount <= AmountCap(s.cfg)
  {
    hide MutexOk, LockFreeOk, VoidsOk, ReceiptsOk, HolderOk, MaxStamp;
    forall i | 0 <= i < |s.issued| ensures Evolves(s.issued[i].seen, s.ledger.table) && WellFormed(s.issued[i].seen) {
      assert IssueOk(s.ledger.table, s.issued[i]);
    }
    forall i, id | 0 <= i < |s.issued| && id in s.issued[i].seen.rows
      ensures s.issued[i].seen.rows[id].fixed.amount <= AmountCap(s.cfg)
    {
      assert RowEvolves(s.issued[i].seen.rows[id], s.ledger.table.rows[id]);
    }
  }

  /** No group of the currency has more rows than 32 bits hold of the largest amount. */
  ghost predicate GroupsAreFew(t: Table, c: string, cap: nat) {
    forall state :: state in SETTLED ==> CountOf(t, c, state) * cap < TWO32
  }

  /** Exact conservation when every reported group has few enough rows. */
  lemma ConservationIsExact(s: System, c: string)
    requires Reachable(s) && GroupsAreFew(s.ledger.table, c, AmountCap(s.cfg))
    requires forall i :: 0 <= i < |s.issued| ==> GroupsAreFew(s.issued[i].seen, c, AmountCap(s.cfg))
    ensures ShownByZReports(s.issued, c) + ReportTotal(ReportOf(s.ledger.table), c)
         == Tally(Cents, s.ledger.table, Selection(AnyBatch, {c}, SETTLED))
  {
    hide Tally, ReportTotal, ReportOf, Reachable;
    Conservation(s, c);
    ReachableOk(s);
    IssuesAreSound(s);
    FewRowsFit(s.ledger.table, c, AmountCap(s.cfg));
    forall i | 0 <= i < |s.issued| ensures GroupsFit(s.issued[i].seen, c) {
      FewRowsFit(s.issued[i].seen, c, AmountCap(s.cfg));
    }
  }

  const DEFAULT_MAX_AMOUNT := 10_000_000

  /** No group of the currency has more than n rows. */
  ghost predicate GroupsAtMost(t: Table, c: string, n: nat) {
    forall state :: state in SETTLED ==> CountOf(t, c, state) <= n
  }

  /** With the default cap, reports are exact as long as no group has more than 429 rows. */
  lemma ExactAtDefaultCap(s: System, c: string)
    requires Reachable(s) && s.cfg.maxTransactionAmount == DEFAULT_MAX_AMOUNT
    requires GroupsAtMost(s.ledger.table, c, 429)
    requires forall i :: 0 <= i < |s.issued| ==> GroupsAtMost(s.issued[i].seen, c, 429)
    ensures ShownByZReports(s.issued, c) + ReportTotal(ReportOf(s.ledger.table), c)
         == Tally(Cents, s.ledger.table, Selection(AnyBatch, {c}, SETTLED))
  {
    hide Reachable, Tally, ReportOf, ReportTotal, CountOf;
    ConservationIsExact(s, c);
  }

  /** The bound is sharp: 430 rows of the largest amount overflow their group. */
  lemma OneMoreOverflows(t: Table, c: string, state: State)
    requires state in SETTLED && CountOf(t, c, state) == 430
    requires forall id :: id in t.rows && Selects(GroupOf(c, state), t.rows[id]) ==>
               t.rows[id].fixed.amount == DEFAULT_MAX_AMOUNT
    ensures !GroupsFit(t, c)
  {
    EqualAmounts(t, GroupOf(c, state), DEFAULT_MAX_AMOUNT, |t.order|);
  }

  /**
   * A detailed report without limit or filter shows, per currency, what all Z-reports and the X-report show together.
   */
  lemma DetailedReportReconciles(s: System, q: Query, c: string)
    requires Reachable(s) && TakesAll(s.ledger.table, q)
    ensures var entries := EntriesTotal(EntriesOf(Selected(s.ledger.table, q)), c);
            var shown := ShownByZReports(s.issued, c) + ReportTotal(ReportOf(s.ledger.table), c);
            && shown <= entries
            && (entries == shown <==> NoGroupOverflows(s.issued, c) && GroupsFit(s.ledger.table, c))
            && (NoCountOverflows(s.issued, c) && CountsFit(s.ledger.table, c) ==> Wrap32(entries) == Wrap32(shown))
  {
    hide Tally, ReportTotal, ReportOf, GroupsFit, CountsFit, Reachable, NoGroupOverflows, NoCountOverflows, TakesAll,
         EntriesOf, EntriesTotal, Selected, ShownByZReports;
    FullReportTotal(s.ledger.table, q, c);
    Conservation(s, c);
  }
}
