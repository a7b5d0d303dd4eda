/** What each message does and answers, by the columns of the table and the fields of requests, cards and replies. */
module HandlerLaws {
  import opened Wrappers
  import opened Decimals
  import opened Domain
  import opened Tables
  import opened Ledgers
  import opened Reports
  import opened DetailedReports
  import opened Handlers
  import opened Runs

  // ---------- Card insertion ----------

  predicate MayInsertCard(cfg: Config, l: Ledger, amount: uint32, currency: string, id: string) {
    && id !in l.active
    && 0 < amount <= cfg.maxTransactionAmount % 0x1_0000_0000
    && (exists i :: 0 <= i < |cfg.supportedCurrencies| && cfg.supportedCurrencies[i] == currency)
  }

  /** Why a transaction is refused: the checks, in their order. */
  lemma CreationErrors(cfg: Config, l: Ledger, id: string, amount: uint32, currency: string)
    ensures var error := CheckNew(cfg, l, id, amount, currency);
            && (error == Some(AlreadyExists) <==> id in l.active)
            && (error == Some(InvalidAmount) <==> id !in l.active && amount == 0)
            && (error == Some(ExceedsMaximum) <==>
                  id !in l.active && amount > 0 && amount > cfg.maxTransactionAmount % 0x1_0000_0000)
            && (error == None <==> MayInsertCard(cfg, l, amount, currency, id))
  {
    assert currency in cfg.supportedCurrencies <==>
        (exists i :: 0 <= i < |cfg.supportedCurrencies| && cfg.supportedCurrencies[i] == currency);
  }

  /** A new transaction of that amount, with the card that was read and nothing else set. */
  predicate IsFresh(t: Transaction, id: string, amount: uint32, currency: string, env: Env) {
    && t.id == id && t.amount == amount && t.currency == currency && t.card == Some(env.card)
    && t.state == BankSelection && t.createdAt == env.now && t.lastUpdated == env.now && t.completedAt == None
    && t.bankId == 0 && t.aid == "" && t.installments == 0
    && !t.useLoyalty && t.loyaltyPoints == 0 && t.loyaltyAmount == 0 && t.cardAmount == 0
    && t.confirmation == "" && t.receipt == "" && t.auth == "" && t.error == "" && t.cached == None
  }

  /** A card is accepted exactly for an inactive id, an amount up to the maximum and a supported currency. */
  lemma CardInsertionAnswer(cfg: Config, l: Ledger, id: string, amount: uint32, currency: string, env: Env)
    ensures var o := Handle(cfg, l, CardInsertionRequest(id, amount, currency), env);
            if MayInsertCard(cfg, l, amount, currency, id) then
              && o.reply == Some(CardReply(env.card.masked, env.card.holder, env.card.banks))
              && id in o.ledger.active && IsFresh(o.ledger.active[id], id, amount, currency, env)
              && o.ledger == l.(active := l.active[id := o.ledger.active[id]])
            else o == Outcome(l, Some(ErrorReply("01")))
  {
    var o := Handle(cfg, l, CardInsertionRequest(id, amount, currency), env);
    assert currency in cfg.supportedCurrencies <==>
        (exists i :: 0 <= i < |cfg.supportedCurrencies| && cfg.supportedCurrencies[i] == currency);
    if MayInsertCard(cfg, l, amount, currency, id) {
      assert o.ledger.active == l.active[id := o.ledger.active[id]];
    }
  }

  // ---------- Void and refund ----------

  /** The table with one row in another state, changed at that time, and nothing else changed. */
  predicate OneRowMoved(t: Table, t': Table, id: string, state: State, now: Time)
    requires id in t.rows
  {
    && t'.order == t.order
    && t'.rows == t.rows[id := t.rows[id].(state := state, lastUpdated := now / 1_000_000_000)]
  }

  /** A void succeeds exactly on a completed row, which is then VOIDED. */
  lemma VoidAnswer(cfg: Config, l: Ledger, id: string, env: Env)
    ensures var o := Handle(cfg, l, VoidRequest(id), env);
            if id in l.table.rows && l.table.rows[id].state == PaymentCompleted then
              && o.reply == Some(VoidReply(id, l.table.rows[id].fixed.currency))
              && OneRowMoved(l.table, o.ledger.table, id, Voided, env.now) && o.ledger == l.(table := o.ledger.table)
            else o == Outcome(l, Some(ErrorReply("04")))
  {
  }

  /** A refund succeeds exactly on a completed row of at least the amount, and the whole row is then REFUNDED. */
  lemma RefundAnswer(cfg: Config, l: Ledger, id: string, amount: uint32, env: Env)
    ensures var o := Handle(cfg, l, RefundRequest(id, amount), env);
            var ok := id in l.table.rows && l.table.rows[id].state == PaymentCompleted
                      && amount <= l.table.rows[id].fixed.amount;
            && (o.reply == Some(RefundReply(id, amount)) <==> ok)
            && if ok then
                 OneRowMoved(l.table, o.ledger.table, id, Refunded, env.now) && o.ledger == l.(table := o.ledger.table)
               else o == Outcome(l, Some(ErrorReply("03")))
  {
  }

  // ---------- Payment ----------

  /** The terminal has a response stored for the id. */
  predicate HasResponse(l: Ledger, id: string) {
    id in l.table.rows && l.table.rows[id].cached.Some?
  }

  /** A payment or loyalty request for an id with a stored response gets it, and one for an unknown id gets error 02. */
  lemma NoPaymentAnswer(cfg: Config, l: Ledger, req: Request, id: string, env: Env)
    requires PaysFor(req, id)
    ensures !req.PaymentCompletionRequest? && HasResponse(l, id) ==>
              Handle(cfg, l, req, env) == Outcome(l, Some(CompletionReply(l.table.rows[id].cached.value)))
    ensures (req.PaymentCompletionRequest? || !HasResponse(l, id)) && id !in l.active ==>
              Handle(cfg, l, req, env) == Outcome(l, Some(ErrorReply("02")))
  {
    hide ProcessPayment;
  }

  /** Asking to pay with points of a card that has them is answered with the points, and only bank and state change. */
  lemma InquiryAnswer(cfg: Config, l: Ledger, req: Request, env: Env)
    requires req.PaymentProcessingRequest? && req.id in l.active && !HasResponse(l, req.id) && req.useLoyalty
    requires l.active[req.id].card.Some? && l.active[req.id].card.value.hasLoyalty
    ensures var o, t := Handle(cfg, l, req, env), l.active[req.id];
            && o.reply == Some(LoyaltyInquiryReply(t.card.value.points, t.card.value.pointsValue))
            && o.ledger == l.(active := l.active[req.id := t.(bankId := req.bankId, aid := req.aid,
                 installments := req.installments, state := LoyaltyInquiry, lastUpdated := env.now)])
  {
  }

  /** What is paid: the active transaction with what the request sets. */
  function Requested(t: Transaction, req: Request): Transaction {
    match req
    case PaymentProcessingRequest(_, bankId, aid, _, n) => t.(bankId := bankId, aid := aid, installments := n)
    case LoyaltyPointsConfirmation(_, points, value) => t.(useLoyalty := true, loyaltyPoints :=
        points, loyaltyAmount := value)
    case _ => t
  }

  /** The columns that come from the transaction and its card. */
  ghost predicate RowFrom(f: Fixed, t: Transaction) {
    && f.id == t.id && f.amount == t.amount && f.currency == t.currency
    && f.bankId == t.bankId && f.aid == t.aid && f.installments == t.installments
    && f.useLoyalty == t.useLoyalty && f.loyaltyPoints == t.loyaltyPoints && f.loyaltyAmount == t.loyaltyAmount
    && f.createdAt == t.createdAt / 1_000_000_000
    && (t.card.None? ==> f.holder == "" && f.lastFour == "" && !f.hasLoyalty && f.points == 0)
    && (t.card.Some? ==>
          && f.holder == t.card.value.holder
          && f.hasLoyalty == t.card.value.hasLoyalty && f.points == t.card.value.points
          && (|t.card.value.number| < 4 ==> f.lastFour == "")
          && (|t.card.value.number| >= 4 ==>
                |f.lastFour| == 4 && exists front :: t.card.value.number == front + f.lastFour))
  }

  lemma RowIsFrom(t: Transaction)
    ensures RowFrom(RowOf(t).fixed, t)
  {
    if t.card.Some? && |t.card.value.number| >= 4 {
      var number := t.card.value.number;
      assert number == number[..|number| - 4] + LastFour(number);
    }
  }

  /** A request that pays at once. */
  predicate Pays(l: Ledger, req: Request, id: string) {
    && PaysFor(req, id) && id in l.active && id !in l.table.rows
    && !(req.PaymentProcessingRequest? && req.useLoyalty
         && l.active[id].card.Some? && l.active[id].card.value.hasLoyalty)
  }

  /** The ledger that the payment starts from. */
  function Starting(l: Ledger, req: Request, id: string, now: Time): Ledger
    requires PaysFor(req, id)
  {
    match req
    case PaymentProcessingRequest(_, bankId, aid, _, n) => SetBank(l, id, bankId, aid, n, now)
    case LoyaltyPointsConfirmation(_, points, value) => SetLoyalty(l, id, true, points, value, now)
    case PaymentCompletionRequest(_) => l
  }

  lemma StartsPayment(cfg: Config, l: Ledger, req: Request, id: string, env: Env)
    requires Pays(l, req, id)
    ensures var s := Starting(l, req, id, env.now);
            && id in s.active && s == l.(active := s.active) && s.active - {id} == l.active - {id}
            && s.active[id].(lastUpdated := 0) == Requested(l.active[id], req).(lastUpdated := 0)
            && Handle(cfg, l, req, env) == ProcessPayment(s, id, env)
  {
    hide ProcessPayment;
  }

  /** The row and the response of an approved payment. */
  ghost predicate IsApproved(r: Row, t: Transaction, counter: uint64, env: Env) {
    && r.state == PaymentCompleted && r.zReportId == 0 && RowFrom(r.fixed, t)
    && r.fixed.confirmation == env.confirmation && r.fixed.auth == env.auth && r.fixed.error == t.error
    && r.fixed.receipt == "RCP-" + Format((counter + 1) % 0x1_0000_0000_0000_0000)
    && r.fixed.cardAmount == (t.amount - t.loyaltyAmount) % 0x1_0000_0000
    && r.fixed.completedAt == Some(env.now / 1_000_000_000) && r.lastUpdated == env.now / 1_000_000_000
    && r.cached.Some?
    && var told := r.cached.value;
       && told.code == "00" && told.message == "Payment completed successfully"
       && told.confirmation == env.confirmation && told.auth == env.auth && told.receipt == r.fixed.receipt
       && told.cardAmount == r.fixed.cardAmount && told.loyaltyAmount == t.loyaltyAmount
       && told.remainingPoints == (if t.card.Some? && t.card.value.hasLoyalty then
                                     (t.card.value.points - t.loyaltyPoints) % 0x1_0000_0000 else 0)
       && told.currency == t.currency && told.installments == t.installments
  }

  /** The row of a declined payment. */
  ghost predicate IsDeclined(r: Row, t: Transaction, env: Env) {
    && r.state == Failed && r.zReportId == 0 && r.cached == None && RowFrom(r.fixed, t)
    && r.fixed.error == "Payment declined by bank"
    && r.fixed.confirmation == t.confirmation && r.fixed.auth == t.auth && r.fixed.receipt == t.receipt
    && r.fixed.cardAmount == t.cardAmount
    && r.fixed.completedAt == Some(env.now / 1_000_000_000) && r.lastUpdated == env.now / 1_000_000_000
  }

  lemma PaidRowColumns(l: Ledger, id: string, env: Env)
    requires id in l.active
    ensures IsApproved(PaidRow(l, id, env), l.active[id], l.counter, env)
  {
    hide RowFrom, LastFour;
    var started := SetState(l, id, PaymentProcessing, env.now);
    var marked := MarkCompleted(started, id, env.confirmation, env.auth, env.now);
    RowIsFrom(marked.active[id]);
    SameColumns(marked.active[id], l.active[id]);
  }

  lemma DeclinedRowColumns(l: Ledger, id: string, env: Env)
    requires id in l.active
    ensures IsDeclined(DeclinedRow(l, id, env), l.active[id], env)
  {
    hide RowFrom, LastFour;
    var marked := MarkFailed(SetState(l, id, PaymentProcessing, env.now), id, DECLINED_TEXT, env.now);
    RowIsFrom(marked.active[id]);
    SameColumns(marked.active[id], l.active[id]);
  }

  /** RowFrom looks at no field that completing, failing or timing a transaction sets. */
  lemma SameColumns(t: Transaction, u: Transaction)
    requires t == u.(state := t.state, confirmation := t.confirmation, auth := t.auth, receipt := t.receipt,
                     error := t.error, completedAt := t.completedAt, lastUpdated := t.lastUpdated,
                     cardAmount := t.cardAmount)
    ensures forall f :: RowFrom(f, t) <==> RowFrom(f, u)
  {
  }

  /**
   * A payment of an id without a row moves the transaction into one new row at the end of the table. Approved, the row
   * is completed with the next receipt number, which is stored, and its response is the answer; declined, the row has
   * failed and the answer is error 05.
   */
  lemma PaymentAnswer(cfg: Config, l: Ledger, req: Request, id: string, env: Env)
    requires Pays(l, req, id)
    ensures var o, t := Handle(cfg, l, req, env), Requested(l.active[id], req);
            && o.ledger.active == l.active - {id}
            && id in o.ledger.table.rows
            && var r := o.ledger.table.rows[id];
               && o.ledger.table == Table(l.table.rows[id := r], l.table.order + [id])
               && if env.approved then
                    && IsApproved(r, t, l.counter, env) && o.reply == Some(CompletionReply(r.cached.value))
                    && o.ledger.counter == (l.counter + 1) % 0x1_0000_0000_0000_0000
                    && o.ledger.metadata == l.metadata["receipt_counter" := Format(o.ledger.counter)]
                  else
                    && IsDeclined(r, t, env) && o.reply == Some(ErrorReply("05"))
                    && o.ledger.counter == l.counter && o.ledger.metadata == l.metadata
  {
    hide ProcessPayment, PaidRow, DeclinedRow, IsApproved, IsDeclined, Requested, Starting, Format;
    StartsPayment(cfg, l, req, id, env);
    var s := Starting(l, req, id, env.now);
    PaymentSettles(s, id, env);
    PaidRowColumns(s, id, env);
    DeclinedRowColumns(s, id, env);
    ColumnsIgnoreTime(s.active[id], Requested(l.active[id], req), s.counter, env);
    PaymentCounts(s, id, env);
  }

  lemma ColumnsIgnoreTime(t: Transaction, u: Transaction, counter: uint64, env: Env)
    requires t.(lastUpdated := 0) == u.(lastUpdated := 0)
    ensures forall r :: IsApproved(r, t, counter, env) <==> IsApproved(r, u, counter, env)
    ensures forall r :: IsDeclined(r, t, env) <==> IsDeclined(r, u, env)
  {
    hide RowFrom, Format;
    assert t == u.(lastUpdated := t.lastUpdated);
    SameColumns(t, u);
  }

  lemma PaymentCounts(l: Ledger, id: string, env: Env)
    requires id in l.active && id !in l.table.rows
    ensures var l' := ProcessPayment(l, id, env).ledger;
            if env.approved then
              && l'.counter == (l.counter + 1) % 0x1_0000_0000_0000_0000
              && l'.metadata == l.metadata["receipt_counter" := Format(l'.counter)]
            else l'.counter == l.counter && l'.metadata == l.metadata
  {
    hide RowOf, Format, ReceiptText, ResponseFor;
  }

  /**
   * A payment of an id that the table holds already: whatever the bank decides no row is added, the transaction stays
   * active in its new state, and only an approved one overwrites the stored response.
   */
  lemma TakenKeyAnswer(l: Ledger, id: string, env: Env)
    requires id in l.active && id in l.table.rows
    ensures var o := ProcessPayment(l, id, env);
            && o.ledger.metadata == l.metadata && o.ledger.table.order == l.table.order
            && o.ledger.active.Keys == l.active.Keys
            && if env.approved then
                 && o.ledger.counter == (l.counter + 1) % 0x1_0000_0000_0000_0000
                 && o.ledger.active[id].state == PaymentCompleted
                 && o.ledger.active[id].receipt == "RCP-" + Format(o.ledger.counter)
                 && o.ledger.table.rows[id].cached.Some?
                 && o.ledger.table.rows
                     == l.table.rows[id := l.table.rows[id].(cached := o.ledger.table.rows[id].cached)]
                 && o.reply == Some(CompletionReply(o.ledger.table.rows[id].cached.value))
               else
                 && o.ledger.counter == l.counter && o.ledger.active[id].state == Failed
                 && o.ledger.table == l.table && o.reply == Some(ErrorReply("05"))
  {
    hide RowOf, Format;
  }

  /** Receipt numbers start after 1000 and go on after a restart from the number stored. */
  lemma CounterStartsAndGoesOn(table: Table, metadata: map<string, string>, n: nat)
    ensures "receipt_counter" !in metadata ==> OpenLedger(table, metadata).counter == 1000
    ensures n < 0x1_0000_0000_0000_0000 ==> OpenLedger(table, metadata["receipt_counter" := Format(n)]).counter == n
    ensures n >= 0x1_0000_0000_0000_0000 ==>
              OpenLedger(table, metadata["receipt_counter" := Format(n)]).counter == 1000
    ensures OpenLedger(table, metadata["receipt_counter" := ""]).counter == 1000
    ensures OpenLedger(table, metadata).active == map[] && OpenLedger(table, metadata).table == table
    ensures OpenLedger(table, metadata).metadata == metadata
  {
    ScanFormat(n);
  }

  // ---------- Reports ----------

  /** The totals of an X-report, and of a Z-report: sales, refunds and voids, each of the open rows of that state. */
  ghost predicate ReportsOpenRows(r: Report, t: Table) {
    forall c :: Holds(r.sales, t, PaymentCompleted, c) && Holds(r.refunds, t, Refunded, c)
        && Holds(r.voids, t, Voided, c)
  }

  lemma ReportHolds(t: Table)
    requires WellFormed(t)
    ensures ReportsOpenRows(ReportOf(t), t)
  {
    hide ReportOf, Holds, WellFormed;
    forall c ensures Holds(ReportOf(t).sales, t, PaymentCompleted, c) && Holds(ReportOf(t).refunds, t, Refunded, c)
                     && Holds(ReportOf(t).voids, t, Voided, c)
    {
      MapsHoldTheirKind(t, c);
    }
  }

  lemma XReportAnswer(cfg: Config, l: Ledger, env: Env)
    requires WellFormed(l.table)
    ensures var o := Handle(cfg, l, XReportRequest, env);
            && o.ledger == l && o.reply.Some? && o.reply.value.XReply? && ReportsOpenRows(o.reply.value.report, l.table)
  {
    hide ReportOf;
    ReportHolds(l.table);
  }

  /**
   * The rows that were open get the number of the report, which is one more than the largest in use; no other changes.
   */
  ghost predicate BatchClosed(t: Table, t': Table, n: nat) {
    && t'.order == t.order && t'.rows.Keys == t.rows.Keys
    && (forall id :: id in t.rows ==>
          t'.rows[id] == (if t.rows[id].zReportId == 0 then t.rows[id].(zReportId := n) else t.rows[id]))
    && n > 0 && (forall id :: id in t.rows ==> t.rows[id].zReportId < n)
    && (n == 1 || exists id :: id in t.rows && t.rows[id].zReportId == n - 1)
  }

  lemma CloseIsClosed(l: Ledger)
    requires WellFormed(l.table)
    ensures BatchClosed(l.table, CloseBatch(l).table, NextBatch(l)) && CloseBatch(l) == l.(table := CloseBatch(l).table)
  {
    hide MaxStamp, WellFormed;
    MaxStampIsUsed(l.table);
    StampsAtMostMax(l.table);
  }

  lemma MaxStampIsUsed(t: Table)
    ensures MaxStamp(t) > 0 ==> exists id :: id in t.rows && t.rows[id].zReportId == MaxStamp(t)
  {
    hide MaxStampFirst;
    MaxStampIsMax(t, |t.order|);
  }

  /** A Z-report answers with the totals of the open rows and their new number, and closes the batch. */
  lemma ZReportAnswer(cfg: Config, l: Ledger, env: Env)
    requires WellFormed(l.table)
    ensures var o := Handle(cfg, l, ZReportRequest, env);
            && o.ledger == l.(table := o.ledger.table)
            && o.reply.Some? && o.reply.value.ZReply? && ReportsOpenRows(o.reply.value.report, l.table)
            && exists n: nat :: BatchClosed(l.table, o.ledger.table, n) && o.reply.value.number == n % 0x1_0000_0000
  {
    hide ReportOf, CloseBatch, NextBatch, BatchClosed;
    ReportHolds(l.table);
    CloseIsClosed(l);
  }

  /** A detailed report answers with the selected rows of the range, which is the last day where no time is given. */
  lemma DetailedReportAnswer(cfg: Config, l: Ledger, from: Option<Time>, to: Option<Time>, limit: uint32, voids: bool,
                             env: Env)
    ensures var q := Query(if from.Some? then from.value else env.now - 86_400 * 1_000_000_000,
                           if to.Some? then to.value else env.now, limit, voids);
            Handle(cfg, l, DetailedReportRequest(from, to, limit, voids), env)
            == Outcome(l, Some(DetailedReply(EntriesOf(Selected(l.table, q)))))
  {
    hide EntriesOf, Selected;
  }
}
