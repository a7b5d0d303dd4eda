/** Runs in which each message is handled as one step: at most one settlement, stored responses, repeated deliveries. */
module Runs {
  import opened Wrappers
  import opened Decimals
  import opened Domain
  import opened Tables
  import opened Ledgers
  import opened Reports
  import opened DetailedReports
  import opened Handlers

  datatype Event = Message(req: Request, env: Env) | Restarted

  function After(cfg: Config, l: Ledger, e: Event): Ledger {
    match e
    case Message(req, env) => Handle(cfg, l, req, env).ledger
    case Restarted => Restart(l)
  }

  function RunEvents(cfg: Config, l: Ledger, events: seq<Event>): Ledger
    decreases |events|
  {
    if events == [] then l
    else After(cfg, RunEvents(cfg, l, events[..|events| - 1]), events[|events| - 1])
  }

  /** No card insertion uses an id that the table holds already. */
  predicate Fresh(l: Ledger, req: Request) {
    req.CardInsertionRequest? ==> req.id !in l.table.rows
  }

  predicate FreshRun(cfg: Config, l: Ledger, events: seq<Event>)
    decreases |events|
  {
    events == [] ||
    var front, last := events[..|events| - 1], events[|events| - 1];
    FreshRun(cfg, l, front) && (last.Message? ==> Fresh(RunEvents(cfg, l, front), last.req))
  }

  // ---------- Every run ----------

  lemma PaymentEvolves(l: Ledger, id: string, env: Env)
    requires id in l.active
    ensures Evolves(l.table, ProcessPayment(l, id, env).ledger.table)
  {
    hide RowOf, ReceiptText, ResponseFor, Format;
  }

  /** Every message lets rows only evolve, whatever the ledger. */
  lemma HandleEvolves(cfg: Config, l: Ledger, req: Request, env: Env)
    ensures Evolves(l.table, Handle(cfg, l, req, env).ledger.table)
  {
    hide ProcessPayment, Evolves;
    EvolvesToItself(l.table);
    match req
    case PaymentProcessingRequest(id, bankId, aid, _, n) =>
      if id in l.active { PaymentEvolves(SetBank(l, id, bankId, aid, n, env.now), id, env); }
    case LoyaltyPointsConfirmation(id, points, value) =>
      if id in l.active { PaymentEvolves(SetLoyalty(l, id, true, points, value, env.now), id, env); }
    case PaymentCompletionRequest(id) => if id in l.active { PaymentEvolves(l, id, env); }
    case RefundRequest(id, amount) => RefundEvolves(l, id, amount, env.now);
    case VoidRequest(id) => VoidEvolves(l, id, env.now);
    case ZReportRequest => CloseEvolves(l);
    case _ =>
  }

  lemma RefundEvolves(l: Ledger, id: string, amount: uint32, now: Time)
    ensures Evolves(l.table, Refund(l, id, amount, now).table)
  {
  }

  lemma VoidEvolves(l: Ledger, id: string, now: Time)
    ensures Evolves(l.table, Void(l, id, now).table)
  {
  }

  lemma CloseEvolves(l: Ledger)
    ensures Evolves(l.table, CloseBatch(l).table)
  {
  }

  /** The reply says that this id was voided or refunded. */
  predicate RepliesUndone(reply: Option<Reply>, id: string) {
    reply.Some? && (reply.value.VoidReply? || reply.value.RefundReply?) && reply.value.id == id
  }

  /** How many voids and refunds of an id succeeded in a run. */
  function UndoReplies(cfg: Config, l: Ledger, events: seq<Event>, id: string): nat
    decreases |events|
  {
    if events == [] then 0
    else
      var front, last := events[..|events| - 1], events[|events| - 1];
      var before := RunEvents(cfg, l, front);
      UndoReplies(cfg, l, front, id) +
      (if last.Message? && RepliesUndone(Handle(cfg, before, last.req, last.env).reply, id) then 1 else 0)
  }

  lemma PaymentUndoesNothing(l: Ledger, id: string, env: Env, other: string)
    requires id in l.active
    ensures !RepliesUndone(ProcessPayment(l, id, env).reply, other)
  {
  }

  /** A void or refund succeeds only on a completed row, and leaves it voided or refunded. */
  lemma UndoesOnce(cfg: Config, l: Ledger, req: Request, env: Env, id: string)
    requires RepliesUndone(Handle(cfg, l, req, env).reply, id)
    ensures !IsUndone(l, id) && IsUndone(Handle(cfg, l, req, env).ledger, id)
  {
    hide ProcessPayment, ReportOf, EntriesOf, Selected, LoadCounter, CheckNew;
    if req.PaymentProcessingRequest? && req.id in l.active {
      PaymentUndoesNothing(SetBank(l, req.id, req.bankId, req.aid, req.installments, env.now), req.id, env, id);
    } else if req.LoyaltyPointsConfirmation? && req.id in l.active {
      PaymentUndoesNothing(SetLoyalty(l, req.id, true, req.points, req.value, env.now), req.id, env, id);
    } else if req.PaymentCompletionRequest? && req.id in l.active {
      PaymentUndoesNothing(l, req.id, env, id);
    }
  }

  lemma StaysUndone(t: Table, t': Table, id: string)
    requires Evolves(t, t') && id in t.rows && t.rows[id].state in {Voided, Refunded}
    ensures id in t'.rows && t'.rows[id].state in {Voided, Refunded}
  {
    assert RowEvolves(t.rows[id], t'.rows[id]);
  }

  /** In any run at most one of all the voids and refunds of an id succeeds, and none if it was undone before. */
  lemma {:induction false} AtMostOneVoidOrRefund(cfg: Config, l: Ledger, events: seq<Event>, id: string)
    ensures UndoReplies(cfg, l, events, id) <= 1
    ensures UndoReplies(cfg, l, events, id) == 1 ==> IsUndone(RunEvents(cfg, l, events), id)
    ensures IsUndone(l, id) ==> IsUndone(RunEvents(cfg, l, events), id) && UndoReplies(cfg, l, events, id) == 0
    decreases |events|
  {
    hide Handle, Evolves;
    if events != [] {
      var front, last := events[..|events| - 1], events[|events| - 1];
      var before := RunEvents(cfg, l, front);
      AtMostOneVoidOrRefund(cfg, l, front, id);
      if last.Message? {
        HandleEvolves(cfg, before, last.req, last.env);
        if IsUndone(before, id) {
          StaysUndone(before.table, Handle(cfg, before, last.req, last.env).ledger.table, id);
        }
        if RepliesUndone(Handle(cfg, before, last.req, last.env).reply, id) {
          UndoesOnce(cfg, before, last.req, last.env, id);
        }
      }
    }
  }

  // ---------- Fresh-id runs ----------

  /** Between messages a transaction waits for a bank, or for loyalty points if its card has any. */
  predicate Waiting(t: Transaction, id: string) {
    t.id == id && (t.state == BankSelection || (t.state == LoyaltyInquiry && HasLoyaltyCard(t)))
  }

  /** A stored response agrees with the columns of its row. */
  predicate Agrees(r: Response, f: Fixed) {
    && r.code == "00"
    && r.confirmation == f.confirmation && r.auth == f.auth && r.receipt == f.receipt
    && r.cardAmount == f.cardAmount && r.loyaltyAmount == f.loyaltyAmount
    && (r.cardAmount + r.loyaltyAmount) % TWO32 == f.amount
    && r.currency == f.currency && r.installments == f.installments
    && (f.hasLoyalty ==> (r.remainingPoints + f.loyaltyPoints) % TWO32 == f.points)
    && (!f.hasLoyalty ==> r.remainingPoints == 0)
  }

  /** A failed row has no response, every other row has one that agrees with it. */
  predicate Stored(r: Row) {
    || (r.state == Failed && r.cached == None)
    || (r.state in SETTLED && r.cached.Some? && Agrees(r.cached.value, r.fixed))
  }

  ghost predicate Coherent(l: Ledger) {
    && WellFormed(l.table)
    && (forall id :: id in l.active ==> id !in l.table.rows && Waiting(l.active[id], id))
    && (forall id :: id in l.table.rows ==> Stored(l.table.rows[id]))
  }

  /** Rows with a response keep it. */
  ghost predicate ResponsesKept(t: Table, t': Table) {
    forall id :: id in t.rows && t.rows[id].cached.Some? ==> id in t'.rows && t'.rows[id].cached == t.rows[id].cached
  }

  lemma WrapDifference(a: uint32, b: uint32)
    ensures (Wrap32(a - b) + b) % TWO32 == a
  {
  }

  /** The row that an approved payment leaves. */
  function PaidRow(l: Ledger, id: string, env: Env): Row
    requires id in l.active
  {
    var marked := MarkCompleted(SetState(l, id, PaymentProcessing, env.now), id, env.confirmation, env.auth, env.now);
    var r := RowOf(marked.active[id]);
    r.(cached := Some(ResponseFor(r, env.confirmation, env.auth)))
  }

  function DeclinedRow(l: Ledger, id: string, env: Env): Row
    requires id in l.active
  {
    RowOf(MarkFailed(SetState(l, id, PaymentProcessing, env.now), id, DECLINED_TEXT, env.now).active[id])
  }

  /** With a free key a payment moves the transaction from the active map to one new row, settled or failed. */
  lemma PaymentSettles(l: Ledger, id: string, env: Env)
    requires id in l.active && id !in l.table.rows
    ensures var o := ProcessPayment(l, id, env);
            && o.ledger.active == l.active - {id}
            && o.ledger.table
                == Append(l.table, id, if env.approved then PaidRow(l, id, env) else DeclinedRow(l, id, env))
            && o.reply == Some(if env.approved then CompletionReply(PaidRow(l, id, env).cached.value) else DECLINED)
  {
    hide RowOf, ReceiptText, Format, ResponseFor;
    var started := SetState(l, id, PaymentProcessing, env.now);
    assert started.active - {id} == l.active - {id};
    if env.approved {
      var marked := MarkCompleted(started, id, env.confirmation, env.auth, env.now);
      assert marked.active - {id} == l.active - {id};
      assert l.table.rows[id := RowOf(marked.active[id])][id := PaidRow(l, id, env)]
          == l.table.rows[id := PaidRow(l, id, env)];
    } else {
      var marked := MarkFailed(started, id, DECLINED_TEXT, env.now);
      assert marked.active - {id} == l.active - {id};
    }
  }

  lemma NewRowIsStored(l: Ledger, id: string, env: Env)
    requires id in l.active && l.active[id].id == id
    ensures Stored(PaidRow(l, id, env)) && PaidRow(l, id, env).state == PaymentCompleted
             && PaidRow(l, id, env).fixed.id == id
    ensures Stored(DeclinedRow(l, id, env)) && DeclinedRow(l, id, env).state == Failed
             && DeclinedRow(l, id, env).fixed.id == id
  {
    hide ReceiptText, LastFour;
    var t := l.active[id];
    WrapDifference(t.amount, t.loyaltyAmount);
    if t.card.Some? {
      WrapDifference(t.card.value.points, t.loyaltyPoints);
    }
  }

  lemma AppendIsCoherent(l: Ledger, id: string, r: Row, l': Ledger)
    requires Coherent(l) && id !in l.table.rows && Stored(r) && r.fixed.id == id
    requires l'.active == l.active - {id} && l'.table == Append(l.table, id, r)
    ensures Coherent(l') && ResponsesKept(l.table, l'.table)
  {
    hide Stored, Waiting;
  }

  lemma PaymentKeepsCoherence(l: Ledger, id: string, env: Env)
    requires Coherent(l) && id in l.active
    ensures Coherent(ProcessPayment(l, id, env).ledger)
    ensures ResponsesKept(l.table, ProcessPayment(l, id, env).ledger.table)
  {
    hide ProcessPayment, Stored, PaidRow, DeclinedRow;
    PaymentSettles(l, id, env);
    NewRowIsStored(l, id, env);
    AppendIsCoherent(l, id, if env.approved then PaidRow(l, id, env) else DeclinedRow(l, id, env),
                     ProcessPayment(l, id, env).ledger);
  }

  /** A change to one active transaction that leaves it waiting. */
  lemma ActiveStaysCoherent(l: Ledger, id: string, t: Transaction)
    requires Coherent(l) && id !in l.table.rows && Waiting(t, id)
    ensures Coherent(l.(active := l.active[id := t]))
  {
    hide Stored, WellFormed;
  }

  /** A change to one row that keeps its response and a state that goes with it. */
  lemma RowStaysCoherent(l: Ledger, id: string, r: Row)
    requires Coherent(l) && id in l.table.rows && Stored(r)
    requires r.fixed == l.table.rows[id].fixed && r.cached == l.table.rows[id].cached
    ensures Coherent(l.(table := Put(l.table, id, r))) && ResponsesKept(l.table, Put(l.table, id, r))
  {
    hide Stored;
  }

  lemma StampStaysCoherent(l: Ledger, n: nat)
    requires Coherent(l)
    ensures Coherent(l.(table := StampOpen(l.table, n))) && ResponsesKept(l.table, StampOpen(l.table, n))
  {
    forall id | id in l.table.rows ensures Stored(StampOpen(l.table, n).rows[id]) {
      assert Stored(l.table.rows[id]);
    }
  }

  lemma BankKeepsCoherence(l: Ledger, id: string, bankId: uint32, aid: string, n: uint32, now: Time)
    requires Coherent(l)
    ensures Coherent(SetBank(l, id, bankId, aid, n, now))
  {
    if id in l.active {
      ActiveStaysCoherent(l, id, SetBank(l, id, bankId, aid, n, now).active[id]);
    }
  }

  lemma LoyaltyKeepsCoherence(l: Ledger, id: string, points: uint32, value: uint32, now: Time)
    requires Coherent(l)
    ensures Coherent(SetLoyalty(l, id, true, points, value, now))
  {
    if id in l.active {
      ActiveStaysCoherent(l, id, SetLoyalty(l, id, true, points, value, now).active[id]);
    }
  }

  lemma InsertionKeepsCoherence(cfg: Config, l: Ledger, id: string, amount: uint32, currency: string, env: Env)
    requires Coherent(l) && id !in l.table.rows
    ensures var l' := HandleCardInsertion(cfg, l, id, amount, currency, env).ledger;
            Coherent(l') && l'.table == l.table
  {
    var l' := HandleCardInsertion(cfg, l, id, amount, currency, env).ledger;
    if CheckNew(cfg, l, id, amount, currency).None? {
      ActiveStaysCoherent(l, id, l'.active[id]);
      assert l' == l.(active := l.active[id := l'.active[id]]);
    }
  }

  lemma ProcessingKeepsCoherence(l: Ledger, id: string, bankId: uint32, aid: string, use: bool, n: uint32, env: Env)
    requires Coherent(l)
    ensures var l' := HandlePaymentProcessing(l, id, bankId, aid, use, n, env).ledger;
            Coherent(l') && ResponsesKept(l.table, l'.table)
  {
    hide ProcessPayment, Stored, WellFormed;
    BankKeepsCoherence(l, id, bankId, aid, n, env.now);
    var chosen := SetBank(l, id, bankId, aid, n, env.now);
    if id in l.active {
      if use && HasLoyaltyCard(l.active[id]) {
        ActiveStaysCoherent(chosen, id, SetState(chosen, id, LoyaltyInquiry, env.now).active[id]);
      } else {
        PaymentKeepsCoherence(chosen, id, env);
      }
    }
  }

  lemma UndoKeepsCoherence(l: Ledger, id: string, amount: uint32, env: Env)
    requires Coherent(l)
    ensures var l' := HandleVoid(l, id, env).ledger; Coherent(l') && ResponsesKept(l.table, l'.table)
    ensures var l' := HandleRefund(l, id, amount, env).ledger; Coherent(l') && ResponsesKept(l.table, l'.table)
  {
    hide WellFormed, Agrees, Waiting;
    if Voidable(l, id) {
      RowStaysCoherent(l, id, Void(l, id, env.now).table.rows[id]);
    }
    if Refundable(l, id, amount) {
      RowStaysCoherent(l, id, Refund(l, id, amount, env.now).table.rows[id]);
    }
  }

  /**
   * Every message but an insertion with a settled id keeps the active and stored transactions coherent, and every
   * response.
   */
  lemma HandleKeepsCoherence(cfg: Config, l: Ledger, req: Request, env: Env)
    requires Coherent(l) && Fresh(l, req)
    ensures var l' := Handle(cfg, l, req, env).ledger; Coherent(l') && ResponsesKept(l.table, l'.table)
  {
    hide ProcessPayment, Coherent, HandleCardInsertion, HandlePaymentProcessing, HandleVoid, HandleRefund;
    match req
    case CardInsertionRequest(id, amount, currency) => InsertionKeepsCoherence(cfg, l, id, amount, currency, env);
    case PaymentProcessingRequest(id, bankId, aid, use, n) => ProcessingKeepsCoherence(l, id, bankId, aid, use, n, env);
    case LoyaltyPointsConfirmation(id, points, value) =>
      LoyaltyKeepsCoherence(l, id, points, value, env.now);
      if id in l.active { PaymentKeepsCoherence(SetLoyalty(l, id, true, points, value, env.now), id, env); }
    case PaymentCompletionRequest(id) => if id in l.active { PaymentKeepsCoherence(l, id, env); }
    case RefundRequest(id, amount) => UndoKeepsCoherence(l, id, amount, env);
    case VoidRequest(id) => UndoKeepsCoherence(l, id, 0, env);
    case ZReportRequest => StampStaysCoherent(l, NextBatch(l));
    case _ =>
  }

  lemma RestartKeepsCoherence(l: Ledger)
    requires Coherent(l)
    ensures Coherent(Restart(l)) && Restart(l).table == l.table
  {
  }

  lemma KeptTransitively(t: Table, t': Table, t'': Table)
    requires ResponsesKept(t, t') && ResponsesKept(t', t'')
    ensures ResponsesKept(t, t'')
  {
    assert forall id :: id in t.rows && t.rows[id].cached.Some? ==> id in t'.rows && t'.rows[id].cached.Some?;
  }

  /**
   * In fresh-id runs active and stored ids stay apart, each active transaction waits for a bank or for points of a
   * loyalty card, each settled row has a response that agrees with it, and no response ever changes.
   */
  lemma {:induction false} FreshRunsAreCoherent(cfg: Config, l: Ledger, events: seq<Event>)
    requires Coherent(l) && FreshRun(cfg, l, events)
    ensures Coherent(RunEvents(cfg, l, events)) && ResponsesKept(l.table, RunEvents(cfg, l, events).table)
    decreases |events|
  {
    hide Coherent, Handle, ResponsesKept;
    if events == [] {
      KeptByItself(l.table);
    } else {
      var front, last := events[..|events| - 1], events[|events| - 1];
      var before := RunEvents(cfg, l, front);
      FreshRunsAreCoherent(cfg, l, front);
      match last
      case Message(req, env) =>
        HandleKeepsCoherence(cfg, before, req, env);
        KeptTransitively(l.table, before.table, Handle(cfg, before, req, env).ledger.table);
      case Restarted => RestartKeepsCoherence(before);
    }
  }

  lemma KeptByItself(t: Table)
    ensures ResponsesKept(t, t)
  {
  }

  lemma NewTerminalIsCoherent(metadata: map<string, string>)
    ensures Coherent(OpenLedger(EMPTY, metadata))
  {
  }

  // ---------- Duplicates ----------

  /** Requests that an ECR repeats to learn how a payment of this id ended. */
  predicate AsksForPayment(req: Request, id: string) {
    (req.PaymentProcessingRequest? || req.LoyaltyPointsConfirmation?) && req.id == id
  }

  predicate PaysFor(req: Request, id: string) {
    AsksForPayment(req, id) || (req.PaymentCompletionRequest? && req.id == id)
  }

  lemma PaymentIsStored(l: Ledger, id: string, env: Env)
    requires Coherent(l) && id in l.active
    ensures var o := ProcessPayment(l, id, env);
            o.reply.Some?
                && (o.reply.value.CompletionReply? ==> StoredResponse(o.ledger, id) == Some(o.reply.value.response))
  {
    hide ProcessPayment, DeclinedRow, MarkCompleted, RowOf, ResponseFor, Stored, Waiting, WellFormed;
    PaymentSettles(l, id, env);
  }

  /** A request answered with a response leaves exactly that response stored. */
  lemma ResponseIsStored(cfg: Config, l: Ledger, req: Request, env: Env, id: string)
    requires Coherent(l) && PaysFor(req, id)
    ensures var o := Handle(cfg, l, req, env);
            o.reply.Some?
                && (o.reply.value.CompletionReply? ==> StoredResponse(o.ledger, id) == Some(o.reply.value.response))
  {
    hide ProcessPayment, Coherent;
    match req
    case PaymentProcessingRequest(_, bankId, aid, use, n) =>
      BankKeepsCoherence(l, id, bankId, aid, n, env.now);
      if id in l.active { PaymentIsStored(SetBank(l, id, bankId, aid, n, env.now), id, env); }
    case LoyaltyPointsConfirmation(_, points, value) =>
      LoyaltyKeepsCoherence(l, id, points, value, env.now);
      if id in l.active { PaymentIsStored(SetLoyalty(l, id, true, points, value, env.now), id, env); }
    case PaymentCompletionRequest(_) => if id in l.active { PaymentIsStored(l, id, env); }
  }

  /**
   * Once a payment has been answered with a response, every later payment or loyalty request for its id gets the same
   * response and changes nothing, whatever messages and restarts of a fresh-id run came between.
   */
  lemma DuplicatesGetTheStoredResponse(cfg: Config, l: Ledger, req: Request, env: Env, id: string, events: seq<Event>,
                                       again: Request, env': Env)
    requires Coherent(l) && PaysFor(req, id) && AsksForPayment(again, id)
    requires Handle(cfg, l, req, env).reply.Some? && Handle(cfg, l, req, env).reply.value.CompletionReply?
    requires FreshRun(cfg, Handle(cfg, l, req, env).ledger, events)
    ensures var l' := RunEvents(cfg, Handle(cfg, l, req, env).ledger, events);
            Handle(cfg, l', again, env') == Outcome(l', Handle(cfg, l, req, env).reply)
  {
    hide ProcessPayment, Coherent, FreshRun, RunEvents;
    ResponseIsStored(cfg, l, req, env, id);
    HandleKeepsCoherence(cfg, l, req, env);
    var paid := Handle(cfg, l, req, env).ledger;
    FreshRunsAreCoherent(cfg, paid, events);
    assert StoredResponse(RunEvents(cfg, paid, events), id) == StoredResponse(paid, id);
  }

  /** In the detailed report the entry of a settled row says what the ECR was told about its payment. */
  lemma EntryAgreesWithResponse(l: Ledger, id: string)
    requires Coherent(l) && id in l.table.rows && l.table.rows[id].state in SETTLED
    ensures var r := l.table.rows[id];
            && r.cached.Some? && |EntryFor(r)| == 1
            && var e, told := EntryFor(r)[0], r.cached.value;
               && e.id == id && (e.kind == SaleEntry <==> r.state == PaymentCompleted)
               && (e.kind == RefundEntry <==> r.state == Refunded)
               && e.amount == Wrap32(told.cardAmount + told.loyaltyAmount) && e.loyaltyAmount == told.loyaltyAmount
               && e.confirmation == told.confirmation && e.receipt == told.receipt
               && e.currency == told.currency && e.installments == told.installments
  {
    hide LastFour;
    assert Stored(l.table.rows[id]);
  }

  // ---------- Reused ids ----------

  /**
   * Why fresh ids matter: an approved payment settles its transaction exactly when the table does not hold the id. If
   * it does, the old row keeps its state and columns, the transaction stays active, and the reply is a success all the
   * same.
   */
  lemma PaymentOfReusedId(l: Ledger, id: string, env: Env)
    requires id in l.active && env.approved
    ensures var o := ProcessPayment(l, id, env);
            && (id !in o.ledger.active <==> id !in l.table.rows)
            && id in o.ledger.table.rows
            && (o.ledger.table.rows[id].state == PaymentCompleted <==>
                  id !in l.table.rows || l.table.rows[id].state == PaymentCompleted)
            && o.reply.Some? && o.reply.value.CompletionReply? && o.reply.value.response.code == "00"
            && (id in l.table.rows ==>
                  && o.ledger.table.rows[id].state == l.table.rows[id].state
                  && o.ledger.table.rows[id].fixed == l.table.rows[id].fixed)
  {
    hide LastFour, InSeconds, ReceiptText, Format;
  }

  /** So a declined payment's id, inserted again and approved, is reported as paid while its row stays failed. */
  lemma FailedIdReportedAsPaid(cfg: Config, l: Ledger, id: string, amount: uint32, currency: string, e1: Env, e2: Env)
    requires id in l.table.rows && l.table.rows[id].state == Failed && l.table.rows[id].cached == None
    requires CheckNew(cfg, l, id, amount, currency) == None && e2.approved
    ensures var inserted := Handle(cfg, l, CardInsertionRequest(id, amount, currency), e1);
            var paid := Handle(cfg, inserted.ledger, PaymentProcessingRequest(id, 1, "", false, 0), e2);
            && paid.reply.Some? && paid.reply.value.CompletionReply? && paid.reply.value.response.code == "00"
            && id in paid.ledger.table.rows && paid.ledger.table.rows[id].state == Failed
  {
    hide ProcessPayment, CheckNew;
    var inserted := Handle(cfg, l, CardInsertionRequest(id, amount, currency), e1).ledger;
    assert id in inserted.active && inserted.table == l.table;
    var chosen := SetBank(inserted, id, 1, "", 0, e2.now);
    PaymentOfReusedId(chosen, id, e2);
    PaymentEvolves(chosen, id, e2);
  }
}
