/** Delivering a request several times in a row has the effect of delivering it once, timestamps aside. */
module Retries {
  import opened Wrappers
  import opened Domain
  import opened Tables
  import opened Ledgers
  import opened Reports
  import opened DetailedReports
  import opened Handlers
  import opened Runs

  // ---------- Ledgers without their timestamps of last change ----------

  function UntimedTransactions(active: map<string, Transaction>): map<string, Transaction> {
    map id | id in active :: active[id].(lastUpdated := 0)
  }

  function UntimedRows(rows: map<string, Row>): map<string, Row> {
    map id | id in rows :: rows[id].(lastUpdated := 0)
  }

  /** A ledger without the times of last change, the one thing that repeating a request may touch. */
  function Untimed(l: Ledger): Ledger {
    l.(active := UntimedTransactions(l.active), table := Table(UntimedRows(l.table.rows), l.table.order))
  }

  /** Ledgers that agree so far agree in everything else. */
  lemma AgreeButInTimes(l: Ledger, l': Ledger)
    requires Untimed(l) == Untimed(l')
    ensures l'.counter == l.counter && l'.metadata == l.metadata && l'.table.order == l.table.order
    ensures l'.active.Keys == l.active.Keys && l'.table.rows.Keys == l.table.rows.Keys
    ensures forall id :: id in l.active ==> l'.active[id] == l.active[id].(lastUpdated := l'.active[id].lastUpdated)
    ensures forall id :: id in l.table.rows ==>
              l'.table.rows[id] == l.table.rows[id].(lastUpdated := l'.table.rows[id].lastUpdated)
  {
    assert l.active.Keys == UntimedTransactions(l.active).Keys == UntimedTransactions(l'.active).Keys == l'.active.Keys;
    assert l.table.rows.Keys == UntimedRows(l.table.rows).Keys == UntimedRows(l'.table.rows).Keys == l'.table.rows.Keys;
    assert forall id :: id in l.active ==> UntimedTransactions(l.active)[id] == UntimedTransactions(l'.active)[id];
    assert forall id :: id in l.table.rows ==> UntimedRows(l.table.rows)[id] == UntimedRows(l'.table.rows)[id];
  }

  // ---------- The second delivery ----------

  lemma InsertionAgain(cfg: Config, l: Ledger, id: string, amount: uint32, currency: string, e: Env, e': Env)
    ensures var l1 := HandleCardInsertion(cfg, l, id, amount, currency, e).ledger;
            HandleCardInsertion(cfg, l1, id, amount, currency, e') == Replied(l1, CARD_ERROR)
  {
  }

  /** After a payment was approved or declined its id is active no more, and the response, if any, is stored. */
  lemma PaymentAgain(l: Ledger, id: string, e: Env)
    requires Coherent(l) && id in l.active
    ensures var o := ProcessPayment(l, id, e);
            && id !in o.ledger.active
            && (e.approved ==>
                StoredResponse(o.ledger, id).Some?
                    && o.reply == Some(CompletionReply(StoredResponse(o.ledger, id).value)))
            && (!e.approved ==> StoredResponse(o.ledger, id) == None && o.reply == Some(DECLINED))
  {
    hide ProcessPayment, Stored, Waiting, WellFormed, MarkCompleted, MarkFailed, LastFour, ResponseFor;
    PaymentSettles(l, id, e);
  }

  /** Asking for points twice changes the time only. */
  lemma InquiryAgain(l: Ledger, id: string, bankId: uint32, aid: string, n: uint32, e: Env, e': Env)
    requires id in l.active
    ensures var l1 := SetState(SetBank(l, id, bankId, aid, n, e.now), id, LoyaltyInquiry, e.now);
            var l2 := SetState(SetBank(l1, id, bankId, aid, n, e'.now), id, LoyaltyInquiry, e'.now);
            Untimed(l2) == Untimed(l1)
  {
    var l1 := SetState(SetBank(l, id, bankId, aid, n, e.now), id, LoyaltyInquiry, e.now);
    var l2 := SetState(SetBank(l1, id, bankId, aid, n, e'.now), id, LoyaltyInquiry, e'.now);
    assert UntimedTransactions(l1.active) == UntimedTransactions(l2.active);
  }

  lemma ProcessingAgain(l: Ledger, id: string, bankId: uint32, aid: string, use: bool, n: uint32, e: Env, e': Env)
    requires Coherent(l)
    ensures var l1 := HandlePaymentProcessing(l, id, bankId, aid, use, n, e).ledger;
            Untimed(HandlePaymentProcessing(l1, id, bankId, aid, use, n, e').ledger) == Untimed(l1)
  {
    hide ProcessPayment, Coherent, Untimed;
    ActiveHasNoRow(l, id);
    if id in l.active {
      if use && HasLoyaltyCard(l.active[id]) {
        InquiryAgain(l, id, bankId, aid, n, e, e');
      } else {
        BankKeepsCoherence(l, id, bankId, aid, n, e.now);
        PaymentAgain(SetBank(l, id, bankId, aid, n, e.now), id, e);
      }
    }
  }

  lemma ActiveHasNoRow(l: Ledger, id: string)
    requires Coherent(l)
    ensures id in l.active ==> StoredResponse(l, id) == None
  {
  }

  lemma ConfirmationAgain(l: Ledger, id: string, points: uint32, value: uint32, e: Env, e': Env)
    requires Coherent(l)
    ensures var l1 := HandleLoyaltyConfirmation(l, id, points, value, e).ledger;
            HandleLoyaltyConfirmation(l1, id, points, value, e').ledger == l1
  {
    hide ProcessPayment, Coherent;
    ActiveHasNoRow(l, id);
    if id in l.active {
      LoyaltyKeepsCoherence(l, id, points, value, e.now);
      PaymentAgain(SetLoyalty(l, id, true, points, value, e.now), id, e);
    }
  }

  lemma CompletionAgain(l: Ledger, id: string, e: Env, e': Env)
    requires Coherent(l)
    ensures var l1 := HandlePaymentCompletion(l, id, e).ledger; HandlePaymentCompletion(l1, id, e').ledger == l1
  {
    hide ProcessPayment, Coherent;
    if id in l.active {
      PaymentAgain(l, id, e);
    }
  }

  lemma UndoAgain(l: Ledger, id: string, amount: uint32, e: Env, e': Env)
    ensures var l1 := HandleVoid(l, id, e).ledger; HandleVoid(l1, id, e') == Replied(l1, VOID_ERROR)
    ensures var l1 := HandleRefund(l, id, amount, e).ledger;
             HandleRefund(l1, id, amount, e') == Replied(l1, REFUND_ERROR)
  {
  }

  lemma CloseAgain(l: Ledger)
    ensures CloseBatch(CloseBatch(l)) == CloseBatch(l)
  {
    hide MaxStamp;
    var t := CloseBatch(l).table;
    assert forall id :: id in t.rows ==> t.rows[id].zReportId != 0;
    assert StampOpen(t, NextBatch(CloseBatch(l))).rows == t.rows;
  }

  /** A second delivery, under any other circumstances, changes times only. */
  lemma Again(cfg: Config, l: Ledger, req: Request, e: Env, e': Env)
    requires Coherent(l)
    ensures var l1 := Handle(cfg, l, req, e).ledger; Untimed(Handle(cfg, l1, req, e').ledger) == Untimed(l1)
  {
    hide Coherent, Untimed, HandleCardInsertion, HandlePaymentProcessing, HandleLoyaltyConfirmation,
         HandlePaymentCompletion, HandleVoid, HandleRefund, CloseBatch, ReportOf, EntriesOf, Selected;
    match req
    case CardInsertionRequest(id, amount, currency) => InsertionAgain(cfg, l, id, amount, currency, e, e');
    case PaymentProcessingRequest(id, bankId, aid, use, n) => ProcessingAgain(l, id, bankId, aid, use, n, e, e');
    case LoyaltyPointsConfirmation(id, points, value) => ConfirmationAgain(l, id, points, value, e, e');
    case PaymentCompletionRequest(id) => CompletionAgain(l, id, e, e');
    case RefundRequest(id, amount) => UndoAgain(l, id, amount, e, e');
    case VoidRequest(id) => UndoAgain(l, id, 0, e, e');
    case ZReportRequest => CloseAgain(l);
    case _ =>
  }

  // ---------- Any number of deliveries ----------

  /** The same request delivered once for each of envs. */
  function Deliver(cfg: Config, l: Ledger, req: Request, envs: seq<Env>): Ledger
    decreases |envs|
  {
    if envs == [] then l
    else Handle(cfg, Deliver(cfg, l, req, envs[..|envs| - 1]), req, envs[|envs| - 1]).ledger
  }

  /** What the last of these deliveries is answered. */
  function LastReply(cfg: Config, l: Ledger, req: Request, envs: seq<Env>): Option<Reply>
    requires envs != []
  {
    Handle(cfg, Deliver(cfg, l, req, envs[..|envs| - 1]), req, envs[|envs| - 1]).reply
  }

  lemma InsertionKeepsTable(cfg: Config, l: Ledger, req: Request, env: Env)
    requires req.CardInsertionRequest?
    ensures Handle(cfg, l, req, env).ledger.table == l.table
  {
  }

  lemma {:induction false} DeliveriesKeepCoherence(cfg: Config, l: Ledger, req: Request, envs: seq<Env>)
    requires Coherent(l) && Fresh(l, req)
    ensures Coherent(Deliver(cfg, l, req, envs)) && Fresh(Deliver(cfg, l, req, envs), req)
    decreases |envs|
  {
    hide Coherent, Handle;
    if envs != [] {
      var front := envs[..|envs| - 1];
      DeliveriesKeepCoherence(cfg, l, req, front);
      HandleKeepsCoherence(cfg, Deliver(cfg, l, req, front), req, envs[|envs| - 1]);
      if req.CardInsertionRequest? {
        InsertionKeepsTable(cfg, Deliver(cfg, l, req, front), req, envs[|envs| - 1]);
      }
    }
  }

  /**
   * Retry safety: one or more deliveries of any request in a row leave the ledger that one delivery leaves, times of
   * last change aside: same active transactions, rows, stamps, responses, and receipt counter.
   */
  lemma {:induction false} RetrySafety(cfg: Config, l: Ledger, req: Request, envs: seq<Env>)
    requires Coherent(l) && Fresh(l, req) && envs != []
    ensures Untimed(Deliver(cfg, l, req, envs)) == Untimed(Handle(cfg, l, req, envs[0]).ledger)
    decreases |envs|
  {
    hide Coherent, Handle, Untimed;
    var n := |envs|;
    if n > 1 {
      var front := envs[..n - 1];
      RetrySafety(cfg, l, req, front);
      DeliveriesKeepCoherence(cfg, l, req, front[..n - 2]);
      Again(cfg, Deliver(cfg, l, req, front[..n - 2]), req, front[n - 2], envs[n - 1]);
    }
  }

  /** The request asks for points first: nothing is paid yet. */
  predicate AsksForPoints(l: Ledger, req: Request, id: string)
    requires id in l.active
  {
    req.PaymentProcessingRequest? && req.useLoyalty && HasLoyaltyCard(l.active[id])
  }

  /** What both deliveries of a payment request answer. */
  lemma BothReplies(cfg: Config, l: Ledger, req: Request, id: string, e: Env, e': Env)
    requires Coherent(l) && PaysFor(req, id) && id in l.active
    ensures var o := Handle(cfg, l, req, e);
            var o' := Handle(cfg, o.ledger, req, e');
            if AsksForPoints(l, req, id) then
              o.reply.Some? && o.reply.value.LoyaltyInquiryReply? && o'.reply == o.reply
            else if !e.approved then
              o.reply == Some(DECLINED) && o' == Replied(o.ledger, NOT_FOUND)
            else
              && o.reply.Some? && o.reply.value.CompletionReply?
              && StoredResponse(o.ledger, id) == Some(o.reply.value.response)
              && o' == (if req.PaymentCompletionRequest? then Replied(o.ledger, NOT_FOUND) else o)
  {
    hide ProcessPayment, Coherent;
    ActiveHasNoRow(l, id);
    match req
    case PaymentProcessingRequest(_, bankId, aid, use, n) =>
      BankKeepsCoherence(l, id, bankId, aid, n, e.now);
      PaymentAgain(SetBank(l, id, bankId, aid, n, e.now), id, e);
    case LoyaltyPointsConfirmation(_, points, value) =>
      LoyaltyKeepsCoherence(l, id, points, value, e.now);
      PaymentAgain(SetLoyalty(l, id, true, points, value, e.now), id, e);
    case PaymentCompletionRequest(_) => PaymentAgain(l, id, e);
  }

  /**
   * The requests whose second delivery is answered as the first was. A report over given times depends on no clock;
   * one that leaves a time out is answered by the clock of its delivery.
   */
  predicate AnsweredAlike(cfg: Config, l: Ledger, req: Request, e: Env) {
    match req
    case CardInsertionRequest(id, amount, currency) => CheckNew(cfg, l, id, amount, currency).Some?
    case PaymentProcessingRequest(id, _, _, _, _) => id !in l.active || AsksForPoints(l, req, id) || e.approved
    case LoyaltyPointsConfirmation(id, _, _) => id !in l.active || e.approved
    case PaymentCompletionRequest(id) => id !in l.active
    case RefundRequest(id, amount) => !Refundable(l, id, amount)
    case VoidRequest(id) => !Voidable(l, id)
    case ZReportRequest => OpenIds(l.table) == {}
    case _ => true
  }

  /**
   * A repeated request is answered as the first was if and only if it was refused or changed nothing, asks for points,
   * or is a payment that was approved and looks for the stored response.
   */
  lemma RetriedReply(cfg: Config, l: Ledger, req: Request, e: Env, e': Env)
    requires Coherent(l)
    requires req.DetailedReportRequest? ==> (req.from.Some? && req.to.Some?) || e.now == e'.now
    ensures var o := Handle(cfg, l, req, e);
            Handle(cfg, o.ledger, req, e').reply == o.reply <==> AnsweredAlike(cfg, l, req, e)
  {
    if req.ZReportRequest? {
      RetriedZReport(l);
    } else if PaysFor(req, PaymentId(req)) {
      RetriedPaymentReply(cfg, l, req, PaymentId(req), e, e');
    } else {
      RetriedOtherReply(cfg, l, req, e, e');
    }
  }

  function PaymentId(req: Request): string {
    match req
    case PaymentProcessingRequest(id, _, _, _, _) => id
    case LoyaltyPointsConfirmation(id, _, _) => id
    case PaymentCompletionRequest(id) => id
    case _ => ""
  }

  lemma RetriedPaymentReply(cfg: Config, l: Ledger, req: Request, id: string, e: Env, e': Env)
    requires Coherent(l) && PaysFor(req, id)
    ensures var o := Handle(cfg, l, req, e);
            Handle(cfg, o.ledger, req, e').reply == o.reply <==> AnsweredAlike(cfg, l, req, e)
  {
    hide Coherent, ProcessPayment;
    if id in l.active {
      hide Handle, AsksForPoints;
      BothReplies(cfg, l, req, id, e, e');
    }
  }

  lemma RetriedOtherReply(cfg: Config, l: Ledger, req: Request, e: Env, e': Env)
    requires !PaysFor(req, PaymentId(req)) && !req.ZReportRequest?
    requires req.DetailedReportRequest? ==> (req.from.Some? && req.to.Some?) || e.now == e'.now
    ensures var o := Handle(cfg, l, req, e);
            Handle(cfg, o.ledger, req, e').reply == o.reply <==> AnsweredAlike(cfg, l, req, e)
  {
    hide ReportOf, EntriesOf, Selected, CheckNew;
    match req
    case CardInsertionRequest(id, amount, currency) => InsertionAgain(cfg, l, id, amount, currency, e, e');
    case RefundRequest(id, amount) => UndoAgain(l, id, amount, e, e');
    case VoidRequest(id) => UndoAgain(l, id, 0, e, e');
    case _ =>
  }

  /** The reply to a Z-report, which depends on the table only. */
  function ZAnswer(l: Ledger): Reply {
    ZReply(ReportOf(l.table), Wrap32(NextBatch(l)))
  }

  /**
   * After a Z-report the next one shows nothing. If the first closed a batch, the next has the next number, and so is
   * not what the first was.
   */
  lemma SecondZAnswer(l: Ledger)
    requires WellFormed(l.table)
    ensures ZAnswer(CloseBatch(l))
         == (if OpenIds(l.table) == {} then ZAnswer(l) else ZReply(EMPTY_REPORT, Wrap32(NextBatch(l) + 1)))
    ensures OpenIds(l.table) != {} ==> ZAnswer(CloseBatch(l)) != ZAnswer(l)
    ensures OpenIds(CloseBatch(l).table) == {} && WellFormed(CloseBatch(l).table)
  {
    hide MaxStamp, ReportOf, StampOpen, OpenIds, WellFormed;
    StampMax(l.table);
    StampEvolves(l.table, NextBatch(l));
    StampingClosesAll(l.table, NextBatch(l));
    if OpenIds(l.table) == {} {
      NothingToStamp(l.table, NextBatch(l));
    } else {
      NothingOpenNothingShown(CloseBatch(l).table);
    }
  }

  lemma RetriedZReport(l: Ledger)
    requires Coherent(l)
    ensures ZAnswer(CloseBatch(l)) == ZAnswer(l) <==> OpenIds(l.table) == {}
  {
    hide ReportOf, MaxStamp;
    SecondZAnswer(l);
  }

  lemma {:induction false} ZReportDeliveries(cfg: Config, l: Ledger, envs: seq<Env>)
    requires WellFormed(l.table) && envs != []
    ensures Deliver(cfg, l, ZReportRequest, envs) == CloseBatch(l)
    ensures LastReply(cfg, l, ZReportRequest, envs) == Some(if |envs| == 1 then ZAnswer(l) else ZAnswer(CloseBatch(l)))
    decreases |envs|
  {
    hide CloseBatch, ZAnswer;
    var front := envs[..|envs| - 1];
    ZHandled(cfg, Deliver(cfg, l, ZReportRequest, front), envs[|envs| - 1]);
    if front != [] {
      ZReportDeliveries(cfg, l, front);
      CloseAgain(l);
    }
  }

  lemma ZHandled(cfg: Config, l: Ledger, env: Env)
    ensures Handle(cfg, l, ZReportRequest, env) == Replied(CloseBatch(l), ZAnswer(l))
  {
    hide ReportOf, MaxStamp;
  }

  /** A PaymentCompletionRequest that was approved is answered 02 when repeated, although the response is stored. */
  lemma RepeatedCompletionIsNotFound(cfg: Config, l: Ledger, id: string, e: Env, e': Env)
    requires Coherent(l) && id in l.active && e.approved
    ensures var o := Handle(cfg, l, PaymentCompletionRequest(id), e);
            && o.reply.Some? && o.reply.value.CompletionReply?
            && StoredResponse(o.ledger, id) == Some(o.reply.value.response)
            && Handle(cfg, o.ledger, PaymentCompletionRequest(id), e') == Replied(o.ledger, NOT_FOUND)
  {
    hide Handle, Coherent;
    BothReplies(cfg, l, PaymentCompletionRequest(id), id, e, e');
  }
}
