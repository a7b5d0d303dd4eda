/** The message handlers of the terminal: what each does as a function, and the class that does it in place. */
module Handlers {
  import opened Wrappers
  import opened Domain
  import opened Tables
  import opened Ledgers
  import opened Reports
  import opened DetailedReports
  import opened TransactionManagers

  /** Requests whose replies depend on no transaction; what these replies say is not modelled. */
  datatype StatelessKind = GetVersion | GetTerminalInfo | GetBanks | GiftCardInquiry | GiftCardCharge

  /** A request body. `Other` stands for every body that the terminal does not handle. */
  datatype Request =
    | CardInsertionRequest(id: string, amount: uint32, currency: string)
    | PaymentProcessingRequest(id: string, bankId: uint32, aid: string, useLoyalty: bool, installments: uint32)
    | LoyaltyPointsConfirmation(id: string, points: uint32, value: uint32)
    | PaymentCompletionRequest(id: string)
    | RefundRequest(id: string, amount: uint32)
    | VoidRequest(id: string)
    | XReportRequest
    | ZReportRequest
    | DetailedReportRequest(from: Option<Time>, to: Option<Time>, limit: uint32, includeVoids: bool)
    | StatelessRequest(kind: StatelessKind)
    | Other

  /** The two reports that group rows, and so rely on the primary key. */
  predicate IsTotalsReport(req: Request) {
    req.XReportRequest? || req.ZReportRequest?
  }

  /** A response body. */
  datatype Reply =
    | ErrorReply(code: string)
    | CardReply(masked: string, holder: string, banks: seq<BankApp>)
    | LoyaltyInquiryReply(points: uint32, value: uint32)
    | CompletionReply(response: Response)
    | RefundReply(id: string, amount: uint32)
    | VoidReply(id: string, currency: string)
    | XReply(report: Report)
    | ZReply(report: Report, number: uint32)
    | DetailedReply(entries: seq<TransactionEntry>)
    | StatelessReply(kind: StatelessKind)

  /** What the terminal meets while it handles one message: card, bank decision, codes, clock. */
  datatype Env = Env(card: Card, approved: bool, confirmation: string, auth: string, now: Time)

  /** The ledger after a message, and the reply; no reply body means that the body was not supported. */
  datatype Outcome = Outcome(ledger: Ledger, reply: Option<Reply>)

  function Replied(l: Ledger, r: Reply): Outcome { Outcome(l, Some(r)) }

  const CARD_ERROR := ErrorReply("01")
  const NOT_FOUND := ErrorReply("02")
  const REFUND_ERROR := ErrorReply("03")
  const VOID_ERROR := ErrorReply("04")
  const DECLINED := ErrorReply("05")

  const DECLINED_TEXT := "Payment declined by bank"

  const DAY := 24 * 60 * 60 * SECOND

  function HandleCardInsertion(cfg: Config, l: Ledger, id: string, amount: uint32, currency: string,
                               env: Env): Outcome {
    if CheckNew(cfg, l, id, amount, currency).Some? then Replied(l, CARD_ERROR)
    else
      var created := Create(cfg, l, id, amount, currency, env.now);
      Replied(SetState(SetCard(created, id, env.card, env.now), id, BankSelection, env.now),
              CardReply(env.card.masked, env.card.holder, env.card.banks))
  }

  /** The stored response that makes a repeated payment request idempotent. */
  function StoredResponse(l: Ledger, id: string): Option<Response> {
    if id in l.table.rows then l.table.rows[id].cached else None
  }

  /** The response for a row that has just been read back, with the codes of this attempt. */
  function ResponseFor(r: Row, confirmation: string, auth: string): Response {
    var f := r.fixed;
    Response("00", confirmation, f.receipt, Wrap32(f.amount - f.loyaltyAmount), f.loyaltyAmount,
             if f.hasLoyalty then Wrap32(f.points - f.loyaltyPoints) else 0,
             "Payment completed successfully", auth, f.currency, f.installments)
  }

  /** After Complete the row exists, whether its INSERT succeeded or met a row with that key. */
  function ProcessPayment(l: Ledger, id: string, env: Env): Outcome
    requires id in l.active
  {
    var started := SetState(l, id, PaymentProcessing, env.now);
    if !env.approved then Replied(Fail(started, id, DECLINED_TEXT, env.now), DECLINED)
    else
      var completed := Complete(started, id, env.confirmation, env.auth, env.now);
      var response := ResponseFor(completed.table.rows[id], env.confirmation, env.auth);
      Replied(SetCached(completed, id, response), CompletionReply(response))
  }

  predicate HasLoyaltyCard(t: Transaction) {
    t.card.Some? && t.card.value.hasLoyalty
  }

  function HandlePaymentProcessing(l: Ledger, id: string, bankId: uint32, aid: string, useLoyalty: bool,
                                   installments: uint32, env: Env): Outcome
  {
    if StoredResponse(l, id).Some? then Replied(l, CompletionReply(StoredResponse(l, id).value))
    else if id !in l.active then Replied(l, NOT_FOUND)
    else
      var chosen := SetBank(l, id, bankId, aid, installments, env.now);
      if useLoyalty && HasLoyaltyCard(l.active[id]) then
        var card := l.active[id].card.value;
        Replied(SetState(chosen, id, LoyaltyInquiry, env.now), LoyaltyInquiryReply(card.points, card.pointsValue))
      else ProcessPayment(chosen, id, env)
  }

  function HandleLoyaltyConfirmation(l: Ledger, id: string, points: uint32, value: uint32, env: Env): Outcome {
    if StoredResponse(l, id).Some? then Replied(l, CompletionReply(StoredResponse(l, id).value))
    else if id !in l.active then Replied(l, NOT_FOUND)
    else ProcessPayment(SetLoyalty(l, id, true, points, value, env.now), id, env)
  }

  function HandlePaymentCompletion(l: Ledger, id: string, env: Env): Outcome {
    if id !in l.active then Replied(l, NOT_FOUND) else ProcessPayment(l, id, env)
  }

  function HandleRefund(l: Ledger, id: string, amount: uint32, env: Env): Outcome {
    if Refundable(l, id, amount) then Replied(Refund(l, id, amount, env.now), RefundReply(id, amount))
    else Replied(l, REFUND_ERROR)
  }

  function HandleVoid(l: Ledger, id: string, env: Env): Outcome {
    if Voidable(l, id) then Replied(Void(l, id, env.now), VoidReply(id, l.table.rows[id].fixed.currency))
    else Replied(l, VOID_ERROR)
  }

  function QueryFor(from: Option<Time>, to: Option<Time>, limit: uint32, includeVoids: bool, now: Time): Query {
    Query(if from.Some? then from.value else now - DAY, if to.Some? then to.value else now, limit, includeVoids)
  }

  /** HandleMessage. */
  function Handle(cfg: Config, l: Ledger, req: Request, env: Env): Outcome {
    match req
    case CardInsertionRequest(id, amount, currency) => HandleCardInsertion(cfg, l, id, amount, currency, env)
    case PaymentProcessingRequest(id, bankId, aid, use, n) => HandlePaymentProcessing(l, id, bankId, aid, use, n, env)
    case LoyaltyPointsConfirmation(id, points, value) => HandleLoyaltyConfirmation(l, id, points, value, env)
    case PaymentCompletionRequest(id) => HandlePaymentCompletion(l, id, env)
    case RefundRequest(id, amount) => HandleRefund(l, id, amount, env)
    case VoidRequest(id) => HandleVoid(l, id, env)
    case XReportRequest => Replied(l, XReply(ReportOf(l.table)))
    case ZReportRequest => Replied(CloseBatch(l), ZReply(ReportOf(l.table), Wrap32(NextBatch(l))))
    case DetailedReportRequest(from, to, limit, includeVoids) =>
      Replied(l, DetailedReply(EntriesOf(Selected(l.table, QueryFor(from, to, limit, includeVoids, env.now)))))
    case StatelessRequest(kind) => Replied(l, StatelessReply(kind))
    case Other => Outcome(l, None)
  }

  // ---------- The handlers as the program performs them ----------

  class MessageHandler {
    const txnManager: TransactionManager

    ghost function Value(): Ledger
      reads txnManager
    {
      txnManager.Value()
    }

    constructor (txnManager: TransactionManager)
      ensures this.txnManager == txnManager
    {
      this.txnManager := txnManager;
    }

    method OnCardInsertion(id: string, amount: uint32, currency: string, env: Env) returns (r: Reply)
      modifies txnManager
      ensures Replied(Value(), r) == HandleCardInsertion(txnManager.config, old(Value()), id, amount, currency, env)
    {
      var error := txnManager.CreateTransaction(id, amount, currency, env.now);
      if error.Some? {
        return ErrorReply("01");
      }
      var card := env.card;
      var _ := txnManager.SetCardData(id, card, env.now);
      var _ := txnManager.UpdateTransactionState(id, BankSelection, env.now);
      return CardReply(card.masked, card.holder, card.banks);
    }

    method OnPayment(id: string, env: Env) returns (r: Reply)
      requires id in txnManager.activeTransactions
      modifies txnManager
      ensures Replied(Value(), r) == ProcessPayment(old(Value()), id, env)
    {
      hide RowOf, Wrap32, MarkCompleted, MarkFailed;
      var _ := txnManager.UpdateTransactionState(id, PaymentProcessing, env.now);
      if !env.approved {
        var _ := txnManager.FailTransaction(id, "Payment declined by bank", env.now);
        return ErrorReply("05");
      }
      var _ := txnManager.CompleteTransaction(id, env.confirmation, env.auth, env.now);
      var found := txnManager.GetCompletedTransactionByID(id);
      var txn := found.value;
      var cardAmount := Wrap32(txn.amount - txn.loyaltyAmount);
      var remainingPoints: uint32 := 0;
      if txn.card.Some? && txn.card.value.hasLoyalty {
        remainingPoints := Wrap32(txn.card.value.points - txn.loyaltyPoints);
      }
      var response := Response("00", env.confirmation, txn.receipt, cardAmount, txn.loyaltyAmount, remainingPoints,
                               "Payment completed successfully", env.auth, txn.currency, txn.installments);
      txnManager.SetCachedResponse(id, response);
      return CompletionReply(response);
    }

    method OnPaymentProcessing(id: string, bankId: uint32, aid: string, useLoyalty: bool, installments: uint32,
                               env: Env)
      returns (r: Reply)
      modifies txnManager
      ensures Replied(Value(), r)
               == HandlePaymentProcessing(old(Value()), id, bankId, aid, useLoyalty, installments, env)
    {
      hide ProcessPayment;
      var completed := txnManager.GetCompletedTransactionByID(id);
      if completed.Some? && completed.value.cached.Some? {
        return CompletionReply(completed.value.cached.value);
      }
      var txn := txnManager.GetTransaction(id);
      if txn == None {
        return ErrorReply("02");
      }
      var _ := txnManager.SetBankSelection(id, bankId, aid, installments, env.now);
      if useLoyalty && txn.value.card.Some? && txn.value.card.value.hasLoyalty {
        var _ := txnManager.UpdateTransactionState(id, LoyaltyInquiry, env.now);
        return LoyaltyInquiryReply(txn.value.card.value.points, txn.value.card.value.pointsValue);
      }
      r := OnPayment(id, env);
    }

    method OnLoyaltyConfirmation(id: string, points: uint32, value: uint32, env: Env) returns (r: Reply)
      modifies txnManager
      ensures Replied(Value(), r) == HandleLoyaltyConfirmation(old(Value()), id, points, value, env)
    {
      hide ProcessPayment;
      var completed := txnManager.GetCompletedTransactionByID(id);
      if completed.Some? && completed.value.cached.Some? {
        return CompletionReply(completed.value.cached.value);
      }
      var txn := txnManager.GetTransaction(id);
      if txn == None {
        return ErrorReply("02");
      }
      var _ := txnManager.SetLoyaltyPoints(id, true, points, value, env.now);
      r := OnPayment(id, env);
    }

    method OnPaymentCompletion(id: string, env: Env) returns (r: Reply)
      modifies txnManager
      ensures Replied(Value(), r) == HandlePaymentCompletion(old(Value()), id, env)
    {
      hide ProcessPayment;
      var txn := txnManager.GetTransaction(id);
      if txn == None {
        return ErrorReply("02");
      }
      r := OnPayment(id, env);
    }

    method OnRefund(id: string, amount: uint32, env: Env) returns (r: Reply)
      modifies txnManager
      ensures Replied(Value(), r) == HandleRefund(old(Value()), id, amount, env)
    {
      var txn := txnManager.RefundTransaction(id, amount, env.now);
      if txn == None {
        return ErrorReply("03");
      }
      return RefundReply(id, amount);
    }

    method OnVoid(id: string, env: Env) returns (r: Reply)
      modifies txnManager
      ensures Replied(Value(), r) == HandleVoid(old(Value()), id, env)
    {
      var txn := txnManager.VoidTransaction(id, env.now);
      if txn == None {
        return ErrorReply("04");
      }
      return VoidReply(id, txn.value.currency);
    }

    method HandleMessage(req: Request, env: Env) returns (r: Option<Reply>)
      requires IsTotalsReport(req) ==> WellFormed(Value().table)
      modifies txnManager
      ensures Outcome(Value(), r) == Handle(txnManager.config, old(Value()), req, env)
    {
      hide HandleCardInsertion, HandlePaymentProcessing, HandleLoyaltyConfirmation, HandlePaymentCompletion,
           HandleRefund, HandleVoid, ReportOf, EntriesOf, Selected, WellFormed;
      var reply: Reply;
      match req {
        case CardInsertionRequest(id, amount, currency) =>
          reply := OnCardInsertion(id, amount, currency, env);
        case PaymentProcessingRequest(id, bankId, aid, use, n) =>
          reply := OnPaymentProcessing(id, bankId, aid, use, n, env);
        case LoyaltyPointsConfirmation(id, points, value) =>
          reply := OnLoyaltyConfirmation(id, points, value, env);
        case PaymentCompletionRequest(id) =>
          reply := OnPaymentCompletion(id, env);
        case RefundRequest(id, amount) =>
          reply := OnRefund(id, amount, env);
        case VoidRequest(id) =>
          reply := OnVoid(id, env);
        case XReportRequest =>
          var report := txnManager.GenerateXReport();
          reply := XReply(report);
        case ZReportRequest =>
          var report, number := txnManager.GenerateZReport();
          reply := ZReply(report, number);
        case DetailedReportRequest(from, to, limit, includeVoids) =>
          var fromTime := if from.Some? then from.value else env.now - DAY;
          var toTime := if to.Some? then to.value else env.now;
          var entries := txnManager.DetailedReport(Query(fromTime, toTime, limit, includeVoids));
          reply := DetailedReply(entries);
        case StatelessRequest(kind) =>
          reply := StatelessReply(kind);
        case Other =>
          return None;
      }
      return Some(reply);
    }
  }
}
