/**
 * What a payment leaves at both ends: the exact split, success exactly when the row is completed, and nothing else
 * touched.
 */
module PaymentLaws {
  import opened Wrappers
  import opened Domain
  import opened Tables
  import opened Ledgers
  import opened Handlers
  import opened Runs
  import opened Retries
  import opened Clients
  import opened PaymentFlows

  // ---------- Other transactions ----------

  /** Requests of a payment with this id. */
  predicate Concerns(req: Request, id: string) {
    PaysFor(req, id) || (req.CardInsertionRequest? && req.id == id)
  }

  /** Every transaction but this one is where and what it was. */
  ghost predicate Spares(l: Ledger, l': Ledger, id: string) {
    && (forall other :: other != id ==> (other in l.active <==> other in l'.active))
    && (forall other :: other != id && other in l.active && other in l'.active ==> l'.active[other] == l.active[other])
    && (forall other :: other != id ==> (other in l.table.rows <==> other in l'.table.rows))
    && (forall other :: other != id && other in l.table.rows && other in l'.table.rows ==>
        l'.table.rows[other] == l.table.rows[other])
  }

  lemma SparesTransitively(l: Ledger, l': Ledger, l'': Ledger, id: string)
    requires Spares(l, l', id) && Spares(l', l'', id)
    ensures Spares(l, l'', id)
  {
  }

  lemma PaymentSpares(l: Ledger, id: string, env: Env)
    requires id in l.active
    ensures Spares(l, ProcessPayment(l, id, env).ledger, id)
  {
    hide RowOf, ResponseFor;
  }

  lemma ActiveChangeSpares(l: Ledger, l': Ledger, id: string)
    requires l'.table == l.table && l'.active - {id} == l.active - {id}
    ensures Spares(l, l', id)
  {
    assert forall other :: other != id ==> (other in l.active <==> other in l.active - {id});
    assert forall other :: other != id ==> (other in l'.active <==> other in l'.active - {id});
    assert forall other :: other in l.active - {id} ==> (l.active - {id})[other] == l.active[other];
    assert forall other :: other in l'.active - {id} ==> (l'.active - {id})[other] == l'.active[other];
  }

  lemma HandleSpares(cfg: Config, l: Ledger, req: Request, env: Env, id: string)
    requires Concerns(req, id)
    ensures Spares(l, Handle(cfg, l, req, env).ledger, id)
  {
    hide ProcessPayment, Spares, CheckNew;
    ActiveChangeSpares(l, l, id);
    match req
    case PaymentProcessingRequest(_, bankId, aid, _, n) =>
      var chosen := SetBank(l, id, bankId, aid, n, env.now);
      ActiveChangeSpares(l, chosen, id);
      ActiveChangeSpares(l, SetState(chosen, id, LoyaltyInquiry, env.now), id);
      if id in l.active {
        PaymentSpares(chosen, id, env);
        SparesTransitively(l, chosen, ProcessPayment(chosen, id, env).ledger, id);
      }
    case LoyaltyPointsConfirmation(_, points, value) =>
      var prepared := SetLoyalty(l, id, true, points, value, env.now);
      ActiveChangeSpares(l, prepared, id);
      if id in l.active {
        PaymentSpares(prepared, id, env);
        SparesTransitively(l, prepared, ProcessPayment(prepared, id, env).ledger, id);
      }
    case PaymentCompletionRequest(_) => if id in l.active { PaymentSpares(l, id, env); }
    case CardInsertionRequest(_, _, _) => ActiveChangeSpares(l, Handle(cfg, l, req, env).ledger, id);
  }

  lemma {:induction false} DeliveriesSpare(cfg: Config, l: Ledger, req: Request, envs: seq<Env>, id: string)
    requires Concerns(req, id)
    ensures Spares(l, Deliver(cfg, l, req, envs), id)
    decreases |envs|
  {
    hide Handle;
    if envs != [] {
      var front := envs[..|envs| - 1];
      hide Spares;
      DeliveriesSpare(cfg, l, req, front, id);
      HandleSpares(cfg, Deliver(cfg, l, req, front), req, envs[|envs| - 1], id);
      SparesTransitively(l, Deliver(cfg, l, req, front), Deliver(cfg, l, req, envs), id);
    }
  }

  /** A payment touches no transaction but its own, whatever the network does. */
  lemma PaymentSparesOthers(cfg: Config, l: Ledger, p: Purchase, nets: Networks, limit: nat)
    ensures Spares(l, Execute(cfg, l, p, nets, limit).ledger, p.id)
  {
    hide Spares, Deliver, LastReply, Deliveries, FindBank;
    DeliveriesSpare(cfg, l, InsertionOf(p), Deliveries(nets.insertion, limit), p.id);
    var x1 := Exchange(cfg, l, InsertionOf(p), nets.insertion, limit);
    if IsCard(x1.result) {
      var banks := x1.result.reply.value.banks;
      DeliveriesSpare(cfg, x1.ledger, ProcessingOf(p, banks), Deliveries(nets.processing, limit), p.id);
      var x2 := Exchange(cfg, x1.ledger, ProcessingOf(p, banks), nets.processing, limit);
      SparesTransitively(l, x1.ledger, x2.ledger, p.id);
      if IsInquiry(x2.result) {
        var req := ConfirmationOf(p, x2.result.reply.value.points);
        DeliveriesSpare(cfg, x2.ledger, req, Deliveries(nets.confirmation, limit), p.id);
        SparesTransitively(l, x2.ledger, Exchange(cfg, x2.ledger, req, nets.confirmation, limit).ledger, p.id);
      }
    }
  }

  // ---------- Card insertion ----------

  lemma {:induction false} InsertionsKeepTable(cfg: Config, l: Ledger, req: Request, envs: seq<Env>)
    requires req.CardInsertionRequest?
    ensures Deliver(cfg, l, req, envs).table == l.table
    decreases |envs|
  {
    hide Handle;
    if envs != [] {
      InsertionsKeepTable(cfg, l, req, envs[..|envs| - 1]);
      InsertionKeepsTable(cfg, Deliver(cfg, l, req, envs[..|envs| - 1]), req, envs[|envs| - 1]);
    }
  }

  /** Only the first delivery of a card insertion can be answered with a card. */
  lemma CardComesFirst(cfg: Config, l: Ledger, p: Purchase, envs: seq<Env>)
    requires envs != [] && LastReply(cfg, l, InsertionOf(p), envs).value.CardReply?
    requires LastReply(cfg, l, InsertionOf(p), envs).Some?
    ensures |envs| == 1
  {
    hide HandleCardInsertion;
    if |envs| > 1 {
      var front := envs[..|envs| - 1];
      InsertionAgain(cfg, Deliver(cfg, l, InsertionOf(p), front[..|front| - 1]), p.id, p.amount, p.currency,
                     front[|front| - 1], envs[|envs| - 1]);
    }
  }

  /** An active transaction of the purchase that has used no points yet. */
  predicate Unpaid(l: Ledger, p: Purchase) {
    && p.id in l.active
    && var t := l.active[p.id];
       && t.amount == p.amount && t.currency == p.currency
       && !t.useLoyalty && t.loyaltyAmount == 0 && t.loyaltyPoints == 0 && t.card.Some?
  }

  lemma AfterInsertion(cfg: Config, l: Ledger, p: Purchase, net: Network, limit: nat)
    requires Coherent(l) && p.id !in l.table.rows
    ensures var x := Exchange(cfg, l, InsertionOf(p), net, limit);
            && Coherent(x.ledger) && x.ledger.table == l.table
            && (IsCard(x.result) ==> Unpaid(x.ledger, p))
  {
    hide Coherent;
    var req, envs := InsertionOf(p), Deliveries(net, limit);
    DeliveriesKeepCoherence(cfg, l, req, envs);
    InsertionsKeepTable(cfg, l, req, envs);
    if IsCard(Exchange(cfg, l, req, net, limit).result) {
      CardComesFirst(cfg, l, p, envs);
      assert envs[..0] == [];
    }
  }

  // ---------- Payment ----------

  /** A request that pays at once: no points to ask for first, or points just confirmed. */
  predicate PaysNow(l: Ledger, req: Request, id: string) {
    && id in l.active
    && AsksForPayment(req, id)
    && (req.PaymentProcessingRequest? ==> !(req.useLoyalty && HasLoyaltyCard(l.active[id])))
  }

  /** The ledger that processPayment starts from. */
  function Prepared(l: Ledger, req: Request, id: string, now: Time): Ledger
    requires AsksForPayment(req, id)
  {
    match req
    case PaymentProcessingRequest(_, bankId, aid, _, n) => SetBank(l, id, bankId, aid, n, now)
    case LoyaltyPointsConfirmation(_, points, value) => SetLoyalty(l, id, true, points, value, now)
  }

  lemma FirstPayment(cfg: Config, l: Ledger, req: Request, id: string, e: Env)
    requires Coherent(l) && PaysNow(l, req, id)
    ensures Handle(cfg, l, req, e) == ProcessPayment(Prepared(l, req, id, e.now), id, e)
    ensures Coherent(Prepared(l, req, id, e.now)) && id in Prepared(l, req, id, e.now).active
    ensures Prepared(l, req, id, e.now).table == l.table
  {
    hide ProcessPayment, Coherent;
    ActiveHasNoRow(l, id);
    match req
    case PaymentProcessingRequest(_, bankId, aid, _, n) => BankKeepsCoherence(l, id, bankId, aid, n, e.now);
    case LoyaltyPointsConfirmation(_, points, value) => LoyaltyKeepsCoherence(l, id, points, value, e.now);
  }

  lemma PaymentReply(l: Ledger, id: string, e: Env)
    requires Coherent(l) && id in l.active
    ensures var o := ProcessPayment(l, id, e);
            && id !in l.table.rows && id in o.ledger.table.rows
            && o.ledger.table.rows[id] == (if e.approved then PaidRow(l, id, e) else DeclinedRow(l, id, e))
            && o.reply == Some(if e.approved then CompletionReply(PaidRow(l, id, e).cached.value) else DECLINED)
  {
    hide ProcessPayment, PaidRow, DeclinedRow, Stored, Waiting, WellFormed;
    PaymentSettles(l, id, e);
  }

  /** Repeating a payment leaves the ledger of its first delivery, and its reply if that was approved. */
  lemma {:induction false} PaidOnce(cfg: Config, l: Ledger, req: Request, id: string, envs: seq<Env>)
    requires Coherent(l) && PaysNow(l, req, id) && envs != []
    ensures var o := Handle(cfg, l, req, envs[0]);
            && Deliver(cfg, l, req, envs) == o.ledger
            && (envs[0].approved ==> LastReply(cfg, l, req, envs) == o.reply)
            && (!envs[0].approved ==> LastReply(cfg, l, req, envs) in {Some(DECLINED), Some(NOT_FOUND)})
    decreases |envs|
  {
    hide Handle, ProcessPayment, Coherent, PaidRow, DeclinedRow, Prepared;
    var front := envs[..|envs| - 1];
    FirstPayment(cfg, l, req, id, envs[0]);
    PaymentReply(Prepared(l, req, id, envs[0].now), id, envs[0]);
    if |envs| == 1 {
      assert front == [];
    } else {
      PaidOnce(cfg, l, req, id, front);
      BothReplies(cfg, l, req, id, envs[0], envs[|envs| - 1]);
    }
  }

  /** A row and a response that settle a transaction. */
  predicate SettledAs(t: Transaction, r: Row, response: Response) {
    && r.state == PaymentCompleted && r.cached == Some(response) && Agrees(response, r.fixed)
    && r.fixed.amount == t.amount && r.fixed.currency == t.currency
    && r.fixed.bankId == t.bankId && r.fixed.aid == t.aid && r.fixed.installments == t.installments
    && r.fixed.useLoyalty == t.useLoyalty
    && r.fixed.loyaltyAmount == t.loyaltyAmount && r.fixed.loyaltyPoints == t.loyaltyPoints
    && (t.card.Some? ==> r.fixed.hasLoyalty == t.card.value.hasLoyalty && r.fixed.points == t.card.value.points)
  }

  lemma PaidRowSettles(l: Ledger, id: string, e: Env)
    requires id in l.active && l.active[id].id == id
    ensures PaidRow(l, id, e).cached.Some? && SettledAs(l.active[id], PaidRow(l, id, e), PaidRow(l, id, e).cached.value)
    ensures DeclinedRow(l, id, e).state == Failed
  {
    hide Agrees;
    NewRowIsStored(l, id, e);
  }

  lemma IdsMatch(l: Ledger, id: string)
    requires Coherent(l) && id in l.active
    ensures l.active[id].id == id && id !in l.table.rows
  {
  }

  /**
   * One exchange that pays: an answer of success means the row, and, if any answer comes, is no more than the row
   * means.
   */
  lemma PayingExchange(cfg: Config, l: Ledger, req: Request, id: string, net: Network, limit: nat, now: Time)
    requires Coherent(l) && PaysNow(l, req, id)
    ensures var x := Exchange(cfg, l, req, net, limit);
            var rows := x.ledger.table.rows;
            && !IsInquiry(x.result)
            && (CompletionIn(x.result).Some? ==>
                  id in rows && SettledAs(Prepared(l, req, id, now).active[id], rows[id], CompletionIn(x.result).value))
            && (x.result.Got? ==> (CompletionIn(x.result).Some? <==> id in rows && rows[id].state == PaymentCompleted))
  {
    hide Handle, ProcessPayment, Coherent, PaidRow, DeclinedRow, Deliver, LastReply, Deliveries;
    var envs := Deliveries(net, limit);
    if AnsweredAt(net, limit) < limit {
      AnswerIsADelivery(net, limit);
      PaidOnce(cfg, l, req, id, envs);
      FirstPayment(cfg, l, req, id, envs[0]);
      var prepared := Prepared(l, req, id, envs[0].now);
      PaymentReply(prepared, id, envs[0]);
      IdsMatch(prepared, id);
      PaidRowSettles(prepared, id, envs[0]);
    }
  }

  // ---------- Loyalty inquiry ----------

  /** The transaction has the bank and installments of the request. */
  predicate ChoosesBank(t: Transaction, req: Request)
    requires req.PaymentProcessingRequest?
  {
    t.bankId == req.bankId && t.aid == req.aid && t.installments == req.installments
  }

  lemma OneInquiry(cfg: Config, l: Ledger, p: Purchase, req: Request, e: Env)
    requires Coherent(l) && Unpaid(l, p)
    requires req.PaymentProcessingRequest? && req.id == p.id && req.useLoyalty && HasLoyaltyCard(l.active[p.id])
    ensures var o := Handle(cfg, l, req, e);
            && o.ledger.table == l.table && Unpaid(o.ledger, p) && o.ledger.active[p.id].card == l.active[p.id].card
            && ChoosesBank(o.ledger.active[p.id], req)
            && o.reply == Some(LoyaltyInquiryReply(l.active[p.id].card.value.points,
                                                   l.active[p.id].card.value.pointsValue))
  {
    hide ProcessPayment, Coherent;
    ActiveHasNoRow(l, p.id);
  }

  /** However often points are asked for, the transaction stays unpaid and the answer is the card's. */
  lemma {:induction false} Inquiries(cfg: Config, l: Ledger, p: Purchase, req: Request, envs: seq<Env>)
    requires Coherent(l) && Unpaid(l, p)
    requires req.PaymentProcessingRequest? && req.id == p.id && req.useLoyalty && HasLoyaltyCard(l.active[p.id])
    ensures var l' := Deliver(cfg, l, req, envs);
            Coherent(l') && l'.table == l.table && Unpaid(l', p) && l'.active[p.id].card == l.active[p.id].card
    ensures envs != [] ==>
              (LastReply(cfg, l, req, envs)
               == Some(LoyaltyInquiryReply(l.active[p.id].card.value.points, l.active[p.id].card.value.pointsValue)))
              && ChoosesBank(Deliver(cfg, l, req, envs).active[p.id], req)
    decreases |envs|
  {
    hide Handle, Coherent;
    if envs != [] {
      var front := envs[..|envs| - 1];
      Inquiries(cfg, l, p, req, front);
      OneInquiry(cfg, Deliver(cfg, l, req, front), p, req, envs[|envs| - 1]);
      DeliveriesKeepCoherence(cfg, l, req, envs);
    }
  }

  lemma InquiringExchange(cfg: Config, l: Ledger, p: Purchase, req: Request, net: Network, limit: nat)
    requires Coherent(l) && Unpaid(l, p)
    requires req.PaymentProcessingRequest? && req.id == p.id && req.useLoyalty && HasLoyaltyCard(l.active[p.id])
    ensures var x := Exchange(cfg, l, req, net, limit);
            && Coherent(x.ledger) && x.ledger.table == l.table && Unpaid(x.ledger, p)
            && x.ledger.active[p.id].card == l.active[p.id].card
            && CompletionIn(x.result) == None && (x.result.Got? ==> IsInquiry(x.result))
            && (IsInquiry(x.result) ==>
                  x.result.reply.value.points == l.active[p.id].card.value.points
                      && ChoosesBank(x.ledger.active[p.id], req))
  {
    hide Handle, Coherent, Deliver, LastReply, Deliveries;
    Inquiries(cfg, l, p, req, Deliveries(net, limit));
    if AnsweredAt(net, limit) < limit {
      AnswerIsADelivery(net, limit);
    }
  }

  // ---------- The whole payment ----------

  /**
   * The result is that of the row, card and loyalty parts make the amount, and points suffice, all without wrap-around.
   */
  predicate ExactSplit(p: Purchase, banks: seq<BankApp>, r: Row, result: PaymentResult) {
    var bankId := ChosenBank(p.bankId, banks);
    && r.state == PaymentCompleted && r.fixed.amount == p.amount && r.fixed.currency == p.currency
    && result.confirmation == r.fixed.confirmation && result.auth == r.fixed.auth && result.receipt == r.fixed.receipt
    && result.cardAmount == r.fixed.cardAmount && result.loyaltyAmount == r.fixed.loyaltyAmount == r.fixed.loyaltyPoints
    && result.cardAmount + result.loyaltyAmount == p.amount
    && result.loyaltyAmount <= p.amount && result.loyaltyAmount <= r.fixed.points
    && (r.fixed.hasLoyalty ==> result.remainingPoints == r.fixed.points - r.fixed.loyaltyPoints)
    && (!r.fixed.hasLoyalty ==> result.remainingPoints == 0)
    && (r.fixed.useLoyalty <==> p.useLoyalty && AllowsLoyalty(banks, bankId) && r.fixed.hasLoyalty)
    && result.loyaltyAmount == (if r.fixed.useLoyalty then PointsToUse(p.points, r.fixed.points, p.amount) else 0)
    && r.fixed.bankId == bankId && r.fixed.aid == AidOf(banks, bankId) && r.fixed.installments == p.installments
  }

  lemma PointsAreWithinBounds(requested: uint32, available: uint32, amount: uint32)
    ensures var n := PointsToUse(requested, available, amount);
            && n <= available && n <= amount && (requested != 0 ==> n <= requested)
            && (n == available || n == amount || n == requested != 0)
  {
  }

  lemma SplitIsExact(p: Purchase, banks: seq<BankApp>, t: Transaction, r: Row, shown: PaymentResult, response: Response)
    requires SettledAs(t, r, response) && t.amount == p.amount && t.currency == p.currency && t.card.Some?
    requires ChoosesBank(t, ProcessingOf(p, banks))
    requires t.useLoyalty <==> ProcessingOf(p, banks).useLoyalty && t.card.value.hasLoyalty
    requires t.loyaltyAmount == t.loyaltyPoints
          == (if t.useLoyalty then PointsToUse(p.points, t.card.value.points, p.amount) else 0)
    ensures ExactSplit(p, banks, r, Paid(shown, response))
  {
    hide PointsToUse, AidOf, AllowsLoyalty, ChosenBank;
    PointsAreWithinBounds(p.points, t.card.value.points, p.amount);
  }

  /** What a stage of the payment proves about its end. */
  ghost predicate EndsWell(x: Execution, p: Purchase, banks: seq<BankApp>, answered: bool) {
    var rows := x.ledger.table.rows;
    && (x.result.success ==> p.id in rows && ExactSplit(p, banks, rows[p.id], x.result))
    && (x.result.success <==> answered && p.id in rows && rows[p.id].state == PaymentCompleted)
  }

  /** The end of a payment that pays in one exchange, with the points already set. */
  lemma PayingEndsWell(cfg: Config, l: Ledger, p: Purchase, banks: seq<BankApp>, req: Request, net: Network, limit: nat,
                       shown: PaymentResult, error: ErrorCode)
    requires Coherent(l) && PaysNow(l, req, p.id) && Unpaid(l, p) && !shown.success
    requires req.LoyaltyPointsConfirmation? ==>
               && ProcessingOf(p, banks).useLoyalty && HasLoyaltyCard(l.active[p.id])
               && ChoosesBank(l.active[p.id], ProcessingOf(p, banks))
               && req == ConfirmationOf(p, l.active[p.id].card.value.points)
    requires req.PaymentProcessingRequest? ==> req == ProcessingOf(p, banks)
    ensures var x := Exchange(cfg, l, req, net, limit);
            var response := CompletionIn(x.result);
            EndsWell(Execution(x.ledger,
                               if response.Some? then Paid(shown, response.value) else shown.(error := error)),
                     p, banks, x.result.Got?)
  {
    hide Handle, Coherent, Exchange, Deliver, Agrees, ExactSplit, SettledAs, PointsToUse, AidOf, AllowsLoyalty,
         ChosenBank;
    PayingExchange(cfg, l, req, p.id, net, limit, 0);
    var x := Exchange(cfg, l, req, net, limit);
    if CompletionIn(x.result).Some? {
      SplitIsExact(p, banks, Prepared(l, req, p.id, 0).active[p.id], x.ledger.table.rows[p.id], shown,
                   CompletionIn(x.result).value);
    }
  }

  /** The ECR got a reply to the last exchange it made for the payment. */
  predicate HearsTheEnd(cfg: Config, l: Ledger, p: Purchase, nets: Networks, limit: nat) {
    var x1 := Exchange(cfg, l, InsertionOf(p), nets.insertion, limit);
    if IsCard(x1.result) then HearsTheRest(cfg, x1.ledger, p, x1.result.reply.value.banks, nets, limit)
    else x1.result.Got?
  }

  predicate HearsTheRest(cfg: Config, l: Ledger, p: Purchase, banks: seq<BankApp>, nets: Networks, limit: nat) {
    var x2 := Exchange(cfg, l, ProcessingOf(p, banks), nets.processing, limit);
    if IsInquiry(x2.result) then
      Exchange(cfg, x2.ledger, ConfirmationOf(p, x2.result.reply.value.points), nets.confirmation, limit).result.Got?
    else x2.result.Got?
  }

  lemma NoRowEndsWell(x: Execution, p: Purchase, banks: seq<BankApp>, answered: bool)
    requires !x.result.success && p.id !in x.ledger.table.rows
    ensures EndsWell(x, p, banks, answered)
  {
  }

  /** From a card that has been read. */
  lemma RestEndsWell(cfg: Config, l: Ledger, p: Purchase, banks: seq<BankApp>, shown: PaymentResult, nets: Networks,
                     limit: nat)
    requires Coherent(l) && Unpaid(l, p) && !shown.success
    ensures var x2 := Exchange(cfg, l, ProcessingOf(p, banks), nets.processing, limit);
            var end :=
              if IsInquiry(x2.result) then
                var confirmation := ConfirmationOf(p, x2.result.reply.value.points);
                var x3 := Exchange(cfg, x2.ledger, confirmation, nets.confirmation, limit);
                if CompletionIn(x3.result).Some? then Execution(x3.ledger, Paid(shown, CompletionIn(x3.result).value))
                else Execution(x3.ledger, shown.(error := LoyaltyError))
              else if CompletionIn(x2.result).Some? then
                Execution(x2.ledger, Paid(shown, CompletionIn(x2.result).value))
              else Execution(x2.ledger, shown.(error := PaymentError));
            EndsWell(end, p, banks, HearsTheRest(cfg, l, p, banks, nets, limit))
  {
    hide Handle, Coherent, Exchange, ExactSplit, AidOf, AllowsLoyalty, ChosenBank;
    var req := ProcessingOf(p, banks);
    IdsMatch(l, p.id);
    if req.useLoyalty && HasLoyaltyCard(l.active[p.id]) {
      InquiringExchange(cfg, l, p, req, nets.processing, limit);
      var x2 := Exchange(cfg, l, req, nets.processing, limit);
      if IsInquiry(x2.result) {
        PayingEndsWell(cfg, x2.ledger, p, banks, ConfirmationOf(p, x2.result.reply.value.points), nets.confirmation,
                       limit, shown, LoyaltyError);
      } else {
        NoRowEndsWell(Execution(x2.ledger, shown.(error := PaymentError)), p, banks, false);
      }
    } else {
      PayingExchange(cfg, l, req, p.id, nets.processing, limit, 0);
      PayingEndsWell(cfg, l, p, banks, req, nets.processing, limit, shown, PaymentError);
    }
  }

  /**
   * End to end, for a fresh id, whatever is asked for, whatever card is read, and however often each request is
   * delivered: success means a card was read and its row is completed with an exact split; and a completed row means
   * success, unless every reply to the last exchange was lost.
   */
  lemma PaymentEndToEnd(cfg: Config, l: Ledger, p: Purchase, nets: Networks, limit: nat)
    requires Coherent(l) && p.id !in l.table.rows
    ensures var x := Execute(cfg, l, p, nets, limit);
            var rows, card := x.ledger.table.rows, Exchange(cfg, l, InsertionOf(p), nets.insertion, limit).result;
            && (x.result.success ==>
                  IsCard(card) && p.id in rows && ExactSplit(p, card.reply.value.banks, rows[p.id], x.result))
            && (x.result.success <==>
                  p.id in rows && rows[p.id].state == PaymentCompleted && HearsTheEnd(cfg, l, p, nets, limit))
  {
    hide Handle, Coherent, Exchange, ExactSplit, FindBank, Unpaid, ProcessingOf, ConfirmationOf, IsInquiry,
         CompletionIn, HearsTheRest;
    AfterInsertion(cfg, l, p, nets.insertion, limit);
    var x1 := Exchange(cfg, l, InsertionOf(p), nets.insertion, limit);
    if IsCard(x1.result) {
      var card := x1.result.reply.value;
      var shown := Started(p.id).(masked := card.masked, holder := card.holder);
      RestEndsWell(cfg, x1.ledger, p, card.banks, shown, nets, limit);
    }
  }

  // ---------- By the fields of request, card and row ----------

  /** The i-th application is the first of that bank. */
  predicate FirstOf(banks: seq<BankApp>, bankId: uint32, i: nat) {
    i < |banks| && banks[i].bankId == bankId && forall j :: 0 <= j < i ==> banks[j].bankId != bankId
  }

  predicate HasBank(banks: seq<BankApp>, bankId: uint32) {
    exists i :: 0 <= i < |banks| && banks[i].bankId == bankId
  }

  /**
   * The bank is the one asked for, or else the first on the card; the AID is that of the first application of the bank;
   * and points are used exactly if they are asked for, that application allows them, and the card has them.
   */
  ghost predicate BankAsAsked(p: Purchase, banks: seq<BankApp>, f: Fixed) {
    && (p.bankId != 0 ==> f.bankId == p.bankId)
    && (p.bankId == 0 && banks != [] ==> f.bankId == banks[0].bankId)
    && (p.bankId == 0 && banks == [] ==> f.bankId == 0)
    && (forall i: nat :: FirstOf(banks, f.bankId, i) ==>
          && f.aid == banks[i].aid
          && (f.useLoyalty <==> p.useLoyalty && banks[i].supportsLoyalty && f.hasLoyalty))
    && (!HasBank(banks, f.bankId) ==> f.aid == "" && (f.useLoyalty <==> p.useLoyalty && f.hasLoyalty))
    && f.installments == p.installments
  }

  /**
   * Card and loyalty part make the amount; the points are the fewest of those asked for (all, if 0), had, and needed.
   */
  predicate SplitAsAsked(p: Purchase, f: Fixed) {
    && f.amount == p.amount && f.currency == p.currency && f.cardAmount + f.loyaltyAmount == p.amount
    && f.loyaltyAmount == f.loyaltyPoints
    && (!f.useLoyalty ==> f.loyaltyPoints == 0)
    && (f.useLoyalty ==>
          && f.loyaltyPoints <= f.points && f.loyaltyPoints <= p.amount
          && (p.points != 0 ==> f.loyaltyPoints <= p.points)
          && (f.loyaltyPoints == f.points || f.loyaltyPoints == p.amount || f.loyaltyPoints == p.points != 0))
  }

  /** The result tells of the row and of the card. */
  predicate ResultTells(result: PaymentResult, p: Purchase, card: Reply, f: Fixed)
    requires card.CardReply?
  {
    && result.id == p.id && result.error == NoError
    && result.masked == card.masked && result.holder == card.holder
    && result.confirmation == f.confirmation && result.auth == f.auth && result.receipt == f.receipt
    && result.cardAmount == f.cardAmount && result.loyaltyAmount == f.loyaltyAmount
    && result.remainingPoints == if f.hasLoyalty then f.points - f.loyaltyPoints else 0
  }

  lemma {:induction false} FirstOfIsFound(banks: seq<BankApp>, bankId: uint32, i: nat)
    requires FirstOf(banks, bankId, i)
    ensures FindBank(banks, bankId) == Some(banks[i])
    decreases |banks|
  {
    if i > 0 {
      FirstOfIsFound(banks[1..], bankId, i - 1);
    }
  }

  lemma BankIsAsAsked(p: Purchase, banks: seq<BankApp>, r: Row, result: PaymentResult)
    requires ExactSplit(p, banks, r, result)
    ensures BankAsAsked(p, banks, r.fixed)
  {
    hide FindBank, PointsToUse;
    var f := r.fixed;
    forall i: nat | FirstOf(banks, f.bankId, i)
      ensures f.aid == banks[i].aid && (f.useLoyalty <==> p.useLoyalty && banks[i].supportsLoyalty && f.hasLoyalty)
    {
      FirstOfIsFound(banks, f.bankId, i);
    }
    FindBankIsFirst(banks, f.bankId);
    if !HasBank(banks, f.bankId) {
      assert FindBank(banks, f.bankId) == None;
    }
  }

  lemma SplitIsAsAsked(p: Purchase, banks: seq<BankApp>, r: Row, result: PaymentResult)
    requires ExactSplit(p, banks, r, result)
    ensures SplitAsAsked(p, r.fixed)
  {
    hide FindBank;
    PointsAreWithinBounds(p.points, r.fixed.points, p.amount);
  }

  /** What a success carries besides the split, and which stage an error names. */
  lemma ResultOfStages(cfg: Config, l: Ledger, p: Purchase, nets: Networks, limit: nat)
    ensures var x := Execute(cfg, l, p, nets, limit).result;
            var x1 := Exchange(cfg, l, InsertionOf(p), nets.insertion, limit);
            && x.id == p.id
            && (x.success <==> x.error == NoError)
            && (x.error == CardError <==> !IsCard(x1.result))
            && (IsCard(x1.result) ==>
                x.masked == x1.result.reply.value.masked && x.holder == x1.result.reply.value.holder)
            && (IsCard(x1.result) && !x.success ==>
                  var x2 := Exchange(cfg, x1.ledger, ProcessingOf(p, x1.result.reply.value.banks), nets.processing,
                                     limit);
                  x.error == LoyaltyError <==> IsInquiry(x2.result))
  {
    hide Exchange, ProcessingOf, ConfirmationOf;
  }

  /**
   * End to end, by the fields: a success means that a card was read and a completed row of the amount and currency was
   * stored, with the bank, AID and installments asked for, an exact split, and the result telling of both.
   */
  lemma SuccessByFields(cfg: Config, l: Ledger, p: Purchase, nets: Networks, limit: nat)
    requires Coherent(l) && p.id !in l.table.rows && Execute(cfg, l, p, nets, limit).result.success
    ensures var x, card :=
             Execute(cfg, l, p, nets, limit), Exchange(cfg, l, InsertionOf(p), nets.insertion, limit).result;
            && IsCard(card) && p.id in x.ledger.table.rows
            && var r := x.ledger.table.rows[p.id];
               && r.state == PaymentCompleted && SplitAsAsked(p, r.fixed)
               && BankAsAsked(p, card.reply.value.banks, r.fixed)
               && ResultTells(x.result, p, card.reply.value, r.fixed)
  {
    hide Coherent, Exchange, Execute, FindBank, BankAsAsked, SplitAsAsked, HearsTheEnd;
    PaymentEndToEnd(cfg, l, p, nets, limit);
    ResultOfStages(cfg, l, p, nets, limit);
    var x, card := Execute(cfg, l, p, nets, limit), Exchange(cfg, l, InsertionOf(p), nets.insertion, limit).result;
    BankIsAsAsked(p, card.reply.value.banks, x.ledger.table.rows[p.id], x.result);
    SplitIsAsAsked(p, card.reply.value.banks, x.ledger.table.rows[p.id], x.result);
  }
}
