/** The ECR's payment flow over a retrying client, and the split of the amount that both sides guarantee together. */
module PaymentFlows {
  import opened Wrappers
  import opened Domain
  import opened Tables
  import opened Ledgers
  import opened Handlers
  import opened Clients

  /** What the caller asks for. */
  datatype Purchase = Purchase(id: string, amount: uint32, currency: string, bankId: uint32, installments: uint32,
                               useLoyalty: bool, points: uint32)

  datatype ErrorCode = NoError | CardError | PaymentError | LoyaltyError

  datatype PaymentResult = PaymentResult(success: bool, id: string, confirmation: string, auth: string, receipt: string,
                                         cardAmount: uint32, loyaltyAmount: uint32, remainingPoints: uint32,
                                         masked: string, holder: string, error: ErrorCode)

  /** The network during the three exchanges of a payment. */
  datatype Networks = Networks(insertion: Network, processing: Network, confirmation: Network)

  // ---------- Specification ----------

  function ChosenBank(bankId: uint32, banks: seq<BankApp>): uint32 {
    if bankId == 0 && |banks| > 0 then banks[0].bankId else bankId
  }

  /** The first application of a bank. */
  function FindBank(banks: seq<BankApp>, bankId: uint32): Option<BankApp> {
    if banks == [] then None
    else if banks[0].bankId == bankId then Some(banks[0])
    else FindBank(banks[1..], bankId)
  }

  /** The application found is the first one of that bank, and none is found only if there is none. */
  lemma {:induction false} FindBankIsFirst(banks: seq<BankApp>, bankId: uint32)
    ensures match FindBank(banks, bankId)
            case None => forall i :: 0 <= i < |banks| ==> banks[i].bankId != bankId
            case Some(b) => exists i :: 0 <= i < |banks| && banks[i] == b && b.bankId == bankId
                                        && forall j :: 0 <= j < i ==> banks[j].bankId != bankId
    decreases |banks|
  {
    if banks != [] && banks[0].bankId != bankId {
      FindBankIsFirst(banks[1..], bankId);
      if FindBank(banks, bankId).Some? {
        var i :| 0 <= i < |banks[1..]| && banks[1..][i] == FindBank(banks, bankId).value
                 && forall j :: 0 <= j < i ==> banks[1..][j].bankId != bankId;
        assert banks[i + 1] == FindBank(banks, bankId).value;
      }
    }
  }

  function Min(a: uint32, b: uint32): uint32 {
    if a <= b then a else b
  }

  /** A request for 0 points asks for all; never more than the card holds, nor than the amount in cents. */
  function PointsToUse(requested: uint32, available: uint32, amount: uint32): uint32 {
    Min(if requested == 0 then available else Min(requested, available), amount)
  }

  function Started(id: string): PaymentResult {
    PaymentResult(false, id, "", "", "", 0, 0, 0, "", "", NoError)
  }

  function Paid(r: PaymentResult, response: Response): PaymentResult {
    r.(success := true, confirmation := response.confirmation, auth := response.auth, receipt := response.receipt,
       cardAmount := response.cardAmount, loyaltyAmount := response.loyaltyAmount,
       remainingPoints := response.remainingPoints)
  }

  /** The API's view of a result: a completion with code 00, or an error. */
  function CompletionIn(x: SendResult): Option<Response> {
    if x.Got? && x.reply.Some? && x.reply.value.CompletionReply? && x.reply.value.response.code == "00"
    then Some(x.reply.value.response) else None
  }

  predicate IsCard(x: SendResult) {
    x.Got? && x.reply.Some? && x.reply.value.CardReply?
  }

  predicate IsInquiry(x: SendResult) {
    x.Got? && x.reply.Some? && x.reply.value.LoyaltyInquiryReply?
  }

  function InsertionOf(p: Purchase): Request {
    CardInsertionRequest(p.id, p.amount, p.currency)
  }

  function AidOf(banks: seq<BankApp>, bankId: uint32): string {
    if FindBank(banks, bankId).Some? then FindBank(banks, bankId).value.aid else ""
  }

  /** Only a bank on the card can rule loyalty points out. */
  predicate AllowsLoyalty(banks: seq<BankApp>, bankId: uint32) {
    FindBank(banks, bankId).Some? ==> FindBank(banks, bankId).value.supportsLoyalty
  }

  function ProcessingOf(p: Purchase, banks: seq<BankApp>): Request {
    var bankId := ChosenBank(p.bankId, banks);
    PaymentProcessingRequest(p.id, bankId, AidOf(banks, bankId), p.useLoyalty && AllowsLoyalty(banks, bankId),
                             p.installments)
  }

  function ConfirmationOf(p: Purchase, available: uint32): Request {
    var points := PointsToUse(p.points, available, p.amount);
    LoyaltyPointsConfirmation(p.id, points, points)
  }

  datatype Execution = Execution(ledger: Ledger, result: PaymentResult)

  /** ExecutePayment, from both sides. */
  function Execute(cfg: Config, l: Ledger, p: Purchase, nets: Networks, limit: nat): Execution {
    var x1 := Exchange(cfg, l, InsertionOf(p), nets.insertion, limit);
    if !IsCard(x1.result) then Execution(x1.ledger, Started(p.id).(error := CardError))
    else
      var card := x1.result.reply.value;
      var shown := Started(p.id).(masked := card.masked, holder := card.holder);
      var x2 := Exchange(cfg, x1.ledger, ProcessingOf(p, card.banks), nets.processing, limit);
      if IsInquiry(x2.result) then
        var x3 := Exchange(cfg, x2.ledger, ConfirmationOf(p, x2.result.reply.value.points), nets.confirmation, limit);
        if CompletionIn(x3.result).Some? then Execution(x3.ledger, Paid(shown, CompletionIn(x3.result).value))
        else Execution(x3.ledger, shown.(error := LoyaltyError))
      else if CompletionIn(x2.result).Some? then Execution(x2.ledger, Paid(shown, CompletionIn(x2.result).value))
      else Execution(x2.ledger, shown.(error := PaymentError))
  }

  // ---------- The flow as the program performs it ----------

  /** A payment request, whose bank and loyalty fields the flow overwrites. */
  class PaymentRequest {
    const id: string
    const amount: uint32
    const currency: string
    var bankId: uint32
    const installments: uint32
    var useLoyalty: bool
    const points: uint32

    ghost function Value(): Purchase
      reads this
    {
      Purchase(id, amount, currency, bankId, installments, useLoyalty, points)
    }

    constructor (p: Purchase)
      ensures Value() == p
    {
      id, amount, currency, installments, points := p.id, p.amount, p.currency, p.installments, p.points;
      bankId, useLoyalty := p.bankId, p.useLoyalty;
    }

    /** Chooses the first bank if none is given, and turns loyalty off if the chosen bank does not support it. */
    method SelectBank(banks: seq<BankApp>) returns (aid: string)
      modifies this
      ensures PaymentProcessingRequest(id, bankId, aid, useLoyalty, installments) == ProcessingOf(old(Value()), banks)
    {
      if bankId == 0 && |banks| > 0 {
        bankId := banks[0].bankId;
      }
      aid := "";
      assert banks[0..] == banks;
      for i := 0 to |banks|
        invariant useLoyalty == old(useLoyalty) && aid == ""
        invariant FindBank(banks, bankId) == FindBank(banks[i..], bankId)
      {
        assert banks[i..][1..] == banks[i + 1..];
        if banks[i].bankId == bankId {
          aid := banks[i].aid;
          useLoyalty := useLoyalty && banks[i].supportsLoyalty;
          break;
        }
      }
    }
  }

  /** The points arithmetic of step 4. */
  method ChoosePoints(requested: uint32, available: uint32, amount: uint32)
    returns (pointsToUse: uint32, pointsValue: uint32)
    ensures pointsToUse == pointsValue == PointsToUse(requested, available, amount)
  {
    pointsToUse := requested;
    if pointsToUse == 0 {
      pointsToUse := available;
    }
    if pointsToUse > available {
      pointsToUse := available;
    }
    pointsValue := pointsToUse;
    if pointsValue > amount {
      pointsValue := amount;
      pointsToUse := pointsValue;
    }
  }

  class PaymentFlow {
    const client: Client

    constructor (client: Client)
      ensures this.client == client
    {
      this.client := client;
    }

    method ExecutePayment(req: PaymentRequest, nets: Networks) returns (result: PaymentResult)
      requires client.connected ==> client.maxRetries >= 0
      modifies req, client`sequence, client`written, client.pos.txnManager
      ensures Execution(client.pos.Value(), result)
           == if client.connected then
                Execute(client.pos.txnManager.config, old(client.pos.Value()), old(req.Value()), nets,
                        AttemptLimit(client.maxRetries))
              else Execution(old(client.pos.Value()), Started(req.id).(error := CardError))
    {
      hide Exchange, WellFormed, Copies, AttemptsMade, Client.NextFrame, ProcessingOf, PointsToUse;
      result := Started(req.id);
      var inserted := client.SendMessage(CardInsertionRequest(req.id, req.amount, req.currency), nets.insertion);
      if !IsCard(inserted) {
        return result.(error := CardError);
      }
      var card := inserted.reply.value;
      result := result.(masked := card.masked, holder := card.holder);
      var aid := req.SelectBank(card.banks);
      var processing := PaymentProcessingRequest(req.id, req.bankId, aid, req.useLoyalty, req.installments);
      var processed := client.SendMessage(processing, nets.processing);
      var response := CompletionIn(processed);
      if response.None? && !IsInquiry(processed) {
        return result.(error := PaymentError);
      }
      if IsInquiry(processed) {
        var pointsToUse, pointsValue := ChoosePoints(req.points, processed.reply.value.points, req.amount);
        var confirmed :=
            client.SendMessage(LoyaltyPointsConfirmation(req.id, pointsToUse, pointsValue), nets.confirmation);
        response := CompletionIn(confirmed);
        if response.None? {
          return result.(error := LoyaltyError);
        }
      }
      return Paid(result, response.value);
    }
  }
}
