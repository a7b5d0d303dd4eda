/** The values that the terminal handles: cards, transactions, table rows, responses. */
module Domain {
  import opened Wrappers

  const TWO32 := 0x1_0000_0000
  const TWO64 := 0x1_0000_0000_0000_0000

  type uint32 = n: int | 0 <= n < 0x1_0000_0000
  type uint64 = n: int | 0 <= n < 0x1_0000_0000_0000_0000

  /** Conversion to uint32, and so also uint32 arithmetic: it wraps around. */
  function Wrap32(n: int): uint32 { n % TWO32 }

  /** A point in time in nanoseconds; the table keeps whole seconds. */
  type Time = int

  const SECOND := 1_000_000_000

  function InSeconds(t: Time): int { t / SECOND }

  datatype State =
    | CardInsertion
    | BankSelection
    | LoyaltyInquiry
    | LoyaltyConfirmation
    | PaymentProcessing
    | PaymentCompleted
    | Failed
    | Voided
    | Refunded

  datatype BankApp = BankApp(bankId: uint32, bankName: string, appLabel: string, aid: string, priority: uint32,
                             supportsLoyalty: bool)

  datatype Card = Card(number: string, masked: string, holder: string, expiry: string, cvv: string,
                       banks: seq<BankApp>, hasLoyalty: bool, points: uint32, pointsValue: uint32)

  /** PaymentCompletionResponse. */
  datatype Response = Response(code: string, confirmation: string, receipt: string, cardAmount: uint32,
                               loyaltyAmount: uint32, remainingPoints: uint32, message: string, auth: string,
                               currency: string, installments: uint32)

  datatype Transaction = Transaction(
    id: string, state: State, amount: uint32, currency: string, card: Option<Card>,
    bankId: uint32, aid: string, installments: uint32,
    useLoyalty: bool, loyaltyAmount: uint32, loyaltyPoints: uint32, cardAmount: uint32,
    confirmation: string, receipt: string, auth: string, error: string,
    createdAt: Time, completedAt: Option<Time>, lastUpdated: Time, cached: Option<Response>)

  /** The columns of the transactions table that no UPDATE ever touches. */
  datatype Fixed = Fixed(
    id: string, amount: uint32, currency: string,
    holder: string, lastFour: string, hasLoyalty: bool, points: uint32,
    bankId: uint32, aid: string, installments: uint32,
    useLoyalty: bool, loyaltyPoints: uint32, loyaltyAmount: uint32, cardAmount: uint32,
    confirmation: string, receipt: string, auth: string, error: string,
    createdAt: int, completedAt: Option<int>)

  /** A row of the transactions table: those columns and the four that UPDATEs set. */
  datatype Row = Row(fixed: Fixed, state: State, lastUpdated: int, cached: Option<Response>, zReportId: nat)

  datatype Config = Config(maxTransactionAmount: int, supportedCurrencies: seq<string>)

  /** The largest amount that CreateTransaction lets through. */
  function AmountCap(cfg: Config): uint32 { Wrap32(cfg.maxTransactionAmount) }

  // ---------- Between transactions and rows ----------

  function LastFour(number: string): string {
    if |number| >= 4 then number[|number| - 4..] else ""
  }

  /** The row that insertCompleted writes: batch stamp and stored response take the column defaults. */
  function RowOf(t: Transaction): Row {
    var card := if t.card.Some? then t.card.value else Card("", "", "", "", "", [], false, 0, 0);
    var fixed := Fixed(t.id, t.amount, t.currency, card.holder, LastFour(card.number), card.hasLoyalty, card.points,
                       t.bankId, t.aid, t.installments, t.useLoyalty, t.loyaltyPoints, t.loyaltyAmount, t.cardAmount,
                       t.confirmation, t.receipt, t.auth, t.error,
                       InSeconds(t.createdAt),
                       if t.completedAt.Some? then Some(InSeconds(t.completedAt.value)) else None);
    Row(fixed, t.state, InSeconds(t.lastUpdated), None, 0)
  }

  /** The transaction that scanTransaction rebuilds from a row. */
  function TransactionOf(r: Row): Transaction {
    var f := r.fixed;
    Transaction(f.id, r.state, f.amount, f.currency,
                Some(Card(f.lastFour, "", f.holder, "", "", [], f.hasLoyalty, f.points, 0)),
                f.bankId, f.aid, f.installments, f.useLoyalty, f.loyaltyAmount, f.loyaltyPoints, f.cardAmount,
                f.confirmation, f.receipt, f.auth, f.error,
                f.createdAt * SECOND, if f.completedAt.Some? then Some(f.completedAt.value * SECOND) else None,
                r.lastUpdated * SECOND, r.cached)
  }

  /** What storing a transaction and loading it again keeps. */
  function Kept(t: Transaction): Transaction {
    var card := if t.card.Some? then t.card.value else Card("", "", "", "", "", [], false, 0, 0);
    t.(card := Some(Card(LastFour(card.number), "", card.holder, "", "", [], card.hasLoyalty, card.points, 0)),
       createdAt := CutToSecond(t.createdAt),
       completedAt := if t.completedAt.Some? then Some(CutToSecond(t.completedAt.value)) else None,
       lastUpdated := CutToSecond(t.lastUpdated),
       cached := None)
  }

  /** The last whole second not after t. */
  function CutToSecond(t: Time): (c: Time)
    ensures c <= t < c + SECOND && c % SECOND == 0
  {
    t - t % SECOND
  }

  /**
   * Storing and loading keeps the projection `Kept`: last four digits, whole seconds, no masked number, no points
   * value.
   */
  lemma ScanAfterInsert(t: Transaction)
    ensures TransactionOf(RowOf(t)) == Kept(t)
  {
    CutIsSecondsTimesSecond(t.createdAt);
    CutIsSecondsTimesSecond(t.lastUpdated);
    if t.completedAt.Some? {
      CutIsSecondsTimesSecond(t.completedAt.value);
    }
  }

  /** A time cut to the second. */
  predicate IsCut(c: Time, t: Time) {
    c <= t < c + 1_000_000_000 && c % 1_000_000_000 == 0
  }

  /** By fields: only card, times and stored response differ; of the card, four digits, holder and points are kept. */
  lemma ScannedFields(t: Transaction)
    ensures var s := TransactionOf(RowOf(t));
            && s == t.(card := s.card, createdAt := s.createdAt, completedAt := s.completedAt,
                       lastUpdated := s.lastUpdated, cached := None)
            && IsCut(s.createdAt, t.createdAt) && IsCut(s.lastUpdated, t.lastUpdated)
            && (s.completedAt.Some? <==> t.completedAt.Some?)
            && (t.completedAt.Some? ==> IsCut(s.completedAt.value, t.completedAt.value))
            && s.card.Some?
            && var c := s.card.value;
               && c.masked == "" && c.expiry == "" && c.cvv == "" && c.banks == [] && c.pointsValue == 0
               && (t.card.None? ==> c.number == "" && c.holder == "" && !c.hasLoyalty && c.points == 0)
               && (t.card.Some? ==>
                     && c.holder == t.card.value.holder
                     && c.hasLoyalty == t.card.value.hasLoyalty && c.points == t.card.value.points
                     && (|t.card.value.number| < 4 ==> c.number == "")
                     && (|t.card.value.number| >= 4 ==> c.number == t.card.value.number[|t.card.value.number| - 4..]))
  {
    CutIsSecondsTimesSecond(t.createdAt);
    CutIsSecondsTimesSecond(t.lastUpdated);
    if t.completedAt.Some? {
      CutIsSecondsTimesSecond(t.completedAt.value);
    }
  }

  lemma CutIsSecondsTimesSecond(t: Time)
    ensures InSeconds(t) * SECOND == CutToSecond(t)
    ensures InSeconds(CutToSecond(t)) == InSeconds(t)
  {
  }

  /** A second round of storing and loading changes nothing. */
  lemma InsertScanIsStable(t: Transaction)
    ensures Kept(Kept(t)) == Kept(t)
    ensures TransactionOf(RowOf(TransactionOf(RowOf(t)))) == TransactionOf(RowOf(t))
    ensures RowOf(TransactionOf(RowOf(t))) == RowOf(t)
  {
    ScanAfterInsert(t);
    ScanAfterInsert(Kept(t));
    CutIsSecondsTimesSecond(t.createdAt);
    CutIsSecondsTimesSecond(t.lastUpdated);
    if t.completedAt.Some? {
      CutIsSecondsTimesSecond(t.completedAt.value);
    }
    if t.card.Some? {
      LastFourOfLastFour(t.card.value.number);
    }
  }

  lemma LastFourOfLastFour(number: string)
    ensures LastFour(LastFour(number)) == LastFour(number)
  {
  }
}
