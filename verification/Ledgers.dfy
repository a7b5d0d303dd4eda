/** The state of the transaction manager as a value, and each of its operations as a function on it. */
module Ledgers {
  import opened Wrappers
  import opened Decimals
  import opened Domain
  import opened Tables

  /** Active transactions and the receipt counter are in memory; the table and the metadata are in the database. */
  datatype Ledger = Ledger(active: map<string, Transaction>, counter: uint64, table: Table,
                           metadata: map<string, string>)

  const COUNTER_KEY := "receipt_counter"
  const FIRST_COUNTER: uint64 := 1000

  /** The receipt counter that a new manager starts from. */
  function LoadCounter(metadata: map<string, string>): uint64 {
    if COUNTER_KEY in metadata then
      var n := Scan(metadata[COUNTER_KEY]);
      if n.Some? && n.value < TWO64 then n.value else FIRST_COUNTER
    else FIRST_COUNTER
  }

  /** A new manager on an existing database. */
  function OpenLedger(table: Table, metadata: map<string, string>): Ledger {
    Ledger(map[], LoadCounter(metadata), table, metadata)
  }

  function Restart(l: Ledger): Ledger {
    OpenLedger(l.table, l.metadata)
  }

  // ---------- Active transactions ----------

  datatype CreateError = AlreadyExists | InvalidAmount | ExceedsMaximum | UnsupportedCurrency

  function NewTransaction(id: string, amount: uint32, currency: string, now: Time): Transaction {
    Transaction(id, CardInsertion, amount, currency, None, 0, "", 0, false, 0, 0, 0, "", "", "", "",
                now, None, now, None)
  }

  function CheckNew(cfg: Config, l: Ledger, id: string, amount: uint32, currency: string): Option<CreateError> {
    if id in l.active then Some(AlreadyExists)
    else if amount == 0 then Some(InvalidAmount)
    else if amount > AmountCap(cfg) then Some(ExceedsMaximum)
    else if currency !in cfg.supportedCurrencies then Some(UnsupportedCurrency)
    else None
  }

  function Create(cfg: Config, l: Ledger, id: string, amount: uint32, currency: string, now: Time): Ledger {
    if CheckNew(cfg, l, id, amount, currency).Some? then l
    else l.(active := l.active[id := NewTransaction(id, amount, currency, now)])
  }

  function SetCard(l: Ledger, id: string, card: Card, now: Time): Ledger {
    if id in l.active then l.(active := l.active[id := l.active[id].(card := Some(card), lastUpdated := now)]) else l
  }

  function SetState(l: Ledger, id: string, state: State, now: Time): Ledger {
    if id in l.active then l.(active := l.active[id := l.active[id].(state := state, lastUpdated := now)]) else l
  }

  function SetBank(l: Ledger, id: string, bankId: uint32, aid: string, installments: uint32, now: Time): Ledger {
    if id in l.active then
      l.(active := l.active[id := l.active[id].(bankId := bankId, aid := aid, installments := installments,
                                                lastUpdated := now)])
    else l
  }

  function SetLoyalty(l: Ledger, id: string, use: bool, points: uint32, amount: uint32, now: Time): Ledger {
    if id in l.active then
      l.(active := l.active[id := l.active[id].(useLoyalty := use, loyaltyPoints := points, loyaltyAmount := amount,
                                                lastUpdated := now)])
    else l
  }

  // ---------- Settling: the separate steps of Complete and Fail ----------

  /** Complete's changes to the transaction and the counter in memory, before anything is stored. */
  function MarkCompleted(l: Ledger, id: string, confirmation: string, auth: string, now: Time): Ledger
    requires id in l.active
  {
    var t := l.active[id];
    var n := (l.counter + 1) % TWO64;
    l.(counter := n,
       active := l.active[id := t.(state := PaymentCompleted, confirmation := confirmation, auth := auth,
                                   receipt := ReceiptText(n), completedAt := Some(now), lastUpdated := now,
                                   cardAmount := Wrap32(t.amount - t.loyaltyAmount))])
  }

  function MarkFailed(l: Ledger, id: string, error: string, now: Time): Ledger
    requires id in l.active
  {
    l.(active := l.active[id := l.active[id].(state := Failed, error := error, completedAt := Some(now),
                                              lastUpdated := now)])
  }

  /** The INSERT fails exactly when the table already holds the key. */
  predicate InsertSucceeds(l: Ledger, id: string) {
    id !in l.table.rows
  }

  function Insert(l: Ledger, id: string): Ledger
    requires id in l.active
  {
    if InsertSucceeds(l, id) then l.(table := Append(l.table, id, RowOf(l.active[id]))) else l
  }

  function PersistCounter(l: Ledger): Ledger {
    l.(metadata := l.metadata[COUNTER_KEY := Format(l.counter)])
  }

  function DropActive(l: Ledger, id: string): Ledger {
    l.(active := l.active - {id})
  }

  function Complete(l: Ledger, id: string, confirmation: string, auth: string, now: Time): Ledger {
    if id !in l.active then l
    else
      var marked := MarkCompleted(l, id, confirmation, auth, now);
      if InsertSucceeds(marked, id) then DropActive(PersistCounter(Insert(marked, id)), id) else marked
  }

  function Fail(l: Ledger, id: string, error: string, now: Time): Ledger {
    if id !in l.active then l
    else
      var marked := MarkFailed(l, id, error, now);
      if InsertSucceeds(marked, id) then DropActive(Insert(marked, id), id) else marked
  }

  // ---------- Settled transactions ----------

  predicate Voidable(l: Ledger, id: string) {
    id in l.table.rows && l.table.rows[id].state == PaymentCompleted
  }

  function Void(l: Ledger, id: string, now: Time): Ledger {
    if Voidable(l, id) then
      l.(table := Put(l.table, id, l.table.rows[id].(state := Voided, lastUpdated := InSeconds(now))))
    else l
  }

  /** The row of the id has been voided or refunded. */
  predicate IsUndone(l: Ledger, id: string) {
    id in l.table.rows && l.table.rows[id].state in {Voided, Refunded}
  }

  /** Refund's SELECT and the two checks on what it returned. */
  predicate Refundable(l: Ledger, id: string, amount: uint32) {
    id in l.table.rows && l.table.rows[id].state == PaymentCompleted && amount <= l.table.rows[id].fixed.amount
  }

  /** Refund's UPDATE, which looks at no state. */
  function StoreRefund(l: Ledger, id: string, now: Time): Ledger {
    if id in l.table.rows then
      l.(table := Put(l.table, id, l.table.rows[id].(state := Refunded, lastUpdated := InSeconds(now))))
    else l
  }

  function Refund(l: Ledger, id: string, amount: uint32, now: Time): Ledger {
    if Refundable(l, id, amount) then StoreRefund(l, id, now) else l
  }

  function SetCached(l: Ledger, id: string, response: Response): Ledger {
    if id in l.table.rows then l.(table := Put(l.table, id, l.table.rows[id].(cached := Some(response)))) else l
  }

  /** The number of the next Z-report. */
  function NextBatch(l: Ledger): nat {
    MaxStamp(l.table) + 1
  }

  function CloseBatch(l: Ledger): Ledger {
    l.(table := StampOpen(l.table, NextBatch(l)))
  }
}
