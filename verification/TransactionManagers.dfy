/** The transaction manager: each operation changes the fields in place as its function in Ledgers says. */
module TransactionManagers {
  import opened Wrappers
  import opened Decimals
  import opened Domain
  import opened Tables
  import opened Ledgers
  import opened Reports
  import opened DetailedReports

  class TransactionManager {
    var activeTransactions: map<string, Transaction>
    var receiptCounter: uint64
    var transactions: Table
    var metadata: map<string, string>
    const config: Config

    ghost function Value(): Ledger
      reads this
    {
      Ledger(activeTransactions, receiptCounter, transactions, metadata)
    }

    /** A manager on an existing database. */
    constructor (config: Config, transactions: Table, metadata: map<string, string>)
      ensures Value() == OpenLedger(transactions, metadata) && this.config == config
    {
      this.config := config;
      this.transactions := transactions;
      this.metadata := metadata;
      activeTransactions := map[];
      receiptCounter := FIRST_COUNTER;
      new;
      if COUNTER_KEY in metadata {
        var n := Scan(metadata[COUNTER_KEY]);
        if n.Some? && n.value < TWO64 {
          receiptCounter := n.value;
        }
      }
    }

    method CreateTransaction(id: string, amount: uint32, currency: string, now: Time)
      returns (error: Option<CreateError>)
      modifies this
      ensures error == CheckNew(config, old(Value()), id, amount, currency)
      ensures Value() == Create(config, old(Value()), id, amount, currency, now)
    {
      if id in activeTransactions {
        return Some(AlreadyExists);
      }
      if amount == 0 {
        return Some(InvalidAmount);
      }
      if amount > AmountCap(config) {
        return Some(ExceedsMaximum);
      }
      var validCurrency := false;
      for i := 0 to |config.supportedCurrencies|
        invariant validCurrency <==> currency in config.supportedCurrencies[..i]
      {
        if config.supportedCurrencies[i] == currency {
          validCurrency := true;
          break;
        }
      }
      if !validCurrency {
        return Some(UnsupportedCurrency);
      }
      activeTransactions := activeTransactions[id := NewTransaction(id, amount, currency, now)];
      return None;
    }

    method GetTransaction(id: string) returns (t: Option<Transaction>)
      ensures t == if id in activeTransactions then Some(activeTransactions[id]) else None
    {
      if id !in activeTransactions {
        return None;
      }
      return Some(activeTransactions[id]);
    }

    method GetCompletedTransactionByID(id: string) returns (t: Option<Transaction>)
      ensures t == if id in transactions.rows then Some(TransactionOf(transactions.rows[id])) else None
    {
      if id !in transactions.rows {
        return None;
      }
      return Some(TransactionOf(transactions.rows[id]));
    }

    method UpdateTransactionState(id: string, state: State, now: Time) returns (ok: bool)
      modifies this`activeTransactions
      ensures ok == (id in old(activeTransactions)) && Value() == SetState(old(Value()), id, state, now)
    {
      if id !in activeTransactions {
        return false;
      }
      var txn := activeTransactions[id];
      txn := txn.(state := state);
      txn := txn.(lastUpdated := now);
      activeTransactions := activeTransactions[id := txn];
      return true;
    }

    method SetCardData(id: string, card: Card, now: Time) returns (ok: bool)
      modifies this`activeTransactions
      ensures ok == (id in old(activeTransactions)) && Value() == SetCard(old(Value()), id, card, now)
    {
      if id !in activeTransactions {
        return false;
      }
      activeTransactions := activeTransactions[id := activeTransactions[id].(card := Some(card), lastUpdated := now)];
      return true;
    }

    method SetBankSelection(id: string, bankId: uint32, aid: string, installments: uint32, now: Time) returns (ok: bool)
      modifies this`activeTransactions
      ensures ok == (id in old(activeTransactions))
               && Value() == SetBank(old(Value()), id, bankId, aid, installments, now)
    {
      if id !in activeTransactions {
        return false;
      }
      var txn := activeTransactions[id];
      txn := txn.(bankId := bankId, aid := aid, installments := installments);
      txn := txn.(lastUpdated := now);
      activeTransactions := activeTransactions[id := txn];
      return true;
    }

    method SetLoyaltyPoints(id: string, useLoyalty: bool, pointsUsed: uint32, amount: uint32, now: Time)
      returns (ok: bool)
      modifies this`activeTransactions
      ensures ok == (id in old(activeTransactions))
      ensures Value() == SetLoyalty(old(Value()), id, useLoyalty, pointsUsed, amount, now)
    {
      if id !in activeTransactions {
        return false;
      }
      var txn := activeTransactions[id];
      txn := txn.(useLoyalty := useLoyalty, loyaltyPoints := pointsUsed, loyaltyAmount := amount);
      txn := txn.(lastUpdated := now);
      activeTransactions := activeTransactions[id := txn];
      return true;
    }

    /** insertCompleted: fails when the key is taken. */
    method InsertCompleted(id: string, txn: Transaction) returns (ok: bool)
      modifies this`transactions
      ensures ok == (id !in old(transactions).rows)
      ensures transactions == if ok then Append(old(transactions), id, RowOf(txn)) else old(transactions)
    {
      if id in transactions.rows {
        return false;
      }
      transactions := Append(transactions, id, RowOf(txn));
      return true;
    }

    method CompleteTransaction(id: string, confirmation: string, auth: string, now: Time) returns (ok: bool)
      modifies this
      ensures ok == (id in old(activeTransactions) && id !in old(transactions).rows)
      ensures Value() == Complete(old(Value()), id, confirmation, auth, now)
    {
      hide RowOf, Format;
      if id !in activeTransactions {
        return false;
      }
      var txn := activeTransactions[id];
      txn := txn.(state := PaymentCompleted, confirmation := confirmation, auth := auth);
      receiptCounter := (receiptCounter + 1) % TWO64;
      txn := txn.(receipt := ReceiptText(receiptCounter), completedAt := Some(now), lastUpdated := now);
      txn := txn.(cardAmount := Wrap32(txn.amount - txn.loyaltyAmount));
      activeTransactions := activeTransactions[id := txn];
      var inserted := InsertCompleted(id, txn);
      if !inserted {
        return false;
      }
      metadata := metadata[COUNTER_KEY := Format(receiptCounter)];
      activeTransactions := activeTransactions - {id};
      return true;
    }

    method FailTransaction(id: string, error: string, now: Time) returns (ok: bool)
      modifies this
      ensures ok == (id in old(activeTransactions) && id !in old(transactions).rows)
      ensures Value() == Fail(old(Value()), id, error, now)
    {
      hide RowOf;
      if id !in activeTransactions {
        return false;
      }
      var txn := activeTransactions[id];
      txn := txn.(state := Failed, error := error, completedAt := Some(now), lastUpdated := now);
      activeTransactions := activeTransactions[id := txn];
      var inserted := InsertCompleted(id, txn);
      if !inserted {
        return false;
      }
      activeTransactions := activeTransactions - {id};
      return true;
    }

    method VoidTransaction(id: string, now: Time) returns (t: Option<Transaction>)
      modifies this`transactions
      ensures t.Some? == Voidable(old(Value()), id) && Value() == Void(old(Value()), id, now)
      ensures t.Some? ==> t.value == TransactionOf(Value().table.rows[id])
    {
      if id !in transactions.rows || transactions.rows[id].state != PaymentCompleted {
        return None;
      }
      transactions := Put(transactions, id, transactions.rows[id].(state := Voided, lastUpdated := InSeconds(now)));
      t := GetCompletedTransactionByID(id);
    }

    method RefundTransaction(id: string, amount: uint32, now: Time) returns (t: Option<Transaction>)
      modifies this`transactions
      ensures t.Some? == Refundable(old(Value()), id, amount) && Value() == Refund(old(Value()), id, amount, now)
      ensures t.Some? ==> t.value == TransactionOf(Value().table.rows[id])
    {
      if id !in transactions.rows || transactions.rows[id].state != PaymentCompleted {
        return None;
      }
      if amount > transactions.rows[id].fixed.amount {
        return None;
      }
      transactions := Put(transactions, id, transactions.rows[id].(state := Refunded, lastUpdated := InSeconds(now)));
      t := GetCompletedTransactionByID(id);
    }

    method SetCachedResponse(id: string, response: Response)
      modifies this`transactions
      ensures Value() == SetCached(old(Value()), id, response)
    {
      if id in transactions.rows {
        transactions := Put(transactions, id, transactions.rows[id].(cached := Some(response)));
      }
    }

    method GenerateXReport() returns (r: Report)
      requires WellFormed(transactions)
      ensures r == ReportOf(transactions)
    {
      var groups := QueryGroups(transactions);
      r := GenerateReport(groups, transactions);
    }

    method GenerateZReport() returns (r: Report, number: uint32)
      requires WellFormed(transactions)
      modifies this`transactions
      ensures r == ReportOf(old(transactions)) && number == Wrap32(NextBatch(old(Value())))
      ensures Value() == CloseBatch(old(Value()))
    {
      r := GenerateXReport();
      var maxId := MaxStamp(transactions);
      var nextId := maxId + 1;
      transactions := StampOpen(transactions, nextId);
      number := Wrap32(nextId);
    }

    method DetailedReport(q: Query) returns (entries: seq<TransactionEntry>)
      ensures entries == EntriesOf(Selected(transactions, q))
    {
      entries := GenerateDetailedReport(Selected(transactions, q));
    }
  }
}
