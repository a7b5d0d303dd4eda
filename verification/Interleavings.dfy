/**
 * The transaction manager used by any number of threads at once. A step is one SQL statement, one change in memory
 * under the mutex, or taking or releasing the mutex; threads interleave in any order, and each may call any operation
 * with any arguments at any time.
 */
module Interleavings {
  import opened Wrappers
  import opened Decimals
  import opened Domain
  import opened Tables
  import opened Ledgers

  type Tid = nat

  datatype Op =
    | CreateOp(id: string, amount: uint32, currency: string, now: Time)
    | SetCardOp(id: string, card: Card, now: Time)
    | SetStateOp(id: string, state: State, now: Time)
    | SetBankOp(id: string, bankId: uint32, aid: string, installments: uint32, now: Time)
    | SetLoyaltyOp(id: string, use: bool, points: uint32, amount: uint32, now: Time)
    | CompleteOp(id: string, confirmation: string, auth: string, now: Time)
    | FailOp(id: string, error: string, now: Time)
    | VoidOp(id: string, now: Time)
    | RefundOp(id: string, amount: uint32, now: Time)
    | CacheOp(id: string, response: Response)
    | ZReportOp

  /** What a thread does next. */
  datatype Phase =
    | Idle
    | CompleteMark(id: string, confirmation: string, auth: string, now: Time)
    | CompleteInsert(id: string)
    | CompletePersist(id: string)
    | CompleteDrop(id: string)
    | FailMark(id: string, error: string, now: Time)
    | FailInsert(id: string)
    | FailDrop(id: string)
    | ZSelect
    | ZSelectMax(seen: Table)
    | ZUpdate(seen: Table, number: nat)
    | ZRelease
    | VoidFetch(id: string)
    | RefundStore(id: string, now: Time)
    | RefundFetch(id: string)

  predicate HoldsMutex(p: Phase) {
    !p.Idle? && !p.VoidFetch? && !p.RefundStore? && !p.RefundFetch?
  }

  /** A Z-report that has been issued: its number, the table its SELECT saw, the rows its UPDATE stamped. */
  datatype Issue = Issue(number: nat, seen: Table, stamped: set<string>)

  /** `issued` and `voided` record the Z-reports and the successful voids of the run; `steps` counts its steps. */
  datatype System = System(cfg: Config, ledger: Ledger, mutex: Option<Tid>, threads: map<Tid, Phase>,
                           issued: seq<Issue>, voided: seq<string>, steps: nat)

  datatype Action = Start(tid: Tid, op: Op) | Advance(tid: Tid) | RestartTerminal

  function Initial(cfg: Config): System {
    System(cfg, OpenLedger(EMPTY, map[]), None, map[], [], [], 0)
  }

  function PhaseOf(s: System, t: Tid): Phase {
    if t in s.threads then s.threads[t] else Idle
  }

  function Goto(s: System, t: Tid, p: Phase): System {
    s.(threads := s.threads[t := p])
  }

  function Lock(s: System, t: Tid, p: Phase): System {
    if s.mutex == None then Goto(s, t, p).(mutex := Some(t)) else s
  }

  function Unlock(s: System, t: Tid): System {
    Goto(s, t, Idle).(mutex := None)
  }

  function InMemory(s: System, l: Ledger): System {
    if s.mutex == None then s.(ledger := l) else s
  }

  /** An idle thread calls an operation; an operation that needs the mutex waits while it is taken. */
  function Begin(s: System, t: Tid, op: Op): System {
    match op
    case CreateOp(id, amount, currency, now) => InMemory(s, Create(s.cfg, s.ledger, id, amount, currency, now))
    case SetCardOp(id, card, now) => InMemory(s, SetCard(s.ledger, id, card, now))
    case SetStateOp(id, state, now) => InMemory(s, SetState(s.ledger, id, state, now))
    case SetBankOp(id, bankId, aid, n, now) => InMemory(s, SetBank(s.ledger, id, bankId, aid, n, now))
    case SetLoyaltyOp(id, use, points, amount, now) => InMemory(s, SetLoyalty(s.ledger, id, use, points, amount, now))
    case CompleteOp(id, confirmation, auth, now) => Lock(s, t, CompleteMark(id, confirmation, auth, now))
    case FailOp(id, error, now) => Lock(s, t, FailMark(id, error, now))
    case ZReportOp => Lock(s, t, ZSelect)
    case VoidOp(id, now) =>
      if Voidable(s.ledger, id) then
        Goto(s, t, VoidFetch(id)).(ledger := Void(s.ledger, id, now), voided := s.voided + [id])
      else s
    case RefundOp(id, amount, now) => if Refundable(s.ledger, id, amount) then Goto(s, t, RefundStore(id, now)) else s
    case CacheOp(id, response) => s.(ledger := SetCached(s.ledger, id, response))
  }

  /** A thread inside an operation takes its next step. */
  function Continue(s: System, t: Tid): System {
    var l := s.ledger;
    match PhaseOf(s, t)
    case Idle => s
    case CompleteMark(id, confirmation, auth, now) =>
      if id in l.active then Goto(s, t, CompleteInsert(id)).(ledger := MarkCompleted(l, id, confirmation, auth, now))
      else Unlock(s, t)
    case CompleteInsert(id) =>
      if id in l.active && InsertSucceeds(l, id) then Goto(s, t, CompletePersist(id)).(ledger := Insert(l, id))
      else Unlock(s, t)
    case CompletePersist(id) => Goto(s, t, CompleteDrop(id)).(ledger := PersistCounter(l))
    case CompleteDrop(id) => Unlock(s, t).(ledger := DropActive(l, id))
    case FailMark(id, error, now) =>
      if id in l.active then Goto(s, t, FailInsert(id)).(ledger := MarkFailed(l, id, error, now)) else Unlock(s, t)
    case FailInsert(id) =>
      if id in l.active && InsertSucceeds(l, id) then Goto(s, t, FailDrop(id)).(ledger := Insert(l, id))
      else Unlock(s, t)
    case FailDrop(id) => Unlock(s, t).(ledger := DropActive(l, id))
    case ZSelect => Goto(s, t, ZSelectMax(l.table))
    case ZSelectMax(seen) => Goto(s, t, ZUpdate(seen, NextBatch(l)))
    case ZUpdate(seen, n) =>
      Goto(s, t, ZRelease).(ledger := l.(table := StampOpen(l.table, n)),
                            issued := s.issued + [Issue(n, seen, OpenIds(l.table))])
    case ZRelease => Unlock(s, t)
    case VoidFetch(id) => Goto(s, t, Idle)
    case RefundStore(id, now) => Goto(s, t, RefundFetch(id)).(ledger := StoreRefund(l, id, now))
    case RefundFetch(id) => Goto(s, t, Idle)
  }

  predicate AllIdle(s: System) {
    s.mutex == None && forall t :: t in s.threads ==> s.threads[t] == Idle
  }

  function Effect(s: System, a: Action): System {
    match a
    case Start(t, op) => if PhaseOf(s, t) == Idle then Begin(s, t, op) else s
    case Advance(t) => Continue(s, t)
    case RestartTerminal => if AllIdle(s) then s.(ledger := Restart(s.ledger)) else s
  }

  function Step(s: System, a: Action): System {
    Effect(s, a).(steps := s.steps + 1)
  }

  function Run(s: System, actions: seq<Action>): System
    decreases |actions|
  {
    if actions == [] then s else Step(Run(s, actions[..|actions| - 1]), actions[|actions| - 1])
  }

  // ---------- Invariant ----------

  function HolderPhase(s: System): Phase {
    if s.mutex.Some? then PhaseOf(s, s.mutex.value) else Idle
  }

  /** Exactly the thread that has the mutex is inside a critical section. */
  ghost predicate MutexOk(s: System) {
    && (forall t :: t in s.threads && HoldsMutex(s.threads[t]) ==> s.mutex == Some(t))
    && (s.mutex.Some? ==> HoldsMutex(PhaseOf(s, s.mutex.value)))
  }

  /** A thread between the statements of Void or Refund has its row in the table, past any failed state. */
  ghost predicate LockFreeOk(s: System) {
    forall t :: t in s.threads ==>
      match s.threads[t]
      case VoidFetch(id) => id in s.ledger.table.rows
      case RefundFetch(id) => id in s.ledger.table.rows
      case RefundStore(id, _) => id in s.ledger.table.rows && s.ledger.table.rows[id].state in SETTLED
      case _ => true
  }

  ghost predicate TableOk(cfg: Config, l: Ledger) {
    && WellFormed(l.table)
    && (forall id :: id in l.active ==> l.active[id].id == id && l.active[id].amount <= AmountCap(cfg))
    && (forall id :: id in l.table.rows ==>
          && l.table.rows[id].state in SETTLED + {Failed}
          && l.table.rows[id].fixed.amount <= AmountCap(cfg)
          && (l.table.rows[id].state == Failed <==> l.table.rows[id].fixed.receipt == ""))
  }

  function ReceiptAt(t: Table, id: string): nat {
    if id in t.rows then ReceiptNumber(t.rows[id].fixed.receipt) else 0
  }

  ghost predicate ReceiptsIncrease(t: Table) {
    forall i, j :: 0 <= i < j < |t.order| && t.order[i] in t.rows && t.order[j] in t.rows
                   && t.rows[t.order[i]].fixed.receipt != "" && t.rows[t.order[j]].fixed.receipt != ""
      ==> ReceiptAt(t, t.order[i]) < ReceiptAt(t, t.order[j])
  }

  ghost predicate ReceiptsAtMost(t: Table, n: nat) {
    forall id :: id in t.rows ==> ReceiptAt(t, id) <= n
  }

  /**
   * issued receipts <= persisted counter <= counter in memory; only between INSERT and the counter's write is one
   * ahead.
   */
  ghost predicate ReceiptsOk(l: Ledger, holder: Phase) {
    && ReceiptsIncrease(l.table)
    && ReceiptsAtMost(l.table, if holder.CompletePersist? then l.counter else LoadCounter(l.metadata))
    && LoadCounter(l.metadata) <= l.counter
    && (forall id :: id in l.active && l.active[id].receipt != "" ==>
        id in l.table.rows || holder == CompleteInsert(id))
  }

  /** Two states of the table between which only settled states moved and responses were stored. */
  ghost predicate SameBatch(seen: Table, t: Table) {
    && Evolves(seen, t) && seen.order == t.order && seen.rows.Keys == t.rows.Keys
    && (forall id :: id in t.rows ==> seen.rows[id].zReportId == t.rows[id].zReportId)
    && WellFormed(seen)
  }

  /** What the thread with the mutex has established. */
  ghost predicate HolderOk(l: Ledger, holder: Phase) {
    match holder
    case CompleteInsert(id) =>
      && id in l.active && l.active[id].state == PaymentCompleted && l.active[id].receipt == ReceiptText(l.counter)
      && LoadCounter(l.metadata) < l.counter
    case CompletePersist(id) => id in l.table.rows
    case CompleteDrop(id) => id in l.table.rows
    case FailInsert(id) => id in l.active && l.active[id].state == Failed
    case FailDrop(id) => id in l.table.rows
    case ZSelectMax(seen) => SameBatch(seen, l.table)
    case ZUpdate(seen, n) => SameBatch(seen, l.table) && n == NextBatch(l)
    case _ => true
  }

  /** The number that the next Z-report gets: the last one again if that batch had no rows, else one more. */
  function NextNumber(issued: seq<Issue>): nat {
    if issued == [] then 1
    else
      var last := issued[|issued| - 1];
      if last.stamped == {} then last.number else last.number + 1
  }

  predicate HasStamp(t: Table, k: nat) {
    exists id :: id in t.rows && t.rows[id].zReportId == k
  }

  /** Every stamp from 1 to the largest is in use. */
  ghost predicate StampsContiguous(t: Table) {
    forall k :: 1 <= k <= MaxStamp(t) ==> HasStamp(t, k)
  }

  /** One Z-report: it stamped exactly the rows its SELECT saw as open, with its number, and they carry it still. */
  ghost predicate IssueOk(t: Table, issue: Issue) {
    && WellFormed(issue.seen) && Evolves(issue.seen, t)
    && issue.stamped == OpenIds(issue.seen)
    && (forall id :: id in issue.stamped ==> id in t.rows && t.rows[id].zReportId == issue.number > 0)
  }

  ghost predicate NumbersOk(issued: seq<Issue>) {
    forall i :: 0 <= i < |issued| ==> issued[i].number == NextNumber(issued[..i])
  }

  ghost predicate StampedOnce(issued: seq<Issue>) {
    forall i, j, id :: 0 <= i < j < |issued| && id in issued[i].stamped ==> id !in issued[j].stamped
  }

  predicate StampedBy(issued: seq<Issue>, id: string) {
    exists i :: 0 <= i < |issued| && id in issued[i].stamped
  }

  /** The Z-reports account for every stamp in the table. */
  ghost predicate BatchesOk(t: Table, issued: seq<Issue>) {
    && NextNumber(issued) == MaxStamp(t) + 1
    && NumbersOk(issued)
    && StampedOnce(issued)
    && StampsContiguous(t)
    && (forall i :: 0 <= i < |issued| ==> IssueOk(t, issued[i]))
    && (forall id :: id in t.rows && t.rows[id].zReportId != 0 ==> StampedBy(issued, id))
  }

  ghost predicate VoidsOk(s: System) {
    && (forall i, j :: 0 <= i < j < |s.voided| ==> s.voided[i] != s.voided[j])
    && (forall id :: id in s.voided ==>
        id in s.ledger.table.rows && s.ledger.table.rows[id].state in {Voided, Refunded})
  }

  ghost predicate PartsOk(s: System) {
    && MutexOk(s)
    && LockFreeOk(s)
    && TableOk(s.cfg, s.ledger)
    && ReceiptsOk(s.ledger, HolderPhase(s))
    && HolderOk(s.ledger, HolderPhase(s))
    && BatchesOk(s.ledger.table, s.issued)
    && VoidsOk(s)
  }

  ghost predicate Inv(s: System) {
    PartsOk(s) && s.ledger.counter <= FIRST_COUNTER + s.steps
  }

  /** Runs that cannot have wrapped the 64-bit receipt counter. */
  const LONGEST_RUN := TWO64 - FIRST_COUNTER - 1
}
