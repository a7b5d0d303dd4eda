/** When at most one of all the voids and refunds of an id succeeds, with threads interleaving. */
module UndoLaws {
  import opened Wrappers
  import opened Decimals
  import opened Domain
  import opened Tables
  import opened Ledgers
  import opened Interleavings
  import opened InterleavingLaws
  import opened Uninterrupted

  /** This step is Refund's UPDATE of the id. */
  predicate StoresRefund(s: System, a: Action, id: string) {
    a.Advance? && PhaseOf(s, a.tid).RefundStore? && PhaseOf(s, a.tid).id == id
  }

  /** This step is a Void of the id that finds its row completed. */
  predicate Voids(s: System, a: Action, id: string) {
    a.Start? && PhaseOf(s, a.tid) == Idle && a.op.VoidOp? && a.op.id == id && Voidable(s.ledger, id)
  }

  /**
   * This step is a Refund's UPDATE over a row that has been undone since that Refund's SELECT: it has no guard against
   * it.
   */
  predicate StoresLate(s: System, a: Action, id: string) {
    StoresRefund(s, a, id) && IsUndone(s.ledger, id)
  }

  /** How many voids and refunds of the id succeed in a run. */
  function Undoings(s: System, actions: seq<Action>, id: string): nat
    decreases |actions|
  {
    if actions == [] then 0
    else
      var front, a := actions[..|actions| - 1], actions[|actions| - 1];
      Undoings(s, front, id) + (if Voids(Run(s, front), a, id) || StoresRefund(Run(s, front), a, id) then 1 else 0)
  }

  /** How many refunds of the id are stored late in a run. */
  function LateRefunds(s: System, actions: seq<Action>, id: string): nat
    decreases |actions|
  {
    if actions == [] then 0
    else
      var front, a := actions[..|actions| - 1], actions[|actions| - 1];
      LateRefunds(s, front, id) + (if StoresLate(Run(s, front), a, id) then 1 else 0)
  }

  // ---------- One step ----------

  lemma BeginUndoes(s: System, t: Tid, op: Op, id: string)
    requires PhaseOf(s, t) == Idle
    ensures IsUndone(Begin(s, t, op).ledger, id) <==> IsUndone(s.ledger, id) || Voids(s, Start(t, op), id)
  {
    hide CheckNew;
  }

  lemma InsertUndoesNothing(l: Ledger, x: string, id: string)
    requires x in l.active && l.active[x].state in {PaymentCompleted, Failed}
    ensures IsUndone(Insert(l, x), id) <==> IsUndone(l, id)
  {
  }

  lemma StampUndoesNothing(t: Table, n: nat, id: string)
    ensures id in StampOpen(t, n).rows <==> id in t.rows
    ensures id in t.rows ==> StampOpen(t, n).rows[id].state == t.rows[id].state
  {
  }

  lemma StoreUndoes(l: Ledger, x: string, now: Time, id: string)
    requires x in l.table.rows
    ensures IsUndone(StoreRefund(l, x, now), id) <==> IsUndone(l, id) || x == id
  {
  }

  lemma ContinueUndoes(s: System, t: Tid, id: string)
    requires PhaseOf(s, t).RefundStore? ==> PhaseOf(s, t).id in s.ledger.table.rows
    requires PhaseOf(s, t).CompleteInsert? || PhaseOf(s, t).FailInsert? ==>
               var x := PhaseOf(s, t).id; x in s.ledger.active && s.ledger.active[x].state in {PaymentCompleted, Failed}
    ensures IsUndone(Continue(s, t).ledger, id) <==> IsUndone(s.ledger, id) || StoresRefund(s, Advance(t), id)
  {
    hide Insert, StampOpen, StoreRefund, MaxStamp, MarkCompleted, MarkFailed, PersistCounter;
    match PhaseOf(s, t)
    case CompleteMark(x, confirmation, auth, now) =>
      if x in s.ledger.active { MarkKeepsKnown(s.ledger, x, confirmation, auth, "", now, id); }
    case FailMark(x, error, now) => if x in s.ledger.active { MarkKeepsKnown(s.ledger, x, "", "", error, now, id); }
    case CompletePersist(_) => PersistKeepsKnown(s.ledger);
    case CompleteInsert(x) => InsertUndoesNothing(s.ledger, x, id);
    case FailInsert(x) => InsertUndoesNothing(s.ledger, x, id);
    case ZUpdate(_, n) => StampUndoesNothing(s.ledger.table, n, id);
    case RefundStore(x, now) => StoreUndoes(s.ledger, x, now, id);
    case _ =>
  }

  /** A row is undone after a step exactly if it was before or the step undoes it, and Void undoes only what was not. */
  lemma StepUndoes(s: System, a: Action, id: string)
    requires Inv(s)
    ensures IsUndone(Step(s, a).ledger, id) <==> IsUndone(s.ledger, id) || Voids(s, a, id) || StoresRefund(s, a, id)
    ensures Voids(s, a, id) ==> !IsUndone(s.ledger, id) && !StoresRefund(s, a, id)
  {
    hide Begin, Continue, BatchesOk, ReceiptsOk, TableOk, VoidsOk;
    match a
    case Start(t, op) => if PhaseOf(s, t) == Idle { BeginUndoes(s, t, op, id); }
    case Advance(t) =>
      assert HoldsMutex(PhaseOf(s, t)) ==> s.mutex == Some(t);
      ContinueUndoes(s, t, id);
    case RestartTerminal =>
  }

  // ---------- Whole runs ----------

  /** Every success but the first is a late refund. */
  lemma {:induction false} SuccessesAndLateRefunds(s: System, actions: seq<Action>, id: string)
    requires Inv(s) && s.steps + |actions| <= LONGEST_RUN
    ensures Undoings(s, actions, id) + (if IsUndone(s.ledger, id) then 1 else 0)
         == LateRefunds(s, actions, id) + (if IsUndone(Run(s, actions).ledger, id) then 1 else 0)
    ensures IsUndone(s.ledger, id) || LateRefunds(s, actions, id) > 0 ==> IsUndone(Run(s, actions).ledger, id)
    decreases |actions|
  {
    hide Inv, Effect, Step, IsUndone, Voids, StoresRefund;
    if actions != [] {
      var front, a := actions[..|actions| - 1], actions[|actions| - 1];
      SuccessesAndLateRefunds(s, front, id);
      RunKeeps(s, front);
      StepUndoes(Run(s, front), a, id);
    }
  }

  /**
   * Under any interleaving, at most one of all the voids and refunds of an id succeeds if and only if no Refund stores
   * its result over a row that has been voided or refunded since the Refund read it.
   */
  lemma AtMostOneUndoing(cfg: Config, actions: seq<Action>, id: string)
    requires |actions| <= LONGEST_RUN
    ensures Undoings(Initial(cfg), actions, id) <= 1 <==> LateRefunds(Initial(cfg), actions, id) == 0
  {
    hide Inv, Run;
    InitialOk(cfg);
    SuccessesAndLateRefunds(Initial(cfg), actions, id);
  }

  /** The same from any reachable state: none succeeds, or only the first, exactly if no refund is stored late. */
  lemma AtMostOneUndoingFrom(s: System, actions: seq<Action>, id: string)
    requires Reachable(s) && s.steps + |actions| <= LONGEST_RUN
    ensures Undoings(s, actions, id) <= (if IsUndone(s.ledger, id) then 0 else 1) <==> LateRefunds(s, actions, id) == 0
  {
    hide Inv, Run, Reachable, Undoings, LateRefunds;
    ReachableOk(s);
    SuccessesAndLateRefunds(s, actions, id);
  }

  // ---------- The schedule in which all succeed ----------

  lemma OneMoreStep(s: System, front: seq<Action>, a: Action, id: string)
    ensures var before := Run(s, front);
            && Run(s, front + [a]) == Step(before, a)
            && Undoings(s, front + [a], id)
               == Undoings(s, front, id) + (if Voids(before, a, id) || StoresRefund(before, a, id) then 1 else 0)
            && LateRefunds(s, front + [a], id)
                == LateRefunds(s, front, id) + (if StoresLate(before, a, id) then 1 else 0)
  {
    hide Step, Voids, StoresRefund, StoresLate;
    assert (front + [a])[..|front|] == front;
  }

  /** Two refunds read a row, then a void changes it, then both refunds are stored. */
  function Race(id: string, a: Tid, b: Tid, c: Tid, now: Time): seq<Action> {
    [Start(a, RefundOp(id, 0, now)), Start(b, RefundOp(id, 0, now)), Start(c, VoidOp(id, now)), Advance(a), Advance(b)]
  }

  /** From any completed row and three idle threads that schedule makes all three succeed, two refunds of them late. */
  lemma RefundsRace(s: System, id: string, a: Tid, b: Tid, c: Tid, now: Time)
    requires Voidable(s.ledger, id) && a != b && b != c && a != c
    requires PhaseOf(s, a) == PhaseOf(s, b) == PhaseOf(s, c) == Idle
    ensures Undoings(s, Race(id, a, b, c, now), id) == 3 && LateRefunds(s, Race(id, a, b, c, now), id) == 2
  {
    hide Run, Undoings, LateRefunds, Step, Voids, StoresRefund, StoresLate, IsUndone;
    var first, second, void :=
        Start(a, RefundOp(id, 0, now)), Start(b, RefundOp(id, 0, now)), Start(c, VoidOp(id, now));
    NoStep(s, id);
    RefundReads(s, id, a, b, c, now);
    OneMoreStep(s, [], first, id);
    var s1 := Step(s, first);
    RefundReads(s1, id, b, a, c, now);
    OneMoreStep(s, [first], second, id);
    var s2 := Step(s1, second);
    VoidBetween(s2, id, a, b, c, now);
    OneMoreStep(s, [first, second], void, id);
    var s3 := Step(s2, void);
    LateStore(s3, id, a, b, now);
    OneMoreStep(s, [first, second, void], Advance(a), id);
    LateStore(Step(s3, Advance(a)), id, b, a, now);
    OneMoreStep(s, [first, second, void, Advance(a)], Advance(b), id);
    assert [] + [first] == [first] && [first] + [second] == [first, second];
    assert [first, second] + [void] == [first, second, void];
    assert [first, second, void] + [Advance(a)] == [first, second, void, Advance(a)];
    assert [first, second, void, Advance(a)] + [Advance(b)] == Race(id, a, b, c, now);
  }

  lemma RefundReads(s: System, id: string, a: Tid, b: Tid, c: Tid, now: Time)
    requires Voidable(s.ledger, id) && PhaseOf(s, a) == Idle && a != b && a != c
    ensures var act := Start(a, RefundOp(id, 0, now));
            var s' := Step(s, act);
            && !Voids(s, act, id) && !StoresRefund(s, act, id) && !StoresLate(s, act, id)
            && s'.ledger == s.ledger && PhaseOf(s', a) == RefundStore(id, now)
            && PhaseOf(s', b) == PhaseOf(s, b) && PhaseOf(s', c) == PhaseOf(s, c)
  {
    hide StampOpen, MaxStamp;
  }

  lemma NoStep(s: System, id: string)
    ensures Run(s, []) == s && Undoings(s, [], id) == LateRefunds(s, [], id) == 0
  {
  }

  lemma VoidBetween(s: System, id: string, a: Tid, b: Tid, c: Tid, now: Time)
    requires Voidable(s.ledger, id) && a != c && b != c && PhaseOf(s, c) == Idle
    ensures var s' := Step(s, Start(c, VoidOp(id, now)));
            && Voids(s, Start(c, VoidOp(id, now)), id) && !StoresLate(s, Start(c, VoidOp(id, now)), id)
            && IsUndone(s'.ledger, id)
            && PhaseOf(s', a) == PhaseOf(s, a) && PhaseOf(s', b) == PhaseOf(s, b)
  {
    hide StampOpen, MaxStamp;
  }

  lemma LateStore(s: System, id: string, a: Tid, b: Tid, now: Time)
    requires PhaseOf(s, a) == RefundStore(id, now) && IsUndone(s.ledger, id) && a != b
    ensures var s' := Step(s, Advance(a));
            StoresRefund(s, Advance(a), id) && StoresLate(s, Advance(a), id) && IsUndone(s'.ledger, id)
                && PhaseOf(s', b) == PhaseOf(s, b)
  {
    hide StampOpen, MaxStamp;
  }

  /** A payment of one cent by one thread. */
  function PayOneCent(id: string, currency: string): seq<Action> {
    [Start(0, CreateOp(id, 1, currency, 0)), Start(0, CompleteOp(id, "", "", 0)),
     Advance(0), Advance(0), Advance(0), Advance(0)]
  }

  lemma {:induction false} OthersStay(s: System, t: Tid, n: nat, other: Tid)
    requires other != t
    ensures PhaseOf(Advances(s, t, n), other) == PhaseOf(s, other)
  {
    if n > 0 {
      OthersStay(s, t, n - 1, other);
      ContinueSparesOthers(Advances(s, t, n - 1), t, other);
    }
  }

  lemma ContinueSparesOthers(s: System, t: Tid, other: Tid)
    requires other != t
    ensures PhaseOf(Continue(s, t), other) == PhaseOf(s, other)
  {
    hide StampOpen, MaxStamp, MarkCompleted, MarkFailed, Insert, PersistCounter, StoreRefund;
  }

  /** The count of steps plays no part in a step. */
  lemma CountPlaysNoPart(s: System, t: Tid, n: nat)
    ensures Continue(s.(steps := n), t) == Continue(s, t).(steps := n)
  {
    hide StampOpen, MaxStamp, MarkCompleted, MarkFailed, Insert, PersistCounter, StoreRefund;
    assert PhaseOf(s.(steps := n), t) == PhaseOf(s, t);
  }

  lemma StepsAlone(s: System, t: Tid, n: nat, k: nat)
    ensures Step(Advances(s, t, n).(steps := k), Advance(t)) == Advances(s, t, n + 1).(steps := k + 1)
  {
    hide Continue;
    CountPlaysNoPart(Advances(s, t, n), t, k);
  }

  lemma Created(cfg: Config, id: string, currency: string)
    requires currency in cfg.supportedCurrencies && AmountCap(cfg) > 0
    ensures var s := Step(Initial(cfg), Start(0, CreateOp(id, 1, currency, 0)));
            && Ready(s, 0) && s.threads == map[] && s.steps == 1
            && s.ledger.table == EMPTY && id in s.ledger.active
  {
  }

  lemma CompletedIsVoidable(l: Ledger, id: string)
    requires id in l.active && l.table == EMPTY
    ensures Voidable(Complete(l, id, "", "", 0), id)
  {
    hide ReceiptText, Format;
  }

  lemma PaidOneCent(cfg: Config, id: string, currency: string)
    requires currency in cfg.supportedCurrencies && AmountCap(cfg) > 0
    ensures var s := Run(Initial(cfg), PayOneCent(id, currency));
            Voidable(s.ledger, id) && PhaseOf(s, 0) == PhaseOf(s, 1) == PhaseOf(s, 2) == Idle
  {
    hide Run, Undoings, LateRefunds, Begin, Continue, Advances, Complete, Voidable, Step, Create;
    var acts := PayOneCent(id, currency);
    var s1 := Step(Initial(cfg), acts[0]);
    var s2 := Begin(s1, 0, CompleteOp(id, "", "", 0));
    Created(cfg, id, currency);
    CompleteAlone(s1, 0, id, "", "", 0);
    CompletedIsVoidable(s1.ledger, id);
    CompleteStarts(s1, id);
    StepsAlone(s2, 0, 0, 2);
    StepsAlone(s2, 0, 1, 3);
    StepsAlone(s2, 0, 2, 4);
    StepsAlone(s2, 0, 3, 5);
    RunOfSix(Initial(cfg), acts, id);
    OthersStay(s2, 0, 4, 1);
    OthersStay(s2, 0, 4, 2);
  }

  lemma CompleteStarts(s: System, id: string)
    requires Ready(s, 0) && s.threads == map[] && s.steps == 1
    ensures var s' := Begin(s, 0, CompleteOp(id, "", "", 0));
            && Step(s, Start(0, CompleteOp(id, "", "", 0))) == Advances(s', 0, 0).(steps := 2)
            && PhaseOf(s', 1) == PhaseOf(s', 2) == Idle
  {
  }

  lemma RunOfSix(s: System, acts: seq<Action>, id: string)
    requires |acts| == 6
    ensures Run(s, acts) == Step(Step(Step(Step(Step(Step(s, acts[0]), acts[1]), acts[2]), acts[3]), acts[4]), acts[5])
  {
    hide Step, Run, Undoings, LateRefunds;
    NoStep(s, id);
    forall i | 0 <= i < 6 ensures Run(s, acts[..i + 1]) == Step(Run(s, acts[..i]), acts[i]) {
      OneMoreStep(s, acts[..i], acts[i], id);
      assert acts[..i] + [acts[i]] == acts[..i + 1];
    }
    assert acts[..0] == [] && acts[..6] == acts;
    assert Run(s, acts[..0 + 1]) == Step(Run(s, acts[..0]), acts[0]);
    assert Run(s, acts[..1 + 1]) == Step(Run(s, acts[..1]), acts[1]);
    assert Run(s, acts[..2 + 1]) == Step(Run(s, acts[..2]), acts[2]);
    assert Run(s, acts[..3 + 1]) == Step(Run(s, acts[..3]), acts[3]);
    assert Run(s, acts[..4 + 1]) == Step(Run(s, acts[..4]), acts[4]);
    assert Run(s, acts[..5 + 1]) == Step(Run(s, acts[..5]), acts[5]);
  }

  /** So the race is a run of a new terminal: one id, one payment, and three successes of void and refund. */
  lemma RaceIsReachable(cfg: Config, id: string, currency: string)
    requires currency in cfg.supportedCurrencies && AmountCap(cfg) > 0
    ensures Reachable(Run(Initial(cfg), PayOneCent(id, currency)))
    ensures Undoings(Run(Initial(cfg), PayOneCent(id, currency)), Race(id, 0, 1, 2, 0), id) == 3
  {
    hide Run, Undoings;
    PaidOneCent(cfg, id, currency);
    RefundsRace(Run(Initial(cfg), PayOneCent(id, currency)), id, 0, 1, 2, 0);
  }
}
