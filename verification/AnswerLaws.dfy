/**
 * What a success reply is worth with threads interleaving. processPayment ignores the error of CompleteTransaction and
 * answers 00 from the row it then reads, so the reply is right exactly when that row has not failed.
 */
module AnswerLaws {
  import opened Wrappers
  import opened Domain
  import opened Tables
  import opened Ledgers
  import opened Interleavings
  import opened InterleavingSteps
  import opened InterleavingLaws
  import opened Uninterrupted
  import opened UndoLaws

  predicate RowFailed(l: Ledger, id: string) {
    id in l.table.rows && l.table.rows[id].state == Failed
  }

  /** The thread is inside Complete of the id; `failed` says whether the row had failed when it took the mutex. */
  predicate Completing(s: System, t: Tid, id: string, failed: bool) {
    match PhaseOf(s, t)
    case CompleteMark(x, _, _, _) => x == id && Known(s, id) && RowFailed(s.ledger, id) == failed
    case CompleteInsert(x) => x == id && RowFailed(s.ledger, id) == failed
    case CompletePersist(x) => x == id && id in s.ledger.table.rows && !RowFailed(s.ledger, id) && !failed
    case CompleteDrop(x) => x == id && id in s.ledger.table.rows && !RowFailed(s.ledger, id) && !failed
    case _ => false
  }

  /** Complete has returned. */
  predicate Returned(s: System, id: string, failed: bool) {
    id in s.ledger.table.rows && RowFailed(s.ledger, id) == failed
  }

  lemma FailureIsStable(t: Table, t': Table, id: string)
    requires Evolves(t, t') && id in t.rows
    ensures id in t'.rows && (t'.rows[id].state == Failed <==> t.rows[id].state == Failed)
  {
    assert RowEvolves(t.rows[id], t'.rows[id]);
  }

  /** While one thread has the mutex no other adds a row or moves it on. */
  lemma OthersAddNoRow(s: System, t: Tid, a: Action)
    requires Inv(s) && s.mutex == Some(t) && a != Advance(t)
    ensures Effect(s, a).ledger.table.rows.Keys == s.ledger.table.rows.Keys
    ensures PhaseOf(Effect(s, a), t) == PhaseOf(s, t)
  {
    hide BatchesOk, ReceiptsOk, VoidsOk, LockFreeOk, TableOk, HolderOk, Begin, Continue;
    match a
    case Start(u, op) => if PhaseOf(s, u) == Idle { BeginAddsNoRow(s, t, u, op); }
    case Advance(u) =>
      assert !HoldsMutex(PhaseOf(s, u));
      FreeStepAddsNoRow(s, t, u);
    case RestartTerminal =>
  }

  lemma BeginAddsNoRow(s: System, t: Tid, u: Tid, op: Op)
    requires s.mutex == Some(t) && u != t
    ensures Begin(s, u, op).ledger.table.rows.Keys == s.ledger.table.rows.Keys
    ensures PhaseOf(Begin(s, u, op), t) == PhaseOf(s, t)
  {
    hide CheckNew;
  }

  lemma FreeStepAddsNoRow(s: System, t: Tid, u: Tid)
    requires !HoldsMutex(PhaseOf(s, u)) && u != t
    ensures Continue(s, u).ledger.table.rows.Keys == s.ledger.table.rows.Keys
    ensures PhaseOf(Continue(s, u), t) == PhaseOf(s, t)
  {
    hide Insert, MarkCompleted, MarkFailed, PersistCounter, StampOpen, MaxStamp;
  }

  /** A step of the completing thread itself. */
  lemma OwnStep(s: System, t: Tid, id: string, failed: bool)
    requires Inv(s) && Completing(s, t, id, failed)
    ensures Completing(Continue(s, t), t, id, failed) || Returned(Continue(s, t), id, failed)
  {
    hide BatchesOk, ReceiptsOk, VoidsOk, LockFreeOk, TableOk, StampOpen, MaxStamp, MarkCompleted, Insert,
         PersistCounter;
    assert s.mutex == Some(t);
    match PhaseOf(s, t)
    case CompleteMark(_, confirmation, auth, now) =>
      if id in s.ledger.active { MarkKeepsKnown(s.ledger, id, confirmation, auth, "", now, id); }
    case CompleteInsert(_) => InsertIsCompleted(s.ledger, id);
    case CompletePersist(_) => PersistKeepsKnown(s.ledger);
    case CompleteDrop(_) =>
  }

  lemma InsertIsCompleted(l: Ledger, id: string)
    requires id in l.active && l.active[id].state == PaymentCompleted
    ensures InsertSucceeds(l, id) ==> id in Insert(l, id).table.rows && !RowFailed(Insert(l, id), id)
  {
  }

  lemma AnyStep(s: System, a: Action, t: Tid, id: string, failed: bool)
    requires Inv(s) && s.steps < LONGEST_RUN
    requires Completing(s, t, id, failed) || Returned(s, id, failed)
    ensures Completing(Step(s, a), t, id, failed) || Returned(Step(s, a), id, failed)
  {
    hide PartsOk, Begin, Continue, Effect, Evolves;
    StepKeeps(s, a);
    if id in s.ledger.table.rows {
      FailureIsStable(s.ledger.table, Step(s, a).ledger.table, id);
    }
    if !Returned(s, id, failed) {
      assert s.mutex == Some(t) by { CompletingHolds(s, t, id, failed); }
      if a == Advance(t) {
        OwnStep(s, t, id, failed);
        AdvanceContinues(s, t);
      } else {
        OthersAddNoRow(s, t, a);
        if Known(s, id) {
          assert !a.RestartTerminal? ==> Known(Effect(s, a), id) by { if !a.RestartTerminal? { StaysKnown(s, a, id); } }
          RestartWaits(s, t, a);
        }
      }
    }
  }

  lemma CompletingHolds(s: System, t: Tid, id: string, failed: bool)
    requires Inv(s) && Completing(s, t, id, failed)
    ensures s.mutex == Some(t)
  {
    hide BatchesOk, ReceiptsOk, VoidsOk, LockFreeOk, TableOk, HolderOk;
  }

  lemma AdvanceContinues(s: System, t: Tid)
    ensures Effect(s, Advance(t)) == Continue(s, t)
  {
    hide Continue;
  }

  lemma RestartWaits(s: System, t: Tid, a: Action)
    requires s.mutex == Some(t)
    ensures a.RestartTerminal? ==> Effect(s, a) == s
  {
  }

  lemma {:induction false} RunCompletes(s: System, actions: seq<Action>, t: Tid, id: string, failed: bool)
    requires Inv(s) && s.steps + |actions| <= LONGEST_RUN
    requires Completing(s, t, id, failed) || Returned(s, id, failed)
    ensures Completing(Run(s, actions), t, id, failed) || Returned(Run(s, actions), id, failed)
    decreases |actions|
  {
    hide Inv, Step, Completing, Returned;
    if actions != [] {
      var front := actions[..|actions| - 1];
      RunCompletes(s, front, t, id, failed);
      RunKeeps(s, front);
      AnyStep(Run(s, front), actions[|actions| - 1], t, id, failed);
    }
  }

  lemma RowIsSettledOrFailed(s: System, id: string)
    requires Inv(s) && id in s.ledger.table.rows
    ensures s.ledger.table.rows[id].state in SETTLED <==> s.ledger.table.rows[id].state != Failed
  {
    hide BatchesOk, ReceiptsOk, VoidsOk, LockFreeOk, HolderOk, MutexOk;
  }

  /**
   * Under any interleaving, once a Complete that a handler called has returned, and the handler answers 00, the row of
   * its id is a settled one if and only if the row had not failed when that Complete took the mutex.
   */
  lemma SuccessReplyIsRight(s: System, t: Tid, id: string, actions: seq<Action>)
    requires Reachable(s) && s.steps + |actions| <= LONGEST_RUN && Known(s, id)
    requires PhaseOf(s, t).CompleteMark? && PhaseOf(s, t).id == id && PhaseOf(Run(s, actions), t) == Idle
    ensures var rows := Run(s, actions).ledger.table.rows;
            id in rows && (rows[id].state in SETTLED <==> !RowFailed(s.ledger, id))
  {
    hide Inv, Run, Reachable;
    ReachableOk(s);
    RunKeeps(s, actions);
    RunCompletes(s, actions, t, id, RowFailed(s.ledger, id));
    RowIsSettledOrFailed(Run(s, actions), id);
  }

  // ---------- The schedule in which it is wrong ----------

  /**
   * One handler's decline is stored after another handler of the same id has found it active, and before its Complete.
   */
  function DeclineOvertakes(id: string, currency: string): seq<Action> {
    [Start(0, CreateOp(id, 1, currency, 0)), Start(0, FailOp(id, "", 0)), Advance(0), Advance(0), Advance(0),
     Start(1, CompleteOp(id, "", "", 0))]
  }

  lemma FailedRow(l: Ledger, id: string)
    requires id in l.active && l.table == EMPTY
    ensures RowFailed(Fail(l, id, "", 0), id)
  {
    hide LastFour, InSeconds;
  }

  lemma FailStarts(s: System, id: string)
    requires Ready(s, 0) && s.threads == map[] && s.steps == 1
    ensures var s' := Begin(s, 0, FailOp(id, "", 0));
            && Step(s, Start(0, FailOp(id, "", 0))) == Advances(s', 0, 0).(steps := 2)
            && PhaseOf(s', 1) == Idle
  {
  }

  lemma CompleteLocks(s: System, id: string)
    requires s.mutex == None && PhaseOf(s, 1) == Idle
    ensures var s' := Step(s, Start(1, CompleteOp(id, "", "", 0)));
            s'.ledger == s.ledger && PhaseOf(s', 1) == CompleteMark(id, "", "", 0)
  {
  }

  /** A new terminal reaches it with an id never used before: the payment is answered 00 and its row is FAILED. */
  lemma SuccessOverFailedRow(cfg: Config, id: string, currency: string)
    requires currency in cfg.supportedCurrencies && AmountCap(cfg) > 0
    ensures var s := Run(Initial(cfg), DeclineOvertakes(id, currency));
            && Reachable(s) && Known(s, id) && PhaseOf(s, 1) == CompleteMark(id, "", "", 0) && RowFailed(s.ledger, id)
  {
    hide Run, Begin, Continue, Advances, Fail, Step, Create, RowFailed;
    var acts := DeclineOvertakes(id, currency);
    var s1 := Step(Initial(cfg), acts[0]);
    var s2 := Begin(s1, 0, FailOp(id, "", 0));
    Created(cfg, id, currency);
    FailAlone(s1, 0, id, "", 0);
    FailedRow(s1.ledger, id);
    FailStarts(s1, id);
    StepsAlone(s2, 0, 0, 2);
    StepsAlone(s2, 0, 1, 3);
    StepsAlone(s2, 0, 2, 4);
    OthersStay(s2, 0, 3, 1);
    RunOfSix(Initial(cfg), acts, id);
    CompleteLocks(Advances(s2, 0, 3).(steps := 5), id);
    assert RowFailed(Run(Initial(cfg), acts).ledger, id) ==> Known(Run(Initial(cfg), acts), id) by {
      FailedIsKnown(Run(Initial(cfg), acts), id);
    }
  }

  lemma FailedIsKnown(s: System, id: string)
    ensures RowFailed(s.ledger, id) ==> Known(s, id)
  {
  }
}
