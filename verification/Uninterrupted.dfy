/** An operation whose steps no other thread interrupts has exactly the effect of its function on the ledger. */
module Uninterrupted {
  import opened Wrappers
  import opened Decimals
  import opened Domain
  import opened Tables
  import opened Ledgers
  import opened Interleavings

  /** n more steps of one thread. */
  function Advances(s: System, t: Tid, n: nat): System {
    if n == 0 then s else Continue(Advances(s, t, n - 1), t)
  }

  lemma Unrolled(s: System, t: Tid)
    ensures Advances(s, t, 1) == Continue(s, t)
    ensures Advances(s, t, 2) == Continue(Continue(s, t), t)
    ensures Advances(s, t, 3) == Continue(Continue(Continue(s, t), t), t)
    ensures Advances(s, t, 4) == Continue(Continue(Continue(Continue(s, t), t), t), t)
  {
    hide Continue;
    assert Advances(s, t, 0) == s;
  }

  /** A free mutex and an idle thread, as every operation finds and leaves them. */
  predicate Ready(s: System, t: Tid) {
    s.mutex == None && PhaseOf(s, t) == Idle
  }

  lemma CompleteAlone(s: System, t: Tid, id: string, confirmation: string, auth: string, now: Time)
    requires Ready(s, t)
    ensures var s' := Advances(Begin(s, t, CompleteOp(id, confirmation, auth, now)), t, 4);
            s'.ledger == Complete(s.ledger, id, confirmation, auth, now) && Ready(s', t)
  {
    hide MarkCompleted, RowOf, Format, LoadCounter, StampOpen, MaxStamp, Append, Advances;
    var s1 := Begin(s, t, CompleteOp(id, confirmation, auth, now));
    Unrolled(s1, t);
    var s2 := Continue(s1, t);
    var s3 := Continue(s2, t);
    if id in s.ledger.active {
      assert s2.ledger == MarkCompleted(s.ledger, id, confirmation, auth, now) && PhaseOf(s2, t) == CompleteInsert(id);
      MarkedStaysActive(s.ledger, id, confirmation, auth, now);
      if InsertSucceeds(s2.ledger, id) {
        assert s3.ledger == Insert(s2.ledger, id) && PhaseOf(s3, t) == CompletePersist(id);
        var s4 := Continue(s3, t);
        assert s4.ledger == PersistCounter(s3.ledger) && PhaseOf(s4, t) == CompleteDrop(id);
      } else {
        assert Ready(s3, t) && s3.ledger == s2.ledger;
      }
    } else {
      assert Ready(s2, t) && s2.ledger == s.ledger;
    }
  }

  lemma MarkedStaysActive(l: Ledger, id: string, confirmation: string, auth: string, now: Time)
    requires id in l.active
    ensures id in MarkCompleted(l, id, confirmation, auth, now).active
    ensures MarkCompleted(l, id, confirmation, auth, now).table == l.table
  {
  }

  lemma FailAlone(s: System, t: Tid, id: string, error: string, now: Time)
    requires Ready(s, t)
    ensures var s' := Advances(Begin(s, t, FailOp(id, error, now)), t, 3);
            s'.ledger == Fail(s.ledger, id, error, now) && Ready(s', t)
  {
    hide RowOf, Format, LoadCounter, StampOpen, MaxStamp, Append, Advances;
    var s1 := Begin(s, t, FailOp(id, error, now));
    Unrolled(s1, t);
    var s2 := Continue(s1, t);
    var s3 := Continue(s2, t);
    if id in s.ledger.active {
      assert s2.ledger == MarkFailed(s.ledger, id, error, now) && PhaseOf(s2, t) == FailInsert(id);
      if InsertSucceeds(s2.ledger, id) {
        assert s3.ledger == Insert(s2.ledger, id) && PhaseOf(s3, t) == FailDrop(id);
      } else {
        assert Ready(s3, t) && s3.ledger == s2.ledger;
      }
    } else {
      assert Ready(s2, t) && s2.ledger == s.ledger;
    }
  }

  lemma ZReportAlone(s: System, t: Tid)
    requires Ready(s, t)
    ensures var s' := Advances(Begin(s, t, ZReportOp), t, 4);
            && s'.ledger == CloseBatch(s.ledger) && Ready(s', t)
            && s'.issued == s.issued + [Issue(NextBatch(s.ledger), s.ledger.table, OpenIds(s.ledger.table))]
  {
    hide StampOpen, MaxStamp, LoadCounter, Format, Advances, OpenIds;
    var s1 := Begin(s, t, ZReportOp);
    Unrolled(s1, t);
    var s2 := Continue(s1, t);
    assert PhaseOf(s2, t) == ZSelectMax(s.ledger.table) && s2.ledger == s.ledger && s2.issued == s.issued;
    var s3 := Continue(s2, t);
    assert PhaseOf(s3, t) == ZUpdate(s.ledger.table, NextBatch(s.ledger)) && s3.ledger == s.ledger
        && s3.issued == s.issued;
    var s4 := Continue(s3, t);
    assert PhaseOf(s4, t) == ZRelease && s4.ledger == CloseBatch(s.ledger);
  }

  lemma VoidAlone(s: System, t: Tid, id: string, now: Time)
    requires Ready(s, t)
    ensures var s' := Advances(Begin(s, t, VoidOp(id, now)), t, 1);
            && s'.ledger == Void(s.ledger, id, now) && Ready(s', t)
            && s'.voided == s.voided + (if Voidable(s.ledger, id) then [id] else [])
  {
    hide StampOpen, MaxStamp, LoadCounter, Format, Advances;
    var s1 := Begin(s, t, VoidOp(id, now));
    Unrolled(s1, t);
    assert PhaseOf(s1, t) == if Voidable(s.ledger, id) then VoidFetch(id) else Idle;
  }

  lemma RefundAlone(s: System, t: Tid, id: string, amount: uint32, now: Time)
    requires Ready(s, t)
    ensures var s' := Advances(Begin(s, t, RefundOp(id, amount, now)), t, 2);
            s'.ledger == Refund(s.ledger, id, amount, now) && Ready(s', t)
  {
    hide StampOpen, MaxStamp, LoadCounter, Format, Advances;
    var s1 := Begin(s, t, RefundOp(id, amount, now));
    Unrolled(s1, t);
    var s2 := Continue(s1, t);
    if Refundable(s.ledger, id, amount) {
      assert PhaseOf(s2, t) == RefundFetch(id) && s2.ledger == StoreRefund(s.ledger, id, now);
    } else {
      assert s1 == s && s2 == s;
    }
  }
}
