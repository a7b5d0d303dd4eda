/** Every step of every interleaving keeps the invariant and only moves the table forward. */
module InterleavingSteps {
  import opened Wrappers
  import opened Decimals
  import opened Domain
  import opened Tables
  import opened Ledgers
  import opened Interleavings

  // ---------- Stamps and their maximum ----------

  lemma {:induction false} SameStampsSameMax(t: Table, t': Table, n: nat)
    requires n <= |t.order| <= |t'.order| && t.order[..n] == t'.order[..n]
    requires forall i :: 0 <= i < n ==> t.order[i] in t.rows && t.order[i] in t'.rows
                                        && t.rows[t.order[i]].zReportId == t'.rows[t.order[i]].zReportId
    ensures MaxStampFirst(t, n) == MaxStampFirst(t', n)
  {
    if n > 0 {
      assert t.order[..n - 1] == t.order[..n][..n - 1] == t'.order[..n][..n - 1] == t'.order[..n - 1];
      SameStampsSameMax(t, t', n - 1);
      assert t.order[n - 1] == t.order[..n][n - 1] == t'.order[..n][n - 1] == t'.order[n - 1];
    }
  }

  /** A change that touches no stamp, and adds no stamped row, leaves the account of the Z-reports in order. */
  lemma UnstampedChangeKeepsBatches(t: Table, t': Table, issued: seq<Issue>)
    requires BatchesOk(t, issued) && Evolves(t, t') && MaxStamp(t') == MaxStamp(t)
    requires forall id :: id in t.rows ==> id in t'.rows && t'.rows[id].zReportId == t.rows[id].zReportId
    requires forall id :: id in t'.rows && id !in t.rows ==> t'.rows[id].zReportId == 0
    ensures BatchesOk(t', issued)
  {
    hide MaxStamp;
    forall k | 1 <= k <= MaxStamp(t') ensures HasStamp(t', k) {
      assert HasStamp(t, k);
      var id :| id in t.rows && t.rows[id].zReportId == k;
      assert t'.rows[id].zReportId == k;
    }
    forall i | 0 <= i < |issued| ensures IssueOk(t', issued[i]) {
      assert IssueOk(t, issued[i]);
      EvolvesTransitively(issued[i].seen, t, t');
    }
  }

  // ---------- UPDATE of one row ----------

  ghost predicate GoodPut(t: Table, id: string, r: Row) {
    id in t.rows && RowEvolves(t.rows[id], r) && r.zReportId == t.rows[id].zReportId
  }

  lemma PutEvolves(t: Table, id: string, r: Row)
    requires WellFormed(t) && GoodPut(t, id, r)
    ensures WellFormed(Put(t, id, r)) && Evolves(t, Put(t, id, r)) && MaxStamp(Put(t, id, r)) == MaxStamp(t)
  {
    assert forall i :: 0 <= i < |t.order| ==> t.order[i] in t.order;
    SameStampsSameMax(t, Put(t, id, r), |t.order|);
  }

  lemma PutKeepsReceipts(l: Ledger, id: string, r: Row, holder: Phase)
    requires GoodPut(l.table, id, r) && ReceiptsOk(l, holder)
    ensures ReceiptsOk(l.(table := Put(l.table, id, r)), holder)
  {
  }

  lemma PutKeepsSameBatch(seen: Table, t: Table, id: string, r: Row)
    requires WellFormed(t) && GoodPut(t, id, r) && SameBatch(seen, t)
    ensures SameBatch(seen, Put(t, id, r))
  {
    hide MaxStamp;
    var t' := Put(t, id, r);
    forall id' | id' in seen.rows ensures id' in t'.rows && RowEvolves(seen.rows[id'], t'.rows[id']) {
      assert RowEvolves(seen.rows[id'], t.rows[id']);
    }
  }

  lemma PutKeepsHolder(l: Ledger, id: string, r: Row, holder: Phase)
    requires WellFormed(l.table) && GoodPut(l.table, id, r) && HolderOk(l, holder)
    ensures HolderOk(l.(table := Put(l.table, id, r)), holder)
  {
    hide MaxStamp, SameBatch, WellFormed, Evolves;
    PutEvolves(l.table, id, r);
    if holder.ZSelectMax? || holder.ZUpdate? {
      PutKeepsSameBatch(holder.seen, l.table, id, r);
    }
  }

  /** Void's, Refund's and SetCachedResponse's UPDATE, whatever the thread with the mutex is doing. */
  lemma PutStep(s: System, id: string, r: Row, s': System)
    requires PartsOk(s) && GoodPut(s.ledger.table, id, r)
    requires s' ==
             s.(ledger := s.ledger.(table := Put(s.ledger.table, id, r)), threads := s'.threads, voided := s'.voided)
    requires HolderPhase(s') == HolderPhase(s) && MutexOk(s') && LockFreeOk(s') && VoidsOk(s')
    ensures PartsOk(s') && Evolves(s.ledger.table, s'.ledger.table)
  {
    hide BatchesOk, ReceiptsOk, HolderOk, MutexOk, LockFreeOk, VoidsOk, MaxStamp, WellFormed;
    PutEvolves(s.ledger.table, id, r);
    UnstampedChangeKeepsBatches(s.ledger.table, s'.ledger.table, s.issued);
    PutKeepsReceipts(s.ledger, id, r, HolderPhase(s));
    PutKeepsHolder(s.ledger, id, r, HolderPhase(s));
  }

  // ---------- INSERT ----------

  lemma AppendKeepsMax(t: Table, id: string, r: Row)
    requires WellFormed(t) && id !in t.rows && r.zReportId == 0
    ensures MaxStamp(Append(t, id, r)) == MaxStamp(t)
  {
    var t' := Append(t, id, r);
    assert forall i :: 0 <= i < |t.order| ==> t.order[i] in t.order;
    assert t'.order[..|t.order|] == t.order[..|t.order|];
    SameStampsSameMax(t, t', |t.order|);
  }

  lemma AppendKeepsReceiptOrder(t: Table, id: string, r: Row)
    requires WellFormed(t) && id !in t.rows && ReceiptsIncrease(t)
    requires r.fixed.receipt == "" || forall id' :: id' in t.rows ==> ReceiptAt(t, id') < ReceiptNumber(r.fixed.receipt)
    ensures ReceiptsIncrease(Append(t, id, r))
  {
    hide ReceiptNumber;
    var t' := Append(t, id, r);
    forall i | 0 <= i < |t.order| ensures t'.order[i] == t.order[i] && t.order[i] in t.rows && t'.order[i] != id {
      assert t.order[i] in t.order;
    }
  }

  // ---------- The Z-report's UPDATE ----------

  lemma StampKeepsContiguous(t: Table)
    requires WellFormed(t) && StampsContiguous(t)
    ensures StampsContiguous(StampOpen(t, MaxStamp(t) + 1))
  {
    hide MaxStamp;
    StampMax(t);
    var t' := StampOpen(t, MaxStamp(t) + 1);
    forall k | 1 <= k <= MaxStamp(t') ensures HasStamp(t', k) {
      if k <= MaxStamp(t) {
        assert HasStamp(t, k);
        var id :| id in t.rows && t.rows[id].zReportId == k;
        assert t'.rows[id].zReportId == k;
      } else {
        var id :| id in OpenIds(t);
        assert t'.rows[id].zReportId == k;
      }
    }
  }

  lemma SameBatchSameOpen(seen: Table, t: Table)
    requires SameBatch(seen, t)
    ensures OpenIds(seen) == OpenIds(t)
  {
  }

  lemma StampKeepsIssue(t: Table, issue: Issue)
    requires WellFormed(t) && IssueOk(t, issue)
    ensures IssueOk(StampOpen(t, MaxStamp(t) + 1), issue)
  {
    hide MaxStamp, WellFormed;
    StampEvolves(t, MaxStamp(t) + 1);
    EvolvesTransitively(issue.seen, t, StampOpen(t, MaxStamp(t) + 1));
  }

  lemma NewIssueOk(t: Table, seen: Table)
    requires SameBatch(seen, t) && WellFormed(t)
    ensures IssueOk(StampOpen(t, MaxStamp(t) + 1), Issue(MaxStamp(t) + 1, seen, OpenIds(t)))
  {
    hide MaxStamp, WellFormed;
    SameBatchSameOpen(seen, t);
    StampEvolves(t, MaxStamp(t) + 1);
    EvolvesTransitively(seen, t, StampOpen(t, MaxStamp(t) + 1));
  }

  lemma StampedOnceMore(t: Table, issued: seq<Issue>, issue: Issue)
    requires StampedOnce(issued) && issue.stamped == OpenIds(t)
    requires forall i :: 0 <= i < |issued| ==> IssueOk(t, issued[i])
    ensures StampedOnce(issued + [issue])
  {
    hide WellFormed;
    var more := issued + [issue];
    forall i, j, id | 0 <= i < j < |more| && id in more[i].stamped ensures id !in more[j].stamped {
      assert IssueOk(t, issued[i]);
    }
  }

  lemma NumbersGrow(issued: seq<Issue>, issue: Issue)
    requires NumbersOk(issued) && issue.number == NextNumber(issued)
    ensures NumbersOk(issued + [issue])
  {
    var more := issued + [issue];
    assert more[..|issued|] == issued;
    assert forall i :: 0 <= i < |issued| ==> more[i] == issued[i] && more[..i] == issued[..i];
  }

  lemma EveryStampIsAccounted(t: Table, n: nat, issued: seq<Issue>, issue: Issue)
    requires issue.stamped == OpenIds(t)
    requires forall id :: id in t.rows && t.rows[id].zReportId != 0 ==> StampedBy(issued, id)
    ensures forall id :: id in StampOpen(t, n).rows ==> StampedBy(issued + [issue], id)
  {
    var more := issued + [issue];
    forall id | id in t.rows ensures StampedBy(more, id) {
      if t.rows[id].zReportId == 0 {
        assert id in more[|issued|].stamped;
      } else {
        assert StampedBy(issued, id);
        var i :| 0 <= i < |issued| && id in issued[i].stamped;
        assert id in more[i].stamped;
      }
    }
  }

  lemma EveryIssueOk(t: Table, seen: Table, issued: seq<Issue>, i: nat)
    requires WellFormed(t) && SameBatch(seen, t) && i <= |issued|
    requires forall j :: 0 <= j < |issued| ==> IssueOk(t, issued[j])
    ensures var n := MaxStamp(t) + 1;
            IssueOk(StampOpen(t, n), (issued + [Issue(n, seen, OpenIds(t))])[i])
  {
    hide MaxStamp, IssueOk, WellFormed, SameBatch, OpenIds, StampOpen;
    if i < |issued| {
      StampKeepsIssue(t, issued[i]);
    } else {
      NewIssueOk(t, seen);
    }
  }

  lemma StampKeepsBatches(t: Table, seen: Table, issued: seq<Issue>)
    requires WellFormed(t) && BatchesOk(t, issued) && SameBatch(seen, t)
    ensures BatchesOk(StampOpen(t, MaxStamp(t) + 1), issued + [Issue(MaxStamp(t) + 1, seen, OpenIds(t))])
  {
    hide MaxStamp, IssueOk, WellFormed, SameBatch, StampsContiguous, StampedOnce, StampedBy, NumbersOk, StampOpen;
    var n := MaxStamp(t) + 1;
    var issue := Issue(n, seen, OpenIds(t));
    var more := issued + [issue];
    StampMax(t);
    StampKeepsContiguous(t);
    NumbersGrow(issued, issue);
    StampedOnceMore(t, issued, issue);
    EveryStampIsAccounted(t, n, issued, issue);
    forall i | 0 <= i < |more| ensures IssueOk(StampOpen(t, n), more[i]) {
      EveryIssueOk(t, seen, issued, i);
    }
  }

  // ---------- Threads and the mutex ----------

  /** The thread with the mutex moves on inside its critical section. */
  lemma HolderMoves(s: System, t: Tid, p: Phase, l: Ledger)
    requires PartsOk(s) && s.mutex == Some(t) && HoldsMutex(p) && Evolves(s.ledger.table, l.table)
    ensures var s' := Goto(s, t, p).(ledger := l);
            MutexOk(s') && LockFreeOk(s') && VoidsOk(s') && HolderPhase(s') == p
  {
    hide BatchesOk, ReceiptsOk, HolderOk, TableOk, LockFreeOk, VoidsOk, Evolves;
    LockFreeEvolves(s, Goto(s, t, p).(ledger := l), t);
    VoidsEvolve(s, Goto(s, t, p).(ledger := l));
  }

  /** Rows that only evolve keep what the threads inside Void and Refund rely on. */
  lemma LockFreeEvolves(s: System, s': System, t: Tid)
    requires LockFreeOk(s) && Evolves(s.ledger.table, s'.ledger.table)
    requires s'.threads == s.threads[t := PhaseOf(s', t)] && (HoldsMutex(PhaseOf(s', t)) || PhaseOf(s', t) == Idle)
    ensures LockFreeOk(s')
  {
    assert forall id :: id in s.ledger.table.rows ==> RowEvolves(s.ledger.table.rows[id], s'.ledger.table.rows[id]);
    assert forall u :: u in s'.threads ==> u == t || (u in s.threads && s'.threads[u] == s.threads[u]);
  }

  lemma VoidsEvolve(s: System, s': System)
    requires VoidsOk(s) && s'.voided == s.voided && Evolves(s.ledger.table, s'.ledger.table)
    ensures VoidsOk(s')
  {
    assert forall id :: id in s.ledger.table.rows ==> RowEvolves(s.ledger.table.rows[id], s'.ledger.table.rows[id]);
  }

  /** The thread with the mutex releases it. */
  lemma HolderLeaves(s: System, t: Tid, l: Ledger)
    requires PartsOk(s) && s.mutex == Some(t) && Evolves(s.ledger.table, l.table)
    ensures var s' := Unlock(s, t).(ledger := l);
            MutexOk(s') && LockFreeOk(s') && VoidsOk(s') && HolderPhase(s') == Idle
  {
    hide BatchesOk, ReceiptsOk, HolderOk, TableOk, LockFreeOk, VoidsOk, Evolves;
    LockFreeEvolves(s, Unlock(s, t).(ledger := l), t);
    VoidsEvolve(s, Unlock(s, t).(ledger := l));
  }

  /** An idle thread takes the free mutex. */
  lemma LockStep(s: System, t: Tid, p: Phase)
    requires PartsOk(s) && PhaseOf(s, t) == Idle && (p.CompleteMark? || p.FailMark? || p.ZSelect?)
    ensures PartsOk(Lock(s, t, p))
  {
    hide BatchesOk, ReceiptsAtMost, ReceiptsIncrease, TableOk;
  }

  /** A single change to the active transactions under the mutex. */
  lemma InMemoryStep(s: System, l: Ledger)
    requires PartsOk(s) && l == s.ledger.(active := l.active)
    requires forall id :: id in l.active ==>
               && l.active[id].id == id && l.active[id].amount <= AmountCap(s.cfg)
               && (l.active[id].receipt != "" ==>
                   id in s.ledger.active && s.ledger.active[id].receipt == l.active[id].receipt)
    ensures PartsOk(InMemory(s, l))
  {
    hide BatchesOk, ReceiptsAtMost, ReceiptsIncrease, WellFormed;
  }

  // ---------- Complete and Fail ----------

  /** The changes in memory keep what the ledger and the thread with the mutex promise. */
  lemma MarkCompletedKeeps(cfg: Config, l: Ledger, p: Phase)
    requires TableOk(cfg, l) && ReceiptsOk(l, p) && p.CompleteMark? && p.id in l.active && l.counter < TWO64 - 1
    ensures var l' := MarkCompleted(l, p.id, p.confirmation, p.auth, p.now);
            TableOk(cfg, l') && ReceiptsOk(l', CompleteInsert(p.id)) && HolderOk(l', CompleteInsert(p.id))
  {
    hide WellFormed, ReceiptsAtMost, ReceiptsIncrease, LoadCounter, ReceiptText, SameBatch;
  }

  lemma MarkFailedKeeps(cfg: Config, l: Ledger, p: Phase)
    requires TableOk(cfg, l) && ReceiptsOk(l, p) && p.FailMark? && p.id in l.active
    ensures var l' := MarkFailed(l, p.id, p.error, p.now);
            TableOk(cfg, l') && ReceiptsOk(l', FailInsert(p.id)) && HolderOk(l', FailInsert(p.id))
  {
    hide WellFormed, ReceiptsAtMost, ReceiptsIncrease, LoadCounter, ReceiptText, SameBatch;
  }

  /** The thread with the mutex finds no active transaction. */
  lemma NothingToMark(s: System, t: Tid)
    requires PartsOk(s) && s.mutex == Some(t) && (PhaseOf(s, t).CompleteMark? || PhaseOf(s, t).FailMark?)
    ensures PartsOk(Unlock(s, t))
  {
    hide BatchesOk, TableOk, MutexOk, LockFreeOk, VoidsOk, Evolves, ReceiptsAtMost, ReceiptsIncrease, LoadCounter,
         SameBatch;
    EvolvesToItself(s.ledger.table);
    HolderLeaves(s, t, s.ledger);
  }

  lemma CompleteMarkStep(s: System, t: Tid)
    requires PartsOk(s) && s.mutex == Some(t) && PhaseOf(s, t).CompleteMark? && s.ledger.counter < TWO64 - 1
    ensures PartsOk(Continue(s, t)) && s.ledger.table == Continue(s, t).ledger.table
  {
    hide BatchesOk, ReceiptsOk, TableOk, HolderOk, MutexOk, LockFreeOk, VoidsOk, Evolves, ReceiptText;
    EvolvesToItself(s.ledger.table);
    var p := PhaseOf(s, t);
    if p.id in s.ledger.active {
      MarkCompletedKeeps(s.cfg, s.ledger, p);
      HolderMoves(s, t, CompleteInsert(p.id), MarkCompleted(s.ledger, p.id, p.confirmation, p.auth, p.now));
    } else {
      NothingToMark(s, t);
    }
  }

  lemma FailMarkStep(s: System, t: Tid)
    requires PartsOk(s) && s.mutex == Some(t) && PhaseOf(s, t).FailMark?
    ensures PartsOk(Continue(s, t)) && s.ledger.table == Continue(s, t).ledger.table
  {
    hide BatchesOk, ReceiptsOk, TableOk, HolderOk, MutexOk, LockFreeOk, VoidsOk, Evolves;
    EvolvesToItself(s.ledger.table);
    var p := PhaseOf(s, t);
    if p.id in s.ledger.active {
      MarkFailedKeeps(s.cfg, s.ledger, p);
      HolderMoves(s, t, FailInsert(p.id), MarkFailed(s.ledger, p.id, p.error, p.now));
    } else {
      NothingToMark(s, t);
    }
  }

  ghost predicate MayInsert(l: Ledger, id: string, holder: Phase) {
    && id in l.active && InsertSucceeds(l, id)
    && (holder == CompleteInsert(id) || holder == FailInsert(id))
    && HolderOk(l, holder)
  }

  function AfterInsert(id: string, holder: Phase): Phase {
    if holder.CompleteInsert? then CompletePersist(id) else FailDrop(id)
  }

  lemma InsertKeepsTable(cfg: Config, l: Ledger, id: string, holder: Phase)
    requires TableOk(cfg, l) && ReceiptsOk(l, holder) && MayInsert(l, id, holder)
    ensures TableOk(cfg, Insert(l, id))
  {
    hide LoadCounter, ReceiptsIncrease, ReceiptsAtMost, ReceiptText, WellFormed, Evolves, LastFour;
    ReceiptNumberOfText(l.counter);
    AppendIsWellFormed(l.table, id, RowOf(l.active[id]));
  }

  lemma InsertKeepsReceipts(cfg: Config, l: Ledger, id: string, holder: Phase)
    requires TableOk(cfg, l) && ReceiptsOk(l, holder) && MayInsert(l, id, holder)
    ensures ReceiptsOk(Insert(l, id), AfterInsert(id, holder))
  {
    hide LoadCounter, ReceiptsIncrease, ReceiptText, WellFormed;
    ReceiptNumberOfText(l.counter);
    AppendKeepsReceiptOrder(l.table, id, RowOf(l.active[id]));
  }

  /** Complete's or Fail's INSERT when the key is free. */
  lemma InsertStep(s: System, t: Tid, id: string)
    requires PartsOk(s) && s.mutex == Some(t) && MayInsert(s.ledger, id, PhaseOf(s, t))
    ensures PartsOk(Continue(s, t)) && Evolves(s.ledger.table, Continue(s, t).ledger.table)
  {
    hide BatchesOk, TableOk, ReceiptsOk, MutexOk, LockFreeOk, VoidsOk, MaxStamp;
    var l := s.ledger;
    var r := RowOf(l.active[id]);
    assert WellFormed(l.table) && r.fixed.id == id by { TableGives(s.cfg, l, id); }
    AppendIsWellFormed(l.table, id, r);
    AppendKeepsMax(l.table, id, r);
    AppendKeepsBatches(l.table, id, r, s.issued);
    InsertKeepsTable(s.cfg, l, id, PhaseOf(s, t));
    InsertKeepsReceipts(s.cfg, l, id, PhaseOf(s, t));
    HolderMoves(s, t, AfterInsert(id, PhaseOf(s, t)), Insert(l, id));
  }

  lemma TableGives(cfg: Config, l: Ledger, id: string)
    requires TableOk(cfg, l) && id in l.active
    ensures WellFormed(l.table) && l.active[id].id == id
  {
  }

  lemma AppendKeepsBatches(t: Table, id: string, r: Row, issued: seq<Issue>)
    requires BatchesOk(t, issued) && MaxStamp(Append(t, id, r)) == MaxStamp(t) && id !in t.rows && r.zReportId == 0
    requires Evolves(t, Append(t, id, r))
    ensures BatchesOk(Append(t, id, r), issued)
  {
    hide MaxStamp, BatchesOk;
    UnstampedChangeKeepsBatches(t, Append(t, id, r), issued);
  }

  /** The INSERT meets an existing key: nothing is stored and the mutex is released. */
  lemma InsertFailsStep(s: System, t: Tid, id: string)
    requires PartsOk(s) && s.mutex == Some(t) && !(id in s.ledger.active && InsertSucceeds(s.ledger, id))
    requires PhaseOf(s, t) == CompleteInsert(id) || PhaseOf(s, t) == FailInsert(id)
    ensures PartsOk(Unlock(s, t))
  {
    hide BatchesOk, WellFormed, MutexOk, LockFreeOk, VoidsOk, Evolves, LoadCounter, ReceiptText, ReceiptsIncrease,
         ReceiptsAtMost;
    EvolvesToItself(s.ledger.table);
    HolderLeaves(s, t, s.ledger);
  }

  lemma PersistedCounterLoads(l: Ledger)
    ensures LoadCounter(PersistCounter(l).metadata) == l.counter
  {
    ScanFormat(l.counter);
  }

  lemma PersistStep(s: System, t: Tid, id: string)
    requires PartsOk(s) && s.mutex == Some(t) && PhaseOf(s, t) == CompletePersist(id)
    ensures PartsOk(Continue(s, t)) && s.ledger.table == Continue(s, t).ledger.table
  {
    hide BatchesOk, WellFormed, MutexOk, LockFreeOk, VoidsOk, Evolves, LoadCounter, ReceiptsIncrease, ReceiptsAtMost;
    EvolvesToItself(s.ledger.table);
    PersistedCounterLoads(s.ledger);
    HolderMoves(s, t, CompleteDrop(id), PersistCounter(s.ledger));
  }

  lemma DropStep(s: System, t: Tid, id: string)
    requires PartsOk(s) && s.mutex == Some(t) && (PhaseOf(s, t) == CompleteDrop(id) || PhaseOf(s, t) == FailDrop(id))
    ensures PartsOk(Continue(s, t)) && s.ledger.table == Continue(s, t).ledger.table
  {
    hide BatchesOk, WellFormed, MutexOk, LockFreeOk, VoidsOk, Evolves, LoadCounter, ReceiptsIncrease, ReceiptsAtMost;
    EvolvesToItself(s.ledger.table);
    HolderLeaves(s, t, DropActive(s.ledger, id));
  }

  // ---------- Z-report ----------

  lemma ZReadStep(s: System, t: Tid)
    requires PartsOk(s) && s.mutex == Some(t)
    requires PhaseOf(s, t).ZSelect? || PhaseOf(s, t).ZSelectMax? || PhaseOf(s, t).ZRelease?
    ensures PartsOk(Continue(s, t)) && s.ledger.table == Continue(s, t).ledger.table
  {
    hide BatchesOk, MutexOk, LockFreeOk, VoidsOk, LoadCounter, ReceiptsIncrease, ReceiptsAtMost, MaxStamp;
    EvolvesToItself(s.ledger.table);
    var p := PhaseOf(s, t);
    match p
    case ZSelect => HolderMoves(s, t, ZSelectMax(s.ledger.table), s.ledger);
    case ZSelectMax(seen) => HolderMoves(s, t, ZUpdate(seen, NextBatch(s.ledger)), s.ledger);
    case _ => HolderLeaves(s, t, s.ledger);
  }

  lemma StampKeepsTable(cfg: Config, l: Ledger, n: nat)
    requires TableOk(cfg, l)
    ensures TableOk(cfg, l.(table := StampOpen(l.table, n)))
  {
    hide WellFormed;
    StampEvolves(l.table, n);
  }

  lemma StampKeepsReceipts(l: Ledger, n: nat, holder: Phase)
    requires ReceiptsOk(l, holder) && holder.ZUpdate?
    ensures ReceiptsOk(l.(table := StampOpen(l.table, n)), ZRelease)
  {
    hide LoadCounter, ReceiptNumber;
  }

  lemma ZUpdateStep(s: System, t: Tid)
    requires PartsOk(s) && s.mutex == Some(t) && PhaseOf(s, t).ZUpdate?
    ensures PartsOk(Continue(s, t)) && Evolves(s.ledger.table, Continue(s, t).ledger.table)
  {
    hide BatchesOk, ReceiptsOk, MutexOk, LockFreeOk, VoidsOk, MaxStamp, WellFormed, Evolves, SameBatch;
    var p := PhaseOf(s, t);
    var l' := s.ledger.(table := StampOpen(s.ledger.table, p.number));
    StampEvolves(s.ledger.table, p.number);
    HolderMoves(s, t, ZRelease, l');
    StampKeepsTable(s.cfg, s.ledger, p.number);
    StampKeepsReceipts(s.ledger, p.number, p);
    StampKeepsBatches(s.ledger.table, p.seen, s.issued);
    ZUpdateParts(s, Goto(s, t, ZRelease).(ledger := l'), Continue(s, t));
  }

  lemma ZUpdateParts(s: System, moved: System, s': System)
    requires s' == moved.(issued := s'.issued)
    requires MutexOk(moved) && LockFreeOk(moved) && VoidsOk(moved) && HolderPhase(moved) == ZRelease
    requires TableOk(moved.cfg, moved.ledger) && ReceiptsOk(moved.ledger, ZRelease)
    requires BatchesOk(s'.ledger.table, s'.issued)
    ensures PartsOk(s')
  {
    hide BatchesOk, TableOk, ReceiptsOk;
  }

  // ---------- Void, Refund, SetCachedResponse ----------

  lemma VoidStep(s: System, t: Tid, id: string, now: Time)
    requires PartsOk(s) && PhaseOf(s, t) == Idle && Voidable(s.ledger, id)
    ensures var s' := Begin(s, t, VoidOp(id, now)); PartsOk(s') && Evolves(s.ledger.table, s'.ledger.table)
  {
    hide BatchesOk, TableOk, ReceiptsOk, HolderOk;
    var s' := Begin(s, t, VoidOp(id, now));
    assert PhaseOf(s, t) == Idle;
    PutStep(s, id, s'.ledger.table.rows[id], s');
  }

  lemma RefundStoreStep(s: System, t: Tid)
    requires PartsOk(s) && PhaseOf(s, t).RefundStore?
    ensures PartsOk(Continue(s, t)) && Evolves(s.ledger.table, Continue(s, t).ledger.table)
  {
    hide BatchesOk, TableOk, ReceiptsOk, HolderOk;
    var s' := Continue(s, t);
    var id := PhaseOf(s, t).id;
    PutStep(s, id, s'.ledger.table.rows[id], s');
  }

  lemma CacheStep(s: System, t: Tid, id: string, response: Response)
    requires PartsOk(s) && id in s.ledger.table.rows
    ensures var s' := Begin(s, t, CacheOp(id, response)); PartsOk(s') && Evolves(s.ledger.table, s'.ledger.table)
  {
    hide BatchesOk, TableOk, ReceiptsOk, HolderOk;
    var s' := Begin(s, t, CacheOp(id, response));
    PutStep(s, id, s'.ledger.table.rows[id], s');
  }

  /** Steps of Void and Refund that read only. */
  lemma FreeStep(s: System, t: Tid, p: Phase)
    requires PartsOk(s) && !HoldsMutex(PhaseOf(s, t))
    requires p == Idle || (p.RefundStore? && p.id in s.ledger.table.rows && s.ledger.table.rows[p.id].state in SETTLED)
    ensures PartsOk(Goto(s, t, p))
  {
    hide BatchesOk, TableOk, ReceiptsOk, HolderOk;
  }

  // ---------- Any step ----------

  lemma ContinueKeeps(s: System, t: Tid)
    requires PartsOk(s) && s.ledger.counter < TWO64 - 1
    ensures var s' := Continue(s, t);
            PartsOk(s') && Evolves(s.ledger.table, s'.ledger.table) && s'.ledger.counter <= s.ledger.counter + 1
  {
    hide BatchesOk, ReceiptsOk, TableOk, VoidsOk, Evolves, LoadCounter, ReceiptText, StampOpen, MaxStamp, RowOf;
    EvolvesToItself(s.ledger.table);
    assert HoldsMutex(PhaseOf(s, t)) ==> s.mutex == Some(t);
    match PhaseOf(s, t)
    case Idle =>
    case CompleteMark(_, _, _, _) => CompleteMarkStep(s, t);
    case FailMark(_, _, _) => FailMarkStep(s, t);
    case CompleteInsert(id) =>
      if InsertSucceeds(s.ledger, id) { InsertStep(s, t, id); } else { InsertFailsStep(s, t, id); }
    case FailInsert(id) =>
      if InsertSucceeds(s.ledger, id) { InsertStep(s, t, id); } else { InsertFailsStep(s, t, id); }
    case CompletePersist(id) => PersistStep(s, t, id);
    case CompleteDrop(id) => DropStep(s, t, id);
    case FailDrop(id) => DropStep(s, t, id);
    case ZSelect => ZReadStep(s, t);
    case ZSelectMax(_) => ZReadStep(s, t);
    case ZRelease => ZReadStep(s, t);
    case ZUpdate(_, _) => ZUpdateStep(s, t);
    case VoidFetch(_) => FreeStep(s, t, Idle);
    case RefundFetch(_) => FreeStep(s, t, Idle);
    case RefundStore(_, _) => RefundStoreStep(s, t);
  }

  lemma CreateKeeps(s: System, id: string, amount: uint32, currency: string, now: Time)
    requires PartsOk(s)
    ensures PartsOk(InMemory(s, Create(s.cfg, s.ledger, id, amount, currency, now)))
  {
    hide BatchesOk, ReceiptsOk, VoidsOk, HolderOk, LockFreeOk, MutexOk, Evolves, LoadCounter, MaxStamp, WellFormed,
         InMemory;
    InMemoryStep(s, Create(s.cfg, s.ledger, id, amount, currency, now));
  }

  /** The operations that change one active transaction. */
  lemma BeginInMemoryKeeps(s: System, t: Tid, op: Op)
    requires PartsOk(s)
    requires op.SetCardOp? || op.SetStateOp? || op.SetBankOp? || op.SetLoyaltyOp?
    ensures PartsOk(Begin(s, t, op))
  {
    hide BatchesOk, ReceiptsOk, VoidsOk, HolderOk, LockFreeOk, MutexOk, Evolves, LoadCounter, MaxStamp, WellFormed,
         InMemory;
    match op
    case SetCardOp(id, card, now) => InMemoryStep(s, SetCard(s.ledger, id, card, now));
    case SetStateOp(id, state, now) => InMemoryStep(s, SetState(s.ledger, id, state, now));
    case SetBankOp(id, bankId, aid, n, now) => InMemoryStep(s, SetBank(s.ledger, id, bankId, aid, n, now));
    case SetLoyaltyOp(id, use, points, amount, now) =>
      InMemoryStep(s, SetLoyalty(s.ledger, id, use, points, amount, now));
  }

  lemma BeginKeeps(s: System, t: Tid, op: Op)
    requires PartsOk(s) && PhaseOf(s, t) == Idle
    ensures var s' := Begin(s, t, op);
            PartsOk(s') && Evolves(s.ledger.table, s'.ledger.table) && s'.ledger.counter == s.ledger.counter
  {
    hide PartsOk, Evolves, LoadCounter, MaxStamp, WellFormed, CheckNew;
    EvolvesToItself(s.ledger.table);
    match op
    case CompleteOp(id, confirmation, auth, now) => LockStep(s, t, CompleteMark(id, confirmation, auth, now));
    case FailOp(id, error, now) => LockStep(s, t, FailMark(id, error, now));
    case ZReportOp => LockStep(s, t, ZSelect);
    case VoidOp(id, now) =>
      if Voidable(s.ledger, id) { VoidStep(s, t, id, now); }
    case RefundOp(id, amount, now) =>
      if Refundable(s.ledger, id, amount) { FreeStep(s, t, RefundStore(id, now)); }
    case CacheOp(id, response) =>
      if id in s.ledger.table.rows { CacheStep(s, t, id, response); } else { assert Begin(s, t, op) == s; }
    case CreateOp(id, amount, currency, now) => CreateKeeps(s, id, amount, currency, now);
    case _ => BeginInMemoryKeeps(s, t, op);
  }

  lemma RestartKeeps(s: System)
    requires PartsOk(s) && AllIdle(s)
    ensures PartsOk(s.(ledger := Restart(s.ledger)))
  {
    hide BatchesOk, ReceiptsIncrease, ReceiptsAtMost, WellFormed;
  }

  /** Every step of every run keeps the invariant and lets rows only evolve. */
  lemma StepKeeps(s: System, a: Action)
    requires Inv(s) && s.steps < LONGEST_RUN
    ensures Inv(Step(s, a)) && Evolves(s.ledger.table, Step(s, a).ledger.table)
  {
    hide PartsOk, Continue, Begin, LoadCounter, Evolves;
    EvolvesToItself(s.ledger.table);
    assert PartsOk(Effect(s, a)) && Effect(s, a).ledger.counter <= s.ledger.counter + 1
        && Evolves(s.ledger.table, Effect(s, a).ledger.table) && Effect(s, a).steps == s.steps by {
      match a
      case Start(t, op) =>
        if PhaseOf(s, t) == Idle { BeginKeeps(s, t, op); BeginCountsNothing(s, t, op); }
      case Advance(t) => ContinueKeeps(s, t); ContinueCountsNothing(s, t);
      case RestartTerminal =>
        if AllIdle(s) { RestartKeeps(s); LoadedIsAtMost(s); }
    }
    CountingKeepsParts(Effect(s, a));
  }

  lemma BeginCountsNothing(s: System, t: Tid, op: Op)
    ensures Begin(s, t, op).steps == s.steps
  {
  }

  lemma ContinueCountsNothing(s: System, t: Tid)
    ensures Continue(s, t).steps == s.steps
  {
  }

  lemma LoadedIsAtMost(s: System)
    requires PartsOk(s)
    ensures Restart(s.ledger).counter <= s.ledger.counter
  {
  }

  lemma CountingKeepsParts(s: System)
    requires PartsOk(s)
    ensures PartsOk(s.(steps := s.steps + 1))
  {
    hide BatchesOk, ReceiptsOk, HolderOk, TableOk;
  }
}
