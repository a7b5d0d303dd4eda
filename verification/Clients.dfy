/** The ECR's client: sequence numbers and the retry loop of SendMessage, with the terminal at the other end. */
module Clients {
  import opened Wrappers
  import opened Bytes
  import opened Domain
  import opened Tables
  import opened Ledgers
  import opened Frames
  import opened Reports
  import opened Handlers
  import opened Runs
  import opened Retries

  /**
   * What the network does with one attempt: the frame cannot be written; it is written but never handled; it is handled
   * but the reply cannot be read; it is handled and the reply is read.
   */
  datatype Attempt = WriteFails | Lost | Unanswered(env: Env) | Answered(env: Env)

  /** What happens to the attempts of one call, in order. */
  type Network = nat -> Attempt

  /** `Nothing` is a nil response without an error: a negative retry limit makes no attempt. */
  datatype SendResult = NotConnected | Got(reply: Option<Reply>) | GaveUp | Nothing

  /** The first answered attempt among the first n, or n. */
  function AnsweredAt(net: Network, n: nat): (k: nat)
    ensures k <= n
    ensures forall i :: 0 <= i < k ==> !net(i).Answered?
    ensures k < n ==> net(k).Answered?
  {
    if n == 0 then 0
    else
      var k := AnsweredAt(net, n - 1);
      if k < n - 1 || net(n - 1).Answered? then k else n
  }

  /** The circumstances in which the terminal handled the first n attempts. */
  function Handled(net: Network, n: nat): seq<Env> {
    if n == 0 then []
    else Handled(net, n - 1) + (match net(n - 1)
                                case Unanswered(env) => [env]
                                case Answered(env) => [env]
                                case _ => [])
  }

  lemma {:induction false} HandledAtMost(net: Network, n: nat)
    ensures |Handled(net, n)| <= n
  {
    if n > 0 {
      HandledAtMost(net, n - 1);
    }
  }

  function AttemptLimit(maxRetries: int): nat {
    if maxRetries < 0 then 0 else maxRetries + 1
  }

  /** Attempts made until an answer or the limit. */
  function AttemptsMade(net: Network, limit: nat): nat {
    if AnsweredAt(net, limit) < limit then AnsweredAt(net, limit) + 1 else limit
  }

  /** The circumstances of every delivery of one call. */
  function Deliveries(net: Network, limit: nat): seq<Env> {
    Handled(net, AttemptsMade(net, limit))
  }

  lemma AnswerIsADelivery(net: Network, limit: nat)
    requires AnsweredAt(net, limit) < limit
    ensures Deliveries(net, limit) != []
  {
  }

  datatype Exchanged = Exchanged(ledger: Ledger, result: SendResult)

  /** One call of SendMessage on a connected client, seen from both sides. */
  function Exchange(cfg: Config, l: Ledger, req: Request, net: Network, limit: nat): Exchanged {
    var envs := Deliveries(net, limit);
    if AnsweredAt(net, limit) < limit then
      AnswerIsADelivery(net, limit);
      Exchanged(Deliver(cfg, l, req, envs), Got(LastReply(cfg, l, req, envs)))
    else Exchanged(Deliver(cfg, l, req, envs), if limit == 0 then Nothing else GaveUp)
  }

  /**
   * However a call ends, the terminal is as if it had handled the request once or not at all, and once if it was
   * answered.
   */
  lemma SendMessageActsOnce(cfg: Config, l: Ledger, req: Request, net: Network, maxRetries: int)
    requires Coherent(l) && Fresh(l, req)
    ensures var x, envs :=
             Exchange(cfg, l, req, net, AttemptLimit(maxRetries)), Deliveries(net, AttemptLimit(maxRetries));
            && |envs| <= AttemptLimit(maxRetries)
            && Untimed(x.ledger) == (if envs == [] then Untimed(l) else Untimed(Handle(cfg, l, req, envs[0]).ledger))
            && (x.result.Got? ==> envs != [])
  {
    hide Handle, Coherent, Untimed;
    var limit := AttemptLimit(maxRetries);
    HandledAtMost(net, AttemptsMade(net, limit));
    if Deliveries(net, limit) != [] {
      RetrySafety(cfg, l, req, Deliveries(net, limit));
    }
  }

  /**
   * What an answered Z-report shows. The batch is closed once; its totals reach the ECR if and only if the first
   * delivery is the one that is answered, or there was nothing to show. Else the answer is a success all the same, with
   * an empty report and the next number.
   */
  lemma ZReportOverRetries(cfg: Config, l: Ledger, net: Network, limit: nat)
    requires WellFormed(l.table) && AnsweredAt(net, limit) < limit
    ensures var x, first := Exchange(cfg, l, ZReportRequest, net, limit), |Deliveries(net, limit)| == 1;
            && x.ledger == CloseBatch(l)
            && x.result == Got(Some(if first || OpenIds(l.table) == {} then ZAnswer(l)
                                    else ZReply(EMPTY_REPORT, Wrap32(NextBatch(l) + 1))))
            && (x.result == Got(Some(ZAnswer(l))) <==> first || OpenIds(l.table) == {})
  {
    hide CloseBatch, ZAnswer, ReportOf, MaxStamp, Deliveries, Deliver, LastReply, WellFormed, OpenIds;
    AnswerIsADelivery(net, limit);
    ZReportDeliveries(cfg, l, Deliveries(net, limit));
    SecondZAnswer(l);
  }

  lemma ReportsKeepRows(cfg: Config, l: Ledger, req: Request, env: Env)
    requires IsTotalsReport(req) && WellFormed(l.table)
    ensures WellFormed(Handle(cfg, l, req, env).ledger.table)
  {
    hide ReportOf, MaxStamp;
  }

  function Copies(f: Frame, n: nat): (fs: seq<Frame>)
    ensures |fs| == n && forall i :: 0 <= i < n ==> fs[i] == f
  {
    if n == 0 then [] else Copies(f, n - 1) + [f]
  }

  class Client {
    var sequence: uint16
    var connected: bool
    var written: seq<Frame>
    const maxRetries: int
    const marshal: Request -> seq<byte>
    const pos: MessageHandler

    constructor (maxRetries: int, marshal: Request -> seq<byte>, pos: MessageHandler)
      ensures sequence == 0 && !connected && written == []
      ensures this.maxRetries == maxRetries && this.marshal == marshal && this.pos == pos
    {
      sequence, connected, written := 0, false, [];
      this.maxRetries, this.marshal, this.pos := maxRetries, marshal, pos;
    }

    method GetNextSequence() returns (n: uint16)
      modifies this`sequence
      ensures n == sequence == (old(sequence) + 1) % 0x1_0000
    {
      sequence := (sequence + 1) % 0x1_0000;
      return sequence;
    }

    /** The frame a connected client sends next. */
    function NextFrame(req: Request): Frame
      reads this
    {
      NewFrame(DATA, (sequence + 1) % 0x1_0000, marshal(req))
    }

    /** One attempt: the frame goes out, and the terminal may handle it and its reply may come back. */
    method WriteAndRead(req: Request, frame: Frame, a: Attempt) returns (response: Option<Option<Reply>>)
      requires IsTotalsReport(req) ==> WellFormed(pos.Value().table)
      modifies this`written, pos.txnManager
      ensures written == old(written) + [frame]
      ensures if a.Unanswered? || a.Answered? then
                var o := Handle(pos.txnManager.config, old(pos.Value()), req, a.env);
                pos.Value() == o.ledger && response == (if a.Answered? then Some(o.reply) else None)
              else pos.Value() == old(pos.Value()) && response == None
      ensures IsTotalsReport(req) ==> WellFormed(pos.Value().table)
    {
      hide Handle, WellFormed;
      written := written + [frame];
      if a.WriteFails? || a.Lost? {
        return None;
      }
      KeepRows(pos.txnManager.config, pos.Value(), req, a.env);
      var reply := pos.HandleMessage(req, a.env);
      return if a.Answered? then Some(reply) else None;
    }

    /** The retry loop, which keeps the last error. */
    method Retry(req: Request, frame: Frame, net: Network) returns (r: SendResult)
      requires IsTotalsReport(req) ==> WellFormed(pos.Value().table)
      modifies this`written, pos.txnManager
      ensures var x := Exchange(pos.txnManager.config, old(pos.Value()), req, net, AttemptLimit(maxRetries));
              r == x.result && pos.Value() == x.ledger
      ensures written == old(written) + Copies(frame, AttemptsMade(net, AttemptLimit(maxRetries)))
      ensures IsTotalsReport(req) ==> WellFormed(pos.Value().table)
    {
      hide Handle, WellFormed, Deliver, LastReply, Exchange, Handled, AnsweredAt, AttemptsMade;
      ghost var cfg, l := pos.txnManager.config, pos.Value();
      ghost var limit := AttemptLimit(maxRetries);
      var lastError := Nothing;
      var attempt: nat := 0;
      NoAttempts(cfg, l, req, net);
      while attempt <= maxRetries
        invariant attempt <= limit && AnsweredAt(net, attempt) == attempt
        invariant pos.Value() == Deliver(cfg, l, req, Handled(net, attempt))
        invariant written == old(written) + Copies(frame, attempt)
        invariant lastError == if attempt == 0 then Nothing else GaveUp
        invariant IsTotalsReport(req) ==> WellFormed(pos.Value().table)
        decreases limit - attempt
      {
        OneMoreAttempt(cfg, l, req, net, attempt);
        var response := WriteAndRead(req, frame, net(attempt));
        if response.Some? {
          EndsAnswered(cfg, l, req, net, attempt, limit);
          return Got(response.value);
        }
        lastError := GaveUp;
        attempt := attempt + 1;
      }
      EndsUnanswered(cfg, l, req, net, limit);
      return lastError;
    }

    /** Every attempt writes the same frame. */
    method SendMessage(req: Request, net: Network) returns (r: SendResult)
      requires IsTotalsReport(req) ==> WellFormed(pos.Value().table)
      modifies this`sequence, this`written, pos.txnManager
      ensures !connected ==> r == NotConnected && sequence == old(sequence) && written == old(written)
                             && pos.Value() == old(pos.Value())
      ensures connected ==>
        var x := Exchange(pos.txnManager.config, old(pos.Value()), req, net, AttemptLimit(maxRetries));
        && r == x.result && pos.Value() == x.ledger
        && sequence == (old(sequence) + 1) % 0x1_0000
        && written == old(written) + Copies(old(NextFrame(req)), AttemptsMade(net, AttemptLimit(maxRetries)))
      ensures old(NextFrame(req)).kind == 3 && old(NextFrame(req)).payload == marshal(req)
      ensures connected ==> sequence == old(NextFrame(req)).sequence
      ensures IsTotalsReport(req) ==> WellFormed(pos.Value().table)
    {
      hide Handle, WellFormed, NewFrame, IsValid, Exchange, AttemptsMade, Copies;
      if !connected {
        return NotConnected;
      }
      var data := marshal(req);
      var n := GetNextSequence();
      var frame := NewFrame(DATA, n, data);
      r := Retry(req, frame, net);
    }
  }

  lemma KeepRows(cfg: Config, l: Ledger, req: Request, env: Env)
    requires IsTotalsReport(req) ==> WellFormed(l.table)
    ensures IsTotalsReport(req) ==> WellFormed(Handle(cfg, l, req, env).ledger.table)
  {
    if IsTotalsReport(req) {
      ReportsKeepRows(cfg, l, req, env);
    }
  }

  lemma NoAttempts(cfg: Config, l: Ledger, req: Request, net: Network)
    ensures AnsweredAt(net, 0) == 0 && Handled(net, 0) == [] && Deliver(cfg, l, req, Handled(net, 0)) == l
  {
  }

  lemma OneMoreAttempt(cfg: Config, l: Ledger, req: Request, net: Network, n: nat)
    requires AnsweredAt(net, n) == n
    ensures AnsweredAt(net, n + 1) == if net(n).Answered? then n else n + 1
    ensures var before := Deliver(cfg, l, req, Handled(net, n));
            Deliver(cfg, l, req, Handled(net, n + 1))
            == if net(n).Unanswered? || net(n).Answered? then Handle(cfg, before, req, net(n).env).ledger else before
  {
    hide Handle;
    if net(n).Unanswered? || net(n).Answered? {
      OneMoreDelivery(cfg, l, req, net, n);
    } else {
      assert Handled(net, n + 1) == Handled(net, n);
    }
  }

  lemma EndsAnswered(cfg: Config, l: Ledger, req: Request, net: Network, k: nat, limit: nat)
    requires k < limit && AnsweredAt(net, k) == k && net(k).Answered?
    ensures var before := Deliver(cfg, l, req, Handled(net, k));
            var o := Handle(cfg, before, req, net(k).env);
            Exchange(cfg, l, req, net, limit) == Exchanged(o.ledger, Got(o.reply)) && AttemptsMade(net, limit) == k + 1
  {
    hide Handle, Deliver, LastReply, Handled, AnsweredAt;
    FirstAnswer(net, k, limit);
    OneMoreDelivery(cfg, l, req, net, k);
  }

  lemma EndsUnanswered(cfg: Config, l: Ledger, req: Request, net: Network, limit: nat)
    requires AnsweredAt(net, limit) == limit
    ensures AttemptsMade(net, limit) == limit
    ensures Exchange(cfg, l, req, net, limit)
         == Exchanged(Deliver(cfg, l, req, Handled(net, limit)), if limit == 0 then Nothing else GaveUp)
  {
  }

  lemma OneMoreDelivery(cfg: Config, l: Ledger, req: Request, net: Network, n: nat)
    requires net(n).Unanswered? || net(n).Answered?
    ensures var envs := Handled(net, n + 1);
            && envs != []
            && Deliver(cfg, l, req, envs) == Handle(cfg, Deliver(cfg, l, req, Handled(net, n)), req, net(n).env).ledger
            && LastReply(cfg, l, req, envs) == Handle(cfg, Deliver(cfg, l, req, Handled(net, n)), req, net(n).env).reply
  {
    hide Handle;
    var envs := Handled(net, n + 1);
    assert envs[..|envs| - 1] == Handled(net, n);
  }

  lemma {:induction false} FirstAnswer(net: Network, k: nat, n: nat)
    requires k < n && net(k).Answered? && forall i :: 0 <= i < k ==> !net(i).Answered?
    ensures AnsweredAt(net, n) == k
  {
  }

  // ---------- Attempts by number ----------

  /** The k-th attempt, counted from 0, is answered, and none before it. */
  ghost predicate FirstAnswered(net: Network, k: nat) {
    net(k).Answered? && forall i :: 0 <= i < k ==> !net(i).Answered?
  }

  /** Up to MaxRetries the first answered attempt is the last one made, and its reply is the result. */
  lemma AnsweredInTime(cfg: Config, l: Ledger, req: Request, net: Network, maxRetries: int, k: nat)
    requires k <= maxRetries && FirstAnswered(net, k)
    ensures var x, o := Exchange(cfg, l, req, net, AttemptLimit(maxRetries)),
                        Handle(cfg, Deliver(cfg, l, req, Handled(net, k)), req, net(k).env);
            && AttemptsMade(net, AttemptLimit(maxRetries)) == k + 1
            && x == Exchanged(o.ledger, Got(o.reply))
  {
    hide Handle, Deliver, LastReply, Handled, Exchange;
    var limit := AttemptLimit(maxRetries);
    FirstAnswer(net, k, limit);
    assert AnsweredAt(net, k) == k;
    EndsAnswered(cfg, l, req, net, k, limit);
  }

  /** Without an answer in attempts 0 to MaxRetries all of them are made, and the call gives up. */
  lemma NeverAnswered(cfg: Config, l: Ledger, req: Request, net: Network, maxRetries: int)
    requires maxRetries >= 0 && forall i :: 0 <= i <= maxRetries ==> !net(i).Answered?
    ensures var x := Exchange(cfg, l, req, net, AttemptLimit(maxRetries));
            && AttemptsMade(net, AttemptLimit(maxRetries)) == maxRetries + 1
            && x == Exchanged(Deliver(cfg, l, req, Handled(net, maxRetries + 1)), GaveUp)
  {
    hide Handle, Deliver, LastReply, Handled;
  }

  /** A negative MaxRetries makes no attempt and returns neither reply nor error. */
  lemma NoAttemptMade(cfg: Config, l: Ledger, req: Request, net: Network, maxRetries: int)
    requires maxRetries < 0
    ensures Exchange(cfg, l, req, net, AttemptLimit(maxRetries)) == Exchanged(l, Nothing)
    ensures AttemptsMade(net, AttemptLimit(maxRetries)) == 0
  {
    hide Handle;
    NoAttempts(cfg, l, req, net);
  }

  /** The terminal handles an attempt exactly if its request arrives, whether or not the reply comes back. */
  lemma AttemptsHandled(cfg: Config, l: Ledger, req: Request, net: Network, n: nat)
    ensures var before, after := Deliver(cfg, l, req, Handled(net, n)), Deliver(cfg, l, req, Handled(net, n + 1));
            match net(n)
            case WriteFails => after == before
            case Lost => after == before
            case Unanswered(env) => after == Handle(cfg, before, req, env).ledger
            case Answered(env) => after == Handle(cfg, before, req, env).ledger
  {
    hide Handle;
    if net(n).Unanswered? || net(n).Answered? {
      OneMoreDelivery(cfg, l, req, net, n);
    } else {
      assert Handled(net, n + 1) == Handled(net, n);
    }
  }
}
