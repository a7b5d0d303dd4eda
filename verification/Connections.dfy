/** Client and terminal on one connection, over the bytes between them. */
module Connections {
  import opened Wrappers
  import opened Bytes
  import opened Ledgers
  import opened Frames
  import opened FrameLaws
  import opened Handlers
  import opened Runs
  import opened Retries
  import opened Clients
  import opened Sessions
  import opened SessionLaws

  /** The frame is a DATA frame of a client, and the terminal decodes its payload to the request. */
  predicate Carries(w: Setting, f: Frame, req: Request) {
    Sendable(f) && f.kind == DATA && w.codec.unmarshal(f.payload) == Some(req)
  }

  /** What a client sends for a request carries it, as long as the terminal decodes what the client encodes. */
  lemma ClientFrameCarries(w: Setting, marshal: Request -> seq<byte>, n: uint16, req: Request)
    requires w.codec.unmarshal(marshal(req)) == Some(req) && |marshal(req)| <= MAX_PAYLOAD
    ensures Carries(w, NewFrame(DATA, n, marshal(req)), req)
  {
    hide CrcOf;
  }

  ghost predicate AllCarry(w: Setting, frames: seq<Frame>, reqs: seq<Request>) {
    |frames| == |reqs| && forall i :: 0 <= i < |frames| ==> Carries(w, frames[i], reqs[i])
  }

  /** The requests as a run; `envs(i)` is met while the i-th is handled. */
  function Messages(w: Setting, reqs: seq<Request>): (events: seq<Event>)
    ensures |events| == |reqs|
  {
    if reqs == [] then []
    else Messages(w, reqs[..|reqs| - 1]) + [Message(reqs[|reqs| - 1], w.envs(|reqs| - 1))]
  }

  lemma {:induction false} EventsAreMessages(w: Setting, frames: seq<Frame>, reqs: seq<Request>)
    requires AllCarry(w, frames, reqs)
    ensures EventsOf(w, frames, 0) == Messages(w, reqs)
    decreases |frames|
  {
    hide IsValid;
    if frames != [] {
      var n := |frames| - 1;
      assert Carries(w, frames[n], reqs[n]);
      EventsAreMessages(w, frames[..n], reqs[..n]);
    }
  }

  /** What the i-th request is answered in the run of all. */
  function ReplyTo(w: Setting, l: Ledger, reqs: seq<Request>, i: nat): Option<Reply>
    requires i < |reqs|
  {
    Handle(w.cfg, RunEvents(w.cfg, l, Messages(w, reqs[..i])), reqs[i], w.envs(i)).reply
  }

  ghost predicate ReplyFits(w: Setting, l: Ledger, reqs: seq<Request>) {
    forall i :: 0 <= i < |reqs| ==> |w.codec.marshal(ReplyTo(w, l, reqs, i))| <= MAX_PAYLOAD
  }

  lemma BodyIsReply(w: Setting, l: Ledger, frames: seq<Frame>, reqs: seq<Request>, i: nat)
    requires AllCarry(w, frames, reqs) && i < |reqs|
    ensures ReplyBody(w, Session(l, 0, 0, []), frames, i) == w.codec.marshal(ReplyTo(w, l, reqs, i))
  {
    hide Handle, IsValid, RunEvents, EventsOf;
    assert Carries(w, frames[i], reqs[i]);
    PrefixCarries(w, frames, reqs, i);
    EventsAreMessages(w, frames[..i], reqs[..i]);
  }

  lemma PrefixCarries(w: Setting, frames: seq<Frame>, reqs: seq<Request>, n: nat)
    requires AllCarry(w, frames, reqs) && n <= |reqs|
    ensures AllCarry(w, frames[..n], reqs[..n])
  {
    hide Carries;
  }

  lemma CarriedIsSentAndPlain(w: Setting, frames: seq<Frame>, reqs: seq<Request>)
    requires AllCarry(w, frames, reqs)
    ensures AllSendable(frames) && AllPlain(w, frames)
  {
    hide Sendable;
    forall i | 0 <= i < |frames| ensures Sendable(frames[i]) && Plain(w, frames[i]) {
      assert Carries(w, frames[i], reqs[i]);
    }
  }

  /**
   * From the client's frames through both byte streams and back: the terminal handles exactly the client's requests, as
   * one run in their order, the i-th reply frame is the reply to the i-th request, and the client reads exactly these
   * if and only if each fits the LEN field.
   */
  lemma RequestsAreAnswered(w: Setting, l: Ledger, frames: seq<Frame>, reqs: seq<Request>)
    requires AllCarry(w, frames, reqs)
    ensures var e := ServeAll(w, Session(l, 0, 0, []), ReadAll(Encoded(frames)).0);
            && e.ledger == RunEvents(w.cfg, l, Messages(w, reqs))
            && |e.replies| == |reqs|
            && (forall i :: 0 <= i < |reqs| ==> e.replies[i].payload == w.codec.marshal(ReplyTo(w, l, reqs, i)))
            && (ReadAll(Encoded(e.replies)) == (e.replies, EndOfInput, []) <==> ReplyFits(w, l, reqs))
  {
    hide ReadAll, Encoded, ServeAll, RunEvents, EventsOf, ReplyBody, ReplyTo, AllSendable, AllPlain, CountSupported,
         Numbered, IsValid;
    var s := Session(l, 0, 0, []);
    CarriedIsSentAndPlain(w, frames, reqs);
    SentIsRead(frames);
    SessionIsARun(w, s, frames);
    EventsAreMessages(w, frames, reqs);
    forall i | 0 <= i < |reqs|
      ensures ServeAll(w, s, frames).replies[i].payload == w.codec.marshal(ReplyTo(w, l, reqs, i))
           == ReplyBody(w, s, frames, i)
    {
      EveryFrameIsAnswered(w, s, frames, i);
      BodyIsReply(w, l, frames, reqs, i);
    }
    RepliesFitTheField(w, s, frames);
    SentIsRead(ServeAll(w, s, frames).replies);
  }

  // ---------- Retries over bytes ----------

  function SameRequest(req: Request, n: nat): (reqs: seq<Request>)
    ensures |reqs| == n && forall i :: 0 <= i < n ==> reqs[i] == req
  {
    seq(n, _ => req)
  }

  lemma CopiesCarry(w: Setting, f: Frame, req: Request, n: nat)
    requires Carries(w, f, req)
    ensures AllCarry(w, Copies(f, n), SameRequest(req, n))
  {
    hide Carries;
  }

  lemma {:induction false} RepeatedMessagesAreDeliveries(w: Setting, l: Ledger, req: Request, envs: seq<Env>)
    requires forall i :: 0 <= i < |envs| ==> envs[i] == w.envs(i)
    ensures RunEvents(w.cfg, l, Messages(w, SameRequest(req, |envs|))) == Deliver(w.cfg, l, req, envs)
    decreases |envs|
  {
    hide Handle;
    if envs != [] {
      var n := |envs| - 1;
      RepeatedMessagesAreDeliveries(w, l, req, envs[..n]);
      assert SameRequest(req, n + 1)[..n] == SameRequest(req, n);
      var events := Messages(w, SameRequest(req, n + 1));
      assert events[..n] == Messages(w, SameRequest(req, n));
    }
  }

  /**
   * One call of SendMessage over bytes: the copies of its frame that arrive leave the terminal as the call's exchange
   * does, and the last reply frame carries the reply that an answered call returns.
   */
  lemma SendMessageOverBytes(w: Setting, l: Ledger, f: Frame, req: Request, net: Network, limit: nat)
    requires Carries(w, f, req)
    requires forall i :: 0 <= i < |Deliveries(net, limit)| ==> Deliveries(net, limit)[i] == w.envs(i)
    ensures var n := |Deliveries(net, limit)|;
            var e := ServeAll(w, Session(l, 0, 0, []), ReadAll(Encoded(Copies(f, n))).0);
            var x := Exchange(w.cfg, l, req, net, limit);
            && e.ledger == x.ledger && |e.replies| == n
            && (x.result.Got? ==> n > 0 && e.replies[n - 1].payload == w.codec.marshal(x.result.reply))
  {
    hide Handle, ReadAll, Encoded, ServeAll, Deliveries, Carries, Deliver, RunEvents, AllCarry, ReplyFits;
    var envs := Deliveries(net, limit);
    var n := |envs|;
    CopiesCarry(w, f, req, n);
    RequestsAreAnswered(w, l, Copies(f, n), SameRequest(req, n));
    RepeatedMessagesAreDeliveries(w, l, req, envs);
    if AnsweredAt(net, limit) < limit {
      AnswerIsADelivery(net, limit);
      assert SameRequest(req, n)[..n - 1] == SameRequest(req, n - 1);
      RepeatedMessagesAreDeliveries(w, l, req, envs[..n - 1]);
    }
  }
}
