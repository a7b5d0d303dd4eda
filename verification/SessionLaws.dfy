/** What a session sends, for any stream of requests, and what the client reads of it. */
module SessionLaws {
  import opened Wrappers
  import opened Bytes
  import opened Domain
  import opened Ledgers
  import opened DetailedReports
  import opened Frames
  import opened FrameLaws
  import opened Handlers
  import opened Runs
  import opened Sessions

  /** A frame that is answered: PING, or DATA with a message that can be decoded. */
  predicate Plain(w: Setting, f: Frame) {
    f.kind == PING || (f.kind == DATA && w.codec.unmarshal(f.payload).Some?)
  }

  ghost predicate AllPlain(w: Setting, frames: seq<Frame>) {
    forall i :: 0 <= i < |frames| ==> Plain(w, frames[i])
  }

  /** A DATA frame whose message has a handler. */
  predicate Supported(w: Setting, f: Frame) {
    f.kind == DATA && w.codec.unmarshal(f.payload).Some? && !w.codec.unmarshal(f.payload).value.Other?
  }

  function CountSupported(w: Setting, frames: seq<Frame>): nat {
    if frames == [] then 0
    else CountSupported(w, frames[..|frames| - 1]) + (if Supported(w, frames[|frames| - 1]) then 1 else 0)
  }

  /** The messages in the frames, as events of a run; `handled` messages came before. */
  function EventsOf(w: Setting, frames: seq<Frame>, handled: nat): seq<Event>
    decreases |frames|
  {
    if frames == [] then []
    else
      var front, last := EventsOf(w, frames[..|frames| - 1], handled), frames[|frames| - 1];
      if last.kind == DATA && w.codec.unmarshal(last.payload).Some? then
        front + [Message(w.codec.unmarshal(last.payload).value, w.envs(handled + |front|))]
      else front
  }

  lemma NoReplyForOther(cfg: Config, l: Ledger, req: Request, env: Env)
    ensures Handle(cfg, l, req, env).reply == None <==> req.Other?
  {
  }

  lemma {:induction false} ServeOneMore(w: Setting, s: Session, frames: seq<Frame>, f: Frame)
    requires AllPlain(w, frames)
    ensures var before := ServeAll(w, s, frames);
            ServeAll(w, s, frames + [f]) == match Serve(w, before, f) case None => before case Some(s') => s'
    decreases |frames|
  {
    hide Handle, NewFrame;
    var all := frames + [f];
    if frames == [] {
      assert all[1..] == [];
    } else {
      assert all[1..] == frames[1..] + [f];
      ServeOneMore(w, Serve(w, s, frames[0]).value, frames[1..], f);
    }
  }

  /** What one answered frame does to the session. */
  lemma ServePlain(w: Setting, s: Session, f: Frame)
    requires Plain(w, f)
    ensures var next := Serve(w, s, f);
            && next.Some?
            && |next.value.replies| == |s.replies| + 1 && s.replies <= next.value.replies
            && next.value.sequence == (if Supported(w, f) then (s.sequence + 1) % 0x1_0000 else s.sequence)
            && next.value.handled == (if f.kind == DATA then s.handled + 1 else s.handled)
            && next.value.ledger == (if f.kind == DATA
                                     then Handle(w.cfg, s.ledger, w.codec.unmarshal(f.payload).value,
                                                 w.envs(s.handled)).ledger
                                     else s.ledger)
  {
    hide Handle, NewFrame, IsValid;
    if f.kind == DATA {
      NoReplyForOther(w.cfg, s.ledger, w.codec.unmarshal(f.payload).value, w.envs(s.handled));
    }
  }

  lemma EventsOneMore(w: Setting, frames: seq<Frame>, f: Frame, l: Ledger, handled: nat)
    requires Plain(w, f)
    ensures var before, after := EventsOf(w, frames, handled), EventsOf(w, frames + [f], handled);
            if f.kind == DATA then
              && |after| == |before| + 1
              && RunEvents(w.cfg, l, after)
                 == Handle(w.cfg, RunEvents(w.cfg, l, before), w.codec.unmarshal(f.payload).value,
                           w.envs(handled + |before|)).ledger
            else after == before
    ensures CountSupported(w, frames + [f]) == CountSupported(w, frames) + (if Supported(w, f) then 1 else 0)
  {
    hide Handle;
    assert (frames + [f])[..|frames|] == frames;
    var before, after := EventsOf(w, frames, handled), EventsOf(w, frames + [f], handled);
    if f.kind == DATA {
      assert after[..|before|] == before;
    }
  }

  /** The sequence number after n more supported messages. */
  function Numbered(start: uint16, n: nat): uint16 {
    (start + n) % 0x1_0000
  }

  lemma NumberedOneMore(start: uint16, n: nat)
    ensures Numbered(start, 0) == start
    ensures (Numbered(start, n) + 1) % 0x1_0000 == Numbered(start, n + 1)
  {
  }

  /**
   * The session is an atomic run of its messages; it has one more reply per frame, and numbers its supported messages.
   */
  ghost predicate IsARun(w: Setting, s: Session, frames: seq<Frame>, e: Session) {
    && e.ledger == RunEvents(w.cfg, s.ledger, EventsOf(w, frames, s.handled))
    && e.handled == s.handled + |EventsOf(w, frames, s.handled)|
    && e.sequence == Numbered(s.sequence, CountSupported(w, frames))
    && |e.replies| == |s.replies| + |frames|
    && s.replies <= e.replies
  }

  lemma OneMoreFrame(w: Setting, s: Session, front: seq<Frame>, f: Frame, before: Session)
    requires IsARun(w, s, front, before) && Plain(w, f)
    ensures Serve(w, before, f).Some? && IsARun(w, s, front + [f], Serve(w, before, f).value)
  {
    hide Handle, Serve, EventsOf, RunEvents, CountSupported, Numbered, Plain;
    ServePlain(w, before, f);
    EventsOneMore(w, front, f, s.ledger, s.handled);
    NumberedOneMore(s.sequence, CountSupported(w, front));
  }

  lemma {:induction false} SessionIsARun(w: Setting, s: Session, frames: seq<Frame>)
    requires AllPlain(w, frames)
    ensures IsARun(w, s, frames, ServeAll(w, s, frames))
    decreases |frames|
  {
    if frames == [] {
      NumberedOneMore(s.sequence, 0);
    } else {
      hide Serve, ServeAll, Plain, IsARun;
      var front, f := frames[..|frames| - 1], frames[|frames| - 1];
      assert frames == front + [f];
      SessionIsARun(w, s, front);
      ServeOneMore(w, s, front, f);
      OneMoreFrame(w, s, front, f, ServeAll(w, s, front));
    }
  }

  /** The payload of the reply to the i-th frame: what the ledger after the messages before it answers, marshalled. */
  function ReplyBody(w: Setting, s: Session, frames: seq<Frame>, i: nat): seq<byte>
    requires i < |frames|
  {
    var f, events := frames[i], EventsOf(w, frames[..i], s.handled);
    if f.kind == DATA && w.codec.unmarshal(f.payload).Some? then
      w.codec.marshal(Handle(w.cfg, RunEvents(w.cfg, s.ledger, events), w.codec.unmarshal(f.payload).value,
                             w.envs(s.handled + |events|)).reply)
    else []
  }

  /** The reply to the i-th frame. */
  ghost predicate IsReplyTo(w: Setting, s: Session, frames: seq<Frame>, i: nat, reply: Frame)
    requires i < |frames|
  {
    && IsValid(reply)
    && reply.kind == (if frames[i].kind == PING then PONG else DATA)
    && reply.sequence == (if Supported(w, frames[i]) then Numbered(s.sequence, CountSupported(w, frames[..i + 1]))
                          else frames[i].sequence)
    && reply.payload == ReplyBody(w, s, frames, i)
  }

  lemma LastReplyIs(w: Setting, s: Session, frames: seq<Frame>, f: Frame)
    requires AllPlain(w, frames + [f])
    ensures var e := ServeAll(w, s, frames + [f]);
            |e.replies| == |s.replies| + |frames| + 1
                && IsReplyTo(w, s, frames + [f], |frames|, e.replies[|e.replies| - 1])
  {
    hide Handle, NewFrame, IsValid, EventsOf, RunEvents, CountSupported, Numbered, ServeAll;
    var all := frames + [f];
    assert all[..|frames|] == frames && all[..|frames| + 1] == all;
    assert forall i :: 0 <= i < |frames| ==> all[i] == frames[i];
    assert Plain(w, all[|frames|]);
    SessionIsARun(w, s, frames);
    SessionIsARun(w, s, all);
    ServeOneMore(w, s, frames, f);
    var before := ServeAll(w, s, frames);
    if f.kind == DATA {
      NoReplyForOther(w.cfg, before.ledger, w.codec.unmarshal(f.payload).value, w.envs(before.handled));
    }
  }

  /**
   * Replies go out in order, one for each frame: PONG echoes the sequence, an unsupported body is answered with the
   * request's sequence, and the n-th supported message is answered with number n modulo 2^16.
   */
  lemma EveryFrameIsAnswered(w: Setting, s: Session, frames: seq<Frame>, i: nat)
    requires AllPlain(w, frames) && i < |frames|
    ensures var e := ServeAll(w, s, frames);
            |e.replies| == |s.replies| + |frames| && IsReplyTo(w, s, frames, i, e.replies[|s.replies| + i])
  {
    hide IsReplyTo, Serve, ServeAll, Plain, EventsOf, RunEvents, CountSupported;
    var upto := frames[..i + 1];
    assert upto == frames[..i] + [frames[i]];
    LastReplyIs(w, s, frames[..i], frames[i]);
    SessionIsARun(w, s, frames);
    assert frames == upto + frames[i + 1..];
    RepliesGrow(w, s, upto, frames[i + 1..]);
    SamePrefixSameReply(w, s, frames, i, ServeAll(w, s, frames).replies[|s.replies| + i]);
  }

  lemma SamePrefixSameReply(w: Setting, s: Session, frames: seq<Frame>, i: nat, reply: Frame)
    requires i < |frames| && IsReplyTo(w, s, frames[..i + 1], i, reply)
    ensures IsReplyTo(w, s, frames, i, reply)
  {
    hide Handle, NewFrame, IsValid, EventsOf, RunEvents, CountSupported;
    assert frames[..i + 1][..i] == frames[..i] && frames[..i + 1][..i + 1] == frames[..i + 1];
  }

  lemma RepliesGrow(w: Setting, s: Session, a: seq<Frame>, b: seq<Frame>)
    requires AllPlain(w, a + b)
    ensures ServeAll(w, s, a).replies <= ServeAll(w, s, a + b).replies
    decreases |b|
  {
    hide Serve, ServeAll, Plain;
    if b == [] {
      assert a + b == a;
    } else {
      var all := a + b;
      var c := a + b[..|b| - 1];
      assert all == c + [b[|b| - 1]];
      assert forall i :: 0 <= i < |c| ==> c[i] == all[i];
      RepliesGrow(w, s, a, b[..|b| - 1]);
      ServeOneMore(w, s, c, b[|b| - 1]);
      assert Plain(w, all[|all| - 1]);
      ServePlain(w, ServeAll(w, s, c), b[|b| - 1]);
    }
  }

  /**
   * The loop stops at the first CLOSE, PONG or undecodable DATA frame, which gets no reply, nor does anything after it.
   */
  lemma {:induction false} StopsAtFirst(w: Setting, s: Session, frames: seq<Frame>, k: nat)
    requires k < |frames| && AllPlain(w, frames[..k]) && !Plain(w, frames[k])
    ensures ServeAll(w, s, frames) == ServeAll(w, s, frames[..k])
    decreases |frames|
  {
    hide Handle, NewFrame;
    if k > 0 {
      assert frames[..k][1..] == frames[1..][..k - 1];
      assert Plain(w, frames[..k][0]);
      StopsAtFirst(w, Serve(w, s, frames[0]).value, frames[1..], k - 1);
    }
  }

  /** The first frame from i on that stops the loop, or the number of frames. */
  function FirstStop(w: Setting, frames: seq<Frame>, i: nat): (k: nat)
    requires i <= |frames|
    ensures i <= k <= |frames|
    ensures forall j :: i <= j < k ==> Plain(w, frames[j])
    ensures k < |frames| ==> !Plain(w, frames[k])
    decreases |frames| - i
  {
    if i == |frames| || !Plain(w, frames[i]) then i else FirstStop(w, frames, i + 1)
  }

  /** The number of frames before the first that stops the loop. */
  function PlainPrefix(w: Setting, frames: seq<Frame>): (k: nat)
    ensures k <= |frames| && AllPlain(w, frames[..k]) && (k < |frames| ==> !Plain(w, frames[k]))
  {
    FirstStop(w, frames, 0)
  }

  lemma ServesThePlain(w: Setting, s: Session, frames: seq<Frame>)
    ensures ServeAll(w, s, frames) == ServeAll(w, s, frames[..PlainPrefix(w, frames)])
  {
    hide ServeAll, Plain;
    var k := PlainPrefix(w, frames);
    if k < |frames| {
      StopsAtFirst(w, s, frames, k);
    } else {
      assert frames[..k] == frames;
    }
  }

  // ---------- The client's side ----------

  predicate Sendable(f: Frame) {
    IsValid(f) && |f.payload| <= MAX_PAYLOAD
  }

  ghost predicate AllSendable(frames: seq<Frame>) {
    forall i :: 0 <= i < |frames| ==> Sendable(frames[i])
  }

  lemma {:induction false} SendableIsRead(frames: seq<Frame>, rest: seq<byte>)
    requires AllSendable(frames)
    ensures var (fs, e, left) := ReadAll(rest); ReadAll(Encoded(frames) + rest) == (frames + fs, e, left)
    decreases |frames|
  {
    hide ReadAll, Encode, IsValid;
    var fs := ReadAll(rest).0;
    if frames == [] {
      assert Encoded(frames) + rest == rest && [] + fs == fs;
    } else {
      var front, last := frames[..|frames| - 1], frames[|frames| - 1];
      assert Sendable(last);
      ReadAllStep([], last, rest);
      assert [] + Encode(last) + rest == Encode(last) + rest;
      SendableIsRead(front, Encode(last) + rest);
      assert Encoded(frames) + rest == Encoded(front) + (Encode(last) + rest);
      assert frames == front + [last] && front + ([last] + fs) == frames + fs;
    }
  }

  lemma ReadIsSendable(s: seq<byte>)
    requires Read(s).Ok?
    ensures Sendable(Read(s).frame) && s != []
  {
    hide CrcOf, Encode;
    EncodeRead(s);
  }

  /** Whatever bytes are read, the frames that come out are valid and fit the LEN field. */
  lemma {:induction false} ReadAllIsSendable(s: seq<byte>)
    ensures AllSendable(ReadAll(s).0)
    decreases |s|
  {
    hide Read, Sendable;
    if Read(s).Ok? {
      ReadIsSendable(s);
      ReadAllIsSendable(s[Read(s).used..]);
    }
  }

  /** Reading what was sent gives back exactly the frames if and only if they are valid and fit the LEN field. */
  lemma SentIsRead(frames: seq<Frame>)
    ensures ReadAll(Encoded(frames)) == (frames, EndOfInput, []) <==> AllSendable(frames)
  {
    hide ReadAll, Encoded, AllSendable;
    if AllSendable(frames) {
      SendableIsRead(frames, []);
      ReadAllNoise([]);
      assert Encoded(frames) + [] == Encoded(frames) && frames + [] == frames;
    } else {
      ReadAllIsSendable(Encoded(frames));
    }
  }

  lemma NothingEncoded()
    ensures Encoded([]) == []
  {
  }

  lemma {:induction false} EncodedSplits(a: seq<Frame>, b: seq<Frame>)
    ensures Encoded(a + b) == Encoded(a) + Encoded(b)
    decreases |b|
  {
    hide Encode, Encoded;
    if b == [] {
      NothingEncoded();
      assert a + b == a && Encoded(a) + [] == Encoded(a);
    } else {
      var front, last := b[..|b| - 1], b[|b| - 1];
      EncodedSplits(a, front);
      EncodedOneMore(a + front, last);
      EncodedOneMore(front, last);
      assert a + b == a + front + [last] && b == front + [last];
    }
  }

  lemma PrefixIsSendable(frames: seq<Frame>, more: seq<Frame>)
    ensures AllSendable(more) && frames <= more ==> AllSendable(frames)
  {
    hide Sendable;
  }

  /**
   * The first frame that does not fit the LEN field is lost to the reader, and only what was sent before it is safe.
   */
  lemma OversizedIsLost(frames: seq<Frame>, j: nat)
    requires j < |frames| && AllSendable(frames[..j]) && !Sendable(frames[j])
    ensures frames[..j] <= ReadAll(Encoded(frames)).0 && !(frames[..j + 1] <= ReadAll(Encoded(frames)).0)
  {
    hide ReadAll, Encoded, Sendable;
    EncodedSplits(frames[..j], frames[j..]);
    assert frames == frames[..j] + frames[j..];
    SendableIsRead(frames[..j], Encoded(frames[j..]));
    ReadAllIsSendable(Encoded(frames));
    var read := ReadAll(Encoded(frames)).0;
    assert AllSendable(read);
    PrefixIsSendable(frames[..j + 1], read);
    assert frames[..j + 1][j] == frames[j];
  }

  /** The client can read back every reply of the session: each marshalled body has at most 65535 bytes. */
  ghost predicate RepliesFit(w: Setting, s: Session, frames: seq<Frame>) {
    forall i :: 0 <= i < |frames| ==> |ReplyBody(w, s, frames, i)| <= MAX_PAYLOAD
  }

  lemma RepliesFitTheField(w: Setting, s: Session, frames: seq<Frame>)
    requires AllPlain(w, frames) && s.replies == []
    ensures AllSendable(ServeAll(w, s, frames).replies) <==> RepliesFit(w, s, frames)
  {
    hide ServeAll, ReplyBody, Plain, IsValid, CountSupported, Numbered;
    var replies := ServeAll(w, s, frames).replies;
    SessionIsARun(w, s, frames);
    forall i | 0 <= i < |frames| ensures Sendable(replies[i]) <==> |ReplyBody(w, s, frames, i)| <= MAX_PAYLOAD {
      EveryFrameIsAnswered(w, s, frames, i);
    }
  }

  /**
   * A whole connection, for any bytes that arrive: the frames up to the first that stops the loop are handled as one
   * run of their messages and answered one by one, and the client reads back exactly the replies if and only if each
   * marshalled reply has at most 65535 bytes.
   */
  lemma SessionEndToEnd(w: Setting, l: Ledger, input: seq<byte>)
    ensures var s, all := Session(l, 0, 0, []), ReadAll(input).0;
            var frames, e := all[..PlainPrefix(w, all)], ServeAll(w, s, all);
            && e.ledger == RunEvents(w.cfg, l, EventsOf(w, frames, 0))
            && |e.replies| == |frames|
            && (forall i :: 0 <= i < |frames| ==> IsReplyTo(w, s, frames, i, e.replies[i]))
            && (ReadAll(Encoded(e.replies)) == (e.replies, EndOfInput, []) <==> RepliesFit(w, s, frames))
  {
    hide ReadAll, ServeAll, Encoded, RunEvents, EventsOf, CountSupported, Plain, IsReplyTo, AllSendable, RepliesFit;
    var s, all := Session(l, 0, 0, []), ReadAll(input).0;
    var frames := all[..PlainPrefix(w, all)];
    ServesThePlain(w, s, all);
    SessionIsARun(w, s, frames);
    forall i | 0 <= i < |frames| ensures IsReplyTo(w, s, frames, i, ServeAll(w, s, frames).replies[i]) {
      EveryFrameIsAnswered(w, s, frames, i);
    }
    RepliesFitTheField(w, s, frames);
    SentIsRead(ServeAll(w, s, frames).replies);
  }

  /** A detailed report that marshals to more than 65535 bytes, as one without a limit can, never reaches the client. */
  lemma OversizedReportIsLost(w: Setting, l: Ledger, f: Frame, q: Query)
    requires f.kind == DATA && w.codec.unmarshal(f.payload)
                               == Some(DetailedReportRequest(Some(q.from), Some(q.to), q.limit, q.includeVoids))
    requires |w.codec.marshal(Some(DetailedReply(EntriesOf(Selected(l.table, q)))))| > MAX_PAYLOAD
    ensures var e := ServeAll(w, Session(l, 0, 0, []), [f]);
            |e.replies| == 1 && !(e.replies <= ReadAll(Encoded(e.replies)).0)
  {
    hide ReadAll, Encoded, EntriesOf, Selected, IsValid, CountSupported, Numbered, ServeAll, ReplyBody, Handle;
    var s := Session(l, 0, 0, []);
    var e := ServeAll(w, s, [f]);
    EveryFrameIsAnswered(w, s, [f], 0);
    FirstBody(w, s, f);
    ReportReply(w.cfg, l, q, w.envs(0));
    OversizedIsLost(e.replies, 0);
    assert e.replies[..1] == e.replies;
  }

  lemma FirstBody(w: Setting, s: Session, f: Frame)
    requires f.kind == DATA && w.codec.unmarshal(f.payload).Some?
    ensures ReplyBody(w, s, [f], 0)
         == w.codec.marshal(Handle(w.cfg, s.ledger, w.codec.unmarshal(f.payload).value, w.envs(s.handled)).reply)
  {
    hide Handle;
    assert [f][..0] == [] && EventsOf(w, [], s.handled) == [];
  }

  lemma ReportReply(cfg: Config, l: Ledger, q: Query, env: Env)
    ensures Handle(cfg, l, DetailedReportRequest(Some(q.from), Some(q.to), q.limit, q.includeVoids), env).reply
         == Some(DetailedReply(EntriesOf(Selected(l.table, q))))
  {
    hide EntriesOf, Selected;
    assert QueryFor(Some(q.from), Some(q.to), q.limit, q.includeVoids, env.now) == q;
  }
}
