/** The terminal's loop for one connection: frames in, reply frames out. */
module Sessions {
  import opened Wrappers
  import opened Bytes
  import opened Decimals
  import opened Domain
  import opened Tables
  import opened Ledgers
  import opened Frames
  import opened FrameLaws
  import opened Handlers

  /** Message encoding, taken as given. No reply stands for the error body that answers an unsupported request. */
  datatype Codec = Codec(unmarshal: seq<byte> -> Option<Request>, marshal: Option<Reply> -> seq<byte>)

  /** What a connection depends on but does not change: `envs(i)` is met while the i-th message is handled. */
  datatype Setting = Setting(cfg: Config, codec: Codec, envs: nat -> Env)

  /** The state of a connection: ledger, sequence number of the last DATA reply, messages handled, replies sent. */
  datatype Session = Session(ledger: Ledger, sequence: uint16, handled: nat, replies: seq<Frame>)

  // ---------- Specification ----------

  function Sent(s: Session, f: Frame): Session {
    s.(replies := s.replies + [f])
  }

  /** One frame: the session after it, or None if the loop stops there. */
  function Serve(w: Setting, s: Session, f: Frame): Option<Session> {
    if f.kind == PING then Some(Sent(s, NewFrame(PONG, f.sequence, [])))
    else if f.kind == DATA then
      match w.codec.unmarshal(f.payload)
      case None => None
      case Some(req) =>
        var o := Handle(w.cfg, s.ledger, req, w.envs(s.handled));
        var s' := s.(ledger := o.ledger, handled := s.handled + 1);
        if o.reply == None then Some(Sent(s', NewFrame(DATA, f.sequence, w.codec.marshal(None))))
        else
          var n: uint16 := (s.sequence + 1) % 0x1_0000;
          Some(Sent(s'.(sequence := n), NewFrame(DATA, n, w.codec.marshal(o.reply))))
    else None
  }

  /** All frames up to the first that stops the loop. */
  function ServeAll(w: Setting, s: Session, frames: seq<Frame>): Session
    decreases |frames|
  {
    if frames == [] then s
    else
      match Serve(w, s, frames[0])
      case None => s
      case Some(s') => ServeAll(w, s', frames[1..])
  }

  /** The bytes of frames sent one after another. */
  function Encoded(frames: seq<Frame>): seq<byte> {
    if frames == [] then [] else Encoded(frames[..|frames| - 1]) + Encode(frames[|frames| - 1])
  }

  lemma EncodedOneMore(frames: seq<Frame>, f: Frame)
    ensures Encoded(frames + [f]) == Encoded(frames) + Encode(f)
  {
    hide Encode;
    assert (frames + [f])[..|frames|] == frames;
  }

  // ---------- The loop as the program performs it ----------

  /** Tables stay well formed, and active transactions under their own ids. */
  ghost predicate Sound(l: Ledger) {
    && WellFormed(l.table)
    && forall id :: id in l.active ==> l.active[id].id == id
  }

  lemma PaymentKeepsSound(l: Ledger, id: string, env: Env)
    requires Sound(l) && id in l.active
    ensures Sound(ProcessPayment(l, id, env).ledger)
  {
    hide RowOf, ReceiptText, Format, ResponseFor;
    var started := SetState(l, id, PaymentProcessing, env.now);
    if env.approved {
      var marked := MarkCompleted(started, id, env.confirmation, env.auth, env.now);
      InsertKeepsSound(marked, id);
      var completed := Complete(started, id, env.confirmation, env.auth, env.now);
      assert Sound(completed);
      CachingKeepsSound(completed, id, ResponseFor(completed.table.rows[id], env.confirmation, env.auth));
    } else {
      InsertKeepsSound(MarkFailed(started, id, DECLINED_TEXT, env.now), id);
    }
  }

  lemma InsertKeepsSound(l: Ledger, id: string)
    requires Sound(l) && id in l.active
    ensures Sound(Insert(l, id))
  {
    if InsertSucceeds(l, id) {
      hide LastFour, InSeconds, WellFormed, Evolves;
      assert RowOf(l.active[id]).fixed.id == id;
      AppendIsWellFormed(l.table, id, RowOf(l.active[id]));
    }
  }

  lemma CachingKeepsSound(l: Ledger, id: string, response: Response)
    requires Sound(l)
    ensures Sound(SetCached(l, id, response))
  {
  }

  lemma StampKeepsSound(l: Ledger, n: nat)
    requires Sound(l)
    ensures Sound(l.(table := StampOpen(l.table, n)))
  {
  }

  lemma UndoKeepsSound(l: Ledger, id: string, amount: uint32, now: Time)
    requires Sound(l)
    ensures Sound(Void(l, id, now)) && Sound(Refund(l, id, amount, now))
  {
  }

  lemma HandleKeepsSound(cfg: Config, l: Ledger, req: Request, env: Env)
    requires Sound(l)
    ensures Sound(Handle(cfg, l, req, env).ledger)
  {
    hide ProcessPayment, WellFormed;
    match req
    case PaymentProcessingRequest(id, bankId, aid, _, n) =>
      if id in l.active { PaymentKeepsSound(SetBank(l, id, bankId, aid, n, env.now), id, env); }
    case LoyaltyPointsConfirmation(id, points, value) =>
      if id in l.active { PaymentKeepsSound(SetLoyalty(l, id, true, points, value, env.now), id, env); }
    case PaymentCompletionRequest(id) => if id in l.active { PaymentKeepsSound(l, id, env); }
    case RefundRequest(id, amount) => UndoKeepsSound(l, id, amount, env.now);
    case VoidRequest(id) => UndoKeepsSound(l, id, 0, env.now);
    case ZReportRequest => StampKeepsSound(l, NextBatch(l));
    case _ =>
  }

  class ClientConnection {
    const reader: Reader
    const handler: MessageHandler
    var sequence: uint16
    var written: seq<byte>
    ghost var replies: seq<Frame>
    var handled: nat

    ghost predicate Valid()
      reads this, reader, handler.txnManager
    {
      reader.Valid() && Sound(handler.Value()) && written == Encoded(replies)
    }

    ghost function Value(): Session
      reads this, handler.txnManager
    {
      Session(handler.Value(), sequence, handled, replies)
    }

    constructor (reader: Reader, handler: MessageHandler)
      requires reader.Valid() && Sound(handler.Value())
      ensures Valid() && this.reader == reader && this.handler == handler
      ensures Value() == Session(handler.Value(), 0, 0, [])
    {
      this.reader, this.handler := reader, handler;
      sequence, written, replies, handled := 0, [], [], 0;
    }

    /** sendFrame. */
    method SendFrame(f: Frame)
      requires Valid()
      modifies this`written, this`replies
      ensures Valid() && Value() == Sent(old(Value()), f)
    {
      hide Encode, WellFormed;
      EncodedOneMore(replies, f);
      var data := Serialize(f);
      written := written + data[..];
      replies := replies + [f];
    }
  }

  /** handleFrame: false when the loop has to stop. */
  method HandleFrame(client: ClientConnection, w: Setting, f: Frame) returns (ok: bool)
    requires client.Valid() && w.cfg == client.handler.txnManager.config
    modifies client, client.handler.txnManager
    ensures client.Valid()
    ensures var next := Serve(w, old(client.Value()), f);
            ok == next.Some? && client.Value() == (if ok then next.value else old(client.Value()))
  {
    hide Handle, WellFormed, NewFrame, IsValid, Encoded;
    if f.kind == PING {
      client.SendFrame(NewFrame(PONG, f.sequence, []));
      return true;
    }
    if f.kind != DATA {
      return false;
    }
    var msg := w.codec.unmarshal(f.payload);
    if msg == None {
      return false;
    }
    HandleKeepsSound(w.cfg, client.handler.Value(), msg.value, w.envs(client.handled));
    var response := client.handler.HandleMessage(msg.value, w.envs(client.handled));
    client.handled := client.handled + 1;
    if response == None {
      client.SendFrame(NewFrame(DATA, f.sequence, w.codec.marshal(None)));
      return true;
    }
    client.sequence := (client.sequence + 1) % 0x1_0000;
    client.SendFrame(NewFrame(DATA, client.sequence, w.codec.marshal(response)));
    return true;
  }

  /** handleClientMessages: serves frames until one cannot be read or stops the loop. */
  method HandleClientMessages(client: ClientConnection, w: Setting)
    requires client.Valid() && w.cfg == client.handler.txnManager.config
    modifies client, client.reader, client.handler.txnManager
    ensures client.Valid()
    ensures client.Value() == ServeAll(w, old(client.Value()), ReadAll(old(client.reader.Rest())).0)
  {
    hide Serve, Read, Encoded, WellFormed;
    ghost var end := ServeAll(w, client.Value(), ReadAll(client.reader.Rest()).0);
    while true
      invariant client.Valid()
      invariant end == ServeAll(w, client.Value(), ReadAll(client.reader.Rest()).0)
      decreases |client.reader.input| - client.reader.pos
    {
      ghost var rest := client.reader.Rest();
      var frame := ReadFrame(client.reader);
      if frame.Failure? {
        return;
      }
      assert client.reader.Rest() == rest[Read(rest).used..];
      assert ReadAll(rest).0 == [frame.value] + ReadAll(client.reader.Rest()).0;
      var ok := HandleFrame(client, w, frame.value);
      if !ok {
        return;
      }
    }
  }
}
