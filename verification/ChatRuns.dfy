/** The bookkeeping of conversations (`src/realtime/ChatController.ts`): what each event does to messages,
    session states, received ids and receipts, page reloads and restored histories included. */
module ChatRuns {
  import opened Terms
  import Bytes
  import opened ChatHistory
  import DedupWindow

  datatype Kind = DeliveryReceipt | ReadReceipt

  /** An outbound message as its send names it. */
  datatype Outbound = Outbound(peer: string, id: string, wireId: string)

  /** A receipt that came for a message whose send the transport had taken. */
  datatype Receipt = Receipt(message: Outbound, kind: Kind)

  /** A receipt handed to the transport, which may drop it. */
  datatype Signal = Signal(to: string, kind: Kind, id: string)

  /** A send in progress: the message and the conversation object. */
  datatype Send = Send(message: Outbound, identity: nat)

  datatype SendError = SessionInitFailed | SendFailed

  /** `stored` is every conversation ever written to the store: a restore may read any of them.
      `sent`, `receipts` and `signals` record the sends that the transport took, the receipts accepted for
      them and the receipts emitted. */
  datatype Chat = Chat(conversations: map<string, Conversation>, received: seq<string>,
                       activePeer: Option<string>, nextSerial: nat, inFlight: map<nat, Send>,
                       stored: set<(string, SavedConversation)>, receipts: set<Receipt>,
                       sent: set<Outbound>, signals: seq<Signal>)

  // ---------- Small steps ----------

  /** `OUTBOUND_STATUS_INDEX[status ?? 'failed']`. */
  function StatusIndex(status: Option<Status>): int {
    match status
    case Some(Sending) => 0
    case Some(Sent) => 1
    case Some(Delivered) => 2
    case Some(Read) => 3
    case Some(Failed) => -1
    case None => -1
  }

  function StatusOf(kind: Kind): Status { if kind.DeliveryReceipt? then Delivered else Read }

  /** `ensureConversation`. */
  function Ensured(s: Chat, peer: string, now: int): Chat {
    if peer in s.conversations then s
    else s.(conversations := s.conversations[peer := NewConversation(s.nextSerial, now)],
            nextSerial := s.nextSerial + 1)
  }

  function WithConversation(s: Chat, peer: string, c: Conversation): Chat {
    s.(conversations := s.conversations[peer := c])
  }

  /** Sets the outcome of a send on its message object, if the list still has it. */
  function Settled(ms: seq<Message>, serial: nat, ok: bool, error: string): seq<Message> {
    if ms == [] then []
    else if ms[0].serial == serial
      then [ms[0].(status := Some(if ok then Sent else Failed),
                   errorMessage := if ok then ms[0].errorMessage else Some(error))] + ms[1..]
    else [ms[0]] + Settled(ms[1..], serial, ok, error)
  }

  predicate Names(m: Message, wireId: string) { m.outgoing && m.wireId == Some(wireId) }

  function Raised(m: Message, kind: Kind): Message {
    if StatusIndex(m.status) < 1 || StatusIndex(Some(StatusOf(kind))) <= StatusIndex(m.status) then m
    else m.(status := Some(StatusOf(kind)))
  }

  /** The loop of `handleReceipt`: the first outbound message that the receipt names. */
  function Receipted(ms: seq<Message>, wireId: string, kind: Kind): seq<Message> {
    if ms == [] then []
    else if Names(ms[0], wireId) then [Raised(ms[0], kind)] + ms[1..]
    else [ms[0]] + Receipted(ms[1..], wireId, kind)
  }

  predicate Unacknowledged(m: Message) { !m.outgoing && !m.readAckSent }

  /** The loop of `emitReadReceipts`: the messages after it, and the receipts it emits. */
  function Acknowledged(ms: seq<Message>): seq<Message> {
    if ms == [] then []
    else [if Unacknowledged(ms[0]) then ms[0].(readAckSent := true) else ms[0]] + Acknowledged(ms[1..])
  }

  function ReadReceipts(peer: string, ms: seq<Message>): seq<Signal> {
    if ms == [] then []
    else (if Unacknowledged(ms[0]) then [Signal(peer, ReadReceipt, ms[0].id)] else []) + ReadReceipts(peer, ms[1..])
  }

  /** `plaintext.trim()` is empty. */
  predicate Blank(text: string) { forall i | 0 <= i < |text| :: Bytes.IsWhitespace(text[i]) }

  const DECRYPT_FAILED: string := "session_decrypt_failed"
  const INVALID_BUNDLE: string := "invalid_bundle"

  // ---------- Events ----------

  /** What became of the payload of a text envelope. */
  datatype Payload = Plain(text: string) | NotBase64 | Undecryptable

  /** What became of the establishment of a session. A transport that throws leaves a session behind. */
  datatype Opening = Opened | TransportThrew(threw: string) | OpeningFailed(failure: string)

  datatype Event =
    | BeginSend(peer: string, id: string, wireId: string, self: string, plaintext: string, now: int)
    | FinishSend(serial: nat, ok: bool, error: string, code: string)
    | GetReceipt(peer: string, envelope: string, wireId: string, kind: Kind)
    | GetText(peer: string, envelope: string, recipient: string, timestamp: int, now: int, payload: Payload)
    | GetTyping(peer: string, envelope: string, now: int)
    | GetSessionAccept(peer: string, envelope: string, now: int)
    | GetSessionInit(peer: string, envelope: string, now: int, fault: Option<string>)
    | SessionAccepted(peer: string, identity: nat)
    | SessionFault(peer: string, now: int, code: string)
    | OpenConversation(peer: string, now: int)
    | EndOpening(peer: string, identity: nat, opening: Opening, now: int)
    | SetActivePeer(active: Option<string>)
    | MarkRead(peer: string)
    | Save(peer: string)
    | Hydrate(peer: string, history: SavedConversation)
    | DeleteMessage(peer: string, id: string)
    | CloseConversation(peer: string)
    | ClearSessions
    | Reload

  function OutboundMessage(e: Event, serial: nat): Message
    requires e.BeginSend?
  {
    Message(serial, e.id, Some(e.wireId), e.self, e.peer, e.plaintext, e.now, true, Some(Sending), None, false)
  }

  function Begun(s: Chat, e: Event): (Chat, Result<nat, SendError>)
    requires e.BeginSend?
  {
    var t := Ensured(s, e.peer, e.now);
    var c := t.conversations[e.peer];
    if !c.ready then (t, Err(SessionInitFailed))
    else if Blank(e.plaintext) || c.sending then (t, Err(SendFailed))
    else
      (t.(conversations := t.conversations[e.peer := c.(messages := c.messages + [OutboundMessage(e, t.nextSerial)],
                                                        lastActivityAt := e.now, sending := true)],
          nextSerial := t.nextSerial + 1,
          inFlight := t.inFlight[t.nextSerial := Send(Outbound(e.peer, e.id, e.wireId), c.identity)]),
       Ok(t.nextSerial))
  }

  function Finished(s: Chat, serial: nat, ok: bool, error: string, code: string): Chat {
    if serial !in s.inFlight then s
    else
      var send := s.inFlight[serial];
      var peer := send.message.peer;
      var t := s.(inFlight := s.inFlight - {serial}, sent := if ok then s.sent + {send.message} else s.sent);
      if peer !in s.conversations || s.conversations[peer].identity != send.identity then t
      else
        var c := s.conversations[peer];
        t.(conversations := t.conversations[peer := c.(messages := Settled(c.messages, serial, ok, error),
                                                            session := if ok then c.session else Faulty(code),
                                                            sending := false)])
  }

  /** The messages taken so far that a receipt from the peer names. */
  function Named(sent: set<Outbound>, peer: string, wireId: string): set<Outbound> {
    set x | x in sent && x.peer == peer && x.wireId == wireId
  }

  function Receipts(named: set<Outbound>, kind: Kind): set<Receipt> {
    set x | x in named :: Receipt(x, kind)
  }

  function GotReceipt(s: Chat, sender: string, envelope: string, wireId: string, kind: Kind): Chat {
    var (window, accepted) := DedupWindow.Marked(s.received, envelope);
    if !accepted then s
    else
      var t := s.(received := window, receipts := s.receipts + Receipts(Named(s.sent, sender, wireId), kind));
      if sender !in s.conversations then t
      else
        var c := s.conversations[sender];
        t.(conversations := t.conversations[sender := c.(messages := Receipted(c.messages, wireId, kind))])
  }

  function InboundMessage(e: Event, serial: nat, beingRead: bool): Message
    requires e.GetText? && e.payload.Plain?
  {
    Message(serial, e.envelope, Some(e.envelope), e.peer, e.recipient, e.payload.text, e.timestamp, false,
            None, None, beingRead)
  }

  function GotText(s: Chat, e: Event): Chat
    requires e.GetText?
  {
    var (window, accepted) := DedupWindow.Marked(s.received, e.envelope);
    if !accepted then s
    else
      var t := Ensured(s.(received := window), e.peer, e.now);
      var c := t.conversations[e.peer].(lastActivityAt := e.now);
      if !c.ready || e.payload.Undecryptable? then WithConversation(t, e.peer, c.(session := Faulty(DECRYPT_FAILED)))
      else if e.payload.NotBase64? then WithConversation(t, e.peer, c.(session := Faulty(INVALID_BUNDLE)))
      else
        var beingRead := s.activePeer == Some(e.peer);
        t.(conversations := t.conversations[e.peer :=
             c.(messages := c.messages + [InboundMessage(e, t.nextSerial, beingRead)],
                unreadCount := if beingRead then c.unreadCount else c.unreadCount + 1)],
           nextSerial := t.nextSerial + 1,
           signals := t.signals + [Signal(e.peer, DeliveryReceipt, e.envelope)]
                      + if beingRead then [Signal(e.peer, ReadReceipt, e.envelope)] else [])
  }

  /** A conversation that exists afterwards, with new activity. */
  function Touched(s: Chat, peer: string, now: int): Chat {
    var t := Ensured(s, peer, now);
    WithConversation(t, peer, t.conversations[peer].(lastActivityAt := now))
  }

  /** `recordSessionError`. */
  function Faulted(s: Chat, peer: string, now: int, code: string): Chat {
    var t := Ensured(s, peer, now);
    WithConversation(t, peer, t.conversations[peer].(lastActivityAt := now, session := Faulty(code)))
  }

  function GotTyping(s: Chat, peer: string, envelope: string, now: int): Chat {
    var (window, accepted) := DedupWindow.Marked(s.received, envelope);
    if accepted then Touched(s.(received := window), peer, now) else s
  }

  function GotSessionAccept(s: Chat, peer: string, envelope: string, now: int): Chat {
    var (window, accepted) := DedupWindow.Marked(s.received, envelope);
    if !accepted then s
    else if peer in s.conversations then Touched(s.(received := window), peer, now)
    else s.(received := window)
  }

  /** `handleSessionInit` up to the handshake; `fault` is what refuses it before that. */
  function GotSessionInit(s: Chat, peer: string, envelope: string, now: int, fault: Option<string>): Chat {
    var (window, accepted) := DedupWindow.Marked(s.received, envelope);
    if !accepted then s
    else if fault.Some? then Faulted(s.(received := window), peer, now, fault.value)
    else Touched(s.(received := window), peer, now)
  }

  predicate Is(s: Chat, peer: string, identity: nat) {
    peer in s.conversations && s.conversations[peer].identity == identity
  }

  /** The handshake of a `session_init` succeeded: the conversation object gets the session. */
  function Accepted(s: Chat, peer: string, identity: nat): Chat {
    if !Is(s, peer, identity) then s
    else WithConversation(s, peer, s.conversations[peer].(ready := true, session := Established(false)))
  }

  /** `openConversation` up to its first `await`. */
  function Opens(s: Chat, peer: string, now: int): Chat {
    var t := Touched(s, peer, now);
    var c := t.conversations[peer];
    if c.ready || c.initiating then t else WithConversation(t, peer, c.(initiating := true, session := Initiating))
  }

  function EndsOpening(s: Chat, peer: string, identity: nat, opening: Opening, now: int): Chat {
    if !Is(s, peer, identity) then s
    else
      var c := s.conversations[peer].(initiating := false);
      WithConversation(s, peer,
        match opening
        case Opened => c.(ready := true, session := Established(true), lastActivityAt := now)
        case TransportThrew(code) => c.(ready := true, session := Faulty(code))
        case OpeningFailed(code) => c.(session := Faulty(code)))
  }

  /** `emitReadReceipts`. */
  function Reads(s: Chat, peer: string): Chat {
    if peer !in s.conversations then s
    else
      var c := s.conversations[peer];
      s.(conversations := s.conversations[peer := c.(messages := Acknowledged(c.messages), unreadCount := 0)],
         signals := s.signals + ReadReceipts(peer, c.messages))
  }

  function Activated(s: Chat, active: Option<string>): Chat {
    if s.activePeer == active then s
    else
      var t := s.(activePeer := active);
      if active.Some? then Reads(t, active.value) else t
  }

  function Stores(s: Chat, peer: string): Chat {
    if peer !in s.conversations then s
    else s.(stored := s.stored + {(peer, SerializeConversation(s.conversations[peer]))})
  }

  function Live(s: Chat, peer: string): Option<Conversation> {
    if peer in s.conversations then Some(s.conversations[peer]) else None
  }

  function Hydrated(s: Chat, peer: string, history: SavedConversation): Chat {
    if (peer, history) !in s.stored then s
    else s.(conversations := s.conversations[peer := Restore(Live(s, peer), history, s.nextSerial)],
            nextSerial := s.nextSerial + 1 + |history.messages|)
  }

  function Deleted(s: Chat, peer: string, id: string): Chat {
    if peer !in s.conversations then s
    else
      var c := s.conversations[peer];
      s.(conversations := s.conversations[peer := c.(messages := Without(c.messages, id))])
  }

  function Closed(s: Chat, peer: string): Chat {
    if peer !in s.conversations then s
    else s.(conversations := s.conversations - {peer},
            activePeer := if s.activePeer == Some(peer) then None else s.activePeer)
  }

  function Apply(s: Chat, e: Event): Chat {
    match e
    case BeginSend(_, _, _, _, _, _) => Begun(s, e).0
    case FinishSend(serial, ok, error, code) => Finished(s, serial, ok, error, code)
    case GetReceipt(peer, envelope, wireId, kind) => GotReceipt(s, peer, envelope, wireId, kind)
    case GetText(_, _, _, _, _, _) => GotText(s, e)
    case GetTyping(peer, envelope, now) => GotTyping(s, peer, envelope, now)
    case GetSessionAccept(peer, envelope, now) => GotSessionAccept(s, peer, envelope, now)
    case GetSessionInit(peer, envelope, now, fault) => GotSessionInit(s, peer, envelope, now, fault)
    case SessionAccepted(peer, identity) => Accepted(s, peer, identity)
    case SessionFault(peer, now, code) => Faulted(s, peer, now, code)
    case OpenConversation(peer, now) => Opens(s, peer, now)
    case EndOpening(peer, identity, opening, now) => EndsOpening(s, peer, identity, opening, now)
    case SetActivePeer(active) => Activated(s, active)
    case MarkRead(peer) => Reads(s, peer)
    case Save(peer) => Stores(s, peer)
    case Hydrate(peer, history) => Hydrated(s, peer, history)
    case DeleteMessage(peer, id) => Deleted(s, peer, id)
    case CloseConversation(peer) => Closed(s, peer)
    case ClearSessions =>
      s.(conversations := map[], received := [], activePeer := None,
         stored := s.stored + set p | p in s.conversations :: (p, SerializeConversation(s.conversations[p])))
    case Reload => s.(conversations := map[], received := [], activePeer := None, inFlight := map[])
  }

  function Run(s: Chat, events: seq<Event>): Chat
    decreases |events|
  {
    if events == [] then s else Run(Apply(s, events[0]), events[1..])
  }

  const START: Chat := Chat(map[], [], None, 0, map[], {}, {}, {}, [])
}
