/** The class `ChatController` of `src/realtime/ChatController.ts`, as far as it keeps messages, session states
    and receipts: each method is proved to do what `ChatRuns.dfy` says of its event. Events run one after the
    other; the clock, the transport, the handshakes and decryption are parameters. */
module ChatController {
  import opened Terms
  import opened ChatHistory
  import opened ChatRuns
  import DedupWindow

  class ChatController {
    var conversations: map<string, Conversation>
    var receivedMessageIds: seq<string>
    var activePeer: Option<string>
    var nextSerial: nat
    var inFlight: map<nat, Send>
    var signals: seq<Signal>
    ghost var stored: set<(string, SavedConversation)>
    ghost var receipts: set<Receipt>
    ghost var sent: set<Outbound>

    ghost function Value(): Chat
      reads this
    {
      Chat(conversations, receivedMessageIds, activePeer, nextSerial, inFlight, stored, receipts, sent, signals)
    }

    constructor ()
      ensures Value() == START
    {
      conversations, receivedMessageIds, activePeer, nextSerial, inFlight := map[], [], None, 0, map[];
      stored, receipts, sent, signals := {}, {}, {}, [];
    }

    method MarkReceived(id: string) returns (isNew: bool)
      modifies `receivedMessageIds
      ensures (receivedMessageIds, isNew) == DedupWindow.Marked(old(receivedMessageIds), id)
    {
      if id in receivedMessageIds { return false; }
      receivedMessageIds := receivedMessageIds + [id];
      if |receivedMessageIds| > DedupWindow.MAX_RECEIVED_IDS {
        var ids := receivedMessageIds;
        var kept := ids[|ids| - DedupWindow.MAX_RECEIVED_IDS / 2..];
        receivedMessageIds := [];
        for i := 0 to |kept|
          invariant receivedMessageIds == kept[..i]
        {
          receivedMessageIds := receivedMessageIds + [kept[i]];
        }
        assert kept[..|kept|] == kept;
      }
      return true;
    }

    method EnsureConversation(peer: string, now: int)
      modifies `conversations, `nextSerial
      ensures Value() == Ensured(old(Value()), peer, now)
    {
      if peer !in conversations {
        conversations := conversations[peer := NewConversation(nextSerial, now)];
        nextSerial := nextSerial + 1;
      }
    }

    /** `sendText` up to its first `await`. */
    method BeginSend(e: Event) returns (r: Result<nat, SendError>)
      requires e.BeginSend?
      modifies this
      ensures (Value(), r) == Begun(old(Value()), e)
    {
      EnsureConversation(e.peer, e.now);
      var c := conversations[e.peer];
      if !c.ready { return Err(SessionInitFailed); }
      if Blank(e.plaintext) { return Err(SendFailed); }
      if c.sending { return Err(SendFailed); }
      var serial := nextSerial;
      nextSerial := nextSerial + 1;
      var outbound := OutboundMessage(e, serial);
      conversations := conversations[e.peer := c.(messages := c.messages + [outbound],
                                                  lastActivityAt := e.now, sending := true)];
      inFlight := inFlight[serial := Send(Outbound(e.peer, e.id, e.wireId), c.identity)];
      return Ok(serial);
    }

    /** `sendText` after the encryption and the hand-over to the transport came out as `ok`. */
    method FinishSend(serial: nat, ok: bool, error: string, code: string)
      modifies this
      ensures Value() == Finished(old(Value()), serial, ok, error, code)
    {
      if serial !in inFlight { return; }
      var send := inFlight[serial];
      var peer := send.message.peer;
      inFlight := inFlight - {serial};
      if ok { sent := sent + {send.message}; }
      if peer in conversations && conversations[peer].identity == send.identity {
        var c := conversations[peer];
        if !ok { c := c.(session := Faulty(code)); }
        conversations := conversations[peer := c.(messages := Settled(c.messages, serial, ok, error),
                                                       sending := false)];
      }
    }

    method HandleReceipt(sender: string, envelope: string, wireId: string, kind: Kind)
      modifies this
      ensures Value() == GotReceipt(old(Value()), sender, envelope, wireId, kind)
    {
      var isNew := MarkReceived(envelope);
      if !isNew { return; }
      receipts := receipts + Receipts(Named(sent, sender, wireId), kind);
      if sender !in conversations { return; }
      var c := conversations[sender];
      var messages := RaiseFirst(c.messages, wireId, kind);
      conversations := conversations[sender := c.(messages := messages)];
    }

    /** The loop of `handleReceipt`. */
    static method RaiseFirst(before: seq<Message>, wireId: string, kind: Kind) returns (messages: seq<Message>)
      ensures messages == Receipted(before, wireId, kind)
    {
      messages := before;
      for i := 0 to |before|
        invariant messages == before && forall j | 0 <= j < i :: !Names(before[j], wireId)
      {
        if Names(before[i], wireId) {
          var current := StatusIndex(before[i].status);
          if current >= 1 && StatusIndex(Some(StatusOf(kind))) > current {
            messages := messages[i := messages[i].(status := Some(StatusOf(kind)))];
          }
          FirstNamed(before, i, wireId, kind);
          return;
        }
      }
      FirstNamed(before, |before|, wireId, kind);
    }

    /** The message that a receipt raises is the first that it names. */
    static lemma {:induction false} FirstNamed(ms: seq<Message>, i: nat, wireId: string, kind: Kind)
      requires i <= |ms| && forall j | 0 <= j < i :: !Names(ms[j], wireId)
      requires i < |ms| ==> Names(ms[i], wireId)
      ensures Receipted(ms, wireId, kind) == if i < |ms| then ms[i := Raised(ms[i], kind)] else ms
      decreases i
    {
      if i > 0 {
        FirstNamed(ms[1..], i - 1, wireId, kind);
        assert ms == [ms[0]] + ms[1..];
        if i < |ms| { assert ms[i := Raised(ms[i], kind)] == [ms[0]] + ms[1..][i - 1 := Raised(ms[i], kind)]; }
      } else if ms != [] {
        assert ms[0 := Raised(ms[0], kind)] == [Raised(ms[0], kind)] + ms[1..];
      }
    }

    method HandleText(e: Event)
      requires e.GetText?
      modifies this
      ensures Value() == GotText(old(Value()), e)
    {
      var isNew := MarkReceived(e.envelope);
      if !isNew { return; }
      EnsureConversation(e.peer, e.now);
      var c := conversations[e.peer].(lastActivityAt := e.now);
      if !c.ready {
        conversations := conversations[e.peer := c.(session := Faulty(DECRYPT_FAILED))];
        return;
      }
      match e.payload
      case NotBase64 => RecordSessionError(e.peer, e.now, INVALID_BUNDLE);
      case Undecryptable => conversations := conversations[e.peer := c.(session := Faulty(DECRYPT_FAILED))];
      case Plain(_) =>
        var beingRead := activePeer == Some(e.peer);
        c := c.(messages := c.messages + [InboundMessage(e, nextSerial, beingRead)]);
        nextSerial := nextSerial + 1;
        SendSignal(e.peer, DeliveryReceipt, e.envelope);
        if beingRead {
          SendSignal(e.peer, ReadReceipt, e.envelope);
        } else {
          c := c.(unreadCount := c.unreadCount + 1);
        }
        conversations := conversations[e.peer := c];
    }

    method SendSignal(recipient: string, kind: Kind, id: string)
      modifies `signals
      ensures signals == old(signals) + [Signal(recipient, kind, id)]
    {
      signals := signals + [Signal(recipient, kind, id)];
    }

    method RecordSessionError(peer: string, now: int, code: string)
      modifies `conversations, `nextSerial
      ensures Value() == Faulted(old(Value()), peer, now, code)
    {
      EnsureConversation(peer, now);
      conversations := conversations[peer := conversations[peer].(lastActivityAt := now, session := Faulty(code))];
    }

    method HandleTyping(peer: string, envelope: string, now: int)
      modifies this
      ensures Value() == GotTyping(old(Value()), peer, envelope, now)
    {
      var isNew := MarkReceived(envelope);
      if !isNew { return; }
      EnsureConversation(peer, now);
      conversations := conversations[peer := conversations[peer].(lastActivityAt := now)];
    }

    method HandleSessionAccept(peer: string, envelope: string, now: int)
      modifies this
      ensures Value() == GotSessionAccept(old(Value()), peer, envelope, now)
    {
      var isNew := MarkReceived(envelope);
      if !isNew || peer !in conversations { return; }
      conversations := conversations[peer := conversations[peer].(lastActivityAt := now)];
    }

    /** `handleSessionInit` up to the handshake; `fault` is what refuses it before that. */
    method HandleSessionInit(peer: string, envelope: string, now: int, fault: Option<string>)
      modifies this
      ensures Value() == GotSessionInit(old(Value()), peer, envelope, now, fault)
    {
      var isNew := MarkReceived(envelope);
      if !isNew { return; }
      if fault.Some? {
        RecordSessionError(peer, now, fault.value);
        return;
      }
      EnsureConversation(peer, now);
      conversations := conversations[peer := conversations[peer].(lastActivityAt := now)];
    }

    /** `openConversation` up to its first `await`. */
    method OpenConversation(peer: string, now: int)
      modifies `conversations, `nextSerial
      ensures Value() == Opens(old(Value()), peer, now)
    {
      EnsureConversation(peer, now);
      var c := conversations[peer].(lastActivityAt := now);
      if !c.ready && !c.initiating { c := c.(initiating := true, session := Initiating); }
      conversations := conversations[peer := c];
    }

    /** `openConversation` after the session was established or not, on the object that it holds. */
    method EndOpening(peer: string, identity: nat, opening: Opening, now: int)
      modifies `conversations
      ensures Value() == EndsOpening(old(Value()), peer, identity, opening, now)
    {
      if peer !in conversations || conversations[peer].identity != identity { return; }
      var c := conversations[peer];
      match opening {
        case Opened =>
          c := c.(ready := true, session := Established(true), initiating := false);
          c := c.(lastActivityAt := now);
        case TransportThrew(code) =>
          c := c.(ready := true, session := Established(true), initiating := false);
          c := c.(session := Faulty(code));
        case OpeningFailed(code) => c := c.(initiating := false, session := Faulty(code));
      }
      conversations := conversations[peer := c];
    }

    /** `handleSessionInit` after its handshake succeeded. */
    method AcceptSession(peer: string, identity: nat)
      modifies `conversations
      ensures Value() == Accepted(old(Value()), peer, identity)
    {
      if peer !in conversations || conversations[peer].identity != identity { return; }
      conversations := conversations[peer := conversations[peer].(ready := true, session := Established(false))];
    }

    method SetActivePeer(active: Option<string>)
      modifies `activePeer, `conversations, `signals
      ensures Value() == Activated(old(Value()), active)
    {
      if activePeer == active { return; }
      activePeer := active;
      if active.Some? { MarkConversationRead(active.value); }
    }

    method MarkConversationRead(peer: string)
      modifies `conversations, `signals
      ensures Value() == Reads(old(Value()), peer)
    {
      if peer !in conversations { return; }
      var c := conversations[peer];
      var messages := EmitReadReceipts(peer, c.messages);
      conversations := conversations[peer := c.(messages := messages, unreadCount := 0)];
    }

    /** The loop of `emitReadReceipts`. */
    method EmitReadReceipts(peer: string, before: seq<Message>) returns (messages: seq<Message>)
      modifies `signals
      ensures messages == Acknowledged(before)
      ensures signals == old(signals) + ReadReceipts(peer, before)
    {
      messages := [];
      for i := 0 to |before|
        invariant messages + Acknowledged(before[i..]) == Acknowledged(before)
        invariant signals + ReadReceipts(peer, before[i..]) == old(signals) + ReadReceipts(peer, before)
      {
        AcknowledgeOne(peer, before, i, messages, signals);
        if Unacknowledged(before[i]) {
          messages := messages + [before[i].(readAckSent := true)];
          SendSignal(peer, ReadReceipt, before[i].id);
        } else {
          messages := messages + [before[i]];
        }
      }
      assert messages + [] == messages && signals + [] == signals;
    }

    /** One round of that loop. */
    static lemma AcknowledgeOne(peer: string, ms: seq<Message>, i: nat, messages: seq<Message>, signals: seq<Signal>)
      requires i < |ms|
      ensures var after := if Unacknowledged(ms[i]) then ms[i].(readAckSent := true) else ms[i];
              messages + Acknowledged(ms[i..]) == messages + [after] + Acknowledged(ms[i + 1..])
      ensures var more := if Unacknowledged(ms[i]) then [Signal(peer, ReadReceipt, ms[i].id)] else [];
              signals + ReadReceipts(peer, ms[i..]) == signals + more + ReadReceipts(peer, ms[i + 1..])
      ensures !Unacknowledged(ms[i]) ==>
                signals + ReadReceipts(peer, ms[i..]) == signals + ReadReceipts(peer, ms[i + 1..])
    {
      assert ms[i..][0] == ms[i] && ms[i..][1..] == ms[i + 1..];
      assert signals + [] == signals;
    }

    method CloseConversation(peer: string)
      modifies `conversations, `activePeer
      ensures Value() == Closed(old(Value()), peer)
    {
      if peer !in conversations { return; }
      if activePeer == Some(peer) { activePeer := None; }
      conversations := conversations - {peer};
    }

    method RestoreConversation(peer: string, persisted: SavedConversation)
      requires (peer, persisted) in stored
      modifies `conversations, `nextSerial
      ensures Value() == Hydrated(old(Value()), peer, persisted)
    {
      hide Merged;
      var existing := peer in conversations;
      var c := if existing then conversations[peer]
               else NewConversation(nextSerial, persisted.lastActivityAt).(unreadCount := persisted.unreadCount);
      var first := if existing then nextSerial else nextSerial + 1;
      if existing {
        c := c.(lastActivityAt := Max(c.lastActivityAt, persisted.lastActivityAt));
        if persisted.unreadCount > c.unreadCount { c := c.(unreadCount := persisted.unreadCount); }
      }
      var messages := MergeMessages(c.messages, persisted.messages, first);
      conversations := conversations[peer := c.(messages := messages)];
      nextSerial := nextSerial + 1 + |persisted.messages|;
    }

    /** The loop and the sort of `restoreConversation`. */
    static method MergeMessages(live: seq<Message>, saved: seq<Saved>, serial: nat) returns (messages: seq<Message>)
      ensures messages == Merged(live, saved, serial)
    {
      messages := live;
      var incoming := Ids(live);
      var next := serial;
      for i := 0 to |saved|
        invariant messages + NewOnes(incoming, saved[i..], next) == live + NewOnes(Ids(live), saved, serial)
      {
        assert saved[i..][1..] == saved[i + 1..];
        if saved[i].id !in incoming {
          ghost var rest := NewOnes(incoming + {saved[i].id}, saved[i + 1..], next + 1);
          ghost var added := ToDisplayMessage(saved[i], next);
          assert messages + ([added] + rest) == messages + [added] + rest;
          incoming := incoming + {saved[i].id};
          messages := messages + [ToDisplayMessage(saved[i], next)];
          next := next + 1;
        }
      }
      assert NewOnes(incoming, saved[|saved|..], next) == [] && messages + [] == messages;
      messages := SortByTime(messages);
    }

    method DeleteMessageLocally(peer: string, id: string)
      modifies `conversations
      ensures Value() == Deleted(old(Value()), peer, id)
    {
      if peer !in conversations { return; }
      var c := conversations[peer];
      var index := 0;
      while index < |c.messages| && c.messages[index].id != id
        invariant 0 <= index <= |c.messages| && forall j | 0 <= j < index :: c.messages[j].id != id
      {
        index := index + 1;
      }
      FirstWithId(c.messages, index, id);
      if index == |c.messages| {
        SameConversation(conversations, peer);
        return;
      }
      conversations := conversations[peer := c.(messages := c.messages[..index] + c.messages[index + 1..])];
    }

    static lemma SameConversation(conversations: map<string, Conversation>, peer: string)
      requires peer in conversations
      ensures var c := conversations[peer]; conversations[peer := c.(messages := c.messages)] == conversations
    {
    }

    /** The message that is deleted is the first with the id. */
    static lemma {:induction false} FirstWithId(ms: seq<Message>, i: nat, id: string)
      requires i <= |ms| && forall j | 0 <= j < i :: ms[j].id != id
      requires i < |ms| ==> ms[i].id == id
      ensures Without(ms, id) == if i < |ms| then ms[..i] + ms[i + 1..] else ms
      decreases i
    {
      if i > 0 {
        FirstWithId(ms[1..], i - 1, id);
        assert ms == [ms[0]] + ms[1..];
        if i < |ms| { GapMoves(ms, i); }
      } else if ms != [] {
        assert ms[..0] + ms[1..] == ms[1..];
      }
    }

    static lemma GapMoves(ms: seq<Message>, i: nat)
      requires 0 < i < |ms|
      ensures ms[..i] + ms[i + 1..] == [ms[0]] + (ms[1..][..i - 1] + ms[1..][i..])
    {
      assert ms[..i] == [ms[0]] + ms[1..][..i - 1];
      assert ms[i + 1..] == ms[1..][i..];
    }
  }
}
