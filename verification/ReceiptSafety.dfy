/** What holds of messages over every run: a status only moves forward, what it claims is backed by what was
    observed, and receipts are emitted for what was read and for nothing else. */
module ReceiptSafety {
  import opened Terms
  import opened ChatHistory
  import opened ChatRuns

  // ---------- The invariant ----------

  /** What a status claims: a send that was taken, and a receipt for it. */
  predicate Backed(receipts: set<Receipt>, sent: set<Outbound>, peer: string, id: string,
                   wireId: Option<string>, status: Option<Status>)
  {
    Confirmed(status) ==>
      && wireId.Some?
      && var x := Outbound(peer, id, wireId.value);
      && x in sent
      && (status == Some(Delivered) ==> Receipt(x, DeliveryReceipt) in receipts)
      && (status == Some(Read) ==> Receipt(x, ReadReceipt) in receipts)
  }

  /** The receipts that were emitted for an inbound message. */
  predicate Acked(signals: seq<Signal>, peer: string, id: string, readAckSent: bool) {
    && Signal(peer, DeliveryReceipt, id) in signals
    && (readAckSent ==> Signal(peer, ReadReceipt, id) in signals)
  }

  /** A message of the conversation object `identity`: it is being sent exactly when a send in progress
      holds on to it. */
  predicate MessageOk(s: Chat, peer: string, identity: nat, m: Message) {
    && m.serial < s.nextSerial
    && (m.serial in s.inFlight <==> m.outgoing && m.status == Some(Sending))
    && (m.serial in s.inFlight ==>
          m.wireId.Some? && s.inFlight[m.serial] == Send(Outbound(peer, m.id, m.wireId.value), identity))
    && (if m.outgoing then m.status.Some? && Backed(s.receipts, s.sent, peer, m.id, m.wireId, m.status)
        else Acked(s.signals, peer, m.id, m.readAckSent))
  }

  /** No object is in the list twice. */
  ghost predicate OneEach(ms: seq<Message>) {
    && (forall m {:trigger multiset(ms)[m]} | m in ms :: multiset(ms)[m] == 1)
    && (forall a, b | a in ms && b in ms && a.serial == b.serial :: a == b)
  }

  ghost predicate ConversationOk(s: Chat, peer: string, c: Conversation) {
    c.identity < s.nextSerial && OneEach(c.messages) && forall m | m in c.messages :: MessageOk(s, peer, c.identity, m)
  }

  predicate StoredOk(s: Chat, peer: string, history: SavedConversation) {
    forall m | m in history.messages :: SavedOk(s, peer, m)
  }

  predicate SavedOk(s: Chat, peer: string, m: Saved) {
    if m.outgoing then Backed(s.receipts, s.sent, peer, m.id, m.wireId, m.status)
    else Acked(s.signals, peer, m.id, m.readAckSent)
  }

  ghost predicate Sound(s: Chat) {
    && (forall p <- s.conversations :: ConversationOk(s, p, s.conversations[p]))
    && (forall x <- s.stored :: StoredOk(s, x.0, x.1))
    && (forall n <- s.inFlight :: n < s.nextSerial)
  }

  // ---------- How a message may change ----------

  /** sending -> sent -> delivered -> read, or sending -> failed. */
  predicate Advances(a: Option<Status>, b: Option<Status>) {
    || a == b
    || (a == Some(Sending) && b in {Some(Sent), Some(Delivered), Some(Read), Some(Failed)})
    || (a == Some(Sent) && b in {Some(Delivered), Some(Read)})
    || (a == Some(Delivered) && b == Some(Read))
  }

  /** An outbound message may change its status and error text, an inbound one may become acknowledged. */
  predicate Became(before: Message, after: Message) {
    if before.outgoing then
      after == before.(status := after.status, errorMessage := after.errorMessage)
      && Advances(before.status, after.status)
    else
      after == before || after == before.(readAckSent := true)
  }

  /** Every older object in the later list was in the earlier one, and has moved forward if at all. */
  ghost predicate ListFollows(before: seq<Message>, after: seq<Message>, bound: nat) {
    forall m | m in after && m.serial < bound :: exists m0 :: m0 in before && Became(m0, m)
  }

  function MessagesOf(s: Chat, peer: string): seq<Message> {
    if peer in s.conversations then s.conversations[peer].messages else []
  }

  ghost predicate Follows(s: Chat, t: Chat) {
    s.nextSerial <= t.nextSerial && forall p: string :: ListFollows(MessagesOf(s, p), MessagesOf(t, p), s.nextSerial)
  }

  lemma FollowsItself(ms: seq<Message>, bound: nat)
    ensures ListFollows(ms, ms, bound)
  {
    forall m | m in ms && m.serial < bound ensures exists m0 :: m0 in ms && Became(m0, m) {
      assert Became(m, m);
    }
  }

  lemma FollowsTwice(s: Chat, t: Chat, u: Chat)
    requires Follows(s, t) && Follows(t, u)
    ensures Follows(s, u)
  {
    forall p: string ensures ListFollows(MessagesOf(s, p), MessagesOf(u, p), s.nextSerial) {
      assert ListFollows(MessagesOf(t, p), MessagesOf(u, p), t.nextSerial);
      assert ListFollows(MessagesOf(s, p), MessagesOf(t, p), s.nextSerial);
      ListFollowsTwice(MessagesOf(s, p), MessagesOf(t, p), MessagesOf(u, p), s.nextSerial, t.nextSerial);
    }
  }

  lemma ListFollowsTwice(a: seq<Message>, b: seq<Message>, c: seq<Message>, low: nat, high: nat)
    requires ListFollows(a, b, low) && ListFollows(b, c, high) && low <= high
    ensures ListFollows(a, c, low)
  {
    hide Became;
    forall m | m in c && m.serial < low ensures exists m0 :: m0 in a && Became(m0, m) {
      var m1 :| m1 in b && Became(m1, m);
      BecameKeepsSerial(m1, m);
      var m0 :| m0 in a && Became(m0, m1);
      BecameTwice(m0, m1, m);
    }
  }

  lemma BecameKeepsSerial(a: Message, b: Message)
    requires Became(a, b)
    ensures a.serial == b.serial
  {
  }

  lemma BecameTwice(a: Message, b: Message, c: Message)
    requires Became(a, b) && Became(b, c)
    ensures Became(a, c)
  {
  }

  // ---------- What does not touch a conversation leaves it sound ----------

  /** More receipts, more confirmed sends and more objects; the sends of these messages as before. */
  ghost predicate Grows(s: Chat, t: Chat) {
    && s.nextSerial <= t.nextSerial && s.receipts <= t.receipts && s.sent <= t.sent
    && forall x | x in s.signals :: x in t.signals
  }

  ghost predicate SendsKept(s: Chat, t: Chat, ms: seq<Message>) {
    forall m | m in ms :: (m.serial in s.inFlight <==> m.serial in t.inFlight)
                          && (m.serial in s.inFlight ==> s.inFlight[m.serial] == t.inFlight[m.serial])
  }

  lemma ConversationStays(s: Chat, t: Chat, peer: string, c: Conversation)
    requires ConversationOk(s, peer, c) && Grows(s, t) && SendsKept(s, t, c.messages)
    ensures ConversationOk(t, peer, c)
  {
    hide OneEach;
    forall m | m in c.messages ensures MessageOk(t, peer, c.identity, m) {
      assert MessageOk(s, peer, c.identity, m);
    }
  }

  lemma StoredStays(s: Chat, t: Chat)
    requires Sound(s) && Grows(s, t)
    ensures forall x <- s.stored :: StoredOk(t, x.0, x.1)
  {
    hide ConversationOk;
    forall x <- s.stored ensures StoredOk(t, x.0, x.1) { assert StoredOk(s, x.0, x.1); }
  }

  /** One conversation replaced by a sound one that follows it: the rest stays sound, and follows. */
  lemma OneReplaced(s: Chat, t: Chat, peer: string)
    requires Sound(s) && Grows(s, t) && peer in t.conversations
    requires t.conversations.Keys == s.conversations.Keys + {peer} && t.stored == s.stored
    requires forall p <- s.conversations | p != peer ::
               t.conversations[p] == s.conversations[p] && SendsKept(s, t, s.conversations[p].messages)
    requires forall n <- t.inFlight :: n < t.nextSerial
    requires ConversationOk(t, peer, t.conversations[peer])
    requires ListFollows(MessagesOf(s, peer), MessagesOf(t, peer), s.nextSerial)
    ensures Sound(t) && Follows(s, t)
  {
    hide ConversationOk, StoredOk, ListFollows;
    StoredStays(s, t);
    forall p <- t.conversations ensures ConversationOk(t, p, t.conversations[p]) {
      if p != peer { ConversationStays(s, t, p, s.conversations[p]); }
    }
    forall p: string ensures ListFollows(MessagesOf(s, p), MessagesOf(t, p), s.nextSerial) {
      if p != peer { FollowsItself(MessagesOf(s, p), s.nextSerial); }
    }
  }

  lemma AllSendsKept(s: Chat, t: Chat, ms: seq<Message>)
    requires s.inFlight == t.inFlight
    ensures SendsKept(s, t, ms)
  {
  }

  // ---------- Lists ----------

  lemma OneMore(ms: seq<Message>, m: Message)
    requires OneEach(ms) && forall x | x in ms :: x.serial != m.serial
    ensures OneEach(ms + [m])
  {
    assert multiset(ms + [m]) == multiset(ms) + multiset{m};
    assert m !in ms;
    forall x | x in ms + [m] ensures multiset(ms + [m])[x] == 1 {
      if x in ms { assert multiset(ms)[x] == 1; } else { assert x == m && m !in multiset(ms); }
    }
  }

  lemma RestOneEach(ms: seq<Message>)
    requires OneEach(ms) && ms != []
    ensures OneEach(ms[1..]) && forall x | x in ms[1..] :: x.serial != ms[0].serial
  {
    assert ms == [ms[0]] + ms[1..];
    assert multiset(ms) == multiset{ms[0]} + multiset(ms[1..]);
    forall x | x in ms[1..] ensures multiset(ms[1..])[x] == 1 && x.serial != ms[0].serial {
      assert x in ms && multiset(ms)[x] == 1 && x in multiset(ms[1..]);
    }
  }

  /** A new head for the same tail: nothing is lost or doubled when its object is the old head's. */
  lemma HeadReplaced(ms: seq<Message>, m: Message)
    requires OneEach(ms) && ms != [] && m.serial == ms[0].serial
    ensures OneEach([m] + ms[1..])
  {
    RestOneEach(ms);
    assert multiset([m] + ms[1..]) == multiset{m} + multiset(ms[1..]);
    forall x | x in [m] + ms[1..] ensures multiset([m] + ms[1..])[x] == 1 {
      if x in ms[1..] { assert multiset(ms[1..])[x] == 1; } else { assert x !in multiset(ms[1..]); }
    }
  }

  lemma HeadKept(head: Message, rest: seq<Message>)
    requires OneEach(rest) && forall x | x in rest :: x.serial != head.serial
    ensures OneEach([head] + rest)
  {
    assert multiset([head] + rest) == multiset{head} + multiset(rest);
    forall x | x in [head] + rest ensures multiset([head] + rest)[x] == 1 {
      if x in rest { assert multiset(rest)[x] == 1; } else { assert x !in multiset(rest); }
    }
  }

  /** The settled list: the object of the send has its outcome, every other message is as it was. */
  lemma {:induction false} SettledIs(ms: seq<Message>, serial: nat, ok: bool, error: string)
    requires OneEach(ms)
    ensures var after := Settled(ms, serial, ok, error);
            && OneEach(after)
            && (forall x | x in after ::
                  if x.serial != serial then x in ms
                  else exists x0 :: x0 in ms && x == x0.(status := Some(if ok then Sent else Failed),
                                                         errorMessage := x.errorMessage))
    decreases |ms|
  {
    if ms != [] {
      RestOneEach(ms);
      if ms[0].serial == serial {
        HeadReplaced(ms, Settled(ms, serial, ok, error)[0]);
        assert Settled(ms, serial, ok, error)[1..] == ms[1..];
      } else {
        SettledIs(ms[1..], serial, ok, error);
        HeadKept(ms[0], Settled(ms[1..], serial, ok, error));
      }
    }
  }

  /** The list after a receipt: one named message may have been raised, every other is as it was. */
  lemma {:induction false} ReceiptedIs(ms: seq<Message>, wireId: string, kind: Kind)
    requires OneEach(ms)
    ensures var after := Receipted(ms, wireId, kind);
            && OneEach(after)
            && (forall x | x in after ::
                  x in ms || exists x0 :: x0 in ms && Names(x0, wireId) && x == Raised(x0, kind))
    decreases |ms|
  {
    if ms != [] {
      RestOneEach(ms);
      if Names(ms[0], wireId) {
        HeadReplaced(ms, Raised(ms[0], kind));
      } else {
        ReceiptedIs(ms[1..], wireId, kind);
        HeadKept(ms[0], Receipted(ms[1..], wireId, kind));
      }
    }
  }

  // ---------- Event after event ----------

  lemma EnsuredKeeps(s: Chat, peer: string, now: int)
    requires Sound(s)
    ensures var t := Ensured(s, peer, now);
            && Sound(t) && Follows(s, t) && peer in t.conversations && t.inFlight == s.inFlight
            && MessagesOf(t, peer) == MessagesOf(s, peer) && t.received == s.received
  {
    hide ConversationOk, StoredOk, ListFollows;
    var t := Ensured(s, peer, now);
    if peer in s.conversations {
      forall p: string ensures ListFollows(MessagesOf(s, p), MessagesOf(s, p), s.nextSerial) {
        FollowsItself(MessagesOf(s, p), s.nextSerial);
      }
    } else {
      NewConversationOk(t, peer, t.conversations[peer]);
      FollowsItself([], s.nextSerial);
      forall p <- s.conversations ensures SendsKept(s, t, s.conversations[p].messages) {
        AllSendsKept(s, t, s.conversations[p].messages);
      }
      OneReplaced(s, t, peer);
    }
  }

  lemma NewConversationOk(t: Chat, peer: string, c: Conversation)
    requires c.messages == [] && c.identity < t.nextSerial
    ensures ConversationOk(t, peer, c)
  {
  }

  /** A conversation with the same messages and object. */
  lemma SameMessagesKeep(s: Chat, t: Chat, peer: string)
    requires Sound(s) && peer in s.conversations && peer in t.conversations
    requires t == s.(conversations := s.conversations[peer := t.conversations[peer]])
    requires t.conversations[peer].messages == s.conversations[peer].messages
    requires t.conversations[peer].identity == s.conversations[peer].identity
    ensures Sound(t) && Follows(s, t)
  {
    hide OneEach, MessageOk, StoredOk, ListFollows;
    assert ConversationOk(s, peer, s.conversations[peer]);
    forall m | m in t.conversations[peer].messages ensures MessageOk(t, peer, t.conversations[peer].identity, m) {
      MessageOkStays(s, t, peer, t.conversations[peer].identity, m);
    }
    FollowsItself(s.conversations[peer].messages, s.nextSerial);
    forall p <- s.conversations ensures SendsKept(s, t, s.conversations[p].messages) {
      AllSendsKept(s, t, s.conversations[p].messages);
    }
    OneReplaced(s, t, peer);
  }

  lemma MessageOkStays(s: Chat, t: Chat, peer: string, identity: nat, m: Message)
    requires MessageOk(s, peer, identity, m) && Grows(s, t) && SendsKept(s, t, [m])
    ensures MessageOk(t, peer, identity, m)
  {
  }

  /** A message added at the end, with a new object. */
  lemma MessageAdded(s: Chat, t: Chat, peer: string, m: Message)
    requires Sound(s) && Grows(s, t) && peer in s.conversations && peer in t.conversations
    requires m.serial == s.nextSerial < t.nextSerial && t.stored == s.stored
    requires t.conversations == s.conversations[peer := t.conversations[peer]]
    requires t.conversations[peer].messages == s.conversations[peer].messages + [m]
    requires t.conversations[peer].identity == s.conversations[peer].identity
    requires forall n <- t.inFlight :: n in s.inFlight || n == m.serial
    requires forall n <- s.inFlight :: n in t.inFlight && t.inFlight[n] == s.inFlight[n]
    requires MessageOk(t, peer, t.conversations[peer].identity, m)
    ensures Sound(t) && Follows(s, t)
  {
    hide OneEach, StoredOk, ListFollows, MessageOk;
    var ms := s.conversations[peer].messages;
    assert ConversationOk(s, peer, s.conversations[peer]);
    forall p <- s.conversations ensures SendsKept(s, t, s.conversations[p].messages) {
      assert ConversationOk(s, p, s.conversations[p]);
      OlderSendsKept(s, t, p, s.conversations[p], m.serial);
    }
    ConversationStays(s, t, peer, s.conversations[peer]);
    SerialsAreOld(s, peer, s.conversations[peer]);
    OneMore(ms, m);
    FollowsWithNew(ms, [m], s.nextSerial);
    OneReplaced(s, t, peer);
  }

  lemma OlderSendsKept(s: Chat, t: Chat, peer: string, c: Conversation, serial: nat)
    requires ConversationOk(s, peer, c) && serial == s.nextSerial
    requires forall n <- t.inFlight :: n in s.inFlight || n == serial
    requires forall n <- s.inFlight :: n in t.inFlight && t.inFlight[n] == s.inFlight[n]
    ensures SendsKept(s, t, c.messages)
  {
    forall m | m in c.messages
      ensures (m.serial in s.inFlight <==> m.serial in t.inFlight)
              && (m.serial in s.inFlight ==> s.inFlight[m.serial] == t.inFlight[m.serial])
    {
      assert MessageOk(s, peer, c.identity, m);
    }
  }

  lemma SerialsAreOld(s: Chat, peer: string, c: Conversation)
    requires ConversationOk(s, peer, c)
    ensures forall x | x in c.messages :: x.serial < s.nextSerial
  {
    forall x | x in c.messages ensures x.serial < s.nextSerial { assert MessageOk(s, peer, c.identity, x); }
  }

  lemma FollowsWithNew(ms: seq<Message>, added: seq<Message>, bound: nat)
    requires forall x | x in added :: x.serial >= bound
    ensures ListFollows(ms, ms + added, bound)
  {
    FollowsItself(ms, bound);
  }

  lemma BeginKeeps(s: Chat, e: Event)
    requires Sound(s) && e.BeginSend?
    ensures Sound(Begun(s, e).0) && Follows(s, Begun(s, e).0)
  {
    hide ConversationOk, StoredOk, ListFollows, Follows, Sound;
    EnsuredKeeps(s, e.peer, e.now);
    var t := Ensured(s, e.peer, e.now);
    var u := Begun(s, e).0;
    if u != t {
      SoundParts(t, e.peer);
      MessageAdded(t, u, e.peer, OutboundMessage(e, t.nextSerial));
      FollowsTwice(s, t, u);
    }
  }

  lemma SoundParts(s: Chat, peer: string)
    requires Sound(s)
    ensures forall n <- s.inFlight :: n < s.nextSerial
    ensures peer in s.conversations ==> ConversationOk(s, peer, s.conversations[peer])
  {
  }

  lemma TextKeeps(s: Chat, e: Event)
    requires Sound(s) && e.GetText?
    ensures Sound(GotText(s, e)) && Follows(s, GotText(s, e))
  {
    hide ConversationOk, StoredOk, ListFollows, Follows, Sound, DedupWindow.Marked, Ensured;
    var marked := DedupWindow.Marked(s.received, e.envelope);
    var r := s.(received := marked.0);
    BookkeepingKeeps(s, r);
    FollowsSame(s, s);
    if marked.1 {
      EnsuredKeeps(r, e.peer, e.now);
      var t := Ensured(r, e.peer, e.now);
      FollowsTwice(s, r, t);
      TextInConversation(s, r, t, e);
      FollowsTwice(s, t, GotText(s, e));
    }
  }

  /** A new text envelope, once its conversation exists. */
  lemma TextInConversation(s: Chat, r: Chat, t: Chat, e: Event)
    requires e.GetText? && t == Ensured(r, e.peer, e.now) && Sound(t)
    requires DedupWindow.Marked(s.received, e.envelope) == (r.received, true) && r == s.(received := r.received)
    ensures Sound(GotText(s, e)) && Follows(t, GotText(s, e))
  {
    hide ConversationOk, StoredOk, ListFollows, Follows, Sound, DedupWindow.Marked;
    var c := t.conversations[e.peer].(lastActivityAt := e.now);
    FieldsChange(t, e.peer, c.(session := Faulty(DECRYPT_FAILED)));
    FieldsChange(t, e.peer, c.(session := Faulty(INVALID_BUNDLE)));
    FieldsChange(t, e.peer, c);
    SoundParts(t, e.peer);
    if c.ready && e.payload.Plain? {
      var u := WithConversation(t, e.peer, c);
      SoundParts(u, e.peer);
      MessageAdded(u, GotText(s, e), e.peer, InboundMessage(e, u.nextSerial, s.activePeer == Some(e.peer)));
      FollowsTwice(t, u, GotText(s, e));
    }
  }

  lemma BookkeepingKeeps(s: Chat, t: Chat)
    requires Sound(s) && t == s.(received := t.received, activePeer := t.activePeer)
    ensures Sound(t) && Follows(s, t)
  {
    hide OneEach, MessageOk, ListFollows, StoredOk;
    forall p <- t.conversations ensures ConversationOk(t, p, t.conversations[p]) {
      AllSendsKept(s, t, s.conversations[p].messages);
      ConversationStays(s, t, p, s.conversations[p]);
    }
    StoredStays(s, t);
    FollowsSame(s, t);
  }

  lemma FollowsSame(s: Chat, t: Chat)
    requires s.nextSerial <= t.nextSerial && t.conversations == s.conversations
    ensures Follows(s, t)
  {
    hide ListFollows;
    forall p: string ensures ListFollows(MessagesOf(s, p), MessagesOf(t, p), s.nextSerial) {
      FollowsItself(MessagesOf(s, p), s.nextSerial);
    }
  }

  // ---------- Session states and activity ----------

  /** A conversation whose messages and object stay. */
  lemma FieldsChange(s: Chat, peer: string, c: Conversation)
    requires Sound(s) && peer in s.conversations
    requires c.messages == s.conversations[peer].messages && c.identity == s.conversations[peer].identity
    ensures Sound(WithConversation(s, peer, c)) && Follows(s, WithConversation(s, peer, c))
  {
    hide Sound, Follows;
    SameMessagesKeep(s, WithConversation(s, peer, c), peer);
  }

  lemma TouchedKeeps(s: Chat, peer: string, now: int)
    requires Sound(s)
    ensures var t := Touched(s, peer, now); Sound(t) && Follows(s, t) && peer in t.conversations
  {
    hide Sound, Follows, Ensured;
    EnsuredKeeps(s, peer, now);
    var t := Ensured(s, peer, now);
    FieldsChange(t, peer, t.conversations[peer].(lastActivityAt := now));
    FollowsTwice(s, t, Touched(s, peer, now));
  }

  lemma FaultedKeeps(s: Chat, peer: string, now: int, code: string)
    requires Sound(s)
    ensures Sound(Faulted(s, peer, now, code)) && Follows(s, Faulted(s, peer, now, code))
  {
    hide Sound, Follows, Ensured;
    EnsuredKeeps(s, peer, now);
    var t := Ensured(s, peer, now);
    FieldsChange(t, peer, t.conversations[peer].(lastActivityAt := now, session := Faulty(code)));
    FollowsTwice(s, t, Faulted(s, peer, now, code));
  }

  lemma OpensKeeps(s: Chat, peer: string, now: int)
    requires Sound(s)
    ensures Sound(Opens(s, peer, now)) && Follows(s, Opens(s, peer, now))
  {
    hide Sound, Follows, Touched;
    TouchedKeeps(s, peer, now);
    var t := Touched(s, peer, now);
    FieldsChange(t, peer, t.conversations[peer].(initiating := true, session := Initiating));
    FollowsSame(t, t);
    FollowsTwice(s, t, Opens(s, peer, now));
  }

  /** The ends of both handshakes. */
  lemma SessionKeeps(s: Chat, peer: string, identity: nat, opening: Opening, now: int)
    requires Sound(s)
    ensures Sound(EndsOpening(s, peer, identity, opening, now))
    ensures Follows(s, EndsOpening(s, peer, identity, opening, now))
    ensures Sound(Accepted(s, peer, identity)) && Follows(s, Accepted(s, peer, identity))
  {
    hide Sound, Follows;
    FollowsSame(s, s);
    if Is(s, peer, identity) {
      FieldsChange(s, peer, Accepted(s, peer, identity).conversations[peer]);
      FieldsChange(s, peer, EndsOpening(s, peer, identity, opening, now).conversations[peer]);
    }
  }

  /** Envelopes that carry no message. */
  lemma EnvelopeKeeps(s: Chat, peer: string, envelope: string, now: int, fault: Option<string>)
    requires Sound(s)
    ensures Sound(GotTyping(s, peer, envelope, now)) && Follows(s, GotTyping(s, peer, envelope, now))
    ensures Sound(GotSessionAccept(s, peer, envelope, now)) && Follows(s, GotSessionAccept(s, peer, envelope, now))
    ensures Sound(GotSessionInit(s, peer, envelope, now, fault))
    ensures Follows(s, GotSessionInit(s, peer, envelope, now, fault))
  {
    hide Sound, Follows, Touched, Faulted, DedupWindow.Marked;
    FollowsSame(s, s);
    var r := s.(received := DedupWindow.Marked(s.received, envelope).0);
    BookkeepingKeeps(s, r);
    TouchedKeeps(r, peer, now);
    FollowsTwice(s, r, Touched(r, peer, now));
    if fault.Some? {
      FaultedKeeps(r, peer, now, fault.value);
      FollowsTwice(s, r, Faulted(r, peer, now, fault.value));
    }
  }

  // ---------- Read receipts ----------

  /** The list after acknowledging: every message in it was there, and is acknowledged if it is inbound. */
  lemma {:induction false} AcknowledgedIs(peer: string, ms: seq<Message>)
    requires OneEach(ms)
    ensures var after := Acknowledged(ms);
            && OneEach(after)
            && (forall x | x in after :: exists x0 :: x0 in ms && AckedFrom(peer, ms, x0, x))
    decreases |ms|
  {
    if ms != [] {
      RestOneEach(ms);
      var head := if Unacknowledged(ms[0]) then ms[0].(readAckSent := true) else ms[0];
      AcknowledgedIs(peer, ms[1..]);
      HeadKept(head, Acknowledged(ms[1..]));
      assert AckedFrom(peer, ms, ms[0], head);
      forall x | x in Acknowledged(ms[1..]) ensures exists x0 :: x0 in ms && AckedFrom(peer, ms, x0, x) {
        var x0 :| x0 in ms[1..] && AckedFrom(peer, ms[1..], x0, x);
        assert x0 in ms && AckedFrom(peer, ms, x0, x);
      }
    }
  }

  predicate AckedFrom(peer: string, ms: seq<Message>, before: Message, after: Message) {
    if Unacknowledged(before)
    then after == before.(readAckSent := true) && Signal(peer, ReadReceipt, before.id) in ReadReceipts(peer, ms)
    else after == before
  }

  lemma ReadsKeep(s: Chat, peer: string)
    requires Sound(s)
    ensures Sound(Reads(s, peer)) && Follows(s, Reads(s, peer))
  {
    hide StoredOk, ListFollows, ConversationOk, Acknowledged, ReadReceipts;
    var t := Reads(s, peer);
    FollowsSame(s, s);
    if peer in s.conversations {
      SoundParts(s, peer);
      forall p <- s.conversations ensures SendsKept(s, t, s.conversations[p].messages) {
        AllSendsKept(s, t, s.conversations[p].messages);
      }
      AcknowledgedConversation(s, t, peer, s.conversations[peer]);
      OneReplaced(s, t, peer);
    }
  }

  lemma AcknowledgedConversation(s: Chat, t: Chat, peer: string, c: Conversation)
    requires ConversationOk(s, peer, c) && t.inFlight == s.inFlight && Grows(s, t)
    requires forall x | x in ReadReceipts(peer, c.messages) :: x in t.signals
    ensures var after := Acknowledged(c.messages);
            && ConversationOk(t, peer, c.(messages := after, unreadCount := 0))
            && ListFollows(c.messages, after, s.nextSerial)
  {
    hide OneEach, Acknowledged, ReadReceipts;
    AcknowledgedIs(peer, c.messages);
    var after := Acknowledged(c.messages);
    forall m | m in after
      ensures MessageOk(t, peer, c.identity, m) && exists m0 :: m0 in c.messages && Became(m0, m)
    {
      var m0 :| m0 in c.messages && AckedFrom(peer, c.messages, m0, m);
      assert MessageOk(s, peer, c.identity, m0);
      assert Became(m0, m);
    }
  }

  lemma ActivatedKeeps(s: Chat, active: Option<string>)
    requires Sound(s)
    ensures Sound(Activated(s, active)) && Follows(s, Activated(s, active))
  {
    hide Sound, Follows, Reads;
    FollowsSame(s, s);
    var t := s.(activePeer := active);
    BookkeepingKeeps(s, t);
    if active.Some? {
      ReadsKeep(t, active.value);
      FollowsTwice(s, t, Reads(t, active.value));
    }
  }

  // ---------- The end of a send ----------

  lemma FinishKeeps(s: Chat, serial: nat, ok: bool, error: string, code: string)
    requires Sound(s)
    ensures Sound(Finished(s, serial, ok, error, code)) && Follows(s, Finished(s, serial, ok, error, code))
  {
    hide ConversationOk, StoredOk, ListFollows, Follows, Sound, Settled;
    if serial in s.inFlight {
      var send := s.inFlight[serial];
      var t := Finished(s, serial, ok, error, code);
      var peer := send.message.peer;
      if peer in s.conversations && s.conversations[peer].identity == send.identity {
        SettledKeeps(s, t, serial, ok, error, code);
      } else {
        DetachedKeeps(s, t, serial);
      }
    } else {
      FollowsSame(s, s);
    }
  }

  /** A send whose conversation object is gone. */
  lemma DetachedKeeps(s: Chat, t: Chat, serial: nat)
    requires Sound(s) && serial in s.inFlight && Grows(s, t)
    requires t == s.(inFlight := s.inFlight - {serial}, sent := t.sent)
    requires var send := s.inFlight[serial];
             send.message.peer in s.conversations ==> s.conversations[send.message.peer].identity != send.identity
    ensures Sound(t) && Follows(s, t)
  {
    hide StoredOk, ListFollows, OneEach, Backed;
    forall p <- t.conversations ensures ConversationOk(t, p, t.conversations[p]) {
      OtherSendsKept(s, t, serial, p, s.conversations[p]);
      ConversationStays(s, t, p, s.conversations[p]);
    }
    StoredStays(s, t);
    FollowsSame(s, t);
  }

  /** Only the conversation object that a send belongs to holds its message. */
  lemma OtherSendsKept(s: Chat, t: Chat, serial: nat, peer: string, c: Conversation)
    requires ConversationOk(s, peer, c) && serial in s.inFlight
    requires t.inFlight == s.inFlight - {serial}
    requires s.inFlight[serial].message.peer != peer || s.inFlight[serial].identity != c.identity
    ensures SendsKept(s, t, c.messages)
  {
    forall m | m in c.messages
      ensures (m.serial in s.inFlight <==> m.serial in t.inFlight)
              && (m.serial in s.inFlight ==> s.inFlight[m.serial] == t.inFlight[m.serial])
    {
      assert MessageOk(s, peer, c.identity, m);
    }
  }

  lemma SettledKeeps(s: Chat, t: Chat, serial: nat, ok: bool, error: string, code: string)
    requires Sound(s) && serial in s.inFlight && t == Finished(s, serial, ok, error, code)
    requires var send := s.inFlight[serial];
             send.message.peer in s.conversations && s.conversations[send.message.peer].identity == send.identity
    ensures Sound(t) && Follows(s, t)
  {
    hide StoredOk, ListFollows, ConversationOk, Settled;
    var peer := s.inFlight[serial].message.peer;
    var c := s.conversations[peer];
    SoundParts(s, peer);
    forall p <- s.conversations | p != peer ensures SendsKept(s, t, s.conversations[p].messages) {
      OtherSendsKept(s, t, serial, p, s.conversations[p]);
    }
    SettledConversation(s, t, peer, c, t.conversations[peer], serial, ok, error);
    OneReplaced(s, t, peer);
  }

  lemma SettledConversation(s: Chat, t: Chat, peer: string, c: Conversation, d: Conversation, serial: nat,
                            ok: bool, error: string)
    requires ConversationOk(s, peer, c) && serial in s.inFlight && Grows(s, t)
    requires s.inFlight[serial].message.peer == peer && s.inFlight[serial].identity == c.identity
    requires t.inFlight == s.inFlight - {serial}
    requires ok ==> s.inFlight[serial].message in t.sent
    ensures var settled := Settled(c.messages, serial, ok, error);
            && (d.messages == settled && d.identity == c.identity ==> ConversationOk(t, peer, d))
            && ListFollows(c.messages, settled, s.nextSerial)
  {
    hide OneEach, Settled;
    SettledIs(c.messages, serial, ok, error);
    var settled := Settled(c.messages, serial, ok, error);
    forall m | m in settled
      ensures MessageOk(t, peer, c.identity, m) && exists m0 :: m0 in c.messages && Became(m0, m)
    {
      if m.serial == serial {
        var m0 :| m0 in c.messages && m == m0.(status := Some(if ok then Sent else Failed),
                                               errorMessage := m.errorMessage);
        assert MessageOk(s, peer, c.identity, m0);
        assert Became(m0, m);
      } else {
        assert MessageOk(s, peer, c.identity, m);
        assert Became(m, m);
      }
    }
  }

  // ---------- Receipts ----------

  lemma ReceiptKeeps(s: Chat, sender: string, envelope: string, wireId: string, kind: Kind)
    requires Sound(s)
    ensures var t := GotReceipt(s, sender, envelope, wireId, kind); Sound(t) && Follows(s, t)
  {
    hide ConversationOk, StoredOk, ListFollows, Follows, Sound, Receipted, DedupWindow.Marked;
    var marked := DedupWindow.Marked(s.received, envelope);
    FollowsSame(s, s);
    if marked.1 {
      var r := s.(received := marked.0, receipts := s.receipts + Receipts(Named(s.sent, sender, wireId), kind));
      MoreReceipts(s, r);
      if sender in s.conversations {
        var t := GotReceipt(s, sender, envelope, wireId, kind);
        RaisedKeeps(r, t, sender, wireId, kind);
        FollowsTwice(s, r, t);
      }
    }
  }

  lemma MoreReceipts(s: Chat, t: Chat)
    requires Sound(s) && s.receipts <= t.receipts && t == s.(received := t.received, receipts := t.receipts)
    ensures Sound(t) && Follows(s, t)
  {
    hide OneEach, Backed, ListFollows, MessageOk, StoredOk;
    forall p <- t.conversations ensures ConversationOk(t, p, t.conversations[p]) {
      AllSendsKept(s, t, s.conversations[p].messages);
      ConversationStays(s, t, p, s.conversations[p]);
    }
    StoredStays(s, t);
    FollowsSame(s, t);
  }

  lemma RaisedKeeps(s: Chat, t: Chat, peer: string, wireId: string, kind: Kind)
    requires Sound(s) && peer in s.conversations && Receipts(Named(s.sent, peer, wireId), kind) <= s.receipts
    requires var c := s.conversations[peer];
             t == s.(conversations := s.conversations[peer := c.(messages := Receipted(c.messages, wireId, kind))])
    ensures Sound(t) && Follows(s, t)
  {
    hide StoredOk, ListFollows, ConversationOk, Receipted;
    SoundParts(s, peer);
    forall p <- s.conversations ensures SendsKept(s, t, s.conversations[p].messages) {
      AllSendsKept(s, t, s.conversations[p].messages);
    }
    RaisedConversation(s, t, peer, s.conversations[peer], wireId, kind);
    OneReplaced(s, t, peer);
  }

  lemma RaisedIsOk(s: Chat, t: Chat, peer: string, identity: nat, m: Message, wireId: string, kind: Kind)
    requires MessageOk(s, peer, identity, m) && Names(m, wireId) && Grows(s, t) && t.inFlight == s.inFlight
    requires Receipts(Named(s.sent, peer, wireId), kind) <= s.receipts
    ensures MessageOk(t, peer, identity, Raised(m, kind)) && Became(m, Raised(m, kind))
  {
    if Confirmed(m.status) {
      assert Outbound(peer, m.id, wireId) in Named(s.sent, peer, wireId);
      assert Receipt(Outbound(peer, m.id, wireId), kind) in Receipts(Named(s.sent, peer, wireId), kind);
    }
  }

  lemma RaisedConversation(s: Chat, t: Chat, peer: string, c: Conversation, wireId: string, kind: Kind)
    requires ConversationOk(s, peer, c) && Receipts(Named(s.sent, peer, wireId), kind) <= s.receipts
    requires t.inFlight == s.inFlight && Grows(s, t)
    ensures var raised := Receipted(c.messages, wireId, kind);
            && ConversationOk(t, peer, c.(messages := raised))
            && ListFollows(c.messages, raised, s.nextSerial)
  {
    hide OneEach, Receipted, Raised, Receipts, Named;
    ReceiptedIs(c.messages, wireId, kind);
    var raised := Receipted(c.messages, wireId, kind);
    forall m | m in raised
      ensures MessageOk(t, peer, c.identity, m) && exists m0 :: m0 in c.messages && Became(m0, m)
    {
      if m in c.messages {
        assert MessageOk(s, peer, c.identity, m);
        assert Became(m, m);
      } else {
        var m0 :| m0 in c.messages && Names(m0, wireId) && m == Raised(m0, kind);
        RaisedIsOk(s, t, peer, c.identity, m0, wireId, kind);
      }
    }
  }

  // ---------- Storing, restoring, deleting ----------

  lemma StoreKeeps(s: Chat, peer: string)
    requires Sound(s)
    ensures Sound(Stores(s, peer)) && Follows(s, Stores(s, peer))
  {
    hide ListFollows, ConversationOk, StoredOk;
    var t := Stores(s, peer);
    FollowsSame(s, t);
    if peer in s.conversations {
      ConversationsStay(s, t);
      StoredStays(s, t);
      SerializedOk(t, peer, s.conversations[peer]);
    }
  }

  /** Nothing but the store has changed. */
  lemma ConversationsStay(s: Chat, t: Chat)
    requires Sound(s) && t == s.(stored := t.stored)
    ensures forall p <- t.conversations :: ConversationOk(t, p, t.conversations[p])
  {
    hide ConversationOk, StoredOk;
    forall p <- t.conversations ensures ConversationOk(t, p, t.conversations[p]) {
      AllSendsKept(s, t, s.conversations[p].messages);
      ConversationStays(s, t, p, s.conversations[p]);
    }
  }

  lemma {:induction false} StoredAllAre(ms: seq<Message>)
    ensures forall x | x in StoredAll(ms) :: exists m :: m in ms && x == Stored(m)
  {
    if ms != [] { StoredAllAre(ms[1..]); }
  }

  lemma SerializedOk(s: Chat, peer: string, c: Conversation)
    requires ConversationOk(s, peer, c)
    ensures StoredOk(s, peer, SerializeConversation(c))
  {
    hide OneEach;
    StoredAllAre(c.messages);
    forall x | x in StoredAll(c.messages) ensures SavedOk(s, peer, x) {
      var m :| m in c.messages && x == Stored(m);
      assert MessageOk(s, peer, c.identity, m);
    }
  }

  lemma ClearKeeps(s: Chat)
    requires Sound(s)
    ensures Sound(Apply(s, ClearSessions)) && Follows(s, Apply(s, ClearSessions))
  {
    hide ConversationOk, StoredOk;
    var t := Apply(s, ClearSessions);
    StoredStays(s, t);
    forall x <- t.stored | x !in s.stored ensures StoredOk(t, x.0, x.1) {
      AllSendsKept(s, t, s.conversations[x.0].messages);
      ConversationStays(s, t, x.0, s.conversations[x.0]);
      SerializedOk(t, x.0, s.conversations[x.0]);
    }
  }

  lemma CloseKeeps(s: Chat, peer: string)
    requires Sound(s)
    ensures Sound(Closed(s, peer)) && Follows(s, Closed(s, peer))
  {
    hide OneEach, StoredOk, MessageOk, ListFollows;
    var t := Closed(s, peer);
    forall p <- t.conversations ensures ConversationOk(t, p, t.conversations[p]) {
      AllSendsKept(s, t, s.conversations[p].messages);
      ConversationStays(s, t, p, s.conversations[p]);
    }
    StoredStays(s, t);
    forall p: string ensures ListFollows(MessagesOf(s, p), MessagesOf(t, p), s.nextSerial) {
      if p == peer && peer in s.conversations {
        NothingFollows(MessagesOf(s, p), s.nextSerial);
      } else {
        FollowsItself(MessagesOf(s, p), s.nextSerial);
      }
    }
  }

  lemma NothingFollows(ms: seq<Message>, bound: nat)
    ensures ListFollows(ms, [], bound)
  {
  }

  lemma ReloadKeeps(s: Chat)
    requires Sound(s)
    ensures Sound(Apply(s, Reload)) && Follows(s, Apply(s, Reload))
  {
    hide ConversationOk, StoredOk;
    StoredStays(s, Apply(s, Reload));
  }

  lemma {:induction false} WithoutIs(ms: seq<Message>, id: string)
    requires OneEach(ms)
    ensures OneEach(Without(ms, id)) && forall x | x in Without(ms, id) :: x in ms
    decreases |ms|
  {
    if ms != [] {
      RestOneEach(ms);
      if ms[0].id != id {
        WithoutIs(ms[1..], id);
        HeadKept(ms[0], Without(ms[1..], id));
      }
    }
  }

  lemma DeleteKeeps(s: Chat, peer: string, id: string)
    requires Sound(s)
    ensures Sound(Deleted(s, peer, id)) && Follows(s, Deleted(s, peer, id))
  {
    hide StoredOk, ListFollows, ConversationOk, Without;
    var t := Deleted(s, peer, id);
    FollowsSame(s, s);
    if peer in s.conversations {
      SoundParts(s, peer);
      forall p <- s.conversations ensures SendsKept(s, t, s.conversations[p].messages) {
        AllSendsKept(s, t, s.conversations[p].messages);
      }
      FewerMessages(s, t, peer, s.conversations[peer], id);
      OneReplaced(s, t, peer);
    }
  }

  lemma FewerMessages(s: Chat, t: Chat, peer: string, c: Conversation, id: string)
    requires ConversationOk(s, peer, c) && t.inFlight == s.inFlight && Grows(s, t)
    ensures var fewer := Without(c.messages, id);
            ConversationOk(t, peer, c.(messages := fewer)) && ListFollows(c.messages, fewer, s.nextSerial)
  {
    hide OneEach, Without;
    WithoutIs(c.messages, id);
    var fewer := Without(c.messages, id);
    forall m | m in fewer
      ensures MessageOk(t, peer, c.identity, m) && exists m0 :: m0 in c.messages && Became(m0, m)
    {
      assert MessageOk(s, peer, c.identity, m);
      assert Became(m, m);
    }
  }

  /** What a restore adds: new objects for stored messages. */
  lemma {:induction false} NewOnesAre(known: set<string>, saved: seq<Saved>, serial: nat)
    ensures var added := NewOnes(known, saved, serial);
            && OneEach(added)
            && (forall m | m in added ::
                  serial <= m.serial < serial + |saved|
                  && exists x :: x in saved && m == ToDisplayMessage(x, m.serial))
    decreases |saved|
  {
    if saved != [] {
      var rest := saved[1..];
      if saved[0].id in known {
        NewOnesAre(known, rest, serial);
      } else {
        NewOnesAre(known + {saved[0].id}, rest, serial + 1);
        HeadKept(ToDisplayMessage(saved[0], serial), NewOnes(known + {saved[0].id}, rest, serial + 1));
      }
    }
  }

  lemma JoinedOneEach(a: seq<Message>, b: seq<Message>)
    requires OneEach(a) && OneEach(b) && forall x, y | x in a && y in b :: x.serial != y.serial
    ensures OneEach(a + b)
  {
    forall x | x in a + b ensures multiset(a + b)[x] == 1 {
      assert multiset(a + b) == multiset(a) + multiset(b);
      if x in a { assert multiset(a)[x] == 1 && x !in b && x !in multiset(b); }
      else { assert multiset(b)[x] == 1 && x !in multiset(a); }
    }
  }

  lemma RearrangedOneEach(a: seq<Message>, b: seq<Message>)
    requires OneEach(a) && multiset(a) == multiset(b)
    ensures OneEach(b) && forall m :: m in b <==> m in a
  {
    SameIds(a, b);
    forall m | m in b ensures multiset(b)[m] == 1 { assert m in a && multiset(a)[m] == 1; }
  }

  lemma RestoredConversation(s: Chat, t: Chat, peer: string, identity: nat, ms: seq<Message>,
                             saved: seq<Saved>, serial: nat)
    requires s.nextSerial <= serial && serial + |saved| <= t.nextSerial && identity < t.nextSerial
    requires t.inFlight == s.inFlight && Grows(s, t) && forall n <- s.inFlight :: n < s.nextSerial
    requires OneEach(ms) && forall m | m in ms :: MessageOk(s, peer, identity, m)
    requires forall x | x in saved :: SavedOk(t, peer, x)
    ensures OneEach(Merged(ms, saved, serial))
    ensures forall m | m in Merged(ms, saved, serial) :: MessageOk(t, peer, identity, m)
    ensures ListFollows(ms, Merged(ms, saved, serial), s.nextSerial)
  {
    hide OneEach, Merged, NewOnes, SortByTime, SavedOk, Ids;
    var added := NewOnes(Ids(ms), saved, serial);
    NewOnesAre(Ids(ms), saved, serial);
    JoinedOneEach(ms, added);
    MergedIs(ms, saved, serial);
    RearrangedOneEach(ms + added, Merged(ms, saved, serial));
    forall m | m in Merged(ms, saved, serial)
      ensures MessageOk(t, peer, identity, m)
      ensures m.serial < s.nextSerial ==> exists m0 :: m0 in ms && Became(m0, m)
    {
      if m in ms {
        MessageOkStays(s, t, peer, identity, m);
        assert Became(m, m);
      } else {
        var x :| x in saved && m == ToDisplayMessage(x, m.serial);
        RestoredMessageOk(t, peer, identity, x, m);
      }
    }
  }

  lemma MergedIs(ms: seq<Message>, saved: seq<Saved>, serial: nat)
    ensures multiset(ms + NewOnes(Ids(ms), saved, serial)) == multiset(Merged(ms, saved, serial))
  {
    hide SortByTime, NewOnes, Ids;
    SortKeeps(ms + NewOnes(Ids(ms), saved, serial));
  }

  lemma RestoredMessageOk(t: Chat, peer: string, identity: nat, x: Saved, m: Message)
    requires m == ToDisplayMessage(x, m.serial) && m.serial < t.nextSerial && m.serial !in t.inFlight
    requires SavedOk(t, peer, x)
    ensures MessageOk(t, peer, identity, m)
  {
  }

  lemma HydrateKeeps(s: Chat, peer: string, history: SavedConversation)
    requires Sound(s)
    ensures Sound(Hydrated(s, peer, history)) && Follows(s, Hydrated(s, peer, history))
  {
    hide StoredOk, ListFollows, ConversationOk, Merged;
    var t := Hydrated(s, peer, history);
    FollowsSame(s, s);
    if (peer, history) in s.stored {
      SoundParts(s, peer);
      forall p <- s.conversations ensures SendsKept(s, t, s.conversations[p].messages) {
        AllSendsKept(s, t, s.conversations[p].messages);
      }
      HydratedConversation(s, t, peer, history);
      OneReplaced(s, t, peer);
    }
  }

  lemma HydratedConversation(s: Chat, t: Chat, peer: string, history: SavedConversation)
    requires Sound(s) && (peer, history) in s.stored && t == Hydrated(s, peer, history)
    ensures ConversationOk(t, peer, t.conversations[peer])
    ensures ListFollows(MessagesOf(s, peer), MessagesOf(t, peer), s.nextSerial)
  {
    hide MessageOk, Merged, OneEach, SavedOk, ListFollows;
    var saved := history.messages;
    StoredStays(s, t);
    assert StoredOk(t, peer, history);
    if peer in s.conversations {
      var c := s.conversations[peer];
      assert ConversationOk(s, peer, c);
      RestoredConversation(s, t, peer, c.identity, c.messages, saved, s.nextSerial);
    } else {
      NoMessages();
      RestoredConversation(s, t, peer, s.nextSerial, [], saved, s.nextSerial + 1);
    }
  }

  lemma NoMessages()
    ensures OneEach([])
  {
  }

  // ---------- Runs ----------

  lemma EventKeeps(s: Chat, e: Event)
    requires Sound(s)
    ensures Sound(Apply(s, e)) && Follows(s, Apply(s, e))
  {
    hide Sound, Follows, Begun, Finished, GotReceipt, GotText, GotTyping, GotSessionAccept, GotSessionInit,
         Accepted, Faulted, Opens, EndsOpening, Activated, Reads, Stores, Hydrated, Deleted, Closed;
    match e
    case BeginSend(_, _, _, _, _, _) => BeginKeeps(s, e);
    case FinishSend(serial, ok, error, code) => FinishKeeps(s, serial, ok, error, code);
    case GetReceipt(peer, envelope, wireId, kind) => ReceiptKeeps(s, peer, envelope, wireId, kind);
    case GetText(_, _, _, _, _, _) => TextKeeps(s, e);
    case GetTyping(peer, envelope, now) => EnvelopeKeeps(s, peer, envelope, now, None);
    case GetSessionAccept(peer, envelope, now) => EnvelopeKeeps(s, peer, envelope, now, None);
    case GetSessionInit(peer, envelope, now, fault) => EnvelopeKeeps(s, peer, envelope, now, fault);
    case SessionAccepted(peer, identity) => SessionKeeps(s, peer, identity, Opened, 0);
    case SessionFault(peer, now, code) => FaultedKeeps(s, peer, now, code);
    case OpenConversation(peer, now) => OpensKeeps(s, peer, now);
    case EndOpening(peer, identity, opening, now) => SessionKeeps(s, peer, identity, opening, now);
    case SetActivePeer(active) => ActivatedKeeps(s, active);
    case MarkRead(peer) => ReadsKeep(s, peer);
    case Save(peer) => StoreKeeps(s, peer);
    case Hydrate(peer, history) => HydrateKeeps(s, peer, history);
    case DeleteMessage(peer, id) => DeleteKeeps(s, peer, id);
    case CloseConversation(peer) => CloseKeeps(s, peer);
    case ClearSessions => ClearKeeps(s);
    case Reload => ReloadKeeps(s);
  }

  lemma {:induction false} RunKeeps(s: Chat, events: seq<Event>)
    requires Sound(s)
    ensures Sound(Run(s, events)) && Follows(s, Run(s, events))
    decreases |events|
  {
    hide Sound, Follows, Apply;
    if events == [] {
      FollowsSame(s, s);
    } else {
      EventKeeps(s, events[0]);
      RunKeeps(Apply(s, events[0]), events[1..]);
      FollowsTwice(s, Apply(s, events[0]), Run(s, events));
    }
  }

  lemma {:induction false} RunSplits(s: Chat, a: seq<Event>, b: seq<Event>)
    ensures Run(s, a + b) == Run(Run(s, a), b)
    decreases |a|
  {
    hide Apply;
    if a == [] {
      assert a + b == b;
    } else {
      RunSplits(Apply(s, a[0]), a[1..], b);
      assert (a + b)[1..] == a[1..] + b;
    }
  }

  // ---------- The theorems ----------

  /** Statuses only move forward. Take any run and any point of it: every message object of a conversation
      at the end that existed at that point was in that conversation then and is the same message now. If it is
      outbound, its status has gone along sending -> sent -> delivered -> read or sending -> failed, if it has
      moved; if it is inbound, it may have become acknowledged. */
  lemma StatusOnlyAdvances(past: seq<Event>, future: seq<Event>, peer: string, m: Message)
    requires m in MessagesOf(Run(START, past + future), peer) && m.serial < Run(START, past).nextSerial
    ensures exists m0 :: m0 in MessagesOf(Run(START, past), peer) && Became(m0, m)
  {
    hide Run, Apply;
    StartIsSound();
    RunKeeps(START, past);
    RunSplits(START, past, future);
    RunKeeps(Run(START, past), future);
  }

  lemma StartIsSound()
    ensures Sound(START)
  {
  }

  /** Event `i` begins the send of this message, with object `n`. */
  ghost predicate BeginsAt(events: seq<Event>, i: nat, n: nat, x: Outbound) {
    && i < |events| && events[i].BeginSend? && x == Outbound(events[i].peer, events[i].id, events[i].wireId)
    && Begun(Run(START, events[..i]), events[i]).1 == Ok(n)
  }

  /** Event `j` is the end of the send of object `n`, which was in progress and which the transport took. */
  ghost predicate EndsAt(events: seq<Event>, j: nat, n: nat) {
    && j < |events| && events[j].FinishSend? && events[j].ok && events[j].serial == n
    && n in Run(START, events[..j]).inFlight
  }

  /** Event `k` is a receipt of this kind from the message's peer, naming its wire id. */
  predicate ReceiptAt(events: seq<Event>, k: nat, x: Outbound, kind: Kind) {
    && k < |events| && events[k].GetReceipt? && events[k].kind == kind
    && events[k].peer == x.peer && events[k].wireId == x.wireId
  }

  ghost predicate SendBegun(events: seq<Event>, n: nat, x: Outbound) {
    exists i :: BeginsAt(events, i, n, x)
  }

  /** The send of this message was begun, and the transport took that very send. */
  ghost predicate SendTaken(events: seq<Event>, x: Outbound) {
    exists i, j, n :: i < j && BeginsAt(events, i, n, x) && EndsAt(events, j, n)
  }

  /** And after that the receipt came. */
  ghost predicate ReceiptSeen(events: seq<Event>, x: Outbound, kind: Kind) {
    exists i: nat, j: nat, k: nat, n: nat ::
      i < j < k && BeginsAt(events, i, n, x) && EndsAt(events, j, n) && ReceiptAt(events, k, x, kind)
  }

  /** A text with this id came from the peer and was decrypted. */
  ghost predicate TextSeen(events: seq<Event>, peer: string, id: string) {
    exists e :: e in events && e.GetText? && e.peer == peer && e.envelope == id && e.payload.Plain?
  }

  /** The conversation was opened on the screen or marked as read. */
  predicate Looked(events: seq<Event>, peer: string) {
    SetActivePeer(Some(peer)) in events || MarkRead(peer) in events
  }

  ghost predicate Recorded(events: seq<Event>, s: Chat) {
    && (forall r <- s.receipts :: ReceiptSeen(events, r.message, r.kind))
    && (forall n <- s.inFlight :: SendBegun(events, n, s.inFlight[n].message))
    && (forall x <- s.sent :: SendTaken(events, x))
    && (forall x | x in s.signals ::
          if x.kind.DeliveryReceipt? then TextSeen(events, x.to, x.id) else Looked(events, x.to))
    && (s.activePeer.Some? ==> Looked(events, s.activePeer.value))
  }

  /** What the state records as observed was observed. */
  lemma {:induction false} RecordsAreEvents(events: seq<Event>)
    ensures Recorded(events, Run(START, events))
    decreases |events|
  {
    hide Run, Apply, Recorded;
    if events == [] {
      NothingRecorded();
    } else {
      var front, last := events[..|events| - 1], events[|events| - 1];
      assert events == front + [last];
      RecordsAreEvents(front);
      RunSplits(START, front, [last]);
      RunOne(Run(START, front), last);
      RecordsGrow(front, last, Run(START, front));
    }
  }

  lemma NothingRecorded()
    ensures Recorded([], Run(START, []))
  {
  }

  lemma RunOne(s: Chat, e: Event)
    ensures Run(s, [e]) == Apply(s, e)
  {
    hide Apply;
    assert Run(Apply(s, e), []) == Apply(s, e);
  }

  lemma RecordsGrow(front: seq<Event>, last: Event, s: Chat)
    requires Recorded(front, s) && s == Run(START, front)
    ensures Recorded(front + [last], Apply(s, last))
  {
    hide Apply, Run, Begun, SendBegun, SendTaken, ReceiptSeen, TextSeen;
    ReceiptRecords(s, last);
    SendRecords(s, last);
    SignalRecords(s, last);
    var t := Apply(s, last);
    var events := front + [last];
    forall r <- t.receipts ensures ReceiptSeen(events, r.message, r.kind) {
      if r in s.receipts {
        ReceiptStays(front, last, r.message, r.kind);
      } else {
        ReceiptIsLast(front, last, r.message);
      }
    }
    forall n <- t.inFlight ensures SendBegun(events, n, t.inFlight[n].message) {
      if n in s.inFlight && t.inFlight[n] == s.inFlight[n] {
        BegunStays(front, last, n, t.inFlight[n].message);
      } else {
        BeginsLast(front, last, n);
      }
    }
    forall x <- t.sent ensures SendTaken(events, x) {
      if x in s.sent { TakenStays(front, last, x); } else { TakenLast(front, last, x); }
    }
    forall x | x in t.signals
      ensures if x.kind.DeliveryReceipt? then TextSeen(events, x.to, x.id) else Looked(events, x.to)
    {
      if x.kind.DeliveryReceipt? {
        if x in s.signals { TextStays(front, last, x.to, x.id); } else { TextIsLast(front, last); }
      }
    }
  }

  lemma TextStays(front: seq<Event>, last: Event, peer: string, id: string)
    requires TextSeen(front, peer, id)
    ensures TextSeen(front + [last], peer, id)
  {
    var e :| e in front && e.GetText? && e.peer == peer && e.envelope == id && e.payload.Plain?;
    assert e in front + [last];
  }

  lemma TextIsLast(front: seq<Event>, last: Event)
    requires last.GetText? && last.payload.Plain?
    ensures TextSeen(front + [last], last.peer, last.envelope)
  {
    assert last in front + [last];
  }

  lemma BeginsAtStays(front: seq<Event>, last: Event, i: nat, n: nat, x: Outbound)
    requires BeginsAt(front, i, n, x)
    ensures BeginsAt(front + [last], i, n, x)
  {
    hide Run, Begun;
    assert (front + [last])[..i] == front[..i];
  }

  lemma BegunStays(front: seq<Event>, last: Event, n: nat, x: Outbound)
    requires SendBegun(front, n, x)
    ensures SendBegun(front + [last], n, x)
  {
    hide BeginsAt;
    var i :| BeginsAt(front, i, n, x);
    BeginsAtStays(front, last, i, n, x);
  }

  lemma BeginsLast(front: seq<Event>, last: Event, n: nat)
    requires last.BeginSend? && Begun(Run(START, front), last).1 == Ok(n)
    ensures SendBegun(front + [last], n, Outbound(last.peer, last.id, last.wireId))
  {
    hide Run, Begun;
    assert (front + [last])[..|front|] == front;
    assert BeginsAt(front + [last], |front|, n, Outbound(last.peer, last.id, last.wireId));
  }

  lemma EndsAtStays(front: seq<Event>, last: Event, j: nat, n: nat)
    requires EndsAt(front, j, n)
    ensures EndsAt(front + [last], j, n)
  {
    hide Run;
    assert (front + [last])[..j] == front[..j];
  }

  lemma EndsLast(front: seq<Event>, last: Event)
    requires last.FinishSend? && last.ok && last.serial in Run(START, front).inFlight
    ensures EndsAt(front + [last], |front|, last.serial)
  {
    hide Run;
    assert (front + [last])[..|front|] == front;
  }

  lemma TakenStays(front: seq<Event>, last: Event, x: Outbound)
    requires SendTaken(front, x)
    ensures SendTaken(front + [last], x)
  {
    hide BeginsAt, EndsAt;
    var i, j, n :| i < j && BeginsAt(front, i, n, x) && EndsAt(front, j, n);
    BeginsAtStays(front, last, i, n, x);
    EndsAtStays(front, last, j, n);
  }

  lemma TakenLast(front: seq<Event>, last: Event, x: Outbound)
    requires last.FinishSend? && last.ok && SendBegun(front, last.serial, x)
    requires last.serial in Run(START, front).inFlight
    ensures SendTaken(front + [last], x)
  {
    hide BeginsAt, EndsAt, Run;
    var i :| BeginsAt(front, i, last.serial, x);
    BeginsIndex(front, i, last.serial, x);
    BeginsAtStays(front, last, i, last.serial, x);
    EndsLast(front, last);
  }

  lemma EndsIndex(events: seq<Event>, j: nat, n: nat)
    requires EndsAt(events, j, n)
    ensures j < |events|
  {
  }

  lemma BeginsIndex(events: seq<Event>, i: nat, n: nat, x: Outbound)
    requires BeginsAt(events, i, n, x)
    ensures i < |events|
  {
  }

  lemma ReceiptStays(front: seq<Event>, last: Event, x: Outbound, kind: Kind)
    requires ReceiptSeen(front, x, kind)
    ensures ReceiptSeen(front + [last], x, kind)
  {
    hide BeginsAt, EndsAt;
    var i: nat, j: nat, k: nat, n: nat :|
      i < j < k && BeginsAt(front, i, n, x) && EndsAt(front, j, n) && ReceiptAt(front, k, x, kind);
    BeginsAtStays(front, last, i, n, x);
    EndsAtStays(front, last, j, n);
    assert ReceiptAt(front + [last], k, x, kind);
  }

  lemma ReceiptIsLast(front: seq<Event>, last: Event, x: Outbound)
    requires SendTaken(front, x) && last.GetReceipt? && last.peer == x.peer && last.wireId == x.wireId
    ensures ReceiptSeen(front + [last], x, last.kind)
  {
    hide BeginsAt, EndsAt;
    var i, j, n :| i < j && BeginsAt(front, i, n, x) && EndsAt(front, j, n);
    BeginsAtStays(front, last, i, n, x);
    EndsAtStays(front, last, j, n);
    EndsIndex(front, j, n);
    assert ReceiptAt(front + [last], |front|, x, last.kind);
  }

  lemma ReceiptRecords(s: Chat, e: Event)
    ensures forall r <- Apply(s, e).receipts | r !in s.receipts ::
              && e.GetReceipt? && r.kind == e.kind && r.message in s.sent
              && r.message.peer == e.peer && r.message.wireId == e.wireId
  {
    hide DedupWindow.Marked, Settled, Receipted, Without, Restore, Acknowledged, ReadReceipts;
  }

  /** Which event begins a send, and which ends it. */
  ghost predicate SendStep(s: Chat, e: Event, t: Chat) {
    && (forall n <- t.inFlight :: (n in s.inFlight && t.inFlight[n] == s.inFlight[n])
                                  || (e.BeginSend? && t.inFlight[n].message == Outbound(e.peer, e.id, e.wireId)
                                      && Begun(s, e).1 == Ok(n)))
    && (forall x <- t.sent | x !in s.sent ::
          e.FinishSend? && e.ok && e.serial in s.inFlight
          && x == s.inFlight[e.serial].message)
  }

  lemma SendRecords(s: Chat, e: Event)
    ensures SendStep(s, e, Apply(s, e))
  {
    hide DedupWindow.Marked, Settled;
    if !e.BeginSend? && !e.FinishSend? {
      OthersSendNothing(s, e);
      hide Apply;
    }
  }

  lemma OthersSendNothing(s: Chat, e: Event)
    requires !e.BeginSend? && !e.FinishSend?
    ensures var t := Apply(s, e); t.sent == s.sent && (t.inFlight == s.inFlight || t.inFlight == map[])
  {
    if OfSession(e) { SessionIsQuiet(s, e); } else {
      hide DedupWindow.Marked, Receipted, Without, Restore, Acknowledged, ReadReceipts;
    }
  }

  predicate OfSession(e: Event) {
    || e.GetTyping? || e.GetSessionAccept? || e.GetSessionInit? || e.SessionAccepted? || e.SessionFault?
    || e.OpenConversation? || e.EndOpening?
  }

  predicate Quiet(s: Chat, t: Chat) {
    t.sent == s.sent && t.inFlight == s.inFlight && t.signals == s.signals && t.activePeer == s.activePeer
  }

  lemma ActivityIsQuiet(s: Chat, peer: string, now: int, code: string)
    ensures Quiet(s, Touched(s, peer, now)) && Quiet(s, Faulted(s, peer, now, code))
  {
  }

  lemma OpeningIsQuiet(s: Chat, peer: string, identity: nat, opening: Opening, now: int)
    ensures Quiet(s, Opens(s, peer, now)) && Quiet(s, EndsOpening(s, peer, identity, opening, now))
    ensures Quiet(s, Accepted(s, peer, identity))
  {
    hide Touched;
    ActivityIsQuiet(s, peer, now, "");
  }

  /** What only concerns sessions and activity sends nothing and emits no receipt. */
  lemma SessionIsQuiet(s: Chat, e: Event)
    requires OfSession(e)
    ensures Quiet(s, Apply(s, e))
  {
    hide DedupWindow.Marked, Touched, Faulted, Opens, EndsOpening, Accepted;
    match e
    case SessionFault(peer, now, code) => ActivityIsQuiet(s, peer, now, code);
    case OpenConversation(peer, now) => OpeningIsQuiet(s, peer, 0, Opened, now);
    case EndOpening(peer, identity, opening, now) => OpeningIsQuiet(s, peer, identity, opening, now);
    case SessionAccepted(peer, identity) => OpeningIsQuiet(s, peer, identity, Opened, 0);
    case GetTyping(peer, envelope, now) =>
      ActivityIsQuiet(s.(received := DedupWindow.Marked(s.received, envelope).0), peer, now, "");
    case GetSessionAccept(peer, envelope, now) =>
      ActivityIsQuiet(s.(received := DedupWindow.Marked(s.received, envelope).0), peer, now, "");
    case GetSessionInit(peer, envelope, now, fault) =>
      var code := if fault.Some? then fault.value else "";
      ActivityIsQuiet(s.(received := DedupWindow.Marked(s.received, envelope).0), peer, now, code);
  }

  /** Which event emits a receipt, and which opens a conversation. */
  ghost predicate SignalStep(s: Chat, e: Event, t: Chat) {
    && (forall x | x in t.signals && x !in s.signals && x.kind.DeliveryReceipt? ::
          e.GetText? && x.to == e.peer && x.id == e.envelope && e.payload.Plain?)
    && (forall x | x in t.signals && x !in s.signals && x.kind.ReadReceipt? ::
          e == MarkRead(x.to) || e == SetActivePeer(Some(x.to)) || s.activePeer == Some(x.to))
    && (t.activePeer.Some? ==> t.activePeer == s.activePeer || e == SetActivePeer(t.activePeer))
  }

  lemma SignalRecords(s: Chat, e: Event)
    ensures SignalStep(s, e, Apply(s, e))
  {
    hide SignalStep;
    if e.GetText? {
      TextSignals(s, e);
    } else if e.SetActivePeer? {
      ActiveSignals(s, e);
    } else if e.MarkRead? {
      ReadSignals(s, e, e.peer);
    } else {
      OthersAreQuiet(s, e);
      QuietStep(s, e, Apply(s, e));
    }
  }

  lemma TextSignals(s: Chat, e: Event)
    requires e.GetText?
    ensures SignalStep(s, e, GotText(s, e))
  {
    hide DedupWindow.Marked;
  }

  lemma ReadSignals(s: Chat, e: Event, peer: string)
    requires e == MarkRead(peer) || e == SetActivePeer(Some(peer))
    ensures forall x | x in Reads(s, peer).signals && x !in s.signals :: x.kind.ReadReceipt? && x.to == peer
    ensures SignalStep(s, e, Reads(s, peer))
  {
    hide Acknowledged, ReadReceipts;
    if peer in s.conversations { ReadReceiptsAre(peer, s.conversations[peer].messages); }
  }

  lemma ActiveSignals(s: Chat, e: Event)
    requires e.SetActivePeer?
    ensures SignalStep(s, e, Activated(s, e.active))
  {
    hide Reads;
    var t := s.(activePeer := e.active);
    if e.active.Some? {
      ReadSignals(t, e, e.active.value);
      ReadsKeepActive(t, e.active.value);
    }
  }

  lemma ReadsKeepActive(s: Chat, peer: string)
    ensures Reads(s, peer).activePeer == s.activePeer
  {
    hide Acknowledged, ReadReceipts;
  }

  lemma OthersAreQuiet(s: Chat, e: Event)
    requires !e.GetText? && !e.SetActivePeer? && !e.MarkRead?
    ensures var t := Apply(s, e);
            t.signals == s.signals && (t.activePeer == s.activePeer || t.activePeer == None)
  {
    if OfSession(e) { SessionIsQuiet(s, e); } else {
      hide DedupWindow.Marked, Settled, Receipted, Without, Restore;
    }
  }

  lemma QuietStep(s: Chat, e: Event, t: Chat)
    requires t.signals == s.signals && (t.activePeer == s.activePeer || t.activePeer == None)
    ensures SignalStep(s, e, t)
  {
  }

  lemma {:induction false} ReadReceiptsAre(peer: string, ms: seq<Message>)
    ensures forall x | x in ReadReceipts(peer, ms) ::
              x.to == peer && x.kind.ReadReceipt? && exists m :: m in ms && Unacknowledged(m) && m.id == x.id
  {
    if ms != [] {
      ReadReceiptsAre(peer, ms[1..]);
      assert ms[0] in ms;
      forall x | x in ReadReceipts(peer, ms[1..])
        ensures exists m :: m in ms && Unacknowledged(m) && m.id == x.id
      {
        var m :| m in ms[1..] && Unacknowledged(m) && m.id == x.id;
        assert m in ms;
      }
    }
  }

  /** Every status from sent on, live or restored from history, is backed by this message's own send, which was
      begun and then taken by the transport; and a delivered or read status by a receipt of that kind which
      came after that, from this peer and naming the message's wire id. */
  lemma StatusIsBacked(events: seq<Event>, peer: string, m: Message)
    requires m in MessagesOf(Run(START, events), peer) && m.outgoing
    ensures m.status.Some?
    ensures Confirmed(m.status) ==> m.wireId.Some? && SendTaken(events, Outbound(peer, m.id, m.wireId.value))
    ensures m.status == Some(Delivered) ==>
              ReceiptSeen(events, Outbound(peer, m.id, m.wireId.value), DeliveryReceipt)
    ensures m.status == Some(Read) ==> ReceiptSeen(events, Outbound(peer, m.id, m.wireId.value), ReadReceipt)
  {
    hide Run, ReceiptSeen, SendBegun, SendTaken;
    StartIsSound();
    RunKeeps(START, events);
    RecordsAreEvents(events);
    var s := Run(START, events);
    assert ConversationOk(s, peer, s.conversations[peer]);
    assert MessageOk(s, peer, s.conversations[peer].identity, m);
  }

  /** Honest receipts: for every inbound message, live or restored, a delivery receipt was emitted, after its
      text had come and been decrypted; it counts as acknowledged only if a read receipt was emitted for it
      too, after its conversation had been looked at. */
  lemma InboundIsAcknowledged(events: seq<Event>, peer: string, m: Message)
    requires m in MessagesOf(Run(START, events), peer) && !m.outgoing
    ensures Signal(peer, DeliveryReceipt, m.id) in Run(START, events).signals && TextSeen(events, peer, m.id)
    ensures m.readAckSent ==>
              Signal(peer, ReadReceipt, m.id) in Run(START, events).signals && Looked(events, peer)
  {
    hide Run, TextSeen, Looked, SendTaken;
    StartIsSound();
    RunKeeps(START, events);
    RecordsAreEvents(events);
    var s := Run(START, events);
    assert ConversationOk(s, peer, s.conversations[peer]);
    assert MessageOk(s, peer, s.conversations[peer].identity, m);
  }

  /** No receipt is emitted for anything else. */
  lemma SignalsAreHonest(events: seq<Event>, x: Signal)
    requires x in Run(START, events).signals
    ensures x.kind.DeliveryReceipt? ==> TextSeen(events, x.to, x.id)
    ensures x.kind.ReadReceipt? ==> Looked(events, x.to)
  {
    hide Run, TextSeen, Looked, SendTaken;
    RecordsAreEvents(events);
  }

  /** Read receipts are emitted once: looking again at the same messages emits none and changes nothing. */
  lemma ReadingTwiceIsReadingOnce(s: Chat, peer: string)
    ensures Reads(Reads(s, peer), peer) == Reads(s, peer)
  {
    if peer in s.conversations {
      AcknowledgedTwice(peer, s.conversations[peer].messages);
      var t := Reads(s, peer);
      assert t.signals + [] == t.signals;
      assert t.conversations[peer := t.conversations[peer]] == t.conversations;
    }
  }

  lemma {:induction false} AcknowledgedTwice(peer: string, ms: seq<Message>)
    ensures Acknowledged(Acknowledged(ms)) == Acknowledged(ms) && ReadReceipts(peer, Acknowledged(ms)) == []
  {
    if ms != [] {
      AcknowledgedTwice(peer, ms[1..]);
      assert Acknowledged(ms)[1..] == Acknowledged(ms[1..]);
    }
  }

  /** A message shows as sending exactly while its send is in progress; so after a reload none does. */
  lemma SendingExactlyInFlight(events: seq<Event>, peer: string, m: Message)
    requires m in MessagesOf(Run(START, events), peer) && m.outgoing
    ensures m.status == Some(Sending) <==> m.serial in Run(START, events).inFlight
  {
    hide Run;
    StartIsSound();
    RunKeeps(START, events);
    var s := Run(START, events);
    assert ConversationOk(s, peer, s.conversations[peer]);
    assert MessageOk(s, peer, s.conversations[peer].identity, m);
  }

  /** A receipt that overtakes the end of the send it confirms is lost: it raises nothing, and it is refused
      when it comes again. */
  lemma EarlyReceiptIsLost(s: Chat, peer: string, envelope: string, m: Message, kind: Kind)
    requires Sound(s) && m in MessagesOf(s, peer) && m.serial in s.inFlight && m.wireId.Some?
    requires forall x | x in MessagesOf(s, peer) && Names(x, m.wireId.value) :: x == m
    requires envelope !in s.received
    ensures var t := GotReceipt(s, peer, envelope, m.wireId.value, kind);
            && MessagesOf(t, peer) == MessagesOf(s, peer)
            && GotReceipt(t, peer, envelope, m.wireId.value, kind) == t
  {
    hide Sound, ConversationOk, Receipted;
    SoundParts(s, peer);
    InFlightIsSending(s, peer, s.conversations[peer], m);
    UnsentIsNotRaised(MessagesOf(s, peer), m.wireId.value, kind);
    DedupWindow.MarkedIsSeen(s.received, envelope);
  }

  lemma InFlightIsSending(s: Chat, peer: string, c: Conversation, m: Message)
    requires ConversationOk(s, peer, c) && m in c.messages && m.serial in s.inFlight
    ensures m.status == Some(Sending)
  {
    hide OneEach;
    assert MessageOk(s, peer, c.identity, m);
  }

  lemma {:induction false} UnsentIsNotRaised(ms: seq<Message>, wireId: string, kind: Kind)
    requires forall x | x in ms && Names(x, wireId) :: StatusIndex(x.status) < 1
    ensures Receipted(ms, wireId, kind) == ms
    decreases |ms|
  {
    if ms != [] {
      assert ms == [ms[0]] + ms[1..] && ms[0] in ms;
      if !Names(ms[0], wireId) { UnsentIsNotRaised(ms[1..], wireId, kind); }
    }
  }
}
