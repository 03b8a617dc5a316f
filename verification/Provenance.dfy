/** Where the contents of messages come from: whatever a conversation shows, live or restored from disk, is what
    one event said, and nothing of it changes afterwards. */
module Provenance {
  import opened Terms
  import opened ChatHistory
  import opened ChatRuns
  import opened ReceiptSafety
  import DedupWindow

  /** What a message says, by whom, to whom and when. */
  datatype Content = Content(id: string, wireId: Option<string>, sender: string, recipient: string,
                             plaintext: string, createdAt: int, outgoing: bool)

  function ContentOf(m: Message): Content {
    Content(m.id, m.wireId, m.sender, m.recipient, m.plaintext, m.createdAt, m.outgoing)
  }

  function SavedContent(m: Saved): Content {
    Content(m.id, m.wireId, m.sender, m.recipient, m.plaintext, m.createdAt, m.outgoing)
  }

  // ---------- What a state holds ----------

  function Contents(ms: seq<Message>): set<Content> { set m | m in ms :: ContentOf(m) }

  function SavedContents(ms: seq<Saved>): set<Content> { set m | m in ms :: SavedContent(m) }

  /** Whatever is stored for the peer. */
  function OnDisk(s: Chat, peer: string): set<Content> {
    set x, m | x in s.stored && x.0 == peer && m in x.1.messages :: SavedContent(m)
  }

  /** All that is known of the peer, live or stored. */
  function Holdings(s: Chat, peer: string): set<Content> { Contents(MessagesOf(s, peer)) + OnDisk(s, peer) }

  // ---------- Lists ----------

  lemma ContentsCons(ms: seq<Message>)
    requires ms != []
    ensures Contents(ms) == {ContentOf(ms[0])} + Contents(ms[1..])
  {
    assert ms == [ms[0]] + ms[1..];
  }

  lemma ContentsJoin(a: seq<Message>, b: seq<Message>)
    ensures Contents(a + b) == Contents(a) + Contents(b)
  {
  }

  lemma {:induction false} SettledContents(ms: seq<Message>, serial: nat, ok: bool, error: string)
    ensures Contents(Settled(ms, serial, ok, error)) == Contents(ms)
  {
    hide Contents;
    if ms != [] {
      ContentsCons(ms);
      var after := Settled(ms, serial, ok, error);
      ContentsCons(after);
      if ms[0].serial == serial { assert after[1..] == ms[1..]; } else {
        SettledContents(ms[1..], serial, ok, error);
        assert after[1..] == Settled(ms[1..], serial, ok, error);
      }
    }
  }

  lemma {:induction false} ReceiptedContents(ms: seq<Message>, wireId: string, kind: Kind)
    ensures Contents(Receipted(ms, wireId, kind)) == Contents(ms)
  {
    hide Contents;
    if ms != [] {
      ContentsCons(ms);
      var after := Receipted(ms, wireId, kind);
      ContentsCons(after);
      if Names(ms[0], wireId) { assert after[1..] == ms[1..]; } else {
        ReceiptedContents(ms[1..], wireId, kind);
        assert after[1..] == Receipted(ms[1..], wireId, kind);
      }
    }
  }

  lemma {:induction false} AcknowledgedContents(ms: seq<Message>)
    ensures Contents(Acknowledged(ms)) == Contents(ms)
  {
    hide Contents;
    if ms != [] {
      ContentsCons(ms);
      ContentsCons(Acknowledged(ms));
      AcknowledgedContents(ms[1..]);
      assert Acknowledged(ms)[1..] == Acknowledged(ms[1..]);
    }
  }

  lemma {:induction false} WithoutContents(ms: seq<Message>, id: string)
    ensures Contents(Without(ms, id)) <= Contents(ms)
  {
    hide Contents;
    if ms != [] {
      ContentsCons(ms);
      if ms[0].id != id {
        WithoutContents(ms[1..], id);
        ContentsCons(Without(ms, id));
        assert Without(ms, id)[1..] == Without(ms[1..], id);
      }
    }
  }

  lemma {:induction false} StoredContents(ms: seq<Message>)
    ensures SavedContents(StoredAll(ms)) == Contents(ms)
  {
    if ms != [] {
      StoredContents(ms[1..]);
      ContentsCons(ms);
      var all := StoredAll(ms);
      assert all == [Stored(ms[0])] + StoredAll(ms[1..]);
      assert SavedContents(all) == {SavedContent(Stored(ms[0]))} + SavedContents(StoredAll(ms[1..]));
    }
  }

  lemma MergedContents(ms: seq<Message>, saved: seq<Saved>, serial: nat)
    ensures Contents(Merged(ms, saved, serial)) <= Contents(ms) + SavedContents(saved)
  {
    hide Merged, NewOnes, Ids;
    var added := NewOnes(Ids(ms), saved, serial);
    MergedIs(ms, saved, serial);
    SameIds(ms + added, Merged(ms, saved, serial));
    NewOnesAre(Ids(ms), saved, serial);
    forall m | m in added ensures ContentOf(m) in SavedContents(saved) {
      var x :| x in saved && m == ToDisplayMessage(x, m.serial);
    }
  }

  // ---------- Events ----------

  /** What the event adds for the peer: the text of the send that it begins, or of the envelope that it brings,
      when that is new and the conversation has a session. */
  function Said(s: Chat, e: Event, peer: string): set<Content> {
    match e
    case BeginSend(to, id, wireId, self, plaintext, now) =>
      if to == peer && Begun(s, e).1.Ok? then {Content(id, Some(wireId), self, peer, plaintext, now, true)} else {}
    case GetText(sender, envelope, recipient, timestamp, now, Plain(text)) =>
      if sender == peer && envelope !in s.received && peer in s.conversations && s.conversations[peer].ready
      then {Content(envelope, Some(envelope), peer, recipient, text, timestamp, false)} else {}
    case _ => {}
  }

  /** The lists and the store are as they were, or a list is gone. */
  ghost predicate SameLists(s: Chat, t: Chat) {
    t.stored == s.stored && forall p: string :: MessagesOf(t, p) == MessagesOf(s, p) || MessagesOf(t, p) == []
  }

  /** One list has changed, and its contents were known. */
  ghost predicate OneList(s: Chat, t: Chat, peer: string, more: set<Content>) {
    && t.stored == s.stored && (forall p: string | p != peer :: MessagesOf(t, p) == MessagesOf(s, p))
    && Contents(MessagesOf(t, peer)) <= Holdings(s, peer) + more
  }

  lemma SameListsHold(s: Chat, t: Chat, peer: string)
    requires SameLists(s, t)
    ensures Holdings(t, peer) <= Holdings(s, peer)
  {
  }

  lemma OneListHolds(s: Chat, t: Chat, changed: string, more: set<Content>, peer: string)
    requires OneList(s, t, changed, more)
    ensures Holdings(t, peer) <= Holdings(s, peer) + if peer == changed then more else {}
  {
  }

  lemma ActivityLists(s: Chat, peer: string, now: int, code: string)
    ensures SameLists(s, Ensured(s, peer, now)) && SameLists(s, Touched(s, peer, now))
    ensures SameLists(s, Faulted(s, peer, now, code)) && SameLists(s, Opens(s, peer, now))
  {
  }

  lemma SessionLists(s: Chat, peer: string, identity: nat, opening: Opening, now: int)
    ensures SameLists(s, EndsOpening(s, peer, identity, opening, now)) && SameLists(s, Accepted(s, peer, identity))
  {
  }

  lemma ReceivedLists(s: Chat, window: seq<string>, t: Chat)
    requires SameLists(s.(received := window), t)
    ensures SameLists(s, t)
  {
  }

  lemma OfSessionLists(s: Chat, e: Event)
    requires OfSession(e)
    ensures SameLists(s, Apply(s, e))
  {
    hide SameLists, DedupWindow.Marked, Touched, Faulted, Opens, EndsOpening, Accepted;
    NothingLists(s);
    match e
    case SessionFault(peer, now, code) => ActivityLists(s, peer, now, code);
    case OpenConversation(peer, now) => ActivityLists(s, peer, now, "");
    case EndOpening(peer, identity, opening, now) => SessionLists(s, peer, identity, opening, now);
    case SessionAccepted(peer, identity) => SessionLists(s, peer, identity, Opened, 0);
    case GetTyping(peer, envelope, now) => EnvelopeLists(s, peer, envelope, now, None);
    case GetSessionAccept(peer, envelope, now) => EnvelopeLists(s, peer, envelope, now, None);
    case GetSessionInit(peer, envelope, now, fault) => EnvelopeLists(s, peer, envelope, now, fault);
  }

  lemma NothingLists(s: Chat)
    ensures SameLists(s, s)
  {
  }

  lemma EnvelopeLists(s: Chat, peer: string, envelope: string, now: int, fault: Option<string>)
    ensures SameLists(s, GotTyping(s, peer, envelope, now)) && SameLists(s, GotSessionAccept(s, peer, envelope, now))
    ensures SameLists(s, GotSessionInit(s, peer, envelope, now, fault))
  {
    hide SameLists, DedupWindow.Marked, Touched, Faulted;
    var window := DedupWindow.Marked(s.received, envelope).0;
    var r := s.(received := window);
    NothingLists(s);
    NothingLists(r);
    ReceivedLists(s, window, r);
    ActivityLists(r, peer, now, if fault.Some? then fault.value else "");
    ReceivedLists(s, window, Touched(r, peer, now));
    if fault.Some? { ReceivedLists(s, window, Faulted(r, peer, now, fault.value)); }
  }

  lemma BeginHoldings(s: Chat, e: Event, peer: string)
    requires e.BeginSend?
    ensures Holdings(Begun(s, e).0, peer) <= Holdings(s, peer) + Said(s, e, peer)
  {
    hide Contents;
    var t := Ensured(s, e.peer, e.now);
    var m := OutboundMessage(e, t.nextSerial);
    ContentsJoin(MessagesOf(s, e.peer), [m]);
    OneContent(m);
    if Begun(s, e).1.Ok? {
      OneListHolds(s, Begun(s, e).0, e.peer, Said(s, e, e.peer), peer);
    } else {
      ActivityLists(s, e.peer, e.now, "");
      SameListsHold(s, t, peer);
    }
  }

  lemma OneContent(m: Message)
    ensures Contents([m]) == {ContentOf(m)}
  {
  }

  lemma TextHoldings(s: Chat, e: Event, peer: string)
    requires e.GetText?
    ensures Holdings(GotText(s, e), peer) <= Holdings(s, peer) + Said(s, e, peer)
  {
    hide Contents;
    var t := GotText(s, e);
    NothingLists(s);
    if t.nextSerial > s.nextSerial && t.signals != s.signals {
      var m := InboundMessage(e, Ensured(s, e.peer, e.now).nextSerial, s.activePeer == Some(e.peer));
      ContentsJoin(MessagesOf(s, e.peer), [m]);
      OneContent(m);
      OneListHolds(s, t, e.peer, Said(s, e, e.peer), peer);
    } else {
      SameListsHold(s, t, peer);
    }
  }

  /** Events that rearrange one list, or move known contents into it. */
  lemma ListHoldings(s: Chat, t: Chat, changed: string, peer: string)
    requires t.stored == s.stored && forall p: string | p != changed :: MessagesOf(t, p) == MessagesOf(s, p)
    requires Contents(MessagesOf(t, changed)) <= Contents(MessagesOf(s, changed))
    ensures Holdings(t, peer) <= Holdings(s, peer)
  {
    hide Contents;
    OneListHolds(s, t, changed, {}, peer);
  }

  lemma FinishHoldings(s: Chat, serial: nat, ok: bool, error: string, code: string, peer: string)
    ensures Holdings(Finished(s, serial, ok, error, code), peer) <= Holdings(s, peer)
  {
    hide Contents, Settled, Holdings;
    var t := Finished(s, serial, ok, error, code);
    if t.conversations == s.conversations {
      SameListsHold(s, t, peer);
    } else {
      var changed := s.inFlight[serial].message.peer;
      SettledContents(MessagesOf(s, changed), serial, ok, error);
      ListHoldings(s, t, changed, peer);
    }
  }

  lemma ReceiptHoldings(s: Chat, sender: string, envelope: string, wireId: string, kind: Kind, peer: string)
    ensures Holdings(GotReceipt(s, sender, envelope, wireId, kind), peer) <= Holdings(s, peer)
  {
    hide Contents, Receipted, Holdings, DedupWindow.Marked, Receipts, Named;
    ReceiptedContents(MessagesOf(s, sender), wireId, kind);
    var t := GotReceipt(s, sender, envelope, wireId, kind);
    ListHoldings(s, t, sender, peer);
  }

  lemma ReadHoldings(s: Chat, read: string, peer: string)
    ensures Holdings(Reads(s, read), peer) <= Holdings(s, peer)
  {
    hide Contents, Acknowledged, Holdings, ReadReceipts;
    AcknowledgedContents(MessagesOf(s, read));
    ListHoldings(s, Reads(s, read), read, peer);
  }

  lemma DeleteHoldings(s: Chat, from: string, id: string, peer: string)
    ensures Holdings(Deleted(s, from, id), peer) <= Holdings(s, peer)
  {
    hide Contents, Without, Holdings;
    WithoutContents(MessagesOf(s, from), id);
    ListHoldings(s, Deleted(s, from, id), from, peer);
  }

  lemma HydrateHoldings(s: Chat, into: string, history: SavedConversation, peer: string)
    ensures Holdings(Hydrated(s, into, history), peer) <= Holdings(s, peer)
  {
    hide Contents, Merged, Holdings, OnDisk;
    var t := Hydrated(s, into, history);
    if (into, history) in s.stored {
      SavedIsOnDisk(s, into, history);
      EmptyContents();
      MergedContents(MessagesOf(s, into), history.messages, s.nextSerial);
      MergedContents([], history.messages, s.nextSerial + 1);
      KnownList(s, t, into);
      OneListHolds(s, t, into, {}, peer);
    }
  }

  lemma EmptyContents()
    ensures Contents([]) == {}
  {
  }

  lemma SavedIsOnDisk(s: Chat, peer: string, history: SavedConversation)
    requires (peer, history) in s.stored
    ensures SavedContents(history.messages) <= OnDisk(s, peer)
  {
    forall m | m in history.messages ensures SavedContent(m) in OnDisk(s, peer) {
      assert (peer, history).1.messages == history.messages;
    }
  }

  lemma KnownList(s: Chat, t: Chat, changed: string)
    requires t.stored == s.stored && forall p: string | p != changed :: MessagesOf(t, p) == MessagesOf(s, p)
    requires Contents(MessagesOf(t, changed)) <= Contents(MessagesOf(s, changed)) + OnDisk(s, changed)
    ensures OneList(s, t, changed, {})
  {
    hide Contents, OnDisk;
  }

  /** Whatever is written to the store was in a list. */
  lemma DiskHoldings(s: Chat, t: Chat, peer: string)
    requires forall p: string :: MessagesOf(t, p) == MessagesOf(s, p) || MessagesOf(t, p) == []
    requires forall x <- t.stored | x !in s.stored ::
               x.0 in s.conversations && x.1 == SerializeConversation(s.conversations[x.0])
    ensures Holdings(t, peer) <= Holdings(s, peer)
  {
    hide StoredAll;
    forall c | c in OnDisk(t, peer) ensures c in Holdings(s, peer) {
      var x, m :| x in t.stored && x.0 == peer && m in x.1.messages && c == SavedContent(m);
      if x !in s.stored { StoredContents(s.conversations[peer].messages); }
    }
  }

  lemma KeepsHoldings(s: Chat, e: Event, peer: string)
    ensures Holdings(Apply(s, e), peer) <= Holdings(s, peer) + Said(s, e, peer)
  {
    hide Holdings, Said, Begun, Finished, GotReceipt, GotText, Reads, Hydrated, Deleted, SerializeConversation;
    if OfSession(e) {
      OfSessionLists(s, e);
      SameListsHold(s, Apply(s, e), peer);
    } else {
      hide GotTyping, GotSessionAccept, GotSessionInit, Accepted, Faulted, Opens, EndsOpening;
      match e
      case BeginSend(_, _, _, _, _, _) => BeginHoldings(s, e, peer);
      case FinishSend(serial, ok, error, code) => FinishHoldings(s, serial, ok, error, code, peer);
      case GetReceipt(sender, envelope, wireId, kind) => ReceiptHoldings(s, sender, envelope, wireId, kind, peer);
      case GetText(_, _, _, _, _, _) => TextHoldings(s, e, peer);
      case SetActivePeer(active) => ActiveHoldings(s, active, peer);
      case MarkRead(read) => ReadHoldings(s, read, peer);
      case Save(of) => DiskHoldings(s, Apply(s, e), peer);
      case Hydrate(into, history) => HydrateHoldings(s, into, history, peer);
      case DeleteMessage(from, id) => DeleteHoldings(s, from, id, peer);
      case CloseConversation(_) => DiskHoldings(s, Apply(s, e), peer);
      case ClearSessions => DiskHoldings(s, Apply(s, e), peer);
      case Reload => DiskHoldings(s, Apply(s, e), peer);
    }
  }

  lemma ActiveHoldings(s: Chat, active: Option<string>, peer: string)
    ensures Holdings(Activated(s, active), peer) <= Holdings(s, peer)
  {
    hide Holdings, Reads;
    var t := s.(activePeer := active);
    SameListsHold(s, t, peer);
    if active.Some? { ReadHoldings(t, active.value, peer); }
  }

  // ---------- Runs ----------

  ghost predicate SaidAt(events: seq<Event>, i: nat, peer: string, c: Content) {
    i < |events| && c in Said(Run(START, events[..i]), events[i], peer)
  }

  lemma {:induction false} HoldingsWereSaid(events: seq<Event>, peer: string, c: Content)
    requires c in Holdings(Run(START, events), peer)
    ensures exists i: nat :: SaidAt(events, i, peer, c)
    decreases |events|
  {
    hide Run, Apply, Holdings, Said;
    if events == [] {
      NothingHeld(peer);
    } else {
      var front, last := events[..|events| - 1], events[|events| - 1];
      assert events == front + [last];
      RunSplits(START, front, [last]);
      RunOne(Run(START, front), last);
      KeepsHoldings(Run(START, front), last, peer);
      if c in Holdings(Run(START, front), peer) {
        HoldingsWereSaid(front, peer, c);
        var i: nat :| SaidAt(front, i, peer, c);
        assert events[..i] == front[..i];
        assert SaidAt(events, i, peer, c);
      } else {
        assert SaidAt(events, |front|, peer, c);
      }
    }
  }

  lemma NothingHeld(peer: string)
    ensures Holdings(Run(START, []), peer) == {}
  {
  }

  /** Event `i` is a text envelope from the peer, new at that time and in a conversation with a session, and
      the message is what it said. */
  ghost predicate TextAt(events: seq<Event>, i: nat, peer: string, m: Message) {
    && i < |events| && events[i].GetText? && events[i].payload == Plain(m.plaintext)
    && events[i].peer == m.sender == peer && events[i].recipient == m.recipient
    && events[i].envelope == m.id && m.wireId == Some(m.id) && events[i].timestamp == m.createdAt
    && var s := Run(START, events[..i]);
    && m.id !in s.received && peer in s.conversations && s.conversations[peer].ready
  }

  /** Event `i` begins a send to the peer, and the message is what it sends. */
  ghost predicate SendAt(events: seq<Event>, i: nat, peer: string, m: Message) {
    && i < |events| && events[i].BeginSend? && events[i].plaintext == m.plaintext
    && events[i].peer == m.recipient == peer && events[i].self == m.sender
    && events[i].id == m.id && m.wireId == Some(events[i].wireId) && events[i].now == m.createdAt
    && Begun(Run(START, events[..i]), events[i]).1.Ok?
  }

  lemma HeldContent(s: Chat, peer: string, m: Message)
    requires m in MessagesOf(s, peer)
    ensures ContentOf(m) in Holdings(s, peer)
  {
    hide OnDisk;
  }

  lemma SaidIs(s: Chat, e: Event, peer: string, c: Content)
    requires c in Said(s, e, peer)
    ensures c.outgoing ==>
              && e.BeginSend? && e.plaintext == c.plaintext && e.peer == c.recipient == peer && e.self == c.sender
              && e.id == c.id && c.wireId == Some(e.wireId) && e.now == c.createdAt && Begun(s, e).1.Ok?
    ensures !c.outgoing ==>
              && e.GetText? && e.payload == Plain(c.plaintext) && e.peer == c.sender == peer
              && e.recipient == c.recipient && e.envelope == c.id && c.wireId == Some(c.id)
              && e.timestamp == c.createdAt && c.id !in s.received
              && peer in s.conversations && s.conversations[peer].ready
  {
    hide Begun;
  }

  /** Every message that a conversation lists, live or restored from disk, says what one event said: an inbound
      one what the peer's text envelope said, decrypted, and an outbound one what was given to its send. Nothing
      of it is of another peer, and nothing of it was changed since. */
  lemma MessagesAreAuthentic(events: seq<Event>, peer: string, m: Message)
    requires m in MessagesOf(Run(START, events), peer)
    ensures if m.outgoing then exists i: nat :: SendAt(events, i, peer, m)
            else exists i: nat :: TextAt(events, i, peer, m)
  {
    hide Run, Holdings, Said, Begun;
    HeldContent(Run(START, events), peer, m);
    HoldingsWereSaid(events, peer, ContentOf(m));
    var i: nat :| SaidAt(events, i, peer, ContentOf(m));
    SaidIs(Run(START, events[..i]), events[i], peer, ContentOf(m));
    assert if m.outgoing then SendAt(events, i, peer, m) else TextAt(events, i, peer, m);
  }
}
