/** What the controller keeps beside its conversations: the active peer, the received ids and the store; and that a
    stored conversation comes back after a reload. */
module Records {
  import opened Terms
  import opened ChatHistory
  import opened ChatRuns
  import opened ReceiptSafety
  import opened ConversationFields
  import opened Provenance
  import DedupWindow

  /** The id of the envelope, if the event brings one. */
  function EnvelopeOf(e: Event): Option<string> {
    match e
    case GetReceipt(_, envelope, _, _) => Some(envelope)
    case GetText(_, envelope, _, _, _, _) => Some(envelope)
    case GetTyping(_, envelope, _) => Some(envelope)
    case GetSessionAccept(_, envelope, _) => Some(envelope)
    case GetSessionInit(_, envelope, _, _) => Some(envelope)
    case _ => None
  }

  /** A stored message with every field of a listed one. */
  predicate SameFields(x: Saved, m: Message) {
    && x.id == m.id && x.wireId == m.wireId && x.sender == m.sender && x.recipient == m.recipient
    && x.plaintext == m.plaintext && x.createdAt == m.createdAt && x.outgoing == m.outgoing && x.status == m.status
    && x.errorMessage == m.errorMessage && x.readAckSent == m.readAckSent
  }

  /** What is stored of a conversation. */
  predicate IsRecordOf(x: SavedConversation, c: Conversation) {
    && |x.messages| == |c.messages| && x.lastActivityAt == c.lastActivityAt && x.unreadCount == c.unreadCount
    && forall i | 0 <= i < |c.messages| :: SameFields(x.messages[i], c.messages[i])
  }

  lemma {:induction false} StoredPlaces(ms: seq<Message>)
    ensures |StoredAll(ms)| == |ms| && forall i | 0 <= i < |ms| :: SameFields(StoredAll(ms)[i], ms[i])
  {
    if ms != [] {
      StoredPlaces(ms[1..]);
      assert forall i | 0 < i < |ms| :: ms[i] == ms[1..][i - 1];
    }
  }

  lemma SerializedIsRecord(c: Conversation)
    ensures IsRecordOf(SerializeConversation(c), c)
  {
    StoredPlaces(c.messages);
  }

  ghost predicate RecordsFollow(s: Chat, e: Event, t: Chat) {
    && t.activePeer == (match e
                        case SetActivePeer(active) => active
                        case CloseConversation(p) =>
                          if s.activePeer == Some(p) && p in s.conversations then None else s.activePeer
                        case ClearSessions => None
                        case Reload => None
                        case _ => s.activePeer)
    && t.received == (if e.ClearSessions? || e.Reload? then []
                      else if EnvelopeOf(e).Some? then DedupWindow.Marked(s.received, EnvelopeOf(e).value).0
                      else s.received)
    && s.stored <= t.stored
    && (forall x <- t.stored | x !in s.stored ::
          (e == Save(x.0) || e.ClearSessions?) && x.0 in s.conversations && IsRecordOf(x.1, s.conversations[x.0]))
    && (forall p <- s.conversations | e == Save(p) || e.ClearSessions? ::
          exists x :: (p, x) in t.stored && IsRecordOf(x, s.conversations[p]))
  }

  /** The active peer, the received ids and the store after every event. */
  lemma RecordsStep(s: Chat, e: Event)
    ensures RecordsFollow(s, e, Apply(s, e))
  {
    hide IsRecordOf, SerializeConversation, DedupWindow.Marked;
    if e.Save? || e.ClearSessions? {
      forall p <- s.conversations ensures IsRecordOf(SerializeConversation(s.conversations[p]), s.conversations[p]) {
        SerializedIsRecord(s.conversations[p]);
      }
      if e.Save? { SavedRecords(s, e.peer); } else { ClearedRecords(s); }
    } else {
      OtherRecords(s, e);
    }
  }

  lemma SavedRecords(s: Chat, peer: string)
    ensures RecordsFollow(s, Save(peer), Stores(s, peer))
  {
    hide IsRecordOf, SerializeConversation;
    if peer in s.conversations {
      SerializedIsRecord(s.conversations[peer]);
      assert (peer, SerializeConversation(s.conversations[peer])) in Stores(s, peer).stored;
    }
  }

  lemma ClearedRecords(s: Chat)
    ensures RecordsFollow(s, ClearSessions, Apply(s, ClearSessions))
  {
    hide IsRecordOf, SerializeConversation;
    forall p <- s.conversations
      ensures exists x :: (p, x) in Apply(s, ClearSessions).stored && IsRecordOf(x, s.conversations[p])
    {
      SerializedIsRecord(s.conversations[p]);
      assert (p, SerializeConversation(s.conversations[p])) in Apply(s, ClearSessions).stored;
    }
    forall x <- Apply(s, ClearSessions).stored | x !in s.stored ensures IsRecordOf(x.1, s.conversations[x.0]) {
      SerializedIsRecord(s.conversations[x.0]);
    }
  }

  /** Events that bring an envelope, and those that concern a session. */
  lemma OtherRecords(s: Chat, e: Event)
    requires !e.Save? && !e.ClearSessions?
    ensures RecordsFollow(s, e, Apply(s, e))
  {
    hide IsRecordOf, SerializeConversation, DedupWindow.Marked, Touched, Faulted;
    if EnvelopeOf(e).Some? {
      RefusedChangesNothing(s.received, EnvelopeOf(e).value);
      EnvelopeRecords(s, e);
    } else {
      ActivityRecords(s, e);
      hide Settled, Without, Restore, Acknowledged, ReadReceipts;
    }
  }

  ghost predicate SameRecords(s: Chat, t: Chat) {
    t.stored == s.stored && t.activePeer == s.activePeer && t.received == s.received
  }

  lemma TouchedRecords(s: Chat, peer: string, now: int, code: string)
    ensures SameRecords(s, Touched(s, peer, now)) && SameRecords(s, Faulted(s, peer, now, code))
  {
  }

  lemma ActivityRecords(s: Chat, e: Event)
    ensures e.SessionFault? ==> SameRecords(s, Faulted(s, e.peer, e.now, e.code))
    ensures e.OpenConversation? ==> SameRecords(s, Touched(s, e.peer, e.now))
  {
    hide Touched, Faulted;
    if e.SessionFault? { TouchedRecords(s, e.peer, e.now, e.code); }
    if e.OpenConversation? { TouchedRecords(s, e.peer, e.now, ""); }
  }

  lemma EnvelopeRecords(s: Chat, e: Event)
    requires EnvelopeOf(e).Some?
    ensures var t := Apply(s, e);
            && t.stored == s.stored && t.activePeer == s.activePeer
            && t.received == DedupWindow.Marked(s.received, EnvelopeOf(e).value).0
  {
    hide DedupWindow.Marked, Touched, Faulted, Receipted, Receipts, Named, Ensured;
    RefusedChangesNothing(s.received, EnvelopeOf(e).value);
    var r := s.(received := DedupWindow.Marked(s.received, EnvelopeOf(e).value).0);
    if e.GetTyping? || e.GetSessionAccept? { TouchedRecords(r, e.peer, e.now, ""); }
    if e.GetSessionInit? { TouchedRecords(r, e.peer, e.now, if e.fault.Some? then e.fault.value else ""); }
    if e.GetText? { EnsuredIs(r, e.peer, e.now, e.peer); }
  }

  lemma RefusedChangesNothing(window: seq<string>, envelope: string)
    ensures !DedupWindow.Marked(window, envelope).1 ==> DedupWindow.Marked(window, envelope).0 == window
  {
  }

  // ---------- A reload ----------

  /** A listed message as it comes back: an unconfirmed send as failed, everything else as it was. */
  predicate ComesBack(m: Message, r: Message) {
    && r.id == m.id && r.wireId == m.wireId && r.sender == m.sender && r.recipient == m.recipient
    && r.plaintext == m.plaintext && r.createdAt == m.createdAt && r.outgoing == m.outgoing
    && r.readAckSent == m.readAckSent
    && r.status == if m.outgoing && m.status !in {Some(Sent), Some(Delivered), Some(Read)} then Some(Failed)
                   else m.status
  }

  lemma {:induction false} DistinctAreNew(known: set<string>, saved: seq<Saved>, serial: nat)
    requires forall i, j | 0 <= i < j < |saved| :: saved[i].id != saved[j].id
    requires forall i | 0 <= i < |saved| :: saved[i].id !in known
    ensures |NewOnes(known, saved, serial)| == |saved|
    ensures forall i | 0 <= i < |saved| :: NewOnes(known, saved, serial)[i] == ToDisplayMessage(saved[i], serial + i)
    decreases |saved|
  {
    if saved != [] {
      var rest := saved[1..];
      assert forall i | 0 <= i < |rest| :: rest[i] == saved[i + 1];
      DistinctAreNew(known + {saved[0].id}, rest, serial + 1);
      assert forall i | 0 < i < |saved| :: saved[i] == rest[i - 1];
    }
  }

  /** A conversation whose messages have distinct ids survives a reload: stored, and restored after it, it lists as
      many messages as before, in the order of time, and each of them comes back; so do its last activity and its
      unread count. Only its session is gone. */
  lemma SurvivesReload(s: Chat, peer: string)
    requires peer in s.conversations && DistinctIds(s.conversations[peer].messages)
    ensures var c := s.conversations[peer];
            var stored := Apply(s, Save(peer));
            exists x :: (peer, x) in stored.stored && IsRecordOf(x, c)
                        && ComesBackAs(c, Hydrated(Apply(stored, Reload), peer, x), peer)
  {
    hide IsRecordOf, SerializeConversation, ComesBackAs;
    var c := s.conversations[peer];
    var x := SerializeConversation(c);
    SerializedIsRecord(c);
    var stored := Apply(s, Save(peer));
    assert (peer, x) in stored.stored;
    RestoredComesBack(Apply(stored, Reload), peer, c, x);
  }

  ghost predicate ComesBackAs(c: Conversation, t: Chat, peer: string) {
    && peer in t.conversations
    && var d := t.conversations[peer];
    && |d.messages| == |c.messages| && TimeOrdered(d.messages)
    && (forall m | m in c.messages :: exists r :: r in d.messages && ComesBack(m, r))
    && d.lastActivityAt == c.lastActivityAt && d.unreadCount == c.unreadCount
    && !d.ready && !d.sending && !d.initiating && d.session == NoSession
  }

  lemma RestoredComesBack(s: Chat, peer: string, c: Conversation, x: SavedConversation)
    requires peer !in s.conversations && (peer, x) in s.stored && IsRecordOf(x, c) && DistinctIds(c.messages)
    ensures ComesBackAs(c, Hydrated(s, peer, x), peer)
  {
    hide Merged, TimeOrdered, DistinctIds, IsRecordOf, ComesBack;
    DistinctSaved(x, c);
    RecordParts(x, c);
    MergedAlone(x.messages, s.nextSerial + 1);
    var d := Hydrated(s, peer, x).conversations[peer];
    forall m | m in c.messages ensures exists r :: r in d.messages && ComesBack(m, r) {
      var i :| 0 <= i < |c.messages| && c.messages[i] == m;
      var r := ToDisplayMessage(x.messages[i], s.nextSerial + 1 + i);
      DisplayComesBack(x.messages[i], m, r.serial);
      assert r in d.messages;
    }
  }

  lemma RecordParts(x: SavedConversation, c: Conversation)
    requires IsRecordOf(x, c)
    ensures |x.messages| == |c.messages| && x.lastActivityAt == c.lastActivityAt && x.unreadCount == c.unreadCount
    ensures forall i | 0 <= i < |c.messages| :: SameFields(x.messages[i], c.messages[i])
  {
  }

  lemma DisplayComesBack(x: Saved, m: Message, serial: nat)
    requires SameFields(x, m)
    ensures ComesBack(m, ToDisplayMessage(x, serial))
  {
  }

  /** Stored messages with distinct ids, restored into an empty list. */
  lemma MergedAlone(saved: seq<Saved>, serial: nat)
    requires forall i, j | 0 <= i < j < |saved| :: saved[i].id != saved[j].id
    ensures var d := Merged([], saved, serial);
            && |d| == |saved| && TimeOrdered(d)
            && forall i | 0 <= i < |saved| :: ToDisplayMessage(saved[i], serial + i) in d
  {
    hide SortByTime, TimeOrdered, NewOnes, ToDisplayMessage;
    DistinctAreNew({}, saved, serial);
    var added := NewOnes({}, saved, serial);
    assert [] + added == added && Ids([]) == {};
    SortKeeps(added);
    SameLength(added, SortByTime(added));
    SameIds(added, SortByTime(added));
    forall i | 0 <= i < |saved| ensures ToDisplayMessage(saved[i], serial + i) in SortByTime(added) {
      assert added[i] in added;
    }
  }

  lemma DistinctSaved(x: SavedConversation, c: Conversation)
    requires IsRecordOf(x, c) && DistinctIds(c.messages)
    ensures forall i, j | 0 <= i < j < |x.messages| :: x.messages[i].id != x.messages[j].id
  {
  }
}
