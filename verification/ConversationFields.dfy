/** The fields of a conversation, one by one: which events change each of them, and to what; and what that means
    over runs for sessions and for sending. */
module ConversationFields {
  import opened Terms
  import opened ChatHistory
  import opened ChatRuns
  import opened ReceiptSafety
  import Bytes
  import DedupWindow

  // ---------- Which events count ----------

  /** A new envelope of the peer arrives. */
  predicate Arrives(s: Chat, e: Event, peer: string) {
    match e
    case GetText(sender, envelope, _, _, _, _) => sender == peer && envelope !in s.received
    case GetTyping(sender, envelope, _) => sender == peer && envelope !in s.received
    case GetSessionInit(sender, envelope, _, _) => sender == peer && envelope !in s.received
    case _ => false
  }

  /** The conversation object is given a session. */
  predicate GivesSession(e: Event, peer: string, identity: nat) {
    || e == SessionAccepted(peer, identity)
    || (e.EndOpening? && e.peer == peer && e.identity == identity && !e.opening.OpeningFailed?)
  }

  /** A text that the conversation can decrypt. */
  predicate ReadsText(s: Chat, e: Event, peer: string) {
    Arrives(s, e, peer) && e.GetText? && e.payload.Plain? && peer in s.conversations && s.conversations[peer].ready
  }

  predicate BeginsSend(s: Chat, e: Event, peer: string) {
    && e.BeginSend? && e.peer == peer && peer in s.conversations && s.conversations[peer].ready
    && !s.conversations[peer].sending && exists i | 0 <= i < |e.plaintext| :: !Bytes.IsWhitespace(e.plaintext[i])
  }

  /** The end of the send of this object. */
  predicate EndsSend(s: Chat, e: Event, peer: string, identity: nat) {
    && e.FinishSend? && e.serial in s.inFlight
    && s.inFlight[e.serial].message.peer == peer && s.inFlight[e.serial].identity == identity
  }

  /** The conversation is looked at. */
  predicate Looks(s: Chat, e: Event, peer: string) {
    e == MarkRead(peer) || (e == SetActivePeer(Some(peer)) && s.activePeer != Some(peer))
  }

  /** What the session state becomes. */
  function SessionNext(s: Chat, e: Event, peer: string, c: Conversation): SessionState {
    match e
    case FinishSend(_, false, _, code) => if EndsSend(s, e, peer, c.identity) then Faulty(code) else c.session
    case GetText(_, _, _, _, _, payload) =>
      if !Arrives(s, e, peer) || (c.ready && payload.Plain?) then c.session
      else if c.ready && payload.NotBase64? then Faulty("invalid_bundle") else Faulty("session_decrypt_failed")
    case GetSessionInit(_, _, _, Some(code)) => if Arrives(s, e, peer) then Faulty(code) else c.session
    case SessionFault(p, _, code) => if p == peer then Faulty(code) else c.session
    case SessionAccepted(p, identity) => if p == peer && identity == c.identity then Established(false) else c.session
    case OpenConversation(p, _) => if p == peer && !c.ready && !c.initiating then Initiating else c.session
    case EndOpening(p, identity, opening, _) =>
      if p != peer || identity != c.identity then c.session
      else if opening.Opened? then Established(true)
      else Faulty(if opening.TransportThrew? then opening.threw else opening.failure)
    case _ => c.session
  }

  /** The time of the last activity. */
  function ActivityNext(s: Chat, e: Event, peer: string, c: Conversation): int {
    match e
    case BeginSend(p, _, _, _, _, now) =>
      if BeginsSend(s, e, peer) || (p == peer && peer !in s.conversations) then now else c.lastActivityAt
    case GetText(_, _, _, _, now, _) => if Arrives(s, e, peer) then now else c.lastActivityAt
    case GetTyping(_, _, now) => if Arrives(s, e, peer) then now else c.lastActivityAt
    case GetSessionInit(_, _, now, _) => if Arrives(s, e, peer) then now else c.lastActivityAt
    case GetSessionAccept(p, envelope, now) => if p == peer && envelope !in s.received then now else c.lastActivityAt
    case SessionFault(p, now, _) => if p == peer then now else c.lastActivityAt
    case OpenConversation(p, now) => if p == peer then now else c.lastActivityAt
    case EndOpening(p, identity, Opened, now) =>
      if p == peer && identity == c.identity then now else c.lastActivityAt
    case Hydrate(p, h) =>
      if p != peer || (p, h) !in s.stored || (peer in s.conversations && h.lastActivityAt <= c.lastActivityAt)
      then c.lastActivityAt else h.lastActivityAt
    case _ => c.lastActivityAt
  }

  function UnreadNext(s: Chat, e: Event, peer: string, c: Conversation): nat {
    if ReadsText(s, e, peer) && s.activePeer != Some(peer) then c.unreadCount + 1
    else if Looks(s, e, peer) then 0
    else
      match e
      case Hydrate(p, h) =>
        if p == peer && (p, h) in s.stored && h.unreadCount > c.unreadCount then h.unreadCount else c.unreadCount
      case _ => c.unreadCount
  }

  /** A conversation that was not there. */
  function Prior(s: Chat, peer: string): Conversation {
    if peer in s.conversations then s.conversations[peer]
    else Conversation(s.nextSerial, [], 0, 0, false, false, false, NoSession)
  }

  /** Whether there is a conversation afterwards. */
  predicate Remains(s: Chat, e: Event, peer: string) {
    match e
    case CloseConversation(p) => peer in s.conversations && p != peer
    case ClearSessions => false
    case Reload => false
    case BeginSend(p, _, _, _, _, _) => peer in s.conversations || p == peer
    case SessionFault(p, _, _) => peer in s.conversations || p == peer
    case OpenConversation(p, _) => peer in s.conversations || p == peer
    case Hydrate(p, h) => peer in s.conversations || (p == peer && (p, h) in s.stored)
    case _ => peer in s.conversations || Arrives(s, e, peer)
  }

  predicate ListsChange(e: Event) {
    || e.BeginSend? || e.FinishSend? || e.GetReceipt? || e.GetText? || e.SetActivePeer? || e.MarkRead? || e.Hydrate?
    || e.DeleteMessage?
  }

  /** All fields in the state after the event, the messages where they stay. */
  ghost predicate FieldsFollow(s: Chat, e: Event, t: Chat, peer: string) {
    && (peer in t.conversations <==> Remains(s, e, peer))
    && (peer in t.conversations ==>
          var c, d := Prior(s, peer), t.conversations[peer];
          && d.identity == c.identity
          && d.ready == (c.ready || GivesSession(e, peer, c.identity))
          && d.initiating == (if e.EndOpening? && e.peer == peer && e.identity == c.identity then false
                              else c.initiating || (e.OpenConversation? && e.peer == peer && !c.ready))
          && d.sending == (BeginsSend(s, e, peer) || (c.sending && !EndsSend(s, e, peer, c.identity)))
          && d.session == SessionNext(s, e, peer, c)
          && d.lastActivityAt == ActivityNext(s, e, peer, c)
          && d.unreadCount == UnreadNext(s, e, peer, c)
          && (!ListsChange(e) ==> d.messages == c.messages))
  }

  lemma AcceptedIfNew(window: seq<string>, envelope: string)
    ensures DedupWindow.Marked(window, envelope).1 <==> envelope !in window
  {
  }

  /** The conversation at `p` when the one at `peer` is set and the others stay. */
  ghost predicate Sets(s: Chat, t: Chat, peer: string, c: Conversation, p: string) {
    && (p in t.conversations <==> p in s.conversations || p == peer)
    && (p in t.conversations ==> t.conversations[p] == if p == peer then c else s.conversations[p])
  }

  lemma ActivityIs(s: Chat, peer: string, now: int, code: string, p: string)
    ensures Sets(s, Touched(s, peer, now), peer, Prior(s, peer).(lastActivityAt := now), p)
    ensures Sets(s, Faulted(s, peer, now, code), peer,
                 Prior(s, peer).(lastActivityAt := now, session := Faulty(code)), p)
  {
  }

  lemma EnsuredIs(s: Chat, peer: string, now: int, p: string)
    ensures var t := Ensured(s, peer, now);
            && (peer in s.conversations ==> t == s)
            && Sets(s, t, peer, if peer in s.conversations then s.conversations[peer]
                                else Prior(s, peer).(lastActivityAt := now), p)
            && t == s.(conversations := t.conversations, nextSerial := t.nextSerial) && peer in t.conversations
  {
  }

  lemma BeginFields(s: Chat, e: Event, peer: string)
    requires e.BeginSend?
    ensures FieldsFollow(s, e, Begun(s, e).0, peer)
  {
  }

  lemma FinishFields(s: Chat, e: Event, peer: string)
    requires e.FinishSend?
    ensures FieldsFollow(s, e, Finished(s, e.serial, e.ok, e.error, e.code), peer)
  {
    hide Settled;
  }

  lemma ReceiptFields(s: Chat, e: Event, peer: string)
    requires e.GetReceipt?
    ensures FieldsFollow(s, e, GotReceipt(s, e.peer, e.envelope, e.wireId, e.kind), peer)
  {
    hide Receipted, Receipts, Named, DedupWindow.Marked;
  }

  lemma TextFields(s: Chat, e: Event, peer: string)
    requires e.GetText?
    ensures FieldsFollow(s, e, GotText(s, e), peer)
  {
    hide DedupWindow.Marked, Ensured;
    EnsuredIs(s.(received := DedupWindow.Marked(s.received, e.envelope).0), e.peer, e.now, peer);
    EnsuredIs(s.(received := DedupWindow.Marked(s.received, e.envelope).0), e.peer, e.now, e.peer);
    AcceptedIfNew(s.received, e.envelope);
  }

  lemma TypingFields(s: Chat, e: Event, peer: string)
    requires e.GetTyping?
    ensures FieldsFollow(s, e, GotTyping(s, e.peer, e.envelope, e.now), peer)
  {
    hide DedupWindow.Marked, Touched;
    AcceptedIfNew(s.received, e.envelope);
    ActivityIs(s.(received := DedupWindow.Marked(s.received, e.envelope).0), e.peer, e.now, "", peer);
  }

  lemma AcceptFields(s: Chat, e: Event, peer: string)
    requires e.GetSessionAccept?
    ensures FieldsFollow(s, e, GotSessionAccept(s, e.peer, e.envelope, e.now), peer)
  {
    hide DedupWindow.Marked;
    AcceptedIfNew(s.received, e.envelope);
  }

  lemma InitFields(s: Chat, e: Event, peer: string)
    requires e.GetSessionInit?
    ensures FieldsFollow(s, e, GotSessionInit(s, e.peer, e.envelope, e.now, e.fault), peer)
  {
    hide DedupWindow.Marked, Touched, Faulted;
    AcceptedIfNew(s.received, e.envelope);
    var code := if e.fault.Some? then e.fault.value else "";
    ActivityIs(s.(received := DedupWindow.Marked(s.received, e.envelope).0), e.peer, e.now, code, peer);
  }

  lemma AcceptedFields(s: Chat, e: Event, peer: string)
    requires e.SessionAccepted?
    ensures FieldsFollow(s, e, Accepted(s, e.peer, e.identity), peer)
  {
  }

  lemma FaultFields(s: Chat, e: Event, peer: string)
    requires e.SessionFault?
    ensures FieldsFollow(s, e, Faulted(s, e.peer, e.now, e.code), peer)
  {
    hide Touched, Faulted;
    ActivityIs(s, e.peer, e.now, e.code, peer);
  }

  lemma OpenFields(s: Chat, e: Event, peer: string)
    requires e.OpenConversation?
    ensures FieldsFollow(s, e, Opens(s, e.peer, e.now), peer)
  {
    hide Touched;
    ActivityIs(s, e.peer, e.now, "", peer);
    ActivityIs(s, e.peer, e.now, "", e.peer);
  }

  lemma OpenedFields(s: Chat, e: Event, peer: string)
    requires e.EndOpening?
    ensures FieldsFollow(s, e, EndsOpening(s, e.peer, e.identity, e.opening, e.now), peer)
  {
  }

  lemma ActiveFields(s: Chat, e: Event, peer: string)
    requires e.SetActivePeer?
    ensures FieldsFollow(s, e, Activated(s, e.active), peer)
  {
    hide Acknowledged, ReadReceipts;
  }

  lemma MarkFields(s: Chat, e: Event, peer: string)
    requires e.MarkRead?
    ensures FieldsFollow(s, e, Reads(s, e.peer), peer)
  {
    hide Acknowledged, ReadReceipts;
  }

  lemma HydrateFields(s: Chat, e: Event, peer: string)
    requires e.Hydrate?
    ensures FieldsFollow(s, e, Hydrated(s, e.peer, e.history), peer)
  {
    hide Merged;
  }

  lemma DeleteFields(s: Chat, e: Event, peer: string)
    requires e.DeleteMessage?
    ensures FieldsFollow(s, e, Deleted(s, e.peer, e.id), peer)
  {
    hide Without;
  }

  lemma OtherFields(s: Chat, e: Event, peer: string)
    requires e.Save? || e.CloseConversation? || e.ClearSessions? || e.Reload?
    ensures FieldsFollow(s, e, Apply(s, e), peer)
  {
    hide SerializeConversation;
  }

  /** Every event changes exactly the fields that this table says. */
  lemma FieldsStep(s: Chat, e: Event, peer: string)
    ensures FieldsFollow(s, e, Apply(s, e), peer)
  {
    hide FieldsFollow, Begun, Finished, GotReceipt, GotText, GotTyping, GotSessionAccept, GotSessionInit,
         Accepted, Faulted, Opens, EndsOpening, Activated, Reads, Stores, Hydrated, Deleted, Closed;
    match e
    case BeginSend(_, _, _, _, _, _) => BeginFields(s, e, peer);
    case FinishSend(_, _, _, _) => FinishFields(s, e, peer);
    case GetReceipt(_, _, _, _) => ReceiptFields(s, e, peer);
    case GetText(_, _, _, _, _, _) => TextFields(s, e, peer);
    case GetTyping(_, _, _) => TypingFields(s, e, peer);
    case GetSessionAccept(_, _, _) => AcceptFields(s, e, peer);
    case GetSessionInit(_, _, _, _) => InitFields(s, e, peer);
    case SessionAccepted(_, _) => AcceptedFields(s, e, peer);
    case SessionFault(_, _, _) => FaultFields(s, e, peer);
    case OpenConversation(_, _) => OpenFields(s, e, peer);
    case EndOpening(_, _, _, _) => OpenedFields(s, e, peer);
    case SetActivePeer(_) => ActiveFields(s, e, peer);
    case MarkRead(_) => MarkFields(s, e, peer);
    case Hydrate(_, _) => HydrateFields(s, e, peer);
    case DeleteMessage(_, _) => DeleteFields(s, e, peer);
    case _ => OtherFields(s, e, peer);
  }

  /** The sends in progress after an event. */
  ghost predicate SendsFollow(s: Chat, e: Event, t: Chat) {
    t.inFlight ==
      if e.BeginSend? && BeginsSend(s, e, e.peer)
      then s.inFlight[s.nextSerial := Send(Outbound(e.peer, e.id, e.wireId), s.conversations[e.peer].identity)]
      else if e.FinishSend? then s.inFlight - {e.serial}
      else if e.Reload? then map[] else s.inFlight
  }

  lemma SendsStep(s: Chat, e: Event)
    ensures SendsFollow(s, e, Apply(s, e))
  {
    hide DedupWindow.Marked, Settled;
    if !e.BeginSend? && !e.FinishSend? {
      OthersKeepSends(s, e);
      hide Apply;
    }
  }

  lemma OthersKeepSends(s: Chat, e: Event)
    requires !e.BeginSend? && !e.FinishSend?
    ensures Apply(s, e).inFlight == if e.Reload? then map[] else s.inFlight
  {
    if OfSession(e) { SessionIsQuiet(s, e); } else {
      hide DedupWindow.Marked, Receipted, Without, Restore, Acknowledged, ReadReceipts;
    }
  }

  // ---------- Sessions over runs ----------

  /** Event `i` gives a session to this conversation object, which is in the list. */
  ghost predicate GivenAt(events: seq<Event>, i: nat, peer: string, identity: nat) {
    i < |events| && GivesSession(events[i], peer, identity) && Is(Run(START, events[..i]), peer, identity)
  }

  ghost predicate HadSession(events: seq<Event>, peer: string, identity: nat) {
    exists i: nat :: GivenAt(events, i, peer, identity)
  }

  lemma GivenIsOld(events: seq<Event>, peer: string, identity: nat)
    requires HadSession(events, peer, identity)
    ensures identity < Run(START, events).nextSerial
  {
    hide Run, Sound, Follows, GivesSession;
    var i: nat :| GivenAt(events, i, peer, identity);
    StartIsSound();
    RunKeeps(START, events[..i]);
    var s := Run(START, events[..i]);
    SoundParts(s, peer);
    IdentityIsOld(s, peer, s.conversations[peer]);
    RunSplits(START, events[..i], events[i..]);
    assert events[..i] + events[i..] == events;
    RunKeeps(s, events[i..]);
    SerialsGrow(s, Run(START, events));
  }

  lemma IdentityIsOld(s: Chat, peer: string, c: Conversation)
    requires ConversationOk(s, peer, c)
    ensures c.identity < s.nextSerial
  {
    hide OneEach, MessageOk;
  }

  lemma SerialsGrow(s: Chat, t: Chat)
    requires Follows(s, t)
    ensures s.nextSerial <= t.nextSerial
  {
    hide ListFollows;
  }

  lemma HadSessionGrows(front: seq<Event>, last: Event, peer: string, identity: nat)
    ensures HadSession(front + [last], peer, identity)
       <==> HadSession(front, peer, identity)
            || (GivesSession(last, peer, identity) && Is(Run(START, front), peer, identity))
  {
    hide Run, GivesSession, Is;
    var events := front + [last];
    assert events[..|front|] == front;
    if HadSession(front, peer, identity) {
      var i: nat :| GivenAt(front, i, peer, identity);
      assert events[..i] == front[..i];
      assert GivenAt(events, i, peer, identity);
    }
    if GivesSession(last, peer, identity) && Is(Run(START, front), peer, identity) {
      assert GivenAt(events, |front|, peer, identity);
    }
    if HadSession(events, peer, identity) {
      var i: nat :| GivenAt(events, i, peer, identity);
      if i < |front| {
        assert events[..i] == front[..i];
        assert GivenAt(front, i, peer, identity);
      }
    }
  }

  /** A conversation has a session if and only if one of its handshakes has given it one. */
  lemma {:induction false} ReadyExactly(events: seq<Event>, peer: string)
    requires peer in Run(START, events).conversations
    ensures var c := Run(START, events).conversations[peer]; c.ready <==> HadSession(events, peer, c.identity)
    decreases |events|
  {
    hide Run, Apply, HadSession, GivesSession, SessionNext, ActivityNext, UnreadNext, Remains, BeginsSend, EndsSend;
    if events == [] {
      NothingAtStart();
    } else {
      var front, last := events[..|events| - 1], events[|events| - 1];
      assert events == front + [last];
      RunSplits(START, front, [last]);
      RunOne(Run(START, front), last);
      var s := Run(START, front);
      FieldsStep(s, last, peer);
      var c := Prior(s, peer);
      HadSessionGrows(front, last, peer, c.identity);
      if peer in s.conversations {
        ReadyExactly(front, peer);
      } else {
        if HadSession(front, peer, c.identity) { GivenIsOld(front, peer, c.identity); }
        NewIsNotGiven(s, last, peer);
      }
    }
  }

  lemma NothingAtStart()
    ensures Run(START, []) == START
  {
  }

  lemma NewIsNotGiven(s: Chat, e: Event, peer: string)
    requires peer !in s.conversations && Remains(s, e, peer)
    ensures !GivesSession(e, peer, Prior(s, peer).identity)
  {
  }

  /** What the session state may show: established or a fault once there is a session, a handshake while one is
      under way, nothing or a fault before. */
  predicate StateFits(c: Conversation) {
    match c.session
    case NoSession => !c.ready && !c.initiating
    case Initiating => !c.ready && c.initiating
    case Established(_) => c.ready
    case Faulty(_) => true
  }

  lemma {:induction false} SessionStateFits(events: seq<Event>, peer: string)
    requires peer in Run(START, events).conversations
    ensures StateFits(Run(START, events).conversations[peer])
    decreases |events|
  {
    hide Run, Apply, ActivityNext, UnreadNext, BeginsSend, EndsSend;
    if events == [] {
      NothingAtStart();
    } else {
      var front, last := events[..|events| - 1], events[|events| - 1];
      assert events == front + [last];
      RunSplits(START, front, [last]);
      RunOne(Run(START, front), last);
      var s := Run(START, front);
      FieldsStep(s, last, peer);
      if peer in s.conversations { SessionStateFits(front, peer); }
    }
  }

  // ---------- One send at a time ----------

  /** A send in progress of this conversation object. */
  ghost predicate IsSending(s: Chat, peer: string, identity: nat) {
    exists n :: n in s.inFlight && SendOf(s.inFlight[n], peer, identity)
  }

  predicate SendOf(x: Send, peer: string, identity: nat) { x.message.peer == peer && x.identity == identity }

  ghost predicate OneSendEach(s: Chat) {
    && (forall n <- s.inFlight :: s.inFlight[n].identity < s.nextSerial && n < s.nextSerial)
    && (forall m <- s.inFlight, n <- s.inFlight ::
          SendOf(s.inFlight[m], s.inFlight[n].message.peer, s.inFlight[n].identity) ==> m == n)
    && (forall p <- s.conversations :: s.conversations[p].sending == IsSending(s, p, s.conversations[p].identity))
    && (forall p <- s.conversations :: s.conversations[p].identity < s.nextSerial)
  }

  lemma SendingMatches(s: Chat, e: Event, t: Chat, peer: string)
    requires OneSendEach(s) && SendsFollow(s, e, t) && FieldsFollow(s, e, t, peer) && peer in t.conversations
    ensures t.conversations[peer].sending == IsSending(t, peer, t.conversations[peer].identity)
  {
    hide SessionNext, ActivityNext, UnreadNext, GivesSession;
    var identity := Prior(s, peer).identity;
    var was := IsSending(s, peer, identity);
    assert was == Prior(s, peer).sending;
    if e.BeginSend? && BeginsSend(s, e, e.peer) {
      BeginsNew(s, e, t, peer, identity);
    } else if e.FinishSend? && e.serial in s.inFlight {
      if SendOf(s.inFlight[e.serial], peer, identity) { assert !IsSending(t, peer, identity); }
      else { StillSends(s, e, t, peer, identity); }
    } else if e.FinishSend? {
      assert t.inFlight == s.inFlight;
    }
  }

  lemma BeginsNew(s: Chat, e: Event, t: Chat, peer: string, identity: nat)
    requires OneSendEach(s) && SendsFollow(s, e, t) && e.BeginSend? && BeginsSend(s, e, e.peer)
    ensures IsSending(t, peer, identity) <==>
              IsSending(s, peer, identity) || (peer == e.peer && identity == s.conversations[peer].identity)
  {
    var n := s.nextSerial;
    assert t.inFlight[n] == Send(Outbound(e.peer, e.id, e.wireId), s.conversations[e.peer].identity);
    if IsSending(s, peer, identity) {
      var m :| m in s.inFlight && SendOf(s.inFlight[m], peer, identity);
      assert m in t.inFlight && SendOf(t.inFlight[m], peer, identity);
    }
    if peer == e.peer && identity == s.conversations[peer].identity { assert SendOf(t.inFlight[n], peer, identity); }
  }

  lemma StillSends(s: Chat, e: Event, t: Chat, peer: string, identity: nat)
    requires SendsFollow(s, e, t) && e.FinishSend? && e.serial in s.inFlight
    requires !SendOf(s.inFlight[e.serial], peer, identity)
    ensures IsSending(t, peer, identity) == IsSending(s, peer, identity)
  {
    if IsSending(s, peer, identity) {
      var m :| m in s.inFlight && SendOf(s.inFlight[m], peer, identity);
      assert m in t.inFlight && SendOf(t.inFlight[m], peer, identity);
    }
  }

  lemma SendsStayApart(s: Chat, e: Event, t: Chat)
    requires OneSendEach(s) && SendsFollow(s, e, t) && s.nextSerial <= t.nextSerial
    requires forall n <- t.inFlight :: n < t.nextSerial
    ensures forall n <- t.inFlight :: t.inFlight[n].identity < t.nextSerial
    ensures forall m <- t.inFlight, n <- t.inFlight ::
              SendOf(t.inFlight[m], t.inFlight[n].message.peer, t.inFlight[n].identity) ==> m == n
  {
    if e.BeginSend? && BeginsSend(s, e, e.peer) {
      assert !IsSending(s, e.peer, s.conversations[e.peer].identity);
      forall m <- s.inFlight ensures !SendOf(s.inFlight[m], e.peer, s.conversations[e.peer].identity) {}
    }
  }

  lemma OneSendStep(s: Chat, e: Event)
    requires Sound(s) && OneSendEach(s)
    ensures OneSendEach(Apply(s, e))
  {
    hide Sound, Follows, Apply, FieldsFollow, IsSending, SendOf, Remains, BeginsSend;
    var t := Apply(s, e);
    EventKeeps(s, e);
    SerialsGrow(s, t);
    SoundParts(t, "");
    SendsStep(s, e);
    SendsStayApart(s, e, t);
    forall p <- t.conversations
      ensures t.conversations[p].sending == IsSending(t, p, t.conversations[p].identity)
      ensures t.conversations[p].identity < t.nextSerial
    {
      FieldsStep(s, e, p);
      SendingMatches(s, e, t, p);
      SoundParts(t, p);
      IdentityIsOld(t, p, t.conversations[p]);
    }
  }

  lemma {:induction false} OneSendRuns(events: seq<Event>)
    ensures Sound(Run(START, events)) && OneSendEach(Run(START, events))
    decreases |events|
  {
    hide Run, Apply, Sound, OneSendEach, Follows;
    StartIsSound();
    RunKeeps(START, events);
    if events == [] {
      NothingSends();
    } else {
      var front, last := events[..|events| - 1], events[|events| - 1];
      assert events == front + [last];
      RunSplits(START, front, [last]);
      RunOne(Run(START, front), last);
      OneSendRuns(front);
      OneSendStep(Run(START, front), last);
    }
  }

  lemma NothingSends()
    ensures OneSendEach(Run(START, []))
  {
  }

  /** What a call of `sendText` comes to, after any run: it begins if and only if the conversation is there, one of
      its handshakes has given it a session, the text is not blank, and no send of it is in progress. Without a
      session it fails as such, and otherwise as a failed send. */
  lemma SendBeginsExactly(past: seq<Event>, e: Event)
    requires e.BeginSend?
    ensures var s := Run(START, past);
            var r := Begun(s, e).1;
            if e.peer !in s.conversations || !HadSession(past, e.peer, s.conversations[e.peer].identity)
            then r == Err(SessionInitFailed)
            else if IsSending(s, e.peer, s.conversations[e.peer].identity)
                    || forall i | 0 <= i < |e.plaintext| :: Bytes.IsWhitespace(e.plaintext[i])
            then r == Err(SendFailed)
            else r == Ok(s.nextSerial)
  {
    hide Run, HadSession, Sound;
    OneSendRuns(past);
    if e.peer in Run(START, past).conversations { ReadyExactly(past, e.peer); }
  }
}
