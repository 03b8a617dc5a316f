/** What a receipt does (`src/realtime/ChatController.ts`, lines 986-1007): one receipt raises one status, and a
    message whose send was taken before its receipt came shows it from then on. */
module ReceiptEffects {
  import opened Terms
  import opened ChatHistory
  import opened ChatRuns
  import opened ReceiptSafety
  import DedupWindow

  // ---------- One receipt ----------

  /** The outbound message at `i` is the first one with the wire id; at the end of the list there is none. */
  predicate IsFirstNamed(ms: seq<Message>, i: nat, wireId: string) {
    && i <= |ms|
    && (forall j | 0 <= j < i :: !ms[j].outgoing || ms[j].wireId != Some(wireId))
    && (i < |ms| ==> ms[i].outgoing && ms[i].wireId == Some(wireId))
  }

  lemma {:induction false} ReceiptedPlaces(ms: seq<Message>, i: nat, wireId: string, kind: Kind)
    requires IsFirstNamed(ms, i, wireId)
    ensures var after := Receipted(ms, wireId, kind);
            && |after| == |ms|
            && (forall j | 0 <= j < |ms| && j != i :: after[j] == ms[j])
            && (i < |ms| ==> after[i] == Raised(ms[i], kind))
    decreases |ms|
  {
    if i > 0 {
      ReceiptedPlaces(ms[1..], i - 1, wireId, kind);
      var after := Receipted(ms, wireId, kind);
      assert after == [ms[0]] + Receipted(ms[1..], wireId, kind);
      forall j | 0 < j < |ms| && j != i ensures after[j] == ms[j] { assert ms[j] == ms[1..][j - 1]; }
    }
  }

  /** One receipt: a refused envelope changes nothing. A new one raises the first outbound message with its wire
      id, from sent to delivered or from sent or delivered to read, and leaves every other status, every other
      message and every other conversation as it was. */
  lemma ReceiptStep(s: Chat, sender: string, envelope: string, wireId: string, kind: Kind, i: nat)
    requires IsFirstNamed(MessagesOf(s, sender), i, wireId)
    ensures var t := GotReceipt(s, sender, envelope, wireId, kind);
            var before, after := MessagesOf(s, sender), MessagesOf(t, sender);
            && (envelope in s.received ==> t == s) && envelope in t.received
            && t == s.(received := t.received, receipts := t.receipts, conversations := t.conversations)
            && t.conversations.Keys == s.conversations.Keys
            && (forall p <- s.conversations | p != sender :: t.conversations[p] == s.conversations[p])
            && (sender in s.conversations ==>
                  t.conversations[sender] == s.conversations[sender].(messages := after))
            && |after| == |before|
            && (forall j | 0 <= j < |before| && j != i :: after[j] == before[j])
            && (i < |before| && envelope !in s.received ==>
                  && after[i] == before[i].(status := after[i].status)
                  && after[i].status ==
                       if before[i].status == Some(Sent) && kind == DeliveryReceipt then Some(Delivered)
                       else if before[i].status in {Some(Sent), Some(Delivered)} && kind == ReadReceipt then Some(Read)
                       else before[i].status)
  {
    hide Receipted, DedupWindow.Marked, Receipts, Named;
    ReceiptedPlaces(MessagesOf(s, sender), i, wireId, kind);
    AcceptedIfNew(s.received, envelope);
    DedupWindow.MarkedIsSeen(s.received, envelope);
  }

  lemma AcceptedIfNew(window: seq<string>, envelope: string)
    ensures DedupWindow.Marked(window, envelope).1 <==> envelope !in window
  {
  }

  // ---------- What a run shows ----------

  /** At least the status of the kind. */
  predicate ShowsReceipt(status: Option<Status>, kind: Kind) {
    if kind.DeliveryReceipt? then status in {Some(Delivered), Some(Read)} else status == Some(Read)
  }

  lemma FinishSettles(s: Chat, e: Event, peer: string, m: Message)
    requires Sound(s) && e.FinishSend? && e.ok && e.serial in s.inFlight
    requires m in MessagesOf(Apply(s, e), peer) && m.serial == e.serial
    ensures m.outgoing && m.status == Some(Sent)
  {
    hide Sound, Settled, ConversationOk, Follows, ListFollows;
    FinishKeeps(s, e.serial, e.ok, e.error, e.code);
    SoundParts(s, peer);
    var m0 := OldObject(s, Apply(s, e), peer, m);
    var c := s.conversations[peer];
    InFlightIsHeld(s, peer, c, m0);
    SettledIs(c.messages, e.serial, e.ok, e.error);
    var x0 :| x0 in c.messages && m == x0.(status := Some(Sent), errorMessage := m.errorMessage);
    InFlightIsHeld(s, peer, c, x0);
  }

  /** An object of the later list that is not new was in the earlier one. */
  lemma OldObject(s: Chat, t: Chat, peer: string, m: Message) returns (m0: Message)
    requires Follows(s, t) && m in MessagesOf(t, peer) && m.serial < s.nextSerial
    ensures m0 in MessagesOf(s, peer) && Became(m0, m) && m0.serial == m.serial
  {
    hide Became;
    assert ListFollows(MessagesOf(s, peer), MessagesOf(t, peer), s.nextSerial);
    m0 :| m0 in MessagesOf(s, peer) && Became(m0, m);
    BecameKeepsSerial(m0, m);
  }

  /** The message of a send in progress, in the conversation that it was sent in. */
  lemma InFlightIsHeld(s: Chat, peer: string, c: Conversation, m: Message)
    requires ConversationOk(s, peer, c) && m in c.messages && m.serial in s.inFlight
    ensures m.outgoing && s.inFlight[m.serial].message.peer == peer && s.inFlight[m.serial].identity == c.identity
    ensures OneEach(c.messages)
  {
    hide OneEach;
    assert MessageOk(s, peer, c.identity, m);
  }

  lemma OnlyPlace(ms: seq<Message>, i: nat, j: nat)
    requires OneEach(ms) && i < |ms| && j < |ms| && ms[i].serial == ms[j].serial
    ensures i == j
  {
    assert ms[i] in ms && ms[j] in ms;
    if i < j { TwiceCounts(ms, i, j); }
    if j < i { TwiceCounts(ms, j, i); }
  }

  lemma TwiceCounts(ms: seq<Message>, i: nat, j: nat)
    requires i < j < |ms| && ms[i] == ms[j]
    ensures multiset(ms)[ms[i]] >= 2
  {
    assert ms == ms[..j] + ms[j..];
    assert ms[i] in ms[..j] && ms[j] in ms[j..];
    assert multiset(ms) == multiset(ms[..j]) + multiset(ms[j..]);
  }

  lemma ReceiptRaisesOne(s: Chat, e: Event, i: nat, m: Message)
    requires Sound(s) && e.GetReceipt? && e.envelope !in s.received
    requires var ms := MessagesOf(s, e.peer);
             && IsFirstNamed(ms, i, e.wireId) && i < |ms|
             && ms[i].status in {Some(Sent), Some(Delivered), Some(Read)}
             && m in MessagesOf(Apply(s, e), e.peer) && m.serial == ms[i].serial
    ensures m.outgoing && ShowsReceipt(m.status, e.kind)
  {
    hide Sound, ConversationOk, OneEach, GotReceipt, IsFirstNamed;
    ReceiptStep(s, e.peer, e.envelope, e.wireId, e.kind, i);
    SoundParts(s, e.peer);
    var before, after := MessagesOf(s, e.peer), MessagesOf(Apply(s, e), e.peer);
    var j :| 0 <= j < |after| && after[j] == m;
    ListIsOneEach(s, e.peer);
    FirstIsOutgoing(before, i, e.wireId);
    OnlyPlace(before, i, j);
  }

  lemma ListIsOneEach(s: Chat, peer: string)
    requires Sound(s) && peer in s.conversations
    ensures OneEach(MessagesOf(s, peer))
  {
    hide OneEach;
    assert ConversationOk(s, peer, s.conversations[peer]);
  }

  lemma FirstIsOutgoing(ms: seq<Message>, i: nat, wireId: string)
    requires IsFirstNamed(ms, i, wireId) && i < |ms|
    ensures ms[i].outgoing
  {
  }

  lemma RunTo(events: seq<Event>, j: nat)
    requires j < |events|
    ensures Sound(Run(START, events[..j])) && Run(START, events[..j + 1]) == Apply(Run(START, events[..j]), events[j])
    ensures Follows(Run(START, events[..j + 1]), Run(START, events)) && Sound(Run(START, events))
  {
    hide Run, Sound, Follows, Apply;
    StartIsSound();
    RunKeeps(START, events[..j]);
    RunKeeps(START, events[..j + 1]);
    RunSplits(START, events[..j], [events[j]]);
    assert events[..j] + [events[j]] == events[..j + 1];
    RunOne(Run(START, events[..j]), events[j]);
    RunSplits(START, events[..j + 1], events[j + 1..]);
    assert events[..j + 1] + events[j + 1..] == events;
    RunKeeps(Run(START, events[..j + 1]), events[j + 1..]);
  }

  /** What was sent shows as sent from then on. */
  lemma TakenSendShows(events: seq<Event>, j: nat, peer: string, m: Message)
    requires EndsAt(events, j, m.serial) && m in MessagesOf(Run(START, events), peer)
    ensures m.outgoing && Confirmed(m.status)
  {
    hide Run, Sound, Follows, Apply;
    EndsIndex(events, j, m.serial);
    RunTo(events, j);
    var s := Run(START, events[..j]);
    var t := Run(START, events[..j + 1]);
    RunSerials(s, events[j], m.serial);
    var m1 := OldObject(t, Run(START, events), peer, m);
    FinishSettles(s, events[j], peer, m1);
  }

  lemma RunSerials(s: Chat, e: Event, n: nat)
    requires Sound(s) && n in s.inFlight
    ensures n < s.nextSerial <= Apply(s, e).nextSerial
  {
    hide ConversationOk, StoredOk, ListFollows, Apply;
    EventKeeps(s, e);
  }

  /** The converse of `StatusIsBacked`: a listed message whose send was taken at `j` shows at least the status
      of every receipt that came for it after that, in a new envelope, at `k`, provided that the message was
      listed then and was the first one with that wire id. */
  lemma ReceiptShows(events: seq<Event>, j: nat, k: nat, x: Outbound, kind: Kind, i: nat, m: Message)
    requires j < k && EndsAt(events, j, m.serial) && ReceiptAt(events, k, x, kind)
    requires events[k].envelope !in Run(START, events[..k]).received
    requires var ms := MessagesOf(Run(START, events[..k]), x.peer);
             i < |ms| && ms[i].serial == m.serial && IsFirstNamed(ms, i, x.wireId)
    requires m in MessagesOf(Run(START, events), x.peer)
    ensures ShowsReceipt(m.status, kind)
  {
    hide Run, Sound, Follows, Apply, IsFirstNamed, EndsAt;
    RunTo(events, k);
    var s := Run(START, events[..k]);
    var t := Run(START, events[..k + 1]);
    var m0 := MessagesOf(s, x.peer)[i];
    EndsEarlier(events, j, k, m.serial);
    TakenSendShows(events[..k], j, x.peer, m0);
    SerialInRange(s, events[k], x.peer, m0);
    var m1 := OldObject(t, Run(START, events), x.peer, m);
    ReceiptRaisesOne(s, events[k], i, m1);
    ShowsLater(m1, m, kind);
  }

  lemma EndsEarlier(events: seq<Event>, j: nat, k: nat, n: nat)
    requires EndsAt(events, j, n) && j < k < |events|
    ensures EndsAt(events[..k], j, n)
  {
    hide Run;
    assert events[..k][..j] == events[..j];
  }

  lemma SerialInRange(s: Chat, e: Event, peer: string, m: Message)
    requires Sound(s) && m in MessagesOf(s, peer)
    ensures m.serial < Apply(s, e).nextSerial
  {
    hide StoredOk, ListFollows, Apply;
    assert ConversationOk(s, peer, s.conversations[peer]);
    SerialsAreOld(s, peer, s.conversations[peer]);
    EventKeeps(s, e);
  }

  lemma ShowsLater(a: Message, b: Message, kind: Kind)
    requires Became(a, b) && a.outgoing && ShowsReceipt(a.status, kind)
    ensures ShowsReceipt(b.status, kind)
  {
  }
}
