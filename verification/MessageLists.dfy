/** What each event does to the list of a conversation and to the receipts emitted, message by message; and that no
    message is lost. */
module MessageLists {
  import opened Terms
  import opened ChatHistory
  import opened ChatRuns
  import opened ReceiptSafety
  import opened ReceiptEffects
  import opened ConversationFields
  import DedupWindow

  // ---------- What each event does to a list ----------

  /** The message that a decrypted text becomes. */
  predicate Brought(s: Chat, e: Event, m: Message)
    requires e.GetText?
  {
    && e.payload == Plain(m.plaintext) && m.sender == e.peer && m.recipient == e.recipient
    && m.id == e.envelope && m.wireId == Some(e.envelope) && m.createdAt == e.timestamp
    && m.serial == s.nextSerial && !m.outgoing && m.status == None && m.errorMessage == None
    && (m.readAckSent <==> s.activePeer == Some(e.peer))
  }

  /** The message that a send lists. */
  predicate Listed(s: Chat, e: Event, m: Message)
    requires e.BeginSend?
  {
    && m.plaintext == e.plaintext && m.sender == e.self && m.recipient == e.peer
    && m.id == e.id && m.wireId == Some(e.wireId) && m.createdAt == e.now
    && m.serial == s.nextSerial && m.outgoing && m.status == Some(Sending) && m.errorMessage == None && !m.readAckSent
  }

  /** The message of a send that has ended. */
  predicate Ended(e: Event, before: Message, after: Message)
    requires e.FinishSend?
  {
    && after == before.(status := after.status, errorMessage := after.errorMessage)
    && (if e.ok then after.status == Some(Sent) && after.errorMessage == before.errorMessage
        else after.status == Some(Failed) && after.errorMessage == Some(e.error))
  }

  /** A text adds its message at the end and emits its receipts if it is new and can be decrypted, and nothing
      otherwise. */
  lemma TextStep(s: Chat, e: Event, peer: string)
    requires e.GetText?
    ensures var t := Apply(s, e);
            var before, after := MessagesOf(s, peer), MessagesOf(t, peer);
            && (if ReadsText(s, e, peer)
                then |after| == |before| + 1 && after[..|before|] == before && Brought(s, e, after[|before|])
                else after == before)
            && t.signals == s.signals
                 + (if !ReadsText(s, e, e.peer) then []
                    else if s.activePeer != Some(e.peer) then [Signal(e.peer, DeliveryReceipt, e.envelope)]
                    else [Signal(e.peer, DeliveryReceipt, e.envelope), Signal(e.peer, ReadReceipt, e.envelope)])
  {
    hide DedupWindow.Marked, Ensured;
    ConversationFields.AcceptedIfNew(s.received, e.envelope);
    var r := s.(received := DedupWindow.Marked(s.received, e.envelope).0);
    EnsuredIs(r, e.peer, e.now, e.peer);
    EnsuredIs(r, e.peer, e.now, peer);
  }

  /** A send adds its message at the end when it begins. */
  lemma BeginStep(s: Chat, e: Event, peer: string)
    requires e.BeginSend?
    ensures var before, after := MessagesOf(s, peer), MessagesOf(Apply(s, e), peer);
            if BeginsSend(s, e, peer)
            then |after| == |before| + 1 && after[..|before|] == before && Listed(s, e, after[|before|])
            else after == before
  {
    hide Ensured;
    EnsuredIs(s, e.peer, e.now, e.peer);
    EnsuredIs(s, e.peer, e.now, peer);
  }

  lemma {:induction false} SettledPlaces(ms: seq<Message>, serial: nat, ok: bool, error: string, i: nat)
    requires i <= |ms| && (forall j | 0 <= j < i :: ms[j].serial != serial) && (i < |ms| ==> ms[i].serial == serial)
    ensures var after := Settled(ms, serial, ok, error);
            && |after| == |ms| && (forall j | 0 <= j < |ms| && j != i :: after[j] == ms[j])
            && (i < |ms| ==> after[i] == ms[i].(status := Some(if ok then Sent else Failed),
                                                errorMessage := if ok then ms[i].errorMessage else Some(error)))
    decreases i
  {
    if i > 0 {
      SettledPlaces(ms[1..], serial, ok, error, i - 1);
      var after := Settled(ms, serial, ok, error);
      assert after == [ms[0]] + Settled(ms[1..], serial, ok, error);
      forall j | 0 < j < |ms| && j != i ensures after[j] == ms[j] { assert ms[j] == ms[1..][j - 1]; }
    }
  }

  lemma FirstWithSerial(ms: seq<Message>, serial: nat) returns (i: nat)
    ensures i <= |ms| && (forall j | 0 <= j < i :: ms[j].serial != serial) && (i < |ms| ==> ms[i].serial == serial)
  {
    i := 0;
    while i < |ms| && ms[i].serial != serial
      invariant i <= |ms| && forall j | 0 <= j < i :: ms[j].serial != serial
    {
      i := i + 1;
    }
  }

  /** The end of a send gives its message the outcome, if the conversation object still is in the list, and
      touches no other. */
  lemma FinishStep(s: Chat, e: Event, peer: string)
    requires Sound(s) && e.FinishSend?
    ensures var before, after := MessagesOf(s, peer), MessagesOf(Apply(s, e), peer);
            if peer in s.conversations && EndsSend(s, e, peer, s.conversations[peer].identity)
            then |after| == |before|
                 && forall j | 0 <= j < |before| ::
                      if before[j].serial == e.serial then Ended(e, before[j], after[j]) else after[j] == before[j]
            else after == before
  {
    hide Settled, Sound, OneEach;
    var before := MessagesOf(s, peer);
    if peer in s.conversations {
      var i := FirstWithSerial(before, e.serial);
      SettledPlaces(before, e.serial, e.ok, e.error, i);
      ListIsOneEach(s, peer);
      forall j | 0 <= j < |before| && before[j].serial == e.serial ensures i == j { OnlyPlace(before, i, j); }
    }
  }

  lemma {:induction false} AcknowledgedPlaces(ms: seq<Message>)
    ensures |Acknowledged(ms)| == |ms|
    ensures forall j | 0 <= j < |ms| ::
              Acknowledged(ms)[j] == if ms[j].outgoing then ms[j] else ms[j].(readAckSent := true)
  {
    if ms != [] {
      AcknowledgedPlaces(ms[1..]);
      assert forall j | 0 < j < |ms| :: ms[j] == ms[1..][j - 1];
    }
  }

  /** Looking at a conversation acknowledges its inbound messages, and changes nothing else in its list. */
  lemma LookStep(s: Chat, e: Event, peer: string)
    requires e.SetActivePeer? || e.MarkRead?
    ensures var before, after := MessagesOf(s, peer), MessagesOf(Apply(s, e), peer);
            if Looks(s, e, peer)
            then |after| == |before|
                 && forall j | 0 <= j < |before| ::
                      after[j] == if before[j].outgoing then before[j] else before[j].(readAckSent := true)
            else after == before
  {
    hide Acknowledged, ReadReceipts;
    AcknowledgedPlaces(MessagesOf(s, peer));
  }

  // ---------- The receipts that are emitted ----------

  /** The places, before `n`, of the messages that a read receipt is still due for. */
  function Due(ms: seq<Message>, n: nat): set<nat>
    requires n <= |ms|
  {
    set j: nat | j < n && !ms[j].outgoing && !ms[j].readAckSent
  }

  lemma {:induction false} ReadReceiptsSnoc(peer: string, ms: seq<Message>, m: Message)
    ensures ReadReceipts(peer, ms + [m])
         == ReadReceipts(peer, ms) + if !m.outgoing && !m.readAckSent then [Signal(peer, ReadReceipt, m.id)] else []
  {
    if ms == [] {
      assert [m][1..] == [] && [] + [m] == [m];
      assert ReadReceipts(peer, [m]) == (if Unacknowledged(m) then [Signal(peer, ReadReceipt, m.id)] else [])
                                        + ReadReceipts(peer, []);
    } else {
      ReadReceiptsSnoc(peer, ms[1..], m);
      assert (ms + [m])[1..] == ms[1..] + [m];
    }
  }

  lemma DueSnoc(front: seq<Message>, last: Message, n: nat)
    requires n <= |front|
    ensures Due(front + [last], n) == Due(front, n)
    ensures Due(front + [last], |front| + 1)
         == Due(front, |front|) + if !last.outgoing && !last.readAckSent then {|front|} else {}
    ensures |Due(front + [last], |front| + 1)|
         == |Due(front, |front|)| + if !last.outgoing && !last.readAckSent then 1 else 0
  {
    assert forall j | 0 <= j < |front| :: (front + [last])[j] == front[j];
    assert |front| !in Due(front, |front|);
  }

  ghost predicate OnePerDue(peer: string, ms: seq<Message>, emitted: seq<Signal>) {
    && |emitted| == |Due(ms, |ms|)|
    && forall j | j in Due(ms, |ms|) :: EmittedFor(peer, ms, emitted, j)
  }

  predicate EmittedFor(peer: string, ms: seq<Message>, emitted: seq<Signal>, j: nat)
    requires j < |ms|
  {
    var k := |Due(ms, j)|;
    k < |emitted| && emitted[k] == Signal(peer, ReadReceipt, ms[j].id)
  }

  lemma OneMoreDue(peer: string, front: seq<Message>, last: Message, emitted: seq<Signal>)
    requires OnePerDue(peer, front, emitted)
    ensures OnePerDue(peer, front + [last], emitted + if !last.outgoing && !last.readAckSent
                                                      then [Signal(peer, ReadReceipt, last.id)] else [])
  {
    var ms := front + [last];
    var more := emitted + if !last.outgoing && !last.readAckSent then [Signal(peer, ReadReceipt, last.id)] else [];
    DueSnoc(front, last, |front|);
    forall j | j in Due(ms, |ms|) ensures EmittedFor(peer, ms, more, j) {
      DueSnoc(front, last, j);
      if j < |front| {
        assert j in Due(front, |front|) && EmittedFor(peer, front, emitted, j);
        hide Due;
      }
    }
  }

  /** One read receipt for each message that is due, in their order, and no other. */
  lemma {:induction false} ReadReceiptsExactly(peer: string, ms: seq<Message>)
    ensures OnePerDue(peer, ms, ReadReceipts(peer, ms))
    decreases |ms|
  {
    hide OnePerDue, ReadReceipts;
    if ms == [] {
      NoneDue(peer);
    } else {
      var front, last := ms[..|ms| - 1], ms[|ms| - 1];
      assert ms == front + [last];
      ReadReceiptsExactly(peer, front);
      ReadReceiptsSnoc(peer, front, last);
      OneMoreDue(peer, front, last, ReadReceipts(peer, front));
    }
  }

  lemma NoneDue(peer: string)
    ensures OnePerDue(peer, [], ReadReceipts(peer, []))
  {
    assert Due([], 0) == {};
  }

  /** Receipts are emitted by these events and no others. */
  lemma SignalsStep(s: Chat, e: Event)
    requires !e.GetText?
    ensures var t := Apply(s, e);
            t.signals == s.signals + if e.MarkRead? then ReadReceipts(e.peer, MessagesOf(s, e.peer))
                                     else if e.SetActivePeer? && e.active.Some? && s.activePeer != e.active
                                     then ReadReceipts(e.active.value, MessagesOf(s, e.active.value))
                                     else []
  {
    hide ReadReceipts, Acknowledged;
    NoReceipts("");
    if !e.SetActivePeer? && !e.MarkRead? { OthersAreQuiet(s, e); hide Apply; } else {
      hide DedupWindow.Marked, Settled, Receipted, Without, Restore;
      if e.MarkRead? { NoReceipts(e.peer); } else if e.active.Some? { NoReceipts(e.active.value); }
    }
  }

  lemma NoReceipts(peer: string)
    ensures ReadReceipts(peer, []) == []
  {
  }

  // ---------- No message is lost ----------

  /** The same message, moved forward if at all, is in the list. */
  ghost predicate Kept(m: Message, after: seq<Message>) { exists x :: x in after && Became(m, x) }

  /** The event takes the message out of the list. */
  predicate Removes(e: Event, peer: string, id: string) {
    e == CloseConversation(peer) || e == DeleteMessage(peer, id) || e.ClearSessions? || e.Reload?
  }

  lemma KeptAt(m: Message, before: seq<Message>, after: seq<Message>, j: nat)
    requires j < |before| && j < |after| && before[j] == m && Became(before[j], after[j])
    ensures Kept(m, after)
  {
    hide Became;
  }

  lemma KeptInPrefix(m: Message, before: seq<Message>, after: seq<Message>)
    requires m in before && |before| <= |after| && after[..|before|] == before
    ensures Kept(m, after)
  {
    var j :| 0 <= j < |before| && before[j] == m;
    assert after[j] == m;
    KeptAt(m, before, after, j);
  }

  lemma {:induction false} WithoutKeeps(ms: seq<Message>, id: string, m: Message)
    requires m in ms && m.id != id
    ensures m in Without(ms, id)
  {
    if ms[0].id != id && ms[0] != m { WithoutKeeps(ms[1..], id, m); }
  }

  lemma FinishKept(s: Chat, e: Event, peer: string, m: Message)
    requires Sound(s) && e.FinishSend? && m in MessagesOf(s, peer)
    ensures Kept(m, MessagesOf(Apply(s, e), peer))
  {
    hide Sound, Apply, OneEach;
    var before, after := MessagesOf(s, peer), MessagesOf(Apply(s, e), peer);
    FinishStep(s, e, peer);
    SoundParts(s, peer);
    var c := s.conversations[peer];
    var j :| 0 <= j < |before| && before[j] == m;
    if EndsSend(s, e, peer, c.identity) && m.serial == e.serial {
      InFlightIsHeld(s, peer, c, m);
      InFlightIsSending(s, peer, c, m);
    }
    hide EndsSend;
    KeptAt(m, before, after, j);
  }

  lemma ReceiptKept(s: Chat, e: Event, peer: string, m: Message)
    requires e.GetReceipt? && m in MessagesOf(s, peer)
    ensures Kept(m, MessagesOf(Apply(s, e), peer))
  {
    hide GotReceipt;
    var before, after := MessagesOf(s, peer), MessagesOf(Apply(s, e), peer);
    var i := FirstNamedIn(MessagesOf(s, e.peer), e.wireId);
    ReceiptStep(s, e.peer, e.envelope, e.wireId, e.kind, i);
    var j :| 0 <= j < |before| && before[j] == m;
    if e.peer == peer && i < |before| { FirstIsOutgoing(before, i, e.wireId); }
    hide IsFirstNamed;
    KeptAt(m, before, after, j);
  }

  lemma FirstNamedIn(ms: seq<Message>, wireId: string) returns (i: nat)
    ensures IsFirstNamed(ms, i, wireId)
  {
    i := 0;
    while i < |ms| && !(ms[i].outgoing && ms[i].wireId == Some(wireId))
      invariant i <= |ms| && forall j | 0 <= j < i :: !ms[j].outgoing || ms[j].wireId != Some(wireId)
    {
      i := i + 1;
    }
  }

  lemma LookKept(s: Chat, e: Event, peer: string, m: Message)
    requires (e.SetActivePeer? || e.MarkRead?) && m in MessagesOf(s, peer)
    ensures Kept(m, MessagesOf(Apply(s, e), peer))
  {
    hide Apply;
    var before, after := MessagesOf(s, peer), MessagesOf(Apply(s, e), peer);
    LookStep(s, e, peer);
    var j :| 0 <= j < |before| && before[j] == m;
    KeptAt(m, before, after, j);
  }

  lemma HydrateKept(s: Chat, e: Event, peer: string, m: Message)
    requires e.Hydrate? && m in MessagesOf(s, peer)
    ensures m in MessagesOf(Apply(s, e), peer)
  {
    hide Merged, TimeOrdered, WithTime, DistinctIds, Ids;
    if e.peer == peer {
      MergeIsUnion(MessagesOf(s, peer), e.history.messages, s.nextSerial);
      assert m in multiset(MessagesOf(s, peer));
    }
  }

  lemma DeleteKept(s: Chat, e: Event, peer: string, m: Message)
    requires e.DeleteMessage? && m in MessagesOf(s, peer) && !Removes(e, peer, m.id)
    ensures m in MessagesOf(Apply(s, e), peer)
  {
    hide Without;
    if e.peer == peer { WithoutKeeps(MessagesOf(s, peer), e.id, m); }
  }

  lemma EventKept(s: Chat, e: Event, peer: string, m: Message)
    requires Sound(s) && m in MessagesOf(s, peer) && !Removes(e, peer, m.id)
    ensures Kept(m, MessagesOf(Apply(s, e), peer))
  {
    hide Sound, Apply, FieldsFollow, ReadsText, BeginsSend, Brought, Listed;
    var before, after := MessagesOf(s, peer), MessagesOf(Apply(s, e), peer);
    assert Became(m, m);
    match e
    case BeginSend(_, _, _, _, _, _) =>
      BeginStep(s, e, peer);
      KeptInPrefix(m, before, after);
    case FinishSend(_, _, _, _) => FinishKept(s, e, peer, m);
    case GetReceipt(_, _, _, _) => ReceiptKept(s, e, peer, m);
    case GetText(_, _, _, _, _, _) =>
      TextStep(s, e, peer);
      KeptInPrefix(m, before, after);
    case SetActivePeer(_) => LookKept(s, e, peer, m);
    case MarkRead(_) => LookKept(s, e, peer, m);
    case Hydrate(_, _) => HydrateKept(s, e, peer, m);
    case DeleteMessage(_, _) => DeleteKept(s, e, peer, m);
    case _ => OthersKeepList(s, e, peer, m.id);
  }

  lemma OthersKeepList(s: Chat, e: Event, peer: string, id: string)
    requires !ListsChange(e) && !Removes(e, peer, id) && peer in s.conversations
    ensures MessagesOf(Apply(s, e), peer) == MessagesOf(s, peer)
  {
    hide Apply, SessionNext, ActivityNext, UnreadNext;
    FieldsStep(s, e, peer);
  }

  /** No message is lost: what a conversation lists at some point it lists at every later one, moved forward if at
      all, unless the message was deleted, its conversation closed, or everything cleared or reloaded. */
  lemma {:induction false} NoMessageIsLost(past: seq<Event>, future: seq<Event>, peer: string, m: Message)
    requires m in MessagesOf(Run(START, past), peer)
    requires forall e | e in future :: !Removes(e, peer, m.id)
    ensures Kept(m, MessagesOf(Run(START, past + future), peer))
    decreases |future|
  {
    hide Run, Apply, Sound, Removes, Follows;
    if future == [] {
      assert past + future == past && Became(m, m);
    } else {
      var front, last := future[..|future| - 1], future[|future| - 1];
      assert past + future == past + front + [last] && future == front + [last];
      NoMessageIsLost(past, front, peer, m);
      RunSplits(START, past + front, [last]);
      RunOne(Run(START, past + front), last);
      StartIsSound();
      RunKeeps(START, past + front);
      var x :| x in MessagesOf(Run(START, past + front), peer) && Became(m, x);
      EventKept(Run(START, past + front), last, peer, x);
      var y :| y in MessagesOf(Run(START, past + future), peer) && Became(x, y);
      BecameTwice(m, x, y);
    }
  }
}
