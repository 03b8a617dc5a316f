/** Conversations and the merge of restored history into them (`src/realtime/ChatController.ts`, lines
    1165-1237). A message object is known by a serial number, because a send in progress holds on to the
    object and not to its place in a list. */
module ChatHistory {
  import opened Terms

  datatype Status = Sending | Sent | Delivered | Read | Failed

  datatype Message = Message(serial: nat, id: string, wireId: Option<string>, sender: string, recipient: string,
                             plaintext: string, createdAt: int, outgoing: bool, status: Option<Status>,
                             errorMessage: Option<string>, readAckSent: bool)

  /** A message as it is stored. */
  datatype Saved = Saved(id: string, wireId: Option<string>, sender: string, recipient: string,
                         plaintext: string, createdAt: int, outgoing: bool, status: Option<Status>,
                         errorMessage: Option<string>, readAckSent: bool)

  datatype SavedConversation = SavedConversation(messages: seq<Saved>, lastActivityAt: int, unreadCount: nat)

  /** What the user sees of the session; a fault carries its code. */
  datatype SessionState = NoSession | Initiating | Established(initiator: bool) | Faulty(code: string)

  /** A conversation object; `ready` says that it has a session. */
  datatype Conversation = Conversation(identity: nat, messages: seq<Message>, lastActivityAt: int,
                                       unreadCount: nat, ready: bool, initiating: bool, sending: bool,
                                       session: SessionState)

  /** What `ensureConversation` makes. */
  function NewConversation(identity: nat, now: int): Conversation {
    Conversation(identity, [], now, 0, false, false, false, NoSession)
  }

  // ---------- To and from storage ----------

  function Stored(m: Message): Saved {
    Saved(m.id, m.wireId, m.sender, m.recipient, m.plaintext, m.createdAt, m.outgoing, m.status,
          m.errorMessage, m.readAckSent)
  }

  function StoredAll(ms: seq<Message>): seq<Saved> {
    if ms == [] then [] else [Stored(ms[0])] + StoredAll(ms[1..])
  }

  function SerializeConversation(c: Conversation): SavedConversation {
    SavedConversation(StoredAll(c.messages), c.lastActivityAt, c.unreadCount)
  }

  predicate Confirmed(status: Option<Status>) { status in {Some(Sent), Some(Delivered), Some(Read)} }

  const INTERRUPTED: string := "Send may not have completed on this device before reload."

  /** `toDisplayMessage`, as a new object. */
  function ToDisplayMessage(s: Saved, serial: nat): Message {
    var interrupted := s.outgoing && !Confirmed(s.status);
    Message(serial, s.id, s.wireId, s.sender, s.recipient, s.plaintext, s.createdAt, s.outgoing,
            if interrupted then Some(Failed) else s.status,
            if interrupted && s.errorMessage.None? then Some(INTERRUPTED) else s.errorMessage,
            s.readAckSent)
  }

  /** Storing and restoring keeps everything of a message but its object, except that an outbound message
      whose send was not confirmed comes back as failed, with a reason: its own, if it had one. */
  lemma RestoredMessage(m: Message, serial: nat)
    ensures var r := ToDisplayMessage(Stored(m), serial);
            && r == m.(serial := serial, status := r.status, errorMessage := r.errorMessage)
            && r.status == (if m.outgoing && m.status !in {Some(Sent), Some(Delivered), Some(Read)} then Some(Failed)
                            else m.status)
            && (m.outgoing && m.status == Some(Sending) ==> r.status == Some(Failed) && r.errorMessage.Some?)
            && (m.outgoing ==> r.status.Some? && r.status != Some(Sending))
            && r.errorMessage == if m.outgoing && m.status !in {Some(Sent), Some(Delivered), Some(Read)}
                                    && m.errorMessage.None?
                                 then Some("Send may not have completed on this device before reload.")
                                 else m.errorMessage
  {
  }

  // ---------- The stable sort by time ----------

  ghost predicate TimeOrdered(ms: seq<Message>) {
    forall i, j | 0 <= i < j < |ms| :: ms[i].createdAt <= ms[j].createdAt
  }

  function InsertByTime(ms: seq<Message>, m: Message): seq<Message> {
    if ms == [] || ms[|ms| - 1].createdAt <= m.createdAt then ms + [m]
    else InsertByTime(ms[..|ms| - 1], m) + [ms[|ms| - 1]]
  }

  /** `messages.sort((a, b) => a.createdAt - b.createdAt)`. */
  function SortByTime(ms: seq<Message>): seq<Message> {
    if ms == [] then [] else InsertByTime(SortByTime(ms[..|ms| - 1]), ms[|ms| - 1])
  }

  /** The messages of one time, in their order. */
  function WithTime(ms: seq<Message>, t: int): seq<Message> {
    if ms == [] then []
    else WithTime(ms[..|ms| - 1], t) + if ms[|ms| - 1].createdAt == t then [ms[|ms| - 1]] else []
  }

  lemma WithTimeSnoc(ms: seq<Message>, m: Message, t: int)
    ensures WithTime(ms + [m], t) == WithTime(ms, t) + if m.createdAt == t then [m] else []
  {
    assert (ms + [m])[..|ms|] == ms;
  }

  lemma {:induction false} WithTimeLater(ms: seq<Message>, t: int)
    requires forall i | 0 <= i < |ms| :: ms[i].createdAt < t
    ensures WithTime(ms, t) == []
  {
    if ms != [] { WithTimeLater(ms[..|ms| - 1], t); }
  }

  lemma {:induction false} InsertKeepsAll(ms: seq<Message>, m: Message)
    ensures multiset(InsertByTime(ms, m)) == multiset(ms) + multiset{m}
  {
    if ms != [] && m.createdAt < ms[|ms| - 1].createdAt {
      InsertKeepsAll(ms[..|ms| - 1], m);
      assert ms == ms[..|ms| - 1] + [ms[|ms| - 1]];
    }
  }

  lemma {:induction false} InsertKeepsOrder(ms: seq<Message>, m: Message)
    requires TimeOrdered(ms)
    ensures TimeOrdered(InsertByTime(ms, m))
  {
    if ms != [] && m.createdAt < ms[|ms| - 1].createdAt {
      var front := ms[..|ms| - 1];
      InsertKeepsOrder(front, m);
      InsertKeepsAll(front, m);
      AllBefore(front, m, InsertByTime(front, m), ms[|ms| - 1]);
    }
  }

  /** Elements that all come before a time still do when they are rearranged. */
  lemma AllBefore(front: seq<Message>, m: Message, rearranged: seq<Message>, last: Message)
    requires multiset(rearranged) == multiset(front) + multiset{m}
    requires m.createdAt <= last.createdAt && forall i | 0 <= i < |front| :: front[i].createdAt <= last.createdAt
    ensures forall i | 0 <= i < |rearranged| :: rearranged[i].createdAt <= last.createdAt
  {
    forall i | 0 <= i < |rearranged| ensures rearranged[i].createdAt <= last.createdAt {
      assert rearranged[i] in multiset(rearranged);
      if rearranged[i] != m { assert rearranged[i] in multiset(front); }
    }
  }

  lemma {:induction false} InsertWithTime(ms: seq<Message>, m: Message, t: int)
    requires TimeOrdered(ms)
    ensures WithTime(InsertByTime(ms, m), t) == WithTime(ms, t) + if m.createdAt == t then [m] else []
  {
    if ms != [] && m.createdAt < ms[|ms| - 1].createdAt {
      var front := ms[..|ms| - 1];
      var last := ms[|ms| - 1];
      InsertWithTime(front, m, t);
      WithTimeSnoc(InsertByTime(front, m), last, t);
    } else {
      WithTimeSnoc(ms, m, t);
    }
  }

  lemma NothingOrdered()
    ensures TimeOrdered([])
  {
  }

  lemma {:induction false} SortKeeps(ms: seq<Message>)
    ensures TimeOrdered(SortByTime(ms)) && multiset(SortByTime(ms)) == multiset(ms)
  {
    hide InsertByTime, TimeOrdered;
    if ms == [] { NothingOrdered(); }
    if ms != [] {
      var front := ms[..|ms| - 1];
      SortKeeps(front);
      InsertKeepsAll(SortByTime(front), ms[|ms| - 1]);
      InsertKeepsOrder(SortByTime(front), ms[|ms| - 1]);
      assert ms == front + [ms[|ms| - 1]];
    }
  }

  lemma {:induction false} SortIsStable(ms: seq<Message>, t: int)
    ensures WithTime(SortByTime(ms), t) == WithTime(ms, t)
  {
    if ms != [] {
      var front := ms[..|ms| - 1];
      SortIsStable(front, t);
      SortKeeps(front);
      InsertWithTime(SortByTime(front), ms[|ms| - 1], t);
    }
  }

  lemma {:induction false} SortedIsUnchanged(ms: seq<Message>)
    requires TimeOrdered(ms)
    ensures SortByTime(ms) == ms
  {
    hide TimeOrdered, InsertByTime;
    if ms != [] {
      var front, last := ms[..|ms| - 1], ms[|ms| - 1];
      assert ms == front + [last];
      FrontOrdered(ms);
      SortedIsUnchanged(front);
      InsertAtEnd(front, last);
    }
  }

  lemma InsertAtEnd(front: seq<Message>, last: Message)
    requires TimeOrdered(front + [last])
    ensures InsertByTime(front, last) == front + [last]
  {
    if front != [] {
      var all := front + [last];
      assert all[|front| - 1] == front[|front| - 1] && all[|front|] == last;
    }
  }

  /** There is one stable order: whatever orders messages by time and keeps the order of equal times
      gives `SortByTime`. */
  lemma {:induction false} OneStableOrder(a: seq<Message>, b: seq<Message>)
    requires TimeOrdered(a) && TimeOrdered(b) && forall t :: WithTime(a, t) == WithTime(b, t)
    ensures a == b
    decreases |a|
  {
    hide WithTime, TimeOrdered;
    if a == [] {
      if b != [] {
        LastWithTime(b);
        EmptyWithTime(b[|b| - 1].createdAt);
        assert WithTime(a, b[|b| - 1].createdAt) == [];
      }
    } else if b == [] {
      LastWithTime(a);
      EmptyWithTime(a[|a| - 1].createdAt);
    } else {
      var x, y := a[|a| - 1], b[|b| - 1];
      var c, d := a[..|a| - 1], b[..|b| - 1];
      assert WithTime(a, x.createdAt) == WithTime(b, x.createdAt);
      assert WithTime(a, y.createdAt) == WithTime(b, y.createdAt);
      LastTime(a, b);
      LastTime(b, a);
      LastWithTime(a);
      LastWithTime(b);
      assert a == c + [x] && b == d + [y];
      forall t ensures WithTime(c, t) == WithTime(d, t) {
        assert WithTime(a, t) == WithTime(b, t);
        SameWithoutLast(c, d, x, t);
      }
      FrontOrdered(a);
      FrontOrdered(b);
      OneStableOrder(c, d);
    }
  }

  lemma EmptyWithTime(t: int)
    ensures WithTime([], t) == []
  {
  }

  lemma FrontOrdered(a: seq<Message>)
    requires TimeOrdered(a) && a != []
    ensures TimeOrdered(a[..|a| - 1])
  {
  }

  lemma SameWithoutLast(c: seq<Message>, d: seq<Message>, x: Message, t: int)
    requires WithTime(c + [x], t) == WithTime(d + [x], t)
    ensures WithTime(c, t) == WithTime(d, t)
  {
    hide WithTime;
    WithTimeSnoc(c, x, t);
    WithTimeSnoc(d, x, t);
    if x.createdAt == t {
      SnocCancels(WithTime(c, t), WithTime(d, t), x);
    } else {
      assert WithTime(c, t) + [] == WithTime(c, t) && WithTime(d, t) + [] == WithTime(d, t);
    }
  }

  lemma SnocCancels(p: seq<Message>, q: seq<Message>, x: Message)
    requires p + [x] == q + [x]
    ensures p == q
  {
    assert |p| == |p + [x]| - 1 && |q| == |q + [x]| - 1;
    assert p == (p + [x])[..|p|] && q == (q + [x])[..|q|];
  }

  /** The last of the messages with the time of the last one is the last one. */
  lemma LastWithTime(a: seq<Message>)
    requires a != []
    ensures var same := WithTime(a, a[|a| - 1].createdAt);
            same != [] && same[|same| - 1] == a[|a| - 1]
  {
  }

  lemma LastTime(a: seq<Message>, b: seq<Message>)
    requires TimeOrdered(b) && a != [] && b != []
    requires WithTime(a, a[|a| - 1].createdAt) == WithTime(b, a[|a| - 1].createdAt)
    ensures a[|a| - 1].createdAt <= b[|b| - 1].createdAt
  {
    if b[|b| - 1].createdAt < a[|a| - 1].createdAt { WithTimeLater(b, a[|a| - 1].createdAt); }
  }

  // ---------- The merge ----------

  function Ids(ms: seq<Message>): set<string> { set m | m in ms :: m.id }

  function SavedIds(saved: seq<Saved>): set<string> { set m | m in saved :: m.id }

  ghost predicate DistinctIds(ms: seq<Message>) {
    forall i, j | 0 <= i < j < |ms| :: ms[i].id != ms[j].id
  }

  /** The stored messages with ids not yet known, each id once. */
  function NewOnes(known: set<string>, saved: seq<Saved>, serial: nat): seq<Message>
    decreases |saved|
  {
    if saved == [] then []
    else if saved[0].id in known then NewOnes(known, saved[1..], serial)
    else [ToDisplayMessage(saved[0], serial)] + NewOnes(known + {saved[0].id}, saved[1..], serial + 1)
  }

  function Merged(ms: seq<Message>, saved: seq<Saved>, serial: nat): seq<Message> {
    SortByTime(ms + NewOnes(Ids(ms), saved, serial))
  }

  lemma {:induction false} NewOnesAreNew(known: set<string>, saved: seq<Saved>, serial: nat)
    ensures var added := NewOnes(known, saved, serial);
            && Ids(added) == SavedIds(saved) - known && DistinctIds(added)
            && (forall i | 0 <= i < |added| :: added[i].serial == serial + i)
    decreases |saved|
  {
    if saved != [] {
      var first := saved[0];
      assert saved == [first] + saved[1..];
      assert SavedIds(saved) == {first.id} + SavedIds(saved[1..]);
      if first.id in known {
        NewOnesAreNew(known, saved[1..], serial);
      } else {
        NewOnesAreNew(known + {first.id}, saved[1..], serial + 1);
        AddFirst(ToDisplayMessage(first, serial), NewOnes(known + {first.id}, saved[1..], serial + 1));
      }
    }
  }

  lemma AddFirst(m: Message, rest: seq<Message>)
    ensures Ids([m] + rest) == {m.id} + Ids(rest)
    ensures DistinctIds(rest) && m.id !in Ids(rest) ==> DistinctIds([m] + rest)
  {
    var all := [m] + rest;
    forall id ensures id in Ids(all) <==> id in {m.id} + Ids(rest) {
      if id in Ids(rest) { var x :| x in rest && x.id == id; assert x in all; }
    }
    if DistinctIds(rest) && m.id !in Ids(rest) {
      forall i, j | 0 <= i < j < |all| ensures all[i].id != all[j].id {
        assert all[j] == rest[j - 1] && rest[j - 1] in rest;
      }
    }
  }

  /** Joining lists with different ids. */
  lemma JoinIds(a: seq<Message>, b: seq<Message>)
    ensures Ids(a + b) == Ids(a) + Ids(b)
    ensures DistinctIds(a) && DistinctIds(b) && Ids(a) !! Ids(b) ==> DistinctIds(a + b)
  {
    forall id ensures id in Ids(a + b) <==> id in Ids(a) + Ids(b) {
      if id in Ids(a) { var x :| x in a && x.id == id; assert x in a + b; }
      if id in Ids(b) { var x :| x in b && x.id == id; assert x in a + b; }
    }
    if DistinctIds(a) && DistinctIds(b) && Ids(a) !! Ids(b) {
      forall i, j | 0 <= i < j < |a + b| ensures (a + b)[i].id != (a + b)[j].id {
        if i < |a| && |a| <= j { assert a[i].id in Ids(a) && b[j - |a|].id in Ids(b); }
      }
    }
  }

  /** A rearrangement has the same ids, and keeps them distinct. */
  lemma SameIds(a: seq<Message>, b: seq<Message>)
    requires multiset(a) == multiset(b)
    ensures Ids(a) == Ids(b) && forall m :: m in a <==> m in b
  {
    forall m ensures m in a <==> m in b { assert m in a <==> m in multiset(a); }
  }

  /** Distinct ids are a matter of the multiset: every message once, and no two with one id. */
  lemma {:induction false} DistinctById(a: seq<Message>)
    ensures DistinctIds(a) <==> |Ids(a)| == |a|
  {
    hide Ids, DistinctIds;
    if a == [] {
      NoIds();
    } else {
      var rest := a[1..];
      assert a == [a[0]] + rest;
      DistinctById(rest);
      AddFirst(a[0], rest);
      IdsBounded(rest);
      if DistinctIds(a) { RestIsDistinct(a); }
      if a[0].id in Ids(rest) { assert {a[0].id} + Ids(rest) == Ids(rest); }
    }
  }

  lemma NoIds()
    ensures Ids([]) == {} && DistinctIds([])
  {
  }

  lemma RestIsDistinct(a: seq<Message>)
    requires DistinctIds(a) && a != []
    ensures DistinctIds(a[1..]) && a[0].id !in Ids(a[1..])
  {
    var rest := a[1..];
    assert forall i | 0 <= i < |rest| :: rest[i] == a[i + 1];
  }

  lemma {:induction false} IdsBounded(a: seq<Message>)
    ensures |Ids(a)| <= |a|
  {
    if a != [] {
      IdsBounded(a[1..]);
      assert a == [a[0]] + a[1..];
      AddFirst(a[0], a[1..]);
    }
  }

  /** The merge is the union by id: every live message stays exactly as it is, what comes from the store
      has none of their ids, the ids are those of both, they stay distinct, and the result is in order of
      time with equal times in the order of arrival. */
  lemma MergeIsUnion(ms: seq<Message>, saved: seq<Saved>, serial: nat)
    ensures var merged := Merged(ms, saved, serial);
            && Ids(merged) == Ids(ms) + SavedIds(saved)
            && multiset(ms) <= multiset(merged)
            && (forall m | m in merged && m.id in Ids(ms) :: m in ms)
            && (DistinctIds(ms) ==> DistinctIds(merged))
            && TimeOrdered(merged)
            && (forall t :: WithTime(merged, t) == WithTime(ms + NewOnes(Ids(ms), saved, serial), t))
  {
    hide SortByTime, WithTime, TimeOrdered, DistinctIds, NewOnes, Ids;
    var added := NewOnes(Ids(ms), saved, serial);
    var merged := Merged(ms, saved, serial);
    NewOnesAreNew(Ids(ms), saved, serial);
    JoinIds(ms, added);
    SortKeeps(ms + added);
    SameIds(ms + added, merged);
    forall m | m in merged && m.id in Ids(ms) ensures m in ms {
      if m in added { IdOf(added, m); }
    }
    if DistinctIds(ms) { DistinctById(ms + added); DistinctById(merged); SameLength(ms + added, merged); }
    forall t ensures WithTime(merged, t) == WithTime(ms + added, t) { SortIsStable(ms + added, t); }
  }

  lemma IdOf(ms: seq<Message>, m: Message)
    requires m in ms
    ensures m.id in Ids(ms)
  {
  }

  lemma SameLength(a: seq<Message>, b: seq<Message>)
    requires multiset(a) == multiset(b)
    ensures |a| == |b|
  {
    assert |multiset(a)| == |a| && |multiset(b)| == |b|;
  }

  lemma {:induction false} NothingNew(known: set<string>, saved: seq<Saved>, serial: nat)
    requires SavedIds(saved) <= known
    ensures NewOnes(known, saved, serial) == []
  {
    if saved != [] {
      assert saved[0].id in SavedIds(saved);
      forall m | m in saved[1..] ensures m.id in known { assert m in saved && m.id in SavedIds(saved); }
      NothingNew(known, saved[1..], serial);
    }
  }

  /** Merging messages that are all known into an ordered list changes nothing. */
  lemma MergeAbsorbed(ms: seq<Message>, saved: seq<Saved>, serial: nat)
    requires TimeOrdered(ms) && SavedIds(saved) <= Ids(ms)
    ensures Merged(ms, saved, serial) == ms
  {
    hide SortByTime, Ids, TimeOrdered, NewOnes;
    NothingNew(Ids(ms), saved, serial);
    assert ms + [] == ms;
    SortedIsUnchanged(ms);
  }

  // ---------- Restoring a conversation ----------

  function Max(a: int, b: int): int { if a < b then b else a }

  /** `restoreConversation`, into a live conversation or a new one. */
  function Restore(c: Option<Conversation>, p: SavedConversation, serial: nat): (r: Conversation)
    ensures p.lastActivityAt <= r.lastActivityAt && p.unreadCount <= r.unreadCount
    ensures c.Some? ==> c.value.lastActivityAt <= r.lastActivityAt && c.value.unreadCount <= r.unreadCount
    ensures r.lastActivityAt == p.lastActivityAt || (c.Some? && r.lastActivityAt == c.value.lastActivityAt)
    ensures r.unreadCount == p.unreadCount || (c.Some? && r.unreadCount == c.value.unreadCount)
    ensures c.Some? ==> r == c.value.(messages := r.messages, lastActivityAt := r.lastActivityAt,
                                      unreadCount := r.unreadCount)
  {
    match c
    case None =>
      NewConversation(serial, p.lastActivityAt).(messages := Merged([], p.messages, serial + 1),
                                                 unreadCount := p.unreadCount)
    case Some(live) =>
      live.(messages := Merged(live.messages, p.messages, serial),
            lastActivityAt := Max(live.lastActivityAt, p.lastActivityAt),
            unreadCount := if p.unreadCount > live.unreadCount then p.unreadCount else live.unreadCount)
  }

  /** Restoring twice is restoring once, also when another history was restored in between: several
      hydrations may run. */
  lemma RestoreIsIdempotent(c: Option<Conversation>, p: SavedConversation, q: SavedConversation,
                            s0: nat, s1: nat, s2: nat)
    ensures var once := Restore(c, p, s0);
            && Restore(Some(once), p, s1) == once
            && var other := Restore(Some(once), q, s1);
            Restore(Some(other), p, s2) == other
  {
    hide Merged, TimeOrdered, WithTime, DistinctIds;
    var ms := if c.Some? then c.value.messages else [];
    var once := Restore(c, p, s0);
    var other := Restore(Some(once), q, s1);
    MergeIsUnion(ms, p.messages, if c.Some? then s0 else s0 + 1);
    MergeIsUnion(once.messages, q.messages, s1);
    MergeAbsorbed(once.messages, p.messages, s1);
    MergeAbsorbed(other.messages, p.messages, s2);
  }

  /** `deleteMessageLocally`: the first message with the id. */
  function Without(ms: seq<Message>, id: string): seq<Message> {
    if ms == [] then [] else if ms[0].id == id then ms[1..] else [ms[0]] + Without(ms[1..], id)
  }

  lemma {:induction false} WithoutRemoves(ms: seq<Message>, id: string)
    requires DistinctIds(ms)
    ensures Ids(Without(ms, id)) == Ids(ms) - {id} && DistinctIds(Without(ms, id))
  {
    hide Ids, DistinctIds;
    if ms == [] {
      NoIds();
    } else {
      assert ms == [ms[0]] + ms[1..];
      AddFirst(ms[0], ms[1..]);
      RestIsDistinct(ms);
      WithoutRemoves(ms[1..], id);
      AddFirst(ms[0], Without(ms[1..], id));
    }
  }

  /** A message that was deleted locally comes back with a later restore if and only if it is stored. */
  lemma DeletedComesBackExactly(ms: seq<Message>, id: string, saved: seq<Saved>, serial: nat)
    requires DistinctIds(ms)
    ensures id in Ids(Merged(Without(ms, id), saved, serial)) <==> id in SavedIds(saved)
  {
    WithoutRemoves(ms, id);
    MergeIsUnion(Without(ms, id), saved, serial);
  }
}
