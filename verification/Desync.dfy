/** Why the runs of `Synchrony.dfy` contain no superseded delivery but those that are refused at once. The ratchet turns
    before it looks into the buffer (`decryptMessage`, lines 295-303), so a late message of a ratchet
    key that its sender has replaced is still read, and the two parties are out of step from then on. */
module Desync {
  import opened Terms
  import opened Ratchet
  import opened SkippedKeys
  import opened TwoParty
  import opened Epochs
  import opened Synchrony

  /** The root that a party steps to when it takes the peer's old key `late` for a new one. */
  function StrayRoot(s: State, late: PrivateKey): Term { NewRoot(s.rk, Dh(s.local, late)) }

  /** What the turn to an old key of the peer does: it goes through exactly when there is room, loses
      no buffered key, and steps the root over that old key. */
  lemma LateTurn(es: seq<Epoch>, at: nat, s: State, done: set<Index>, e: nat, header: Header, key: PrivateKey)
    requires EpochsOk(es) && PartyAt(es, at, s, done) && 0 < e && e + 1 < at
    requires header.dh == PublicOf(es[e].key)
    ensures var t := TurnTo(s, header, Private(key));
            && (t.outcome.Ok? <==> CanTurn(s, header))
            && (t.outcome.Err? ==> SkipMessageKeys(s, header.pn).outcome.Err?)
            && (t.outcome.Ok? ==>
                  && (forall k <- s.skipped :: k in t.state.skipped && t.state.skipped[k] == s.skipped[k])
                  && t.state == State(NewRoot(StrayRoot(s, es[e].key), Dh(key, es[e].key)), key, Some(header.dh),
                                      Some(FirstChain(StrayRoot(s, es[e].key), Dh(key, es[e].key))),
                                      Some(FirstChain(s.rk, Dh(s.local, es[e].key))),
                                      0, 0, s.ns, s.maxSkip, t.state.skipped, s.initiator))
  {
    hide BufferOk, BufferKeys, EpochsOk;
    KeysAreDistinct(es, e, at - 1);
    var k := BufferKeys(s.recv.value, s.remote, s.nr, header.pn, s.skipped, s.maxSkip);
    LateSkip(es, at, s, done, header.pn, k);
  }

  lemma KeysAreDistinct(es: seq<Epoch>, d: nat, e: nat)
    requires EpochsOk(es) && d < |es| && e < |es| && d != e
    ensures es[d].key != es[e].key
  {
  }

  lemma LateSkip(es: seq<Epoch>, at: nat, s: State, done: set<Index>, pn: nat, k: Skip)
    requires EpochsOk(es) && PartyAt(es, at, s, done) && at > 1
    requires k == BufferKeys(s.recv.value, s.remote, s.nr, pn, s.skipped, s.maxSkip)
    ensures k.error.None? <==> pn <= s.nr || |s.skipped| + (pn - s.nr) <= s.maxSkip
    ensures forall x <- s.skipped :: x in k.skipped && k.skipped[x] == s.skipped[x]
  {
    if s.nr < pn {
      SkipFits(es, at, s.nr, pn, s.skipped, s.maxSkip, done, k);
      RangeUnbuffered(es, at, s.nr, k.nr, s.skipped, done);
      BufferKeysFills(s.recv.value, s.remote, s.nr, pn, s.skipped, s.maxSkip);
      FilledKeeps(s.skipped, k.skipped, s.remote, s.recv.value, s.nr, k.nr);
    }
  }

  lemma FilledKeeps(before: map<Slot, Term>, after: map<Slot, Term>, remote: Option<PublicKey>,
                    chain: Term, from: nat, to: nat)
    requires Filled(before, after, remote, chain, from, to)
    requires forall k <- before :: !InRange(k, remote, from, to)
    ensures forall k <- before :: k in after && after[k] == before[k]
  {
  }

  /** A superseded message, where it stands for its receiver. */
  lemma LateFacts(w: World, p: Plan, i: nat)
    requires InStep(w, p) && i < |w.log| && w.log[i].wire.Framed? && Superseded(w, i)
    ensures var q := Peer(w.log[i].from);
            && |p.epochs| == |w.log| && EntryOk(p.es, p.epochs[i], w.log[i])
            && EpochsOk(p.es) && PartyAt(p.es, p.Own(q), w.Of(q), p.done)
            && p.epochs[i] + 1 < p.Own(q) && p.epochs[i] != p.Own(w.log[i].from)
            && p.Own(w.log[i].from) < |p.es|
  {
    hide InStep, PartyAt, EntryOk, EpochsOk, Superseded;
    EntryFacts(w, p, i);
    SupersededEpoch(w, p, i);
    PartiesOf(w, p, Peer(w.log[i].from));
    OwnEpochs(w, p, Peer(w.log[i].from));
  }

  /** What its delivery leaves the receiver with. */
  lemma LateDelivery(w: World, p: Plan, i: nat)
    requires InStep(w, p) && i < |w.log| && w.log[i].wire.Framed? && Superseded(w, i)
    ensures |p.epochs| == |w.log| && p.epochs[i] < |p.es|
    ensures var s := w.Of(Peer(w.log[i].from));
            var late := p.es[p.epochs[i]].key;
            var step := Delivering(w, i);
            && w.log[i].wire.header.dh == PublicOf(late)
            && (CanTurn(s, w.log[i].wire.header) ==>
                  && step.state.rk == NewRoot(StrayRoot(s, late), Dh(w.nextKey, late))
                  && step.state.local == w.nextKey && step.state.ns == 0
                  && step.state.send == Some(FirstChain(StrayRoot(s, late), Dh(w.nextKey, late)))
                  && (i !in w.delivered ==> step.outcome == Ok(w.log[i].plaintext)))
            && (!CanTurn(s, w.log[i].wire.header) ==> step.outcome.Err?)
  {
    hide InStep, PartyAt, EpochsOk, Superseded, CanTurn, TurnTo, BufferKeys;
    var m := w.log[i];
    var s := w.Of(Peer(m.from));
    LateFacts(w, p, i);
    LateTurn(p.es, p.Own(Peer(m.from)), s, p.done, p.epochs[i], m.wire.header, w.nextKey);
    PassedIsBuffered(w, p, i);
    FrameOpens(p.es, p.epochs[i], m);
  }

  // ---------- The receiver's next message is lost ----------

  /** A turn does not bring keys for the remote key it turns to. */
  lemma TurnAddsNoSlot(u: State, header: Header, draw: Draw, n: nat)
    requires u.remote != Some(header.dh) && Slot(header.dh, n) !in u.skipped
    ensures Slot(header.dh, n) !in TurnTo(u, header, draw).state.skipped
  {
    hide BufferKeys;
    if u.recv.Some? { BufferKeysFills(u.recv.value, u.remote, u.nr, header.pn, u.skipped, u.maxSkip); }
  }

  /** The first message under a new ratchet key opens only if the sender's chain came from the
      receiver's own root and ratchet key. */
  lemma FirstMessageOpens(u: State, frame: Wire, ad: seq<byte>, draw: Draw, root: Term, dh: DhOutput)
    requires frame.Framed? && frame.header.dh.Point? && frame.header.n == 0
    requires u.remote != Some(frame.header.dh) && Slot(frame.header.dh, 0) !in u.skipped
    requires frame.ciphertext.Sealed? && frame.ciphertext.key == AesKey(MessageKey(FirstChain(root, dh)), 0)
    requires Decrypt(u, frame, ad, draw).outcome.Ok?
    ensures dh == Dh(u.local, frame.header.dh.key)
  {
    hide SkipMessageKeys;
    TurnAddsNoSlot(u, frame.header, draw, 0);
    SkipKeepsIdentity(u, frame.header.pn);
  }

  lemma SkipKeepsIdentity(u: State, upTo: nat)
    ensures SkipMessageKeys(u, upTo).state.local == u.local && SkipMessageKeys(u, upTo).state.rk == u.rk
  {
    hide BufferKeys;
  }

  /** A fresh key has no slot in a synchronised buffer. */
  lemma FreshKeyUnbuffered(es: seq<Epoch>, at: nat, s: State, done: set<Index>, key: PrivateKey, n: nat)
    requires PartyAt(es, at, s, done) && forall e | 0 <= e < |es| :: es[e].key != key
    ensures Slot(PublicOf(key), n) !in s.skipped && s.remote != Some(PublicOf(key))
  {
    forall k <- s.skipped ensures k.dh != PublicOf(key) {
      var x := IndexOfSlot(es, at, s.nr, k);
    }
  }

  /** After a late message has turned the receiver's ratchet, whatever the receiver sends next is not
      read by its peer. */
  lemma NextMessageIsLost(w: World, p: Plan, i: nat, plaintext: seq<byte>, ad: seq<byte>, a: Draw, b: Draw)
    requires InStep(w, p) && i < |w.log| && w.log[i].wire.Framed? && Superseded(w, i)
    requires CanTurn(w.Of(Peer(w.log[i].from)), w.log[i].wire.header)
    ensures var w' := Next(w, Deliver(i));
            var sent := Encrypt(w'.Of(Peer(w.log[i].from)), plaintext, ad, a);
            sent.outcome.Ok? && Decrypt(w'.Of(w.log[i].from), sent.outcome.value, ad, b).outcome.Err?
  {
    hide InStep, PartyAt, EpochsOk, Superseded, CanTurn, Delivering, Decrypt;
    var from := w.log[i].from;
    LateDelivery(w, p, i);
    LateFacts(w, p, i);
    PartiesOf(w, p, from);
    var w' := Next(w, Deliver(i));
    assert w'.Of(from) == w.Of(from) && w'.Of(Peer(from)) == Delivering(w, i).state;
    var late := p.es[p.epochs[i]].key;
    var sent := Encrypt(w'.Of(Peer(from)), plaintext, ad, a).outcome.value;
    FreshKeyUnbuffered(p.es, p.Own(from), w.Of(from), p.done, w.nextKey, 0);
    if Decrypt(w.Of(from), sent, ad, b).outcome.Ok? {
      FirstMessageOpens(w.Of(from), sent, ad, b,
                        StrayRoot(w.Of(Peer(from)), late), Dh(w.nextKey, late));
      OwnKeyIsNotLate(w, p, from, p.epochs[i]);
    }
  }

  lemma OwnKeyIsNotLate(w: World, p: Plan, q: Party, e: nat)
    requires EpochsOk(p.es) && PartyAt(p.es, p.Own(q), w.Of(q), p.done) && e < |p.es| && e != p.Own(q)
    ensures w.Of(q).local != p.es[e].key
  {
  }

  /** No plan whatever makes the two parties in step again: their root keys have parted. */
  lemma NoPlanFits(w: World, p: Plan, i: nat, p': Plan)
    requires InStep(w, p) && i < |w.log| && w.log[i].wire.Framed? && Superseded(w, i)
    requires CanTurn(w.Of(Peer(w.log[i].from)), w.log[i].wire.header)
    ensures !InStep(Next(w, Deliver(i)), p')
  {
    hide InStep, PartyAt, EpochsOk, Superseded, CanTurn, Delivering;
    var from := w.log[i].from;
    LateDelivery(w, p, i);
    LateFacts(w, p, i);
    PartiesOf(w, p, from);
    OwnKeyIsNotLate(w, p, from, p.epochs[i]);
    RootsLinked(w, p);
    if InStep(Next(w, Deliver(i)), p') { RootsLinked(Next(w, Deliver(i)), p'); }
  }

  // ---------- The theorems ----------

  /** A superseded message that has not been delivered before is read exactly when the turn finds
      room, as the documentation promises for messages from before a key rotation. */
  lemma LateMessageIsRead(w: World, i: nat)
    requires Reachable(w) && i < |w.log| && w.log[i].wire.Framed? && Superseded(w, i) && i !in w.delivered
    ensures Delivering(w, i).outcome == Ok(w.log[i].plaintext)
       <==> CanTurn(w.Of(Peer(w.log[i].from)), w.log[i].wire.header)
  {
    var p := ReachableInStep(w);
    LateDelivery(w, p, i);
  }

  /** The same room is what ends the conversation. If the turn finds it, the receiver's next message is not
      read by the peer, under any randomness; if not, the receiver sends what it would have sent. */
  lemma LateMessageDesynchronises(w: World, i: nat, plaintext: seq<byte>, ad: seq<byte>, a: Draw, b: Draw)
    requires Reachable(w) && i < |w.log| && w.log[i].wire.Framed? && Superseded(w, i)
    ensures var w' := Next(w, Deliver(i));
            var q := Peer(w.log[i].from);
            var sent := Encrypt(w'.Of(q), plaintext, ad, a);
            if CanTurn(w.Of(q), w.log[i].wire.header)
            then sent.outcome.Ok? && Decrypt(w'.Of(w.log[i].from), sent.outcome.value, ad, b).outcome.Err?
            else sent.outcome == Encrypt(w.Of(q), plaintext, ad, a).outcome
  {
    hide Reachable, InStep, Superseded, CanTurn, Delivering, Encrypt, Decrypt;
    var p := ReachableInStep(w);
    if CanTurn(w.Of(Peer(w.log[i].from)), w.log[i].wire.header) {
      NextMessageIsLost(w, p, i, plaintext, ad, a, b);
    } else {
      LateRefusalSendsOn(w, p, i, plaintext, ad, a);
    }
  }

  lemma LateRefusalSendsOn(w: World, p: Plan, i: nat, plaintext: seq<byte>, ad: seq<byte>, a: Draw)
    requires InStep(w, p) && i < |w.log| && w.log[i].wire.Framed? && Superseded(w, i)
    requires !CanTurn(w.Of(Peer(w.log[i].from)), w.log[i].wire.header)
    ensures var q := Peer(w.log[i].from);
            Encrypt(Next(w, Deliver(i)).Of(q), plaintext, ad, a).outcome == Encrypt(w.Of(q), plaintext, ad, a).outcome
  {
    hide InStep, Superseded, CanTurn, Encrypt, TurnTo, EntryOk, EpochsOk, PartyAt;
    var q := Peer(w.log[i].from);
    LateFacts(w, p, i);
    EntryFramed(p.es, p.epochs[i], w.log[i]);
    LateTurn(p.es, p.Own(q), w.Of(q), p.done, p.epochs[i], w.log[i].wire.header, w.nextKey);
    FailedTurnSends(w.Of(q), w.log[i].wire.header, Private(w.nextKey), plaintext, ad, a);
  }

  /** A turn that is refused in its skip loop leaves the sending side as it was. */
  lemma FailedTurnSends(s: State, header: Header, draw: Draw, plaintext: seq<byte>, ad: seq<byte>, a: Draw)
    requires SkipMessageKeys(s, header.pn).outcome.Err?
    ensures Encrypt(TurnTo(s, header, draw).state, plaintext, ad, a).outcome == Encrypt(s, plaintext, ad, a).outcome
  {
    hide BufferKeys;
  }

  /** A delivery that is read leaves the parties in step if and only if the message is not superseded. */
  lemma InStepExactlyUnlessSuperseded(w: World, p: Plan, i: nat)
    requires InStep(w, p) && i < |w.log| && w.log[i].wire.Framed?
    requires Delivering(w, i).outcome.Ok?
    ensures (exists p' :: InStep(Next(w, Deliver(i)), p')) <==> !Superseded(w, i)
  {
    hide InStep, Superseded, CanTurn, Delivering, HasRoom, Tears;
    if Superseded(w, i) {
      LateDelivery(w, p, i);
      forall p' ensures !InStep(Next(w, Deliver(i)), p') { NoPlanFits(w, p, i, p'); }
    } else {
      DeliveryExact(w, p, i);
      RoomIsNoTear(w.Of(Peer(w.log[i].from)), w.log[i].wire.header);
      var p' := TimelyKeepsInStep(w, p, i);
    }
  }

  // ---------- Such a run exists ----------

  /** Receiving the first message under a new key when nothing was skipped. */
  lemma TurnsClear(s: State, wire: Wire, ad: seq<byte>, key: PrivateKey)
    requires wire.Framed? && wire.header.dh.Point? && wire.header.n == 0 && s.skipped == map[]
    requires s.remote.Some? && s.remote != Some(wire.header.dh) && Rest(s, wire.header) == 0
    ensures var t := Decrypt(s, wire, ad, Private(key)).state;
            && t.remote == Some(wire.header.dh) && t.local == key && t.pn == s.ns && t.ns == 0 && t.nr == 1
            && t.skipped == map[] && t.maxSkip == s.maxSkip && t.recv.Some? && t.send.Some?
  {
  }

  /** A party opens an epoch with one message. */
  lemma OpenWith(w: World, q: Party) returns (w': World)
    requires Reachable(w) && w.Of(q).remote.Some? && w.Of(q).remote.value.Point?
    requires w.Of(q).ns == 0 && w.Of(q).pn < U32_LIMIT
    ensures Reachable(w') && |w'.log| == |w.log| + 1 && w'.log[..|w.log|] == w.log
    ensures w'.seen == w.seen && w'.delivered == w.delivered && w'.nextKey == w.nextKey + 1
    ensures w'.Of(Peer(q)) == w.Of(Peer(q))
    ensures var s, m := w.Of(q), w'.log[|w.log|];
            && m.from == q && m.wire.Framed?
            && m.wire.header == (if s.send.Some? then Header(PublicOf(s.local), s.pn, 0)
                                 else Header(PublicOf(w.nextKey), 0, 0))
            && w'.Of(q).ns == 1 && w'.Of(q).remote == s.remote && w'.Of(q).nr == s.nr
            && w'.Of(q).recv == s.recv && w'.Of(q).skipped == s.skipped && w'.Of(q).maxSkip == s.maxSkip
  {
    hide Reachable;
    ReachableExtends(w, Send(q, [], []));
    w' := Next(w, Send(q, [], []));
  }

  /** And the peer receives it. */
  lemma Exchange(w: World, q: Party) returns (w': World)
    requires Reachable(w) && w.Of(Peer(q)).skipped == map[] && w.Of(Peer(q)).remote.Some?
    requires w.Of(q).remote.Some? && w.Of(q).remote.value.Point?
    requires w.Of(q).ns == 0 && w.Of(q).pn < U32_LIMIT
    requires var s, r := w.Of(q), w.Of(Peer(q));
             if s.send.Some? then r.remote != Some(PublicOf(s.local)) && (r.recv.None? || s.pn <= r.nr)
             else r.remote != Some(PublicOf(w.nextKey))
    ensures Reachable(w') && |w'.log| == |w.log| + 1 && w'.log[..|w.log|] == w.log
    ensures w'.seen == w.seen + {|w.log|} && w'.nextKey == w.nextKey + 2
    ensures w.delivered <= w'.delivered <= w.delivered + {|w.log|}
    ensures var s, m := w.Of(q), w'.log[|w.log|];
            && m.from == q && m.wire.Framed?
            && m.wire.header == (if s.send.Some? then Header(PublicOf(s.local), s.pn, 0)
                                 else Header(PublicOf(w.nextKey), 0, 0))
            && w'.Of(q).ns == 1 && w'.Of(q).remote == s.remote && w'.Of(q).nr == s.nr
            && w'.Of(q).recv == s.recv && w'.Of(q).skipped == s.skipped && w'.Of(q).maxSkip == s.maxSkip
    ensures var r, t := w.Of(Peer(q)), w'.Of(Peer(q));
            && t.remote == Some(w'.log[|w.log|].wire.header.dh) && t.local == w.nextKey + 1 && t.pn == r.ns
            && t.ns == 0 && t.nr == 1 && t.skipped == map[] && t.maxSkip == r.maxSkip && t.send.Some?
  {
    hide Reachable, Decrypt;
    var sent := OpenWith(w, q);
    var m := sent.log[|w.log|];
    TurnsClear(sent.Of(Peer(q)), m.wire, m.ad, sent.nextKey);
    ReachableExtends(sent, Deliver(|w.log|));
    w' := Next(sent, Deliver(|w.log|));
  }

  /** The initiator has sent two messages of its first chain and the first has arrived. */
  ghost predicate TwoSent(w: World, answered: bool) {
    && |w.log| >= 2 && w.log[0].wire.Framed? && w.log[1].wire.Framed?
    && w.log[0].from == Alice && w.log[1].from == Alice
    && w.log[1].wire.header == Header(PublicOf(0), 0, 1)
    && w.bob.remote == Some(PublicOf(0)) && w.bob.recv.Some? && w.bob.nr == 1
    && w.bob.skipped == map[] && w.bob.maxSkip > 0
    && w.alice.remote.Some? && w.alice.remote.value.Point? && w.alice.send.Some?
    && (if answered then |w.log| == 3 && w.log[2].from == Bob && w.log[2].wire.Framed?
                         && w.seen == {0, 2} && 1 !in w.delivered
                         && w.alice.local == 6 && w.alice.pn == 2 && w.alice.ns == 0 && w.nextKey == 7
        else |w.log| == 2 && w.seen == {0} && 1 !in w.delivered
             && w.bob.ns == 0 && w.bob.pn == 0 && w.bob.send.None?
             && w.alice.local == 0 && w.alice.ns == 2
             && w.alice.remote == Some(PublicOf(1)) && w.alice.recv.None? && w.alice.skipped == map[]
             && w.nextKey == 5)
  }

  lemma SendTwo(maxSkip: nat) returns (w: World)
    requires maxSkip > 0
    ensures Reachable(w) && TwoSent(w, false)
  {
    hide Reachable;
    var w2 := SendBoth(maxSkip);
    w := Next(w2, Deliver(0));
    ReachableExtends(w2, Deliver(0));
  }

  lemma SendBoth(maxSkip: nat) returns (w: World)
    ensures Reachable(w) && |w.log| == 2 && w.log[0].from == Alice && w.log[1].from == Alice
    ensures w.log[0].wire.Framed? && w.log[0].wire.header == Header(PublicOf(0), 0, 0)
    ensures w.log[1].wire.Framed? && w.log[1].wire.header == Header(PublicOf(0), 0, 1)
    ensures w.delivered == {} && w.seen == {} && w.nextKey == 4
    ensures w.alice.(send := None) == Start(Secret(0), 0, 1, maxSkip, maxSkip).alice.(send := None, ns := 2)
    ensures w.alice.send.Some? && w.bob == Start(Secret(0), 0, 1, maxSkip, maxSkip).bob
  {
    hide Reachable;
    var w0 := Start(Secret(0), 0, 1, maxSkip, maxSkip);
    StartReachable(Secret(0), 0, 1, maxSkip, maxSkip);
    var w1 := Next(w0, Send(Alice, [], []));
    ReachableExtends(w0, Send(Alice, [], []));
    w := Next(w1, Send(Alice, [], []));
    ReachableExtends(w1, Send(Alice, [], []));
  }

  lemma Answer(w: World) returns (w': World)
    requires Reachable(w) && TwoSent(w, false)
    ensures Reachable(w') && TwoSent(w', true)
  {
    hide Reachable;
    w' := Exchange(w, Bob);
  }

  /** Four messages are enough, with room for one key: two of the initiator's first chain, of which the
      second is late, an answer, and a message of the initiator's next chain. */
  lemma LateMessageExists(maxSkip: nat) returns (w: World, i: nat)
    requires maxSkip > 0
    ensures Reachable(w) && i < |w.log| && w.log[i].wire.Framed? && Superseded(w, i) && i !in w.delivered
    ensures CanTurn(w.Of(Peer(w.log[i].from)), w.log[i].wire.header)
  {
    hide Reachable;
    w := SendTwo(maxSkip);
    w := Answer(w);
    var sent := OpenWith(w, Alice);
    w := ReceiveLate(sent);
    i := 1;
  }

  /** The initiator's next chain arrives while one message of its first is missing. */
  lemma ReceiveLate(w: World) returns (w': World)
    requires Reachable(w) && |w.log| == 4 && w.log[1].wire.Framed? && w.log[3].wire.Framed?
    requires w.log[1].from == Alice && w.log[1].wire.header == Header(PublicOf(0), 0, 1)
    requires w.log[3].from == Alice && w.log[3].wire.header == Header(PublicOf(6), 2, 0)
    requires w.bob.remote == Some(PublicOf(0)) && w.bob.recv.Some? && w.bob.nr == 1 && w.bob.skipped == map[]
    requires w.bob.maxSkip > 0 && 1 !in w.delivered
    ensures Reachable(w') && w'.log == w.log && Superseded(w', 1) && 1 !in w'.delivered
    ensures CanTurn(w'.bob, w'.log[1].wire.header)
  {
    hide Reachable;
    ReachableExtends(w, Deliver(3));
    w' := Next(w, Deliver(3));
    assert 3 in w'.seen && w'.log[3].wire.header.dh != w'.log[1].wire.header.dh;
  }
}
