/** The two-party theorems: wherever an admissible run leads, a first delivery gives exactly the plaintext sent
    if and only if there is room, a second delivery is refused, the root keys stay in lockstep, no key is used
    twice, and the buffers hold exactly what has been passed and not been delivered. */
module Synchrony {
  import opened Terms
  import opened Ratchet
  import opened SkippedKeys
  import opened TwoParty
  import opened Epochs

  /** What a world in step is in step with: the epochs, each party's own epoch, the epoch of every
      message in the log, and the messages delivered. */
  datatype Plan = Plan(es: seq<Epoch>, alice: nat, bob: nat, epochs: seq<nat>, done: set<Index>)
  {
    function Own(p: Party): nat { if p.Alice? then alice else bob }

    function IndexOf(log: seq<Sent>, i: nat): Index
      requires i < |log| && i < |epochs| && log[i].wire.Framed?
    {
      Index(epochs[i], log[i].wire.header.n)
    }
  }

  /** The owner of an epoch. */
  function Owner(e: nat): Party { if e % 2 == 1 then Alice else Bob }

  ghost predicate EntryOk(es: seq<Epoch>, e: nat, x: Sent) {
    && 0 < e < |es| && x.from == Owner(e)
    && x.wire.Framed? && x.wire.header.n < es[e].sent
    && EpochsOk(es) && x.wire == HonestFrame(es, Index(e, x.wire.header.n), x.plaintext, x.ad)
  }

  ghost predicate LogOk(es: seq<Epoch>, epochs: seq<nat>, log: seq<Sent>) {
    && |epochs| == |log|
    && (forall i | 0 <= i < |log| :: EntryOk(es, epochs[i], log[i]))
  }

  /** Each sender's messages are in the log in the order of their epochs and indices. */
  ghost predicate LogOrdered(epochs: seq<nat>, log: seq<Sent>) {
    && |epochs| == |log|
    && (forall i | 0 <= i < |log| :: log[i].wire.Framed?)
    && (forall i, j | 0 <= i < j < |log| && log[i].from == log[j].from ::
          epochs[i] < epochs[j]
          || (epochs[i] == epochs[j] && log[i].wire.header.n < log[j].wire.header.n))
  }

  /** `done` names the delivered log positions. */
  ghost predicate DoneOk(p: Plan, log: seq<Sent>, delivered: set<nat>) {
    && |p.epochs| == |log|
    && (forall i | 0 <= i < |log| :: log[i].wire.Framed?)
    && (forall i <- delivered :: i < |log|)
    && (forall i | 0 <= i < |log| :: i in delivered <==> p.IndexOf(log, i) in p.done)
  }

  /** What has been seen lies in epochs that its receiver has come to, and nothing else brought it there. */
  ghost predicate SeenOk(p: Plan, log: seq<Sent>, seen: set<nat>) {
    && |p.epochs| == |log|
    && (forall i <- seen :: i < |log| && p.epochs[i] <= ReceiveEpoch(p.Own(Peer(log[i].from))))
    && (forall q: Party :: Brought(p, seen, q))
  }

  ghost predicate Brought(p: Plan, seen: set<nat>, q: Party) {
    ReceiveEpoch(p.Own(q)) < 2
    || exists i :: i in seen && i < |p.epochs| && p.epochs[i] == ReceiveEpoch(p.Own(q))
  }

  /** The index has been sent. */
  predicate Made(es: seq<Epoch>, x: Index) { 0 < x.epoch < |es| && x.n < es[x.epoch].sent }

  ghost predicate Logged(epochs: seq<nat>, log: seq<Sent>, x: Index) {
    exists i :: 0 <= i < |log| && i < |epochs| && log[i].wire.Framed? && x == Index(epochs[i], log[i].wire.header.n)
  }

  /** Everything sent is in the log. */
  ghost predicate AllLogged(es: seq<Epoch>, epochs: seq<nat>, log: seq<Sent>) {
    forall x | Made(es, x) :: Logged(epochs, log, x)
  }

  /** The last index that the receive chain has passed is one whose message was read. */
  predicate Tight(at: nat, nr: nat, done: set<Index>) {
    nr > 0 ==> Index(ReceiveEpoch(at), nr - 1) in done
  }

  /** The parties stand at the last two epochs, and the keys of the epochs lie below `limit`. */
  ghost predicate LastTwo(p: Plan, limit: PrivateKey) {
    && p.alice % 2 == 1 && p.bob % 2 == 0
    && (p.alice + 1 == p.bob == |p.es| - 1 || p.bob + 1 == p.alice == |p.es| - 1)
    && (forall e | 0 <= e < |p.es| :: p.es[e].key < limit)
  }

  ghost predicate InStep(w: World, p: Plan) {
    && EpochsOk(p.es)
    && LastTwo(p, w.nextKey)
    && PartyAt(p.es, p.alice, w.alice, p.done)
    && PartyAt(p.es, p.bob, w.bob, p.done)
    && Tight(p.alice, w.alice.nr, p.done)
    && Tight(p.bob, w.bob.nr, p.done)
    && LogOk(p.es, p.epochs, w.log)
    && LogOrdered(p.epochs, w.log)
    && AllLogged(p.es, p.epochs, w.log)
    && DoneOk(p, w.log, w.delivered)
    && SeenOk(p, w.log, w.seen)
  }

  // ---------- The start ----------

  lemma StartsInStep(sk: Term, ek: PrivateKey, spk: PrivateKey, maxSkipAlice: nat, maxSkipBob: nat)
    returns (p: Plan)
    requires ek != spk
    ensures InStep(Start(sk, ek, spk, maxSkipAlice, maxSkipBob), p)
  {
    var prekey := Epoch(spk, sk, sk, 0);
    p := Plan([prekey, Successor(prekey, ek)], 1, 0, [], {});
    assert Linked(p.es, 1);
    NothingMade(p.es, p.epochs, []);
  }

  lemma NothingMade(es: seq<Epoch>, epochs: seq<nat>, log: seq<Sent>)
    requires |es| == 2 && es[1].sent == 0
    ensures AllLogged(es, epochs, log)
  {
  }

  // ---------- What an event leaves as it is ----------

  /** Only the counts of the last two epochs change, so every frame in the log stays the honest one. */
  lemma LogStays(es: seq<Epoch>, fs: seq<Epoch>, epochs: seq<nat>, log: seq<Sent>)
    requires LogOk(es, epochs, log) && EpochsOk(es) && EpochsOk(fs) && |es| <= |fs|
    requires forall e | 0 <= e < |es| ::
               es[e].key == fs[e].key && es[e].chain == fs[e].chain && es[e].sent <= fs[e].sent
    requires forall e | 0 <= e < |es| - 2 :: es[e].sent == fs[e].sent
    ensures LogOk(fs, epochs, log)
  {
    forall i | 0 <= i < |log| ensures EntryOk(fs, epochs[i], log[i]) {
      EntryStays(es, fs, epochs[i], log[i]);
    }
  }

  lemma EntryStays(es: seq<Epoch>, fs: seq<Epoch>, e: nat, x: Sent)
    requires EntryOk(es, e, x) && EpochsOk(fs) && e < |fs|
    requires es[e].key == fs[e].key && es[e].chain == fs[e].chain && es[e].sent <= fs[e].sent
    requires PreviousCount(es, e) == PreviousCount(fs, e)
    ensures EntryOk(fs, e, x)
  {
  }

  /** A message that has not been sent has not been delivered. */
  lemma UnsentNotDone(es: seq<Epoch>, at: nat, s: State, done: set<Index>, x: Index)
    requires PartyAt(es, at, s, done)
    requires ReceiveEpoch(at) <= x.epoch < |es| && x.epoch % 2 == ReceiveEpoch(at) % 2
    requires es[x.epoch].sent <= x.n
    ensures x !in done
  {
    assert !InReach(es, at, s.nr, x);
  }

  /** The log with one more message, at the end of its sender's current epoch. */
  lemma LogGrows(es: seq<Epoch>, epochs: seq<nat>, log: seq<Sent>, c: nat, x: Sent, before: nat)
    requires LogOk(es, epochs, log) && LogOrdered(epochs, log) && EntryOk(es, c, x)
    requires before == x.wire.header.n
    requires forall i | 0 <= i < |log| && epochs[i] == c :: log[i].wire.header.n < before
    requires forall i | 0 <= i < |log| && log[i].from == x.from :: epochs[i] <= c
    ensures LogOk(es, epochs + [c], log + [x]) && LogOrdered(epochs + [c], log + [x])
  {
  }

  lemma DoneGrowsLog(p: Plan, log: seq<Sent>, delivered: set<nat>, c: nat, x: Sent, es': seq<Epoch>)
    requires DoneOk(p, log, delivered) && x.wire.Framed? && Index(c, x.wire.header.n) !in p.done
    requires forall i <- delivered :: i < |log|
    ensures DoneOk(p.(es := es', epochs := p.epochs + [c]), log + [x], delivered)
  {
    var p' := p.(es := es', epochs := p.epochs + [c]);
    forall i | 0 <= i < |log| ensures p'.IndexOf(log + [x], i) == p.IndexOf(log, i) {}
  }

  lemma SeenGrowsLog(p: Plan, log: seq<Sent>, seen: set<nat>, c: nat, x: Sent, es': seq<Epoch>)
    requires SeenOk(p, log, seen)
    ensures SeenOk(p.(es := es', epochs := p.epochs + [c]), log + [x], seen)
  {
    var p' := p.(es := es', epochs := p.epochs + [c]);
    forall q: Party ensures Brought(p', seen, q) {
      assert Brought(p, seen, q);
      if ReceiveEpoch(p.Own(q)) >= 2 {
        var i :| i in seen && i < |p.epochs| && p.epochs[i] == ReceiveEpoch(p.Own(q));
        assert p'.epochs[i] == ReceiveEpoch(p'.Own(q));
      }
    }
  }

  /** The message that makes an index is logged with it. */
  lemma LoggedGrows(es: seq<Epoch>, fs: seq<Epoch>, epochs: seq<nat>, log: seq<Sent>, c: nat, m: Sent)
    requires AllLogged(es, epochs, log) && |epochs| == |log| && c < |es| == |fs| && m.wire.Framed?
    requires m.wire.header.n == es[c].sent
    requires forall x | Made(fs, x) && !Made(es, x) :: x == Index(c, es[c].sent)
    ensures AllLogged(fs, epochs + [c], log + [m])
  {
    hide Made;
    forall x | Made(fs, x) ensures Logged(epochs + [c], log + [m], x) {
      if Made(es, x) { LoggedStays(epochs, log, c, m, x); } else {
        assert (epochs + [c])[|log|] == c && (log + [m])[|log|] == m;
      }
    }
  }

  lemma LoggedStays(epochs: seq<nat>, log: seq<Sent>, c: nat, m: Sent, x: Index)
    requires Logged(epochs, log, x) && |epochs| == |log|
    ensures Logged(epochs + [c], log + [m], x)
  {
    var i :| 0 <= i < |log| && i < |epochs| && log[i].wire.Framed? && x == Index(epochs[i], log[i].wire.header.n);
    assert (epochs + [c])[i] == epochs[i] && (log + [m])[i] == log[i];
  }

  /** A new epoch brings nothing that has been sent. */
  lemma LoggedTurns(es: seq<Epoch>, added: Epoch, epochs: seq<nat>, log: seq<Sent>)
    requires AllLogged(es, epochs, log) && added.sent == 0
    ensures AllLogged(es + [added], epochs, log)
  {
    hide Logged;
    forall x | Made(es + [added], x) ensures Logged(epochs, log, x) { assert Made(es, x); }
  }

  // ---------- Sending ----------

  function Counted(es: seq<Epoch>, a: nat): seq<Epoch>
    requires a < |es|
  {
    es[a := es[a].(sent := es[a].sent + 1)]
  }

  /** Sending at an epoch of one's own: what it does to the party and to its peer. */
  lemma SendKeepsParties(w: World, p: Plan, q: Party, plaintext: seq<byte>, ad: seq<byte>)
    requires InStep(w, p) && p.Own(q) > 0 && w.Of(q).ns + 1 < U32_LIMIT
    ensures var a := p.Own(q);
            var step := Sending(w, q, plaintext, ad);
            var es' := Counted(p.es, a);
            && EpochsOk(es')
            && PartyAt(es', a, step.state, p.done)
            && PartyAt(es', p.Own(Peer(q)), w.Of(Peer(q)), p.done)
            && step.state.nr == w.Of(q).nr
            && step.outcome == Ok(HonestFrame(es', Index(a, p.es[a].sent), plaintext, ad))
            && Index(a, p.es[a].sent) !in p.done
  {
    hide PartyAt, LogOk, DoneOk, SeenOk, AllLogged, LogOrdered, EpochsOk, HonestFrame, Encrypt;
    PartiesOf(w, p, q);
    PartiesOf(w, p, Peer(q));
    OwnEpochs(w, p, q);
    OwnCount(p.es, p.Own(q), w.Of(q), p.done);
    var a := p.Own(q);
    SendsInEpoch(p.es, a, w.Of(q), p.done, plaintext, ad, Private(w.nextKey));
    PeerSends(p.es, p.Own(Peer(q)), w.Of(Peer(q)), p.done, a);
    UnsentNotDone(p.es, p.Own(Peer(q)), w.Of(Peer(q)), p.done, Index(a, p.es[a].sent));
  }

  lemma SendKeepsLog(w: World, p: Plan, q: Party, m: Sent)
    requires InStep(w, p) && p.Own(q) > 0
    requires var es' := Counted(p.es, p.Own(q));
             && EpochsOk(es') && Index(p.Own(q), p.es[p.Own(q)].sent) !in p.done
             && m == Sent(q, m.plaintext, m.ad,
                          HonestFrame(es', Index(p.Own(q), p.es[p.Own(q)].sent), m.plaintext, m.ad))
    ensures var p' := p.(es := Counted(p.es, p.Own(q)), epochs := p.epochs + [p.Own(q)]);
            && LogOk(p'.es, p'.epochs, w.log + [m]) && LogOrdered(p'.epochs, w.log + [m])
            && DoneOk(p', w.log + [m], w.delivered) && SeenOk(p', w.log + [m], w.seen)
            && AllLogged(p'.es, p'.epochs, w.log + [m])
  {
    hide PartyAt, SeenOk, AllLogged;
    var a := p.Own(q);
    var es' := Counted(p.es, a);
    LogStays(p.es, es', p.epochs, w.log);
    EarlierInLog(w, p, q);
    LogGrows(es', p.epochs, w.log, a, m, p.es[a].sent);
    DoneGrowsLog(p, w.log, w.delivered, a, m, es');
    SeenGrowsLog(p, w.log, w.seen, a, m, es');
    LoggedGrows(p.es, es', p.epochs, w.log, a, m);
  }

  lemma SendStaysInStep(w: World, p: Plan, q: Party, plaintext: seq<byte>, ad: seq<byte>) returns (p': Plan)
    requires InStep(w, p) && p.Own(q) > 0 && w.Of(q).ns + 1 < U32_LIMIT
    ensures Sending(w, q, plaintext, ad).outcome.Ok?
    ensures InStep(Next(w, Send(q, plaintext, ad)), p')
    ensures InStep(Next(w, Send(q, plaintext, ad)).(nextKey := w.nextKey), p')
  {
    hide PartyAt, DoneOk, SeenOk, AllLogged, LogOk, LogOrdered, EpochsOk, Encrypt, HonestFrame;
    SendKeepsParties(w, p, q, plaintext, ad);
    SendKeepsLog(w, p, q, Sent(q, plaintext, ad, Sending(w, q, plaintext, ad).outcome.value));
    p' := p.(es := Counted(p.es, p.Own(q)), epochs := p.epochs + [p.Own(q)]);
  }

  lemma EarlierInLog(w: World, p: Plan, q: Party)
    requires InStep(w, p)
    ensures forall i | 0 <= i < |w.log| && p.epochs[i] == p.Own(q) :: w.log[i].wire.header.n < p.es[p.Own(q)].sent
    ensures forall i | 0 <= i < |w.log| && w.log[i].from == q :: p.epochs[i] <= p.Own(q)
  {
    hide PartyAt, DoneOk, SeenOk, AllLogged, LogOrdered, EpochsOk;
    forall i | 0 <= i < |w.log|
      ensures p.epochs[i] == p.Own(q) ==> w.log[i].wire.header.n < p.es[p.Own(q)].sent
      ensures w.log[i].from == q ==> p.epochs[i] <= p.Own(q)
    {
      assert EntryOk(p.es, p.epochs[i], w.log[i]);
    }
  }

  lemma OpeningKeepsParties(w: World, p: Plan)
    requires InStep(w, p) && p.bob == 0
    ensures var g := GenerateSendingChain(w.bob, Private(w.nextKey));
            var es' := p.es + [Successor(p.es[1], w.nextKey)];
            && g.outcome.Ok? && g.state.send.Some? && g.state.ns == 0 && w.bob.send.None?
            && EpochsOk(es') && PartyAt(es', 2, g.state, p.done) && PartyAt(es', 1, w.alice, p.done)
            && g.state.nr == w.bob.nr
  {
    hide BufferOk, LogOk, LogOrdered, DoneOk, SeenOk, AllLogged, EpochsOk;
    OpensFirstEpoch(p.es, w.bob, p.done, w.nextKey);
    PeerTurns(p.es, 1, w.alice, p.done, Successor(p.es[1], w.nextKey));
  }

  /** The responder's first sending opens an epoch before it sends. */
  lemma OpeningStaysInStep(w: World, p: Plan) returns (p': Plan)
    requires InStep(w, p) && p.bob == 0
    ensures var g := GenerateSendingChain(w.bob, Private(w.nextKey));
            && g.outcome.Ok? && g.state.send.Some? && g.state.ns == 0 && w.bob.send.None?
            && InStep(w.(bob := g.state, nextKey := w.nextKey + 1), p') && p'.bob == 2
  {
    hide PartyAt, LogOk, LogOrdered, DoneOk, SeenOk, AllLogged, GenerateSendingChain, EpochsOk;
    OpeningKeepsParties(w, p);
    p' := p.(es := p.es + [Successor(p.es[1], w.nextKey)], bob := 2);
    LogStays(p.es, p'.es, p.epochs, w.log);
    LoggedTurns(p.es, Successor(p.es[1], w.nextKey), p.epochs, w.log);
    SamePlanDone(p, p', w.log, w.delivered);
    SamePlanSeen(p, p', w.log, w.seen);
  }

  lemma SamePlanDone(p: Plan, p': Plan, log: seq<Sent>, delivered: set<nat>)
    requires DoneOk(p, log, delivered) && p'.epochs == p.epochs && p'.done == p.done
    ensures DoneOk(p', log, delivered)
  {
    forall i | 0 <= i < |log| ensures p'.IndexOf(log, i) == p.IndexOf(log, i) {}
  }

  /** A plan in which every party receives in the same epoch. */
  lemma SamePlanSeen(p: Plan, p': Plan, log: seq<Sent>, seen: set<nat>)
    requires SeenOk(p, log, seen) && p'.epochs == p.epochs
    requires forall q: Party :: ReceiveEpoch(p'.Own(q)) == ReceiveEpoch(p.Own(q))
    ensures SeenOk(p', log, seen)
  {
    forall q: Party ensures Brought(p', seen, q) { assert Brought(p, seen, q); }
  }

  /** Every send of an admissible run succeeds and keeps the parties in step. */
  lemma SendKeepsInStep(w: World, p: Plan, q: Party, plaintext: seq<byte>, ad: seq<byte>) returns (p': Plan)
    requires InStep(w, p) && w.Of(q).ns + 1 < U32_LIMIT
    ensures Sending(w, q, plaintext, ad).outcome.Ok?
    ensures InStep(Next(w, Send(q, plaintext, ad)), p')
  {
    hide PartyAt, LogOk, LogOrdered, DoneOk, SeenOk, AllLogged, EpochsOk;
    if p.Own(q) > 0 {
      p' := SendStaysInStep(w, p, q, plaintext, ad);
    } else {
      p' := OpeningStaysInStep(w, p);
      hide InStep;
      var g := GenerateSendingChain(w.bob, Private(w.nextKey));
      var w1 := w.(bob := g.state, nextKey := w.nextKey + 1);
      p' := SendStaysInStep(w1, p', Bob, plaintext, ad);
      assert Next(w, Send(Bob, plaintext, ad)) == Next(w1, Send(Bob, plaintext, ad)).(nextKey := w1.nextKey);
    }
  }

  // ---------- Delivering ----------

  lemma PartiesOf(w: World, p: Plan, q: Party)
    requires InStep(w, p)
    ensures EpochsOk(p.es) && PartyAt(p.es, p.Own(q), w.Of(q), p.done) && Tight(p.Own(q), w.Of(q).nr, p.done)
    ensures forall e | 0 <= e < |p.es| :: p.es[e].key != w.nextKey
  {
    hide PartyAt, LogOk, LogOrdered, DoneOk, SeenOk, AllLogged, EpochsOk, Tight;
  }

  lemma OwnEpochs(w: World, p: Plan, q: Party)
    requires InStep(w, p)
    ensures p.Own(q) < |p.es| && p.Own(Peer(q)) < |p.es| && ReceiveEpoch(p.Own(q)) < |p.es|
    ensures p.Own(q) == p.Own(Peer(q)) + 1 || p.Own(Peer(q)) == p.Own(q) + 1
    ensures p.Own(q) == p.Own(Peer(q)) + 1 || p.Own(Peer(q)) + 1 == |p.es|
    ensures p.Own(q) % 2 == if q.Alice? then 1 else 0
  {
    hide PartyAt, LogOk, LogOrdered, DoneOk, SeenOk, AllLogged, EpochsOk;
  }

  lemma OwnCount(es: seq<Epoch>, at: nat, s: State, done: set<Index>)
    requires PartyAt(es, at, s, done)
    ensures at < |es| && ReceiveEpoch(at) < |es| && s.ns == es[at].sent
  {
    hide BufferOk;
  }

  /** Where a message in the log stands from its receiver's point of view. */
  lemma EntryFacts(w: World, p: Plan, i: nat)
    requires InStep(w, p) && i < |w.log|
    ensures |p.epochs| == |w.log| && EntryOk(p.es, p.epochs[i], w.log[i])
    ensures var q := Peer(w.log[i].from);
            var r := ReceiveEpoch(p.Own(q));
            && r < |p.es| && p.epochs[i] % 2 == r % 2
            && p.epochs[i] % 2 != ReceiveEpoch(p.Own(Peer(q))) % 2
            && (p.epochs[i] > r ==>
                  p.epochs[i] == r + 2 == p.Own(Peer(q)) == p.Own(q) + 1 && 0 < p.Own(q) && p.Own(q) + 2 == |p.es|)
            && (i in w.delivered <==> p.IndexOf(w.log, i) in p.done)
  {
    hide PartyAt, LogOrdered, EpochsOk, SeenOk, AllLogged;
  }

  /** A message is superseded exactly when its epoch is one the receiver has left. */
  lemma SupersededEpoch(w: World, p: Plan, i: nat)
    requires InStep(w, p) && i < |w.log| && w.log[i].wire.Framed?
    ensures |p.epochs| == |w.log|
    ensures Superseded(w, i) <==> p.epochs[i] < ReceiveEpoch(p.Own(Peer(w.log[i].from)))
  {
    hide InStep, EntryOk;
    var q := Peer(w.log[i].from);
    EntryFacts(w, p, i);
    if p.epochs[i] < ReceiveEpoch(p.Own(q)) {
      var j := ReachedByMessage(w, p, q);
      EntryFacts(w, p, j);
      EntryFramed(p.es, p.epochs[j], w.log[j]);
      SameSender(p.epochs[i], w.log[i], p.epochs[j], w.log[j], p.es);
      LaterInLog(w, p, i, j);
    }
    if Superseded(w, i) {
      var j :| j in w.seen && i < j < |w.log| && w.log[j].from == w.log[i].from
               && w.log[j].wire.Framed? && w.log[j].wire.header.dh != w.log[i].wire.header.dh;
      EntryFacts(w, p, j);
      SeenInReach(w, p, j);
      LaterInLog(w, p, i, j);
    }
  }

  lemma EntryFramed(es: seq<Epoch>, e: nat, m: Sent)
    requires EntryOk(es, e, m)
    ensures 0 < e < |es| && m.wire.Framed? && m.wire.header.n < es[e].sent && m.from == Owner(e)
    ensures m.wire.header == Header(PublicOf(es[e].key), PreviousCount(es, e), m.wire.header.n)
  {
  }

  lemma SameSender(d: nat, a: Sent, e: nat, b: Sent, es: seq<Epoch>)
    requires EntryOk(es, d, a) && EntryOk(es, e, b)
    ensures d % 2 == e % 2 <==> a.from == b.from
  {
    hide EpochsOk, HonestFrame;
  }

  lemma ReachedByMessage(w: World, p: Plan, q: Party) returns (j: nat)
    requires InStep(w, p) && ReceiveEpoch(p.Own(q)) >= 2
    ensures |p.epochs| == |w.log| && j in w.seen && j < |w.log| && p.epochs[j] == ReceiveEpoch(p.Own(q))
  {
    hide PartyAt, LogOrdered, EpochsOk, LogOk, DoneOk, AllLogged;
    assert Brought(p, w.seen, q);
    j :| j in w.seen && j < |p.epochs| && p.epochs[j] == ReceiveEpoch(p.Own(q));
  }

  lemma SeenInReach(w: World, p: Plan, j: nat)
    requires InStep(w, p) && j in w.seen && j < |w.log|
    ensures |p.epochs| == |w.log| && p.epochs[j] <= ReceiveEpoch(p.Own(Peer(w.log[j].from)))
  {
    hide PartyAt, LogOrdered, EpochsOk, LogOk, DoneOk, AllLogged;
  }

  /** Two messages of one sender: the order in the log is the order of epochs and indices, and other
      epochs have other keys. */
  lemma LaterInLog(w: World, p: Plan, i: nat, j: nat)
    requires InStep(w, p) && i < |w.log| && j < |w.log| && w.log[i].from == w.log[j].from
    requires |p.epochs| == |w.log| && EntryOk(p.es, p.epochs[i], w.log[i]) && EntryOk(p.es, p.epochs[j], w.log[j])
    ensures p.epochs[i] < p.epochs[j] ==> i < j
    ensures i < j ==> p.epochs[i] <= p.epochs[j]
    ensures w.log[i].wire.header.dh != w.log[j].wire.header.dh <==> p.epochs[i] != p.epochs[j]
    ensures i != j ==> p.IndexOf(w.log, i) != p.IndexOf(w.log, j)
    ensures p.epochs[i] == p.epochs[j] ==> (i < j <==> w.log[i].wire.header.n < w.log[j].wire.header.n)
  {
    hide PartyAt, LogOk, DoneOk, SeenOk, AllLogged, EpochsOk;
    EntryFramed(p.es, p.epochs[i], w.log[i]);
    EntryFramed(p.es, p.epochs[j], w.log[j]);
    if p.epochs[i] != p.epochs[j] { OtherEpochOtherKey(p.es, p.epochs[i], p.epochs[j]); }
  }

  lemma OtherEpochOtherKey(es: seq<Epoch>, d: nat, e: nat)
    requires EpochsOk(es) && d < |es| && e < |es| && d != e
    ensures es[d].key != es[e].key
  {
    hide Linked;
  }

  /** What a delivery that is not superseded comes to, whether or not it fits: the plaintext comes out
      of a first delivery if and only if the buffer has room, and a repeated delivery is refused
      without a change. */
  lemma DeliveryExact(w: World, p: Plan, i: nat)
    requires InStep(w, p) && i < |w.log| && w.log[i].wire.Framed? && !Superseded(w, i)
    ensures var s := w.Of(Peer(w.log[i].from));
            var step := Delivering(w, i);
            if i in w.delivered then step == Step(s, Err(Replayed)) && !Tears(s, w.log[i].wire.header)
            else if HasRoom(s, w.log[i].wire.header) then step.outcome == Ok(w.log[i].plaintext)
            else step.outcome in {Err(SkipBound), Err(TooFarAhead), Err(SkipBufferExhausted)}
  {
    hide InStep, PartyAt, Decrypt, HasRoom, Tears, Superseded, EpochsOk, HonestFrame, Successor;
    var m := w.log[i];
    var q := Peer(m.from);
    EntryFacts(w, p, i);
    SupersededEpoch(w, p, i);
    PartiesOf(w, p, q);
    if p.epochs[i] == ReceiveEpoch(p.Own(q)) {
      DeliversInEpoch(p.es, p.Own(q), w.Of(q), p.done, p.IndexOf(w.log, i), m.plaintext, m.ad, Private(w.nextKey));
    } else {
      DeliversNextEpoch(p.es, p.Own(q), w.Of(q), p.done, p.IndexOf(w.log, i), m.plaintext, m.ad, w.nextKey);
    }
  }

  /** The delivery turns the receiver to the next epoch. */
  predicate Turns(w: World, p: Plan, i: nat)
    requires i < |w.log| && i < |p.epochs|
  {
    p.epochs[i] != ReceiveEpoch(p.Own(Peer(w.log[i].from))) && Knows(Delivering(w, i).state, w.log[i].wire)
  }

  /** The plan after a delivery. */
  function PlanAfter(w: World, p: Plan, i: nat): Plan
    requires i < |w.log| && i < |p.epochs| && w.log[i].wire.Framed?
    requires |p.es| > 0
  {
    var p1 := if Delivering(w, i).outcome.Ok? then p.(done := p.done + {p.IndexOf(w.log, i)}) else p;
    if !Turns(w, p, i) then p1
    else
      var es' := p.es + [Successor(p.es[|p.es| - 1], w.nextKey)];
      if w.log[i].from.Bob? then p1.(es := es', alice := p.alice + 2) else p1.(es := es', bob := p.bob + 2)
  }

  lemma PlanShape(w: World, p: Plan, i: nat)
    requires i < |w.log| && i < |p.epochs| && w.log[i].wire.Framed? && |p.es| > 0
    ensures var p' := PlanAfter(w, p, i);
            var q := Peer(w.log[i].from);
            && p'.epochs == p.epochs
            && p'.done == (if Delivering(w, i).outcome.Ok? then p.done + {p.IndexOf(w.log, i)} else p.done)
            && p'.es == (if Turns(w, p, i) then p.es + [Successor(p.es[|p.es| - 1], w.nextKey)] else p.es)
            && p'.Own(q) == (if Turns(w, p, i) then p.Own(q) + 2 else p.Own(q))
            && p'.Own(w.log[i].from) == p.Own(w.log[i].from)
  {
    hide Turns, Delivering, Successor;
  }

  /** What a delivery does to the two parties. */
  ghost predicate PartiesKept(w: World, p: Plan, i: nat)
    requires i < |w.log| && i < |p.epochs| && w.log[i].wire.Framed?
  {
    var q, from := Peer(w.log[i].from), w.log[i].from;
    var step := Delivering(w, i);
    && |p.es| > 0
    && var p' := PlanAfter(w, p, i);
    && EpochsOk(p'.es)
    && PartyAt(p'.es, p'.Own(q), step.state, p'.done) && Tight(p'.Own(q), step.state.nr, p'.done)
    && PartyAt(p'.es, p'.Own(from), w.Of(from), p'.done) && Tight(p'.Own(from), w.Of(from).nr, p'.done)
    && (Knows(step.state, w.log[i].wire) ==> p.epochs[i] <= ReceiveEpoch(p'.Own(q)))
    && (step.outcome.Ok? ==> i !in w.delivered)
  }

  lemma DeliveryKeepsParties(w: World, p: Plan, i: nat)
    requires InStep(w, p) && i < |w.log| && w.log[i].wire.Framed? && !Superseded(w, i)
    requires !Tears(w.Of(Peer(w.log[i].from)), w.log[i].wire.header)
    ensures i < |p.epochs| && PartiesKept(w, p, i)
  {
    hide InStep, PartyAt, EpochsOk, HasRoom, Tears, Superseded, Delivering, PartiesKept, EntryOk, Tight;
    EntryFacts(w, p, i);
    SupersededEpoch(w, p, i);
    PartiesOf(w, p, w.log[i].from);
    PartiesOf(w, p, Peer(w.log[i].from));
    if p.epochs[i] == ReceiveEpoch(p.Own(Peer(w.log[i].from))) {
      ReceiverInEpoch(w, p, i);
    } else {
      ReceiverTurns(w, p, i);
    }
  }

  lemma TightGrows(at: nat, nr: nat, done: set<Index>, x: Index)
    requires Tight(at, nr, done)
    ensures Tight(at, nr, done + {x})
  {
  }

  /** The frame of the log that a party receives. */
  ghost predicate Receives(w: World, p: Plan, i: nat) {
    && i < |w.log| && i < |p.epochs| && EpochsOk(p.es) && EntryOk(p.es, p.epochs[i], w.log[i])
    && var m := w.log[i]; var q := Peer(m.from);
    && PartyAt(p.es, p.Own(q), w.Of(q), p.done) && PartyAt(p.es, p.Own(m.from), w.Of(m.from), p.done)
    && Tight(p.Own(q), w.Of(q).nr, p.done) && Tight(p.Own(m.from), w.Of(m.from).nr, p.done)
    && p.epochs[i] % 2 != ReceiveEpoch(p.Own(m.from)) % 2
    && (i in w.delivered <==> p.IndexOf(w.log, i) in p.done) && !Tears(w.Of(q), m.wire.header)
  }

  lemma EntryIs(es: seq<Epoch>, e: nat, m: Sent)
    requires EntryOk(es, e, m)
    ensures EpochsOk(es) && 0 < e < |es| && m.wire.Framed? && m.wire.header.n < es[e].sent
    ensures m.wire == HonestFrame(es, Index(e, m.wire.header.n), m.plaintext, m.ad)
  {
    hide HonestFrame, EpochsOk;
  }

  lemma StepInEpoch(w: World, p: Plan, i: nat)
    requires Receives(w, p, i) && p.epochs[i] == ReceiveEpoch(p.Own(Peer(w.log[i].from)))
    ensures var q := Peer(w.log[i].from);
            var step := Delivering(w, i);
            var x := p.IndexOf(w.log, i);
            && Knows(w.Of(q), w.log[i].wire)
            && if step.outcome.Ok?
               then && i !in w.delivered && PartyAt(p.es, p.Own(q), step.state, p.done + {x})
                    && step.state.nr == if x.n < w.Of(q).nr then w.Of(q).nr else x.n + 1
               else step.state == w.Of(q)
  {
    var m := w.log[i];
    EntryIs(p.es, p.epochs[i], m);
    hide PartyAt, Decrypt, HasRoom, Tears, EpochsOk, HonestFrame, PreviousCount, EntryOk, Tight;
    var q := Peer(m.from);
    DeliversInEpoch(p.es, p.Own(q), w.Of(q), p.done, p.IndexOf(w.log, i), m.plaintext, m.ad, Private(w.nextKey));
  }

  lemma ReceiverInEpoch(w: World, p: Plan, i: nat)
    requires Receives(w, p, i) && p.epochs[i] == ReceiveEpoch(p.Own(Peer(w.log[i].from)))
    ensures PartiesKept(w, p, i)
  {
    hide PartyAt, Delivering, EpochsOk, EntryOk, Tight, Tears, PlanAfter, PartiesKept, Knows;
    StepInEpoch(w, p, i);
    EntryIs(p.es, p.epochs[i], w.log[i]);
    var m := w.log[i];
    var q := Peer(m.from);
    var x := p.IndexOf(w.log, i);
    if Delivering(w, i).outcome.Ok? {
      PeerReceives(p.es, p.Own(m.from), w.Of(m.from), p.done, x);
      TightGrows(p.Own(m.from), w.Of(m.from).nr, p.done, x);
      TightAt(p.Own(q), w.Of(q).nr, x.n, p.done);
      StayingIsKept(w, p, i, p.done + {x});
    } else {
      StayingIsKept(w, p, i, p.done);
    }
  }

  lemma StayingIsKept(w: World, p: Plan, i: nat, done: set<Index>)
    requires i < |w.log| && i < |p.epochs| && EntryOk(p.es, p.epochs[i], w.log[i])
    requires p.epochs[i] == ReceiveEpoch(p.Own(Peer(w.log[i].from)))
    requires done == if Delivering(w, i).outcome.Ok? then p.done + {p.IndexOf(w.log, i)} else p.done
    requires Delivering(w, i).outcome.Ok? ==> i !in w.delivered
    requires var q, from := Peer(w.log[i].from), w.log[i].from;
             var step := Delivering(w, i);
             && EpochsOk(p.es)
             && PartyAt(p.es, p.Own(q), step.state, done) && Tight(p.Own(q), step.state.nr, done)
             && PartyAt(p.es, p.Own(from), w.Of(from), done) && Tight(p.Own(from), w.Of(from).nr, done)
    ensures PartiesKept(w, p, i)
  {
    hide PartyAt, Delivering, EpochsOk, EntryOk, Tight, PlanAfter, Knows;
    EntryIs(p.es, p.epochs[i], w.log[i]);
    PlanShape(w, p, i);
  }

  lemma TightAt(at: nat, nr: nat, n: nat, done: set<Index>)
    requires Tight(at, nr, done)
    ensures Tight(at, if n < nr then nr else n + 1, done + {Index(ReceiveEpoch(at), n)})
  {
  }

  /** The message is of the peer's next epoch. */
  predicate IsNext(w: World, p: Plan, i: nat)
    requires i < |w.log| && i < |p.epochs|
  {
    var q := Peer(w.log[i].from);
    p.epochs[i] == p.Own(w.log[i].from) == p.Own(q) + 1 && p.Own(q) + 2 == |p.es| && p.Own(q) > 0
  }

  lemma StepToNextEpoch(w: World, p: Plan, i: nat)
    requires Receives(w, p, i) && forall e | 0 <= e < |p.es| :: p.es[e].key != w.nextKey
    requires IsNext(w, p, i)
    ensures var q := Peer(w.log[i].from);
            var step := Delivering(w, i);
            var x := p.IndexOf(w.log, i);
            var es' := p.es + [Successor(p.es[|p.es| - 1], w.nextKey)];
            && EpochsOk(es') && i !in w.delivered && !Knows(w.Of(q), w.log[i].wire)
            && if step.outcome.Ok?
               then PartyAt(es', p.Own(q) + 2, step.state, p.done + {x}) && step.state.nr == x.n + 1
               else step.state == w.Of(q)
                    || (PartyAt(es', p.Own(q) + 2, step.state, p.done) && step.state.nr == 0)
  {
    var m := w.log[i];
    EntryIs(p.es, p.epochs[i], m);
    hide PartyAt, Decrypt, HasRoom, Tears, EpochsOk, HonestFrame, PreviousCount, EntryOk, Tight, Successor;
    var q := Peer(m.from);
    DeliversNextEpoch(p.es, p.Own(q), w.Of(q), p.done, p.IndexOf(w.log, i), m.plaintext, m.ad, w.nextKey);
  }

  lemma ReceiverTurns(w: World, p: Plan, i: nat)
    requires Receives(w, p, i) && forall e | 0 <= e < |p.es| :: p.es[e].key != w.nextKey
    requires IsNext(w, p, i)
    ensures PartiesKept(w, p, i)
  {
    hide PartyAt, Delivering, EpochsOk, EntryOk, Tight, Tears, Successor, PlanAfter, PartiesKept, Knows;
    StepToNextEpoch(w, p, i);
    EntryIs(p.es, p.epochs[i], w.log[i]);
    var m := w.log[i];
    var q := Peer(m.from);
    var x := p.IndexOf(w.log, i);
    var step := Delivering(w, i);
    TightAfterTurn(p.Own(q), x.n, p.done);
    if step.outcome.Ok? {
      PeerReceives(p.es, p.Own(m.from), w.Of(m.from), p.done, x);
      TightGrows(p.Own(m.from), w.Of(m.from).nr, p.done, x);
      TurnedIsKept(w, p, i, p.done + {x});
    } else if step.state != w.Of(q) {
      TurnedIsKept(w, p, i, p.done);
    } else {
      UnturnedIsKept(w, p, i);
    }
  }

  lemma TurnedIsKept(w: World, p: Plan, i: nat, done: set<Index>)
    requires i < |w.log| && i < |p.epochs| && EntryOk(p.es, p.epochs[i], w.log[i]) && IsNext(w, p, i)
    requires done == if Delivering(w, i).outcome.Ok? then p.done + {p.IndexOf(w.log, i)} else p.done
    requires var q, from := Peer(w.log[i].from), w.log[i].from;
             var step := Delivering(w, i);
             var es' := p.es + [Successor(p.es[|p.es| - 1], w.nextKey)];
             && EpochsOk(es') && i !in w.delivered
             && PartyAt(es', p.Own(q) + 2, step.state, done) && Tight(p.Own(q) + 2, step.state.nr, done)
             && PartyAt(p.es, p.Own(from), w.Of(from), done) && Tight(p.Own(from), w.Of(from).nr, done)
    ensures PartiesKept(w, p, i)
  {
    EntryFramed(p.es, p.epochs[i], w.log[i]);
    hide PartyAt, Delivering, EpochsOk, EntryOk, Tight, Successor, PlanAfter;
    var q, from := Peer(w.log[i].from), w.log[i].from;
    var added := Successor(p.es[|p.es| - 1], w.nextKey);
    PeerTurns(p.es, p.Own(from), w.Of(from), done, added);
    StandsAt(p.es + [added], p.Own(q) + 2, Delivering(w, i).state, done);
    PlanShape(w, p, i);
  }

  lemma UnturnedIsKept(w: World, p: Plan, i: nat)
    requires Receives(w, p, i) && IsNext(w, p, i) && !Delivering(w, i).outcome.Ok?
    requires var q := Peer(w.log[i].from); Delivering(w, i).state == w.Of(q) && !Knows(w.Of(q), w.log[i].wire)
    ensures PartiesKept(w, p, i)
  {
    EntryFramed(p.es, p.epochs[i], w.log[i]);
    hide PartyAt, Delivering, EpochsOk, EntryOk, Tight, Tears, PlanAfter, Knows;
    PlanShape(w, p, i);
  }

  lemma StandsAt(es: seq<Epoch>, at: nat, s: State, done: set<Index>)
    requires PartyAt(es, at, s, done)
    ensures ReceiveEpoch(at) < |es| && s.remote == Some(PublicOf(es[ReceiveEpoch(at)].key))
  {
    hide BufferOk;
  }

  lemma TightAfterTurn(at: nat, n: nat, done: set<Index>)
    requires at > 0
    ensures Tight(at + 2, n + 1, done + {Index(at + 1, n)}) && Tight(at + 2, 0, done)
  {
  }

  lemma DeliveryKeepsDone(w: World, p: Plan, i: nat)
    requires InStep(w, p) && i < |w.log| && w.log[i].wire.Framed? && i < |p.epochs| && |p.es| > 0
    ensures DoneOk(PlanAfter(w, p, i), w.log, Next(w, Deliver(i)).delivered)
  {
    hide InStep, Delivering, EntryOk;
    var p' := PlanAfter(w, p, i);
    DonePart(w, p);
    forall j | 0 <= j < |w.log|
      ensures w.log[j].wire.Framed? && (j in Next(w, Deliver(i)).delivered <==> p'.IndexOf(w.log, j) in p'.done)
    {
      EntryFacts(w, p, i);
      EntryFacts(w, p, j);
      if j != i && p.IndexOf(w.log, i) == p.IndexOf(w.log, j) {
        SameSender(p.epochs[i], w.log[i], p.epochs[j], w.log[j], p.es);
        LaterInLog(w, p, i, j);
      }
    }
  }

  lemma DonePart(w: World, p: Plan)
    requires InStep(w, p)
    ensures DoneOk(p, w.log, w.delivered) && SeenOk(p, w.log, w.seen) && AllLogged(p.es, p.epochs, w.log)
  {
    hide PartyAt, LogOk, LogOrdered, DoneOk, SeenOk, AllLogged, EpochsOk;
  }

  /** The plan with another epoch for one party at most. */
  lemma SeenGrows(p: Plan, p': Plan, log: seq<Sent>, seen: set<nat>, i: nat, knows: bool)
    requires SeenOk(p, log, seen) && p'.epochs == p.epochs && i < |log|
    requires forall q: Party :: p'.Own(q) == p.Own(q)
               || (q == Peer(log[i].from) && knows && p'.epochs[i] == ReceiveEpoch(p'.Own(q)) >= ReceiveEpoch(p.Own(q)))
    requires knows ==> p.epochs[i] <= ReceiveEpoch(p'.Own(Peer(log[i].from)))
    ensures SeenOk(p', log, if knows then seen + {i} else seen)
  {
    var seen' := if knows then seen + {i} else seen;
    forall q: Party ensures Brought(p', seen', q) {
      assert Brought(p, seen, q);
      if p'.Own(q) != p.Own(q) {
        assert i in seen' && p'.epochs[i] == ReceiveEpoch(p'.Own(q));
      } else if ReceiveEpoch(p.Own(q)) >= 2 {
        var j :| j in seen && j < |p.epochs| && p.epochs[j] == ReceiveEpoch(p.Own(q));
        assert j in seen' && p'.epochs[j] == ReceiveEpoch(p'.Own(q));
      }
    }
  }

  lemma NextSeen(w: World, i: nat)
    requires i < |w.log|
    ensures Next(w, Deliver(i)).seen
         == if Knows(Delivering(w, i).state, w.log[i].wire) then w.seen + {i} else w.seen
  {
    hide Delivering, Knows;
  }

  lemma LogSize(w: World, p: Plan)
    requires InStep(w, p)
    ensures |w.log| == |p.epochs| && |p.es| >= 2
  {
    hide PartyAt, LogOrdered, DoneOk, SeenOk, AllLogged;
  }

  lemma PlanOwns(w: World, p: Plan, i: nat)
    requires i < |w.log| && w.log[i].wire.Framed? && i < |p.epochs| && PartiesKept(w, p, i)
    requires var q := Peer(w.log[i].from);
             p.epochs[i] == ReceiveEpoch(p.Own(q)) || (p.epochs[i] == p.Own(q) + 1 && p.Own(q) > 0)
    ensures |p.es| > 0
    ensures var p' := PlanAfter(w, p, i);
            var knows := Knows(Delivering(w, i).state, w.log[i].wire);
            && p'.epochs == p.epochs
            && (knows ==> p.epochs[i] <= ReceiveEpoch(p'.Own(Peer(w.log[i].from))))
            && forall q: Party :: p'.Own(q) == p.Own(q)
                 || (q == Peer(w.log[i].from) && knows
                     && p'.epochs[i] == ReceiveEpoch(p'.Own(q)) >= ReceiveEpoch(p.Own(q)))
  {
    hide Delivering, PartyAt, EpochsOk, Tight, Knows, PlanAfter;
    PlanShape(w, p, i);
  }

  lemma DeliveryKeepsSeen(w: World, p: Plan, i: nat)
    requires InStep(w, p) && i < |w.log| && w.log[i].wire.Framed? && i < |p.epochs| && PartiesKept(w, p, i)
    requires var q := Peer(w.log[i].from);
             p.epochs[i] == ReceiveEpoch(p.Own(q)) || (p.epochs[i] == p.Own(q) + 1 && p.Own(q) > 0)
    ensures SeenOk(PlanAfter(w, p, i), w.log, Next(w, Deliver(i)).seen)
  {
    hide *;
    DonePart(w, p);
    NextSeen(w, i);
    PlanOwns(w, p, i);
    LogSize(w, p);
    SeenGrows(p, PlanAfter(w, p, i), w.log, w.seen, i, Knows(Delivering(w, i).state, w.log[i].wire));
  }

  /** After a delivery the last two epochs are still the parties' own. */
  lemma DeliveryKeepsLog(w: World, p: Plan, i: nat)
    requires InStep(w, p) && i < |w.log| && w.log[i].wire.Framed? && !Superseded(w, i) && i < |p.epochs|
    requires |p.es| > 0 && EpochsOk(PlanAfter(w, p, i).es)
    ensures var p' := PlanAfter(w, p, i);
            LogOk(p'.es, p'.epochs, w.log) && LogOrdered(p'.epochs, w.log) && AllLogged(p'.es, p'.epochs, w.log)
    ensures LastTwo(PlanAfter(w, p, i), w.nextKey + 1)
  {
    hide InStep, LogOk, LogOrdered, AllLogged, Superseded, EpochsOk, Delivering, EntryOk, PlanAfter, Knows;
    EntryFacts(w, p, i);
    SupersededEpoch(w, p, i);
    LogPart(w, p);
    DonePart(w, p);
    PlanShape(w, p, i);
    if Turns(w, p, i) {
      AddedStays(p.es, Successor(p.es[|p.es| - 1], w.nextKey), p.epochs, w.log);
      LoggedTurns(p.es, Successor(p.es[|p.es| - 1], w.nextKey), p.epochs, w.log);
      SuccessorShape(p.es[|p.es| - 1], w.nextKey);
    }
  }

  lemma AddedStays(es: seq<Epoch>, added: Epoch, epochs: seq<nat>, log: seq<Sent>)
    requires LogOk(es, epochs, log) && EpochsOk(es) && EpochsOk(es + [added])
    ensures LogOk(es + [added], epochs, log)
  {
    hide LogOk, EpochsOk;
    LogStays(es, es + [added], epochs, log);
  }

  lemma LogPart(w: World, p: Plan)
    requires InStep(w, p)
    ensures EpochsOk(p.es) && LogOk(p.es, p.epochs, w.log) && LogOrdered(p.epochs, w.log) && LastTwo(p, w.nextKey)
  {
    hide PartyAt, LogOk, LogOrdered, DoneOk, SeenOk, AllLogged, EpochsOk;
  }

  /** A superseded delivery whose turn is refused before it buffers a key changes nothing. */
  lemma LateRefusal(w: World, p: Plan, i: nat)
    requires InStep(w, p) && i < |w.log| && w.log[i].wire.Framed? && Superseded(w, i)
    requires TurnRefused(w.Of(Peer(w.log[i].from)), w.log[i].wire.header)
    ensures var s := w.Of(Peer(w.log[i].from));
            && Delivering(w, i).state == s && !Knows(s, w.log[i].wire)
            && Delivering(w, i).outcome in {Err(SkipBound), Err(SkipBufferExhausted)}
    ensures InStep(Next(w, Deliver(i)), p)
  {
    hide InStep, PartyAt, EpochsOk, EntryOk, Superseded, TurnRefused, TurnTo, Receive, Knows;
    var q := Peer(w.log[i].from);
    EntryFacts(w, p, i);
    EntryFramed(p.es, p.epochs[i], w.log[i]);
    SupersededEpoch(w, p, i);
    PartiesOf(w, p, q);
    OtherEpochOtherKey(p.es, p.epochs[i], ReceiveEpoch(p.Own(q)));
    RefusedTurnStays(p.es, p.Own(q), w.Of(q), p.done, w.log[i].wire, Private(w.nextKey));
    KeysStayFresh(w, p);
    NextUnchanged(w, i);
  }

  lemma NextUnchanged(w: World, i: nat)
    requires i < |w.log|
    requires Delivering(w, i).state == w.Of(Peer(w.log[i].from)) && Delivering(w, i).outcome.Err?
    requires !Knows(Delivering(w, i).state, w.log[i].wire)
    ensures Next(w, Deliver(i)) == w.(nextKey := w.nextKey + 1)
  {
    hide Delivering, Knows;
  }

  lemma KeysStayFresh(w: World, p: Plan)
    requires InStep(w, p)
    ensures InStep(w.(nextKey := w.nextKey + 1), p)
  {
    hide PartyAt, LogOk, LogOrdered, DoneOk, SeenOk, AllLogged, EpochsOk;
  }

  lemma RefusedTurnStays(es: seq<Epoch>, at: nat, s: State, done: set<Index>, wire: Wire, draw: Draw)
    requires EpochsOk(es) && PartyAt(es, at, s, done) && ReceiveEpoch(at) < |es|
    requires wire.Framed? && wire.header.dh != PublicOf(es[ReceiveEpoch(at)].key)
    requires ReceiveEpoch(at) > 0 && TurnRefused(s, wire.header)
    ensures forall ad :: Decrypt(s, wire, ad, draw).state == s
    ensures forall ad :: Decrypt(s, wire, ad, draw).outcome in {Err(SkipBound), Err(SkipBufferExhausted)}
    ensures !Knows(s, wire)
  {
    hide EpochsOk, BufferOk, BufferKeys;
    var k := BufferKeys(s.recv.value, s.remote, s.nr, wire.header.pn, s.skipped, s.maxSkip);
    SkipFits(es, at, s.nr, wire.header.pn, s.skipped, s.maxSkip, done, k);
  }

  /** Every delivery of an admissible run keeps the parties in step. */
  lemma DeliverKeepsInStep(w: World, p: Plan, i: nat) returns (p': Plan)
    requires InStep(w, p) && Admissible(w, Deliver(i))
    ensures InStep(Next(w, Deliver(i)), p')
  {
    hide InStep, TurnRefused, Tears, Superseded, Next;
    if Superseded(w, i) {
      LateRefusal(w, p, i);
      p' := p;
    } else {
      p' := TimelyKeepsInStep(w, p, i);
    }
  }

  lemma TimelyKeepsInStep(w: World, p: Plan, i: nat) returns (p': Plan)
    requires InStep(w, p) && i < |w.log| && w.log[i].wire.Framed? && !Superseded(w, i)
    requires !Tears(w.Of(Peer(w.log[i].from)), w.log[i].wire.header)
    ensures InStep(Next(w, Deliver(i)), p')
  {
    hide PartyAt, LogOk, LogOrdered, DoneOk, SeenOk, AllLogged, EpochsOk, Delivering, Superseded, Tears, Tight;
    EntryFacts(w, p, i);
    SupersededEpoch(w, p, i);
    DeliveryKeepsParties(w, p, i);
    DeliveryKeepsDone(w, p, i);
    DeliveryKeepsSeen(w, p, i);
    DeliveryKeepsLog(w, p, i);
    p' := PlanAfter(w, p, i);
  }

  // ---------- Runs ----------

  lemma EventKeepsInStep(w: World, p: Plan, event: Event) returns (p': Plan)
    requires InStep(w, p) && Admissible(w, event)
    ensures InStep(Next(w, event), p')
  {
    hide InStep, Next;
    match event
    case Send(q, plaintext, ad) => p' := SendKeepsInStep(w, p, q, plaintext, ad);
    case Deliver(i) => p' := DeliverKeepsInStep(w, p, i);
  }

  /** In every admissible run the two parties stay in step. */
  lemma {:induction false} RunKeepsInStep(w: World, p: Plan, events: seq<Event>) returns (p': Plan)
    requires InStep(w, p) && AdmissibleRun(w, events)
    ensures InStep(Run(w, events), p')
    decreases |events|
  {
    hide InStep;
    if events == [] {
      p' := p;
    } else {
      p' := EventKeepsInStep(w, p, events[0]);
      p' := RunKeepsInStep(Next(w, events[0]), p', events[1..]);
    }
  }

  /** The world is that of a handshake. */
  ghost predicate Begins(w: World) {
    exists sk, ek, spk, maxSkipAlice, maxSkipBob :: ek != spk && w == Start(sk, ek, spk, maxSkipAlice, maxSkipBob)
  }

  ghost predicate Leads(start: World, events: seq<Event>, w: World) {
    AdmissibleRun(start, events) && w == Run(start, events)
  }

  /** Some admissible run leads from a handshake to the world. */
  ghost predicate Reachable(w: World) {
    exists start, events :: Begins(start) && Leads(start, events, w)
  }

  lemma ReachableInStep(w: World) returns (p: Plan)
    requires Reachable(w)
    ensures InStep(w, p)
  {
    hide InStep, Start, AdmissibleRun, Run;
    var start, events :| Begins(start) && Leads(start, events, w);
    var sk, ek, spk, maxSkipAlice, maxSkipBob :| ek != spk && start == Start(sk, ek, spk, maxSkipAlice, maxSkipBob);
    p := StartsInStep(sk, ek, spk, maxSkipAlice, maxSkipBob);
    p := RunKeepsInStep(start, p, events);
  }

  lemma {:induction false} RunExtends(w: World, events: seq<Event>, event: Event)
    requires AdmissibleRun(w, events) && Admissible(Run(w, events), event)
    ensures AdmissibleRun(w, events + [event]) && Run(w, events + [event]) == Next(Run(w, events), event)
    decreases |events|
  {
    hide Admissible, Next;
    if events == [] {
      assert [event][1..] == [];
      assert AdmissibleRun(Next(w, event), []);
    } else {
      RunExtends(Next(w, events[0]), events[1..], event);
      assert (events + [event])[1..] == events[1..] + [event];
    }
  }

  lemma ReachableExtends(w: World, event: Event)
    requires Reachable(w) && Admissible(w, event)
    ensures Reachable(Next(w, event))
  {
    hide AdmissibleRun, Run, Admissible, Next, Begins;
    var start, events :| Begins(start) && Leads(start, events, w);
    RunExtends(start, events, event);
    assert Leads(start, events + [event], Next(w, event));
  }

  lemma StartReachable(sk: Term, ek: PrivateKey, spk: PrivateKey, maxSkipAlice: nat, maxSkipBob: nat)
    requires ek != spk
    ensures Reachable(Start(sk, ek, spk, maxSkipAlice, maxSkipBob))
  {
    hide Start;
    var w := Start(sk, ek, spk, maxSkipAlice, maxSkipBob);
    assert Begins(w) && Leads(w, [], w);
  }

  lemma {:induction false} ReachableRun(w: World, events: seq<Event>)
    requires Reachable(w) && AdmissibleRun(w, events)
    ensures Reachable(Run(w, events))
    decreases |events|
  {
    hide Reachable, Admissible, Next;
    if events != [] {
      ReachableExtends(w, events[0]);
      ReachableRun(Next(w, events[0]), events[1..]);
    }
  }

  // ---------- The theorems ----------

  /** Two-party correctness. Wherever an admissible run leads, a delivery that is not superseded gives
      exactly the plaintext sent, if and only if the buffer has room for the messages it overtakes;
      a repeated delivery is refused and leaves the receiver unchanged. */
  lemma DeliveryIsCorrect(w: World, i: nat)
    requires Reachable(w) && i < |w.log| && w.log[i].wire.Framed? && !Superseded(w, i)
    ensures var s := w.Of(Peer(w.log[i].from));
            var step := Delivering(w, i);
            if i in w.delivered then step == Step(s, Err(Replayed))
            else if HasRoom(s, w.log[i].wire.header) then step.outcome == Ok(w.log[i].plaintext)
            else step.outcome in {Err(SkipBound), Err(TooFarAhead), Err(SkipBufferExhausted)}
  {
    var p := ReachableInStep(w);
    DeliveryExact(w, p, i);
  }

  /** A send succeeds wherever an admissible run leads. */
  lemma SendingSucceeds(w: World, q: Party, plaintext: seq<byte>, ad: seq<byte>)
    requires Reachable(w) && w.Of(q).ns + 1 < U32_LIMIT
    ensures Sending(w, q, plaintext, ad).outcome.Ok? && Sending(w, q, plaintext, ad).outcome.value.Framed?
  {
    var p := ReachableInStep(w);
    var p' := SendKeepsInStep(w, p, q, plaintext, ad);
  }

  /** Root lockstep: the root keys are equal or one root step apart, over the DH output of the two
      current ratchet keys. A party that has seen the peer's current key has a receive chain which
      the peer's sending chain extends by what is still to be received. */
  lemma RootLockstep(w: World)
    requires Reachable(w)
    ensures var dh := Dh(w.alice.local, w.bob.local);
            || w.alice.rk == w.bob.rk
            || w.alice.rk == NewRoot(w.bob.rk, dh)
            || w.bob.rk == NewRoot(w.alice.rk, dh)
    ensures forall q: Party {:trigger w.Of(q)} ::
              w.Of(q).remote == Some(PublicOf(w.Of(Peer(q)).local)) && w.Of(Peer(q)).send.Some? ==>
                && w.Of(q).recv.Some? && w.Of(q).nr <= w.Of(Peer(q)).ns
                && w.Of(Peer(q)).send == Some(Advance(w.Of(q).recv.value, w.Of(Peer(q)).ns - w.Of(q).nr))
  {
    var p := ReachableInStep(w);
    RootsLinked(w, p);
    forall q: Party {:trigger w.Of(q)}
      | w.Of(q).remote == Some(PublicOf(w.Of(Peer(q)).local)) && w.Of(Peer(q)).send.Some?
      ensures w.Of(q).recv.Some? && w.Of(q).nr <= w.Of(Peer(q)).ns
      ensures w.Of(Peer(q)).send == Some(Advance(w.Of(q).recv.value, w.Of(Peer(q)).ns - w.Of(q).nr))
    {
      ChainsLinked(w, p, q);
    }
  }

  lemma RootsLinked(w: World, p: Plan)
    requires InStep(w, p)
    ensures var dh := Dh(w.alice.local, w.bob.local);
            || w.alice.rk == w.bob.rk
            || w.alice.rk == NewRoot(w.bob.rk, dh)
            || w.bob.rk == NewRoot(w.alice.rk, dh)
  {
    hide BufferOk, LogOk, LogOrdered, DoneOk;
    assert Linked(p.es, |p.es| - 1);
  }

  lemma ChainsLinked(w: World, p: Plan, q: Party)
    requires InStep(w, p)
    requires w.Of(q).remote == Some(PublicOf(w.Of(Peer(q)).local)) && w.Of(Peer(q)).send.Some?
    ensures w.Of(q).recv.Some? && w.Of(q).nr <= w.Of(Peer(q)).ns
    ensures w.Of(Peer(q)).send == Some(Advance(w.Of(q).recv.value, w.Of(Peer(q)).ns - w.Of(q).nr))
  {
    hide InStep, PartyAt, EpochsOk, Advance;
    PartiesOf(w, p, q);
    PartiesOf(w, p, Peer(q));
    OwnEpochs(w, p, q);
    ChainsOf(p.es, p.Own(q), w.Of(q), p.Own(Peer(q)), w.Of(Peer(q)), p.done);
  }

  lemma ChainsOf(es: seq<Epoch>, at: nat, s: State, peerAt: nat, t: State, done: set<Index>)
    requires EpochsOk(es) && PartyAt(es, at, s, done) && PartyAt(es, peerAt, t, done)
    requires s.remote == Some(PublicOf(t.local)) && t.send.Some?
    ensures s.recv.Some? && s.nr <= t.ns && t.send == Some(Advance(s.recv.value, t.ns - s.nr))
  {
    hide BufferOk, Linked, Advance;
    var r := ReceiveEpoch(at);
    assert peerAt == r;
    AdvanceTwice(es[r].chain, s.nr, t.ns - s.nr);
  }

  /** The receive chain leads to the messages still to come: from its position on, it derives the key of
      every message that was sent under the remote key, also when the sender has turned since. */
  lemma ReceiveChainLeads(w: World, i: nat)
    requires Reachable(w) && i < |w.log| && w.log[i].wire.Framed?
    requires var s := w.Of(Peer(w.log[i].from));
             s.remote == Some(w.log[i].wire.header.dh) && s.nr <= w.log[i].wire.header.n
    ensures var s := w.Of(Peer(w.log[i].from));
            var header := w.log[i].wire.header;
            && s.recv.Some? && w.log[i].wire.ciphertext.Sealed?
            && w.log[i].wire.ciphertext.key
               == AesKey(MessageKey(Advance(s.recv.value, header.n - s.nr)), header.n)
  {
    hide InStep, Reachable, PartyAt, EntryOk, EpochsOk, Advance;
    var p := ReachableInStep(w);
    EntryFacts(w, p, i);
    PartiesOf(w, p, Peer(w.log[i].from));
    ChainLeads(p.es, p.Own(Peer(w.log[i].from)), w.Of(Peer(w.log[i].from)), p.done, p.epochs[i], w.log[i]);
  }

  lemma ChainLeads(es: seq<Epoch>, at: nat, s: State, done: set<Index>, e: nat, m: Sent)
    requires PartyAt(es, at, s, done) && EntryOk(es, e, m)
    requires m.wire.Framed? && s.remote == Some(m.wire.header.dh) && s.nr <= m.wire.header.n
    ensures s.recv.Some? && m.wire.ciphertext.Sealed?
    ensures m.wire.ciphertext.key
         == AesKey(MessageKey(Advance(s.recv.value, m.wire.header.n - s.nr)), m.wire.header.n)
  {
    hide BufferOk;
    assert e == ReceiveEpoch(at);
    AdvanceTwice(es[e].chain, s.nr, m.wire.header.n - s.nr);
  }

  /** No key reuse between the two parties: any two messages of a run are sealed under different AES
      keys and different nonces. */
  lemma NoKeyReuseAcrossParties(w: World, i: nat, j: nat)
    requires Reachable(w) && i < |w.log| && j < |w.log| && i != j
    ensures w.log[i].wire.Framed? && w.log[i].wire.ciphertext.Sealed?
    ensures w.log[j].wire.Framed? && w.log[j].wire.ciphertext.Sealed?
    ensures w.log[i].wire.ciphertext.key != w.log[j].wire.ciphertext.key
    ensures w.log[i].wire.ciphertext.nonce != w.log[j].wire.ciphertext.nonce
  {
    var p := ReachableInStep(w);
    EntryFacts(w, p, i);
    EntryFacts(w, p, j);
    if w.log[i].from == w.log[j].from { LaterInLog(w, p, i, j); }
    var x, y := p.IndexOf(w.log, i), p.IndexOf(w.log, j);
    hide InStep, PartyAt;
    KeysDiffer(p.es, x, y);
  }

  /** The chains of two epochs have different origins: their roots lie at different depths. */
  lemma KeysDiffer(es: seq<Epoch>, x: Index, y: Index)
    requires EpochsOk(es) && 0 < x.epoch < |es| && 0 < y.epoch < |es| && x != y
    ensures KeyOf(es, x) != KeyOf(es, y)
  {
    EpochDepth(es, x.epoch);
    EpochDepth(es, y.epoch);
    AdvanceShape(es[x.epoch].chain, x.n);
    AdvanceShape(es[y.epoch].chain, y.n);
  }

  lemma {:induction false} EpochDepth(es: seq<Epoch>, e: nat)
    requires EpochsOk(es) && 0 < e < |es|
    ensures es[e].chain.FirstChain? && Depth(es[e].chain.root) == Depth(es[0].root) + e - 1
    ensures Depth(es[e].root) == Depth(es[0].root) + e
  {
    assert Linked(es, e);
    if e > 1 { EpochDepth(es, e - 1); }
  }

  /** Skip-buffer conservation: of a message that its receiver has passed (its epoch is one the
      receiver has left, or its index is below the receive position), the buffer holds exactly the
      key that opens it if it has not been delivered, and nothing if it has. */
  lemma BufferConservation(w: World, i: nat)
    requires Reachable(w) && i < |w.log| && w.log[i].wire.Framed?
    requires var s := w.Of(Peer(w.log[i].from));
             Superseded(w, i)
             || (s.remote == Some(w.log[i].wire.header.dh) && w.log[i].wire.header.n < s.nr)
    ensures var s := w.Of(Peer(w.log[i].from));
            var header := w.log[i].wire.header;
            var slot := Slot(header.dh, header.n);
            && (i in w.delivered <==> slot !in s.skipped)
            && (slot in s.skipped ==>
                  Open(AesKey(s.skipped[slot], header.n), Nonce(s.skipped[slot], header.n),
                       FullAd(w.log[i].ad, header), w.log[i].wire.ciphertext) == Some(w.log[i].plaintext))
  {
    var p := ReachableInStep(w);
    PassedIsBuffered(w, p, i);
    EntryFacts(w, p, i);
    hide InStep, Reachable, Superseded, HonestFrame;
    FrameOpens(p.es, p.epochs[i], w.log[i]);
  }

  lemma FrameOpens(es: seq<Epoch>, e: nat, m: Sent)
    requires EntryOk(es, e, m)
    ensures var header := m.wire.header;
            var mk := KeyOf(es, Index(e, header.n));
            && Slot(header.dh, header.n) == SlotOf(es, Index(e, header.n))
            && Open(AesKey(mk, header.n), Nonce(mk, header.n), FullAd(m.ad, header), m.wire.ciphertext)
               == Some(m.plaintext)
  {
  }

  lemma PassedIsBuffered(w: World, p: Plan, i: nat)
    requires InStep(w, p) && i < |w.log| && w.log[i].wire.Framed?
    requires var s := w.Of(Peer(w.log[i].from));
             Superseded(w, i)
             || (s.remote == Some(w.log[i].wire.header.dh) && w.log[i].wire.header.n < s.nr)
    ensures |p.epochs| == |w.log| && p.epochs[i] < |p.es|
    ensures var s := w.Of(Peer(w.log[i].from));
            var slot := SlotOf(p.es, p.IndexOf(w.log, i));
            && (i in w.delivered <==> slot !in s.skipped)
            && (slot in s.skipped ==> s.skipped[slot] == KeyOf(p.es, p.IndexOf(w.log, i)))
  {
    hide InStep, Superseded, PartyAt;
    var q := Peer(w.log[i].from);
    EntryFacts(w, p, i);
    SupersededEpoch(w, p, i);
    PartiesOf(w, p, q);
    BufferHoldsIndex(p.es, p.Own(q), w.Of(q), p.done, p.IndexOf(w.log, i));
  }

  lemma BufferHoldsIndex(es: seq<Epoch>, at: nat, s: State, done: set<Index>, x: Index)
    requires EpochsOk(es) && PartyAt(es, at, s, done)
    requires 0 < x.epoch < |es| && x.epoch % 2 == ReceiveEpoch(at) % 2 && x.n < es[x.epoch].sent
    requires x.epoch < ReceiveEpoch(at) || (s.remote == Some(PublicOf(es[x.epoch].key)) && x.n < s.nr)
    ensures x in done <==> SlotOf(es, x) !in s.skipped
    ensures SlotOf(es, x) in s.skipped ==> s.skipped[SlotOf(es, x)] == KeyOf(es, x)
  {
    assert InReach(es, at, s.nr, x);
  }
}
