/** What a refused delivery leaves behind. A skip loop that runs out of room throws after it has moved the
    receive index and before the receive chain follows (`doubleRatchet.ts`, lines 317-325 and 385-393). A
    refusal before that point leaves the parties in step; a refusal after it ends the epoch for good. */
module Torn {
  import opened Terms
  import opened Ratchet
  import opened SkippedKeys
  import opened TwoParty
  import opened Epochs
  import opened Synchrony
  import opened RatchetSafety
  import opened Room
  import opened Desync

  /** The receive chain, which comes from `chain`, lags behind the receive index, and no key from that index
      on is buffered for the remote key. */
  ghost predicate Lags(s: State, chain: Term) {
    && chain.FirstChain? && Older(chain, s.rk)
    && s.recv.Some? && Origin(s.recv.value) == chain && Position(s.recv.value) < s.nr
    && s.remote.Some? && s.remote.value.Point?
    && forall k <- s.skipped | s.remote == Some(k.dh) :: k.n < s.nr
  }

  // ---------- A loop that throws on its way ----------

  lemma OwnRootIsOlder(es: seq<Epoch>, at: nat, s: State)
    requires EpochsOk(es) && Placed(es, at, s) && ReceiveEpoch(at) > 0
    ensures es[ReceiveEpoch(at)].chain.FirstChain? && Older(es[ReceiveEpoch(at)].chain, s.rk)
  {
    EpochDepth(es, ReceiveEpoch(at));
    hide EpochsOk;
    if at > 0 { DepthAt(es, at); }
  }

  lemma DepthAt(es: seq<Epoch>, e: nat)
    requires EpochsOk(es) && 0 < e < |es|
    ensures Depth(es[e].root) == Depth(es[0].root) + e
  {
    EpochDepth(es, e);
  }

  lemma SkipTears(es: seq<Epoch>, at: nat, s: State, done: set<Index>, upTo: nat, k: Skip)
    requires EpochsOk(es) && PartyAt(es, at, s, done) && ReceiveEpoch(at) > 0 && s.nr <= upTo
    requires k == BufferKeys(s.recv.value, s.remote, s.nr, upTo, s.skipped, s.maxSkip)
    requires OverflowsPartly(|s.skipped|, upTo - s.nr, s.maxSkip)
    ensures k.error.Some? && s.nr < k.nr < upTo
    ensures Lags(s.(nr := k.nr, skipped := k.skipped), es[ReceiveEpoch(at)].chain)
  {
    hide EpochsOk, BufferOk, BufferKeys, Older;
    var r := ReceiveEpoch(at);
    OwnRootIsOlder(es, at, s);
    RangeUnbuffered(es, at, s.nr, upTo, s.skipped, done);
    BufferKeysFits(s.recv.value, s.remote.value, s.nr, upTo, s.skipped, s.maxSkip);
    BufferKeysMoves(s.recv.value, s.remote, s.nr, upTo, s.skipped, s.maxSkip);
    BufferKeysFills(s.recv.value, s.remote, s.nr, upTo, s.skipped, s.maxSkip);
    AdvanceShape(es[r].chain, s.nr);
    BufferIsBelow(es, at, s.nr, s.skipped, done);
  }

  lemma BufferIsBelow(es: seq<Epoch>, at: nat, nr: nat, skipped: map<Slot, Term>, done: set<Index>)
    requires EpochsOk(es) && BufferOk(es, at, nr, skipped, done) && ReceiveEpoch(at) < |es|
    ensures forall k <- skipped | k.dh == PublicOf(es[ReceiveEpoch(at)].key) :: k.n < nr
  {
    hide EpochsOk, BufferOk;
    var r := ReceiveEpoch(at);
    forall k <- skipped | k.dh == PublicOf(es[r].key) ensures k.n < nr {
      NextInReach(es, at, nr, k.n);
      if k.n >= nr { NotYetBuffered(es, at, nr, skipped, done, Index(r, k.n)); }
    }
  }

  /** A message of the receive epoch. */
  lemma TearsInEpoch(es: seq<Epoch>, at: nat, s: State, done: set<Index>, header: Header)
    requires EpochsOk(es) && PartyAt(es, at, s, done) && ReceiveEpoch(at) > 0
    requires s.remote == Some(header.dh) && Tears(s, header)
    ensures var t := TakeMessageKey(s, header.dh, header.n);
            && t.outcome.Err? && Lags(t.state, es[ReceiveEpoch(at)].chain) && t.state.remote == s.remote
            && t.state.nr <= header.n
  {
    hide EpochsOk, BufferOk, BufferKeys, Lags;
    TakeAheadUnfolds(s, header.dh, header.n);
    var k := BufferKeys(s.recv.value, s.remote, s.nr, header.n, s.skipped, s.maxSkip);
    SkipTears(es, at, s, done, header.n, k);
  }

  /** The rest of the old epoch. */
  lemma TearsOnTurn(es: seq<Epoch>, at: nat, s: State, done: set<Index>, header: Header, draw: Draw)
    requires EpochsOk(es) && PartyAt(es, at, s, done) && ReceiveEpoch(at) > 0
    requires s.remote != Some(header.dh) && OverflowsPartly(|s.skipped|, Rest(s, header), s.maxSkip)
    ensures var t := TurnTo(s, header, draw);
            && t.outcome.Err? && Lags(t.state, es[ReceiveEpoch(at)].chain) && t.state.remote == s.remote
            && t.state.nr <= header.pn
  {
    hide EpochsOk, BufferOk, BufferKeys, Lags;
    var k := BufferKeys(s.recv.value, s.remote, s.nr, header.pn, s.skipped, s.maxSkip);
    SkipTears(es, at, s, done, header.pn, k);
  }

  /** A message of the peer's next epoch, whichever of the two loops breaks off. */
  lemma TearsNextEpoch(es: seq<Epoch>, at: nat, s: State, done: set<Index>, header: Header, key: PrivateKey)
    returns (e: nat)
    requires EpochsOk(es) && PartyAt(es, at, s, done) && 0 < at && at + 2 == |es|
    requires forall e | 0 <= e < |es| :: es[e].key != key
    requires header.dh == PublicOf(es[at + 1].key) && header.pn == PreviousCount(es, at + 1) && Tears(s, header)
    ensures e < |es|
    ensures var t := TurnTo(s, header, Private(key));
            var u := TakeMessageKey(t.state, header.dh, header.n);
            && (t.outcome.Ok? ==> u.outcome.Err?)
            && var s' := if t.outcome.Ok? then u.state else t.state;
            && Lags(s', es[e].chain) && s'.remote == Some(PublicOf(es[e].key))
            && (if t.outcome.Ok? then e == at + 1 && s'.nr <= header.n else e == at - 1 && s'.nr <= es[e].sent)
  {
    hide EpochsOk, PartyAt, Lags, TurnTo, TakeMessageKey, Successor, Rest;
    TurnsToNextEpoch(es, at, s, done, header, key);
    StandsAt(es, at, s, done);
    if |s.skipped| + Unpassed(es, at, s) <= s.maxSkip {
      NextEpochOk(es, key);
      var fs, t := es + [Successor(es[at + 1], key)], TurnTo(s, header, Private(key)).state;
      StandsAt(fs, at + 2, t, done);
      NothingBelowStart(fs, at + 2, t, done, header);
      TearsInEpoch(fs, at + 2, t, done, header);
      e := at + 1;
    } else {
      PassedSomething(es, at, s, done, header);
      TearsOnTurn(es, at, s, done, header, Private(key));
      e := ReceiveEpoch(at);
    }
  }

  /** Just after a turn the whole index is a gap. */
  lemma NothingBelowStart(es: seq<Epoch>, at: nat, t: State, done: set<Index>, header: Header)
    requires EpochsOk(es) && PartyAt(es, at, t, done) && ReceiveEpoch(at) < |es| && t.nr == 0
    requires header.dh == PublicOf(es[ReceiveEpoch(at)].key)
    ensures Needed(t, header) == header.n
  {
    hide EpochsOk, BufferOk;
    BufferIsBelow(es, at, 0, t.skipped, done);
  }

  lemma PassedSomething(es: seq<Epoch>, at: nat, s: State, done: set<Index>, header: Header)
    requires EpochsOk(es) && PartyAt(es, at, s, done) && 0 < at && at + 2 == |es|
    requires header.dh == PublicOf(es[at + 1].key) && header.pn == PreviousCount(es, at + 1)
    requires Rest(s, header) > 0
    ensures ReceiveEpoch(at) == at - 1 > 0 && header.pn == es[at - 1].sent
  {
    hide EpochsOk, BufferOk;
    NextKeyIsOther(es, at, s, header);
  }

  /** The delivery throws, and the receiver's chain lags in the epoch of its remote key. */
  lemma TornDelivery(w: World, p: Plan, i: nat) returns (e: nat)
    requires InStep(w, p) && i < |w.log| && w.log[i].wire.Framed? && !Superseded(w, i)
    requires Tears(w.Of(Peer(w.log[i].from)), w.log[i].wire.header)
    ensures e < |p.es|
    ensures var step := Delivering(w, i);
            && step.outcome.Err? && Lags(step.state, p.es[e].chain)
            && step.state.remote == Some(PublicOf(p.es[e].key)) && step.state.nr <= p.es[e].sent
            && (step.state.remote == Some(w.log[i].wire.header.dh) ==> step.state.nr <= w.log[i].wire.header.n)
  {
    hide InStep, PartyAt, EpochsOk, EntryOk, Superseded, Tears, Lags, TurnTo, TakeMessageKey;
    var m := w.log[i];
    var q := Peer(m.from);
    EntryFacts(w, p, i);
    EntryFramed(p.es, p.epochs[i], m);
    SupersededEpoch(w, p, i);
    PartiesOf(w, p, q);
    StandsAt(p.es, p.Own(q), w.Of(q), p.done);
    if p.epochs[i] == ReceiveEpoch(p.Own(q)) {
      e := p.epochs[i];
      TearsInEpoch(p.es, p.Own(q), w.Of(q), p.done, m.wire.header);
      TurnStays(w.Of(q), m.wire.header, Private(w.nextKey));
    } else {
      e := TearsNextEpoch(p.es, p.Own(q), w.Of(q), p.done, m.wire.header, w.nextKey);
      OtherEpochOtherKey(p.es, p.Own(q) - 1, p.Own(q) + 1);
    }
  }

  lemma TurnStays(s: State, header: Header, draw: Draw)
    requires s.remote == Some(header.dh)
    ensures TurnTo(s, header, draw) == Step(s, Ok(()))
  {
  }

  // ---------- No plan fits a chain that lags ----------

  lemma LaggingFitsNowhere(es: seq<Epoch>, at: nat, s: State, done: set<Index>, chain: Term)
    requires EpochsOk(es) && Lags(s, chain)
    ensures !PartyAt(es, at, s, done)
  {
    hide BufferOk;
    if PartyAt(es, at, s, done) {
      EpochDepth(es, ReceiveEpoch(at));
      AdvanceShape(es[ReceiveEpoch(at)].chain, s.nr);
    }
  }

  lemma NoPlanAfterTear(w: World, p: Plan, i: nat, p': Plan)
    requires InStep(w, p) && i < |w.log| && w.log[i].wire.Framed? && !Superseded(w, i)
    requires Tears(w.Of(Peer(w.log[i].from)), w.log[i].wire.header)
    ensures !InStep(Next(w, Deliver(i)), p')
  {
    hide InStep, PartyAt, EpochsOk, Superseded, Tears, Lags, Delivering;
    var q := Peer(w.log[i].from);
    var e := TornDelivery(w, p, i);
    var w' := Next(w, Deliver(i));
    if InStep(w', p') {
      PartiesOf(w', p', q);
      LaggingFitsNowhere(p'.es, p'.Own(q), w'.Of(q), p'.done, p.es[e].chain);
    }
  }

  // ---------- What lags is lost ----------

  lemma LaggingIsSpent(s: State, chain: Term, n: nat)
    requires Lags(s, chain) && s.nr <= n
    ensures Spent(s, Slot(s.remote.value, n), Advance(chain, n))
  {
    AdvanceShape(chain, n);
  }

  /** A frame under the remote key, sealed with the message key of its index, from where the index stands
      on: whatever is called in between, it does not open. */
  lemma LaggingNeverOpens(s: State, chain: Term, calls: seq<Call>, frame: Wire, ad: seq<byte>, draw: Draw)
    requires Lags(s, chain) && frame.Framed? && s.remote == Some(frame.header.dh) && s.nr <= frame.header.n
    requires frame.ciphertext.Sealed?
    requires frame.ciphertext.key == AesKey(MessageKey(Advance(chain, frame.header.n)), frame.header.n)
    ensures Decrypt(AfterAll(s, calls), frame, ad, draw).outcome.Err?
  {
    LaggingIsSpent(s, chain, frame.header.n);
    hide Spent, Decrypt, AfterAll;
    RunKeepsSpent(s, Slot(frame.header.dh, frame.header.n), Advance(chain, frame.header.n), calls);
    SpentNeverOpens(AfterAll(s, calls), frame, ad, draw, Advance(chain, frame.header.n));
  }

  // ---------- The theorems ----------

  /** What a delivery that is not superseded does to the two parties: they stay in step if and only if it does
      not break off in the middle of a skip loop. */
  lemma InStepExactlyUnlessTorn(w: World, p: Plan, i: nat)
    requires InStep(w, p) && i < |w.log| && w.log[i].wire.Framed? && !Superseded(w, i)
    ensures (exists p' :: InStep(Next(w, Deliver(i)), p'))
       <==> !Tears(w.Of(Peer(w.log[i].from)), w.log[i].wire.header)
  {
    hide InStep, Superseded, Tears;
    if Tears(w.Of(Peer(w.log[i].from)), w.log[i].wire.header) {
      forall p' ensures !InStep(Next(w, Deliver(i)), p') { NoPlanAfterTear(w, p, i, p'); }
    } else {
      var p' := TimelyKeepsInStep(w, p, i);
    }
  }

  lemma LateTear(w: World, p: Plan, i: nat, p': Plan)
    requires InStep(w, p) && i < |w.log| && w.log[i].wire.Framed? && Superseded(w, i)
    requires var s := w.Of(Peer(w.log[i].from));
             OverflowsPartly(|s.skipped|, Rest(s, w.log[i].wire.header), s.maxSkip)
    ensures !InStep(Next(w, Deliver(i)), p')
  {
    hide InStep, PartyAt, EpochsOk, EntryOk, Superseded, Lags, TurnTo, Rest, OverflowsPartly;
    var q := Peer(w.log[i].from);
    LateFacts(w, p, i);
    EntryFramed(p.es, p.epochs[i], w.log[i]);
    StandsAt(p.es, p.Own(q), w.Of(q), p.done);
    OtherEpochOtherKey(p.es, p.epochs[i], ReceiveEpoch(p.Own(q)));
    TearsOnTurn(p.es, p.Own(q), w.Of(q), p.done, w.log[i].wire.header, Private(w.nextKey));
    var w' := Next(w, Deliver(i));
    if InStep(w', p') {
      PartiesOf(w', p', q);
      LaggingFitsNowhere(p'.es, p'.Own(q), w'.Of(q), p'.done, p.es[ReceiveEpoch(p.Own(q))].chain);
    }
  }

  /** The exact condition, for every delivery of a frame in the log, first or repeated, superseded or not, read
      or refused: some plan fits afterwards if and only if the delivery is harmless. */
  lemma InStepExactly(w: World, p: Plan, i: nat)
    requires InStep(w, p) && i < |w.log| && w.log[i].wire.Framed?
    ensures (exists p' :: InStep(Next(w, Deliver(i)), p')) <==> Harmless(w, i)
  {
    hide InStep, Superseded, Tears, CanTurn, OverflowsPartly, Rest, Next;
    if !Superseded(w, i) {
      InStepExactlyUnlessTorn(w, p, i);
    } else if TurnRefused(w.Of(Peer(w.log[i].from)), w.log[i].wire.header) {
      LateRefusal(w, p, i);
    } else if CanTurn(w.Of(Peer(w.log[i].from)), w.log[i].wire.header) {
      forall p' ensures !InStep(Next(w, Deliver(i)), p') { NoPlanFits(w, p, i, p'); }
    } else {
      forall p' ensures !InStep(Next(w, Deliver(i)), p') { LateTear(w, p, i, p'); }
    }
  }

  /** A refusal that does not break off can be made good: after it, and after whatever admissible run follows,
      the message is read if and only if there is room, unless it has been superseded meanwhile. */
  lemma RefusedIsReadLater(w: World, i: nat, events: seq<Event>)
    requires Reachable(w) && i < |w.log| && w.log[i].wire.Framed? && !Superseded(w, i)
    requires !Tears(w.Of(Peer(w.log[i].from)), w.log[i].wire.header) && Delivering(w, i).outcome.Err?
    requires AdmissibleRun(Next(w, Deliver(i)), events)
    ensures var v := Run(Next(w, Deliver(i)), events);
            && i < |v.log| && v.log[i] == w.log[i]
            && (i !in v.delivered && !Superseded(v, i) ==>
                  (Delivering(v, i).outcome == Ok(w.log[i].plaintext)
                   <==> |Outstanding(v, i)| <= v.Of(Peer(w.log[i].from)).maxSkip))
  {
    hide Reachable, Superseded, Tears, Delivering, Outstanding, AdmissibleRun, Run;
    var w' := Next(w, Deliver(i));
    ReachableExtends(w, Deliver(i));
    ReachableRun(w', events);
    LogKeeps(w', events, i);
    var v := Run(w', events);
    if i !in v.delivered && !Superseded(v, i) { ReadExactlyIfOutstandingFits(v, i); }
  }

  lemma {:induction false} LogKeeps(w: World, events: seq<Event>, i: nat)
    requires i < |w.log|
    ensures i < |Run(w, events).log| && Run(w, events).log[i] == w.log[i]
    decreases |events|
  {
    if events != [] {
      NextLogKeeps(w, events[0], i);
      LogKeeps(Next(w, events[0]), events[1..], i);
    }
  }

  lemma NextLogKeeps(w: World, event: Event, i: nat)
    requires i < |w.log|
    ensures i < |Next(w, event).log| && Next(w, event).log[i] == w.log[i]
  {
    hide Encrypt, Decrypt;
  }

  /** A refusal that breaks off ends an epoch: no message under the receiver's remote key opens any more, from
      the index on that the loop has reached, whatever the receiver is called with in between. The refused
      message is one of them when it is under that key itself. */
  lemma TornEpochIsLost(w: World, i: nat, j: nat, calls: seq<Call>, ad: seq<byte>, draw: Draw)
    requires Reachable(w) && i < |w.log| && w.log[i].wire.Framed? && !Superseded(w, i)
    requires Tears(w.Of(Peer(w.log[i].from)), w.log[i].wire.header)
    requires j < |w.log| && w.log[j].wire.Framed? && w.log[j].from == w.log[i].from
    requires var s := Delivering(w, i).state;
             s.remote == Some(w.log[j].wire.header.dh) && (j == i || s.nr <= w.log[j].wire.header.n)
    ensures Decrypt(AfterAll(Delivering(w, i).state, calls), w.log[j].wire, ad, draw).outcome.Err?
  {
    hide Reachable, InStep, Superseded, Tears, Lags, Delivering, EntryOk, EpochsOk, Decrypt, AfterAll;
    var p := ReachableInStep(w);
    var e := TornDelivery(w, p, i);
    EntryFacts(w, p, j);
    EntryFramed(p.es, p.epochs[j], w.log[j]);
    LogPart(w, p);
    if p.epochs[j] != e { OtherEpochOtherKey(p.es, p.epochs[j], e); }
    EntryKey(p.es, e, w.log[j]);
    LaggingNeverOpens(Delivering(w, i).state, p.es[e].chain, calls, w.log[j].wire, ad, draw);
  }

  lemma EntryKey(es: seq<Epoch>, e: nat, m: Sent)
    requires EntryOk(es, e, m)
    ensures m.wire.ciphertext.Sealed?
    ensures m.wire.ciphertext.key == AesKey(MessageKey(Advance(es[e].chain, m.wire.header.n)), m.wire.header.n)
  {
  }

  /** Nor does anything that the sender goes on to send under that key. */
  lemma TornEpochStaysLost(w: World, i: nat, sends: seq<Call>, plaintext: seq<byte>, ad: seq<byte>, a: Draw,
                           calls: seq<Call>, ad': seq<byte>, b: Draw)
    requires Reachable(w) && i < |w.log| && w.log[i].wire.Framed? && !Superseded(w, i)
    requires Tears(w.Of(Peer(w.log[i].from)), w.log[i].wire.header)
    requires forall c | c in sends :: c.EncryptCall?
    requires w.Of(w.log[i].from).ns + |sends| < U32_LIMIT
    ensures var sent := Encrypt(AfterAll(w.Of(w.log[i].from), sends), plaintext, ad, a).outcome;
            && sent.Ok? && sent.value.Framed?
            && var s := Delivering(w, i).state;
            (s.remote == Some(sent.value.header.dh) ==>
               Decrypt(AfterAll(s, calls), sent.value, ad', b).outcome.Err?)
  {
    hide Reachable, InStep, Superseded, Tears, Lags, Delivering, EntryOk, EpochsOk, PartyAt, Decrypt, AfterAll;
    var p := ReachableInStep(w);
    var e := TornDelivery(w, p, i);
    var from := w.log[i].from;
    EntryFacts(w, p, i);
    EntryFramed(p.es, p.epochs[i], w.log[i]);
    PartiesOf(w, p, from);
    OwnEpochs(w, p, from);
    LogPart(w, p);
    SenderStands(p.es, p.Own(from), w.Of(from), p.done);
    SendsAdvance(w.Of(from), sends);
    var t := AfterAll(w.Of(from), sends);
    if Delivering(w, i).state.remote == Some(PublicOf(t.local)) {
      if p.Own(from) != e { OtherEpochOtherKey(p.es, p.Own(from), e); }
      AdvanceTwice(p.es[e].chain, w.Of(from).ns, |sends|);
      var frame := Encrypt(t, plaintext, ad, a).outcome.value;
      LaggingNeverOpens(Delivering(w, i).state, p.es[e].chain, calls, frame, ad', b);
    }
  }

  lemma SenderStands(es: seq<Epoch>, at: nat, s: State, done: set<Index>)
    requires PartyAt(es, at, s, done) && at > 0
    ensures at < |es| && s.local == es[at].key && s.ns == es[at].sent
    ensures s.send == Some(Advance(es[at].chain, s.ns))
  {
    hide BufferOk;
  }

  lemma {:induction false} SendsAdvance(t: State, sends: seq<Call>)
    requires t.send.Some? && forall c | c in sends :: c.EncryptCall?
    ensures var u := AfterAll(t, sends);
            u.send == Some(Advance(t.send.value, |sends|)) && u.ns == t.ns + |sends| && u.local == t.local
    decreases |sends|
  {
    if sends != [] {
      assert sends[0] in sends;
      var next := After(t, sends[0]);
      SendsAdvance(next, sends[1..]);
      AdvanceFront(t.send.value, |sends| - 1);
    }
  }

  // ---------- Such a delivery exists ----------

  /** The initiator has sent `k` messages of its first chain, and nothing has arrived. */
  ghost predicate OnlySent(w: World, k: nat, maxSkip: nat) {
    && |w.log| == k && w.seen == {} && w.delivered == {}
    && (forall j | 0 <= j < k :: w.log[j].from == Alice && w.log[j].wire.Framed?
                                 && w.log[j].wire.header.dh == PublicOf(0) && w.log[j].wire.header.n == j)
    && w.alice == Start(Secret(0), 0, 1, maxSkip, maxSkip).alice.(send := w.alice.send, ns := k)
    && w.alice.send.Some? && w.bob == Start(Secret(0), 0, 1, maxSkip, maxSkip).bob && w.nextKey == 2 + k
  }

  lemma {:induction false} SendMany(k: nat, maxSkip: nat) returns (w: World)
    requires k < U32_LIMIT
    ensures Reachable(w) && OnlySent(w, k, maxSkip)
  {
    hide Reachable;
    if k == 0 {
      w := Start(Secret(0), 0, 1, maxSkip, maxSkip);
      StartReachable(Secret(0), 0, 1, maxSkip, maxSkip);
    } else {
      w := SendMany(k - 1, maxSkip);
      ReachableExtends(w, Send(Alice, [], []));
      w := Next(w, Send(Alice, [], []));
    }
  }

  /** One message is skipped. */
  lemma OneSkipped(w: World, maxSkip: nat)
    requires 2 <= maxSkip && 2 <= |w.log| && OnlySent(w, |w.log|, maxSkip)
    ensures Admissible(w, Deliver(1))
    ensures var t := Next(w, Deliver(1));
            && t.log == w.log && t.alice == w.alice && t.nextKey == w.nextKey + 1
            && t.bob == w.bob.(recv := t.bob.recv, nr := 2, skipped := t.bob.skipped) && t.bob.recv.Some?
            && t.bob.skipped.Keys == {Slot(PublicOf(0), 0)} && t.seen == {1} && t.delivered <= {1}
  {
    var header := w.log[1].wire.header;
    assert TurnTo(w.bob, header, Private(w.nextKey)) == Step(w.bob, Ok(()));
    SkipsOne(w.bob, header.n);
    hide BufferKeys, TurnTo, TakeMessageKey;
  }

  lemma SkipsOne(s: State, n: u32)
    requires n == 1 && s.recv.Some? && s.remote == Some(PublicOf(0)) && s.nr == 0 && s.skipped == map[]
    requires s.maxSkip >= 2
    ensures var t := TakeMessageKey(s, PublicOf(0), n);
            && t.outcome.Ok? && t.state.recv.Some?
            && t.state == s.(recv := t.state.recv, nr := 2,
                             skipped := map[Slot(PublicOf(0), 0) := MessageKey(s.recv.value)])
  {
    assert BufferKeys(NextChain(s.recv.value), s.remote, 1, 1, map[Slot(PublicOf(0), 0) := MessageKey(s.recv.value)],
                      s.maxSkip).error.None?;
  }

  /** One message skipped and then a gap of `maxSkip`: enough for every buffer that takes two keys. */
  lemma TearExists(maxSkip: nat) returns (w: World, i: nat)
    requires 2 <= maxSkip && maxSkip + 3 < U32_LIMIT
    ensures Reachable(w) && i < |w.log| && w.log[i].wire.Framed? && !Superseded(w, i) && i !in w.delivered
    ensures w.Of(Peer(w.log[i].from)).maxSkip == maxSkip
    ensures Tears(w.Of(Peer(w.log[i].from)), w.log[i].wire.header)
  {
    hide Reachable, Next;
    var sent := SendMany(maxSkip + 3, maxSkip);
    OneSkipped(sent, maxSkip);
    ReachableExtends(sent, Deliver(1));
    w := Next(sent, Deliver(1));
    i := maxSkip + 2;
  }

  // ---------- A harmless superseded delivery exists ----------

  /** The first `d` of the initiator's `k` messages have arrived, in order. */
  ghost predicate InOrder(w: World, k: nat, d: nat, maxSkip: nat) {
    && |w.log| == k && d <= k && (forall x <- w.seen :: x < d) && w.nextKey == 2 + k + d
    && (forall j | 0 <= j < k :: w.log[j].from == Alice && w.log[j].wire.Framed?
                                 && w.log[j].wire.header.dh == PublicOf(0) && w.log[j].wire.header.n == j)
    && w.alice == Start(Secret(0), 0, 1, maxSkip, maxSkip).alice.(send := w.alice.send, ns := k)
    && w.alice.send.Some? && w.bob.recv.Some?
    && w.bob == Start(Secret(0), 0, 1, maxSkip, maxSkip).bob.(recv := w.bob.recv, nr := d)
  }

  lemma {:induction false} DeliverInOrder(k: nat, d: nat, maxSkip: nat) returns (w: World)
    requires d <= k < U32_LIMIT
    ensures Reachable(w) && InOrder(w, k, d, maxSkip)
    decreases d
  {
    hide Reachable;
    if d == 0 {
      w := SendMany(k, maxSkip);
    } else {
      w := DeliverInOrder(k, d - 1, maxSkip);
      ReachableExtends(w, Deliver(d - 1));
      w := Next(w, Deliver(d - 1));
    }
  }

  /** A first chain that is longer than the buffer, and two more turns: the first message of the second turn,
      delivered again, is superseded, and its count of the first chain is out of bounds. */
  lemma LateRefusalExists(maxSkip: nat) returns (w: World, i: nat)
    requires maxSkip + 2 < U32_LIMIT
    ensures Reachable(w) && i < |w.log| && w.log[i].wire.Framed? && Superseded(w, i) && Harmless(w, i)
    ensures w.Of(Peer(w.log[i].from)).maxSkip == maxSkip
  {
    hide Reachable;
    var k := maxSkip + 2;
    var w0 := DeliverInOrder(k, k, maxSkip);
    var w1 := Exchange(w0, Bob);
    var w2 := Exchange(w1, Alice);
    var w3 := Exchange(w2, Bob);
    w := Exchange(w3, Alice);
    i := k + 1;
    assert w.log[i] == w3.log[i] == w2.log[i];
    assert k + 3 in w.seen && w.log[k + 3].wire.header.dh != w.log[i].wire.header.dh;
  }
}
