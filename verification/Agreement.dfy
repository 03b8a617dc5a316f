/** The two sides of the handshake agree, and exactly when they do. */
module Agreement {
  import opened Terms
  import opened Handshake
  import R = Ratchet
  import opened TwoParty
  import opened Synchrony
  import opened Room
  import opened RatchetSafety

  /** The one-time prekey of the bundle, if any, is the responder's first: the initiator announces
      index 0 whichever prekey the server handed out. */
  predicate OpkIsFirst(bundle: Bundle, device: Device) {
    bundle.opk.Some? ==> bundle.opk.value.Point? && |device.opks| > 0 && bundle.opk.value.key == device.opks[0]
  }

  predicate SamePoint(public: PublicKey, key: PrivateKey) { public.Point? && public.key == key }

  /** What the initiator's call comes to: its refusals in their order, or the payload and the secret. */
  lemma InitiateExactly(ikx: PrivateKey, bundle: Bundle, draw: R.Draw)
    ensures var r := Initiate(ikx, bundle, draw);
            && (if bundle.spkSignature != Signed(bundle.authIk, bundle.spk) then r == Err(InvalidSignature)
                else if draw.WrongLength? then r == Err(InvalidEphemeral)
                else if bundle.ikx.None? then r == Err(MissingIkx)
                else if bundle.ikx.value.Point? && bundle.spk.Point? && (bundle.opk.Some? ==> bundle.opk.value.Point?)
                then r.Ok? else r == Err(KeyRefused))
            && (r.Ok? ==>
                  && r.value.ek == draw.key && r.value.agreed.ad == AssociatedData(PublicOf(ikx), bundle.ikx.value)
                  && r.value.payload == Init(PublicOf(ikx), PublicOf(draw.key),
                                             if bundle.opk.Some? then Some(0) else None, None)
                  && r.value.agreed.zPq == None
                  && r.value.agreed.sharedSecret == X3dhSecret(
                       [Dh(ikx, bundle.spk.key), Dh(draw.key, bundle.ikx.value.key), Dh(draw.key, bundle.spk.key)]
                       + if bundle.opk.Some? then [Dh(draw.key, bundle.opk.value.key)] else []))
  {
    if bundle.ikx.Some? && draw.Private? {
      var pairs := InitiatorPairs(ikx, draw.key, bundle);
      DhListExactly(pairs);
      assert pairs[0] == (ikx, bundle.spk) && pairs[1] == (draw.key, bundle.ikx.value);
      assert pairs[2] == (draw.key, bundle.spk);
      if bundle.opk.Some? { assert pairs[3] == (draw.key, bundle.opk.value); }
    }
  }

  /** What the responder's call comes to. */
  lemma RespondExactly(device: Device, ikxPublic: PublicKey, init: Init)
    ensures var r := Respond(device, ikxPublic, init);
            if !init.ikx.Point? || !init.ek.Point? then r == Err(KeyRefused)
            else
              var parts := [Dh(device.spk, init.ikx.key), Dh(device.ikx, init.ek.key), Dh(device.spk, init.ek.key)];
              match init.opkIndex
              case None => r == Ok(Agreed(X3dhSecret(parts), None, AssociatedData(init.ikx, ikxPublic)))
              case Some(i) =>
                if i < |device.opks|
                then r == Ok(Agreed(X3dhSecret(parts + [Dh(device.opks[i], init.ek.key)]), None,
                                    AssociatedData(init.ikx, ikxPublic)))
                else r == Err(InvalidPayload)
  {
    var pairs := ResponderPairs(device.ikx, device.spk, init);
    DhListExactly(pairs);
    assert pairs[0].1 == init.ikx && pairs[1].1 == init.ek && pairs[2].1 == init.ek;
    if init.ikx.Point? && init.ek.Point? {
      var parts := [Dh(device.spk, init.ikx.key), Dh(device.ikx, init.ek.key), Dh(device.spk, init.ek.key)];
      assert DhList(pairs).value == parts;
    }
  }

  /** Handshake agreement: the responder computes the initiator's shared secret from its payload if and
      only if the bundle's prekeys are the responder's, and its one-time prekey is the first; the
      associated data agree if and only if the bundle carries the responder's identity as it is. */
  lemma SecretsAgreeExactly(ikx: PrivateKey, bundle: Bundle, draw: R.Draw, device: Device, ikxPublic: PublicKey)
    requires Initiate(ikx, bundle, draw).Ok?
    ensures var init := Initiate(ikx, bundle, draw).value;
            var response := Respond(device, ikxPublic, init.payload);
            && (response.Ok? && response.value.sharedSecret == init.agreed.sharedSecret
                <==> SamePoint(bundle.spk, device.spk) && bundle.ikx.Some? && SamePoint(bundle.ikx.value, device.ikx)
                     && OpkIsFirst(bundle, device))
            && (response.Ok? ==> (response.value.ad == init.agreed.ad <==> bundle.ikx == Some(ikxPublic)))
  {
    InitiateExactly(ikx, bundle, draw);
    var init := Initiate(ikx, bundle, draw).value;
    RespondExactly(device, ikxPublic, init.payload);
    var theirs := [Dh(device.spk, ikx), Dh(device.ikx, draw.key), Dh(device.spk, draw.key)];
    var ours := [Dh(ikx, bundle.spk.key), Dh(draw.key, bundle.ikx.value.key), Dh(draw.key, bundle.spk.key)];
    if bundle.opk.Some? && |device.opks| > 0 {
      EqualParts(ours + [Dh(draw.key, bundle.opk.value.key)], theirs + [Dh(device.opks[0], draw.key)]);
    } else if bundle.opk.None? {
      EqualParts(ours + [], theirs);
    }
  }

  lemma EqualParts(a: seq<DhOutput>, b: seq<DhOutput>)
    requires |a| == |b| && |a| in {3, 4}
    ensures a == b <==> a[0] == b[0] && a[1] == b[1] && a[2] == b[2] && (|a| == 4 ==> a[3] == b[3])
  {
  }

  /** A bundle with another of the responder's one-time prekeys is signed, accepted and answered, and the
      two sides hold different secrets; if the responder has none left, the payload is refused. */
  lemma OtherOpkDisagrees(ikx: PrivateKey, ek: PrivateKey, device: Device, opk: PrivateKey)
    requires |device.opks| > 0 ==> device.opks[0] != opk
    ensures var bundle := Bundle(device.ik, Some(PublicOf(device.ikx)), PublicOf(device.spk),
                                 Signed(device.ik, PublicOf(device.spk)), Some(PublicOf(opk)), None, None);
            var init := Initiate(ikx, bundle, R.Private(ek));
            && init.Ok?
            && var response := Respond(device, PublicOf(device.ikx), init.value.payload);
            if |device.opks| == 0 then response == Err(InvalidPayload)
            else response.Ok? && response.value.ad == init.value.agreed.ad
                 && response.value.sharedSecret != init.value.agreed.sharedSecret
  {
    var bundle := Bundle(device.ik, Some(PublicOf(device.ikx)), PublicOf(device.spk),
                         Signed(device.ik, PublicOf(device.spk)), Some(PublicOf(opk)), None, None);
    InitiateExactly(ikx, bundle, R.Private(ek));
    SecretsAgreeExactly(ikx, bundle, R.Private(ek), device, PublicOf(device.ikx));
    RespondExactly(device, PublicOf(device.ikx), Initiate(ikx, bundle, R.Private(ek)).value.payload);
  }

  /** The session pair: with a bundle that carries the responder's keys, and the one-time prekey first or
      absent, both sides open a session on the initiator's identity followed by the responder's, and their
      ratchets are the start of a conversation to which every theorem about reachable worlds applies. */
  lemma SessionsStartInStep(ikx: PrivateKey, bundle: Bundle, ek: PrivateKey, device: Device,
                            maxSkipAlice: nat, maxSkipBob: nat)
    requires bundle.spkSignature == Signed(bundle.authIk, bundle.spk)
    requires bundle.spk == PublicOf(device.spk) && bundle.ikx == Some(PublicOf(device.ikx))
    requires OpkIsFirst(bundle, device) && ek != device.spk
    ensures var a := InitiateSession(ikx, bundle, R.Private(ek), maxSkipAlice);
            && a.Ok? && a.value.payload.Some?
            && var b := AcceptSession(device, PublicOf(device.ikx), a.value.payload.value, maxSkipBob);
            && b.Ok? && a.value.ad == b.value.ad == AssociatedData(PublicOf(ikx), PublicOf(device.ikx))
            && Reachable(World(a.value.ratchet, b.value.ratchet, [], {}, {},
                               1 + if ek < device.spk then device.spk else ek))
  {
    hide Reachable;
    InitiateExactly(ikx, bundle, R.Private(ek));
    SecretsAgreeExactly(ikx, bundle, R.Private(ek), device, PublicOf(device.ikx));
    var secret := Initiate(ikx, bundle, R.Private(ek)).value.agreed.sharedSecret;
    StartReachable(secret, ek, device.spk, maxSkipAlice, maxSkipBob);
  }

  // ---------- The hybrid handshake ----------

  /** What the hybrid calls come to beside the classical ones: the refusals that come first, and the capsule, which
      only the key it was made for opens. */
  lemma HybridExactly(ikx: PrivateKey, pqKem: Option<PrivateKey>, bundle: Bundle, draw: R.Draw, coins: nat)
    ensures var r, classical := InitiateHybrid(ikx, pqKem, bundle, draw, coins), Initiate(ikx, bundle, draw);
            if bundle.pqKem.None? then r == Err(InvalidBundle)
            else if bundle.spkSignature != Signed(bundle.authIk, bundle.spk) then r == Err(InvalidSignature)
            else if pqKem.None? then r == Err(InvalidBundle)
            else if classical.Err? then r == Err(classical.error)
            else
              && r.Ok? && r.value.ek == classical.value.ek
              && r.value.agreed.sharedSecret == classical.value.agreed.sharedSecret
              && r.value.agreed.ad == classical.value.agreed.ad
              && r.value.agreed.zPq == Some(KemSecret(bundle.pqKem.value, coins))
              && r.value.payload.ikx == PublicOf(ikx) && r.value.payload.ek == PublicOf(draw.key)
              && r.value.payload.opkIndex == (if bundle.opk.Some? then Some(0) else None)
              && r.value.payload.pq == Some((Capsule(bundle.pqKem.value, coins), pqKem.value))
  {
    InitiateExactly(ikx, bundle, draw);
  }

  lemma HybridResponseExactly(device: Device, init: Init)
    requires init.pq.Some?
    ensures var r, classical := RespondHybrid(device, init), Respond(device, PublicOf(device.ikx), init);
            if device.pqKem.None? then r == Err(InvalidBundle)
            else if init.opkIndex.Some? && init.opkIndex.value >= |device.opks| then r == Err(InvalidPayload)
            else if classical.Err? then r == Err(classical.error)
            else
              && r.Ok? && r.value.sharedSecret == classical.value.sharedSecret
              && r.value.ad == AssociatedData(init.ikx, PublicOf(device.ikx))
              && r.value.zPq.Some? && (r.value.zPq.value.KemSecret? <==> init.pq.value.0.kemKey == device.pqKem.value)
              && (init.pq.value.0.kemKey == device.pqKem.value <==>
                    r.value.zPq == Some(KemSecret(init.pq.value.0.kemKey, init.pq.value.0.coins)))
  {
    RespondExactly(device, PublicOf(device.ikx), init);
  }

  /** The public inputs stand in both roots as version, initiator, responder, its prekey and its post-quantum keys. */
  lemma RootsExactly(ik: nat, ikx: PrivateKey, bundle: Bundle, a: Agreed, device: Device, init: Init, b: Agreed)
    requires bundle.ikx.Some? && a.zPq.Some? && b.zPq.Some?
    ensures var root := InitiatorRoot(ik, ikx, bundle, a);
            && root.HybridSecret? && root.zClassical == a.sharedSecret && root.zPq == a.zPq.value
            && var t := root.transcript;
            && t.version == 2 && t.aliceIk == ik && t.aliceIkx == PublicOf(ikx) && t.bobIk == bundle.authIk
            && t.bobIkx == bundle.ikx.value && t.bobSpk == bundle.spk && t.bobPqKem == bundle.pqKem
            && t.bobPqSig == bundle.pqSig
    ensures var root := ResponderRoot(device, ik, init, b);
            && root.HybridSecret? && root.zClassical == b.sharedSecret && root.zPq == b.zPq.value
            && var t := root.transcript;
            && t.version == 2 && t.aliceIk == ik && t.aliceIkx == init.ikx && t.bobIk == device.ik
            && t.bobIkx == PublicOf(device.ikx) && t.bobSpk == PublicOf(device.spk) && t.bobPqKem == device.pqKem
            && t.bobPqSig == device.pqSig
  {
  }

  /** A session is refused exactly as its handshake is. */
  lemma SessionsRefusedExactly(ik: nat, ikx: PrivateKey, pqKem: PrivateKey, bundle: Bundle, draw: R.Draw, coins: nat,
                               device: Device, init: Init, maxSkip: nat)
    ensures var r, h := InitiateSession(ikx, bundle, draw, maxSkip), Initiate(ikx, bundle, draw);
            if h.Err? then r == Err(h.error) else r.Ok? && r.value.payload == Some(h.value.payload)
    ensures var r, h := AcceptSession(device, PublicOf(device.ikx), init, maxSkip),
                        Respond(device, PublicOf(device.ikx), init);
            if h.Err? then r == Err(h.error) else r.Ok? && r.value.payload == None
    ensures var r, h := InitiateHybridSession(ik, ikx, pqKem, bundle, draw, coins, maxSkip),
                        InitiateHybrid(ikx, Some(pqKem), bundle, draw, coins);
            if h.Err? then r == Err(h.error) else r.Ok? && r.value.payload == Some(h.value.payload)
    ensures init.pq.Some? ==>
              var r, h := AcceptHybridSession(device, ik, init, maxSkip), RespondHybrid(device, init);
              if h.Err? then r == Err(h.error) else r.Ok? && r.value.payload == None
  {
    InitiateExactly(ikx, bundle, draw);
    RespondExactly(device, PublicOf(device.ikx), init);
  }

  /** The public inputs that both sides put into the transcript. */
  predicate SamePublicInputs(bundle: Bundle, device: Device, initiatorIk: nat, claimedIk: nat) {
    && initiatorIk == claimedIk && bundle.authIk == device.ik
    && bundle.ikx == Some(PublicOf(device.ikx)) && bundle.spk == PublicOf(device.spk)
    && bundle.pqKem == device.pqKem && bundle.pqSig == device.pqSig
  }

  /** Hybrid agreement: both sides derive one root secret if and only if they put the same public inputs
      into the transcript and the one-time prekey is the first. The payload carries a capsule for the
      responder's KEM key, which decapsulates to the initiator's secret, and the initiator's own KEM key. */
  lemma HybridRootsAgreeExactly(ik: nat, ikx: PrivateKey, pqKem: PrivateKey, bundle: Bundle, draw: R.Draw,
                                coins: nat, device: Device, claimedIk: nat)
    requires InitiateHybrid(ikx, Some(pqKem), bundle, draw, coins).Ok?
    ensures var init := InitiateHybrid(ikx, Some(pqKem), bundle, draw, coins).value;
            && bundle.ikx.Some? && init.agreed.zPq.Some? && bundle.pqKem.Some?
            && init.payload.pq == Some((Capsule(bundle.pqKem.value, coins), pqKem))
            && var response := RespondHybrid(device, init.payload);
            && (response.Ok? ==> response.value.zPq.Some?)
            && (response.Ok? && ResponderRoot(device, claimedIk, init.payload, response.value)
                                == InitiatorRoot(ik, ikx, bundle, init.agreed)
                <==> SamePublicInputs(bundle, device, ik, claimedIk) && OpkIsFirst(bundle, device))
            && (response.Ok? && bundle.pqKem == device.pqKem ==> response.value.zPq == init.agreed.zPq)
  {
    InitiateExactly(ikx, bundle, draw);
    SecretsAgreeExactly(ikx, bundle, draw, device, PublicOf(device.ikx));
    var classical := Initiate(ikx, bundle, draw).value;
    var init := InitiateHybrid(ikx, Some(pqKem), bundle, draw, coins).value;
    assert Respond(device, PublicOf(device.ikx), init.payload)
        == Respond(device, PublicOf(device.ikx), classical.payload);
  }

  /** The hybrid session pair starts in step under the same conditions. */
  lemma HybridSessionsStartInStep(ik: nat, ikx: PrivateKey, pqKem: PrivateKey, bundle: Bundle, ek: PrivateKey,
                                  coins: nat, device: Device, maxSkipAlice: nat, maxSkipBob: nat)
    requires bundle.spkSignature == Signed(bundle.authIk, bundle.spk) && bundle.pqKem.Some?
    requires SamePublicInputs(bundle, device, ik, ik) && OpkIsFirst(bundle, device) && ek != device.spk
    ensures var a := InitiateHybridSession(ik, ikx, pqKem, bundle, R.Private(ek), coins, maxSkipAlice);
            && a.Ok? && a.value.payload.Some? && a.value.payload.value.pq.Some?
            && var b := AcceptHybridSession(device, ik, a.value.payload.value, maxSkipBob);
            && b.Ok? && a.value.ad == b.value.ad == AssociatedData(PublicOf(ikx), PublicOf(device.ikx))
            && Reachable(World(a.value.ratchet, b.value.ratchet, [], {}, {},
                               1 + if ek < device.spk then device.spk else ek))
  {
    hide Reachable;
    InitiateExactly(ikx, bundle, R.Private(ek));
    SecretsAgreeExactly(ikx, bundle, R.Private(ek), device, PublicOf(device.ikx));
    HybridRootsAgreeExactly(ik, ikx, pqKem, bundle, R.Private(ek), coins, device, ik);
    var init := InitiateHybrid(ikx, Some(pqKem), bundle, R.Private(ek), coins).value;
    StartReachable(InitiatorRoot(ik, ikx, bundle, init.agreed), ek, device.spk, maxSkipAlice, maxSkipBob);
  }

  // ---------- From the handshake to the last message ----------

  ghost predicate Bounded(w: World, maxSkipAlice: nat, maxSkipBob: nat) {
    && w.alice.maxSkip == maxSkipAlice && |w.alice.skipped| <= maxSkipAlice
    && w.bob.maxSkip == maxSkipBob && |w.bob.skipped| <= maxSkipBob
  }

  lemma EventKeepsBounds(w: World, event: Event)
    requires Bounded(w, w.alice.maxSkip, w.bob.maxSkip)
    ensures Bounded(Next(w, event), w.alice.maxSkip, w.bob.maxSkip)
  {
    hide R.Encrypt, R.Decrypt;
    match event
    case Send(q, plaintext, ad) => CallKeepsBound(w.Of(q), R.EncryptCall(plaintext, ad, R.Private(w.nextKey)));
    case Deliver(i) =>
      if i < |w.log| {
        var m := w.log[i];
        CallKeepsBound(w.Of(Peer(m.from)), R.DecryptCall(m.wire, m.ad, R.Private(w.nextKey)));
      }
  }

  lemma {:induction false} RunKeepsBounds(w: World, events: seq<Event>)
    requires Bounded(w, w.alice.maxSkip, w.bob.maxSkip)
    ensures Bounded(Run(w, events), w.alice.maxSkip, w.bob.maxSkip)
    decreases |events|
  {
    hide Next;
    if events != [] {
      EventKeepsBounds(w, events[0]);
      RunKeepsBounds(Next(w, events[0]), events[1..]);
    }
  }

  /** Whatever admissible run follows a handshake, a message that is delivered for the first time and is not
      superseded gives its plaintext if and only if no more messages are outstanding than the receiver was
      created to hold keys for. */
  lemma ConversationIsCorrect(ikx: PrivateKey, bundle: Bundle, ek: PrivateKey, device: Device,
                              maxSkipAlice: nat, maxSkipBob: nat, events: seq<Event>, i: nat)
    requires bundle.spkSignature == Signed(bundle.authIk, bundle.spk)
    requires bundle.spk == PublicOf(device.spk) && bundle.ikx == Some(PublicOf(device.ikx))
    requires OpkIsFirst(bundle, device) && ek != device.spk
    ensures var a := InitiateSession(ikx, bundle, R.Private(ek), maxSkipAlice);
            && a.Ok? && a.value.payload.Some?
            && var b := AcceptSession(device, PublicOf(device.ikx), a.value.payload.value, maxSkipBob);
            && b.Ok?
            && var start := World(a.value.ratchet, b.value.ratchet, [], {}, {},
                                  1 + if ek < device.spk then device.spk else ek);
            && (AdmissibleRun(start, events) && i < |Run(start, events).log|
                && Run(start, events).log[i].wire.Framed? && !Superseded(Run(start, events), i)
                && i !in Run(start, events).delivered ==>
                  var w, m := Run(start, events), Run(start, events).log[i];
                  Delivering(w, i).outcome == Ok(m.plaintext)
                  <==> |Outstanding(w, i)| <= if m.from.Alice? then maxSkipBob else maxSkipAlice)
  {
    hide Reachable, Initiate, Respond, OpkIsFirst, Run, AdmissibleRun, Superseded, Outstanding, Delivering;
    SessionsStartInStep(ikx, bundle, ek, device, maxSkipAlice, maxSkipBob);
    var a := InitiateSession(ikx, bundle, R.Private(ek), maxSkipAlice).value;
    var b := AcceptSession(device, PublicOf(device.ikx), a.payload.value, maxSkipBob).value;
    var start := World(a.ratchet, b.ratchet, [], {}, {}, 1 + if ek < device.spk then device.spk else ek);
    if AdmissibleRun(start, events) {
      ReachableRun(start, events);
      RunKeepsBounds(start, events);
      var w := Run(start, events);
      if i < |w.log| && w.log[i].wire.Framed? && !Superseded(w, i) && i !in w.delivered {
        ReadExactlyIfOutstandingFits(w, i);
      }
    }
  }
}
