/** The X3DH handshake and its hybrid form (`src/crypto/x3dh.ts`), and the two ratchets that a session
    starts with (`src/crypto/e2eeSession.ts`). Init payloads are values here; their bytes are in
    `InitFrames.dfy`. */
module Handshake {
  import opened Terms
  import R = Ratchet

  datatype Error =
    | InvalidPayload | InvalidSignature | MissingIkx | InvalidEphemeral | InvalidBundle
    | KeyRefused // thrown by the X25519 library

  type Outcome<+T> = Result<T, Error>

  /** An Ed25519 signature on a signed prekey, or bytes that verify under no key. */
  datatype Signature = Signed(signer: nat, spk: PublicKey) | Forged

  function VerifySignedPrekey(ik: nat, spk: PublicKey, signature: Signature): bool {
    signature == Signed(ik, spk)
  }

  /** What the initiator fetches about the responder. Signature keys and KEM keys are known by their
      identities. */
  datatype Bundle = Bundle(authIk: nat, ikx: Option<PublicKey>, spk: PublicKey, spkSignature: Signature,
                           opk: Option<PublicKey>, pqKem: Option<PrivateKey>, pqSig: Option<nat>)

  /** The responder's own keys. */
  datatype Device = Device(ik: nat, ikx: PrivateKey, spk: PrivateKey, opks: seq<PrivateKey>,
                           pqKem: Option<PrivateKey>, pqSig: Option<nat>)

  /** The 64 bytes of associated data: both X25519 identities. */
  datatype AssociatedData = AssociatedData(initiator: PublicKey, responder: PublicKey)

  /** The init payload of either version; `pq` is the capsule and the initiator's KEM key of version 2. */
  datatype Init = Init(ikx: PublicKey, ek: PublicKey, opkIndex: Option<nat>, pq: Option<(Capsule, PrivateKey)>)

  datatype Agreed = Agreed(sharedSecret: Term, zPq: Option<Term>, ad: AssociatedData)

  datatype Initiation = Initiation(agreed: Agreed, payload: Init, ek: PrivateKey)

  // ---------- The DH outputs ----------

  /** One `dhX25519` after another; the first refused key stops the list. */
  function DhList(pairs: seq<(PrivateKey, PublicKey)>): Option<seq<DhOutput>> {
    if pairs == [] then Some([])
    else
      match DhX25519(pairs[0].0, pairs[0].1)
      case None => None
      case Some(first) =>
        match DhList(pairs[1..])
        case None => None
        case Some(rest) => Some([first] + rest)
  }

  lemma {:induction false} DhListExactly(pairs: seq<(PrivateKey, PublicKey)>)
    ensures var r := DhList(pairs);
            && (r.Some? <==> forall i | 0 <= i < |pairs| :: pairs[i].1.Point?)
            && (r.Some? ==> |r.value| == |pairs|
                            && forall i | 0 <= i < |pairs| :: r.value[i] == Dh(pairs[i].0, pairs[i].1.key))
  {
    if pairs != [] {
      DhListExactly(pairs[1..]);
      assert forall i | 0 < i < |pairs| :: pairs[i] == pairs[1..][i - 1];
    }
  }

  function InitiatorPairs(ikx: PrivateKey, ek: PrivateKey, bundle: Bundle): seq<(PrivateKey, PublicKey)>
    requires bundle.ikx.Some?
  {
    [(ikx, bundle.spk), (ek, bundle.ikx.value), (ek, bundle.spk)]
    + if bundle.opk.Some? then [(ek, bundle.opk.value)] else []
  }

  function ResponderPairs(ikx: PrivateKey, spk: PrivateKey, init: Init): seq<(PrivateKey, PublicKey)> {
    [(spk, init.ikx), (ikx, init.ek), (spk, init.ek)]
  }

  // ---------- The initiator ----------

  /** `x3dhInitiate`. The index it announces is 0 whenever the bundle has a one-time prekey. */
  function Initiate(ikx: PrivateKey, bundle: Bundle, draw: R.Draw): Outcome<Initiation> {
    if !VerifySignedPrekey(bundle.authIk, bundle.spk, bundle.spkSignature) then Err(InvalidSignature)
    else if draw.WrongLength? then Err(InvalidEphemeral)
    else if bundle.ikx.None? then Err(MissingIkx)
    else
      match DhList(InitiatorPairs(ikx, draw.key, bundle))
      case None => Err(KeyRefused)
      case Some(parts) =>
        var index := if bundle.opk.Some? then Some(0) else None;
        Ok(Initiation(Agreed(X3dhSecret(parts), None, AssociatedData(PublicOf(ikx), bundle.ikx.value)),
                      Init(PublicOf(ikx), PublicOf(draw.key), index, None), draw.key))
  }

  /** `x3dhInitiateHybrid`, which encapsulates to the responder's KEM key with the given coins. */
  function InitiateHybrid(ikx: PrivateKey, pqKem: Option<PrivateKey>, bundle: Bundle, draw: R.Draw,
                          coins: nat): Outcome<Initiation>
  {
    if bundle.pqKem.None? then Err(InvalidBundle)
    else if !VerifySignedPrekey(bundle.authIk, bundle.spk, bundle.spkSignature) then Err(InvalidSignature)
    else if pqKem.None? then Err(InvalidBundle)
    else
      match Initiate(ikx, bundle, draw)
      case Err(error) => Err(error)
      case Ok(classical) =>
        var kem := bundle.pqKem.value;
        Ok(classical.(agreed := classical.agreed.(zPq := Some(KemSecret(kem, coins))),
                      payload := classical.payload.(pq := Some((Capsule(kem, coins), pqKem.value)))))
  }

  // ---------- The responder ----------

  /** `x3dhRespond`: the index is looked up after the first three DH outputs. */
  function Respond(device: Device, ikxPublic: PublicKey, init: Init): Outcome<Agreed> {
    match DhList(ResponderPairs(device.ikx, device.spk, init))
    case None => Err(KeyRefused)
    case Some(parts) =>
      var ad := AssociatedData(init.ikx, ikxPublic);
      if init.opkIndex.None? then Ok(Agreed(X3dhSecret(parts), None, ad))
      else if init.opkIndex.value >= |device.opks| then Err(InvalidPayload)
      else
        match DhX25519(device.opks[init.opkIndex.value], init.ek)
        case None => Err(KeyRefused)
        case Some(dh) => Ok(Agreed(X3dhSecret(parts + [dh]), None, ad))
  }

  function Decapsulate(kem: PrivateKey, capsule: Capsule): Term {
    if capsule.kemKey == kem then KemSecret(kem, capsule.coins) else KemRejection(kem, capsule)
  }

  /** `x3dhRespondHybrid`: the index is looked up first. */
  function RespondHybrid(device: Device, init: Init): Outcome<Agreed>
    requires init.pq.Some?
  {
    if device.pqKem.None? then Err(InvalidBundle)
    else if init.opkIndex.Some? && init.opkIndex.value >= |device.opks| then Err(InvalidPayload)
    else
      match Respond(device, PublicOf(device.ikx), init)
      case Err(error) => Err(error)
      case Ok(classical) =>
        Ok(classical.(zPq := Some(Decapsulate(device.pqKem.value, init.pq.value.0))))
  }

  // ---------- The same, step by step ----------

  /** The body of `x3dhInitiate`: checks, then a list of DH outputs that grows by the one-time prekey's. */
  method X3dhInitiate(ikx: PrivateKey, bundle: Bundle, draw: R.Draw) returns (r: Outcome<Initiation>)
    ensures r == Initiate(ikx, bundle, draw)
  {
    if !VerifySignedPrekey(bundle.authIk, bundle.spk, bundle.spkSignature) { return Err(InvalidSignature); }
    if draw.WrongLength? { return Err(InvalidEphemeral); }
    if bundle.ikx.None? { return Err(MissingIkx); }
    ghost var pairs := InitiatorPairs(ikx, draw.key, bundle);
    DhListExactly(pairs);
    assert pairs[0] == (ikx, bundle.spk) && pairs[1] == (draw.key, bundle.ikx.value);
    assert pairs[2] == (draw.key, bundle.spk);
    var a := DhX25519(ikx, bundle.spk);
    if a.None? { return Err(KeyRefused); }
    var b := DhX25519(draw.key, bundle.ikx.value);
    if b.None? { return Err(KeyRefused); }
    var c := DhX25519(draw.key, bundle.spk);
    if c.None? { return Err(KeyRefused); }
    var parts := [a.value, b.value, c.value];
    var opkIndex: Option<nat> := None;
    if bundle.opk.Some? {
      assert pairs[3] == (draw.key, bundle.opk.value);
      var d := DhX25519(draw.key, bundle.opk.value);
      if d.None? { return Err(KeyRefused); }
      parts := parts + [d.value];
      opkIndex := Some(0);
    }
    assert DhList(pairs).Some? && DhList(pairs).value == parts;
    return Ok(Initiation(Agreed(X3dhSecret(parts), None, AssociatedData(PublicOf(ikx), bundle.ikx.value)),
                         Init(PublicOf(ikx), PublicOf(draw.key), opkIndex, None), draw.key));
  }

  /** The body of `x3dhRespond`. */
  method X3dhRespond(device: Device, ikxPublic: PublicKey, init: Init) returns (r: Outcome<Agreed>)
    ensures r == Respond(device, ikxPublic, init)
  {
    DhListExactly(ResponderPairs(device.ikx, device.spk, init));
    var a := DhX25519(device.spk, init.ikx);
    if a.None? { return Err(KeyRefused); }
    var b := DhX25519(device.ikx, init.ek);
    if b.None? { return Err(KeyRefused); }
    var c := DhX25519(device.spk, init.ek);
    if c.None? { return Err(KeyRefused); }
    var parts := [a.value, b.value, c.value];
    assert DhList(ResponderPairs(device.ikx, device.spk, init)).value == parts;
    if init.opkIndex.Some? {
      if init.opkIndex.value >= |device.opks| { return Err(InvalidPayload); }
      var d := DhX25519(device.opks[init.opkIndex.value], init.ek);
      if d.None? { return Err(KeyRefused); }
      parts := parts + [d.value];
    }
    return Ok(Agreed(X3dhSecret(parts), None, AssociatedData(init.ikx, ikxPublic)));
  }

  /** The body of `x3dhRespondHybrid`, which looks the one-time prekey up before any DH output. */
  method X3dhRespondHybrid(device: Device, init: Init) returns (r: Outcome<Agreed>)
    requires init.pq.Some?
    ensures r == RespondHybrid(device, init)
  {
    if device.pqKem.None? { return Err(InvalidBundle); }
    var opk: Option<PrivateKey> := None;
    if init.opkIndex.Some? {
      if init.opkIndex.value >= |device.opks| { return Err(InvalidPayload); }
      opk := Some(device.opks[init.opkIndex.value]);
    }
    DhListExactly(ResponderPairs(device.ikx, device.spk, init));
    var a := DhX25519(device.spk, init.ikx);
    if a.None? { return Err(KeyRefused); }
    var b := DhX25519(device.ikx, init.ek);
    if b.None? { return Err(KeyRefused); }
    var c := DhX25519(device.spk, init.ek);
    if c.None? { return Err(KeyRefused); }
    var parts := [a.value, b.value, c.value];
    assert DhList(ResponderPairs(device.ikx, device.spk, init)).value == parts;
    if opk.Some? {
      var d := DhX25519(opk.value, init.ek);
      if d.None? { return Err(KeyRefused); }
      parts := parts + [d.value];
    }
    return Ok(Agreed(X3dhSecret(parts), Some(Decapsulate(device.pqKem.value, init.pq.value.0)),
                     AssociatedData(init.ikx, PublicOf(device.ikx))));
  }

  // ---------- Sessions ----------

  datatype Session = Session(ratchet: R.State, ad: AssociatedData, payload: Option<Init>)

  /** The ratchet over a root secret and the DH of the signed prekey and the ephemeral key. */
  function StartRatchet(secret: Term, local: PrivateKey, remote: PublicKey, initiator: bool,
                        maxSkip: nat): Outcome<R.State>
  {
    match DhX25519(local, remote)
    case None => Err(KeyRefused)
    case Some(dh) =>
      Ok(R.Create(NewRoot(secret, dh), FirstChain(secret, dh), local, Some(remote), initiator, maxSkip))
  }

  function OpenSession(ratchet: Outcome<R.State>, ad: AssociatedData, payload: Option<Init>): Outcome<Session> {
    match ratchet
    case Err(error) => Err(error)
    case Ok(s) => Ok(Session(s, ad, payload))
  }

  /** `E2EESession.initiate`. */
  function InitiateSession(ikx: PrivateKey, bundle: Bundle, draw: R.Draw, maxSkip: nat): Outcome<Session> {
    match Initiate(ikx, bundle, draw)
    case Err(error) => Err(error)
    case Ok(init) =>
      OpenSession(StartRatchet(init.agreed.sharedSecret, init.ek, bundle.spk, true, maxSkip),
                  init.agreed.ad, Some(init.payload))
  }

  /** `E2EESession.accept`. */
  function AcceptSession(device: Device, ikxPublic: PublicKey, init: Init, maxSkip: nat): Outcome<Session> {
    match Respond(device, ikxPublic, init)
    case Err(error) => Err(error)
    case Ok(agreed) =>
      OpenSession(StartRatchet(agreed.sharedSecret, device.spk, init.ek, false, maxSkip), agreed.ad, None)
  }

  const HYBRID: nat := 2

  /** The root secret of `E2EESession.initiateHybrid`, bound to the public inputs it was given. */
  function InitiatorRoot(ik: nat, ikx: PrivateKey, bundle: Bundle, agreed: Agreed): Term
    requires bundle.ikx.Some? && agreed.zPq.Some?
  {
    HybridSecret(Transcript(HYBRID, ik, PublicOf(ikx), bundle.authIk, bundle.ikx.value, bundle.spk,
                            bundle.pqKem, bundle.pqSig),
                 agreed.sharedSecret, agreed.zPq.value)
  }

  /** The root secret of `E2EESession.acceptHybrid`. */
  function ResponderRoot(device: Device, aliceIk: nat, init: Init, agreed: Agreed): Term
    requires agreed.zPq.Some?
  {
    HybridSecret(Transcript(HYBRID, aliceIk, init.ikx, device.ik, PublicOf(device.ikx), PublicOf(device.spk),
                            device.pqKem, device.pqSig),
                 agreed.sharedSecret, agreed.zPq.value)
  }

  function InitiateHybridSession(ik: nat, ikx: PrivateKey, pqKem: PrivateKey, bundle: Bundle, draw: R.Draw,
                                 coins: nat, maxSkip: nat): Outcome<Session>
  {
    match InitiateHybrid(ikx, Some(pqKem), bundle, draw, coins)
    case Err(error) => Err(error)
    case Ok(init) =>
      OpenSession(StartRatchet(InitiatorRoot(ik, ikx, bundle, init.agreed), init.ek, bundle.spk, true, maxSkip),
                  init.agreed.ad, Some(init.payload))
  }

  function AcceptHybridSession(device: Device, aliceIk: nat, init: Init, maxSkip: nat): Outcome<Session>
    requires init.pq.Some?
  {
    match RespondHybrid(device, init)
    case Err(error) => Err(error)
    case Ok(agreed) =>
      OpenSession(StartRatchet(ResponderRoot(device, aliceIk, init, agreed), device.spk, init.ek, false, maxSkip),
                  agreed.ad, None)
  }
}
