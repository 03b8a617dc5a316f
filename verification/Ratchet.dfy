/** What each call of the Double Ratchet does to the ratchet state (`src/crypto/doubleRatchet.ts`).

    These functions are the specification that the class in `DoubleRatchet.dfy` is proved against;
    every theorem about runs is a theorem about them. A call that throws still returns the state it
    leaves behind, because the source updates its fields before it may throw. */
module Ratchet {
  import opened Terms

  datatype Error =
    | Malformed | UnsupportedVersion | NoRecvChain | Replayed | TooFarAhead | SkipBound
    | SkipBufferExhausted | AuthFailed | StateMalformed | InvalidEphemeral | NoRemote
    | KeyRefused // thrown by the X25519 library, not a RatchetError

  type Outcome<+T> = Result<T, Error>

  /** One use of the random source: a fresh key, or bytes of the wrong length. */
  datatype Draw = Private(key: PrivateKey) | WrongLength

  /** What arrives: a frame, or bytes that `unpackMessage` rejects. */
  datatype Wire = Framed(header: Header, ciphertext: Ciphertext) | Unframed(error: Error)

  /** The key of the skipped-key map: a remote ratchet key and a message index. */
  datatype Slot = Slot(dh: PublicKey, n: nat)

  datatype State = State(
    rk: Term,
    local: PrivateKey,
    remote: Option<PublicKey>,
    send: Option<Term>,
    recv: Option<Term>,
    ns: nat,
    nr: nat,
    pn: nat,
    maxSkip: nat,
    skipped: map<Slot, Term>,
    initiator: bool)

  datatype Step<+T> = Step(state: State, outcome: Outcome<T>)

  function Create(rootKey: Term, startChain: Term, local: PrivateKey, remote: Option<PublicKey>,
                  initiator: bool, maxSkip: nat): State
  {
    State(rootKey, local, remote,
          if initiator then Some(startChain) else None,
          if initiator then None else Some(startChain),
          0, 0, 0, maxSkip, map[], initiator)
  }

  // ---------- Skipped keys ----------

  /** The skip loop: where the local chain variable stands, the receive index, the buffer, and the
      error if buffering threw. */
  datatype Skip = Skip(chain: Term, nr: nat, skipped: map<Slot, Term>, error: Option<Error>)

  function BufferKeys(chain: Term, remote: Option<PublicKey>, nr: nat, upTo: nat,
                      skipped: map<Slot, Term>, maxSkip: nat): Skip
    decreases upTo - nr
  {
    if nr >= upTo then Skip(chain, nr, skipped, None)
    else if |skipped| >= maxSkip then Skip(chain, nr, skipped, Some(SkipBufferExhausted))
    else if remote.None? then Skip(chain, nr, skipped, Some(NoRecvChain))
    else BufferKeys(NextChain(chain), remote, nr + 1, upTo,
                    skipped[Slot(remote.value, nr) := MessageKey(chain)], maxSkip)
  }

  function SkipMessageKeys(s: State, upTo: nat): Step<()> {
    if s.recv.None? then Step(s, Ok(()))
    else if upTo > s.nr + s.maxSkip then Step(s, Err(SkipBound))
    else
      var k := BufferKeys(s.recv.value, s.remote, s.nr, upTo, s.skipped, s.maxSkip);
      var s' := s.(nr := k.nr, skipped := k.skipped);
      if k.error.Some? then Step(s', Err(k.error.value))
      else Step(s'.(recv := Some(k.chain)), Ok(()))
  }

  // ---------- Root steps ----------

  function GenerateSendingChain(s: State, draw: Draw): (step: Step<()>)
    ensures step.outcome.Ok? ==> step.state.send.Some?
  {
    if s.remote.None? then Step(s, Err(NoRemote))
    else if draw.WrongLength? then Step(s, Err(InvalidEphemeral))
    else
      match DhX25519(draw.key, s.remote.value)
      case None => Step(s, Err(KeyRefused))
      case Some(dh) =>
        Step(s.(rk := NewRoot(s.rk, dh), send := Some(FirstChain(s.rk, dh)),
                local := draw.key, pn := s.ns, ns := 0),
             Ok(()))
  }

  function DhRatchet(s: State, newRemote: PublicKey, draw: Draw): Step<()> {
    if s.remote.None? then Step(s, Err(StateMalformed))
    else
      var s1 := s.(pn := s.ns, ns := 0, nr := 0, remote := Some(newRemote));
      match DhX25519(s1.local, newRemote)
      case None => Step(s1, Err(KeyRefused))
      case Some(recvDh) =>
        var s2 := s1.(rk := NewRoot(s1.rk, recvDh), recv := Some(FirstChain(s1.rk, recvDh)));
        if draw.WrongLength? then Step(s2, Err(InvalidEphemeral))
        else
          match DhX25519(draw.key, newRemote)
          case None => Step(s2, Err(KeyRefused))
          case Some(sendDh) =>
            Step(s2.(rk := NewRoot(s2.rk, sendDh), send := Some(FirstChain(s2.rk, sendDh)),
                     local := draw.key),
                 Ok(()))
  }

  // ---------- Encrypt and decrypt ----------

  function Seal(messageKey: Term, index: nat, plaintext: seq<byte>, ad: FullAd): Ciphertext {
    Sealed(AesKey(messageKey, index), Nonce(messageKey, index), plaintext, ad)
  }

  function Encrypt(s: State, plaintext: seq<byte>, ad: seq<byte>, draw: Draw): Step<Wire> {
    var g := if s.send.None? then GenerateSendingChain(s, draw) else Step(s, Ok(()));
    if g.outcome.Err? then Step(g.state, Err(g.outcome.error))
    else
      var s1 := g.state;
      var header := Header(PublicOf(s1.local), ToU32(s1.pn), ToU32(s1.ns));
      var sealed := Seal(MessageKey(s1.send.value), s1.ns, plaintext, FullAd(ad, header));
      Step(s1.(send := Some(NextChain(s1.send.value)), ns := s1.ns + 1), Ok(Framed(header, sealed)))
  }

  /** The message key for index `n` of the current remote key: from the buffer, or by moving the
      receive chain. */
  function TakeMessageKey(s: State, dh: PublicKey, n: u32): Step<Term> {
    var slot := Slot(dh, n);
    if slot in s.skipped then Step(s.(skipped := s.skipped - {slot}), Ok(s.skipped[slot]))
    else if s.recv.None? then Step(s, Err(NoRecvChain))
    else if n < s.nr then Step(s, Err(Replayed))
    else if n > s.nr + s.maxSkip then Step(s, Err(TooFarAhead))
    else
      var k := BufferKeys(s.recv.value, s.remote, s.nr, n, s.skipped, s.maxSkip);
      var s' := s.(nr := k.nr, skipped := k.skipped);
      if k.error.Some? then Step(s', Err(k.error.value))
      else Step(s'.(recv := Some(NextChain(k.chain)), nr := k.nr + 1), Ok(MessageKey(k.chain)))
  }

  /** Decryption once the remote key is the header's. */
  function Receive(s: State, header: Header, ciphertext: Ciphertext, ad: seq<byte>): Step<seq<byte>> {
    var t := TakeMessageKey(s, header.dh, header.n);
    if t.outcome.Err? then Step(t.state, Err(t.outcome.error))
    else
      var mk := t.outcome.value;
      match Open(AesKey(mk, header.n), Nonce(mk, header.n), FullAd(ad, header), ciphertext)
      case Some(plaintext) => Step(t.state, Ok(plaintext))
      case None => Step(t.state, Err(AuthFailed))
  }

  /** The turn of the ratchet that a header with another remote key forces. */
  function TurnTo(s: State, header: Header, draw: Draw): (step: Step<()>)
    ensures step.outcome.Ok? ==> step.state.remote == Some(header.dh)
  {
    if s.remote == Some(header.dh) then Step(s, Ok(()))
    else
      var a := SkipMessageKeys(s, header.pn);
      if a.outcome.Err? then a else DhRatchet(a.state, header.dh, draw)
  }

  function Decrypt(s: State, wire: Wire, ad: seq<byte>, draw: Draw): Step<seq<byte>> {
    match wire
    case Unframed(e) => Step(s, Err(e))
    case Framed(header, ciphertext) =>
      var t := TurnTo(s, header, draw);
      if t.outcome.Err? then Step(t.state, Err(t.outcome.error))
      else Receive(t.state, header, ciphertext, ad)
  }

  // ---------- Runs of one ratchet ----------

  datatype Call =
    | EncryptCall(plaintext: seq<byte>, ad: seq<byte>, draw: Draw)
    | DecryptCall(wire: Wire, ad: seq<byte>, draw: Draw)

  function After(s: State, call: Call): State {
    match call
    case EncryptCall(plaintext, ad, draw) => Encrypt(s, plaintext, ad, draw).state
    case DecryptCall(wire, ad, draw) => Decrypt(s, wire, ad, draw).state
  }

  function AfterAll(s: State, calls: seq<Call>): State
    decreases |calls|
  {
    if calls == [] then s else AfterAll(After(s, calls[0]), calls[1..])
  }
}
