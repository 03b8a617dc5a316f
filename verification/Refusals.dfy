/** Every way in which a call of the ratchet is refused, told by what the caller can see beforehand, and what the
    call has changed by then (`src/crypto/doubleRatchet.ts`, lines 270-406). */
module Refusals {
  import opened Terms
  import opened Ratchet
  import opened SkippedKeys

  // ---------- Encryption ----------

  /** The frame of a message: under the local ratchet key, the length of the previous sending chain and the index,
      sealed with the key and the nonce of the chain and the index. */
  predicate IsFrame(wire: Wire, local: PrivateKey, chain: Term, pn: nat, n: nat, plaintext: seq<byte>, ad: seq<byte>) {
    && wire.Framed? && wire.header.dh == PublicOf(local)
    && wire.header.pn == pn % 4294967296 && wire.header.n == n % 4294967296
    && wire.ciphertext.Sealed?
    && wire.ciphertext.key == AesKey(MessageKey(chain), n) && wire.ciphertext.nonce == Nonce(MessageKey(chain), n)
    && wire.ciphertext.plaintext == plaintext && wire.ciphertext.ad == FullAd(ad, wire.header)
  }

  /** An encryption on an open sending chain succeeds and moves it by one. Without one it opens it first, with a root
      step over a fresh key, or is refused unchanged. */
  lemma EncryptExactly(s: State, plaintext: seq<byte>, ad: seq<byte>, draw: Draw)
    ensures var step := Encrypt(s, plaintext, ad, draw);
            if s.send.Some? then
              && step.state == s.(send := Some(NextChain(s.send.value)), ns := s.ns + 1)
              && step.outcome.Ok? && IsFrame(step.outcome.value, s.local, s.send.value, s.pn, s.ns, plaintext, ad)
            else if s.remote.None? then step == Step(s, Err(NoRemote))
            else if draw.WrongLength? then step == Step(s, Err(InvalidEphemeral))
            else if s.remote.value.Refused? then step == Step(s, Err(KeyRefused))
            else
              var dh := Dh(draw.key, s.remote.value.key);
              var chain := FirstChain(s.rk, dh);
              && step.state == s.(rk := NewRoot(s.rk, dh), local := draw.key, send := Some(NextChain(chain)),
                                  pn := s.ns, ns := 1)
              && step.outcome.Ok? && IsFrame(step.outcome.value, draw.key, chain, s.ns, 0, plaintext, ad)
  {
  }

  // ---------- The skip loops ----------

  /** A loop throws for want of room; only a ratchet without a remote key has another error. */
  lemma {:induction false} LoopRefusal(chain: Term, remote: Option<PublicKey>, nr: nat, upTo: nat,
                                       skipped: map<Slot, Term>, maxSkip: nat)
    ensures var k := BufferKeys(chain, remote, nr, upTo, skipped, maxSkip);
            k.error.Some? ==> if remote.None? && |skipped| < maxSkip then k.error == Some(NoRecvChain)
                              else k.error == Some(SkipBufferExhausted)
    ensures nr < upTo && (remote.None? || |skipped| >= maxSkip) ==>
              BufferKeys(chain, remote, nr, upTo, skipped, maxSkip).error.Some?
              && BufferKeys(chain, remote, nr, upTo, skipped, maxSkip).(error := None) == Skip(chain, nr, skipped, None)
    decreases upTo - nr
  {
    if nr < upTo && |skipped| < maxSkip && remote.Some? {
      var added := skipped[Slot(remote.value, nr) := MessageKey(chain)];
      LoopRefusal(NextChain(chain), remote, nr + 1, upTo, added, maxSkip);
    }
  }

  /** Under the current remote key: an index that the chain has passed is a replay, one too far ahead is refused
      before anything is buffered, and a gap for which there is no room by the loop. */
  lemma KeyRefusedExactly(s: State, dh: PublicKey, n: u32)
    requires s.remote == Some(dh) && Slot(dh, n) !in s.skipped
    ensures var step := TakeMessageKey(s, dh, n);
            if s.recv.None? then step == Step(s, Err(NoRecvChain))
            else if n < s.nr then step == Step(s, Err(Replayed))
            else if n > s.nr + s.maxSkip then step == Step(s, Err(TooFarAhead))
            else if n == s.nr
            then step == Step(s.(recv := Some(NextChain(s.recv.value)), nr := n + 1), Ok(MessageKey(s.recv.value)))
            else
              && step.outcome in {Ok(MessageKey(Advance(s.recv.value, n - s.nr))), Err(SkipBufferExhausted)}
              && (|s.skipped| >= s.maxSkip ==> step == Step(s, Err(SkipBufferExhausted)))
              && (step.outcome.Ok? ==> step.state.nr == n + 1)
  {
    if s.recv.Some? && s.nr <= n {
      TakeAheadUnfolds(s, dh, n);
      hide TakeMessageKey, BufferKeys;
      LoopRefusal(s.recv.value, s.remote, s.nr, n, s.skipped, s.maxSkip);
      BufferKeysMoves(s.recv.value, s.remote, s.nr, n, s.skipped, s.maxSkip);
      NothingPassed(s.recv.value, s.remote, n, s.skipped, s.maxSkip);
    }
  }

  lemma NothingPassed(chain: Term, remote: Option<PublicKey>, n: nat, skipped: map<Slot, Term>, maxSkip: nat)
    ensures BufferKeys(chain, remote, n, n, skipped, maxSkip) == Skip(chain, n, skipped, None)
  {
  }

  /** Before a turn the rest of the old chain is buffered: a previous count too far ahead is refused unchanged, one
      for which there is no room by the loop. */
  lemma SkipRefusedExactly(s: State, upTo: nat)
    ensures var step := SkipMessageKeys(s, upTo);
            if s.recv.None? || upTo <= s.nr then step == Step(s, Ok(()))
            else if upTo > s.nr + s.maxSkip then step == Step(s, Err(SkipBound))
            else if s.remote.None?
            then step == Step(s, Err(if |s.skipped| < s.maxSkip then NoRecvChain else SkipBufferExhausted))
            else
              && step.outcome in {Ok(()), Err(SkipBufferExhausted)}
              && (|s.skipped| >= s.maxSkip ==> step == Step(s, Err(SkipBufferExhausted)))
              && (step.outcome.Ok? ==> step.state.recv == Some(Advance(s.recv.value, upTo - s.nr))
                                       && step.state.nr == upTo)
              && (step.outcome.Err? ==> step.state.recv == s.recv && step.state.nr < upTo)
              && step.state == s.(recv := step.state.recv, nr := step.state.nr, skipped := step.state.skipped)
  {
    if s.recv.Some? && upTo <= s.nr + s.maxSkip {
      SkipUnfolds(s, upTo);
      hide SkipMessageKeys, BufferKeys;
      LoopRefusal(s.recv.value, s.remote, s.nr, upTo, s.skipped, s.maxSkip);
      BufferKeysMoves(s.recv.value, s.remote, s.nr, upTo, s.skipped, s.maxSkip);
      if upTo <= s.nr { NothingToPass(s.recv.value, s.remote, s.nr, upTo, s.skipped, s.maxSkip); }
    }
  }

  lemma SkipUnfolds(s: State, upTo: nat)
    requires s.recv.Some? && upTo <= s.nr + s.maxSkip
    ensures var k := BufferKeys(s.recv.value, s.remote, s.nr, upTo, s.skipped, s.maxSkip);
            SkipMessageKeys(s, upTo) ==
              if k.error.Some? then Step(s.(nr := k.nr, skipped := k.skipped), Err(k.error.value))
              else Step(s.(nr := k.nr, skipped := k.skipped, recv := Some(k.chain)), Ok(()))
  {
  }

  lemma NothingToPass(chain: Term, remote: Option<PublicKey>, nr: nat, upTo: nat, skipped: map<Slot, Term>,
                      maxSkip: nat)
    requires upTo <= nr
    ensures BufferKeys(chain, remote, nr, upTo, skipped, maxSkip) == Skip(chain, nr, skipped, None)
  {
  }

  // ---------- The turn ----------

  /** Where a turn stops: a key that the library refuses leaves the counters reset and both chains as they were; a
      fresh key of a wrong length leaves the new receive chain and the old sending chain, whose index starts again. */
  lemma TurnStopsExactly(s: State, newRemote: PublicKey, draw: Draw)
    ensures var step := DhRatchet(s, newRemote, draw);
            var reset := s.(remote := Some(newRemote), pn := s.ns, ns := 0, nr := 0);
            if s.remote.None? then step == Step(s, Err(StateMalformed))
            else if newRemote.Refused? then step == Step(reset, Err(KeyRefused))
            else
              var received := Dh(s.local, newRemote.key);
              var turned := reset.(rk := NewRoot(s.rk, received), recv := Some(FirstChain(s.rk, received)));
              if draw.WrongLength? then step == Step(turned, Err(InvalidEphemeral))
              else
                var sending := Dh(draw.key, newRemote.key);
                step == Step(turned.(rk := NewRoot(turned.rk, sending), send := Some(FirstChain(turned.rk, sending)),
                                     local := draw.key), Ok(()))
  {
  }

  /** A frame under another remote key is refused where its turn stops, and is otherwise treated as one under the
      current key after the turn. */
  lemma TurnsFirst(s: State, header: Header, c: Ciphertext, ad: seq<byte>, draw: Draw)
    requires s.remote != Some(header.dh)
    ensures var step := Decrypt(s, Framed(header, c), ad, draw);
            var skipped := SkipMessageKeys(s, header.pn);
            if skipped.outcome.Err? then step == Step(skipped.state, Err(skipped.outcome.error))
            else
              var turned := DhRatchet(skipped.state, header.dh, draw);
              if turned.outcome.Err? then step == Step(turned.state, Err(turned.outcome.error))
              else turned.state.remote == Some(header.dh) && step == Decrypt(turned.state, Framed(header, c), ad, draw)
  {
    hide SkipMessageKeys;
  }

  /** Under the current remote key a frame is refused if its message key is, and fails authentication if and only if
      it was not sealed with that key, for this index, this header and these associated data. */
  lemma AuthFailedExactly(s: State, header: Header, c: Ciphertext, ad: seq<byte>, draw: Draw)
    requires s.remote == Some(header.dh)
    ensures var step, key := Decrypt(s, Framed(header, c), ad, draw), TakeMessageKey(s, header.dh, header.n);
            && step.state == key.state
            && match key.outcome
               case Err(error) => step.outcome == Err(error)
               case Ok(mk) =>
                 && (forall p :: step.outcome == Ok(p) <==>
                       c == Sealed(AesKey(mk, header.n), Nonce(mk, header.n), p, FullAd(ad, header)))
                 && (step.outcome.Err? ==> step.outcome == Err(AuthFailed))
  {
    hide TakeMessageKey;
  }

  /** A buffered key is taken out of the buffer, whatever comes of the frame. */
  lemma BufferedKeyIsTaken(s: State, dh: PublicKey, n: u32)
    requires Slot(dh, n) in s.skipped
    ensures TakeMessageKey(s, dh, n) == Step(s.(skipped := s.skipped - {Slot(dh, n)}), Ok(s.skipped[Slot(dh, n)]))
  {
  }

  /** What is not a frame is refused with its own error, and nothing changes. */
  lemma UnframedIsRefused(s: State, e: Error, ad: seq<byte>, draw: Draw)
    ensures Decrypt(s, Unframed(e), ad, draw) == Step(s, Err(e))
  {
  }

  /** Half a turn: after one that stopped at the fresh key, the frame that forced it is read when it comes again, with
      no further turn, if its index is the first; and what the ratchet sends is sealed with the old sending chain
      where it stands, under the index 0. */
  lemma HalfTurnExactly(s: State, header: Header, c: Ciphertext, ad: seq<byte>, draw: Draw, plaintext: seq<byte>)
    requires s.remote.Some? && s.remote != Some(header.dh) && header.dh.Point? && header.n == 0
    requires header.pn <= s.nr && Slot(header.dh, 0) !in s.skipped
    ensures var half := Decrypt(s, Framed(header, c), ad, WrongLength);
            && half.outcome == Err(InvalidEphemeral)
            && var key := MessageKey(FirstChain(s.rk, Dh(s.local, header.dh.key)));
            && Decrypt(half.state, Framed(header, Seal(key, 0, plaintext, FullAd(ad, header))), ad, draw).outcome
               == Ok(plaintext)
            && (s.send.Some? ==>
                  var sent := Encrypt(half.state, plaintext, ad, draw);
                  sent.outcome.Ok? && IsFrame(sent.outcome.value, s.local, s.send.value, s.ns, 0, plaintext, ad))
  {
    SkipRefusedExactly(s, header.pn);
    TurnStopsExactly(s, header.dh, WrongLength);
    hide SkipMessageKeys, DhRatchet;
    var half := Decrypt(s, Framed(header, c), ad, WrongLength).state;
    EncryptExactly(half, plaintext, ad, draw);
    KeyRefusedExactly(half, header.dh, 0);
  }
}
