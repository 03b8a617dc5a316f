/** The class `DoubleRatchet` of `src/crypto/doubleRatchet.ts`: its fields, its methods and its
    loops, each method proved to do to the fields what the specification in `Ratchet.dfy` says.
    Each call runs to completion before the next; the randomness it draws is a parameter. */
module DoubleRatchet {
  import opened Terms
  import opened Ratchet

  class DoubleRatchet {
    var rk: Term
    var localDh: PrivateKey
    var remoteDh: Option<PublicKey>
    var sendChain: Option<Term>
    var recvChain: Option<Term>
    var ns: nat
    var nr: nat
    var pn: nat
    var maxSkip: nat
    var skipped: map<Slot, Term>
    var initiator: bool

    ghost function Value(): State
      reads this
    {
      State(rk, localDh, remoteDh, sendChain, recvChain, ns, nr, pn, maxSkip, skipped, initiator)
    }

    constructor (rootKey: Term, startChain: Term, localDh: PrivateKey, remoteDh: Option<PublicKey>,
                 initiator: bool, maxSkip: nat)
      ensures Value() == Create(rootKey, startChain, localDh, remoteDh, initiator, maxSkip)
      ensures rk == rootKey && this.localDh == localDh && this.remoteDh == remoteDh && this.maxSkip == maxSkip
      ensures this.initiator == initiator && ns == nr == pn == 0 && skipped == map[]
      ensures initiator ==> sendChain == Some(startChain) && recvChain == None
      ensures !initiator ==> sendChain == None && recvChain == Some(startChain)
    {
      this.rk := rootKey;
      this.localDh := localDh;
      this.remoteDh := remoteDh;
      this.sendChain := if initiator then Some(startChain) else None;
      this.recvChain := if initiator then None else Some(startChain);
      this.ns, this.nr, this.pn := 0, 0, 0;
      this.maxSkip := maxSkip;
      this.skipped := map[];
      this.initiator := initiator;
    }

    method EncryptMessage(plaintext: seq<byte>, ad: seq<byte>, draw: Draw) returns (r: Outcome<Wire>)
      modifies this
      ensures Step(Value(), r) == Encrypt(old(Value()), plaintext, ad, draw)
    {
      if sendChain.None? {
        var g := GenerateSendingChain(draw);
        if g.Err? { return Err(g.error); }
      }
      var header := Header(PublicOf(localDh), ToU32(pn), ToU32(ns));
      var messageKey := MessageKey(sendChain.value);
      sendChain := Some(NextChain(sendChain.value));
      var index := ns;
      ns := ns + 1;
      return Ok(Framed(header, Seal(messageKey, index, plaintext, FullAd(ad, header))));
    }

    method DecryptMessage(wire: Wire, ad: seq<byte>, draw: Draw) returns (r: Outcome<seq<byte>>)
      modifies this
      ensures Step(Value(), r) == Decrypt(old(Value()), wire, ad, draw)
    {
      if wire.Unframed? { return Err(wire.error); }
      var header := wire.header;
      if remoteDh != Some(header.dh) {
        var a := SkipMessageKeys(header.pn);
        if a.Err? { return Err(a.error); }
        var b := DhRatchet(header.dh, draw);
        if b.Err? { return Err(b.error); }
      }
      var mk := TakeMessageKey(header.dh, header.n);
      if mk.Err? { return Err(mk.error); }
      var unsealed := Open(AesKey(mk.value, header.n), Nonce(mk.value, header.n),
                         FullAd(ad, header), wire.ciphertext);
      if unsealed.None? { return Err(AuthFailed); }
      return Ok(unsealed.value);
    }

    /** The middle part of `decryptMessage`, lines 299-328. */
    method TakeMessageKey(dh: PublicKey, n: u32) returns (r: Outcome<Term>)
      modifies this
      ensures Step(Value(), r) == Ratchet.TakeMessageKey(old(Value()), dh, n)
    {
      var slot := Slot(dh, n);
      if slot in skipped {
        var messageKey := skipped[slot];
        skipped := skipped - {slot};
        return Ok(messageKey);
      }
      if recvChain.None? { return Err(NoRecvChain); }
      if n < nr { return Err(Replayed); }
      if n > nr + maxSkip { return Err(TooFarAhead); }
      var chain := recvChain.value;
      ghost var whole := BufferKeys(chain, remoteDh, nr, n, skipped, maxSkip);
      while nr < n
        invariant Value() == old(Value()).(nr := nr, skipped := skipped)
        invariant BufferKeys(chain, remoteDh, nr, n, skipped, maxSkip) == whole
        invariant nr <= n
      {
        var b := BufferSkipped(MessageKey(chain), nr);
        if b.Err? { return Err(b.error); }
        chain := NextChain(chain);
        nr := nr + 1;
      }
      recvChain := Some(NextChain(chain));
      nr := nr + 1;
      return Ok(MessageKey(chain));
    }

    method GenerateSendingChain(draw: Draw) returns (r: Outcome<()>)
      modifies this
      ensures Step(Value(), r) == Ratchet.GenerateSendingChain(old(Value()), draw)
    {
      if remoteDh.None? { return Err(NoRemote); }
      if draw.WrongLength? { return Err(InvalidEphemeral); }
      var dh := DhX25519(draw.key, remoteDh.value);
      if dh.None? { return Err(KeyRefused); }
      sendChain := Some(FirstChain(rk, dh.value));
      rk := NewRoot(rk, dh.value);
      localDh := draw.key;
      pn := ns;
      ns := 0;
      return Ok(());
    }

    method DhRatchet(newRemoteDh: PublicKey, draw: Draw) returns (r: Outcome<()>)
      modifies this
      ensures Step(Value(), r) == Ratchet.DhRatchet(old(Value()), newRemoteDh, draw)
    {
      if remoteDh.None? { return Err(StateMalformed); }
      pn := ns;
      ns := 0;
      nr := 0;
      remoteDh := Some(newRemoteDh);
      var recvDh := DhX25519(localDh, newRemoteDh);
      if recvDh.None? { return Err(KeyRefused); }
      recvChain := Some(FirstChain(rk, recvDh.value));
      rk := NewRoot(rk, recvDh.value);
      assert Value() == old(Value()).(pn := old(ns), ns := 0, nr := 0, remote := remoteDh, rk := rk, recv := recvChain);
      if draw.WrongLength? { return Err(InvalidEphemeral); }
      var sendDh := DhX25519(draw.key, newRemoteDh);
      if sendDh.None? { return Err(KeyRefused); }
      sendChain := Some(FirstChain(rk, sendDh.value));
      rk := NewRoot(rk, sendDh.value);
      localDh := draw.key;
      return Ok(());
    }

    method SkipMessageKeys(upTo: nat) returns (r: Outcome<()>)
      modifies this
      ensures Step(Value(), r) == Ratchet.SkipMessageKeys(old(Value()), upTo)
    {
      if recvChain.None? { return Ok(()); }
      if upTo > nr + maxSkip { return Err(SkipBound); }
      var chain := recvChain.value;
      ghost var whole := BufferKeys(chain, remoteDh, nr, upTo, skipped, maxSkip);
      while nr < upTo
        invariant Value() == old(Value()).(nr := nr, skipped := skipped)
        invariant BufferKeys(chain, remoteDh, nr, upTo, skipped, maxSkip) == whole
      {
        var b := BufferSkipped(MessageKey(chain), nr);
        if b.Err? { return Err(b.error); }
        chain := NextChain(chain);
        nr := nr + 1;
      }
      recvChain := Some(chain);
      return Ok(());
    }

    method BufferSkipped(messageKey: Term, index: nat) returns (r: Outcome<()>)
      modifies this`skipped
      ensures |old(skipped)| >= maxSkip ==> r == Err(SkipBufferExhausted)
      ensures |old(skipped)| < maxSkip && remoteDh.None? ==> r == Err(NoRecvChain)
      ensures |old(skipped)| < maxSkip && remoteDh.Some? ==>
                r == Ok(()) && skipped == old(skipped)[Slot(remoteDh.value, index) := messageKey]
      ensures r.Err? ==> skipped == old(skipped)
    {
      if |skipped| >= maxSkip { return Err(SkipBufferExhausted); }
      if remoteDh.None? { return Err(NoRecvChain); }
      skipped := skipped[Slot(remoteDh.value, index) := messageKey];
      return Ok(());
    }
  }
}
