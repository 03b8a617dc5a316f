/** The message whose delivery broke off in the epoch before its own. The turn that it forces does not depend on
    the receive chain that lags, so it can still be read; this is exactly when. */
module TornTurn {
  import opened Terms
  import opened Ratchet
  import opened SkippedKeys
  import opened TwoParty
  import opened Epochs
  import opened Synchrony
  import opened RatchetSafety
  import opened Desync
  import opened Torn

  // ---------- Before and after the turn ----------

  /** Since state `s` no root step has been made: nothing is buffered for the key `dh`, and under the remote key
      of `s` nothing from the receive index on. */
  ghost predicate Waiting(t: State, s: State, dh: PublicKey) {
    && t.rk == s.rk && t.local == s.local && t.send.Some? && |t.skipped| <= t.maxSkip
    && t.recv.Some? && Older(t.recv.value, t.rk)
    && t.remote.Some? && (t.remote == s.remote || t.remote.value.Refused?)
    && (forall k <- t.skipped :: k.dh != dh)
    && (t.remote == s.remote ==> forall k <- t.skipped | t.remote == Some(k.dh) :: k.n < t.nr)
  }

  /** Chain, index and buffer agree on the epoch of `chain` under the key `dh`. */
  ghost predicate Aligned(t: State, dh: PublicKey, chain: Term) {
    && t.recv == Some(Advance(chain, t.nr))
    && forall k <- t.skipped | k.dh == dh :: k.n < t.nr && t.skipped[k] == MessageKey(Advance(chain, k.n))
  }

  ghost predicate InEpoch(t: State, dh: PublicKey, chain: Term) {
    t.remote == Some(dh) && t.recv.Some? && Origin(t.recv.value) == chain
  }

  /** Root steps have been made since, and if the receiver stands in the epoch of `chain` it is aligned. */
  ghost predicate Turned(t: State, s: State, dh: PublicKey, chain: Term) {
    && Depth(s.rk) < Depth(t.rk) && |t.skipped| <= t.maxSkip
    && (InEpoch(t, dh, chain) ==> Aligned(t, dh, chain))
  }

  /** No loop breaks off on the chain under the key `dh`: neither when the receiver leaves it, nor when it reads. */
  predicate Unbroken(t: State, call: Call, dh: PublicKey) {
    call.DecryptCall? && call.wire.Framed? ==>
      var header := call.wire.header;
      var turn := TurnTo(t, header, call.draw);
      && (t.remote == Some(dh) != Some(header.dh) ==> !OverflowsPartly(|t.skipped|, Rest(t, header), t.maxSkip))
      && (header.dh == dh && turn.outcome.Ok? ==>
            !OverflowsPartly(|turn.state.skipped|, Needed(turn.state, header), turn.state.maxSkip))
  }

  predicate UnbrokenRun(t: State, calls: seq<Call>, dh: PublicKey)
    decreases |calls|
  {
    calls == [] || (Unbroken(t, calls[0], dh) && UnbrokenRun(After(t, calls[0]), calls[1..], dh))
  }

  // ---------- Calls before the turn ----------

  lemma LoopKeepsWaiting(t: State, s: State, dh: PublicKey, upTo: nat, k: Skip)
    requires Waiting(t, s, dh) && t.remote != Some(dh)
    requires k == BufferKeys(t.recv.value, t.remote, t.nr, upTo, t.skipped, t.maxSkip)
    ensures Waiting(t.(nr := k.nr, skipped := k.skipped), s, dh)
    ensures Waiting(t.(nr := k.nr, skipped := k.skipped, recv := Some(k.chain)), s, dh)
    ensures Waiting(t.(nr := k.nr + 1, skipped := k.skipped, recv := Some(NextChain(k.chain))), s, dh)
  {
    hide BufferKeys;
    BufferKeysMoves(t.recv.value, t.remote, t.nr, upTo, t.skipped, t.maxSkip);
    BufferKeysFills(t.recv.value, t.remote, t.nr, upTo, t.skipped, t.maxSkip);
    AdvanceShape(t.recv.value, k.nr - t.nr);
  }

  lemma TakeKeepsWaiting(t: State, s: State, dh: PublicKey, at: PublicKey, n: u32)
    requires Waiting(t, s, dh) && t.remote != Some(dh)
    ensures Waiting(TakeMessageKey(t, at, n).state, s, dh)
  {
    hide BufferKeys, Older;
    if Slot(at, n) in t.skipped {
      SizeWithout(t.skipped, Slot(at, n));
    } else {
      LoopKeepsWaiting(t, s, dh, n, BufferKeys(t.recv.value, t.remote, t.nr, n, t.skipped, t.maxSkip));
    }
  }

  lemma SkipKeepsWaiting(t: State, s: State, dh: PublicKey, upTo: nat)
    requires Waiting(t, s, dh) && t.remote != Some(dh)
    ensures Waiting(SkipMessageKeys(t, upTo).state, s, dh)
  {
    hide BufferKeys, Older;
    LoopKeepsWaiting(t, s, dh, upTo, BufferKeys(t.recv.value, t.remote, t.nr, upTo, t.skipped, t.maxSkip));
  }

  lemma TurnFromWaiting(a: State, s: State, dh: PublicKey, newRemote: PublicKey, draw: Draw)
    requires Waiting(a, s, dh) && dh.Point? && s.remote.Some? && s.remote.value.Point?
    ensures var t := DhRatchet(a, newRemote, draw).state;
            if newRemote.Refused? then Waiting(t, s, dh)
            else Turned(t, s, dh, FirstChain(s.rk, Dh(s.local, dh.key)))
  {
  }

  // ---------- Calls after the turn ----------

  lemma AlignedSkip(t: State, dh: PublicKey, chain: Term, upTo: nat, k: Skip)
    requires t.remote == Some(dh) && Aligned(t, dh, chain) && |t.skipped| <= t.maxSkip && t.nr <= upTo
    requires k == BufferKeys(t.recv.value, t.remote, t.nr, upTo, t.skipped, t.maxSkip)
    ensures k.error.None? <==> |t.skipped| + (upTo - t.nr) <= t.maxSkip
    ensures k.error.Some? && |t.skipped| == t.maxSkip ==> k.nr == t.nr && k.skipped == t.skipped
    ensures k.error.None? ==> k.nr == upTo && k.chain == Advance(chain, upTo)
    ensures |k.skipped| <= t.maxSkip
  {
    hide BufferKeys, Advance;
    BufferKeysFits(t.recv.value, dh, t.nr, upTo, t.skipped, t.maxSkip);
    BufferKeysMoves(t.recv.value, t.remote, t.nr, upTo, t.skipped, t.maxSkip);
    AdvanceTwice(chain, t.nr, k.nr - t.nr);
  }

  lemma AlignedFills(t: State, dh: PublicKey, chain: Term, upTo: nat, k: Skip, u: State)
    requires t.remote == Some(dh) && Aligned(t, dh, chain) && t.nr <= upTo
    requires k == BufferKeys(t.recv.value, t.remote, t.nr, upTo, t.skipped, t.maxSkip) && k.nr == upTo
    requires upTo <= u.nr && u.skipped == k.skipped && u.recv == Some(Advance(chain, u.nr))
    ensures Aligned(u, dh, chain)
  {
    hide BufferKeys, Advance;
    BufferKeysFills(t.recv.value, t.remote, t.nr, upTo, t.skipped, t.maxSkip);
    forall x <- k.skipped | x.dh == dh ensures x.n < k.nr && k.skipped[x] == MessageKey(Advance(chain, x.n)) {
      if x.n >= t.nr { AdvanceTwice(chain, t.nr, x.n - t.nr); }
    }
  }

  /** Taking a key in the epoch of `chain`. */
  lemma TakeStaysAligned(t: State, dh: PublicKey, chain: Term, n: u32)
    requires t.remote == Some(dh) && Aligned(t, dh, chain) && |t.skipped| <= t.maxSkip
    requires Slot(dh, n) !in t.skipped && t.nr <= n
    ensures var u := TakeMessageKey(t, dh, n);
            if |t.skipped| + (n - t.nr) <= t.maxSkip
            then && u.outcome == Ok(MessageKey(Advance(chain, n)))
                 && Aligned(u.state, dh, chain) && |u.state.skipped| <= t.maxSkip
            else u.outcome.Err? && (!OverflowsPartly(|t.skipped|, n - t.nr, t.maxSkip) ==> u.state == t)
  {
    hide BufferKeys, TakeMessageKey, Aligned;
    RecvOf(t, dh, chain);
    TakeAheadUnfolds(t, dh, n);
    var k := BufferKeys(t.recv.value, t.remote, t.nr, n, t.skipped, t.maxSkip);
    AlignedSkip(t, dh, chain, n, k);
    if k.error.None? { AlignedFills(t, dh, chain, n, k, TakeMessageKey(t, dh, n).state); }
  }

  lemma RecvOf(t: State, dh: PublicKey, chain: Term)
    requires Aligned(t, dh, chain)
    ensures t.recv == Some(Advance(chain, t.nr))
  {
  }

  lemma TakeKeepsTurned(t: State, s: State, dh: PublicKey, chain: Term, header: Header)
    requires Turned(t, s, dh, chain) && t.remote == Some(header.dh)
    requires header.dh == dh ==> !OverflowsPartly(|t.skipped|, Needed(t, header), t.maxSkip)
    ensures Turned(TakeMessageKey(t, header.dh, header.n).state, s, dh, chain)
  {
    hide BufferKeys, Advance, OverflowsPartly;
    var slot := Slot(header.dh, header.n);
    if slot in t.skipped {
      SizeWithout(t.skipped, slot);
    } else if t.recv.Some? && t.nr <= header.n {
      if InEpoch(t, dh, chain) {
        TakeStaysAligned(t, dh, chain, header.n);
      } else {
        TakeKeepsOrigin(t, header.dh, header.n);
      }
    }
  }

  lemma TakeKeepsOrigin(t: State, dh: PublicKey, n: u32)
    requires t.recv.Some? && |t.skipped| <= t.maxSkip && Slot(dh, n) !in t.skipped
    ensures var u := TakeMessageKey(t, dh, n).state;
            && u.recv.Some? && Origin(u.recv.value) == Origin(t.recv.value) && |u.skipped| <= u.maxSkip
            && u.remote == t.remote && u.rk == t.rk
  {
    hide BufferKeys, Advance;
    var k := BufferKeys(t.recv.value, t.remote, t.nr, n, t.skipped, t.maxSkip);
    BufferKeysMoves(t.recv.value, t.remote, t.nr, n, t.skipped, t.maxSkip);
    AdvanceShape(t.recv.value, k.nr - t.nr);
  }

  lemma SkipKeepsTurned(t: State, s: State, dh: PublicKey, chain: Term, header: Header)
    requires Turned(t, s, dh, chain)
    requires t.remote == Some(dh) ==> !OverflowsPartly(|t.skipped|, Rest(t, header), t.maxSkip)
    ensures Turned(SkipMessageKeys(t, header.pn).state, s, dh, chain)
  {
    hide BufferKeys, Advance, Aligned, SkipMessageKeys, OverflowsPartly, Rest;
    if t.recv.Some? {
      SkipKeepsOrigin(t, header.pn);
      if InEpoch(t, dh, chain) { SkipStaysAligned(t, dh, chain, header); }
    } else {
      NothingToSkip(t, header.pn);
    }
  }

  lemma NothingToSkip(t: State, upTo: nat)
    requires t.recv.None?
    ensures SkipMessageKeys(t, upTo).state == t
  {
  }

  lemma SkipKeepsOrigin(t: State, upTo: nat)
    requires t.recv.Some? && |t.skipped| <= t.maxSkip
    ensures var u := SkipMessageKeys(t, upTo).state;
            && u.recv.Some? && Origin(u.recv.value) == Origin(t.recv.value) && |u.skipped| <= u.maxSkip
            && u.remote == t.remote && u.rk == t.rk
  {
    hide BufferKeys, Advance;
    var k := BufferKeys(t.recv.value, t.remote, t.nr, upTo, t.skipped, t.maxSkip);
    BufferKeysMoves(t.recv.value, t.remote, t.nr, upTo, t.skipped, t.maxSkip);
    AdvanceShape(t.recv.value, k.nr - t.nr);
  }

  lemma SkipStaysAligned(t: State, dh: PublicKey, chain: Term, header: Header)
    requires t.remote == Some(dh) && Aligned(t, dh, chain) && |t.skipped| <= t.maxSkip
    requires !OverflowsPartly(|t.skipped|, Rest(t, header), t.maxSkip)
    ensures Aligned(SkipMessageKeys(t, header.pn).state, dh, chain)
  {
    if t.nr < header.pn {
      hide BufferKeys, Advance;
      var k := BufferKeys(t.recv.value, t.remote, t.nr, header.pn, t.skipped, t.maxSkip);
      AlignedSkip(t, dh, chain, header.pn, k);
      if k.error.None? {
        AlignedFills(t, dh, chain, header.pn, k, t.(nr := k.nr, skipped := k.skipped, recv := Some(k.chain)));
      }
    }
  }

  /** Every later root step starts a chain of its own. */
  lemma TurnFromTurned(a: State, s: State, dh: PublicKey, newRemote: PublicKey, draw: Draw)
    requires dh.Point? && a.remote != Some(newRemote)
    requires var chain := FirstChain(s.rk, Dh(s.local, dh.key)); Turned(a, s, dh, chain)
    ensures Turned(DhRatchet(a, newRemote, draw).state, s, dh, FirstChain(s.rk, Dh(s.local, dh.key)))
  {
  }

  lemma TurnCallFromWaiting(t: State, s: State, dh: PublicKey, wire: Wire, ad: seq<byte>, draw: Draw)
    requires Waiting(t, s, dh) && dh.Point? && s.remote.Some? && s.remote.value.Point? && t.remote != Some(dh)
    requires wire.Framed? && t.remote != Some(wire.header.dh) && Unbroken(t, DecryptCall(wire, ad, draw), dh)
    ensures var u := Decrypt(t, wire, ad, draw).state;
            Waiting(u, s, dh) || Turned(u, s, dh, FirstChain(s.rk, Dh(s.local, dh.key)))
  {
    hide Waiting, Turned, TakeMessageKey, SkipMessageKeys, DhRatchet, OverflowsPartly, Needed, Rest;
    SkipKeepsWaiting(t, s, dh, wire.header.pn);
    var a := SkipMessageKeys(t, wire.header.pn);
    if a.outcome.Ok? {
      TurnFromWaiting(a.state, s, dh, wire.header.dh, draw);
      var d := DhRatchet(a.state, wire.header.dh, draw);
      if d.outcome.Ok? {
        TurnedIsPoint(a.state, wire.header.dh, draw);
        TakeKeepsTurned(d.state, s, dh, FirstChain(s.rk, Dh(s.local, dh.key)), wire.header);
      }
    }
  }

  lemma TurnedIsPoint(a: State, newRemote: PublicKey, draw: Draw)
    requires DhRatchet(a, newRemote, draw).outcome.Ok?
    ensures newRemote.Point? && DhRatchet(a, newRemote, draw).state.remote == Some(newRemote)
  {
  }

  lemma CallFromWaiting(t: State, s: State, dh: PublicKey, call: Call)
    requires Waiting(t, s, dh) && dh.Point? && s.remote.Some? && s.remote.value.Point? && s.remote != Some(dh)
    requires Unbroken(t, call, dh)
    ensures var u := After(t, call);
            Waiting(u, s, dh) || Turned(u, s, dh, FirstChain(s.rk, Dh(s.local, dh.key)))
  {
    if call.DecryptCall? && call.wire.Framed? {
      var header := call.wire.header;
      DecryptSplits(t, call.wire, call.ad, call.draw);
      if t.remote == Some(header.dh) {
        TakeKeepsWaiting(t, s, dh, header.dh, header.n);
      } else {
        TurnCallFromWaiting(t, s, dh, call.wire, call.ad, call.draw);
      }
    }
  }

  lemma CallFromTurned(t: State, s: State, dh: PublicKey, call: Call)
    requires dh.Point? && Unbroken(t, call, dh)
    requires Turned(t, s, dh, FirstChain(s.rk, Dh(s.local, dh.key)))
    ensures Turned(After(t, call), s, dh, FirstChain(s.rk, Dh(s.local, dh.key)))
  {
    var chain := FirstChain(s.rk, Dh(s.local, dh.key));
    if call.DecryptCall? && call.wire.Framed? {
      var header := call.wire.header;
      if t.remote == Some(header.dh) {
        TakeKeepsTurned(t, s, dh, chain, header);
      } else {
        TurnCallFromTurned(t, s, dh, call.wire, call.ad, call.draw);
      }
    }
  }

  lemma TurnCallFromTurned(t: State, s: State, dh: PublicKey, wire: Wire, ad: seq<byte>, draw: Draw)
    requires dh.Point? && Turned(t, s, dh, FirstChain(s.rk, Dh(s.local, dh.key)))
    requires wire.Framed? && t.remote != Some(wire.header.dh) && Unbroken(t, DecryptCall(wire, ad, draw), dh)
    ensures Turned(Decrypt(t, wire, ad, draw).state, s, dh, FirstChain(s.rk, Dh(s.local, dh.key)))
  {
    hide Turned, TakeMessageKey, DhRatchet, OverflowsPartly, Needed, Rest, BufferKeys;
    SkipKeepsTurned(t, s, dh, FirstChain(s.rk, Dh(s.local, dh.key)), wire.header);
    var a := SkipMessageKeys(t, wire.header.pn);
    if a.outcome.Ok? {
      TurnFromTurned(a.state, s, dh, wire.header.dh, draw);
      var d := DhRatchet(a.state, wire.header.dh, draw);
      if d.outcome.Ok? {
        TurnedIsPoint(a.state, wire.header.dh, draw);
        TakeKeepsTurned(d.state, s, dh, FirstChain(s.rk, Dh(s.local, dh.key)), wire.header);
      }
    }
  }

  lemma {:induction false} RunFromTear(t: State, s: State, dh: PublicKey, calls: seq<Call>)
    requires dh.Point? && s.remote.Some? && s.remote.value.Point? && s.remote != Some(dh)
    requires Waiting(t, s, dh) || Turned(t, s, dh, FirstChain(s.rk, Dh(s.local, dh.key)))
    requires UnbrokenRun(t, calls, dh)
    ensures var u := AfterAll(t, calls);
            Waiting(u, s, dh) || Turned(u, s, dh, FirstChain(s.rk, Dh(s.local, dh.key)))
    decreases |calls|
  {
    hide Waiting, Turned, Unbroken, After;
    if calls != [] {
      if Waiting(t, s, dh) { CallFromWaiting(t, s, dh, calls[0]); } else { CallFromTurned(t, s, dh, calls[0]); }
      RunFromTear(After(t, calls[0]), s, dh, calls[1..]);
    }
  }

  // ---------- Reading the message ----------

  /** The frame of message `n` of a chain, as its sender makes it. */
  function FrameOf(chain: Term, header: Header, plaintext: seq<byte>, ad: seq<byte>): Wire {
    Framed(header, Seal(MessageKey(Advance(chain, header.n)), header.n, plaintext, FullAd(ad, header)))
  }

  lemma SkipRoom(t: State, s: State, dh: PublicKey, header: Header)
    requires Waiting(t, s, dh) && t.remote == s.remote && t.remote != Some(dh)
    ensures var a := SkipMessageKeys(t, header.pn);
            && (a.outcome.Ok? <==> |t.skipped| + Rest(t, header) <= t.maxSkip)
            && (a.outcome.Ok? ==> |a.state.skipped| == |t.skipped| + Rest(t, header) && a.state.maxSkip == t.maxSkip)
  {
    if t.nr < header.pn {
      hide BufferKeys, Older;
      BufferKeysFits(t.recv.value, t.remote.value, t.nr, header.pn, t.skipped, t.maxSkip);
      BufferKeysMoves(t.recv.value, t.remote, t.nr, header.pn, t.skipped, t.maxSkip);
    }
  }

  /** The root steps of the turn to the key `dh`. */
  lemma TurnOpensEpoch(a: State, s: State, dh: PublicKey, draw: Draw)
    requires Waiting(a, s, dh) && dh.Point?
    ensures var d := DhRatchet(a, dh, draw);
            && (d.outcome.Ok? <==> draw.Private?)
            && d.state.nr == 0 && d.state.skipped == a.skipped && d.state.maxSkip == a.maxSkip
            && d.state.remote == Some(dh) && Aligned(d.state, dh, FirstChain(s.rk, Dh(s.local, dh.key)))
            && (forall k <- d.state.skipped :: k.dh != dh)
  {
    hide Older;
  }

  lemma ReadsFromWaiting(t: State, s: State, header: Header, plaintext: seq<byte>, ad: seq<byte>, draw: Draw)
    requires Waiting(t, s, header.dh) && header.dh.Point? && t.remote == s.remote && s.remote != Some(header.dh)
    ensures var frame := FrameOf(FirstChain(s.rk, Dh(s.local, header.dh.key)), header, plaintext, ad);
            Decrypt(t, frame, ad, draw).outcome == Ok(plaintext) <==> HasRoom(t, header) && draw.Private?
  {
    hide Waiting, Aligned, SkipMessageKeys, DhRatchet, TakeMessageKey, Rest, Advance, Receive;
    var chain := FirstChain(s.rk, Dh(s.local, header.dh.key));
    SkipKeepsWaiting(t, s, header.dh, header.pn);
    SkipRoom(t, s, header.dh, header);
    var a := SkipMessageKeys(t, header.pn);
    if a.outcome.Ok? {
      TurnOpensEpoch(a.state, s, header.dh, draw);
      var d := DhRatchet(a.state, header.dh, draw);
      TakeStaysAligned(d.state, header.dh, chain, header.n);
      ReceivesFrame(d.state, header, ad, plaintext, MessageKey(Advance(chain, header.n)));
    }
  }

  lemma ReadsInEpoch(t: State, chain: Term, header: Header, plaintext: seq<byte>, ad: seq<byte>, draw: Draw)
    requires t.remote == Some(header.dh) && Aligned(t, header.dh, chain) && |t.skipped| <= t.maxSkip
    ensures Decrypt(t, FrameOf(chain, header, plaintext, ad), ad, draw).outcome == Ok(plaintext)
       <==> HasRoom(t, header) && (Slot(header.dh, header.n) in t.skipped || t.nr <= header.n)
  {
    hide TakeMessageKey, Advance, Receive;
    TurnStays(t, header, draw);
    ReceivesFrame(t, header, ad, plaintext, MessageKey(Advance(chain, header.n)));
    TakesInEpoch(t, chain, header);
  }

  lemma TakesInEpoch(t: State, chain: Term, header: Header)
    requires t.remote == Some(header.dh) && Aligned(t, header.dh, chain) && |t.skipped| <= t.maxSkip
    ensures var u := TakeMessageKey(t, header.dh, header.n);
            if HasRoom(t, header) && (Slot(header.dh, header.n) in t.skipped || t.nr <= header.n)
            then u.outcome == Ok(MessageKey(Advance(chain, header.n))) else u.outcome.Err?
  {
    hide Advance;
    if Slot(header.dh, header.n) !in t.skipped && t.nr <= header.n {
      hide BufferKeys;
      TakeStaysAligned(t, header.dh, chain, header.n);
    }
  }

  // ---------- The torn delivery ----------

  lemma TornWaits(es: seq<Epoch>, at: nat, s: State, done: set<Index>, header: Header, draw: Draw)
    requires EpochsOk(es) && PartyAt(es, at, s, done) && 0 < at && at + 2 == |es| && ReceiveEpoch(at) > 0
    requires header.dh == PublicOf(es[at + 1].key)
    requires OverflowsPartly(|s.skipped|, Rest(s, header), s.maxSkip)
    ensures s.remote.Some? && s.remote.value.Point? && s.remote != Some(header.dh)
    ensures TurnTo(s, header, draw).outcome.Err? && Waiting(TurnTo(s, header, draw).state, s, header.dh)
    ensures FirstChain(s.rk, Dh(s.local, es[at + 1].key)) == es[at + 1].chain
  {
    hide EpochsOk, BufferOk, BufferKeys, Linked;
    OtherEpochOtherKey(es, at - 1, at + 1);
    TearsOnTurn(es, at, s, done, header, draw);
    BufferKeysMoves(s.recv.value, s.remote, s.nr, header.pn, s.skipped, s.maxSkip);
    NextKeyUnbuffered(es, at, s, done);
    forall k <- TurnTo(s, header, draw).state.skipped ensures k.dh != header.dh {
      if k.dh == header.dh { TurnAddsNoSlot(s, header, draw, k.n); }
    }
    NextChainIs(es, at);
  }

  lemma NextKeyUnbuffered(es: seq<Epoch>, at: nat, s: State, done: set<Index>)
    requires EpochsOk(es) && PartyAt(es, at, s, done) && 0 < at && at + 1 < |es|
    ensures forall k <- s.skipped :: k.dh != PublicOf(es[at + 1].key)
  {
    hide EpochsOk, BufferOk, Placed;
    forall k <- s.skipped ensures k.dh != PublicOf(es[at + 1].key) {
      NotYetBuffered(es, at, s.nr, s.skipped, done, Index(at + 1, k.n));
    }
  }

  lemma NextChainIs(es: seq<Epoch>, at: nat)
    requires EpochsOk(es) && at + 1 < |es|
    ensures es[at + 1].chain == FirstChain(es[at].root, Dh(es[at].key, es[at + 1].key))
  {
    assert Linked(es, at + 1);
    DhCancels(es[at].key, es[at + 1].key, 0);
  }

  /** Where the message stands. */
  lemma TornFacts(w: World, p: Plan, i: nat)
    requires InStep(w, p) && i < |w.log| && w.log[i].wire.Framed? && !Superseded(w, i)
    requires var s, header := w.Of(Peer(w.log[i].from)), w.log[i].wire.header;
             s.remote != Some(header.dh) && OverflowsPartly(|s.skipped|, Rest(s, header), s.maxSkip)
    ensures var m, at := w.log[i], p.Own(Peer(w.log[i].from));
            && EpochsOk(p.es) && PartyAt(p.es, at, w.Of(Peer(m.from)), p.done)
            && 0 < at && at + 2 == |p.es| && ReceiveEpoch(at) > 0
            && m.wire.header.dh == PublicOf(p.es[at + 1].key)
            && m.wire == FrameOf(p.es[at + 1].chain, m.wire.header, m.plaintext, m.ad)
  {
    hide InStep, PartyAt, EpochsOk, EntryOk, Superseded, Rest;
    var m := w.log[i];
    var q := Peer(m.from);
    EntryFacts(w, p, i);
    EntryFramed(p.es, p.epochs[i], m);
    EntryFrame(p.es, p.epochs[i], m);
    SupersededEpoch(w, p, i);
    PartiesOf(w, p, q);
    StandsAt(p.es, p.Own(q), w.Of(q), p.done);
    PassedSomething(p.es, p.Own(q), w.Of(q), p.done, m.wire.header);
  }

  lemma EntryFrame(es: seq<Epoch>, e: nat, m: Sent)
    requires EntryOk(es, e, m)
    ensures m.wire.Framed? && e < |es| && m.wire == FrameOf(es[e].chain, m.wire.header, m.plaintext, m.ad)
  {
  }

  lemma ReadsAtLast(t: State, s: State, header: Header, plaintext: seq<byte>, ad: seq<byte>, draw: Draw)
    requires header.dh.Point? && s.remote.Some? && s.remote != Some(header.dh)
    requires var chain := FirstChain(s.rk, Dh(s.local, header.dh.key));
             Waiting(t, s, header.dh) || Turned(t, s, header.dh, chain)
    ensures var chain := FirstChain(s.rk, Dh(s.local, header.dh.key));
            var read := Decrypt(t, FrameOf(chain, header, plaintext, ad), ad, draw).outcome == Ok(plaintext);
            && (t.rk == s.rk && t.remote == s.remote ==> (read <==> HasRoom(t, header) && draw.Private?))
            && (InEpoch(t, header.dh, chain) ==>
                  (read <==> HasRoom(t, header) && (Slot(header.dh, header.n) in t.skipped || t.nr <= header.n)))
  {
    hide Decrypt, HasRoom, Aligned, FrameOf, Older;
    var chain := FirstChain(s.rk, Dh(s.local, header.dh.key));
    if Waiting(t, s, header.dh) {
      if t.remote == s.remote { ReadsFromWaiting(t, s, header, plaintext, ad, draw); }
    } else if InEpoch(t, header.dh, chain) {
      ReadsInEpoch(t, chain, header, plaintext, ad, draw);
    }
  }

  // ---------- The theorem ----------

  /** When the message whose delivery broke off is read at last: whatever the receiver is called with in between,
      while it has not turned, the message is read exactly when there is room for the rest of the old epoch and
      for the gap in the new one; and once it has turned to the message's epoch, exactly when the message has
      not been read and there is room, as long as no loop has broken off in that epoch too. */
  lemma TornTurnIsReadExactly(w: World, i: nat, calls: seq<Call>, draw: Draw)
    requires Reachable(w) && i < |w.log| && w.log[i].wire.Framed? && !Superseded(w, i)
    requires var s, header := w.Of(Peer(w.log[i].from)), w.log[i].wire.header;
             s.remote != Some(header.dh) && OverflowsPartly(|s.skipped|, Rest(s, header), s.maxSkip)
    requires UnbrokenRun(Delivering(w, i).state, calls, w.log[i].wire.header.dh)
    ensures w.log[i].wire.header.dh.Point?
    ensures var s, header := w.Of(Peer(w.log[i].from)), w.log[i].wire.header;
            var t := AfterAll(Delivering(w, i).state, calls);
            var read := Decrypt(t, w.log[i].wire, w.log[i].ad, draw).outcome == Ok(w.log[i].plaintext);
            && (t.rk == s.rk && t.remote == s.remote ==> (read <==> HasRoom(t, header) && draw.Private?))
            && (InEpoch(t, header.dh, FirstChain(s.rk, Dh(s.local, header.dh.key))) ==>
                  (read <==> HasRoom(t, header) && (Slot(header.dh, header.n) in t.skipped || t.nr <= header.n)))
  {
    hide Reachable, InStep, Superseded, EntryOk, EpochsOk, PartyAt, HasRoom, Rest, OverflowsPartly, TurnTo, AfterAll,
         UnbrokenRun, Receive, Waiting, Turned, Decrypt, InEpoch, Aligned;
    var p := ReachableInStep(w);
    var m := w.log[i];
    var q := Peer(m.from);
    TornFacts(w, p, i);
    TornWaits(p.es, p.Own(q), w.Of(q), p.done, m.wire.header, Private(w.nextKey));
    DecryptSplits(w.Of(q), m.wire, m.ad, Private(w.nextKey));
    RunFromTear(Delivering(w, i).state, w.Of(q), m.wire.header.dh, calls);
    ReadsAtLast(AfterAll(Delivering(w, i).state, calls), w.Of(q), m.wire.header, m.plaintext, m.ad, draw);
  }

  /** Such a delivery exists for every buffer that takes two keys: one message skipped, a rest of `maxSkip`
      messages, and a first message of the next epoch. */
  lemma TornTurnExists(maxSkip: nat) returns (w: World, i: nat)
    requires 2 <= maxSkip && maxSkip + 2 < U32_LIMIT
    ensures Reachable(w) && i < |w.log| && w.log[i].wire.Framed? && !Superseded(w, i)
    ensures var s, header := w.Of(Peer(w.log[i].from)), w.log[i].wire.header;
            && s.maxSkip == maxSkip && s.remote != Some(header.dh)
            && OverflowsPartly(|s.skipped|, Rest(s, header), s.maxSkip)
  {
    hide Reachable, Next;
    var w0 := SendMany(maxSkip + 2, maxSkip);
    OneSkipped(w0, maxSkip);
    ReachableExtends(w0, Deliver(1));
    var w1 := Exchange(Next(w0, Deliver(1)), Bob);
    w := OpenWith(w1, Alice);
    i := |w1.log|;
    assert |w.bob.skipped| == |w.bob.skipped.Keys| == 1;
  }
}
