/** Exactly when a frame can be read twice. A ratchet key that the X25519 library refuses resets the
    receive index and leaves the chain where it was (`_dhRatchet`, lines 361-366). If a skip loop has also
    thrown after buffering a key, one chain key serves one index twice; a ratchet whose buffer holds at
    most one key has no such loop. */
module RefusedKeys {
  import opened Terms
  import opened Ratchet
  import opened SkippedKeys
  import opened RatchetSafety

  /** Two calls of a run decrypt one frame under ratchet key `h`. */
  ghost predicate ReadTwice(s: State, calls: seq<Call>, i: nat, j: nat, h: PublicKey) {
    && i < j < |calls|
    && calls[i].DecryptCall? && calls[j].DecryptCall? && calls[i].wire == calls[j].wire
    && calls[i].wire.Framed? && calls[i].wire.header.dh == h
    && Decrypt(AfterAll(s, calls[..i]), calls[i].wire, calls[i].ad, calls[i].draw).outcome.Ok?
    && Decrypt(AfterAll(s, calls[..j]), calls[j].wire, calls[j].ad, calls[j].draw).outcome.Ok?
  }

  // ---------- A buffer of at most one key ----------

  /** With room for one key, a skip loop that passes the bound either changes nothing or buffers one key
      and succeeds. */
  lemma ShortLoop(chain: Term, remote: Option<PublicKey>, nr: nat, upTo: nat, skipped: map<Slot, Term>,
                  maxSkip: nat)
    requires maxSkip <= 1 && |skipped| <= maxSkip && upTo <= nr + maxSkip
    ensures var k := BufferKeys(chain, remote, nr, upTo, skipped, maxSkip);
            || (k.chain == chain && k.nr == nr && k.skipped == skipped)
            || (maxSkip == 1 && k.chain == NextChain(chain) && k.nr == nr + 1 && k.error.None?
                && remote.Some? && skipped == map[]
                && k.skipped == map[Slot(remote.value, nr) := MessageKey(chain)])
  {
    if nr < upTo && |skipped| < maxSkip && remote.Some? {
      assert |skipped| == 0 && skipped.Keys == {};
      assert skipped == map[];
    }
  }

  /** A ratchet that buffers at most one key, from behind where its receive chain stands. */
  ghost predicate Trailing(s: State) {
    && Grounded(s) && s.maxSkip <= 1 && |s.skipped| <= s.maxSkip
    && (s.recv.Some? ==> KeysTrail(s.skipped, s.recv.value))
  }

  ghost predicate KeysTrail(skipped: map<Slot, Term>, chain: Term) {
    forall k <- skipped :: skipped[k].MessageKey?
                           && (Origin(skipped[k].chain) == Origin(chain) ==>
                                 Position(skipped[k].chain) < Position(chain))
  }

  /** The key of chain key `c` is neither buffered nor still to come, whatever the slot. */
  ghost predicate Gone(s: State, c: Term) {
    && Older(c, s.rk)
    && (forall k <- s.skipped :: s.skipped[k] != MessageKey(c))
    && (s.recv.Some? && Origin(s.recv.value) == Origin(c) ==> Position(c) < Position(s.recv.value))
  }

  /** What a skip loop leaves of both, wherever it stops. */
  lemma LoopKeeps(s: State, chain: Term, upTo: nat, k: Skip)
    requires Trailing(s) && s.recv == Some(chain) && upTo <= s.nr + s.maxSkip
    requires k == BufferKeys(chain, s.remote, s.nr, upTo, s.skipped, s.maxSkip)
    ensures Trailing(s.(nr := k.nr, skipped := k.skipped, recv := Some(k.chain)))
    ensures k.error.Some? ==> s.(nr := k.nr, skipped := k.skipped) == s
    ensures Trailing(s.(nr := k.nr + 1, skipped := k.skipped, recv := Some(NextChain(k.chain))))
    ensures forall c {:trigger Gone(s, c)} | Gone(s, c) ::
              && Gone(s.(nr := k.nr, skipped := k.skipped, recv := Some(k.chain)), c)
              && Gone(s.(nr := k.nr + 1, skipped := k.skipped, recv := Some(NextChain(k.chain))), c)
              && k.chain != c
    ensures Gone(s.(nr := k.nr + 1, skipped := k.skipped, recv := Some(NextChain(k.chain))), k.chain)
  {
    hide BufferKeys, Grounded;
    ShortLoop(chain, s.remote, s.nr, upTo, s.skipped, s.maxSkip);
    SkipKeepsGrounded(s, chain, upTo, k);
    GroundedChain(s);
    if k.chain == chain { assert s.(nr := k.nr, skipped := k.skipped, recv := Some(k.chain)) == s; }
  }

  lemma GroundedChain(s: State)
    requires Grounded(s)
    ensures s.recv.Some? ==> Older(s.recv.value, s.rk)
  {
  }

  lemma TurnKeepsTrailing(s: State, header: Header, draw: Draw)
    requires Trailing(s)
    ensures var t := TurnTo(s, header, draw).state;
            Trailing(t) && forall c {:trigger Gone(s, c)} | Gone(s, c) :: Gone(t, c)
  {
    hide BufferKeys, Grounded, KeysTrail, Gone;
    TurnKeepsGrounded(s, header, draw);
    if s.remote != Some(header.dh) {
      var a := SkipMessageKeys(s, header.pn);
      SkipKeepsTrailing(s, header.pn);
      if a.outcome.Ok? { DhKeepsTrailing(a.state, header.dh, draw); }
    }
  }

  lemma SkipKeepsTrailing(s: State, upTo: nat)
    requires Trailing(s)
    ensures var t := SkipMessageKeys(s, upTo).state;
            Trailing(t) && forall c {:trigger Gone(s, c)} | Gone(s, c) :: Gone(t, c)
  {
    hide BufferKeys, Grounded, KeysTrail, Gone, Trailing;
    if s.recv.Some? && upTo <= s.nr + s.maxSkip {
      LoopKeeps(s, s.recv.value, upTo, BufferKeys(s.recv.value, s.remote, s.nr, upTo, s.skipped, s.maxSkip));
    }
  }

  /** A root step moves every older chain out of reach. */
  lemma DhKeepsTrailing(s: State, newRemote: PublicKey, draw: Draw)
    requires Trailing(s) && s.remote != Some(newRemote)
    ensures var t := DhRatchet(s, newRemote, draw).state;
            Trailing(t) && forall c {:trigger Gone(s, c)} | Gone(s, c) :: Gone(t, c)
  {
    DhRatchetKeepsGrounded(s, newRemote, draw);
    if s.remote.Some? && newRemote.Point? {
      var dh := Dh(s.local, newRemote.key);
      assert forall k <- s.skipped :: Depth(Origin(s.skipped[k].chain).root) < Depth(s.rk);
    }
  }

  lemma ReceiveKeepsTrailing(s: State, header: Header, ciphertext: Ciphertext, ad: seq<byte>)
    requires Trailing(s)
    ensures var t := Receive(s, header, ciphertext, ad).state;
            Trailing(t) && forall c {:trigger Gone(s, c)} | Gone(s, c) :: Gone(t, c)
  {
    hide BufferKeys, Grounded, KeysTrail, Gone, Trailing;
    TakeKeepsTrailing(s, header.dh, header.n);
  }

  /** Taking a message key: the state stays trailing, gone keys stay gone, and the key taken is gone. */
  lemma TakeKeepsTrailing(s: State, dh: PublicKey, n: u32)
    requires Trailing(s)
    ensures var step := TakeMessageKey(s, dh, n);
            && Trailing(step.state)
            && (forall c {:trigger Gone(s, c)} | Gone(s, c) :: Gone(step.state, c))
            && (step.outcome.Ok? ==> step.outcome.value.MessageKey? && Gone(step.state, step.outcome.value.chain)
                                     && !Gone(s, step.outcome.value.chain))
  {
    hide BufferKeys, Grounded;
    var slot := Slot(dh, n);
    if slot in s.skipped {
      OnlyKey(s, slot);
      FewerKeepsGrounded(s, slot);
      BufferedIsOlder(s, slot);
    } else if s.recv.Some? && s.nr <= n <= s.nr + s.maxSkip {
      var k := BufferKeys(s.recv.value, s.remote, s.nr, n, s.skipped, s.maxSkip);
      LoopKeeps(s, s.recv.value, n, k);
      hide Trailing, Gone;
      TakeAheadUnfolds(s, dh, n);
    }
  }

  lemma OnlyKey(s: State, slot: Slot)
    requires |s.skipped| <= 1 && slot in s.skipped
    ensures s.skipped - {slot} == map[]
  {
    assert (s.skipped - {slot}).Keys == s.skipped.Keys - {slot};
    assert |s.skipped.Keys| == |s.skipped|;
    assert |s.skipped.Keys - {slot}| == 0;
  }

  lemma BufferedIsOlder(s: State, slot: Slot)
    requires Grounded(s) && slot in s.skipped
    ensures s.skipped[slot].MessageKey? && Older(s.skipped[slot].chain, s.rk)
  {
  }

  lemma CallKeepsTrailing(s: State, call: Call)
    requires Trailing(s)
    ensures Trailing(After(s, call)) && forall c {:trigger Gone(s, c)} | Gone(s, c) :: Gone(After(s, call), c)
  {
    match call
    case EncryptCall(plaintext, ad, draw) => EncryptKeepsTrailing(s, plaintext, ad, draw);
    case DecryptCall(wire, ad, draw) =>
      hide Trailing, Gone, TurnTo, Receive;
      if wire.Framed? {
        TurnKeepsTrailing(s, wire.header, draw);
        ReceiveKeepsTrailing(TurnTo(s, wire.header, draw).state, wire.header, wire.ciphertext, ad);
      }
  }

  lemma EncryptKeepsTrailing(s: State, plaintext: seq<byte>, ad: seq<byte>, draw: Draw)
    requires Trailing(s)
    ensures var t := Encrypt(s, plaintext, ad, draw).state;
            Trailing(t) && forall c {:trigger Gone(s, c)} | Gone(s, c) :: Gone(t, c)
  {
    EncryptKeepsGrounded(s, plaintext, ad, draw);
    hide Grounded, KeysTrail;
  }

  lemma {:induction false} RunKeepsTrailing(s: State, calls: seq<Call>)
    requires Trailing(s)
    ensures Trailing(AfterAll(s, calls))
    ensures forall c {:trigger Gone(s, c)} | Gone(s, c) :: Gone(AfterAll(s, calls), c)
    decreases |calls|
  {
    hide Trailing, Gone, After;
    if calls != [] {
      CallKeepsTrailing(s, calls[0]);
      RunKeepsTrailing(After(s, calls[0]), calls[1..]);
    }
  }

  /** A frame that decrypts was sealed with a key that is gone afterwards, and was not gone before. */
  lemma ReadingConsumes(s: State, wire: Wire, ad: seq<byte>, draw: Draw) returns (c: Term)
    requires Trailing(s) && wire.Framed? && Decrypt(s, wire, ad, draw).outcome.Ok?
    ensures wire.ciphertext.Sealed? && wire.ciphertext.key == AesKey(MessageKey(c), wire.header.n)
    ensures Gone(Decrypt(s, wire, ad, draw).state, c) && !Gone(s, c)
  {
    hide Trailing, Gone, TurnTo, TakeMessageKey;
    TurnKeepsTrailing(s, wire.header, draw);
    var t := TurnTo(s, wire.header, draw).state;
    TakeKeepsTrailing(t, wire.header.dh, wire.header.n);
    c := TakeMessageKey(t, wire.header.dh, wire.header.n).outcome.value.chain;
  }

  /** With a buffer of at most one key no frame is read twice, under whatever ratchet key. */
  lemma AtMostOnceInSmallBuffer(s: State, calls: seq<Call>, i: nat, j: nat, h: PublicKey)
    requires Trailing(s)
    ensures !ReadTwice(s, calls, i, j, h)
  {
    hide Trailing, Gone, Decrypt;
    if ReadTwice(s, calls, i, j, h) {
      var before, later := AfterAll(s, calls[..i]), AfterAll(s, calls[..j]);
      RunKeepsTrailing(s, calls[..i]);
      RunKeepsTrailing(s, calls[..j]);
      var c := ReadingConsumes(before, calls[i].wire, calls[i].ad, calls[i].draw);
      var d := ReadingConsumes(later, calls[j].wire, calls[j].ad, calls[j].draw);
      AfterSplit(s, calls, i);
      AfterJoin(s, calls[..i + 1], calls[i + 1..j]);
      assert calls[..i + 1] + calls[i + 1..j] == calls[..j];
      RunKeepsTrailing(s, calls[..i + 1]);
      RunKeepsTrailing(AfterAll(s, calls[..i + 1]), calls[i + 1..j]);
    }
  }

  // ---------- A buffer of two keys or more ----------

  /** A header with a key the library refuses resets the counters and changes neither chain. */
  lemma RefusedTurn(s: State, header: Header, ciphertext: Ciphertext)
    requires header.dh.Refused? && s.remote.Some? && s.remote != Some(header.dh) && header.pn == 0
    ensures Decrypt(s, Framed(header, ciphertext), [], WrongLength)
         == Step(s.(pn := s.ns, ns := 0, nr := 0, remote := Some(header.dh)), Err(KeyRefused))
  {
    var a := SkipMessageKeys(s, header.pn);
    assert a == Step(s, Ok(()));
  }

  lemma GapThrows(s: State, header: Header, chain: Term)
    requires s.remote == Some(header.dh) && s.recv == Some(chain) && header.n == s.nr + 2
    requires |s.skipped| + 1 == s.maxSkip >= 2 && Slot(header.dh, header.n) !in s.skipped
    requires Slot(header.dh, s.nr) !in s.skipped
    ensures Decrypt(s, Framed(header, Noise([])), [], WrongLength).state
         == s.(nr := s.nr + 1, skipped := s.skipped[Slot(header.dh, s.nr) := MessageKey(chain)])
  {
    var filled := s.skipped[Slot(header.dh, s.nr) := MessageKey(chain)];
    assert BufferKeys(NextChain(chain), s.remote, s.nr + 1, header.n, filled, s.maxSkip)
        == Skip(NextChain(chain), s.nr + 1, filled, Some(SkipBufferExhausted));
  }

  lemma SealedOpens(s: State, header: Header, chain: Term)
    requires s.remote == Some(header.dh)
    requires var slot := Slot(header.dh, header.n);
             if slot in s.skipped then s.skipped[slot] == MessageKey(chain)
             else s.recv == Some(chain) && header.n == s.nr
    ensures var step := Decrypt(s, Framed(header, Seal(MessageKey(chain), header.n, [], FullAd([], header))),
                                [], WrongLength);
            && step.outcome == Ok([])
            && (Slot(header.dh, header.n) in s.skipped ==>
                  step.state == s.(skipped := s.skipped - {Slot(header.dh, header.n)}))
  {
  }

  /** All buffered keys belong to accepted ratchet keys below `key`. */
  ghost predicate SlotsBelow(skipped: map<Slot, Term>, key: PrivateKey) {
    forall k <- skipped :: k.dh.Point? && k.dh.key < key
  }

  ghost predicate RemoteBelow(remote: Option<PublicKey>, key: PrivateKey) {
    remote.Some? && (remote.value.Point? ==> remote.value.key < key)
  }

  /** A first frame under a fresh ratchet key buffers as many keys as it skips. */
  lemma FillOnce(s: State, key: PrivateKey, n: u32)
    requires RemoteBelow(s.remote, key) && SlotsBelow(s.skipped, key) && |s.skipped| + n <= s.maxSkip
    ensures var t := Decrypt(s, Framed(Header(Point(key, 0), 0, n), Noise([])), [], Private(0)).state;
            && t.remote == Some(Point(key, 0)) && t.recv.Some? && |t.skipped| == |s.skipped| + n
            && t.maxSkip == s.maxSkip && SlotsBelow(t.skipped, key + 1)
  {
    hide TurnTo, TakeMessageKey, SlotsBelow, RemoteBelow;
    var header := Header(Point(key, 0), 0, n);
    FreshTurn(s, header, key);
    TakeFills(TurnTo(s, header, Private(0)).state, key, n);
  }

  lemma FreshTurn(s: State, header: Header, key: PrivateKey)
    requires RemoteBelow(s.remote, key) && header.dh == Point(key, 0) && header.pn == 0
    ensures var turn := TurnTo(s, header, Private(0));
            && turn.outcome.Ok? && turn.state.remote == Some(Point(key, 0)) && turn.state.recv.Some?
            && turn.state.nr == 0 && turn.state.skipped == s.skipped && turn.state.maxSkip == s.maxSkip
  {
    NothingToSkip(s);
    hide SkipMessageKeys;
  }

  lemma TakeFills(t: State, key: PrivateKey, n: u32)
    requires t.remote == Some(Point(key, 0)) && t.recv.Some? && t.nr == 0
    requires SlotsBelow(t.skipped, key) && |t.skipped| + n <= t.maxSkip
    ensures var u := TakeMessageKey(t, Point(key, 0), n).state;
            && u.remote == t.remote && u.recv.Some? && |u.skipped| == |t.skipped| + n
            && u.maxSkip == t.maxSkip && SlotsBelow(u.skipped, key + 1)
  {
    hide BufferKeys, Filled, TakeMessageKey;
    assert Slot(Point(key, 0), n) !in t.skipped && forall k <- t.skipped :: !InRange(k, t.remote, 0, n);
    TakeAheadUnfolds(t, Point(key, 0), n);
    BufferKeysFits(t.recv.value, Point(key, 0), 0, n, t.skipped, t.maxSkip);
    BufferKeysMoves(t.recv.value, t.remote, 0, n, t.skipped, t.maxSkip);
    BufferKeysFills(t.recv.value, t.remote, 0, n, t.skipped, t.maxSkip);
    FilledBelow(t.skipped, BufferKeys(t.recv.value, t.remote, 0, n, t.skipped, t.maxSkip).skipped,
                t.remote, t.recv.value, 0, n, key);
  }

  lemma NothingToSkip(s: State)
    ensures SkipMessageKeys(s, 0) == Step(s, Ok(()))
  {
  }

  lemma FilledBelow(before: map<Slot, Term>, after: map<Slot, Term>, remote: Option<PublicKey>, chain: Term,
                    from: nat, to: nat, key: PrivateKey)
    requires Filled(before, after, remote, chain, from, to)
    requires SlotsBelow(before, key) && remote == Some(Point(key, 0))
    ensures SlotsBelow(after, key + 1)
  {
  }

  /** Any ratchet with a remote key can be brought to hold `target` keys, with a receive chain. */
  lemma {:induction false} FillTo(s: State, target: nat, key: PrivateKey) returns (calls: seq<Call>)
    requires RemoteBelow(s.remote, key) && SlotsBelow(s.skipped, key) && |s.skipped| <= target <= s.maxSkip
    ensures var t := AfterAll(s, calls);
            && t.recv.Some? && t.remote.Some? && t.remote.value.Point? && |t.skipped| == target
            && t.maxSkip == s.maxSkip && forall k <- t.skipped :: k.dh.Point?
    decreases target - |s.skipped|
  {
    hide Decrypt;
    var missing := target - |s.skipped|;
    var n := if missing < U32_LIMIT then missing else U32_LIMIT - 1;
    var call := DecryptCall(Framed(Header(Point(key, 0), 0, n), Noise([])), [], Private(0));
    var t := After(s, call);
    FillOnce(s, key, n);
    var rest: seq<Call> := [];
    if n < missing { rest := FillTo(t, target, key + 1); }
    calls := [call] + rest;
    assert calls[1..] == rest;
  }

  /** Under any two refused keys, a ratchet with one free place in its buffer reads one frame twice: the
      buffered key opens it, two more resets follow, and the chain serves the same index again. */
  lemma SixCalls(t: State, w: PublicKey, v: PublicKey) returns (calls: seq<Call>)
    requires t.recv.Some? && t.remote.Some? && t.remote.value.Point? && forall k <- t.skipped :: k.dh.Point?
    requires w.Refused? && v.Refused? && w != v && |t.skipped| + 1 == t.maxSkip >= 2
    ensures |calls| == 6 && ReadTwice(t, calls, 2, 5, w)
  {
    hide Decrypt, AfterAll;
    var chain := t.recv.value;
    var gap, replayed := Header(w, 0, 2), Header(w, 0, 0);
    var refused := DecryptCall(Framed(gap, Noise([])), [], WrongLength);
    var other := DecryptCall(Framed(Header(v, 0, 0), Noise([])), [], WrongLength);
    var frame := DecryptCall(Framed(replayed, Seal(MessageKey(chain), 0, [], FullAd([], replayed))),
                             [], WrongLength);
    calls := [refused, refused, frame, other, frame, frame];
    // The refused key resets the index; its next frame buffers one key and throws at the second.
    var s1 := t.(pn := t.ns, ns := 0, nr := 0, remote := Some(w));
    RefusedTurn(t, gap, Noise([]));
    var s2 := s1.(nr := 1, skipped := t.skipped[Slot(w, 0) := MessageKey(chain)]);
    GapThrows(s1, gap, chain);
    // The buffered key opens the frame; the chain still starts at the same key.
    var s3 := s2.(skipped := t.skipped);
    assert s2.skipped - {Slot(w, 0)} == t.skipped;
    SealedOpens(s2, replayed, chain);
    // Two more resets, and the chain serves index 0 again.
    var s4 := s3.(pn := s3.ns, ns := 0, nr := 0, remote := Some(v));
    RefusedTurn(s3, other.wire.header, Noise([]));
    var s5 := s4.(pn := s4.ns, ns := 0, nr := 0, remote := Some(w));
    RefusedTurn(s4, replayed, frame.wire.ciphertext);
    SealedOpens(s5, replayed, chain);
    RunOfFive(t, calls, [s1, s2, s3, s4, s5]);
  }

  lemma RunOfFive(s: State, calls: seq<Call>, states: seq<State>)
    requires |calls| >= 5 && |states| == 5 && states[0] == After(s, calls[0])
    requires forall i | 0 < i < 5 :: states[i] == After(states[i - 1], calls[i])
    ensures AfterAll(s, calls[..2]) == states[1] && AfterAll(s, calls[..5]) == states[4]
  {
    hide After;
    for i := 0 to 5
      invariant AfterAll(s, calls[..i]) == if i == 0 then s else states[i - 1]
      invariant i >= 2 ==> AfterAll(s, calls[..2]) == states[1]
    {
      AfterSplit(s, calls, i);
    }
  }

  /** Whatever ratchet `create` makes with a remote key and room for two keys or more, a run of it reads a
      frame under any refused key twice. The frame is sealed with a key of the receive chain. */
  lemma RefusedKeyReplays(sk: Term, dh: DhOutput, local: PrivateKey, remote: PublicKey, initiator: bool,
                          maxSkip: nat, w: PublicKey)
    returns (calls: seq<Call>, i: nat, j: nat)
    requires w.Refused? && maxSkip >= 2
    ensures ReadTwice(Create(NewRoot(sk, dh), FirstChain(sk, dh), local, Some(remote), initiator, maxSkip),
                      calls, i, j, w)
  {
    hide Decrypt, AfterAll;
    var s := Create(NewRoot(sk, dh), FirstChain(sk, dh), local, Some(remote), initiator, maxSkip);
    var fill := FillTo(s, maxSkip - 1, if remote.Point? then remote.key + 1 else 0);
    var six := SixCalls(AfterAll(s, fill), w, Refused(w.encoding + 1));
    calls, i, j := fill + six, |fill| + 2, |fill| + 5;
    AfterJoin(s, fill, six[..2]);
    AfterJoin(s, fill, six[..5]);
    assert calls[..i] == fill + six[..2] && calls[..j] == fill + six[..5];
  }

  /** The exact condition, for every ratchet that `create` makes from a handshake: no run of it reads a
      frame under ratchet key `h` twice if and only if the X25519 library accepts `h`, or the buffer has
      room for at most one key, or there is no remote key. */
  lemma AtMostOnceExactly(sk: Term, dh: DhOutput, local: PrivateKey, remote: Option<PublicKey>, initiator: bool,
                          maxSkip: nat, h: PublicKey)
    ensures var s := Create(NewRoot(sk, dh), FirstChain(sk, dh), local, remote, initiator, maxSkip);
            (forall calls, i, j :: !ReadTwice(s, calls, i, j, h)) <==> h.Point? || maxSkip < 2 || remote.None?
  {
    hide Grounded, Decrypt, AfterAll;
    var s := Create(NewRoot(sk, dh), FirstChain(sk, dh), local, remote, initiator, maxSkip);
    CreateGrounded(sk, dh, local, remote, initiator, maxSkip);
    if h.Point? {
      forall calls, i, j ensures !ReadTwice(s, calls, i, j, h) {
        if ReadTwice(s, calls, i, j, h) { AtMostOnce(s, calls, i, j); }
      }
    } else if maxSkip < 2 {
      forall calls, i, j ensures !ReadTwice(s, calls, i, j, h) { AtMostOnceInSmallBuffer(s, calls, i, j, h); }
    } else if remote.None? {
      forall calls, i, j ensures !ReadTwice(s, calls, i, j, h) { NothingWithoutRemote(s, calls, i, j, h); }
    } else {
      var calls, i, j := RefusedKeyReplays(sk, dh, local, remote.value, initiator, maxSkip, h);
    }
  }

  /** Without a remote key nothing is read. */
  lemma NothingWithoutRemote(s: State, calls: seq<Call>, i: nat, j: nat, h: PublicKey)
    requires s.remote.None?
    ensures !ReadTwice(s, calls, i, j, h)
  {
    hide Decrypt;
    if i < |calls| {
      StaysWithoutRemote(s, calls[..i]);
      if calls[i].DecryptCall? { NotRead(AfterAll(s, calls[..i]), calls[i]); }
    }
  }

  lemma NotRead(s: State, call: Call)
    requires s.remote.None?
    ensures After(s, call).remote.None?
    ensures call.DecryptCall? ==> Decrypt(s, call.wire, call.ad, call.draw).outcome.Err?
  {
    hide BufferKeys;
  }

  lemma {:induction false} StaysWithoutRemote(s: State, calls: seq<Call>)
    requires s.remote.None?
    ensures AfterAll(s, calls).remote.None?
    decreases |calls|
  {
    hide After;
    if calls != [] {
      NotRead(s, calls[0]);
      StaysWithoutRemote(After(s, calls[0]), calls[1..]);
    }
  }
}
