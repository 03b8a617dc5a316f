/** What holds of one ratchet over every run, whatever arrives on the wire: a frame that decrypted
    once under a ratchet key the library accepts never decrypts again, no two messages are sealed under
    one key or nonce, and the buffer of skipped keys keeps its bound. Calls that throw are part of the
    runs. */
module RatchetSafety {
  import opened Terms
  import opened Ratchet
  import opened SkippedKeys

  // ---------- The invariant ----------

  /** Every buffered key stems from a root that the root key has left behind. */
  ghost predicate KeysOlder(skipped: map<Slot, Term>, rk: Term) {
    forall k <- skipped :: skipped[k].MessageKey? && Older(skipped[k].chain, rk)
  }

  /** No key of the current chain is buffered for the current remote key at an index that the chain
      has yet to reach. (A remote key that the library refuses resets the index without changing
      the chain, so nothing is said of one.) */
  ghost predicate Behind(skipped: map<Slot, Term>, remote: Option<PublicKey>, origin: Term, nr: nat) {
    forall k <- skipped :: k.dh.Point? && remote == Some(k.dh)
                           && skipped[k].MessageKey? && Origin(skipped[k].chain) == origin ==>
                             k.n < nr
  }

  /** Chains and buffered keys stem from roots left behind, and the receive index is ahead of the
      buffer. */
  ghost predicate Grounded(s: State) {
    && (s.recv.Some? ==> Older(s.recv.value, s.rk))
    && (s.send.Some? ==> Older(s.send.value, s.rk))
    && KeysOlder(s.skipped, s.rk)
    && (s.recv.Some? ==> Behind(s.skipped, s.remote, Origin(s.recv.value), s.nr))
  }

  /** A new ratchet is grounded when its root key and start chain come from one root step. */
  lemma CreateGrounded(sk: Term, dh: DhOutput, local: PrivateKey, remote: Option<PublicKey>,
                       initiator: bool, maxSkip: nat)
    ensures Grounded(Create(NewRoot(sk, dh), FirstChain(sk, dh), local, remote, initiator, maxSkip))
  {
  }

  // ---------- Every call keeps the invariant ----------

  lemma OlderStays(chain: Term, rk: Term, dh: DhOutput)
    ensures Older(chain, rk) ==> Older(chain, NewRoot(rk, dh))
    ensures Older(FirstChain(rk, dh), NewRoot(rk, dh))
  {
  }

  /** The skip loop keeps the parts of the invariant that speak of the buffer. */
  lemma FillKeepsGrounded(before: map<Slot, Term>, after: map<Slot, Term>, remote: Option<PublicKey>,
                          chain: Term, from: nat, to: nat, rk: Term)
    requires from <= to && Filled(before, after, remote, chain, from, to)
    requires Older(chain, rk) && KeysOlder(before, rk) && Behind(before, remote, Origin(chain), from)
    ensures KeysOlder(after, rk)
    ensures Behind(after, remote, Origin(chain), to) && Behind(after, remote, Origin(chain), to + 1)
  {
    forall k <- after ensures after[k].MessageKey? && Older(after[k].chain, rk) {
      if InRange(k, remote, from, to) { AdvanceShape(chain, k.n - from); }
    }
  }

  lemma SkipKeepsGrounded(s: State, chain: Term, upTo: nat, k: Skip)
    requires Grounded(s) && s.recv == Some(chain)
    requires k == BufferKeys(chain, s.remote, s.nr, upTo, s.skipped, s.maxSkip)
    ensures Grounded(s.(nr := k.nr, skipped := k.skipped))
    ensures Grounded(s.(nr := k.nr, skipped := k.skipped, recv := Some(k.chain)))
    ensures Grounded(s.(nr := k.nr + 1, skipped := k.skipped, recv := Some(NextChain(k.chain))))
  {
    hide BufferKeys, Filled, KeysOlder, Behind;
    BufferKeysMoves(chain, s.remote, s.nr, upTo, s.skipped, s.maxSkip);
    BufferKeysFills(chain, s.remote, s.nr, upTo, s.skipped, s.maxSkip);
    AdvanceShape(chain, k.nr - s.nr);
    FillKeepsGrounded(s.skipped, k.skipped, s.remote, chain, s.nr, k.nr, s.rk);
  }

  lemma DhRatchetKeepsGrounded(s: State, newRemote: PublicKey, draw: Draw)
    requires Grounded(s) && s.remote != Some(newRemote)
    ensures Grounded(DhRatchet(s, newRemote, draw).state)
  {
    if s.remote.Some? && newRemote.Point? {
      var s2 := DhRatchet(s, newRemote, WrongLength).state;
      var dh := Dh(s.local, newRemote.key);
      if s.send.Some? { OlderStays(s.send.value, s.rk, dh); }
      OlderStays(s.rk, s.rk, dh);
      forall k <- s.skipped ensures Older(s.skipped[k].chain, s2.rk) {
        OlderStays(s.skipped[k].chain, s.rk, dh);
      }
      assert Grounded(s2);
      if draw.Private? {
        var dh2 := Dh(draw.key, newRemote.key);
        OlderStays(s2.recv.value, s2.rk, dh2);
        forall k <- s.skipped ensures Older(s.skipped[k].chain, NewRoot(s2.rk, dh2)) {
          OlderStays(s.skipped[k].chain, s2.rk, dh2);
        }
      }
    }
  }

  lemma TurnKeepsGrounded(s: State, header: Header, draw: Draw)
    requires Grounded(s)
    ensures Grounded(TurnTo(s, header, draw).state)
  {
    if s.remote != Some(header.dh) {
      if s.recv.Some? { SkipKeepsGrounded(s, s.recv.value, header.pn,
            BufferKeys(s.recv.value, s.remote, s.nr, header.pn, s.skipped, s.maxSkip)); }
      var a := SkipMessageKeys(s, header.pn);
      if a.outcome.Ok? { DhRatchetKeepsGrounded(a.state, header.dh, draw); }
    }
  }

  lemma EncryptKeepsGrounded(s: State, plaintext: seq<byte>, ad: seq<byte>, draw: Draw)
    requires Grounded(s)
    ensures Grounded(Encrypt(s, plaintext, ad, draw).state)
  {
    if s.send.None? && s.remote.Some? && draw.Private? && s.remote.value.Point? {
      var dh := Dh(draw.key, s.remote.value.key);
      if s.recv.Some? { OlderStays(s.recv.value, s.rk, dh); }
      OlderStays(s.rk, s.rk, dh);
      forall k <- s.skipped ensures Older(s.skipped[k].chain, NewRoot(s.rk, dh)) {
        OlderStays(s.skipped[k].chain, s.rk, dh);
      }
    }
  }

  lemma FewerKeepsGrounded(s: State, slot: Slot)
    requires Grounded(s)
    ensures Grounded(s.(skipped := s.skipped - {slot}))
  {
  }

  lemma ReceiveKeepsGrounded(s: State, header: Header, ciphertext: Ciphertext, ad: seq<byte>)
    requires Grounded(s)
    ensures Grounded(Receive(s, header, ciphertext, ad).state)
  {
    hide BufferKeys, Grounded;
    if Slot(header.dh, header.n) in s.skipped {
      FewerKeepsGrounded(s, Slot(header.dh, header.n));
    } else if s.recv.Some? {
      SkipKeepsGrounded(s, s.recv.value, header.n,
        BufferKeys(s.recv.value, s.remote, s.nr, header.n, s.skipped, s.maxSkip));
    }
  }

  lemma CallKeepsGrounded(s: State, call: Call)
    requires Grounded(s)
    ensures Grounded(After(s, call))
  {
    match call
    case EncryptCall(plaintext, ad, draw) => EncryptKeepsGrounded(s, plaintext, ad, draw);
    case DecryptCall(wire, ad, draw) =>
      if wire.Framed? {
        TurnKeepsGrounded(s, wire.header, draw);
        ReceiveKeepsGrounded(TurnTo(s, wire.header, draw).state, wire.header, wire.ciphertext, ad);
      }
  }

  lemma {:induction false} RunKeepsGrounded(s: State, calls: seq<Call>)
    requires Grounded(s)
    ensures Grounded(AfterAll(s, calls))
    decreases |calls|
  {
    if calls != [] {
      CallKeepsGrounded(s, calls[0]);
      RunKeepsGrounded(After(s, calls[0]), calls[1..]);
    }
  }

  lemma {:induction false} AfterSplit(s: State, calls: seq<Call>, i: nat)
    requires i < |calls|
    ensures AfterAll(s, calls[..i + 1]) == After(AfterAll(s, calls[..i]), calls[i])
    decreases |calls|
  {
    if i > 0 {
      AfterSplit(After(s, calls[0]), calls[1..], i - 1);
      assert calls[..i + 1][1..] == calls[1..][..i] && calls[..i][1..] == calls[1..][..i - 1];
    } else {
      assert calls[..1] == [calls[0]];
    }
  }

  // ---------- At most once ----------

  /** The message key of chain key `c` can never again be paired with this slot: it is not buffered there,
      and the receive chain will not be at `c` when the index is the slot's. The index has passed the slot,
      or the chain lags behind it. */
  ghost predicate Spent(s: State, slot: Slot, c: Term) {
    && Older(c, s.rk)
    && (slot in s.skipped ==> s.skipped[slot] != MessageKey(c))
    && (s.recv.Some? && Origin(s.recv.value) == Origin(c) ==>
          s.remote != Some(slot.dh) || slot.n < s.nr
          || Position(s.recv.value) + (slot.n - s.nr) < Position(c))
  }

  lemma FillKeepsSpent(before: map<Slot, Term>, after: map<Slot, Term>, remote: Option<PublicKey>,
                       chain: Term, from: nat, to: nat, slot: Slot, c: Term)
    requires Filled(before, after, remote, chain, from, to)
    requires slot in before ==> before[slot] != MessageKey(c)
    requires Origin(chain) == Origin(c) ==>
               remote != Some(slot.dh) || slot.n < from || Position(chain) + (slot.n - from) < Position(c)
    ensures slot in after ==> after[slot] != MessageKey(c)
  {
    if slot in after && InRange(slot, remote, from, to) { AdvanceShape(chain, slot.n - from); }
  }

  lemma SkipKeepsSpent(s: State, slot: Slot, c: Term, chain: Term, upTo: nat, k: Skip)
    requires Spent(s, slot, c) && s.recv == Some(chain)
    requires k == BufferKeys(chain, s.remote, s.nr, upTo, s.skipped, s.maxSkip)
    ensures Origin(k.chain) == Origin(chain)
    ensures Spent(s.(nr := k.nr, skipped := k.skipped), slot, c)
    ensures Spent(s.(nr := k.nr, skipped := k.skipped, recv := Some(k.chain)), slot, c)
    ensures Spent(s.(nr := k.nr + 1, skipped := k.skipped, recv := Some(NextChain(k.chain))), slot, c)
  {
    hide BufferKeys, Filled, Older;
    BufferKeysMoves(chain, s.remote, s.nr, upTo, s.skipped, s.maxSkip);
    BufferKeysFills(chain, s.remote, s.nr, upTo, s.skipped, s.maxSkip);
    AdvanceShape(chain, k.nr - s.nr);
    FillKeepsSpent(s.skipped, k.skipped, s.remote, chain, s.nr, k.nr, slot, c);
  }

  lemma TurnKeepsSpent(s: State, slot: Slot, c: Term, header: Header, draw: Draw)
    requires Spent(s, slot, c) && slot.dh.Point?
    ensures Spent(TurnTo(s, header, draw).state, slot, c)
  {
    if s.remote != Some(header.dh) {
      if s.recv.Some? {
        SkipKeepsSpent(s, slot, c, s.recv.value, header.pn,
          BufferKeys(s.recv.value, s.remote, s.nr, header.pn, s.skipped, s.maxSkip));
      }
      var a := SkipMessageKeys(s, header.pn);
      if a.outcome.Ok? && s.remote.Some? && header.dh.Point? {
        var dh := Dh(s.local, header.dh.key);
        OlderStays(c, s.rk, dh);
        if draw.Private? { OlderStays(c, NewRoot(s.rk, dh), Dh(draw.key, header.dh.key)); }
      }
    }
  }

  lemma FewerKeepsSpent(s: State, slot: Slot, c: Term, taken: Slot)
    requires Spent(s, slot, c)
    ensures Spent(s.(skipped := s.skipped - {taken}), slot, c)
  {
    hide Older;
  }

  lemma ReceiveKeepsSpent(s: State, slot: Slot, c: Term, header: Header, ciphertext: Ciphertext,
                          ad: seq<byte>)
    requires Spent(s, slot, c)
    ensures Spent(Receive(s, header, ciphertext, ad).state, slot, c)
  {
    hide BufferKeys, Spent;
    FewerKeepsSpent(s, slot, c, Slot(header.dh, header.n));
    if s.recv.Some? {
      SkipKeepsSpent(s, slot, c, s.recv.value, header.n,
        BufferKeys(s.recv.value, s.remote, s.nr, header.n, s.skipped, s.maxSkip));
    }
  }

  lemma CallKeepsSpent(s: State, slot: Slot, c: Term, call: Call)
    requires Spent(s, slot, c) && slot.dh.Point?
    ensures Spent(After(s, call), slot, c)
  {
    match call
    case EncryptCall(plaintext, ad, draw) =>
      if s.send.None? && s.remote.Some? && draw.Private? && s.remote.value.Point? {
        OlderStays(c, s.rk, Dh(draw.key, s.remote.value.key));
      }
    case DecryptCall(wire, ad, draw) =>
      if wire.Framed? {
        TurnKeepsSpent(s, slot, c, wire.header, draw);
        ReceiveKeepsSpent(TurnTo(s, wire.header, draw).state, slot, c, wire.header, wire.ciphertext, ad);
      }
  }

  lemma {:induction false} RunKeepsSpent(s: State, slot: Slot, c: Term, calls: seq<Call>)
    requires Spent(s, slot, c) && slot.dh.Point?
    ensures Spent(AfterAll(s, calls), slot, c)
    decreases |calls|
  {
    if calls != [] {
      CallKeepsSpent(s, slot, c, calls[0]);
      RunKeepsSpent(After(s, calls[0]), slot, c, calls[1..]);
    }
  }

  /** A frame that decrypts spends the key it was sealed with. */
  lemma DecryptSpends(s: State, wire: Wire, ad: seq<byte>, draw: Draw) returns (c: Term)
    requires Grounded(s) && wire.Framed? && wire.header.dh.Point?
    requires Decrypt(s, wire, ad, draw).outcome.Ok?
    ensures wire.ciphertext.Sealed? && wire.ciphertext.key == AesKey(MessageKey(c), wire.header.n)
    ensures Spent(Decrypt(s, wire, ad, draw).state, Slot(wire.header.dh, wire.header.n), c)
  {
    hide Grounded, Spent, TurnTo, TakeMessageKey;
    TurnKeepsGrounded(s, wire.header, draw);
    var t := TurnTo(s, wire.header, draw).state;
    TakeSpends(t, Slot(wire.header.dh, wire.header.n));
    c := TakeMessageKey(t, wire.header.dh, wire.header.n).outcome.value.chain;
  }

  lemma TakeSpends(t: State, slot: Slot)
    requires Grounded(t) && slot.n < U32_LIMIT && slot.dh.Point? && t.remote == Some(slot.dh)
    ensures var taken := TakeMessageKey(t, slot.dh, slot.n);
            taken.outcome.Ok? ==>
              taken.outcome.value.MessageKey? && Spent(taken.state, slot, taken.outcome.value.chain)
  {
    hide BufferKeys;
    if slot !in t.skipped && t.recv.Some? {
      BufferKeysMoves(t.recv.value, t.remote, t.nr, slot.n, t.skipped, t.maxSkip);
      BufferKeysFills(t.recv.value, t.remote, t.nr, slot.n, t.skipped, t.maxSkip);
      if t.nr <= slot.n { AdvanceShape(t.recv.value, slot.n - t.nr); }
    }
  }

  /** A frame sealed with a spent key does not decrypt. */
  lemma SpentNeverOpens(s: State, wire: Wire, ad: seq<byte>, draw: Draw, c: Term)
    requires wire.Framed? && wire.header.dh.Point?
    requires wire.ciphertext.Sealed? && wire.ciphertext.key == AesKey(MessageKey(c), wire.header.n)
    requires Spent(s, Slot(wire.header.dh, wire.header.n), c)
    ensures Decrypt(s, wire, ad, draw).outcome.Err?
  {
    hide Spent, TurnTo, TakeMessageKey;
    var slot := Slot(wire.header.dh, wire.header.n);
    TurnKeepsSpent(s, slot, c, wire.header, draw);
    if TurnTo(s, wire.header, draw).outcome.Ok? { SpentIsNotTaken(TurnTo(s, wire.header, draw).state, slot, c); }
  }

  lemma SpentIsNotTaken(t: State, slot: Slot, c: Term)
    requires Spent(t, slot, c) && slot.n < U32_LIMIT && t.remote == Some(slot.dh)
    ensures TakeMessageKey(t, slot.dh, slot.n).outcome != Ok(MessageKey(c))
  {
    hide BufferKeys, Older;
    if slot !in t.skipped && t.recv.Some? && t.nr <= slot.n {
      BufferKeysMoves(t.recv.value, t.remote, t.nr, slot.n, t.skipped, t.maxSkip);
      AdvanceShape(t.recv.value, slot.n - t.nr);
    }
  }

  /** At most once: in any run of calls with arbitrary frames and arbitrary randomness, including
      calls that throw, a frame that decrypted once is refused from then on, under any associated
      data. The run may start in any grounded state. */
  lemma AtMostOnce(s: State, calls: seq<Call>, i: nat, j: nat)
    requires Grounded(s) && i < j < |calls|
    requires calls[i].DecryptCall? && calls[j].DecryptCall? && calls[i].wire == calls[j].wire
    requires calls[i].wire.Framed? && calls[i].wire.header.dh.Point?
    requires Decrypt(AfterAll(s, calls[..i]), calls[i].wire, calls[i].ad, calls[i].draw).outcome.Ok?
    ensures Decrypt(AfterAll(s, calls[..j]), calls[j].wire, calls[j].ad, calls[j].draw).outcome.Err?
  {
    var wire := calls[i].wire;
    var slot := Slot(wire.header.dh, wire.header.n);
    var before := AfterAll(s, calls[..i]);
    RunKeepsGrounded(s, calls[..i]);
    var c := DecryptSpends(before, wire, calls[i].ad, calls[i].draw);
    AfterSplit(s, calls, i);
    AfterJoin(s, calls[..i + 1], calls[i + 1..j]);
    assert calls[..i + 1] + calls[i + 1..j] == calls[..j];
    RunKeepsSpent(After(before, calls[i]), slot, c, calls[i + 1..j]);
    SpentNeverOpens(AfterAll(s, calls[..j]), wire, calls[j].ad, calls[j].draw, c);
  }

  lemma {:induction false} AfterJoin(s: State, a: seq<Call>, b: seq<Call>)
    ensures AfterAll(s, a + b) == AfterAll(AfterAll(s, a), b)
    decreases |a|
  {
    if a == [] {
      assert a + b == b;
    } else {
      AfterJoin(After(s, a[0]), a[1..], b);
      assert (a + b)[1..] == a[1..] + b;
    }
  }

  // ---------- Keys are not reused ----------

  /** The sending chain has moved past chain key `c` for good. */
  ghost predicate Passed(s: State, c: Term) {
    && Older(c, s.rk)
    && (s.send.Some? && Origin(s.send.value) == Origin(c) ==> Position(c) < Position(s.send.value))
  }

  lemma TurnKeepsPassed(s: State, c: Term, header: Header, draw: Draw)
    requires Passed(s, c)
    ensures Passed(TurnTo(s, header, draw).state, c)
  {
    if s.remote.Some? && header.dh.Point? {
      var dh := Dh(s.local, header.dh.key);
      OlderStays(c, s.rk, dh);
      if draw.Private? { OlderStays(c, NewRoot(s.rk, dh), Dh(draw.key, header.dh.key)); }
    }
  }

  lemma CallKeepsPassed(s: State, c: Term, call: Call)
    requires Passed(s, c)
    ensures Passed(After(s, call), c)
  {
    match call
    case EncryptCall(plaintext, ad, draw) =>
      if s.send.None? && s.remote.Some? && draw.Private? && s.remote.value.Point? {
        OlderStays(c, s.rk, Dh(draw.key, s.remote.value.key));
      }
    case DecryptCall(wire, ad, draw) =>
      if wire.Framed? { TurnKeepsPassed(s, c, wire.header, draw); }
  }

  lemma {:induction false} RunKeepsPassed(s: State, c: Term, calls: seq<Call>)
    requires Passed(s, c)
    ensures Passed(AfterAll(s, calls), c)
    decreases |calls|
  {
    if calls != [] {
      CallKeepsPassed(s, c, calls[0]);
      RunKeepsPassed(After(s, calls[0]), c, calls[1..]);
    }
  }

  /** The chain key an encryption uses: it was not passed before, and it is passed afterwards. */
  lemma EncryptPasses(s: State, plaintext: seq<byte>, ad: seq<byte>, draw: Draw) returns (c: Term)
    requires Grounded(s) && Encrypt(s, plaintext, ad, draw).outcome.Ok?
    ensures var step := Encrypt(s, plaintext, ad, draw);
            && step.outcome.value.Framed? && step.outcome.value.ciphertext.Sealed?
            && step.outcome.value.ciphertext.key.AesKey?
            && step.outcome.value.ciphertext.key.messageKey == MessageKey(c)
            && step.outcome.value.ciphertext.nonce.Nonce?
            && step.outcome.value.ciphertext.nonce.messageKey == MessageKey(c)
            && Passed(step.state, c) && !Passed(s, c)
  {
    EncryptKeepsGrounded(s, plaintext, ad, draw);
    c := Encrypt(s, plaintext, ad, draw).state.send.value.chain;
  }

  /** No key reuse: in any run with arbitrary frames and arbitrary randomness, two encryptions never
      use the same AES key, nor the same nonce. */
  lemma NoKeyReuse(s: State, calls: seq<Call>, i: nat, j: nat)
    requires Grounded(s) && i < j < |calls| && calls[i].EncryptCall? && calls[j].EncryptCall?
    requires Encrypt(AfterAll(s, calls[..i]), calls[i].plaintext, calls[i].ad, calls[i].draw).outcome.Ok?
    requires Encrypt(AfterAll(s, calls[..j]), calls[j].plaintext, calls[j].ad, calls[j].draw).outcome.Ok?
    ensures var a := Encrypt(AfterAll(s, calls[..i]), calls[i].plaintext, calls[i].ad, calls[i].draw);
            var b := Encrypt(AfterAll(s, calls[..j]), calls[j].plaintext, calls[j].ad, calls[j].draw);
            && a.outcome.value.Framed? && a.outcome.value.ciphertext.Sealed?
            && b.outcome.value.Framed? && b.outcome.value.ciphertext.Sealed?
            && a.outcome.value.ciphertext.key != b.outcome.value.ciphertext.key
            && a.outcome.value.ciphertext.nonce != b.outcome.value.ciphertext.nonce
  {
    var before := AfterAll(s, calls[..i]);
    var later := AfterAll(s, calls[..j]);
    RunKeepsGrounded(s, calls[..i]);
    RunKeepsGrounded(s, calls[..j]);
    var c := EncryptPasses(before, calls[i].plaintext, calls[i].ad, calls[i].draw);
    var d := EncryptPasses(later, calls[j].plaintext, calls[j].ad, calls[j].draw);
    AfterSplit(s, calls, i);
    AfterJoin(s, calls[..i + 1], calls[i + 1..j]);
    assert calls[..i + 1] + calls[i + 1..j] == calls[..j];
    RunKeepsPassed(After(before, calls[i]), c, calls[i + 1..j]);
  }

  // ---------- The buffer is bounded ----------

  lemma TurnKeepsBound(s: State, header: Header, draw: Draw)
    requires |s.skipped| <= s.maxSkip
    ensures var t := TurnTo(s, header, draw).state;
            t.maxSkip == s.maxSkip && |t.skipped| <= s.maxSkip
  {
    if s.recv.Some? {
      BufferKeysMoves(s.recv.value, s.remote, s.nr, header.pn, s.skipped, s.maxSkip);
    }
  }

  lemma ReceiveKeepsBound(s: State, header: Header, ciphertext: Ciphertext, ad: seq<byte>)
    requires |s.skipped| <= s.maxSkip
    ensures var t := Receive(s, header, ciphertext, ad).state;
            t.maxSkip == s.maxSkip && |t.skipped| <= s.maxSkip
  {
    var slot := Slot(header.dh, header.n);
    if slot in s.skipped {
      SizeWithout(s.skipped, slot);
    } else if s.recv.Some? {
      BufferKeysMoves(s.recv.value, s.remote, s.nr, header.n, s.skipped, s.maxSkip);
    }
  }

  lemma CallKeepsBound(s: State, call: Call)
    requires |s.skipped| <= s.maxSkip
    ensures After(s, call).maxSkip == s.maxSkip && |After(s, call).skipped| <= s.maxSkip
  {
    if call.DecryptCall? && call.wire.Framed? {
      TurnKeepsBound(s, call.wire.header, call.draw);
      ReceiveKeepsBound(TurnTo(s, call.wire.header, call.draw).state, call.wire.header,
                        call.wire.ciphertext, call.ad);
    }
  }

  /** The skipped-key buffer never holds more than `maxSkip` keys, whatever arrives. */
  lemma {:induction false} SkipBufferBounded(s: State, calls: seq<Call>)
    requires |s.skipped| <= s.maxSkip
    ensures AfterAll(s, calls).maxSkip == s.maxSkip
    ensures |AfterAll(s, calls).skipped| <= s.maxSkip
    decreases |calls|
  {
    if calls != [] {
      CallKeepsBound(s, calls[0]);
      SkipBufferBounded(After(s, calls[0]), calls[1..]);
    }
  }
}
