/** What a decryption leaves behind when authentication fails. The source takes the message key out of the
    buffer, or moves the receive chain, before it opens the ciphertext (`src/crypto/doubleRatchet.ts`, lines
    299-335), so a corrupted copy of a frame uses up the key of the genuine one. The header as such is not
    used up: once the ratchet turns away from a ratchet key and back, its indices start again. */
module Corrupted {
  import opened Terms
  import opened Ratchet
  import opened SkippedKeys
  import opened RatchetSafety
  import opened TwoParty
  import opened Synchrony

  // ---------- One try for a message key ----------

  /** What a frame does to the ratchet depends on its header alone: nothing is undone or held back when
      its ciphertext does not open. */
  lemma HeaderAloneMoves(s: State, header: Header, c: Ciphertext, d: Ciphertext, ad: seq<byte>, bd: seq<byte>,
                         draw: Draw)
    ensures Decrypt(s, Framed(header, c), ad, draw).state == Decrypt(s, Framed(header, d), bd, draw).state
  {
  }

  /** One try: in any run, a frame that would have been read at a call which received its header, with
      whatever ciphertext and associated data, is refused by every later call. */
  lemma OneTryPerKey(s: State, calls: seq<Call>, i: nat, j: nat, genuine: Wire, ad: seq<byte>)
    requires Grounded(s) && i < j < |calls|
    requires calls[i].DecryptCall? && calls[i].wire.Framed?
    requires genuine.Framed? && genuine.header == calls[i].wire.header && genuine.header.dh.Point?
    requires Decrypt(AfterAll(s, calls[..i]), genuine, ad, calls[i].draw).outcome.Ok?
    requires calls[j].DecryptCall? && calls[j].wire == genuine
    ensures Decrypt(AfterAll(s, calls[..j]), genuine, calls[j].ad, calls[j].draw).outcome.Err?
  {
    hide Grounded, Decrypt, AfterAll;
    var before := AfterAll(s, calls[..i]);
    HeaderAloneMoves(before, genuine.header, genuine.ciphertext, calls[i].wire.ciphertext, ad, calls[i].ad,
                     calls[i].draw);
    var read := calls[i := DecryptCall(genuine, ad, calls[i].draw)];
    AfterSplit(s, calls, i);
    AfterSplit(s, read, i);
    assert read[..i] == calls[..i] && read[i + 1..j] == calls[i + 1..j];
    AfterJoin(s, calls[..i + 1], calls[i + 1..j]);
    AfterJoin(s, read[..i + 1], read[i + 1..j]);
    assert calls[..j] == calls[..i + 1] + calls[i + 1..j] && read[..j] == read[..i + 1] + read[i + 1..j];
    AtMostOnce(s, read, i, j);
  }

  lemma EventKeepsGrounded(w: World, event: Event)
    requires Grounded(w.alice) && Grounded(w.bob)
    ensures Grounded(Next(w, event).alice) && Grounded(Next(w, event).bob)
  {
    hide Grounded, Encrypt, Decrypt;
    match event
    case Send(q, plaintext, ad) => CallKeepsGrounded(w.Of(q), EncryptCall(plaintext, ad, Private(w.nextKey)));
    case Deliver(i) =>
      if i < |w.log| {
        var m := w.log[i];
        CallKeepsGrounded(w.Of(Peer(m.from)), DecryptCall(m.wire, m.ad, Private(w.nextKey)));
      }
  }

  lemma {:induction false} EventsKeepGrounded(w: World, events: seq<Event>)
    requires Grounded(w.alice) && Grounded(w.bob)
    ensures Grounded(Run(w, events).alice) && Grounded(Run(w, events).bob)
    decreases |events|
  {
    hide Grounded, Next;
    if events != [] {
      EventKeepsGrounded(w, events[0]);
      EventsKeepGrounded(Next(w, events[0]), events[1..]);
    }
  }

  lemma ReachableIsGrounded(w: World)
    requires Reachable(w)
    ensures Grounded(w.alice) && Grounded(w.bob)
  {
    hide Grounded, Run;
    var start, events :| Begins(start) && Leads(start, events, w);
    BeginsGrounded(start);
    EventsKeepGrounded(start, events);
  }

  lemma BeginsGrounded(w: World)
    requires Begins(w)
    ensures Grounded(w.alice) && Grounded(w.bob)
  {
  }

  /** Between two parties: once a copy of a message, with whatever ciphertext and associated data, has come
      where the message itself would have been read, the message is never read, whatever is called. */
  lemma CopyLosesMessage(w: World, i: nat, copy: Ciphertext, bd: seq<byte>, calls: seq<Call>, ad: seq<byte>,
                         draw: Draw)
    requires Reachable(w) && i < |w.log| && w.log[i].wire.Framed? && Delivering(w, i).outcome.Ok?
    ensures var m := w.log[i];
            var after := Decrypt(w.Of(Peer(m.from)), Framed(m.wire.header, copy), bd, Private(w.nextKey)).state;
            Decrypt(AfterAll(after, calls), m.wire, ad, draw).outcome.Err?
  {
    hide Grounded, Reachable, InStep, EntryOk, Decrypt, AfterAll, Spent;
    var m := w.log[i];
    var s := w.Of(Peer(m.from));
    var p := ReachableInStep(w);
    EntryFacts(w, p, i);
    EntryFramed(p.es, p.epochs[i], m);
    ReachableIsGrounded(w);
    var c := DecryptSpends(s, m.wire, m.ad, Private(w.nextKey));
    HeaderAloneMoves(s, m.wire.header, m.wire.ciphertext, copy, m.ad, bd, Private(w.nextKey));
    assert m.wire == Framed(m.wire.header, m.wire.ciphertext);
    var after := Decrypt(s, m.wire, m.ad, Private(w.nextKey)).state;
    RunKeepsSpent(after, Slot(m.wire.header.dh, m.wire.header.n), c, calls);
    SpentNeverOpens(AfterAll(after, calls), m.wire, ad, draw, c);
  }

  // ---------- The header comes again after two turns ----------

  /** Some run from `s` reads a frame with this header. */
  ghost predicate ReadAfter(s: State, calls: seq<Call>, wire: Wire, header: Header) {
    && wire.Framed? && wire.header == header
    && Decrypt(AfterAll(s, calls), wire, [], Private(0)).outcome.Ok?
  }

  /** A frame that opens nothing. */
  function Junk(dh: PublicKey, pn: u32, n: u32): Call {
    DecryptCall(Framed(Header(dh, pn, n), Noise([])), [], Private(0))
  }

  /** The ratchet stands at this remote key with a receive chain. */
  predicate Listens(s: State, dh: PublicKey) { s.remote == Some(dh) && s.recv.Some? }

  /** A junk frame for the next index takes a key of that slot out of the buffer, or moves the chain. */
  lemma JunkMoves(s: State, dh: PublicKey)
    requires Listens(s, dh) && s.nr < U32_LIMIT
    ensures var t := After(s, Junk(dh, 0, s.nr));
            && Listens(t, dh)
            && (if Slot(dh, s.nr) in s.skipped then t == s.(skipped := s.skipped - {Slot(dh, s.nr)})
                else t.nr == s.nr + 1)
  {
  }

  /** Junk frames move the receive index to any later one. */
  lemma {:induction false} JunkRaises(s: State, dh: PublicKey, n: nat) returns (calls: seq<Call>)
    requires Listens(s, dh) && n < U32_LIMIT
    ensures Listens(AfterAll(s, calls), dh) && AfterAll(s, calls).nr == if s.nr < n then n else s.nr
    decreases n - s.nr, |s.skipped|
  {
    hide After;
    if s.nr < n {
      var t := After(s, Junk(dh, 0, s.nr));
      JunkMoves(s, dh);
      if Slot(dh, s.nr) in s.skipped { SizeWithout(s.skipped, Slot(dh, s.nr)); }
      var rest := JunkRaises(t, dh, n);
      calls := [Junk(dh, 0, s.nr)] + rest;
      assert calls[1..] == rest;
    } else {
      calls := [];
    }
  }

  /** A frame under another accepted key turns the ratchet, once the index has reached its `pn`. */
  lemma JunkTurns(s: State, dh: PublicKey, pn: u32)
    requires s.remote.Some? && s.remote != Some(dh) && dh.Point? && (pn == 0 || pn <= s.nr)
    ensures var header := Header(dh, pn, 0);
            && TurnTo(s, header, Private(0)).outcome.Ok? && Listens(TurnTo(s, header, Private(0)).state, dh)
            && TurnTo(s, header, Private(0)).state.nr == 0
            && Listens(After(s, Junk(dh, pn, 0)), dh) && After(s, Junk(dh, pn, 0)).nr <= 1
  {
  }

  /** At the index of the header, or with its key in the buffer, some frame is read. */
  lemma SomeFrameOpens(s: State, header: Header) returns (wire: Wire)
    requires TurnTo(s, header, Private(0)).outcome.Ok?
    requires Listens(TurnTo(s, header, Private(0)).state, header.dh)
    requires TurnTo(s, header, Private(0)).state.nr == header.n
    ensures wire.Framed? && wire.header == header && Decrypt(s, wire, [], Private(0)).outcome.Ok?
  {
    hide TurnTo;
    var t := TurnTo(s, header, Private(0)).state;
    var mk := TakeMessageKey(t, header.dh, header.n).outcome.value;
    wire := Framed(header, Seal(mk, header.n, [], FullAd([], header)));
  }

  /** An accepted ratchet key besides these two. */
  lemma AnotherKey(a: PublicKey, b: PublicKey) returns (c: PublicKey)
    ensures c.Point? && c != a && c != b
  {
    c := if Point(0, 0) != a && Point(0, 0) != b then Point(0, 0)
         else if Point(1, 0) != a && Point(1, 0) != b then Point(1, 0) else Point(2, 0);
  }

  /** The run: to another ratchet key, up to the header's `pn`, back, and up to the header's index. */
  lemma TurnAwayAndBack(s: State, header: Header) returns (calls: seq<Call>, wire: Wire)
    requires header.dh.Point? && s.remote.Some?
    ensures ReadAfter(s, calls, wire, header)
  {
    hide After, AfterAll, TurnTo, Decrypt;
    var other := AnotherKey(header.dh, s.remote.value);
    JunkTurns(s, other, 0);
    var away := After(s, Junk(other, 0, 0));
    var up := JunkRaises(away, other, header.pn);
    var there := AfterAll(away, up);
    JunkTurns(there, header.dh, header.pn);
    RunTwice(s, Junk(other, 0, 0), up);
    calls := [Junk(other, 0, 0)] + up;
    if header.n == 0 {
      wire := SomeFrameOpens(there, header);
    } else {
      var back := After(there, Junk(header.dh, header.pn, 0));
      var more := JunkRaises(back, header.dh, header.n);
      RunTwice(there, Junk(header.dh, header.pn, 0), more);
      AfterJoin(s, calls, [Junk(header.dh, header.pn, 0)] + more);
      calls := calls + ([Junk(header.dh, header.pn, 0)] + more);
      NoTurn(AfterAll(s, calls), header);
      wire := SomeFrameOpens(AfterAll(s, calls), header);
    }
  }

  lemma RunTwice(s: State, first: Call, rest: seq<Call>)
    ensures AfterAll(s, [first] + rest) == AfterAll(After(s, first), rest)
  {
    hide After;
    assert ([first] + rest)[1..] == rest;
  }

  lemma NoTurn(s: State, header: Header)
    requires s.remote == Some(header.dh)
    ensures TurnTo(s, header, Private(0)) == Step(s, Ok(()))
  {
  }

  /** Without a remote key nothing is read, and no call brings one. */
  lemma NoRemoteStays(s: State, call: Call)
    requires s.remote.None?
    ensures After(s, call).remote.None?
    ensures call.DecryptCall? ==> Decrypt(s, call.wire, call.ad, call.draw).outcome.Err?
  {
  }

  lemma {:induction false} NoRemoteEver(s: State, calls: seq<Call>)
    requires s.remote.None?
    ensures AfterAll(s, calls).remote.None?
    decreases |calls|
  {
    hide After;
    if calls != [] {
      NoRemoteStays(s, calls[0]);
      NoRemoteEver(After(s, calls[0]), calls[1..]);
    }
  }

  /** A header under an accepted ratchet key is never used up, neither by a frame that was read nor by one
      that failed authentication: some later run reads a frame with it, if and only if the ratchet has a
      remote key at all. Its key is then another one. */
  lemma HeaderComesAgainExactly(s: State, header: Header)
    requires header.dh.Point?
    ensures (exists calls, wire :: ReadAfter(s, calls, wire, header)) <==> s.remote.Some?
  {
    hide After, AfterAll, Decrypt;
    if s.remote.Some? {
      var calls, wire := TurnAwayAndBack(s, header);
    } else {
      forall calls, wire ensures !ReadAfter(s, calls, wire, header) {
        NoRemoteEver(s, calls);
        NoRemoteStays(AfterAll(s, calls), DecryptCall(wire, [], Private(0)));
      }
    }
  }

  // ---------- Until then it is refused ----------

  lemma RootDeepens(s: State, call: Call)
    ensures Depth(s.rk) <= Depth(After(s, call).rk)
    ensures Depth(s.rk) == Depth(After(s, call).rk) ==> After(s, call).rk == s.rk
  {
    match call
    case EncryptCall(plaintext, ad, draw) =>
    case DecryptCall(wire, ad, draw) =>
      if wire.Framed? {
        TurnDeepens(s, wire.header, draw);
        hide TurnTo;
        ReceiveKeepsRoot(TurnTo(s, wire.header, draw).state, wire.header, wire.ciphertext, ad);
      }
  }

  lemma ReceiveKeepsRoot(s: State, header: Header, c: Ciphertext, ad: seq<byte>)
    ensures Receive(s, header, c, ad).state.rk == s.rk
  {
    hide BufferKeys;
  }

  /** A turn to an accepted key is a root step. */
  lemma TurnDeepens(s: State, header: Header, draw: Draw)
    ensures var t := TurnTo(s, header, draw).state;
            && Depth(s.rk) <= Depth(t.rk) && (Depth(s.rk) == Depth(t.rk) ==> t.rk == s.rk)
            && (t.rk == s.rk && t.remote != s.remote ==> t.remote == Some(header.dh) && header.dh.Refused?)
  {
    hide BufferKeys;
    if header.dh.Point? {
      var root := NewRoot(s.rk, Dh(s.local, header.dh.key));
      if draw.Private? { assert Depth(NewRoot(root, Dh(draw.key, header.dh.key))) == Depth(s.rk) + 2; }
    }
  }

  lemma {:induction false} RootOnlyDeepens(s: State, calls: seq<Call>)
    ensures Depth(s.rk) <= Depth(AfterAll(s, calls).rk)
    ensures Depth(s.rk) == Depth(AfterAll(s, calls).rk) ==> AfterAll(s, calls).rk == s.rk
    decreases |calls|
  {
    hide After;
    if calls != [] {
      RootDeepens(s, calls[0]);
      RootOnlyDeepens(After(s, calls[0]), calls[1..]);
    }
  }

  /** No key is buffered for the slot, and under its ratchet key the index has passed it. */
  predicate PassedBy(s: State, slot: Slot) {
    slot !in s.skipped && (s.remote == Some(slot.dh) ==> slot.n < s.nr)
  }

  lemma SkipPasses(s: State, slot: Slot, upTo: nat, k: Skip)
    requires PassedBy(s, slot) && s.recv.Some?
    requires k == BufferKeys(s.recv.value, s.remote, s.nr, upTo, s.skipped, s.maxSkip)
    ensures slot !in k.skipped && s.nr <= k.nr
  {
    hide BufferKeys;
    BufferKeysMoves(s.recv.value, s.remote, s.nr, upTo, s.skipped, s.maxSkip);
    BufferKeysFills(s.recv.value, s.remote, s.nr, upTo, s.skipped, s.maxSkip);
  }

  lemma CallPasses(s: State, slot: Slot, call: Call)
    requires PassedBy(s, slot) && slot.dh.Point? && After(s, call).rk == s.rk
    ensures PassedBy(After(s, call), slot)
  {
    if call.DecryptCall? && call.wire.Framed? {
      TurnPasses(s, slot, call.wire.header, call.draw);
      hide TurnTo;
      ReceivePasses(TurnTo(s, call.wire.header, call.draw).state, slot, call.wire.header, call.wire.ciphertext,
                    call.ad);
    }
  }

  lemma TurnPasses(s: State, slot: Slot, header: Header, draw: Draw)
    requires PassedBy(s, slot) && slot.dh.Point?
    ensures var t := TurnTo(s, header, draw).state; t.rk == s.rk ==> PassedBy(t, slot)
  {
    hide BufferKeys, Depth;
    TurnDeepens(s, header, draw);
    if s.remote != Some(header.dh) && s.recv.Some? {
      SkipPasses(s, slot, header.pn,
        BufferKeys(s.recv.value, s.remote, s.nr, header.pn, s.skipped, s.maxSkip));
    }
  }

  lemma ReceivePasses(s: State, slot: Slot, header: Header, c: Ciphertext, ad: seq<byte>)
    ensures var t := Receive(s, header, c, ad).state; t.rk == s.rk && (PassedBy(s, slot) ==> PassedBy(t, slot))
  {
    hide BufferKeys;
    if PassedBy(s, slot) && s.recv.Some? {
      SkipPasses(s, slot, header.n,
        BufferKeys(s.recv.value, s.remote, s.nr, header.n, s.skipped, s.maxSkip));
    }
  }

  lemma {:induction false} RunPasses(s: State, slot: Slot, calls: seq<Call>)
    requires PassedBy(s, slot) && slot.dh.Point? && AfterAll(s, calls).rk == s.rk
    ensures PassedBy(AfterAll(s, calls), slot)
    decreases |calls|
  {
    hide After, PassedBy;
    if calls != [] {
      RootDeepens(s, calls[0]);
      RootOnlyDeepens(After(s, calls[0]), calls[1..]);
      CallPasses(s, slot, calls[0]);
      RunPasses(After(s, calls[0]), slot, calls[1..]);
    }
  }

  /** What a failed authentication has used up stays used up until the next root step: once the index has
      passed the header and its key is not buffered, every frame with that header is refused unchanged, in
      any run that leaves the root key and the remote key as they are. */
  lemma RefusedUntilRootStep(s: State, calls: seq<Call>, header: Header, c: Ciphertext, ad: seq<byte>, draw: Draw)
    requires s.remote == Some(header.dh) && header.dh.Point? && PassedBy(s, Slot(header.dh, header.n))
    requires var t := AfterAll(s, calls); t.rk == s.rk && t.remote == s.remote
    ensures var t := AfterAll(s, calls);
            Decrypt(t, Framed(header, c), ad, draw) == Step(t, Err(if t.recv.None? then NoRecvChain else Replayed))
  {
    hide AfterAll;
    RunPasses(s, Slot(header.dh, header.n), calls);
  }

  /** A frame that fails authentication under a key that was still to come has passed its header. */
  lemma FailurePasses(s: State, header: Header, c: Ciphertext, ad: seq<byte>, draw: Draw)
    requires Decrypt(s, Framed(header, c), ad, draw).outcome == Err(AuthFailed)
    ensures var t := Decrypt(s, Framed(header, c), ad, draw).state;
            && t.remote == Some(header.dh) && Slot(header.dh, header.n) !in t.skipped
            && (Slot(header.dh, header.n) !in TurnTo(s, header, draw).state.skipped ==> t.nr == header.n + 1)
  {
    hide TurnTo, BufferKeys;
    TurnsWithoutOpening(s, header, draw);
    var t := TurnTo(s, header, draw).state;
    KeyWithoutOpening(t, header.dh, header.n);
    if Slot(header.dh, header.n) !in t.skipped && t.recv.Some? && t.nr <= header.n {
      BufferKeysMoves(t.recv.value, t.remote, t.nr, header.n, t.skipped, t.maxSkip);
      BufferKeysFills(t.recv.value, t.remote, t.nr, header.n, t.skipped, t.maxSkip);
    }
  }

  lemma {:induction false} LoopError(chain: Term, remote: Option<PublicKey>, nr: nat, upTo: nat,
                                     skipped: map<Slot, Term>, maxSkip: nat)
    ensures BufferKeys(chain, remote, nr, upTo, skipped, maxSkip).error != Some(AuthFailed)
    decreases upTo - nr
  {
    if nr < upTo && |skipped| < maxSkip && remote.Some? {
      LoopError(NextChain(chain), remote, nr + 1, upTo, skipped[Slot(remote.value, nr) := MessageKey(chain)], maxSkip);
    }
  }

  lemma TurnsWithoutOpening(s: State, header: Header, draw: Draw)
    ensures TurnTo(s, header, draw).outcome != Err(AuthFailed)
  {
    hide BufferKeys;
    if s.recv.Some? { LoopError(s.recv.value, s.remote, s.nr, header.pn, s.skipped, s.maxSkip); }
  }

  lemma KeyWithoutOpening(s: State, dh: PublicKey, n: u32)
    ensures TakeMessageKey(s, dh, n).outcome != Err(AuthFailed)
  {
    hide BufferKeys;
    if s.recv.Some? { LoopError(s.recv.value, s.remote, s.nr, n, s.skipped, s.maxSkip); }
  }
}
