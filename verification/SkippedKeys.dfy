/** What the skip loops of `doubleRatchet.ts` (lines 317-325 and 385-393) leave in the buffer. */
module SkippedKeys {
  import opened Terms
  import opened Ratchet

  /** `after` is `before` with the message keys of indices `from..to` of a chain, the first of them
      derived from `chain`, under the remote key `remote`. */
  ghost predicate Filled(before: map<Slot, Term>, after: map<Slot, Term>, remote: Option<PublicKey>,
                         chain: Term, from: nat, to: nat)
  {
    && (forall k <- before :: k in after)
    && (forall k <- after :: InRange(k, remote, from, to) || k in before)
    && (forall k <- after :: !InRange(k, remote, from, to) ==> after[k] == before[k])
    && (forall k <- after :: InRange(k, remote, from, to) ==>
                               after[k] == MessageKey(Advance(chain, k.n - from)))
    && (forall n | from <= n < to :: remote.Some? ==> Slot(remote.value, n) in after)
  }

  predicate InRange(k: Slot, remote: Option<PublicKey>, from: nat, to: nat) {
    remote == Some(k.dh) && from <= k.n < to
  }

  /** The loop moves the index and its local chain together, and stops short only by throwing. */
  lemma {:induction false} BufferKeysMoves(chain: Term, remote: Option<PublicKey>, nr: nat, upTo: nat,
                                           skipped: map<Slot, Term>, maxSkip: nat)
    ensures var k := BufferKeys(chain, remote, nr, upTo, skipped, maxSkip);
            && nr <= k.nr
            && k.chain == Advance(chain, k.nr - nr)
            && (k.error.None? ==> k.nr == if nr <= upTo then upTo else nr)
            && (k.error.Some? ==> k.nr < upTo)
            && (|skipped| <= maxSkip ==> |k.skipped| <= maxSkip)
    decreases upTo - nr
  {
    if nr < upTo && |skipped| < maxSkip && remote.Some? {
      var added := skipped[Slot(remote.value, nr) := MessageKey(chain)];
      BufferKeysMoves(NextChain(chain), remote, nr + 1, upTo, added, maxSkip);
      AdvanceFront(chain, BufferKeys(chain, remote, nr, upTo, skipped, maxSkip).nr - nr - 1);
    }
  }

  /** Whether or not it throws, the loop adds exactly the keys it has passed. */
  lemma {:induction false} BufferKeysFills(chain: Term, remote: Option<PublicKey>, nr: nat, upTo: nat,
                                           skipped: map<Slot, Term>, maxSkip: nat)
    ensures var k := BufferKeys(chain, remote, nr, upTo, skipped, maxSkip);
            Filled(skipped, k.skipped, remote, chain, nr, k.nr)
    decreases upTo - nr
  {
    if nr < upTo && |skipped| < maxSkip && remote.Some? {
      var added := skipped[Slot(remote.value, nr) := MessageKey(chain)];
      BufferKeysFills(NextChain(chain), remote, nr + 1, upTo, added, maxSkip);
      BufferKeysMoves(NextChain(chain), remote, nr + 1, upTo, added, maxSkip);
      var k := BufferKeys(chain, remote, nr, upTo, skipped, maxSkip);
      FillOne(skipped, added, k.skipped, remote, chain, nr, k.nr);
    }
  }

  lemma FillOne(before: map<Slot, Term>, added: map<Slot, Term>, after: map<Slot, Term>,
                remote: Option<PublicKey>, chain: Term, from: nat, to: nat)
    requires remote.Some? && from < to
    requires added == before[Slot(remote.value, from) := MessageKey(chain)]
    requires Filled(added, after, remote, NextChain(chain), from + 1, to)
    ensures Filled(before, after, remote, chain, from, to)
  {
    assert Slot(remote.value, from) in added;
    forall k <- after | InRange(k, remote, from, to)
      ensures after[k] == MessageKey(Advance(chain, k.n - from))
    {
      if k.n > from { AdvanceFront(chain, k.n - from - 1); }
    }
  }

  /** With no slot of the range taken, the loop succeeds exactly when the buffer has room. */
  lemma {:induction false} BufferKeysFits(chain: Term, remote: PublicKey, nr: nat, upTo: nat,
                                          skipped: map<Slot, Term>, maxSkip: nat)
    requires nr <= upTo
    requires forall k <- skipped :: !InRange(k, Some(remote), nr, upTo)
    ensures var k := BufferKeys(chain, Some(remote), nr, upTo, skipped, maxSkip);
            && (k.error.None? <==> nr == upTo || |skipped| + (upTo - nr) <= maxSkip)
            && (k.error.Some? ==> k.error == Some(SkipBufferExhausted) && |k.skipped| >= maxSkip)
            && (k.error.Some? && |skipped| >= maxSkip ==> k == Skip(chain, nr, skipped, k.error))
            && |k.skipped| == |skipped| + (k.nr - nr)
    decreases upTo - nr
  {
    if nr < upTo && |skipped| < maxSkip {
      var added := skipped[Slot(remote, nr) := MessageKey(chain)];
      assert Slot(remote, nr) !in skipped;
      BufferKeysFits(NextChain(chain), remote, nr + 1, upTo, added, maxSkip);
    }
  }

  /** How many keys of the old chain a turn to the header's remote key passes. */
  function Rest(s: State, header: Header): nat {
    if s.recv.Some? && s.nr < header.pn then header.pn - s.nr else 0
  }

  /** How many keys the receiver has to buffer to reach the message. */
  function Needed(s: State, header: Header): nat {
    if s.remote == Some(header.dh) then
      if Slot(header.dh, header.n) in s.skipped || header.n < s.nr then 0 else header.n - s.nr
    else
      Rest(s, header) + header.n
  }

  predicate HasRoom(s: State, header: Header) {
    |s.skipped| + Needed(s, header) <= s.maxSkip
  }

  /** A gap that the bound check lets through although the buffer cannot take all of it: the loop throws
      after it has moved the receive index, and the receive chain stays behind. */
  predicate OverflowsPartly(held: nat, gap: nat, maxSkip: nat) {
    held < maxSkip && gap <= maxSkip < held + gap
  }

  /** The message is refused in the middle of a skip loop. */
  predicate Tears(s: State, header: Header) {
    if s.remote == Some(header.dh) then
      OverflowsPartly(|s.skipped|, Needed(s, header), s.maxSkip)
    else
      || OverflowsPartly(|s.skipped|, Rest(s, header), s.maxSkip)
      || (|s.skipped| + Rest(s, header) <= s.maxSkip
          && OverflowsPartly(|s.skipped| + Rest(s, header), header.n, s.maxSkip))
  }

  /** The turn to another remote key finds room for the rest of the old chain, up to the header's `pn`. */
  predicate CanTurn(s: State, header: Header) {
    header.pn <= s.nr || |s.skipped| + (header.pn - s.nr) <= s.maxSkip
  }

  /** The turn is refused before the loop has buffered a key. */
  predicate TurnRefused(s: State, header: Header) {
    !CanTurn(s, header) && !OverflowsPartly(|s.skipped|, Rest(s, header), s.maxSkip)
  }

  lemma RoomIsNoTear(s: State, header: Header)
    ensures HasRoom(s, header) ==> !Tears(s, header)
  {
  }

  /** The main path of taking a message key, in one line. */
  lemma TakeAheadUnfolds(s: State, dh: PublicKey, n: u32)
    requires Slot(dh, n) !in s.skipped && s.recv.Some? && s.nr <= n
    ensures var k := BufferKeys(s.recv.value, s.remote, s.nr, n, s.skipped, s.maxSkip);
            TakeMessageKey(s, dh, n) ==
              if n > s.nr + s.maxSkip then Step(s, Err(TooFarAhead))
              else if k.error.Some? then Step(s.(nr := k.nr, skipped := k.skipped), Err(k.error.value))
              else Step(s.(recv := Some(NextChain(k.chain)), nr := k.nr + 1, skipped := k.skipped),
                        Ok(MessageKey(k.chain)))
  {
  }

  lemma SizeWithout(m: map<Slot, Term>, k: Slot)
    requires k in m
    ensures |m - {k}| == |m| - 1
  {
    assert (m - {k}).Keys == m.Keys - {k};
  }
}
