/** Reordering is harmless: messages of one epoch may be decrypted in any order, as long as the
    buffer can hold the overtaken ones (`decryptMessage`, lines 299-328). */
module RatchetOrder {
  import opened Terms
  import opened Ratchet
  import opened SkippedKeys

  /** One message of a batch; its index in the epoch is its position plus the receive index. */
  datatype Mail = Mail(pn: u32, plaintext: seq<byte>, ad: seq<byte>)

  /** A receiver of a chain and a contiguous batch of messages, from the next index on, that fits in
      the buffer in whatever order it arrives. */
  ghost predicate Expects(s: State, batch: seq<Mail>): (expects: bool)
    ensures expects ==> s.remote.Some? && s.recv.Some? && s.nr + |batch| <= U32_LIMIT
  {
    && s.remote.Some? && s.recv.Some?
    && s.nr + |batch| <= U32_LIMIT
    && |s.skipped| + |batch| <= s.maxSkip + 1
    && (forall n | s.nr <= n < s.nr + |batch| :: Slot(s.remote.value, n) !in s.skipped)
  }

  function Frame(s: State, batch: seq<Mail>, j: nat): Wire
    requires s.remote.Some? && s.recv.Some? && j < |batch| && s.nr + |batch| <= U32_LIMIT
  {
    var header := Header(s.remote.value, batch[j].pn, s.nr + j);
    Framed(header, Seal(MessageKey(Advance(s.recv.value, j)), s.nr + j, batch[j].plaintext,
                        FullAd(batch[j].ad, header)))
  }

  predicate Within(order: seq<nat>, n: nat) { forall i | 0 <= i < |order| :: order[i] < n }

  datatype Reading = Reading(state: State, outcomes: seq<Outcome<seq<byte>>>)

  /** Decrypts the messages of the batch, made for state `s`, in the given order, from state `t`. */
  function ReadInOrder(s: State, t: State, batch: seq<Mail>, order: seq<nat>, draw: Draw): Reading
    requires s.remote.Some? && s.recv.Some? && s.nr + |batch| <= U32_LIMIT
    requires Within(order, |batch|)
    decreases |order|
  {
    if order == [] then Reading(t, [])
    else
      var step := Decrypt(t, Frame(s, batch, order[0]), batch[order[0]].ad, draw);
      var rest := ReadInOrder(s, step.state, batch, order[1..], draw);
      Reading(rest.state, [step.outcome] + rest.outcomes)
  }

  ghost predicate Distinct(order: seq<nat>) {
    forall i, j | 0 <= i < j < |order| :: order[i] != order[j]
  }

  // ---------- The state after a set of messages ----------

  ghost predicate IsTop(read: set<nat>, top: nat) {
    (forall j <- read :: j < top) && (top == 0 || top - 1 in read)
  }

  /** The slot of a message that others have overtaken: below the highest read, and not read. */
  predicate Overtaken(remote: PublicKey, nr: nat, read: set<nat>, top: nat, k: Slot) {
    k.dh == remote && nr <= k.n < nr + top && k.n - nr !in read
  }

  /** `after` is `before` with the keys of the overtaken messages. */
  ghost predicate Grew(before: map<Slot, Term>, after: map<Slot, Term>, remote: PublicKey, nr: nat,
                       chain: Term, read: set<nat>, top: nat)
  {
    && (forall k <- before :: k in after && after[k] == before[k])
    && (forall k <- after :: k in before || Overtaken(remote, nr, read, top, k))
    && (forall k {:trigger Overtaken(remote, nr, read, top, k)} | Overtaken(remote, nr, read, top, k) ::
          k in after && after[k] == MessageKey(Advance(chain, k.n - nr)))
  }

  /** The state after reading the messages `read`: the chain is past the highest of them, and the
      buffer has gained the keys of the overtaken. */
  ghost predicate AfterReading(s: State, t: State, read: set<nat>, top: nat)
    requires s.remote.Some? && s.recv.Some?
  {
    && IsTop(read, top)
    && t == s.(recv := t.recv, nr := s.nr + top, skipped := t.skipped)
    && t.recv == Some(Advance(s.recv.value, top))
    && |t.skipped| + |read| == |s.skipped| + top
    && Grew(s.skipped, t.skipped, s.remote.value, s.nr, s.recv.value, read, top)
  }

  /** The set of messages read determines the state. */
  lemma ReadingIsDetermined(s: State, t: State, u: State, read: set<nat>, a: nat, b: nat)
    requires s.remote.Some? && s.recv.Some?
    requires AfterReading(s, t, read, a) && AfterReading(s, u, read, b)
    ensures a == b && t == u
  {
    assert a == b;
    GrowthIsDetermined(s.skipped, t.skipped, u.skipped, s.remote.value, s.nr, s.recv.value, read, a);
  }

  lemma GrowthIsDetermined(before: map<Slot, Term>, t: map<Slot, Term>, u: map<Slot, Term>,
                           remote: PublicKey, nr: nat, chain: Term, read: set<nat>, top: nat)
    requires Grew(before, t, remote, nr, chain, read, top)
    requires Grew(before, u, remote, nr, chain, read, top)
    ensures t == u
  {
    forall k ensures k in t <==> k in u {}
    forall k <- t ensures t[k] == u[k] {}
  }

  // ---------- One more message ----------

  lemma ShrinkOne(before: map<Slot, Term>, after: map<Slot, Term>, remote: PublicKey, nr: nat,
                  chain: Term, read: set<nat>, top: nat, j: nat)
    requires Grew(before, after, remote, nr, chain, read, top)
    requires j < top && j !in read && Slot(remote, nr + j) !in before
    ensures Slot(remote, nr + j) in after && after[Slot(remote, nr + j)] == MessageKey(Advance(chain, j))
    ensures Grew(before, after - {Slot(remote, nr + j)}, remote, nr, chain, read + {j}, top)
  {
    var slot := Slot(remote, nr + j);
    assert Overtaken(remote, nr, read, top, slot);
    forall k | Overtaken(remote, nr, read + {j}, top, k)
      ensures k in after - {slot} && after[k] == MessageKey(Advance(chain, k.n - nr))
    {
      assert Overtaken(remote, nr, read, top, k);
    }
    forall k <- after - {slot} ensures k in before || Overtaken(remote, nr, read + {j}, top, k) {}
  }

  lemma GrowMore(before: map<Slot, Term>, t: map<Slot, Term>, after: map<Slot, Term>, remote: PublicKey,
                 nr: nat, chain: Term, read: set<nat>, top: nat, j: nat)
    requires Grew(before, t, remote, nr, chain, read, top) && top <= j
    requires forall i <- read :: i < top
    requires forall k <- before :: !InRange(k, Some(remote), nr + top, nr + j)
    requires Filled(t, after, Some(remote), Advance(chain, top), nr + top, nr + j)
    ensures Grew(before, after, remote, nr, chain, read + {j}, j + 1)
  {
    forall k | Overtaken(remote, nr, read + {j}, j + 1, k)
      ensures k in after && after[k] == MessageKey(Advance(chain, k.n - nr))
    {
      GrewAt(before, t, after, remote, nr, chain, read, top, j, k);
    }
    forall k <- after ensures k in before || Overtaken(remote, nr, read + {j}, j + 1, k) {
      if k.dh == remote && nr + top <= k.n < nr + j {
        assert k.n - nr !in read + {j};
      } else {
        assert k in t;
        assert k in before || Overtaken(remote, nr, read, top, k);
      }
    }
    forall k <- before ensures k in after && after[k] == before[k] {
      assert k in t && t[k] == before[k] && k in after;
    }
  }

  lemma GrewAt(before: map<Slot, Term>, t: map<Slot, Term>, after: map<Slot, Term>, remote: PublicKey,
               nr: nat, chain: Term, read: set<nat>, top: nat, j: nat, k: Slot)
    requires Grew(before, t, remote, nr, chain, read, top) && top <= j
    requires Filled(t, after, Some(remote), Advance(chain, top), nr + top, nr + j)
    requires Overtaken(remote, nr, read + {j}, j + 1, k)
    ensures k in after && after[k] == MessageKey(Advance(chain, k.n - nr))
  {
    if k.n < nr + top {
      assert Overtaken(remote, nr, read, top, k);
      assert !InRange(k, Some(remote), nr + top, nr + j);
    } else {
      assert InRange(k, Some(remote), nr + top, nr + j) && k == Slot(remote, k.n);
      AdvanceTwice(chain, top, k.n - nr - top);
    }
  }

  /** The skip loop on the way to message `j`, on the parts of the state that it uses. */
  lemma GapFits(before: map<Slot, Term>, held: map<Slot, Term>, remote: PublicKey, nr: nat, chain: Term,
                read: set<nat>, top: nat, j: nat, maxSkip: nat, k: Skip)
    requires Grew(before, held, remote, nr, chain, read, top) && top <= j
    requires forall x <- before :: !InRange(x, Some(remote), nr, nr + j)
    requires |held| + (j - top) <= maxSkip
    requires k == BufferKeys(Advance(chain, top), Some(remote), nr + top, nr + j, held, maxSkip)
    ensures k.error.None? && k.nr == nr + j && k.chain == Advance(chain, j)
    ensures |k.skipped| == |held| + (j - top)
  {
    hide Grew, BufferKeys, InRange;
    var from := Advance(chain, top);
    NotYetHeld(before, held, remote, nr, chain, read, top, j);
    BufferKeysFits(from, remote, nr + top, nr + j, held, maxSkip);
    BufferKeysMoves(from, Some(remote), nr + top, nr + j, held, maxSkip);
    AdvanceTwice(chain, top, j - top);
  }

  lemma GapGrows(before: map<Slot, Term>, held: map<Slot, Term>, remote: PublicKey, nr: nat, chain: Term,
                 read: set<nat>, top: nat, j: nat, maxSkip: nat, k: Skip)
    requires Grew(before, held, remote, nr, chain, read, top) && IsTop(read, top) && top <= j
    requires forall x <- before :: !InRange(x, Some(remote), nr, nr + j)
    requires k == BufferKeys(Advance(chain, top), Some(remote), nr + top, nr + j, held, maxSkip)
    requires k.nr == nr + j
    ensures Grew(before, k.skipped, remote, nr, chain, read + {j}, j + 1)
  {
    hide Grew, Filled, BufferKeys;
    BufferKeysFills(Advance(chain, top), Some(remote), nr + top, nr + j, held, maxSkip);
    GrowMore(before, held, k.skipped, remote, nr, chain, read, top, j);
  }

  /** A message that was overtaken is read from the buffer. */
  lemma TakesOvertaken(s: State, t: State, read: set<nat>, top: nat, j: nat)
    requires s.remote.Some? && s.recv.Some? && AfterReading(s, t, read, top)
    requires j !in read && j < top && s.nr + j < U32_LIMIT && Slot(s.remote.value, s.nr + j) !in s.skipped
    ensures var step := TakeMessageKey(t, s.remote.value, s.nr + j);
            && step.outcome == Ok(MessageKey(Advance(s.recv.value, j)))
            && AfterReading(s, step.state, read + {j}, top)
  {
    hide AfterReading, TakeMessageKey;
    StepsBack(s, t, read, top, j);
    TakeHeldUnfolds(t, Slot(s.remote.value, s.nr + j));
  }

  lemma TopStays(read: set<nat>, top: nat, j: nat)
    requires IsTop(read, top) && j < top
    ensures IsTop(read + {j}, top)
  {
  }

  lemma TakeHeldUnfolds(t: State, slot: Slot)
    requires slot in t.skipped && slot.n < U32_LIMIT
    ensures TakeMessageKey(t, slot.dh, slot.n)
         == Step(t.(skipped := t.skipped - {slot}), Ok(t.skipped[slot]))
  {
  }

  lemma StepsBack(s: State, t: State, read: set<nat>, top: nat, j: nat)
    requires s.remote.Some? && s.recv.Some? && AfterReading(s, t, read, top)
    requires j !in read && j < top && Slot(s.remote.value, s.nr + j) !in s.skipped
    ensures var slot := Slot(s.remote.value, s.nr + j);
            && slot in t.skipped && t.skipped[slot] == MessageKey(Advance(s.recv.value, j))
            && AfterReading(s, t.(skipped := t.skipped - {slot}), read + {j}, top)
  {
    hide *;
    var slot := Slot(s.remote.value, s.nr + j);
    GrownSoFar(s, t, read, top);
    TopStays(read, top, j);
    ShrinkOne(s.skipped, t.skipped, s.remote.value, s.nr, s.recv.value, read, top, j);
    SizeWithout(t.skipped, slot);
    assert |read + {j}| == |read| + 1;
    HeldChanges(s, t, read, top, t.skipped - {slot}, read + {j});
  }

  lemma GrownSoFar(s: State, t: State, read: set<nat>, top: nat)
    requires s.remote.Some? && s.recv.Some? && AfterReading(s, t, read, top)
    ensures IsTop(read, top) && t.remote == s.remote
    ensures Grew(s.skipped, t.skipped, s.remote.value, s.nr, s.recv.value, read, top)
  {
    hide Grew, IsTop, Advance;
  }

  lemma StandsBehind(s: State, t: State, read: set<nat>, top: nat)
    requires s.remote.Some? && s.recv.Some? && AfterReading(s, t, read, top)
    ensures t.remote == s.remote && t.recv == Some(Advance(s.recv.value, top)) && t.nr == s.nr + top
    ensures t.maxSkip == s.maxSkip && |t.skipped| <= |s.skipped| + top
    ensures Grew(s.skipped, t.skipped, s.remote.value, s.nr, s.recv.value, read, top)
  {
    hide Grew, IsTop, Advance;
  }

  lemma HeldChanges(s: State, t: State, read: set<nat>, top: nat, held: map<Slot, Term>, more: set<nat>)
    requires s.remote.Some? && s.recv.Some? && AfterReading(s, t, read, top)
    requires IsTop(more, top) && |held| + |more| == |t.skipped| + |read|
    requires Grew(s.skipped, held, s.remote.value, s.nr, s.recv.value, more, top)
    ensures AfterReading(s, t.(skipped := held), more, top)
  {
    hide Grew, IsTop, Advance;
  }

  /** A message ahead of the chain is read after buffering the keys in between. */
  lemma TakesAhead(s: State, t: State, read: set<nat>, top: nat, j: nat)
    requires s.remote.Some? && s.recv.Some? && AfterReading(s, t, read, top)
    requires top <= j && s.nr + j < U32_LIMIT && |s.skipped| + j <= s.maxSkip
    requires Slot(s.remote.value, s.nr + j) !in s.skipped && GapIsFree(s, j)
    ensures var step := TakeMessageKey(t, s.remote.value, s.nr + j);
            && step.outcome == Ok(MessageKey(Advance(s.recv.value, j)))
            && AfterReading(s, step.state, read + {j}, j + 1)
  {
    hide Grew, BufferKeys, TakeMessageKey, GapIsFree, IsTop;
    var n := s.nr + j;
    var k := BufferKeys(t.recv.value, t.remote, t.nr, n, t.skipped, t.maxSkip);
    LoopFits(s, t, read, top, j, k);
    LoopGrows(s, t, read, top, j, k);
    TakeAheadUnfolds(t, s.remote.value, n);
    StepsAhead(s, t, read, top, j, k);
  }

  ghost predicate GapIsFree(s: State, j: nat) {
    forall x <- s.skipped :: !InRange(x, s.remote, s.nr, s.nr + j)
  }

  lemma LoopFits(s: State, t: State, read: set<nat>, top: nat, j: nat, k: Skip)
    requires s.remote.Some? && s.recv.Some? && AfterReading(s, t, read, top)
    requires top <= j && |s.skipped| + j <= s.maxSkip
    requires Slot(s.remote.value, s.nr + j) !in s.skipped && GapIsFree(s, j)
    requires t.recv.Some? && k == BufferKeys(t.recv.value, t.remote, t.nr, s.nr + j, t.skipped, t.maxSkip)
    ensures t.nr <= s.nr + j <= t.nr + t.maxSkip && Slot(s.remote.value, s.nr + j) !in t.skipped
    ensures k.error.None? && k.nr == s.nr + j && k.chain == Advance(s.recv.value, j)
    ensures |k.skipped| == |t.skipped| + (j - top)
  {
    hide AfterReading, Grew, BufferKeys, InRange, Advance;
    StandsBehind(s, t, read, top);
    NotYetHeld(s.skipped, t.skipped, s.remote.value, s.nr, s.recv.value, read, top, j);
    GapFits(s.skipped, t.skipped, s.remote.value, s.nr, s.recv.value, read, top, j, t.maxSkip, k);
  }

  lemma LoopGrows(s: State, t: State, read: set<nat>, top: nat, j: nat, k: Skip)
    requires s.remote.Some? && s.recv.Some? && AfterReading(s, t, read, top)
    requires top <= j && GapIsFree(s, j)
    requires t.recv.Some? && k == BufferKeys(t.recv.value, t.remote, t.nr, s.nr + j, t.skipped, t.maxSkip)
    requires k.nr == s.nr + j
    ensures Grew(s.skipped, k.skipped, s.remote.value, s.nr, s.recv.value, read + {j}, j + 1)
  {
    hide Grew, BufferKeys, InRange, IsTop;
    GapGrows(s.skipped, t.skipped, s.remote.value, s.nr, s.recv.value, read, top, j, t.maxSkip, k);
  }

  lemma StepsAhead(s: State, t: State, read: set<nat>, top: nat, j: nat, k: Skip)
    requires s.remote.Some? && s.recv.Some? && AfterReading(s, t, read, top) && top <= j
    requires k.chain == Advance(s.recv.value, j) && k.nr == s.nr + j
    requires |k.skipped| == |t.skipped| + (j - top)
    requires Grew(s.skipped, k.skipped, s.remote.value, s.nr, s.recv.value, read + {j}, j + 1)
    ensures AfterReading(s, t.(recv := Some(NextChain(k.chain)), nr := k.nr + 1, skipped := k.skipped),
                         read + {j}, j + 1)
  {
    hide Grew, IsTop;
    GrownSoFar(s, t, read, top);
    TopMoves(read, top, j);
  }

  lemma TopMoves(read: set<nat>, top: nat, j: nat)
    requires IsTop(read, top) && top <= j
    ensures IsTop(read + {j}, j + 1) && |read + {j}| == |read| + 1
  {
    assert j !in read;
  }

  lemma NotYetHeld(before: map<Slot, Term>, held: map<Slot, Term>, remote: PublicKey, nr: nat, chain: Term,
                   read: set<nat>, top: nat, j: nat)
    requires Grew(before, held, remote, nr, chain, read, top) && top <= j
    requires forall x <- before :: !InRange(x, Some(remote), nr, nr + j)
    ensures Slot(remote, nr + j) !in before ==> Slot(remote, nr + j) !in held
    ensures forall x <- held :: !InRange(x, Some(remote), nr + top, nr + j)
  {
  }

  function NewTop(top: nat, j: nat): nat { if j < top then top else j + 1 }

  lemma ReadsOne(s: State, t: State, batch: seq<Mail>, read: set<nat>, top: nat, j: nat, draw: Draw)
    requires Expects(s, batch) && AfterReading(s, t, read, top) && j < |batch| && j !in read
    ensures var step := Decrypt(t, Frame(s, batch, j), batch[j].ad, draw);
            step.outcome == Ok(batch[j].plaintext) && AfterReading(s, step.state, read + {j}, NewTop(top, j))
  {
    hide AfterReading, Grew, IsTop, BufferKeys, TakeMessageKey, GapIsFree, Receive, Expects;
    GrownSoFar(s, t, read, top);
    SlotsAreFree(s, batch, j);
    if j < top { TakesOvertaken(s, t, read, top, j); } else { TakesAhead(s, t, read, top, j); }
    ReceiveUnfolds(t, Frame(s, batch, j), batch[j].ad, batch[j].plaintext, MessageKey(Advance(s.recv.value, j)));
  }

  lemma ReceiveUnfolds(t: State, frame: Wire, ad: seq<byte>, plaintext: seq<byte>, key: Term)
    requires frame.Framed? && TakeMessageKey(t, frame.header.dh, frame.header.n).outcome == Ok(key)
    requires frame.ciphertext == Seal(key, frame.header.n, plaintext, FullAd(ad, frame.header))
    ensures Receive(t, frame.header, frame.ciphertext, ad)
         == Step(TakeMessageKey(t, frame.header.dh, frame.header.n).state, Ok(plaintext))
  {
    hide TakeMessageKey;
  }

  lemma SlotsAreFree(s: State, batch: seq<Mail>, j: nat)
    requires Expects(s, batch) && j < |batch|
    ensures Slot(s.remote.value, s.nr + j) !in s.skipped && GapIsFree(s, j)
    ensures |s.skipped| + j <= s.maxSkip
  {
    assert forall k <- s.skipped :: k == Slot(k.dh, k.n);
  }

  // ---------- Whole orders ----------

  function Elements(order: seq<nat>): set<nat> { set j <- order }

  lemma {:induction false} ReadsAll(s: State, t: State, batch: seq<Mail>, read: set<nat>, top: nat,
                                    order: seq<nat>, draw: Draw)
    returns (top': nat)
    requires Expects(s, batch) && AfterReading(s, t, read, top) && Distinct(order)
    requires Within(order, |batch|) && forall i | 0 <= i < |order| :: order[i] !in read
    ensures AfterReading(s, ReadInOrder(s, t, batch, order, draw).state, read + Elements(order), top')
    ensures var outcomes := ReadInOrder(s, t, batch, order, draw).outcomes;
            |outcomes| == |order|
            && forall i | 0 <= i < |order| :: outcomes[i] == Ok(batch[order[i]].plaintext)
    decreases |order|
  {
    hide AfterReading, Expects, Decrypt, Frame, Distinct, Within, Elements;
    if order == [] {
      NoElements(read);
      top' := top;
    } else {
      var j := order[0];
      FirstOf(order, |batch|, read);
      ReadsOne(s, t, batch, read, top, j, draw);
      var t' := Decrypt(t, Frame(s, batch, j), batch[j].ad, draw).state;
      top' := ReadsAll(s, t', batch, read + {j}, NewTop(top, j), order[1..], draw);
    }
  }

  lemma NoElements(read: set<nat>)
    ensures read + Elements([]) == read
  {
  }

  lemma FirstOf(order: seq<nat>, n: nat, read: set<nat>)
    requires Distinct(order) && Within(order, n) && order != []
    ensures Distinct(order[1..]) && Within(order[1..], n) && order[0] < n
    ensures forall i | 0 <= i < |order[1..]| :: order[1..][i] != order[0]
    ensures read + {order[0]} + Elements(order[1..]) == read + Elements(order)
  {
    assert order == [order[0]] + order[1..];
  }

  /** Order independence: two orders of the same messages leave the ratchet in the same state, and
      either way every message gives the plaintext that was sealed. */
  lemma OrderIndependent(s: State, batch: seq<Mail>, a: seq<nat>, b: seq<nat>, draw: Draw)
    requires Expects(s, batch) && Distinct(a) && Distinct(b) && Elements(a) == Elements(b)
    requires Within(a, |batch|) && Within(b, |batch|)
    ensures ReadInOrder(s, s, batch, a, draw).state == ReadInOrder(s, s, batch, b, draw).state
    ensures var outcomes := ReadInOrder(s, s, batch, a, draw).outcomes;
            |outcomes| == |a|
            && forall i | 0 <= i < |a| :: outcomes[i] == Ok(batch[a[i]].plaintext)
  {
    var p := ReadsAll(s, s, batch, {}, 0, a, draw);
    var q := ReadsAll(s, s, batch, {}, 0, b, draw);
    assert {} + Elements(a) == {} + Elements(b);
    ReadingIsDetermined(s, ReadInOrder(s, s, batch, a, draw).state, ReadInOrder(s, s, batch, b, draw).state,
                        {} + Elements(a), p, q);
  }

  /** After any permutation of the whole batch the chain is past it and the buffer is as before. */
  lemma AnyPermutation(s: State, batch: seq<Mail>, order: seq<nat>, draw: Draw)
    requires Expects(s, batch) && Distinct(order) && Within(order, |batch|)
    requires forall j: nat | j < |batch| :: j in order
    ensures ReadInOrder(s, s, batch, order, draw).state
         == s.(recv := Some(Advance(s.recv.value, |batch|)), nr := s.nr + |batch|)
    ensures var outcomes := ReadInOrder(s, s, batch, order, draw).outcomes;
            |outcomes| == |order|
            && forall i | 0 <= i < |order| :: outcomes[i] == Ok(batch[order[i]].plaintext)
  {
    var top := ReadsAll(s, s, batch, {}, 0, order, draw);
    hide ReadInOrder, Expects, AfterReading, Distinct;
    ReadWhole(s, ReadInOrder(s, s, batch, order, draw).state, {} + Elements(order), top, |batch|);
  }

  lemma ReadWhole(s: State, t: State, read: set<nat>, top: nat, n: nat)
    requires s.remote.Some? && s.recv.Some? && AfterReading(s, t, read, top)
    requires forall j: nat :: j in read <==> j < n
    ensures t == s.(recv := Some(Advance(s.recv.value, n)), nr := s.nr + n)
  {
    assert top == n by {
      if n > 0 { assert n - 1 in read; }
    }
    assert forall k :: !Overtaken(s.remote.value, s.nr, read, top, k);
    GrowthIsDetermined(s.skipped, t.skipped, s.skipped, s.remote.value, s.nr, s.recv.value, read, top);
  }
}
