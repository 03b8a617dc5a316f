/** What two synchronised ratchets have in common.

    The conversation is a sequence of epochs. Each has the ratchet key of its sender, a root key, a
    chain and a count of messages sent. Epoch 0 stands for the responder's signed prekey, in which
    nothing is sent; from there on the root of an epoch is one root step from its predecessor's. The
    initiator owns the odd epochs and the responder the even ones. */
module Epochs {
  import opened Terms
  import opened Ratchet
  import opened SkippedKeys

  datatype Epoch = Epoch(key: PrivateKey, root: Term, chain: Term, sent: nat)

  /** A message by the epoch and the index it was sent at. */
  datatype Index = Index(epoch: nat, n: nat)

  /** The epoch that the holder of `key` opens after `last`. */
  function Successor(last: Epoch, key: PrivateKey): Epoch {
    var dh := Dh(key, last.key);
    Epoch(key, NewRoot(last.root, dh), FirstChain(last.root, dh), 0)
  }

  ghost predicate Linked(es: seq<Epoch>, e: nat)
    requires 0 < e < |es|
  {
    es[e] == Successor(es[e - 1], es[e].key).(sent := es[e].sent)
  }

  ghost predicate EpochsOk(es: seq<Epoch>) {
    && |es| >= 2
    && es[0].sent == 0
    && (forall e | 0 < e < |es| :: Linked(es, e))
    && (forall e | 0 <= e < |es| :: es[e].sent < U32_LIMIT)
    && (forall d, e | 0 <= d < e < |es| :: es[d].key != es[e].key)
  }

  // ---------- One party at its own epoch ----------

  /** The epoch a party receives in: the peer's, one before its own. The responder starts in epoch 0
      and receives in epoch 1. */
  function ReceiveEpoch(at: nat): nat { if at == 0 then 1 else at - 1 }

  /** How many messages the sender of epoch `e` had sent in its epoch before. */
  function PreviousCount(es: seq<Epoch>, e: nat): nat
    requires e < |es|
  {
    if e >= 2 then es[e - 2].sent else 0
  }

  /** How far the party's receiving has come in the peer's epoch `e`. */
  function Reached(es: seq<Epoch>, at: nat, nr: nat, e: nat): nat
    requires e < |es|
  {
    if e == ReceiveEpoch(at) then nr else es[e].sent
  }

  /** The index belongs to an epoch of the peer and lies below the position reached there. */
  predicate InReach(es: seq<Epoch>, at: nat, nr: nat, x: Index) {
    && x.epoch < |es| && x.epoch <= ReceiveEpoch(at)
    && x.epoch % 2 == ReceiveEpoch(at) % 2
    && x.n < Reached(es, at, nr, x.epoch)
  }

  function SlotOf(es: seq<Epoch>, x: Index): Slot
    requires x.epoch < |es|
  {
    Slot(PublicOf(es[x.epoch].key), x.n)
  }

  function KeyOf(es: seq<Epoch>, x: Index): Term
    requires x.epoch < |es|
  {
    MessageKey(Advance(es[x.epoch].chain, x.n))
  }

  /** The buffer holds the key of a message that has not been delivered, and no key of one that has. */
  predicate Held(es: seq<Epoch>, skipped: map<Slot, Term>, done: set<Index>, x: Index) {
    && x.epoch < |es|
    && if x in done then SlotOf(es, x) !in skipped
       else SlotOf(es, x) in skipped && skipped[SlotOf(es, x)] == KeyOf(es, x)
  }

  ghost predicate Justified(es: seq<Epoch>, at: nat, nr: nat, k: Slot) {
    exists x :: InReach(es, at, nr, x) && k == SlotOf(es, x)
  }

  /** Below the position reached in each of the peer's epochs, a message key is in the buffer exactly
      when its message has not been delivered; nothing else is in the buffer. */
  ghost predicate BufferOk(es: seq<Epoch>, at: nat, nr: nat, skipped: map<Slot, Term>, done: set<Index>) {
    && ReceiveEpoch(at) < |es|
    && (forall x {:trigger InReach(es, at, nr, x)} | InReach(es, at, nr, x) :: Held(es, skipped, done, x))
    && (forall k {:trigger Justified(es, at, nr, k)} | k in skipped :: Justified(es, at, nr, k))
    && (forall x <- done | x.epoch % 2 == ReceiveEpoch(at) % 2 :: InReach(es, at, nr, x))
  }

  /** The fields of a ratchet that stands at its epoch `at`. */
  predicate Placed(es: seq<Epoch>, at: nat, s: State) {
    && at < |es| && ReceiveEpoch(at) < |es|
    && s.local == es[at].key
    && s.ns == es[at].sent
    && s.pn == PreviousCount(es, at)
    && s.nr <= es[ReceiveEpoch(at)].sent
    && s.remote == Some(PublicOf(es[ReceiveEpoch(at)].key))
    && (if at == 0 then |es| == 2 && s.rk == es[1].root && s.send == None
        else s.rk == es[at].root && s.send == Some(Advance(es[at].chain, s.ns)))
    && (if ReceiveEpoch(at) == 0 then s.recv == None
        else s.recv == Some(Advance(es[ReceiveEpoch(at)].chain, s.nr)))
    && |s.skipped| <= s.maxSkip
  }

  /** A ratchet that stands at its epoch `at`. */
  ghost predicate PartyAt(es: seq<Epoch>, at: nat, s: State, done: set<Index>) {
    Placed(es, at, s) && BufferOk(es, at, s.nr, s.skipped, done)
  }

  /** The frame that the sender of epoch `e` makes of message `n`. */
  function HonestFrame(es: seq<Epoch>, x: Index, plaintext: seq<byte>, ad: seq<byte>): Wire
    requires EpochsOk(es) && 0 < x.epoch < |es| && x.n < es[x.epoch].sent
  {
    var header := Header(PublicOf(es[x.epoch].key), PreviousCount(es, x.epoch), x.n);
    Framed(header, Seal(KeyOf(es, x), x.n, plaintext, FullAd(ad, header)))
  }

  // ---------- What the peer does leaves a party where it is ----------

  lemma BufferOkFrame(es: seq<Epoch>, fs: seq<Epoch>, at: nat, nr: nat, skipped: map<Slot, Term>,
                      done: set<Index>)
    requires BufferOk(es, at, nr, skipped, done) && ReceiveEpoch(at) < |es| <= |fs|
    requires forall e | 0 <= e <= ReceiveEpoch(at) :: es[e].key == fs[e].key && es[e].chain == fs[e].chain
    requires forall e | 0 <= e < ReceiveEpoch(at) :: e % 2 == ReceiveEpoch(at) % 2 ==> es[e].sent == fs[e].sent
    ensures BufferOk(fs, at, nr, skipped, done)
  {
    hide InReach, Held, Justified;
    forall x | InReach(fs, at, nr, x) ensures Held(fs, skipped, done, x) {
      InReachFrame(es, fs, at, nr, skipped, done, x);
    }
    forall k <- skipped ensures Justified(fs, at, nr, k) {
      var x := IndexOfSlot(es, at, nr, k);
      InReachFrame(es, fs, at, nr, skipped, done, x);
      Justify(fs, at, nr, x, k);
    }
    forall x <- done | x.epoch % 2 == ReceiveEpoch(at) % 2 ensures InReach(fs, at, nr, x) {
      InReachFrame(es, fs, at, nr, skipped, done, x);
    }
  }

  lemma IndexOfSlot(es: seq<Epoch>, at: nat, nr: nat, k: Slot) returns (x: Index)
    requires Justified(es, at, nr, k)
    ensures InReach(es, at, nr, x) && x.epoch < |es| && k == SlotOf(es, x)
  {
    x :| InReach(es, at, nr, x) && k == SlotOf(es, x);
  }

  lemma Justify(es: seq<Epoch>, at: nat, nr: nat, x: Index, k: Slot)
    requires InReach(es, at, nr, x) && x.epoch < |es| && k == SlotOf(es, x)
    ensures Justified(es, at, nr, k)
  {
  }

  lemma InReachFrame(es: seq<Epoch>, fs: seq<Epoch>, at: nat, nr: nat, skipped: map<Slot, Term>,
                     done: set<Index>, x: Index)
    requires ReceiveEpoch(at) < |es| <= |fs|
    requires forall e | 0 <= e <= ReceiveEpoch(at) :: es[e].key == fs[e].key && es[e].chain == fs[e].chain
    requires forall e | 0 <= e < ReceiveEpoch(at) :: e % 2 == ReceiveEpoch(at) % 2 ==> es[e].sent == fs[e].sent
    ensures InReach(es, at, nr, x) <==> InReach(fs, at, nr, x)
    ensures InReach(es, at, nr, x) ==> x.epoch < |es| && SlotOf(es, x) == SlotOf(fs, x)
    ensures InReach(es, at, nr, x) ==> (Held(es, skipped, done, x) <==> Held(fs, skipped, done, x))
  {
  }

  lemma PeerSends(es: seq<Epoch>, at: nat, s: State, done: set<Index>, c: nat)
    requires EpochsOk(es) && PartyAt(es, at, s, done)
    requires ReceiveEpoch(at) <= c < |es| && c % 2 == ReceiveEpoch(at) % 2
    ensures PartyAt(es[c := es[c].(sent := es[c].sent + 1)], at, s, done)
  {
    hide BufferOk, EpochsOk;
    BufferOkFrame(es, es[c := es[c].(sent := es[c].sent + 1)], at, s.nr, s.skipped, done);
  }

  lemma PeerTurns(es: seq<Epoch>, at: nat, s: State, done: set<Index>, added: Epoch)
    requires PartyAt(es, at, s, done) && at > 0
    ensures PartyAt(es + [added], at, s, done)
  {
    hide BufferOk;
    BufferOkFrame(es, es + [added], at, s.nr, s.skipped, done);
  }

  lemma PeerReceives(es: seq<Epoch>, at: nat, s: State, done: set<Index>, x: Index)
    requires PartyAt(es, at, s, done) && x.epoch % 2 != ReceiveEpoch(at) % 2
    ensures PartyAt(es, at, s, done + {x})
  {
    hide Placed, Held;
    forall y | InReach(es, at, s.nr, y) ensures Held(es, s.skipped, done + {x}, y) {
      OtherHeld(es, s.skipped, done, x, y);
    }
  }

  lemma OtherHeld(es: seq<Epoch>, skipped: map<Slot, Term>, done: set<Index>, x: Index, y: Index)
    requires x != y
    ensures Held(es, skipped, done, y) <==> Held(es, skipped, done + {x}, y)
  {
  }

  // ---------- Sending ----------

  /** The first encryption of the responder opens epoch 2. */
  lemma OpensFirstEpoch(es: seq<Epoch>, s: State, done: set<Index>, key: PrivateKey)
    requires EpochsOk(es) && PartyAt(es, 0, s, done)
    requires forall e | 0 <= e < |es| :: es[e].key != key
    ensures var g := GenerateSendingChain(s, Private(key));
            var es' := es + [Successor(es[1], key)];
            && g.outcome.Ok? && EpochsOk(es') && PartyAt(es', 2, g.state, done) && g.state.nr == s.nr
  {
    hide BufferOk;
    var es' := es + [Successor(es[1], key)];
    NextEpochOk(es, key);
    BufferOkFrame(es, es', 0, s.nr, s.skipped, done);
    BufferSameEpoch(es', s.nr, s.skipped, done);
    hide EpochsOk;
  }

  /** Epochs 0 and 2 of the responder both receive in epoch 1. */
  lemma BufferSameEpoch(es: seq<Epoch>, nr: nat, skipped: map<Slot, Term>, done: set<Index>)
    requires BufferOk(es, 0, nr, skipped, done)
    ensures BufferOk(es, 2, nr, skipped, done)
  {
    hide Held, Justified;
    assert forall x :: InReach(es, 0, nr, x) == InReach(es, 2, nr, x);
    forall k <- skipped ensures Justified(es, 2, nr, k) {
      var x := IndexOfSlot(es, 0, nr, k);
      Justify(es, 2, nr, x, k);
    }
  }

  /** A fresh key opens one epoch more. */
  lemma NextEpochOk(es: seq<Epoch>, key: PrivateKey)
    requires EpochsOk(es) && forall e | 0 <= e < |es| :: es[e].key != key
    ensures EpochsOk(es + [Successor(es[|es| - 1], key)])
  {
    hide Successor;
    var es' := es + [Successor(es[|es| - 1], key)];
    SuccessorShape(es[|es| - 1], key);
    forall e | 0 < e < |es'| ensures Linked(es', e) {
      if e < |es| { assert Linked(es, e); }
    }
  }

  lemma SuccessorShape(last: Epoch, key: PrivateKey)
    ensures Successor(last, key).key == key && Successor(last, key).sent == 0
    ensures Successor(last, key).(sent := 0) == Successor(last, key)
  {
  }

  lemma CountedEpochsOk(es: seq<Epoch>, at: nat)
    requires EpochsOk(es) && 0 < at < |es| && es[at].sent + 1 < U32_LIMIT
    ensures EpochsOk(es[at := es[at].(sent := es[at].sent + 1)])
  {
    var es' := es[at := es[at].(sent := es[at].sent + 1)];
    forall e | 0 < e < |es'| ensures Linked(es', e) {
      assert Linked(es, e);
      CountKeepsSuccessor(es[e - 1], es'[e - 1], es[e].key);
    }
  }

  lemma CountKeepsSuccessor(a: Epoch, b: Epoch, key: PrivateKey)
    requires b == a.(sent := b.sent)
    ensures Successor(a, key) == Successor(b, key)
  {
  }

  /** An encryption makes the honest frame of the next index and counts it. */
  lemma SendsInEpoch(es: seq<Epoch>, at: nat, s: State, done: set<Index>, plaintext: seq<byte>,
                     ad: seq<byte>, draw: Draw)
    requires EpochsOk(es) && PartyAt(es, at, s, done) && at > 0 && es[at].sent + 1 < U32_LIMIT
    ensures var es' := es[at := es[at].(sent := es[at].sent + 1)];
            var step := Encrypt(s, plaintext, ad, draw);
            && EpochsOk(es') && PartyAt(es', at, step.state, done) && step.state.nr == s.nr
            && step.outcome == Ok(HonestFrame(es', Index(at, es[at].sent), plaintext, ad))
  {
    hide BufferOk, HonestFrame, Linked, Encrypt;
    var es' := es[at := es[at].(sent := es[at].sent + 1)];
    CountedEpochsOk(es, at);
    EncryptPlaces(es, at, s, plaintext, ad, draw);
    BufferOkFrame(es, es', at, s.nr, s.skipped, done);
  }

  lemma CountsAreSmall(es: seq<Epoch>, at: nat)
    requires EpochsOk(es) && at < |es|
    ensures PreviousCount(es, at) < U32_LIMIT && ToU32(PreviousCount(es, at)) == PreviousCount(es, at)
  {
    hide Linked;
  }

  /** The fields of that encryption, and the frame it makes. */
  lemma EncryptPlaces(es: seq<Epoch>, at: nat, s: State, plaintext: seq<byte>, ad: seq<byte>, draw: Draw)
    requires EpochsOk(es) && Placed(es, at, s) && at > 0 && es[at].sent + 1 < U32_LIMIT
    requires EpochsOk(es[at := es[at].(sent := es[at].sent + 1)])
    ensures var es' := es[at := es[at].(sent := es[at].sent + 1)];
            var step := Encrypt(s, plaintext, ad, draw);
            && Placed(es', at, step.state) && step.state.nr == s.nr && step.state.skipped == s.skipped
            && step.outcome == Ok(HonestFrame(es', Index(at, es[at].sent), plaintext, ad))
  {
    CountsAreSmall(es, at);
    hide EpochsOk;
    var es' := es[at := es[at].(sent := es[at].sent + 1)];
    assert PreviousCount(es', at) == PreviousCount(es, at);
    assert ToU32(es[at].sent) == es[at].sent;
  }

  // ---------- Receiving ----------

  /** Keys of different epochs differ, so a slot belongs to one index. */
  lemma SlotInjective(es: seq<Epoch>, x: Index, y: Index)
    requires EpochsOk(es) && x.epoch < |es| && y.epoch < |es|
    ensures SlotOf(es, x) == SlotOf(es, y) ==> x == y
  {
  }

  /** Beyond the position reached nothing is buffered. */
  lemma NotYetBuffered(es: seq<Epoch>, at: nat, nr: nat, skipped: map<Slot, Term>, done: set<Index>,
                       x: Index)
    requires EpochsOk(es) && BufferOk(es, at, nr, skipped, done)
    requires x.epoch < |es| && !InReach(es, at, nr, x)
    ensures SlotOf(es, x) !in skipped
  {
    hide InReach, Held, Justified;
    if SlotOf(es, x) in skipped {
      var y := IndexOfSlot(es, at, nr, SlotOf(es, x));
      SlotInjective(es, x, y);
    }
  }

  /** The skip loop in the receive epoch, from index `nr` to `upTo`: it succeeds if and only if the
      keys fit in the buffer. */
  lemma SkipFits(es: seq<Epoch>, at: nat, nr: nat, upTo: nat, skipped: map<Slot, Term>,
                 maxSkip: nat, done: set<Index>, k: Skip)
    requires EpochsOk(es) && BufferOk(es, at, nr, skipped, done) && nr <= upTo
    requires |skipped| <= maxSkip && ReceiveEpoch(at) < |es|
    requires var epoch := es[ReceiveEpoch(at)];
             k == BufferKeys(Advance(epoch.chain, nr), Some(PublicOf(epoch.key)), nr, upTo, skipped, maxSkip)
    ensures k.error.None? <==> |skipped| + (upTo - nr) <= maxSkip
    ensures k.error.Some? ==> k.error == Some(SkipBufferExhausted)
    ensures k.error.Some? && |skipped| == maxSkip ==> k.nr == nr && k.skipped == skipped
    ensures k.error.None? ==>
              && k.nr == upTo && k.chain == Advance(es[ReceiveEpoch(at)].chain, upTo)
              && |k.skipped| == |skipped| + (upTo - nr)
  {
    hide EpochsOk, BufferOk, BufferKeys, InRange;
    var epoch := es[ReceiveEpoch(at)];
    var chain, remote := Advance(epoch.chain, nr), PublicOf(epoch.key);
    RangeUnbuffered(es, at, nr, upTo, skipped, done);
    BufferKeysFits(chain, remote, nr, upTo, skipped, maxSkip);
    BufferKeysMoves(chain, Some(remote), nr, upTo, skipped, maxSkip);
    AdvanceTwice(epoch.chain, nr, upTo - nr);
  }

  lemma SkipFills(es: seq<Epoch>, at: nat, nr: nat, upTo: nat, skipped: map<Slot, Term>,
                  maxSkip: nat, done: set<Index>, k: Skip)
    requires EpochsOk(es) && BufferOk(es, at, nr, skipped, done) && nr <= upTo
    requires var epoch := es[ReceiveEpoch(at)];
             k == BufferKeys(Advance(epoch.chain, nr), Some(PublicOf(epoch.key)), nr, upTo, skipped, maxSkip)
    requires k.nr == upTo
    ensures BufferOk(es, at, upTo, k.skipped, done)
  {
    var epoch := es[ReceiveEpoch(at)];
    BufferKeysFills(Advance(epoch.chain, nr), Some(PublicOf(epoch.key)), nr, upTo, skipped, maxSkip);
    FilledBufferOk(es, at, nr, upTo, skipped, k.skipped, done);
  }

  lemma RangeUnbuffered(es: seq<Epoch>, at: nat, nr: nat, upTo: nat, skipped: map<Slot, Term>, done: set<Index>)
    requires EpochsOk(es) && BufferOk(es, at, nr, skipped, done)
    ensures forall k <- skipped :: !InRange(k, Some(PublicOf(es[ReceiveEpoch(at)].key)), nr, upTo)
  {
    var r := ReceiveEpoch(at);
    forall k <- skipped ensures !InRange(k, Some(PublicOf(es[r].key)), nr, upTo) {
      if InRange(k, Some(PublicOf(es[r].key)), nr, upTo) {
        NotYetBuffered(es, at, nr, skipped, done, Index(r, k.n));
      }
    }
  }

  lemma FilledBufferOk(es: seq<Epoch>, at: nat, nr: nat, upTo: nat, before: map<Slot, Term>,
                       after: map<Slot, Term>, done: set<Index>)
    requires EpochsOk(es) && BufferOk(es, at, nr, before, done) && nr <= upTo
    requires Filled(before, after, Some(PublicOf(es[ReceiveEpoch(at)].key)),
                    Advance(es[ReceiveEpoch(at)].chain, nr), nr, upTo)
    ensures BufferOk(es, at, upTo, after, done)
  {
    hide EpochsOk, InReach, Held, Justified, Filled, Advance;
    forall x | InReach(es, at, upTo, x) ensures Held(es, after, done, x) {
      FilledAt(es, at, nr, upTo, before, after, done, x);
    }
    forall k <- after ensures Justified(es, at, upTo, k) {
      FilledSlot(es, at, nr, upTo, before, after, k);
    }
    forall x <- done | x.epoch % 2 == ReceiveEpoch(at) % 2 ensures InReach(es, at, upTo, x) {
      ReachGrows(es, at, nr, upTo, x);
    }
  }

  lemma ReachGrows(es: seq<Epoch>, at: nat, low: nat, high: nat, x: Index)
    requires InReach(es, at, low, x) && low <= high
    ensures InReach(es, at, high, x) && x.epoch < |es|
  {
  }

  lemma FilledSlot(es: seq<Epoch>, at: nat, nr: nat, upTo: nat, before: map<Slot, Term>,
                   after: map<Slot, Term>, k: Slot)
    requires ReceiveEpoch(at) < |es| && nr <= upTo && k in after
    requires forall x <- before :: Justified(es, at, nr, x)
    requires Filled(before, after, Some(PublicOf(es[ReceiveEpoch(at)].key)),
                    Advance(es[ReceiveEpoch(at)].chain, nr), nr, upTo)
    ensures Justified(es, at, upTo, k)
  {
    hide Justified, Advance, InReach;
    var r := ReceiveEpoch(at);
    if InRange(k, Some(PublicOf(es[r].key)), nr, upTo) {
      NextInReach(es, at, upTo, k.n);
      Justify(es, at, upTo, Index(r, k.n), k);
    } else {
      var x := IndexOfSlot(es, at, nr, k);
      ReachGrows(es, at, nr, upTo, x);
      Justify(es, at, upTo, x, k);
    }
  }

  lemma NextInReach(es: seq<Epoch>, at: nat, nr: nat, n: nat)
    requires ReceiveEpoch(at) < |es|
    ensures InReach(es, at, nr, Index(ReceiveEpoch(at), n)) <==> n < nr
  {
  }

  lemma FilledAt(es: seq<Epoch>, at: nat, nr: nat, upTo: nat, before: map<Slot, Term>,
                 after: map<Slot, Term>, done: set<Index>, x: Index)
    requires EpochsOk(es) && BufferOk(es, at, nr, before, done) && nr <= upTo
    requires Filled(before, after, Some(PublicOf(es[ReceiveEpoch(at)].key)),
                    Advance(es[ReceiveEpoch(at)].chain, nr), nr, upTo)
    requires InReach(es, at, upTo, x)
    ensures Held(es, after, done, x)
  {
    hide Justified, Advance, EpochsOk;
    var r := ReceiveEpoch(at);
    var remote := PublicOf(es[r].key);
    if x.epoch == r && nr <= x.n {
      assert !InReach(es, at, nr, x);
      assert InRange(Slot(remote, x.n), Some(remote), nr, upTo) && Slot(remote, x.n) in after;
      AdvanceTwice(es[r].chain, nr, x.n - nr);
    } else {
      assert InReach(es, at, nr, x);
      OtherSlot(es, r, x, nr, upTo);
    }
  }

  lemma OtherSlot(es: seq<Epoch>, r: nat, x: Index, from: nat, to: nat)
    requires EpochsOk(es) && r < |es| && x.epoch < |es| && (x.epoch != r || x.n < from)
    ensures !InRange(SlotOf(es, x), Some(PublicOf(es[r].key)), from, to)
  {
    hide Linked;
  }

  /** A message already delivered is refused, and the refusal changes nothing. */
  lemma RefusesDelivered(es: seq<Epoch>, at: nat, s: State, done: set<Index>, n: u32)
    requires EpochsOk(es) && PartyAt(es, at, s, done) && ReceiveEpoch(at) > 0
    requires Index(ReceiveEpoch(at), n) in done
    ensures TakeMessageKey(s, PublicOf(es[ReceiveEpoch(at)].key), n) == Step(s, Err(Replayed))
  {
    BufferedOrNot(es, at, s.nr, s.skipped, done, Index(ReceiveEpoch(at), n));
  }

  /** A message below the receive position gives its key from the buffer. */
  lemma TakesBuffered(es: seq<Epoch>, at: nat, s: State, done: set<Index>, n: u32)
    requires EpochsOk(es) && PartyAt(es, at, s, done) && ReceiveEpoch(at) > 0
    requires n < s.nr && Index(ReceiveEpoch(at), n) !in done
    ensures var x := Index(ReceiveEpoch(at), n);
            var t := TakeMessageKey(s, PublicOf(es[x.epoch].key), n);
            t.outcome == Ok(KeyOf(es, x)) && PartyAt(es, at, t.state, done + {x}) && t.state.nr == s.nr
  {
    hide EpochsOk, BufferOk;
    var x := Index(ReceiveEpoch(at), n);
    BufferedOrNot(es, at, s.nr, s.skipped, done, x);
    NextInReach(es, at, s.nr, n);
    RemovedBufferOk(es, at, s.nr, s.skipped, done, x);
    SizeWithout(s.skipped, SlotOf(es, x));
  }

  /** A message at or beyond the receive position gives its key if and only if the gap fits. */
  lemma TakesAhead(es: seq<Epoch>, at: nat, s: State, done: set<Index>, n: u32)
    requires EpochsOk(es) && PartyAt(es, at, s, done) && ReceiveEpoch(at) > 0
    requires s.nr <= n < es[ReceiveEpoch(at)].sent
    ensures var x := Index(ReceiveEpoch(at), n);
            var t := TakeMessageKey(s, PublicOf(es[x.epoch].key), n);
            if |s.skipped| + (n - s.nr) <= s.maxSkip
            then t.outcome == Ok(KeyOf(es, x)) && PartyAt(es, at, t.state, done + {x}) && t.state.nr == n + 1
            else && t.outcome in {Err(TooFarAhead), Err(SkipBufferExhausted)}
                 && (!OverflowsPartly(|s.skipped|, n - s.nr, s.maxSkip) ==> t.state == s)
  {
    hide EpochsOk, BufferOk, BufferKeys, TakeMessageKey;
    var dh := PublicOf(es[ReceiveEpoch(at)].key);
    BufferedOrNot(es, at, s.nr, s.skipped, done, Index(ReceiveEpoch(at), n));
    TakeAheadUnfolds(s, dh, n);
    var k := BufferKeys(s.recv.value, s.remote, s.nr, n, s.skipped, s.maxSkip);
    SkipFits(es, at, s.nr, n, s.skipped, s.maxSkip, done, k);
    if k.error.None? {
      SkipFills(es, at, s.nr, n, s.skipped, s.maxSkip, done, k);
      StepsParty(es, at, s, TakeMessageKey(s, dh, n).state, done, n);
    }
  }

  lemma StepsParty(es: seq<Epoch>, at: nat, s: State, s': State, done: set<Index>, n: nat)
    requires EpochsOk(es) && PartyAt(es, at, s, done) && ReceiveEpoch(at) > 0
    requires n < es[ReceiveEpoch(at)].sent && BufferOk(es, at, n, s'.skipped, done)
    requires |s'.skipped| <= s.maxSkip
    requires s' == s.(recv := Some(Advance(es[ReceiveEpoch(at)].chain, n + 1)), nr := n + 1, skipped := s'.skipped)
    ensures PartyAt(es, at, s', done + {Index(ReceiveEpoch(at), n)})
  {
    StepsBufferOk(es, at, n, s'.skipped, done);
  }

  lemma BufferedOrNot(es: seq<Epoch>, at: nat, nr: nat, skipped: map<Slot, Term>, done: set<Index>, x: Index)
    requires EpochsOk(es) && BufferOk(es, at, nr, skipped, done) && x.epoch == ReceiveEpoch(at)
    ensures x.n < nr && x !in done ==> SlotOf(es, x) in skipped && skipped[SlotOf(es, x)] == KeyOf(es, x)
    ensures x.n >= nr || x in done ==> SlotOf(es, x) !in skipped
    ensures x in done ==> x.n < nr
  {
    hide EpochsOk, Justified;
    assert InReach(es, at, nr, x) <==> x.n < nr;
    if x.n >= nr { NotYetBuffered(es, at, nr, skipped, done, x); }
  }

  lemma RemovedBufferOk(es: seq<Epoch>, at: nat, nr: nat, skipped: map<Slot, Term>, done: set<Index>,
                        x: Index)
    requires EpochsOk(es) && BufferOk(es, at, nr, skipped, done) && InReach(es, at, nr, x)
    requires x.epoch < |es| && x !in done
    ensures BufferOk(es, at, nr, skipped - {SlotOf(es, x)}, done + {x})
  {
    hide EpochsOk, InReach, Held, Justified;
    var after := skipped - {SlotOf(es, x)};
    forall y | InReach(es, at, nr, y) ensures Held(es, after, done + {x}, y) {
      RemovedAt(es, skipped, done, x, y);
    }
  }

  lemma RemovedAt(es: seq<Epoch>, skipped: map<Slot, Term>, done: set<Index>, x: Index, y: Index)
    requires EpochsOk(es) && x.epoch < |es| && Held(es, skipped, done, y)
    ensures Held(es, skipped - {SlotOf(es, x)}, done + {x}, y)
  {
    hide EpochsOk;
    SlotInjective(es, x, y);
  }

  lemma StepsBufferOk(es: seq<Epoch>, at: nat, n: nat, skipped: map<Slot, Term>, done: set<Index>)
    requires EpochsOk(es) && BufferOk(es, at, n, skipped, done) && ReceiveEpoch(at) < |es|
    ensures BufferOk(es, at, n + 1, skipped, done + {Index(ReceiveEpoch(at), n)})
  {
    hide EpochsOk, InReach, Held, Justified;
    var x := Index(ReceiveEpoch(at), n);
    NextInReach(es, at, n, n);
    NextInReach(es, at, n + 1, n);
    NotYetBuffered(es, at, n, skipped, done, x);
    forall y | InReach(es, at, n + 1, y) ensures Held(es, skipped, done + {x}, y) {
      if y == x { UnbufferedHeld(es, skipped, done + {x}, x); } else {
        OneMoreInReach(es, at, n, y);
        OtherHeld(es, skipped, done, x, y);
      }
    }
    forall k <- skipped ensures Justified(es, at, n + 1, k) {
      var y := IndexOfSlot(es, at, n, k);
      ReachGrows(es, at, n, n + 1, y);
      Justify(es, at, n + 1, y, k);
    }
    forall y <- done + {x} | y.epoch % 2 == ReceiveEpoch(at) % 2 ensures InReach(es, at, n + 1, y) {
      if y != x { ReachGrows(es, at, n, n + 1, y); }
    }
  }

  lemma UnbufferedHeld(es: seq<Epoch>, skipped: map<Slot, Term>, done: set<Index>, x: Index)
    requires x.epoch < |es| && x in done && SlotOf(es, x) !in skipped
    ensures Held(es, skipped, done, x)
  {
  }

  lemma OneMoreInReach(es: seq<Epoch>, at: nat, n: nat, y: Index)
    requires InReach(es, at, n + 1, y) && y != Index(ReceiveEpoch(at), n)
    ensures InReach(es, at, n, y)
  {
  }

  // ---------- Turning to the peer's next epoch ----------

  /** Once the whole of the receive epoch is passed, the buffer says the same two epochs later. */
  lemma TurnBufferOk(es: seq<Epoch>, fs: seq<Epoch>, at: nat, skipped: map<Slot, Term>, done: set<Index>)
    requires at > 0 && at + 1 < |es| <= |fs|
    requires forall e | 0 <= e < |es| :: es[e] == fs[e]
    requires BufferOk(es, at, es[at - 1].sent, skipped, done)
    ensures BufferOk(fs, at + 2, 0, skipped, done)
  {
    hide InReach, Held, Justified;
    forall x | InReach(fs, at + 2, 0, x) ensures Held(fs, skipped, done, x) {
      TurnInReach(es, fs, at, skipped, done, x);
    }
    forall k <- skipped ensures Justified(fs, at + 2, 0, k) {
      var x := IndexOfSlot(es, at, es[at - 1].sent, k);
      TurnInReach(es, fs, at, skipped, done, x);
      Justify(fs, at + 2, 0, x, k);
    }
    forall x <- done | x.epoch % 2 == ReceiveEpoch(at + 2) % 2 ensures InReach(fs, at + 2, 0, x) {
      TurnInReach(es, fs, at, skipped, done, x);
    }
  }

  lemma TurnInReach(es: seq<Epoch>, fs: seq<Epoch>, at: nat, skipped: map<Slot, Term>, done: set<Index>, x: Index)
    requires at > 0 && at + 1 < |es| <= |fs|
    requires forall e | 0 <= e < |es| :: es[e] == fs[e]
    ensures InReach(fs, at + 2, 0, x) <==> InReach(es, at, es[at - 1].sent, x)
    ensures InReach(fs, at + 2, 0, x) ==> x.epoch < |es| && SlotOf(es, x) == SlotOf(fs, x)
    ensures InReach(fs, at + 2, 0, x) ==> (Held(es, skipped, done, x) <==> Held(fs, skipped, done, x))
    ensures x.epoch % 2 == ReceiveEpoch(at + 2) % 2 <==> x.epoch % 2 == ReceiveEpoch(at) % 2
  {
  }

  /** The keys that skipping to the end of the receive epoch needs room for. */
  function Unpassed(es: seq<Epoch>, at: nat, s: State): nat
    requires ReceiveEpoch(at) < |es| && s.nr <= es[ReceiveEpoch(at)].sent
  {
    es[ReceiveEpoch(at)].sent - s.nr
  }

  lemma SkipsRest(es: seq<Epoch>, at: nat, s: State, done: set<Index>)
    requires EpochsOk(es) && PartyAt(es, at, s, done) && 0 < at
    ensures var a := SkipMessageKeys(s, es[at - 1].sent);
            if |s.skipped| + Unpassed(es, at, s) <= s.maxSkip
            then && a.outcome.Ok?
                 && a.state == s.(nr := es[at - 1].sent, skipped := a.state.skipped, recv := a.state.recv)
                 && |a.state.skipped| == |s.skipped| + Unpassed(es, at, s)
                 && BufferOk(es, at, es[at - 1].sent, a.state.skipped, done)
            else && a.outcome in {Err(SkipBound), Err(SkipBufferExhausted)}
                 && (!OverflowsPartly(|s.skipped|, Unpassed(es, at, s), s.maxSkip) ==> a.state == s)
  {
    FirstEpochIsEmpty(es);
    hide EpochsOk, BufferOk, BufferKeys;
    if at > 1 {
      var upTo := es[at - 1].sent;
      var k := BufferKeys(s.recv.value, s.remote, s.nr, upTo, s.skipped, s.maxSkip);
      SkipFits(es, at, s.nr, upTo, s.skipped, s.maxSkip, done, k);
      if k.error.None? { SkipFills(es, at, s.nr, upTo, s.skipped, s.maxSkip, done, k); }
    }
  }

  lemma FirstEpochIsEmpty(es: seq<Epoch>)
    requires EpochsOk(es)
    ensures |es| >= 2 && es[0].sent == 0
  {
  }

  /** The root steps of a turn to the peer's next epoch. */
  lemma TurnPlaces(es: seq<Epoch>, at: nat, s: State, a: State, header: Header, key: PrivateKey)
    requires EpochsOk(es) && Placed(es, at, s) && 0 < at && at + 2 == |es|
    requires header.dh == PublicOf(es[at + 1].key) && |a.skipped| <= a.maxSkip
    requires a == s.(nr := a.nr, skipped := a.skipped, recv := a.recv)
    ensures var t := DhRatchet(a, header.dh, Private(key));
            && t.outcome.Ok? && Placed(es + [Successor(es[at + 1], key)], at + 2, t.state)
            && t.state.nr == 0 && t.state.skipped == a.skipped && t.state.maxSkip == s.maxSkip
  {
    assert Linked(es, at + 1);
    hide EpochsOk;
    DhCancels(es[at].key, es[at + 1].key, key);
  }

  /** A header of the peer's next epoch turns the ratchet, if and only if the rest of the old epoch
      fits in the buffer; the party then stands two epochs further, at an epoch of its own. */
  lemma TurnsToNextEpoch(es: seq<Epoch>, at: nat, s: State, done: set<Index>, header: Header,
                         key: PrivateKey)
    requires EpochsOk(es) && PartyAt(es, at, s, done) && 0 < at && at + 2 == |es|
    requires forall e | 0 <= e < |es| :: es[e].key != key
    requires header.dh == PublicOf(es[at + 1].key) && header.pn == PreviousCount(es, at + 1)
    ensures var t := TurnTo(s, header, Private(key));
            var es' := es + [Successor(es[at + 1], key)];
            && s.remote != Some(header.dh) && Rest(s, header) == Unpassed(es, at, s)
            && if |s.skipped| + Unpassed(es, at, s) <= s.maxSkip
               then && t.outcome.Ok? && EpochsOk(es') && PartyAt(es', at + 2, t.state, done)
                    && t.state.nr == 0
                    && |t.state.skipped| == |s.skipped| + Unpassed(es, at, s)
                    && t.state.maxSkip == s.maxSkip
               else && t.outcome in {Err(SkipBound), Err(SkipBufferExhausted)}
                    && (!OverflowsPartly(|s.skipped|, Unpassed(es, at, s), s.maxSkip) ==> t.state == s)
  {
    hide BufferOk, SkipMessageKeys, EpochsOk, DhRatchet, Successor;
    NextKeyIsOther(es, at, s, header);
    SkipsRest(es, at, s, done);
    var a := SkipMessageKeys(s, header.pn);
    if |s.skipped| + Unpassed(es, at, s) <= s.maxSkip {
      NextEpochOk(es, key);
      TurnPlaces(es, at, s, a.state, header, key);
      TurnBufferOk(es, es + [Successor(es[at + 1], key)], at, a.state.skipped, done);
    }
  }

  lemma NextKeyIsOther(es: seq<Epoch>, at: nat, s: State, header: Header)
    requires EpochsOk(es) && Placed(es, at, s) && 0 < at && at + 2 == |es|
    requires header.dh == PublicOf(es[at + 1].key) && header.pn == PreviousCount(es, at + 1)
    ensures s.remote != Some(header.dh) && Rest(s, header) == Unpassed(es, at, s)
    ensures header.pn == es[at - 1].sent
  {
    hide Linked;
  }

  // ---------- Delivering one honest message ----------

  lemma FrameHeader(es: seq<Epoch>, x: Index, plaintext: seq<byte>, ad: seq<byte>)
    requires EpochsOk(es) && 0 < x.epoch < |es| && x.n < es[x.epoch].sent
    ensures var frame := HonestFrame(es, x, plaintext, ad);
            && frame.Framed? && frame.header == Header(PublicOf(es[x.epoch].key), PreviousCount(es, x.epoch), x.n)
            && frame.ciphertext == Seal(KeyOf(es, x), x.n, plaintext, FullAd(ad, frame.header))
  {
  }

  /** With the right key in hand the frame opens. */
  lemma ReceivesFrame(s: State, header: Header, ad: seq<byte>, plaintext: seq<byte>, mk: Term)
    ensures var t := TakeMessageKey(s, header.dh, header.n);
            var r := Receive(s, header, Seal(mk, header.n, plaintext, FullAd(ad, header)), ad);
            && (t.outcome == Ok(mk) ==> r == Step(t.state, Ok(plaintext)))
            && (t.outcome.Err? ==> r == Step(t.state, Err(t.outcome.error)))
  {
    hide TakeMessageKey;
  }

  /** A message of the receive epoch: the plaintext comes out if and only if the gap before it fits
      in the buffer; a second delivery is refused and changes nothing, and so is one that the loop does
      not start on. */
  lemma DeliversInEpoch(es: seq<Epoch>, at: nat, s: State, done: set<Index>, x: Index,
                        plaintext: seq<byte>, ad: seq<byte>, draw: Draw)
    requires EpochsOk(es) && PartyAt(es, at, s, done) && x.epoch == ReceiveEpoch(at) > 0
    requires x.n < es[x.epoch].sent
    ensures var frame := HonestFrame(es, x, plaintext, ad);
            var step := Decrypt(s, frame, ad, draw);
            && s.remote == Some(frame.header.dh)
            && if x in done then step == Step(s, Err(Replayed)) && !Tears(s, frame.header)
               else if HasRoom(s, frame.header)
               then && step.outcome == Ok(plaintext) && PartyAt(es, at, step.state, done + {x})
                    && step.state.nr == if x.n < s.nr then s.nr else x.n + 1
               else && step.outcome in {Err(TooFarAhead), Err(SkipBufferExhausted)}
                    && (!Tears(s, frame.header) ==> step.state == s)
  {
    FrameHeader(es, x, plaintext, ad);
    hide EpochsOk, BufferOk, HonestFrame, TakeMessageKey, Seal, Receive;
    var header := HonestFrame(es, x, plaintext, ad).header;
    assert TurnTo(s, header, draw) == Step(s, Ok(()));
    ReceivesFrame(s, header, ad, plaintext, KeyOf(es, x));
    BufferedOrNot(es, at, s.nr, s.skipped, done, x);
    if x in done {
      RefusesDelivered(es, at, s, done, header.n);
    } else if x.n < s.nr {
      TakesBuffered(es, at, s, done, header.n);
    } else {
      TakesAhead(es, at, s, done, header.n);
    }
  }

  lemma DecryptSplits(s: State, wire: Wire, ad: seq<byte>, draw: Draw)
    requires wire.Framed?
    ensures var t := TurnTo(s, wire.header, draw);
            Decrypt(s, wire, ad, draw) == if t.outcome.Err? then Step(t.state, Err(t.outcome.error))
                                          else Receive(t.state, wire.header, wire.ciphertext, ad)
  {
    hide TurnTo, Receive;
  }

  lemma KeyStays(es: seq<Epoch>, fs: seq<Epoch>, x: Index)
    requires x.epoch < |es| <= |fs| && es[x.epoch] == fs[x.epoch]
    ensures KeyOf(es, x) == KeyOf(fs, x)
  {
  }

  /** The message that turned the ratchet, once it has turned. */
  lemma ReceivesAfterTurn(es: seq<Epoch>, at: nat, t: State, done: set<Index>, header: Header,
                          plaintext: seq<byte>, ad: seq<byte>)
    requires EpochsOk(es) && PartyAt(es, at, t, done) && 0 < ReceiveEpoch(at) < |es| && t.nr == 0
    requires header.dh == PublicOf(es[ReceiveEpoch(at)].key) && header.n < es[ReceiveEpoch(at)].sent
    ensures var x := Index(ReceiveEpoch(at), header.n);
            var r := Receive(t, header, Seal(KeyOf(es, x), x.n, plaintext, FullAd(ad, header)), ad);
            if |t.skipped| + header.n <= t.maxSkip
            then r.outcome == Ok(plaintext) && PartyAt(es, at, r.state, done + {x}) && r.state.nr == x.n + 1
            else && r.outcome in {Err(TooFarAhead), Err(SkipBufferExhausted)}
                 && (!OverflowsPartly(|t.skipped|, header.n, t.maxSkip) ==> r.state == t)
  {
    hide EpochsOk, BufferOk, TakeMessageKey, Receive, Seal, Placed;
    ReceivesFrame(t, header, ad, plaintext, KeyOf(es, Index(ReceiveEpoch(at), header.n)));
    TakesAhead(es, at, t, done, header.n);
  }

  /** A message of the peer's next epoch: the ratchet turns, and the plaintext comes out, if and only
      if the rest of the old epoch and the gap in the new one fit in the buffer. A refusal that no loop
      has started on leaves the ratchet as it was, or turned and otherwise as it was. */
  lemma DeliversNextEpoch(es: seq<Epoch>, at: nat, s: State, done: set<Index>, x: Index,
                          plaintext: seq<byte>, ad: seq<byte>, key: PrivateKey)
    requires EpochsOk(es) && PartyAt(es, at, s, done) && 0 < at && at + 2 == |es|
    requires forall e | 0 <= e < |es| :: es[e].key != key
    requires x.epoch == at + 1 && x.n < es[x.epoch].sent
    ensures x !in done
    ensures var frame := HonestFrame(es, x, plaintext, ad);
            var step := Decrypt(s, frame, ad, Private(key));
            var es' := es + [Successor(es[at + 1], key)];
            && s.remote != Some(frame.header.dh) && EpochsOk(es')
            && if HasRoom(s, frame.header)
               then step.outcome == Ok(plaintext) && PartyAt(es', at + 2, step.state, done + {x})
                    && step.state.nr == x.n + 1
               else && step.outcome in {Err(SkipBound), Err(TooFarAhead), Err(SkipBufferExhausted)}
                    && (!Tears(s, frame.header) ==>
                          if |s.skipped| + Unpassed(es, at, s) <= s.maxSkip
                          then PartyAt(es', at + 2, step.state, done) && step.state.nr == 0
                          else step.state == s)
  {
    NotDoneYet(es, at, s, done, x);
    FrameHeader(es, x, plaintext, ad);
    NextEpochOk(es, key);
    hide EpochsOk, PartyAt, HonestFrame, Seal, Receive, TurnTo, Successor, KeyOf, PreviousCount, Unpassed, Decrypt,
         Rest;
    var header := HonestFrame(es, x, plaintext, ad).header;
    var es' := es + [Successor(es[at + 1], key)];
    TurnsToNextEpoch(es, at, s, done, header, key);
    var t := TurnTo(s, header, Private(key));
    DecryptSplits(s, HonestFrame(es, x, plaintext, ad), ad, Private(key));
    if |s.skipped| + Unpassed(es, at, s) <= s.maxSkip {
      KeyStays(es, es', x);
      ReceivesAfterTurn(es', at + 2, t.state, done, header, plaintext, ad);
    }
  }

  lemma NotDoneYet(es: seq<Epoch>, at: nat, s: State, done: set<Index>, x: Index)
    requires PartyAt(es, at, s, done) && x.epoch == ReceiveEpoch(at) + 2
    ensures x !in done
  {
    hide Held, Justified, Placed;
    assert !InReach(es, at, s.nr, x);
  }
}
