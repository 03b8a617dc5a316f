/** A ratchet restored from its export answers every later call as the one that was exported. */
module Bisimulation {
  import opened Terms
  import opened Bytes
  import opened SkipOrder
  import opened StateCodec
  import opened StateRoundTrip
  import opened Ratchet

  // ---------- The role flag is never read ----------

  datatype Reply = Sealing(sent: Outcome<Wire>) | Opening(received: Outcome<seq<byte>>)

  function ReplyTo(s: State, call: Call): Reply {
    match call
    case EncryptCall(plaintext, ad, draw) => Sealing(Encrypt(s, plaintext, ad, draw).outcome)
    case DecryptCall(wire, ad, draw) => Opening(Decrypt(s, wire, ad, draw).outcome)
  }

  function Replies(s: State, calls: seq<Call>): seq<Reply>
    decreases |calls|
  {
    if calls == [] then [] else [ReplyTo(s, calls[0])] + Replies(After(s, calls[0]), calls[1..])
  }

  predicate SameButRole(s: State, t: State) { t == s.(initiator := t.initiator) }

  lemma SkipIgnoresRole(s: State, t: State, upTo: nat)
    requires SameButRole(s, t)
    ensures SkipMessageKeys(s, upTo).outcome == SkipMessageKeys(t, upTo).outcome
    ensures SameButRole(SkipMessageKeys(s, upTo).state, SkipMessageKeys(t, upTo).state)
  {
    hide BufferKeys;
  }

  lemma DhIgnoresRole(s: State, t: State, newRemote: PublicKey, draw: Draw)
    requires SameButRole(s, t)
    ensures DhRatchet(s, newRemote, draw).outcome == DhRatchet(t, newRemote, draw).outcome
    ensures SameButRole(DhRatchet(s, newRemote, draw).state, DhRatchet(t, newRemote, draw).state)
  {
  }

  lemma TurnIgnoresRole(s: State, t: State, header: Header, draw: Draw)
    requires SameButRole(s, t)
    ensures TurnTo(s, header, draw).outcome == TurnTo(t, header, draw).outcome
    ensures SameButRole(TurnTo(s, header, draw).state, TurnTo(t, header, draw).state)
  {
    hide SkipMessageKeys, DhRatchet;
    SkipIgnoresRole(s, t, header.pn);
    DhIgnoresRole(SkipMessageKeys(s, header.pn).state, SkipMessageKeys(t, header.pn).state, header.dh, draw);
  }

  lemma TakeIgnoresRole(s: State, t: State, dh: PublicKey, n: u32)
    requires SameButRole(s, t)
    ensures TakeMessageKey(s, dh, n).outcome == TakeMessageKey(t, dh, n).outcome
    ensures SameButRole(TakeMessageKey(s, dh, n).state, TakeMessageKey(t, dh, n).state)
  {
    hide BufferKeys;
  }

  lemma CallIgnoresRole(s: State, t: State, call: Call)
    requires SameButRole(s, t)
    ensures ReplyTo(s, call) == ReplyTo(t, call) && SameButRole(After(s, call), After(t, call))
  {
    hide TurnTo, TakeMessageKey;
    if call.DecryptCall? && call.wire.Framed? {
      var header := call.wire.header;
      TurnIgnoresRole(s, t, header, call.draw);
      TakeIgnoresRole(TurnTo(s, header, call.draw).state, TurnTo(t, header, call.draw).state, header.dh, header.n);
    }
  }

  lemma {:induction false} RunIgnoresRole(s: State, t: State, calls: seq<Call>)
    requires SameButRole(s, t)
    ensures Replies(s, calls) == Replies(t, calls)
    decreases |calls|
  {
    hide ReplyTo, After, SameButRole;
    if calls != [] {
      CallIgnoresRole(s, t, calls[0]);
      RunIgnoresRole(After(s, calls[0]), After(t, calls[0]), calls[1..]);
    }
  }

  // ---------- From bytes to states ----------

  /** What the 32-byte keys stand for. Public keys are compared as bytes, so different bytes stand for
      different values. */
  datatype Meaning = Meaning(term: Key -> Term, private: Key -> PrivateKey, public: Key -> PublicKey)
  {
    ghost predicate Faithful() { forall a: Key, b: Key :: public(a) == public(b) ==> a == b }

    function Chain(k: Option<Key>): Option<Term> { if k.Some? then Some(term(k.value)) else None }

    function SlotOf(e: Entry): Slot { Slot(public(e.remote), e.index) }
  }

  /** The state that a ratchet holding these bytes is in. */
  ghost predicate Denotes(m: Meaning, r: Restored, s: State) {
    var f := r.fields;
    && s.rk == m.term(f.rk) && s.local == m.private(f.local)
    && s.remote == (if f.remote.Some? then Some(m.public(f.remote.value)) else None)
    && s.send == m.Chain(f.send) && s.recv == m.Chain(f.recv)
    && s.ns == f.ns && s.nr == f.nr && s.pn == f.pn && s.maxSkip == f.maxSkip && s.initiator == f.initiator
    && HoldsKeys(m, r.skipped, s.skipped)
  }

  ghost predicate HoldsKeys(m: Meaning, es: seq<Entry>, skipped: map<Slot, Term>) {
    && (forall e | e in es :: m.SlotOf(e) in skipped && skipped[m.SlotOf(e)] == m.term(e.key))
    && (forall k <- skipped :: exists e :: e in es && k == m.SlotOf(e))
  }

  /** The map does not depend on the order of its entries. */
  lemma OrderOfKeys(m: Meaning, es: seq<Entry>, fs: seq<Entry>, a: map<Slot, Term>, b: map<Slot, Term>)
    requires HoldsKeys(m, es, a) && HoldsKeys(m, fs, b) && multiset(es) == multiset(fs)
    ensures a == b
  {
    forall e ensures e in es <==> e in fs { assert e in es <==> e in multiset(es); }
    forall k <- a ensures k in b && b[k] == a[k] {
      var e :| e in es && k == m.SlotOf(e);
    }
    forall k <- b ensures k in a {
      var e :| e in fs && k == m.SlotOf(e);
    }
  }

  /** Distinct slots on disk are distinct slots of the state, so every export denotes some state. */
  lemma {:induction false} SomeKeysHeld(m: Meaning, es: seq<Entry>) returns (skipped: map<Slot, Term>)
    requires m.Faithful() && DistinctSlots(es)
    ensures HoldsKeys(m, es, skipped)
  {
    skipped := map[];
    if es != [] {
      var last := es[|es| - 1];
      var front := es[..|es| - 1];
      var rest := SomeKeysHeld(m, front);
      assert es == front + [last];
      skipped := rest[m.SlotOf(last) := m.term(last.key)];
      forall e | e in es ensures m.SlotOf(e) in skipped && skipped[m.SlotOf(e)] == m.term(e.key) {
        var i :| 0 <= i < |es| && es[i] == e;
        if i < |es| - 1 { assert front[i] == e && !SameSlot(e, last); }
      }
      forall k <- skipped ensures exists e :: e in es && k == m.SlotOf(e) {
        if k in rest {
          var e :| e in front && k == m.SlotOf(e);
          assert e in es;
        } else {
          assert last in es && k == m.SlotOf(last);
        }
      }
    }
  }

  /** Export and import is a bisimulation: the restored ratchet gives, for every sequence of calls and
      the same randomness, the replies that the exported one would have given, whatever their roles. */
  lemma RestoredAnswersAlike(m: Meaning, f: Fields, es: seq<Entry>, s: State, t: State, calls: seq<Call>)
    requires DistinctSlots(es) && ENTRY_SIZE * |es| < U32_LIMIT && f.remote != Some(ZERO_KEY)
    requires f.ns < U32_LIMIT && f.nr < U32_LIMIT && f.pn < U32_LIMIT && f.maxSkip < U32_LIMIT
    requires Denotes(m, Restored(f, es), s)
    requires Restore(StateBytes(f, es)).Ok? ==> Denotes(m, Restore(StateBytes(f, es)).value, t)
    ensures Restore(StateBytes(f, es)).Ok? && SameButRole(s, t)
    ensures Replies(s, calls) == Replies(t, calls)
  {
    hide Restore, StateBytes, Replies, HoldsKeys, DistinctSlots, Sorted;
    RestoreExported(f, es);
    SortedKeeps(es);
    OrderOfKeys(m, es, Sorted(es), s.skipped, t.skipped);
    RunIgnoresRole(s, t, calls);
  }

  /** Some state holds these bytes. */
  lemma SomeStateDenoted(m: Meaning, r: Restored) returns (s: State)
    requires m.Faithful() && DistinctSlots(r.skipped)
    ensures Denotes(m, r, s)
  {
    var skipped := SomeKeysHeld(m, r.skipped);
    var f := r.fields;
    s := State(m.term(f.rk), m.private(f.local),
               if f.remote.Some? then Some(m.public(f.remote.value)) else None,
               m.Chain(f.send), m.Chain(f.recv), f.ns, f.nr, f.pn, f.maxSkip, skipped, f.initiator);
  }

  /** Every restorable ratchet has such a pair: under any faithful reading of its keys there are a state
      that the exported bytes come from and a state that they restore to, and the two answer alike. */
  lemma ExportedAndRestoredAnswerAlike(m: Meaning, f: Fields, es: seq<Entry>, calls: seq<Call>)
    returns (s: State, t: State)
    requires m.Faithful() && DistinctSlots(es) && ENTRY_SIZE * |es| < U32_LIMIT && f.remote != Some(ZERO_KEY)
    requires f.ns < U32_LIMIT && f.nr < U32_LIMIT && f.pn < U32_LIMIT && f.maxSkip < U32_LIMIT
    ensures Denotes(m, Restored(f, es), s)
    ensures Restore(StateBytes(f, es)).Ok? && Denotes(m, Restore(StateBytes(f, es)).value, t)
    ensures SameButRole(s, t) && Replies(s, calls) == Replies(t, calls)
  {
    hide Restore, StateBytes, Replies, Denotes, DistinctSlots, Sorted, AsRestored, Meaning.Faithful;
    RestoreExported(f, es);
    SortedInOrder(es);
    OrderIsDistinct(Sorted(es));
    s := SomeStateDenoted(m, Restored(f, es));
    t := SomeStateDenoted(m, Restore(StateBytes(f, es)).value);
    RestoredAnswersAlike(m, f, es, s, t, calls);
  }
}
