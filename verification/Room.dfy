/** How much room a delivery needs, seen from the channel: the buffer must hold one key for every message of
    the sender that has been overtaken, or will be, and has not been read. */
module Room {
  import opened Terms
  import opened Ratchet
  import opened SkippedKeys
  import opened TwoParty
  import opened Epochs
  import opened Synchrony

  /** A later message of the same sender has been read, or one under another ratchet key has been seen. */
  predicate Overtaken(w: World, j: nat)
    requires j < |w.log|
  {
    exists k | j < k < |w.log| ::
      w.log[k].from == w.log[j].from && (k in w.delivered || (k in w.seen && OtherKey(w.log[j].wire, w.log[k].wire)))
  }

  predicate OtherKey(a: Wire, b: Wire) { a.Framed? && b.Framed? && a.header.dh != b.header.dh }

  /** The messages of the sender that have not been read and that a delivery of message `i` overtakes, or
      earlier deliveries have overtaken. */
  ghost function Outstanding(w: World, i: nat): set<nat>
    requires i < |w.log|
  {
    set j: nat | j < |w.log| && w.log[j].from == w.log[i].from && j !in w.delivered && (j < i || Overtaken(w, j))
  }

  // ---------- Counting slots ----------

  function SlotIn(log: seq<Sent>, j: nat): Slot
    requires j < |log| && log[j].wire.Framed?
  {
    Slot(log[j].wire.header.dh, log[j].wire.header.n)
  }

  ghost function SlotsIn(log: seq<Sent>, positions: set<nat>): set<Slot>
    requires forall j <- positions :: j < |log| && log[j].wire.Framed?
  {
    set j | j in positions :: SlotIn(log, j)
  }

  lemma {:induction false} SlotsCount(log: seq<Sent>, positions: set<nat>)
    requires forall j <- positions :: j < |log| && log[j].wire.Framed?
    requires forall i, j | i in positions && j in positions && i != j :: SlotIn(log, i) != SlotIn(log, j)
    ensures |SlotsIn(log, positions)| == |positions|
    decreases |positions|
  {
    if positions != {} {
      var j :| j in positions;
      SlotsCount(log, positions - {j});
      assert SlotsIn(log, positions) == SlotsIn(log, positions - {j}) + {SlotIn(log, j)};
    }
  }

  ghost function Range(dh: PublicKey, low: nat, high: nat): set<Slot> {
    set n: nat | low <= n < high :: Slot(dh, n)
  }

  lemma {:induction false} RangeCount(dh: PublicKey, low: nat, high: nat)
    ensures |Range(dh, low, high)| == if low < high then high - low else 0
    decreases high
  {
    if low < high {
      RangeCount(dh, low, high - 1);
      assert Range(dh, low, high) == Range(dh, low, high - 1) + {Slot(dh, high - 1)};
    }
  }

  // ---------- Overtaken is in reach ----------

  /** What the lemmas below know of a party that receives: the peer's epochs, the log and the buffer. */
  ghost predicate Receiving(w: World, p: Plan, q: Party) {
    InStep(w, p) && EpochsOk(p.es) && PartyAt(p.es, p.Own(q), w.Of(q), p.done) && |p.epochs| == |w.log|
    && forall k | 0 <= k < |w.log| :: w.log[k].wire.Framed?
  }

  lemma StartsReceiving(w: World, p: Plan, q: Party)
    requires InStep(w, p)
    ensures Receiving(w, p, q)
  {
    hide InStep, PartyAt, EpochsOk;
    PartiesOf(w, p, q);
    LogSize(w, p);
    AllFramed(w, p);
  }

  lemma AllFramed(w: World, p: Plan)
    requires InStep(w, p)
    ensures forall k | 0 <= k < |w.log| :: w.log[k].wire.Framed?
  {
    hide PartyAt, LogOk, LogOrdered, SeenOk, AllLogged, EpochsOk;
  }

  ghost predicate Reaches(w: World, p: Plan, q: Party, j: nat)
    requires j < |w.log| && j < |p.epochs| && w.log[j].wire.Framed?
  {
    InReach(p.es, p.Own(q), w.Of(q).nr, p.IndexOf(w.log, j))
  }

  /** Where a message of the peer stands in the epochs. */
  lemma Stands(w: World, p: Plan, q: Party, j: nat)
    requires Receiving(w, p, q) && j < |w.log| && w.log[j].from == Peer(q)
    ensures ReceiveEpoch(p.Own(q)) < |p.es|
    ensures var x := p.IndexOf(w.log, j);
            var r := ReceiveEpoch(p.Own(q));
            && Made(p.es, x) && x.epoch % 2 == r % 2 && SlotIn(w.log, j) == SlotOf(p.es, x)
            && (j in w.delivered <==> x in p.done)
            && (x.epoch > r ==> x.epoch == r + 2 && 0 < p.Own(q) && p.Own(q) + 2 == |p.es|
                                && x.epoch == p.Own(q) + 1)
            && (Reaches(w, p, q, j) <==> x.epoch < r || (x.epoch == r && x.n < w.Of(q).nr))
  {
    hide InStep, PartyAt, EpochsOk, EntryOk;
    EntryFacts(w, p, j);
    EntryFramed(p.es, p.epochs[j], w.log[j]);
  }

  lemma Ordered(w: World, p: Plan, q: Party, i: nat, j: nat)
    requires Receiving(w, p, q) && i < |w.log| && j < |w.log| && w.log[i].from == w.log[j].from == Peer(q)
    ensures var x, y := p.IndexOf(w.log, i), p.IndexOf(w.log, j);
            && (i < j <==> x.epoch < y.epoch || (x.epoch == y.epoch && x.n < y.n))
            && (w.log[i].wire.header.dh != w.log[j].wire.header.dh <==> x.epoch != y.epoch)
            && (i != j ==> SlotIn(w.log, i) != SlotIn(w.log, j))
  {
    hide InStep, PartyAt, EpochsOk, EntryOk;
    EntryFacts(w, p, i);
    EntryFacts(w, p, j);
    LaterInLog(w, p, i, j);
    LaterInLog(w, p, j, i);
  }

  lemma LoggedAt(w: World, p: Plan, q: Party, x: Index) returns (j: nat)
    requires Receiving(w, p, q) && Made(p.es, x) && x.epoch % 2 == ReceiveEpoch(p.Own(q)) % 2
    ensures j < |w.log| && w.log[j].from == Peer(q) && p.IndexOf(w.log, j) == x
  {
    hide InStep, PartyAt, EpochsOk, EntryOk, AllLogged, Made;
    DonePart(w, p);
    j := LoggedIndex(p.es, p.epochs, w.log, x);
    EntryFacts(w, p, j);
    SenderIs(w, p, q, j);
  }

  lemma LoggedIndex(es: seq<Epoch>, epochs: seq<nat>, log: seq<Sent>, x: Index) returns (j: nat)
    requires AllLogged(es, epochs, log) && Made(es, x)
    ensures j < |log| && j < |epochs| && log[j].wire.Framed? && x == Index(epochs[j], log[j].wire.header.n)
  {
    assert Logged(epochs, log, x);
    j :| 0 <= j < |log| && j < |epochs| && log[j].wire.Framed? && x == Index(epochs[j], log[j].wire.header.n);
  }

  lemma SenderIs(w: World, p: Plan, q: Party, j: nat)
    requires Receiving(w, p, q) && j < |w.log| && p.epochs[j] % 2 == ReceiveEpoch(p.Own(q)) % 2
    ensures w.log[j].from == Peer(q)
  {
    hide InStep, PartyAt, EpochsOk, EntryOk;
    EntryFacts(w, p, j);
  }

  lemma DoneReaches(w: World, p: Plan, q: Party, j: nat)
    requires Receiving(w, p, q) && j < |w.log| && w.log[j].from == Peer(q) && j in w.delivered
    ensures Reaches(w, p, q, j)
  {
    hide InStep, EpochsOk, Placed, InReach, Held, Justified;
    Stands(w, p, q, j);
  }

  /** A message that has not been read is overtaken exactly when its key is in the receiver's reach. */
  lemma OvertakenReaches(w: World, p: Plan, q: Party, j: nat)
    requires Receiving(w, p, q) && j < |w.log| && w.log[j].from == Peer(q) && j !in w.delivered
    ensures Overtaken(w, j) <==> Reaches(w, p, q, j)
  {
    hide InStep, PartyAt, EpochsOk, Reaches, Overtaken;
    if Overtaken(w, j) { OvertakenIsReached(w, p, q, j); }
    if Reaches(w, p, q, j) { ReachedIsOvertaken(w, p, q, j); }
  }

  lemma OvertakenIsReached(w: World, p: Plan, q: Party, j: nat)
    requires Receiving(w, p, q) && j < |w.log| && w.log[j].from == Peer(q) && Overtaken(w, j)
    ensures Reaches(w, p, q, j)
  {
    hide InStep, PartyAt, EpochsOk, Reaches;
    var k :| j < k < |w.log| && w.log[k].from == w.log[j].from
             && (k in w.delivered || (k in w.seen && OtherKey(w.log[j].wire, w.log[k].wire)));
    Stands(w, p, q, j);
    Stands(w, p, q, k);
    Ordered(w, p, q, j, k);
    if k in w.delivered { DoneReaches(w, p, q, k); } else { SeenInReach(w, p, k); }
  }

  lemma ReachedIsOvertaken(w: World, p: Plan, q: Party, j: nat)
    requires Receiving(w, p, q) && j < |w.log| && w.log[j].from == Peer(q) && j !in w.delivered
    requires Reaches(w, p, q, j)
    ensures Overtaken(w, j)
  {
    hide InStep, PartyAt, EpochsOk, Reaches, Superseded;
    Stands(w, p, q, j);
    SupersededEpoch(w, p, j);
    if p.epochs[j] < ReceiveEpoch(p.Own(q)) {
      SupersededIsOvertaken(w, j);
    } else {
      var k := LastRead(w, p, q);
      Stands(w, p, q, k);
      Ordered(w, p, q, j, k);
    }
  }

  lemma SupersededIsOvertaken(w: World, j: nat)
    requires j < |w.log| && w.log[j].wire.Framed? && Superseded(w, j)
    ensures Overtaken(w, j)
  {
    var k :| k in w.seen && j < k < |w.log| && w.log[k].from == w.log[j].from && w.log[k].wire.Framed?
             && w.log[k].wire.header.dh != w.log[j].wire.header.dh;
  }

  /** The message at the index just below the receive position has been read. */
  lemma LastRead(w: World, p: Plan, q: Party) returns (k: nat)
    requires Receiving(w, p, q) && w.Of(q).nr > 0
    ensures k < |w.log| && k in w.delivered && w.log[k].from == Peer(q)
    ensures p.IndexOf(w.log, k) == Index(ReceiveEpoch(p.Own(q)), w.Of(q).nr - 1)
  {
    hide InStep, BufferOk, Linked;
    PartiesOf(w, p, q);
    k := LoggedAt(w, p, q, Index(ReceiveEpoch(p.Own(q)), w.Of(q).nr - 1));
    Stands(w, p, q, k);
  }

  // ---------- The slots of what is outstanding ----------

  /** The slots that a delivery of the message passes. */
  ghost function GapSlots(es: seq<Epoch>, r: nat, nr: nat, x: Index): set<Slot>
    requires r < |es| && x.epoch < |es|
  {
    if x.epoch == r then Range(PublicOf(es[r].key), nr, x.n)
    else Range(PublicOf(es[r].key), nr, es[r].sent) + Range(PublicOf(es[x.epoch].key), 0, x.n)
  }

  ghost predicate Awaited(w: World, p: Plan, q: Party, i: nat) {
    && Receiving(w, p, q) && i < |w.log| && w.log[i].from == Peer(q)
    && ReceiveEpoch(p.Own(q)) <= p.epochs[i] < |p.es| && ReceiveEpoch(p.Own(q)) < |p.es|
  }

  lemma OutstandingHasSlot(w: World, p: Plan, q: Party, i: nat, j: nat)
    requires Awaited(w, p, q, i) && j in Outstanding(w, i)
    ensures SlotIn(w.log, j) in w.Of(q).skipped.Keys
                                + GapSlots(p.es, ReceiveEpoch(p.Own(q)), w.Of(q).nr, p.IndexOf(w.log, i))
  {
    hide InStep, PartyAt, EpochsOk, Reaches, Overtaken;
    Stands(w, p, q, i);
    Stands(w, p, q, j);
    OvertakenReaches(w, p, q, j);
    if Reaches(w, p, q, j) {
      ReachedIsHeld(w, p, q, j);
    } else {
      Ordered(w, p, q, j, i);
    }
  }

  lemma ReachedIsHeld(w: World, p: Plan, q: Party, j: nat)
    requires Receiving(w, p, q) && j < |w.log| && w.log[j].from == Peer(q) && Reaches(w, p, q, j)
    ensures j !in w.delivered ==> SlotIn(w.log, j) in w.Of(q).skipped
    ensures j in w.delivered ==> SlotIn(w.log, j) !in w.Of(q).skipped
  {
    hide InStep, EpochsOk, Placed, InReach, Justified;
    Stands(w, p, q, j);
  }

  lemma HeldIsOutstanding(w: World, p: Plan, q: Party, i: nat, k: Slot)
    requires Awaited(w, p, q, i) && k in w.Of(q).skipped
    ensures k in SlotsIn(w.log, Outstanding(w, i))
  {
    hide InStep, PartyAt, EpochsOk, Reaches, Overtaken;
    var x := HeldIndex(w, p, q, k);
    var j := LoggedAt(w, p, q, x);
    Stands(w, p, q, j);
    ReachedIsHeld(w, p, q, j);
    OvertakenReaches(w, p, q, j);
    assert j in Outstanding(w, i);
  }

  lemma HeldIndex(w: World, p: Plan, q: Party, k: Slot) returns (x: Index)
    requires Receiving(w, p, q) && k in w.Of(q).skipped && ReceiveEpoch(p.Own(q)) < |p.es|
    ensures Made(p.es, x) && x.epoch % 2 == ReceiveEpoch(p.Own(q)) % 2 && k == SlotOf(p.es, x)
    ensures x.epoch < ReceiveEpoch(p.Own(q)) || (x.epoch == ReceiveEpoch(p.Own(q)) && x.n < w.Of(q).nr)
  {
    hide InStep, Linked, Justified, Held;
    x := IndexOfSlot(p.es, p.Own(q), w.Of(q).nr, k);
  }

  lemma GapIsOutstanding(w: World, p: Plan, q: Party, i: nat, k: Slot)
    requires Awaited(w, p, q, i)
    requires k in GapSlots(p.es, ReceiveEpoch(p.Own(q)), w.Of(q).nr, p.IndexOf(w.log, i))
    ensures k in SlotsIn(w.log, Outstanding(w, i)) && k !in w.Of(q).skipped
  {
    hide InStep, PartyAt, EpochsOk, Reaches, Overtaken;
    FirstEpochIsEmpty(p.es);
    Stands(w, p, q, i);
    var r := ReceiveEpoch(p.Own(q));
    var x := if k.dh == PublicOf(p.es[r].key) && w.Of(q).nr <= k.n < p.es[r].sent then Index(r, k.n)
             else Index(p.epochs[i], k.n);
    var j := LoggedAt(w, p, q, x);
    Stands(w, p, q, j);
    if j in w.delivered { DoneReaches(w, p, q, j); }
    Ordered(w, p, q, j, i);
    assert j in Outstanding(w, i);
    UnreachedIsUnheld(w, p, q, j);
  }

  lemma UnreachedIsUnheld(w: World, p: Plan, q: Party, j: nat)
    requires Receiving(w, p, q) && j < |w.log| && w.log[j].from == Peer(q) && !Reaches(w, p, q, j)
    ensures SlotIn(w.log, j) !in w.Of(q).skipped
  {
    hide InStep, EpochsOk, Placed, BufferOk;
    Stands(w, p, q, j);
    NotYetBuffered(p.es, p.Own(q), w.Of(q).nr, w.Of(q).skipped, p.done, p.IndexOf(w.log, j));
  }

  // ---------- The count ----------

  lemma SlotsAreOutstanding(w: World, p: Plan, q: Party, i: nat)
    requires Awaited(w, p, q, i)
    ensures var gap := GapSlots(p.es, ReceiveEpoch(p.Own(q)), w.Of(q).nr, p.IndexOf(w.log, i));
            && SlotsIn(w.log, Outstanding(w, i)) == w.Of(q).skipped.Keys + gap
            && w.Of(q).skipped.Keys !! gap
  {
    hide InStep, PartyAt, EpochsOk, Outstanding, GapSlots;
    OutstandingIsLogged(w, p, q, i);
    var gap := GapSlots(p.es, ReceiveEpoch(p.Own(q)), w.Of(q).nr, p.IndexOf(w.log, i));
    forall k | k in SlotsIn(w.log, Outstanding(w, i)) ensures k in w.Of(q).skipped.Keys + gap {
      var j :| j in Outstanding(w, i) && k == SlotIn(w.log, j);
      OutstandingHasSlot(w, p, q, i, j);
    }
    forall k | k in gap ensures k in SlotsIn(w.log, Outstanding(w, i)) && k !in w.Of(q).skipped {
      GapIsOutstanding(w, p, q, i, k);
    }
    forall k | k in w.Of(q).skipped ensures k in SlotsIn(w.log, Outstanding(w, i)) {
      HeldIsOutstanding(w, p, q, i, k);
    }
  }

  lemma OutstandingIsLogged(w: World, p: Plan, q: Party, i: nat)
    requires Awaited(w, p, q, i)
    ensures forall j <- Outstanding(w, i) :: j < |w.log| && w.log[j].wire.Framed? && w.log[j].from == Peer(q)
  {
    hide InStep, PartyAt, EpochsOk, Overtaken;
  }

  lemma GapCount(w: World, p: Plan, q: Party, i: nat)
    requires Awaited(w, p, q, i)
    ensures |GapSlots(p.es, ReceiveEpoch(p.Own(q)), w.Of(q).nr, p.IndexOf(w.log, i))|
         == Needed(w.Of(q), w.log[i].wire.header)
  {
    hide InStep, EntryOk, BufferOk, EpochsOk, Range;
    Stands(w, p, q, i);
    EntryFacts(w, p, i);
    EntryFramed(p.es, p.epochs[i], w.log[i]);
    var s, r, x := w.Of(q), ReceiveEpoch(p.Own(q)), p.IndexOf(w.log, i);
    if x.epoch == r {
      RangeCount(PublicOf(p.es[r].key), s.nr, x.n);
      BufferedOrNot(p.es, p.Own(q), s.nr, s.skipped, p.done, x);
    } else {
      NextKeyIsOther(p.es, p.Own(q), s, w.log[i].wire.header);
      RangeCount(PublicOf(p.es[r].key), s.nr, p.es[r].sent);
      RangeCount(PublicOf(p.es[x.epoch].key), 0, x.n);
      OtherEpochOtherKey(p.es, r, x.epoch);
      RangesApart(PublicOf(p.es[r].key), s.nr, p.es[r].sent, PublicOf(p.es[x.epoch].key), 0, x.n);
    }
  }

  lemma RangesApart(d: PublicKey, a: nat, b: nat, e: PublicKey, f: nat, g: nat)
    requires d != e
    ensures |Range(d, a, b) + Range(e, f, g)| == |Range(d, a, b)| + |Range(e, f, g)|
  {
    assert Range(d, a, b) !! Range(e, f, g);
  }

  // ---------- The theorems ----------

  /** The keys that the buffer holds and those that the delivery adds are, one for one, the messages of the
      sender that are outstanding. */
  lemma RoomIsOutstanding(w: World, i: nat)
    requires Reachable(w) && i < |w.log| && w.log[i].wire.Framed? && !Superseded(w, i)
    ensures var s := w.Of(Peer(w.log[i].from));
            |s.skipped| + Needed(s, w.log[i].wire.header) == |Outstanding(w, i)|
  {
    hide Reachable, InStep, PartyAt, EpochsOk, EntryOk, Superseded, Outstanding, Needed, GapSlots;
    var p := ReachableInStep(w);
    var q := Peer(w.log[i].from);
    StartsReceiving(w, p, q);
    EntryFacts(w, p, i);
    SupersededEpoch(w, p, i);
    EntryFramed(p.es, p.epochs[i], w.log[i]);
    SlotsAreOutstanding(w, p, q, i);
    GapCount(w, p, q, i);
    OutstandingIsLogged(w, p, q, i);
    forall a, b | a in Outstanding(w, i) && b in Outstanding(w, i) && a != b
      ensures SlotIn(w.log, a) != SlotIn(w.log, b)
    {
      Ordered(w, p, q, a, b);
    }
    SlotsCount(w.log, Outstanding(w, i));
  }

  /** A first delivery that is not superseded gives the plaintext if and only if there are no more messages
      outstanding than `maxSkip`. */
  lemma ReadExactlyIfOutstandingFits(w: World, i: nat)
    requires Reachable(w) && i < |w.log| && w.log[i].wire.Framed? && !Superseded(w, i) && i !in w.delivered
    ensures Delivering(w, i).outcome == Ok(w.log[i].plaintext)
       <==> |Outstanding(w, i)| <= w.Of(Peer(w.log[i].from)).maxSkip
  {
    hide Reachable, Superseded, Outstanding, Needed, Delivering;
    RoomIsOutstanding(w, i);
    DeliveryIsCorrect(w, i);
  }

  /** In order, every message is read, also by a ratchet whose buffer takes no key: a first delivery when all
      earlier messages of the sender have been read and none later has been seen. */
  lemma InOrderIsRead(w: World, i: nat)
    requires Reachable(w) && i < |w.log| && w.log[i].wire.Framed? && i !in w.delivered
    requires forall j | 0 <= j < i && w.log[j].from == w.log[i].from :: j in w.delivered
    requires forall k | i < k < |w.log| && w.log[k].from == w.log[i].from :: k !in w.delivered && k !in w.seen
    ensures Delivering(w, i).outcome == Ok(w.log[i].plaintext)
  {
    hide Reachable, Delivering;
    assert Outstanding(w, i) == {};
    ReadExactlyIfOutstandingFits(w, i);
  }
}
