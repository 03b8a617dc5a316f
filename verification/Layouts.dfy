/** Where everything stands in the bytes that are sent and stored, and exactly which bytes are accepted: the numbers
    that another implementation has to agree on. */
module Layouts {
  import opened Terms
  import opened Bytes
  import opened SkipOrder
  import R = Ratchet
  import W = WireCodec
  import C = StateCodec
  import T = StateRoundTrip
  import F = InitFrames
  import D = DeviceKeyPayload

  /** The number in four bytes, the most significant first. */
  function BigEndian(b: seq<byte>): nat
    requires |b| == 4
  {
    var b0: nat, b1: nat, b2: nat, b3: nat := b[0], b[1], b[2], b[3];
    ((b0 * 256 + b1) * 256 + b2) * 256 + b3
  }

  /** Four bytes from `at` on are this number modulo 2^32. */
  predicate Counter(raw: seq<byte>, at: nat, n: nat) {
    at + 4 <= |raw| && BigEndian(raw[at..at + 4]) == n % 4294967296
  }

  lemma BytesCount(n: nat)
    ensures BigEndian(U32Bytes(ToU32(n))) == n % 4294967296
  {
    hide U32Bytes;
    U32RoundTrip(ToU32(n));
  }

  predicate Zero(raw: seq<byte>, low: nat, high: nat) {
    low <= high <= |raw| && forall i | low <= i < high :: raw[i] == 0
  }

  // ---------- Ratchet messages ----------

  /** A message: version, ratchet key, previous count, index, ciphertext. */
  lemma MessageLayout(h: W.WireHeader, ciphertext: seq<byte>)
    requires |h.dh| == 32
    ensures var raw := W.MessageBytes(h, ciphertext);
            && |raw| == 41 + |ciphertext| && raw[0] == h.version % 256 && raw[1..33] == h.dh
            && Counter(raw, 33, h.pn) && Counter(raw, 37, h.n) && raw[41..] == ciphertext
  {
    hide U32Bytes, BigEndian;
    var raw := W.MessageBytes(h, ciphertext);
    assert raw[33..37] == U32Bytes(ToU32(h.pn)) && raw[37..41] == U32Bytes(ToU32(h.n));
    BytesCount(h.pn);
    BytesCount(h.n);
  }

  /** Bytes are a message if and only if there is room for the header and a tag and the version is 1. */
  lemma MessageAcceptedExactly(raw: seq<byte>)
    ensures var r := W.UnpackMessage(raw);
            if |raw| < 57 then r == Err(R.Malformed)
            else if raw[0] != 1 then r == Err(R.UnsupportedVersion)
            else r.Ok?
  {
  }

  lemma {:induction false} Base16Join(a: seq<byte>, b: seq<byte>)
    ensures W.Base16(a + b) == W.Base16(a) + W.Base16(b)
  {
    hide W.Base16, TwoDigits;
    if a == [] {
      assert a + b == b;
      NoDigits(b);
    } else {
      Base16Join(a[1..], b);
      assert (a + b)[1..] == a[1..] + b;
      FirstDigits(a);
      FirstDigits(a + b);
      Three(TwoDigits(a[0]), W.Base16(a[1..]), W.Base16(b));
    }
  }

  function TwoDigits(b: byte): string { [W.HEX[b / 16], W.HEX[b % 16]] }

  lemma FirstDigits(a: seq<byte>)
    requires a != []
    ensures W.Base16(a) == TwoDigits(a[0]) + W.Base16(a[1..])
  {
  }

  lemma NoDigits(b: seq<byte>)
    ensures W.Base16([]) + W.Base16(b) == W.Base16(b)
  {
  }

  lemma Three(a: string, b: string, c: string)
    ensures a + (b + c) == a + b + c
  {
  }

  lemma {:induction false} Base16Size(a: seq<byte>)
    ensures |W.Base16(a)| == 2 * |a|
  {
    hide W.Base16, TwoDigits;
    if a == [] { NoDigits([]); } else {
      FirstDigits(a);
      TwoDigitsAre(a[0]);
      Base16Size(a[1..]);
    }
  }

  lemma TwoDigitsAre(b: byte)
    ensures |TwoDigits(b)| == 2
  {
  }

  /** The string that a skipped key is kept under: the remote key and then the index, in hexadecimal. */
  lemma SkipKeyLayout(remote: Key, index: u32)
    ensures var k := W.SkipKey(remote, index);
            && |k| == 72 && k[..64] == W.Base16(remote)
            && exists b: seq<byte> :: |b| == 4 && k[64..] == W.Base16(b) && BigEndian(b) == index
  {
    hide U32Bytes, BigEndian, W.Base16;
    Base16Join(remote, U32Bytes(index));
    Base16Size(remote);
    Base16Size(U32Bytes(index));
    BytesCount(index);
    var k := W.SkipKey(remote, index);
    assert k[64..] == W.Base16(U32Bytes(index));
  }

  // ---------- Exported state ----------

  /** The header of an exported ratchet, and its chains. What is absent is zero. */
  lemma StateLayout(f: C.Fields, es: seq<Entry>)
    ensures var raw := C.StateBytes(f, es);
            && |raw| == 183 + 68 * |es| && raw[0] == 1
            && raw[1] == (if f.send.Some? then 1 else 0) && raw[98] == (if f.recv.Some? then 1 else 0)
            && raw[2..34] == f.rk && raw[34..66] == f.local
            && (if f.remote.Some? then raw[66..98] == f.remote.value else Zero(raw, 66, 98))
            && Counter(raw, 99, f.ns) && Counter(raw, 103, f.nr) && Counter(raw, 107, f.pn)
            && Counter(raw, 111, f.maxSkip)
            && (if f.send.Some? then raw[115..147] == f.send.value else Zero(raw, 115, 147))
            && (if f.recv.Some? then raw[147..179] == f.recv.value else Zero(raw, 147, 179))
            && Counter(raw, 179, 68 * |es|)
  {
    hide U32Bytes, BigEndian, C.EntriesBytes, Sorted, ToU32, C.KeyOrZero, Zero;
    var raw := C.StateBytes(f, es);
    SortedKeeps(es);
    var blob := C.EntriesBytes(Sorted(es));
    T.HeaderSlices(f, C.BodyPart(f, blob));
    T.BodySlices(f, blob);
    assert raw[115..147] == raw[115..][..32] && raw[147..179] == raw[115..][32..64];
    assert raw[179..183] == raw[115..][64..68];
    BytesCount(f.ns);
    BytesCount(f.nr);
    BytesCount(f.pn);
    BytesCount(f.maxSkip);
    BytesCount(|blob|);
    KeyAt(raw, 66, f.remote);
    KeyAt(raw, 115, f.send);
    KeyAt(raw, 147, f.recv);
  }

  lemma KeyAt(raw: seq<byte>, at: nat, k: Option<Key>)
    requires at + 32 <= |raw| && raw[at..at + 32] == C.KeyOrZero(k)
    ensures if k.Some? then raw[at..at + 32] == k.value else Zero(raw, at, at + 32)
  {
    if k.None? {
      forall i | at <= i < at + 32 ensures raw[i] == 0 { assert raw[i] == raw[at..at + 32][i - at]; }
    }
  }

  /** The skipped keys of an exported ratchet: 68 bytes each, remote key, index, message key, in the order of
      `SkipOrder.SortedByKeyThenIndex`. */
  lemma EntryLayout(f: C.Fields, es: seq<Entry>, i: nat)
    requires i < |es|
    ensures |Sorted(es)| == |es|
    ensures var raw, e, at := C.StateBytes(f, es), Sorted(es)[i], 183 + 68 * i;
            && at + 68 <= |raw|
            && raw[at..at + 32] == e.remote && Counter(raw, at + 32, e.index) && raw[at + 36..at + 68] == e.key
  {
    hide U32Bytes, BigEndian, C.EntriesBytes, Sorted, C.HeaderPart, C.BodyPart, C.FieldsAt;
    SortedKeeps(es);
    var sorted := Sorted(es);
    var blob := C.EntriesBytes(sorted);
    T.FieldsRoundTrip(f, blob);
    EntriesAt(sorted, i);
    BytesCount(sorted[i].index);
    var raw, at := C.StateBytes(f, es), 68 * i;
    assert raw[183..] == blob;
    D.SliceOfTail(raw, 183, at, at + 68);
    EntrySlices(sorted[i]);
    SliceOfSlice(raw, 183 + at, 0, 32);
    SliceOfSlice(raw, 183 + at, 32, 36);
    SliceOfSlice(raw, 183 + at, 36, 68);
  }

  lemma SliceOfSlice(raw: seq<byte>, at: nat, low: nat, high: nat)
    requires low <= high <= 68 && at + 68 <= |raw|
    ensures raw[at..at + 68][low..high] == raw[at + low..at + high]
  {
    var a, b := raw[at..at + 68][low..high], raw[at + low..at + high];
    assert |a| == |b| && forall i | 0 <= i < |a| :: a[i] == b[i];
  }

  lemma EntrySlices(e: Entry)
    ensures var b := C.EntryBytes(e); b[0..32] == e.remote && b[32..36] == U32Bytes(e.index) && b[36..68] == e.key
  {
    hide U32Bytes;
  }

  lemma {:induction false} EntriesAt(es: seq<Entry>, i: nat)
    requires i < |es|
    ensures var b := C.EntriesBytes(es); 68 * i + 68 <= |b| && b[68 * i..68 * i + 68] == C.EntryBytes(es[i])
  {
    hide C.EntryBytes;
    var first, rest := C.EntryBytes(es[0]), C.EntriesBytes(es[1..]);
    if i > 0 {
      EntriesAt(es[1..], i - 1);
      SliceBehind(first, rest, 68 * (i - 1), 68 * i);
    } else {
      assert (first + rest)[0..68] == first;
    }
  }

  lemma SliceBehind(first: seq<byte>, rest: seq<byte>, low: nat, high: nat)
    requires low <= high <= |rest|
    ensures (first + rest)[|first| + low..|first| + high] == rest[low..high]
  {
  }

  // ---------- Import ----------

  lemma CountAt(raw: seq<byte>, at: nat)
    requires at + 4 <= |raw|
    ensures U32At(raw, at) == BigEndian(raw[at..at + 4])
  {
  }

  lemma {:induction false} ReadEntriesExactly(b: seq<byte>, acc: seq<Entry>)
    ensures var r := C.ReadEntries(b, acc);
            if |b| % 68 == 0 then r.Ok? else r == Err(C.StateTruncatedSkip)
    decreases |b|
  {
    hide C.Put, C.EntryAt;
    if |b| >= 68 { ReadEntriesExactly(b[68..], C.Put(acc, C.EntryAt(b))); }
  }

  /** Which bytes are an exported state, and what is wrong with the others. */
  lemma StateAcceptedExactly(raw: seq<byte>)
    ensures var r := C.Restore(raw);
            if |raw| < 115 then r == Err(C.StateMalformed)
            else if raw[0] != 1 then r == Err(C.StateUnsupportedVersion)
            else if |raw| < 183 || BigEndian(raw[179..183]) != |raw| - 183 then r == Err(C.StateMalformed)
            else if (|raw| - 183) % 68 != 0 then r == Err(C.StateTruncatedSkip)
            else r.Ok?
  {
    hide C.ReadEntries, BigEndian;
    if |raw| >= 183 {
      CountAt(raw, 179);
      ReadEntriesExactly(raw[183..], []);
    }
  }

  /** The fields of an imported state. A flag counts only when it is 1, and 32 zero bytes are no remote key. */
  lemma RestoredFields(raw: seq<byte>)
    requires C.Restore(raw).Ok?
    ensures |raw| >= 183
    ensures var f := C.Restore(raw).value.fields;
            && f.rk == raw[2..34] && f.local == raw[34..66]
            && (if Zero(raw, 66, 98) then f.remote == None else f.remote == Some(raw[66..98]))
            && (if raw[1] == 1 then f.send == Some(raw[115..147]) else f.send == None)
            && (if raw[98] == 1 then f.recv == Some(raw[147..179]) else f.recv == None)
            && f.ns == BigEndian(raw[99..103]) && f.nr == BigEndian(raw[103..107])
            && f.pn == BigEndian(raw[107..111]) && f.maxSkip == BigEndian(raw[111..115])
            && (f.initiator <==> raw[1] == 1 && raw[98] != 1)
  {
    hide C.ReadEntries, BigEndian, U32At;
    CountAt(raw, 99);
    CountAt(raw, 103);
    CountAt(raw, 107);
    CountAt(raw, 111);
    C.AllZeroIsZeroKey(raw[66..98]);
    if Zero(raw, 66, 98) { assert forall i | 0 <= i < 32 :: raw[66..98][i] == raw[66 + i]; }
    if C.AllZero(raw[66..98]) { assert forall i | 66 <= i < 98 :: raw[i] == raw[66..98][i - 66]; }
  }

  // ---------- The imported map ----------

  /** The entries that the bytes hold, one after the other. */
  function Chunks(b: seq<byte>): (es: seq<Entry>)
    ensures |es| == |b| / 68
  {
    if |b| < 68 then [] else [Entry(b[..32], U32At(b, 32), b[36..68])] + Chunks(b[68..])
  }

  /** Entry `j` of the map is the last one put in for its slot. */
  ghost predicate IsLast(e: Entry, put: seq<Entry>) {
    exists i | 0 <= i < |put| :: put[i] == e && forall k | i < k < |put| :: !SameSlot(put[k], e)
  }

  /** The slot of `a` was put in before the one of `b`. */
  ghost predicate CameFirst(a: Entry, b: Entry, put: seq<Entry>) {
    exists i | 0 <= i < |put| :: SameSlot(put[i], a) && forall k | 0 <= k <= i :: !SameSlot(put[k], b)
  }

  ghost predicate HasSlot(es: seq<Entry>, e: Entry) { exists j | 0 <= j < |es| :: SameSlot(es[j], e) }

  /** The map after these entries were put in: every slot once, with the value put in last, in the order in which
      the slots came first. */
  ghost predicate IsMapOf(es: seq<Entry>, put: seq<Entry>) {
    && DistinctSlots(es)
    && (forall i | 0 <= i < |put| :: HasSlot(es, put[i]))
    && (forall j | 0 <= j < |es| :: IsLast(es[j], put))
    && (forall j, k | 0 <= j < k < |es| :: CameFirst(es[j], es[k], put))
  }

  lemma {:induction false} PutPlaces(es: seq<Entry>, e: Entry) returns (i: nat)
    ensures i <= |es| && (forall j | 0 <= j < i :: !SameSlot(es[j], e))
    ensures if i < |es| then SameSlot(es[i], e) && C.Put(es, e) == es[i := e] else C.Put(es, e) == es + [e]
  {
    if es == [] || SameSlot(es[0], e) {
      i := 0;
      if es != [] { assert es[0 := e] == [e] + es[1..]; }
    } else {
      var rest := PutPlaces(es[1..], e);
      i := rest + 1;
      assert forall j | 0 < j < |es| :: es[j] == es[1..][j - 1];
      assert es == [es[0]] + es[1..];
      if i < |es| { assert es[i := e] == [es[0]] + es[1..][rest := e]; }
    }
  }

  lemma PutKeepsMap(es: seq<Entry>, put: seq<Entry>, e: Entry)
    requires IsMapOf(es, put)
    ensures IsMapOf(C.Put(es, e), put + [e])
  {
    hide IsMapOf, C.Put, DistinctSlots, HasSlot, IsLast, CameFirst;
    var i := PutPlaces(es, e);
    var after, more := C.Put(es, e), put + [e];
    MapParts(es, put);
    DistinctAfter(es, e, i, after);
    forall k | 0 <= k < |more| ensures HasSlot(after, more[k]) {
      if k < |put| { SlotKept(es, e, i, after, put[k]); } else { SlotAdded(es, e, i, after); }
    }
    forall j | 0 <= j < |after| ensures IsLast(after[j], more) {
      if j == i { LastNow(put, e); } else { DistinctFrom(es, e, i, j); LastStill(es[j], put, e); }
    }
    forall j, k | 0 <= j < k < |after| ensures CameFirst(after[j], after[k], more) {
      if k < |es| {
        FirstStill(es[j], es[k], put, e);
        FirstSlots(es[j], es[k], after[j], after[k], more);
      } else {
        NewComesLast(es, put, e, i, j);
      }
    }
    MapFrom(after, more);
  }

  lemma MapParts(es: seq<Entry>, put: seq<Entry>)
    requires IsMapOf(es, put)
    ensures DistinctSlots(es)
    ensures forall i | 0 <= i < |put| :: HasSlot(es, put[i])
    ensures forall j | 0 <= j < |es| :: IsLast(es[j], put)
    ensures forall j, k | 0 <= j < k < |es| :: CameFirst(es[j], es[k], put)
  {
  }

  lemma MapFrom(es: seq<Entry>, put: seq<Entry>)
    requires DistinctSlots(es)
    requires forall i | 0 <= i < |put| :: HasSlot(es, put[i])
    requires forall j | 0 <= j < |es| :: IsLast(es[j], put)
    requires forall j, k | 0 <= j < k < |es| :: CameFirst(es[j], es[k], put)
    ensures IsMapOf(es, put)
  {
  }

  /** `e` goes to place `i`: over its own slot, or behind all others. */
  ghost predicate GoesTo(es: seq<Entry>, e: Entry, i: nat, after: seq<Entry>) {
    && i <= |es| && (forall j | 0 <= j < i :: !SameSlot(es[j], e))
    && (if i < |es| then SameSlot(es[i], e) && after == es[i := e] else after == es + [e])
  }

  lemma DistinctAfter(es: seq<Entry>, e: Entry, i: nat, after: seq<Entry>)
    requires DistinctSlots(es) && GoesTo(es, e, i, after)
    ensures DistinctSlots(after)
  {
  }

  lemma DistinctFrom(es: seq<Entry>, e: Entry, i: nat, j: nat)
    requires DistinctSlots(es) && i <= |es| && j < |es| && j != i
    requires (forall k | 0 <= k < i :: !SameSlot(es[k], e)) && (i < |es| ==> SameSlot(es[i], e))
    ensures !SameSlot(e, es[j])
  {
  }

  lemma SlotKept(es: seq<Entry>, e: Entry, i: nat, after: seq<Entry>, x: Entry)
    requires HasSlot(es, x) && GoesTo(es, e, i, after)
    ensures HasSlot(after, x)
  {
    var j :| 0 <= j < |es| && SameSlot(es[j], x);
    assert SameSlot(after[j], x);
  }

  lemma SlotAdded(es: seq<Entry>, e: Entry, i: nat, after: seq<Entry>)
    requires GoesTo(es, e, i, after)
    ensures HasSlot(after, e)
  {
    assert SameSlot(after[i], e);
  }

  lemma LastNow(put: seq<Entry>, e: Entry)
    ensures IsLast(e, put + [e])
  {
    assert (put + [e])[|put|] == e;
  }

  lemma LastStill(x: Entry, put: seq<Entry>, e: Entry)
    requires IsLast(x, put) && !SameSlot(e, x)
    ensures IsLast(x, put + [e])
  {
    var i :| 0 <= i < |put| && put[i] == x && forall k | i < k < |put| :: !SameSlot(put[k], x);
    assert (put + [e])[i] == x;
  }

  lemma FirstStill(a: Entry, b: Entry, put: seq<Entry>, e: Entry)
    requires CameFirst(a, b, put)
    ensures CameFirst(a, b, put + [e])
  {
    var i :| 0 <= i < |put| && SameSlot(put[i], a) && forall k | 0 <= k <= i :: !SameSlot(put[k], b);
    assert SameSlot((put + [e])[i], a);
  }

  lemma FirstSlots(a: Entry, b: Entry, c: Entry, d: Entry, put: seq<Entry>)
    requires CameFirst(a, b, put) && SameSlot(a, c) && SameSlot(b, d)
    ensures CameFirst(c, d, put)
  {
    var i :| 0 <= i < |put| && SameSlot(put[i], a) && forall k | 0 <= k <= i :: !SameSlot(put[k], b);
    assert SameSlot(put[i], c);
  }

  /** A new slot comes after those that are there. */
  lemma NewComesLast(es: seq<Entry>, put: seq<Entry>, e: Entry, i: nat, j: nat)
    requires i == |es| && j < |es| && (forall k | 0 <= k < i :: !SameSlot(es[k], e))
    requires IsLast(es[j], put) && forall k | 0 <= k < |put| :: HasSlot(es, put[k])
    ensures CameFirst(es[j], e, put + [e])
  {
    var at :| 0 <= at < |put| && put[at] == es[j] && forall k | at < k < |put| :: !SameSlot(put[k], es[j]);
    forall k | 0 <= k <= at ensures !SameSlot((put + [e])[k], e) {
      assert HasSlot(es, put[k]);
      var h :| 0 <= h < |es| && SameSlot(es[h], put[k]);
    }
    assert SameSlot((put + [e])[at], es[j]);
  }

  lemma {:induction false} EntriesAreMap(b: seq<byte>, acc: seq<Entry>, put: seq<Entry>)
    requires IsMapOf(acc, put) && C.ReadEntries(b, acc).Ok?
    ensures IsMapOf(C.ReadEntries(b, acc).value, put + Chunks(b))
    decreases |b|
  {
    hide IsMapOf, C.Put, U32At;
    if b == [] {
      assert put + Chunks(b) == put;
    } else {
      var e := C.EntryAt(b);
      PutKeepsMap(acc, put, e);
      EntriesAreMap(b[68..], C.Put(acc, e), put + [e]);
      assert put + [e] + Chunks(b[68..]) == put + Chunks(b);
    }
  }

  /** The skipped keys of an imported state are the map after its entries were put in, in their order in the bytes. */
  lemma RestoredMap(raw: seq<byte>)
    requires C.Restore(raw).Ok?
    ensures |raw| >= 183 && IsMapOf(C.Restore(raw).value.skipped, Chunks(raw[183..]))
  {
    hide C.ReadEntries, U32At, C.FieldsAt;
    EmptyMap();
    EntriesAreMap(raw[183..], [], []);
    assert [] + Chunks(raw[183..]) == Chunks(raw[183..]);
  }

  lemma EmptyMap()
    ensures IsMapOf([], [])
  {
  }

  lemma {:induction false} ChunkAt(b: seq<byte>, i: nat)
    requires i < |b| / 68
    ensures var e, at := Chunks(b)[i], 68 * i;
            e.remote == b[at..at + 32] && Counter(b, at + 32, e.index) && e.key == b[at + 36..at + 68]
  {
    hide BigEndian, U32At;
    if i > 0 {
      ChunkAt(b[68..], i - 1);
      var at := 68 * (i - 1);
      D.SliceOfTail(b, 68, at, at + 32);
      D.SliceOfTail(b, 68, at + 32, at + 36);
      D.SliceOfTail(b, 68, at + 36, at + 68);
    } else {
      CountAt(b, 32);
    }
  }

  // ---------- Sessions ----------

  lemma SessionLayout(s: T.SessionFields, ratchet: seq<byte>)
    ensures var raw := T.SessionBytes(s, ratchet);
            && |raw| == 7 + |s.ad| + |ratchet| && raw[0] == 1 && raw[1] == (if s.initiator then 1 else 0)
            && raw[2] as nat * 256 + raw[3] == |s.ad| % 65536 && Zero(raw, 4, 7)
            && raw[7..7 + |s.ad|] == s.ad && raw[7 + |s.ad|..] == ratchet
  {
    TwoBytes(|s.ad|);
    var head: seq<byte> := [1, C.Flag(s.initiator), |s.ad| / 0x100 % 0x100, |s.ad| % 0x100, 0, 0, 0];
    assert T.SessionBytes(s, ratchet) == head + s.ad + ratchet;
    hide T.SessionBytes;
    ThreeParts(head, s.ad, ratchet);
  }

  lemma TwoBytes(n: nat)
    ensures n / 0x100 % 0x100 * 256 + n % 0x100 == n % 65536
  {
  }

  lemma ThreeParts(a: seq<byte>, b: seq<byte>, c: seq<byte>)
    ensures var whole := a + b + c;
            && |whole| == |a| + |b| + |c| && (forall i | 0 <= i < |a| :: whole[i] == a[i])
            && whole[|a|..|a| + |b|] == b && whole[|a| + |b|..] == c
  {
  }

  /** Which bytes are an exported session, and what is wrong with the others. */
  lemma SessionAcceptedExactly(raw: seq<byte>)
    ensures var r := T.RestoreSession(raw);
            if |raw| < 7 then r == Err(T.Malformed)
            else if raw[0] != 1 then r == Err(T.UnsupportedVersion)
            else
              var at := 7 + (raw[2] as nat * 256 + raw[3]);
              if |raw| < at then r == Err(T.TruncatedAd)
              else match C.Restore(raw[at..])
                   case Err(error) => r == Err(T.RatchetState(error))
                   case Ok(ratchet) => r == Ok((T.SessionFields(raw[1] == 1, raw[7..at]), ratchet))
  {
    hide C.Restore;
  }

  // ---------- Init payloads ----------

  lemma InitLayout1(x: F.Init1)
    requires |x.ikx| == 32 && |x.ek| == 32
    ensures var raw := F.Frame1(x);
            && |raw| == 66 && raw[0] == 1 && raw[1..33] == x.ikx && raw[33..65] == x.ek
            && raw[65] == if x.opkIndex.Some? then x.opkIndex.value % 256 else 255
  {
  }

  lemma InitLayout2(x: F.Init2)
    requires |x.ikx| == 32 && |x.kemCiphertext| == 1088 && |x.kemPublic| == 1184 && |x.ek| == 32
    ensures var raw := F.Frame2(x);
            && |raw| == 2338 && raw[0] == 2 && raw[1..33] == x.ikx && raw[33..1121] == x.kemCiphertext
            && raw[1121..2305] == x.kemPublic && raw[2305..2337] == x.ek
            && raw[2337] == if x.opkIndex.Some? then x.opkIndex.value % 256 else 255
  {
  }

  /** Both parsers refuse a wrong length first, and then a wrong version; the version is the first byte. */
  lemma InitAcceptedExactly(raw: seq<byte>)
    ensures var r := F.ParseInitPayload(raw);
            if |raw| != 66 then r == Err(F.InvalidPayload)
            else if raw[0] != 1 then r == Err(F.UnsupportedVersion)
            else r.Ok?
    ensures var r := F.ParseInitPayloadV2(raw);
            if |raw| != 2338 then r == Err(F.InvalidPayload)
            else if raw[0] != 2 then r == Err(F.UnsupportedVersion)
            else r.Ok?
    ensures F.DetectInitVersion(raw) == if |raw| == 0 then Err(F.InvalidPayload) else Ok(raw[0])
  {
  }

  // ---------- Device keys ----------

  /** A payload of well-sized keys; behind the flag of the one-time prekey everything moves with it. */
  lemma DeviceLayout(d: D.Device)
    requires (d.pqKem.Some? ==> |d.pqKem.value| == 2400) && (d.pqSig.Some? ==> |d.pqSig.value| == 2560)
    ensures D.Fits(d)
    ensures var raw := D.Payload(d);
            var at := if d.opk.Some? then 98 else 66;
            && |raw| == at + (if d.pqKem.Some? && d.pqSig.Some? then 4961 else 0)
            && raw[0] == 2 && raw[1..33] == d.ikx && raw[33..65] == d.spk
            && raw[65] == (if d.opk.Some? then 1 else 0) && (d.opk.Some? ==> raw[66..98] == d.opk.value)
            && (d.pqKem.Some? && d.pqSig.Some? ==>
                  raw[at] == 1 && raw[at + 1..at + 2401] == d.pqKem.value
                  && raw[at + 2401..at + 4961] == d.pqSig.value)
  {
    hide D.Zeros, D.Opk;
    D.ClassicalSlices(2, d, D.PqPart(d));
    if d.pqKem.Some? && d.pqSig.Some? {
      hide D.ClassicalPart, D.PqPart;
      var raw, at := D.Payload(d), if d.opk.Some? then 98 else 66;
      D.PqSlices(d);
      D.SliceOfTail(raw, at, 0, 1);
      D.SliceOfTail(raw, at, 1, 2401);
      D.SliceOfTail(raw, at, 2401, 4961);
      assert raw[at] == raw[at..at + 1][0];
    }
  }

  /** Post-quantum keys of any length can be written if and only if they end before the payload does, and then every
      byte behind the flag is the signature key's at its offset, else the KEM key's, else zero. */
  lemma PqBytes(d: D.Device, i: nat)
    requires d.pqKem.Some? && d.pqSig.Some? && i < 4960
    ensures D.Fits(d) <==> |d.pqKem.value| <= 4960 && |d.pqSig.value| <= 2560
    ensures D.Fits(d) ==>
              var raw, at, kem, sig := D.Payload(d), if d.opk.Some? then 98 else 66, d.pqKem.value, d.pqSig.value;
              && |raw| == at + 4961 && raw[at] == 1
              && raw[at + 1 + i] == if 2400 <= i < 2400 + |sig| then sig[i - 2400] else if i < |kem| then kem[i] else 0
  {
    hide D.Zeros;
    if D.Fits(d) {
      var area := Written(Written(D.Zeros(4960), 0, d.pqKem.value), 2400, d.pqSig.value);
      assert D.PqPart(d) == [1] + area;
      AreaAt(D.Zeros(4960), d.pqKem.value, d.pqSig.value, i);
      D.ClassicalSlices(2, d, D.PqPart(d));
      hide D.ClassicalPart, D.PqPart;
      var raw, at := D.Payload(d), if d.opk.Some? then 98 else 66;
      assert raw[at..] == [1] + area;
      assert raw[at + 1 + i] == raw[at..][1 + i] && raw[at] == raw[at..][0];
    }
  }

  lemma AreaAt(zeros: seq<byte>, kem: seq<byte>, sig: seq<byte>, i: nat)
    requires |zeros| == 4960 && |kem| <= 4960 && |sig| <= 2560 && i < 4960
    requires forall j | 0 <= j < 4960 :: zeros[j] == 0
    ensures Written(Written(zeros, 0, kem), 2400, sig)[i] ==
              if 2400 <= i < 2400 + |sig| then sig[i - 2400] else if i < |kem| then kem[i] else 0
  {
  }

  /** Which bytes are a payload, and what is wrong with the others. A version 1 payload ends with the classical
      keys, whatever follows. */
  lemma DeviceAcceptedExactly(raw: seq<byte>)
    ensures var r := D.Parse(raw);
            if |raw| < 66 then r == Err(D.Malformed)
            else if raw[0] !in {1, 2} then r == Err(D.UnsupportedVersion)
            else if raw[65] !in {0, 1} then r == Err(D.BadOpkFlag)
            else
              var at := if raw[65] == 1 then 98 else 66;
              if |raw| < at then r == Err(D.Malformed)
              else if raw[0] == 1 || |raw| == at then r.Ok? && r.value.pqKem.None? && r.value.pqSig.None?
              else if raw[at] != 1 then r == Err(D.BadPqFlag)
              else if |raw| < at + 4961 then r == Err(D.Malformed)
              else r.Ok? && r.value.pqKem.Some? && r.value.pqSig.Some?
  {
  }
}
