/** An exported ratchet comes back as it was, and its bytes depend on nothing but its state; so does a
    session around it (`src/crypto/e2eeSession.ts`, lines 342-376). */
module StateRoundTrip {
  import opened Terms
  import opened Bytes
  import opened SkipOrder
  import opened StateCodec

  /** What the fields become on their way through the export: counters lose what is beyond 32 bits, an
      all-zero remote key is taken for none, and the role is guessed from the chains. */
  function AsRestored(f: Fields): Fields {
    Fields(f.rk, f.local, if f.remote == Some(ZERO_KEY) then None else f.remote, f.send, f.recv,
           ToU32(f.ns), ToU32(f.nr), ToU32(f.pn), ToU32(f.maxSkip), f.send.Some? && f.recv.None?)
  }

  // ---------- The skipped keys ----------

  lemma EntryRoundTrip(e: Entry, rest: seq<byte>)
    ensures EntryAt(EntryBytes(e) + rest) == e && (EntryBytes(e) + rest)[ENTRY_SIZE..] == rest
  {
    hide U32Bytes, U32At;
    var b := EntryBytes(e) + rest;
    assert b[..32] == e.remote && b[32..36] == U32Bytes(e.index) && b[36..68] == e.key;
    U32InPlace(b, 32);
    U32RoundTrip(e.index);
  }

  lemma {:induction false} PutNew(es: seq<Entry>, e: Entry)
    requires forall x | x in es :: !SameSlot(x, e)
    ensures Put(es, e) == es + [e]
  {
    if es != [] {
      PutNew(es[1..], e);
      assert es == [es[0]] + es[1..];
    }
  }

  lemma {:induction false} ReadBack(es: seq<Entry>, acc: seq<Entry>)
    requires DistinctSlots(acc + es)
    ensures ReadEntries(EntriesBytes(es), acc) == Ok(acc + es)
    decreases |es|
  {
    if es == [] {
      assert acc + es == acc;
    } else {
      EntryRoundTrip(es[0], EntriesBytes(es[1..]));
      forall x | x in acc ensures !SameSlot(x, es[0]) {
        var i :| 0 <= i < |acc| && acc[i] == x;
        assert (acc + es)[i] == x && (acc + es)[|acc|] == es[0];
      }
      PutNew(acc, es[0]);
      assert acc + [es[0]] + es[1..] == acc + es;
      ReadBack(es[1..], acc + [es[0]]);
    }
  }

  // ---------- The fields ----------

  /** Where the parts of the header stand. */
  lemma HeaderSlices(f: Fields, rest: seq<byte>)
    ensures var raw := HeaderPart(f) + rest;
            && raw[0] == STATE_VERSION && raw[1] == Flag(f.send.Some?) && raw[98] == Flag(f.recv.Some?)
            && raw[2..34] == f.rk && raw[34..66] == f.local && raw[66..98] == KeyOrZero(f.remote)
            && raw[99..103] == U32Bytes(ToU32(f.ns)) && raw[103..107] == U32Bytes(ToU32(f.nr))
            && raw[107..111] == U32Bytes(ToU32(f.pn)) && raw[111..115] == U32Bytes(ToU32(f.maxSkip))
            && raw[115..] == rest
  {
    hide U32Bytes, ToU32, KeyOrZero;
  }

  lemma BodySlices(f: Fields, blob: seq<byte>)
    ensures var body := BodyPart(f, blob);
            && |body| == BODY_MIN + |blob|
            && body[..32] == KeyOrZero(f.send) && body[32..64] == KeyOrZero(f.recv)
            && body[64..68] == U32Bytes(ToU32(|blob|)) && body[68..] == blob
  {
    hide U32Bytes, ToU32, KeyOrZero;
  }

  lemma CounterAt(raw: seq<byte>, at: nat, n: nat)
    requires at + 4 <= |raw| && raw[at..at + 4] == U32Bytes(ToU32(n))
    ensures U32At(raw, at) == ToU32(n)
  {
    hide U32Bytes, U32At, ToU32;
    U32InPlace(raw, at);
    U32RoundTrip(ToU32(n));
  }

  lemma FieldsRoundTrip(f: Fields, blob: seq<byte>)
    ensures var raw := HeaderPart(f) + BodyPart(f, blob);
            && |raw| == HEADER_BYTES + BODY_MIN + |blob| && raw[0] == STATE_VERSION
            && FieldsAt(raw) == AsRestored(f) && U32At(raw, 179) == ToU32(|blob|) && raw[183..] == blob
  {
    hide U32Bytes, ToU32, U32At;
    var raw := HeaderPart(f) + BodyPart(f, blob);
    HeaderSlices(f, BodyPart(f, blob));
    BodySlices(f, blob);
    assert raw[115..147] == raw[115..][..32] && raw[147..179] == raw[115..][32..64];
    assert raw[179..183] == raw[115..][64..68] && raw[183..] == raw[115..][68..];
    CounterAt(raw, 99, f.ns);
    CounterAt(raw, 103, f.nr);
    CounterAt(raw, 107, f.pn);
    CounterAt(raw, 111, f.maxSkip);
    CounterAt(raw, 179, |blob|);
  }

  // ---------- The theorems ----------

  /** What importing an export gives, for every state. */
  lemma RestoreExported(f: Fields, es: seq<Entry>)
    requires DistinctSlots(es)
    ensures Restore(StateBytes(f, es))
         == if ENTRY_SIZE * |es| < U32_LIMIT then Ok(Restored(AsRestored(f), Sorted(es)))
            else Err(StateMalformed)
  {
    hide HeaderPart, BodyPart, FieldsAt, U32At, ToU32, AsRestored, Sorted, DistinctSlots, ReadEntries, EntriesBytes;
    var blob := EntriesBytes(Sorted(es));
    SortedReadsBack(es);
    FieldsRoundTrip(f, blob);
    CounterKept(|blob|);
  }

  lemma SortedReadsBack(es: seq<Entry>)
    requires DistinctSlots(es)
    ensures ReadEntries(EntriesBytes(Sorted(es)), []) == Ok(Sorted(es)) && |Sorted(es)| == |es|
  {
    hide Sorted, InOrder, DistinctSlots, ReadEntries, EntriesBytes;
    SortedKeeps(es);
    SortedInOrder(es);
    OrderIsDistinct(Sorted(es));
    assert [] + Sorted(es) == Sorted(es);
    ReadBack(Sorted(es), []);
  }

  lemma CounterKept(n: nat)
    ensures ToU32(n) == n <==> n < U32_LIMIT
  {
  }

  lemma RestoredAsIs(f: Fields)
    ensures AsRestored(f) == f
       <==> && f.ns < U32_LIMIT && f.nr < U32_LIMIT && f.pn < U32_LIMIT && f.maxSkip < U32_LIMIT
            && f.remote != Some(ZERO_KEY) && f.initiator == (f.send.Some? && f.recv.None?)
  {
    hide ToU32;
    CounterKept(f.ns);
    CounterKept(f.nr);
    CounterKept(f.pn);
    CounterKept(f.maxSkip);
  }

  /** Every field comes back, the skipped keys in their order on disk, if and only if the counters and
      the length of the buffer fit 32 bits, the remote key is not all zero and the role is the one that
      the chains show. */
  lemma ExportRoundTripExactly(f: Fields, es: seq<Entry>)
    requires DistinctSlots(es)
    ensures Restore(StateBytes(f, es)) == Ok(Restored(f, Sorted(es)))
       <==> && f.ns < U32_LIMIT && f.nr < U32_LIMIT && f.pn < U32_LIMIT && f.maxSkip < U32_LIMIT
            && ENTRY_SIZE * |es| < U32_LIMIT && f.remote != Some(ZERO_KEY)
            && f.initiator == (f.send.Some? && f.recv.None?)
    ensures multiset(Sorted(es)) == multiset(es)
  {
    hide Restore, StateBytes, Sorted, DistinctSlots, AsRestored;
    RestoreExported(f, es);
    RestoredAsIs(f);
    SortedKeeps(es);
  }

  /** The export depends on the entries of the map and not on the order in which they were added. */
  lemma ExportIsCanonical(f: Fields, es: seq<Entry>, fs: seq<Entry>)
    requires DistinctSlots(es) && DistinctSlots(fs) && multiset(es) == multiset(fs)
    ensures StateBytes(f, es) == StateBytes(f, fs)
  {
    SortingIsCanonical(es, fs);
  }

  /** Two states with one export have the same skipped keys and the same restored fields. */
  lemma ExportIsInjective(f: Fields, es: seq<Entry>, g: Fields, fs: seq<Entry>)
    requires DistinctSlots(es) && DistinctSlots(fs)
    requires ENTRY_SIZE * |es| < U32_LIMIT && ENTRY_SIZE * |fs| < U32_LIMIT
    ensures StateBytes(f, es) == StateBytes(g, fs) ==>
              AsRestored(f) == AsRestored(g) && multiset(es) == multiset(fs)
  {
    hide Restore, StateBytes, Sorted, DistinctSlots, AsRestored;
    RestoreExported(f, es);
    RestoreExported(g, fs);
    SortedKeeps(es);
    SortedKeeps(fs);
  }

  /** Exporting what was restored gives the same bytes again. */
  lemma ReexportIsStable(f: Fields, es: seq<Entry>)
    requires DistinctSlots(es)
    ensures StateBytes(AsRestored(f), Sorted(es)) == StateBytes(f, es)
  {
    hide U32Bytes, EntriesBytes, Sorted, InOrder, DistinctSlots;
    SortedKeeps(es);
    SortedInOrder(es);
    OrderIsDistinct(Sorted(es));
    SortingIsCanonical(es, Sorted(es));
    SortingIsCanonical(Sorted(es), Sorted(es));
    assert KeyOrZero(AsRestored(f).remote) == KeyOrZero(f.remote);
  }

  // ---------- The session around the ratchet ----------

  const SESSION_HEADER_SIZE: nat := 7
  const SESSION_VERSION: nat := 1

  datatype SessionError = Malformed | UnsupportedVersion | TruncatedAd | RatchetState(error: StateError)

  datatype SessionFields = SessionFields(initiator: bool, ad: seq<byte>)

  function SessionBytes(s: SessionFields, ratchet: seq<byte>): seq<byte> {
    [SESSION_VERSION, Flag(s.initiator), |s.ad| / 0x100 % 0x100, |s.ad| % 0x100, 0, 0, 0] + s.ad + ratchet
  }

  method ExportSession(s: SessionFields, ratchet: seq<byte>) returns (raw: seq<byte>)
    ensures raw == SessionBytes(s, ratchet)
  {
    var header := new byte[SESSION_HEADER_SIZE](_ => 0);
    header[0] := SESSION_VERSION;
    header[1] := Flag(s.initiator);
    header[2] := |s.ad| / 0x100 % 0x100;
    header[3] := |s.ad| % 0x100;
    assert header[..] == [SESSION_VERSION, Flag(s.initiator), |s.ad| / 0x100 % 0x100, |s.ad| % 0x100, 0, 0, 0];
    raw := ConcatBytes([header[..], s.ad, ratchet]);
    JoinedThree(header[..], s.ad, ratchet);
  }

  function RestoreSession(raw: seq<byte>): Result<(SessionFields, Restored), SessionError> {
    if |raw| < SESSION_HEADER_SIZE then Err(Malformed)
    else if raw[0] != SESSION_VERSION then Err(UnsupportedVersion)
    else if |raw| < SESSION_HEADER_SIZE + AdLength(raw) then Err(TruncatedAd)
    else
      match Restore(raw[SESSION_HEADER_SIZE + AdLength(raw)..])
      case Err(error) => Err(RatchetState(error))
      case Ok(ratchet) =>
        Ok((SessionFields(raw[1] == 1, raw[SESSION_HEADER_SIZE..SESSION_HEADER_SIZE + AdLength(raw)]), ratchet))
  }

  function AdLength(raw: seq<byte>): nat
    requires |raw| >= SESSION_HEADER_SIZE
  {
    var high: nat, low: nat := raw[2], raw[3];
    0x100 * high + low
  }

  /** A session comes back with its role and associated data, around what its ratchet comes back as, if
      and only if the associated data fit the two-byte length. */
  lemma SessionRoundTripExactly(s: SessionFields, f: Fields, es: seq<Entry>)
    requires DistinctSlots(es) && ENTRY_SIZE * |es| < U32_LIMIT
    ensures RestoreSession(SessionBytes(s, StateBytes(f, es))) == Ok((s, Restored(AsRestored(f), Sorted(es))))
       <==> |s.ad| < 0x10000
  {
    hide StateBytes, AsRestored, Restore, Sorted, DistinctSlots;
    var ratchet := StateBytes(f, es);
    var raw := SessionBytes(s, ratchet);
    RestoreExported(f, es);
    assert AdLength(raw) == |s.ad| % 0x10000;
    if |s.ad| < 0x10000 {
      assert raw[SESSION_HEADER_SIZE..SESSION_HEADER_SIZE + |s.ad|] == s.ad;
      assert raw[SESSION_HEADER_SIZE + |s.ad|..] == ratchet;
    }
  }
}
