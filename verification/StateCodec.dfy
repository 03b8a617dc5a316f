/** Export and import of a ratchet's state (`src/crypto/doubleRatchet.ts`, lines 408-537). Keys are the
    32 bytes they are on disk; the skipped-key map is the sequence of its entries in the order in which
    they were added, as a `Map` enumerates them. */
module StateCodec {
  import opened Terms
  import opened Bytes
  import opened SkipOrder
  import opened WireCodec

  datatype StateError = StateMalformed | StateUnsupportedVersion | StateTruncatedSkip

  /** Every field but the skipped keys. */
  datatype Fields = Fields(rk: Key, local: Key, remote: Option<Key>, send: Option<Key>, recv: Option<Key>,
                           ns: nat, nr: nat, pn: nat, maxSkip: nat, initiator: bool)

  datatype Restored = Restored(fields: Fields, skipped: seq<Entry>)

  const STATE_VERSION: nat := 1
  const HEADER_BYTES: nat := 115
  const BODY_MIN: nat := 68
  const ENTRY_SIZE: nat := 68

  // ---------- The layout ----------

  function Flag(b: bool): byte { if b then 1 else 0 }

  function KeyOrZero(k: Option<Key>): Key { if k.Some? then k.value else ZERO_KEY }

  function HeaderPart(f: Fields): (b: seq<byte>)
    ensures |b| == HEADER_BYTES
  {
    [STATE_VERSION, Flag(f.send.Some?)] + f.rk + f.local + KeyOrZero(f.remote) + [Flag(f.recv.Some?)]
    + U32Bytes(ToU32(f.ns)) + U32Bytes(ToU32(f.nr)) + U32Bytes(ToU32(f.pn)) + U32Bytes(ToU32(f.maxSkip))
  }

  function EntryBytes(e: Entry): (b: seq<byte>)
    ensures |b| == ENTRY_SIZE
  {
    e.remote + U32Bytes(e.index) + e.key
  }

  function EntriesBytes(es: seq<Entry>): (b: seq<byte>)
    ensures |b| == ENTRY_SIZE * |es|
  {
    if es == [] then [] else EntryBytes(es[0]) + EntriesBytes(es[1..])
  }

  function BodyPart(f: Fields, blob: seq<byte>): seq<byte> {
    KeyOrZero(f.send) + KeyOrZero(f.recv) + U32Bytes(ToU32(|blob|)) + blob
  }

  function StateBytes(f: Fields, skipped: seq<Entry>): seq<byte> {
    HeaderPart(f) + BodyPart(f, EntriesBytes(Sorted(skipped)))
  }

  // ---------- Export ----------

  /** The entries of the `Map<string, Uint8Array>` that holds the skipped keys. */
  function Keyed(es: seq<Entry>): seq<(string, Key)> {
    if es == [] then [] else [(SkipKey(es[0].remote, es[0].index), es[0].key)] + Keyed(es[1..])
  }

  lemma {:induction false} KeyedAt(es: seq<Entry>, i: nat)
    requires i < |es|
    ensures |Keyed(es)| == |es|
    ensures Keyed(es)[i] == (SkipKey(es[i].remote, es[i].index), es[i].key)
  {
    if i > 0 { KeyedAt(es[1..], i - 1); } else if |es| > 1 { KeyedAt(es[1..], 0); }
  }

  method ReadMap(skipped: seq<(string, Key)>, ghost es: seq<Entry>) returns (entries: seq<Entry>)
    requires skipped == Keyed(es)
    ensures entries == es
  {
    entries := [];
    assert |skipped| == |es| by { if es != [] { KeyedAt(es, 0); } }
    for i := 0 to |skipped|
      invariant entries == es[..i]
    {
      KeyedAt(es, i);
      var remote, index := ParseSkipKey(skipped[i].0, es[i].remote, es[i].index);
      entries := entries + [Entry(remote, index, skipped[i].1)];
    }
  }

  method PackEntry(e: Entry) returns (b: seq<byte>)
    ensures b == EntryBytes(e)
  {
    var buf := new byte[ENTRY_SIZE](_ => 0);
    Set(buf, e.remote, 0);
    SetUint32(buf, 32, e.index);
    Set(buf, e.key, 36);
    b := buf[..];
  }

  method PackEntries(es: seq<Entry>) returns (b: seq<byte>)
    ensures b == EntriesBytes(es)
  {
    var blob: seq<seq<byte>> := [];
    for i := 0 to |es|
      invariant |blob| == i && Joined(blob) + EntriesBytes(es[i..]) == EntriesBytes(es)
    {
      var buf := PackEntry(es[i]);
      JoinedSnoc(blob, buf);
      assert es[i..][1..] == es[i + 1..];
      blob := blob + [buf];
    }
    b := ConcatBytes(blob);
  }

  method ExportState(f: Fields, skipped: seq<(string, Key)>, ghost es: seq<Entry>) returns (raw: seq<byte>)
    requires skipped == Keyed(es)
    ensures raw == StateBytes(f, es)
  {
    var entries := ReadMap(skipped, es);
    var skipConcat := PackEntries(Sorted(entries));
    var header := PackStateHeader(f);
    var body := PackStateBody(f, skipConcat);
    raw := ConcatBytes([header, body]);
    JoinedTwo(header, body);
  }

  method PackStateHeader(f: Fields) returns (b: seq<byte>)
    ensures b == HeaderPart(f)
  {
    hide U32Bytes, ToU32, Written;
    var header := new byte[HEADER_BYTES](_ => 0);
    header[0] := STATE_VERSION;
    header[1] := Flag(f.send.Some?);
    ghost var front := [STATE_VERSION, Flag(f.send.Some?)];
    assert header[..2] == front;
    front := SetNext(header, front, f.rk, 2);
    front := SetNext(header, front, f.local, 34);
    front := SetNext(header, front, KeyOrZero(f.remote), 66);
    header[98] := Flag(f.recv.Some?);
    front := front + [Flag(f.recv.Some?)];
    assert header[..99] == front;
    front := SetUint32Next(header, front, 99, f.ns);
    front := SetUint32Next(header, front, 103, f.nr);
    front := SetUint32Next(header, front, 107, f.pn);
    front := SetUint32Next(header, front, 111, f.maxSkip);
    b := header[..];
    assert b == header[..115];
  }

  /** `set` just behind what has been written. */
  method SetNext(out: array<byte>, ghost front: seq<byte>, s: seq<byte>, offset: nat)
    returns (ghost longer: seq<byte>)
    requires |front| == offset && offset + |s| <= out.Length && out[..offset] == front
    modifies out
    ensures longer == front + s && out[..offset + |s|] == longer
  {
    WrittenNext(out[..], front, s);
    Set(out, s, offset);
    longer := front + s;
  }

  method SetUint32Next(out: array<byte>, ghost front: seq<byte>, offset: nat, n: nat)
    returns (ghost longer: seq<byte>)
    requires |front| == offset && offset + 4 <= out.Length && out[..offset] == front
    modifies out
    ensures longer == front + U32Bytes(ToU32(n)) && out[..offset + 4] == longer
  {
    WrittenNext(out[..], front, U32Bytes(ToU32(n)));
    SetUint32(out, offset, n);
    longer := front + U32Bytes(ToU32(n));
  }

  method PackStateBody(f: Fields, blob: seq<byte>) returns (b: seq<byte>)
    ensures b == BodyPart(f, blob)
  {
    hide U32Bytes, ToU32;
    var body := new byte[BODY_MIN + |blob|](_ => 0);
    Set(body, KeyOrZero(f.send), 0);
    Set(body, KeyOrZero(f.recv), 32);
    assert body[..64] == KeyOrZero(f.send) + KeyOrZero(f.recv);
    SetUint32(body, 64, |blob|);
    assert body[..68] == KeyOrZero(f.send) + KeyOrZero(f.recv) + U32Bytes(ToU32(|blob|));
    Set(body, blob, 68);
    b := body[..];
  }

  // ---------- Import ----------

  /** `Map.set`: a known key keeps its place, a new one goes to the end. */
  function Put(es: seq<Entry>, e: Entry): seq<Entry> {
    if es == [] then [e]
    else if SameSlot(es[0], e) then [e] + es[1..]
    else [es[0]] + Put(es[1..], e)
  }

  function EntryAt(b: seq<byte>): Entry
    requires |b| >= ENTRY_SIZE
  {
    Entry(b[..32], U32At(b, 32), b[36..68])
  }

  function ReadEntries(b: seq<byte>, acc: seq<Entry>): Result<seq<Entry>, StateError> {
    if b == [] then Ok(acc)
    else if |b| < ENTRY_SIZE then Err(StateTruncatedSkip)
    else ReadEntries(b[ENTRY_SIZE..], Put(acc, EntryAt(b)))
  }

  function KeyIf(present: bool, b: seq<byte>): Option<Key>
    requires |b| == 32
  {
    if present then Some(b) else None
  }

  /** 32 zero bytes stand for no key. */
  function KeyUnlessZero(b: seq<byte>): Option<Key>
    requires |b| == 32
  {
    KeyIf(b != ZERO_KEY, b)
  }

  predicate AllZero(b: seq<byte>) { forall i | 0 <= i < |b| :: b[i] == 0 }

  lemma AllZeroIsZeroKey(b: seq<byte>)
    requires |b| == 32
    ensures AllZero(b) <==> b == ZERO_KEY
  {
    if AllZero(b) { assert forall i | 0 <= i < 32 :: b[i] == ZERO_KEY[i]; }
  }

  function FieldsAt(raw: seq<byte>): Fields
    requires |raw| >= HEADER_BYTES + BODY_MIN
  {
    Fields(raw[2..34], raw[34..66], KeyUnlessZero(raw[66..98]),
           KeyIf(raw[1] == 1, raw[115..147]), KeyIf(raw[98] == 1, raw[147..179]),
           U32At(raw, 99), U32At(raw, 103), U32At(raw, 107), U32At(raw, 111),
           raw[1] == 1 && raw[98] != 1)
  }

  function Restore(raw: seq<byte>): Result<Restored, StateError> {
    if |raw| < HEADER_BYTES then Err(StateMalformed)
    else if raw[0] != STATE_VERSION then Err(StateUnsupportedVersion)
    else if |raw| < HEADER_BYTES + BODY_MIN then Err(StateMalformed)
    else if |raw| - HEADER_BYTES - BODY_MIN != U32At(raw, 179) then Err(StateMalformed)
    else
      match ReadEntries(raw[183..], [])
      case Err(error) => Err(error)
      case Ok(entries) => Ok(Restored(FieldsAt(raw), entries))
  }

  /** Where the parts of the body stand in the whole. */
  lemma BodySlices(raw: seq<byte>)
    requires |raw| >= HEADER_BYTES + BODY_MIN
    ensures var body := raw[HEADER_BYTES..];
            && body[0..32] == raw[115..147] && body[32..64] == raw[147..179]
            && body[64..68] == raw[179..183] && body[68..] == raw[183..]
  {
  }

  method FromStateBytes(raw: seq<byte>) returns (r: Result<Restored, StateError>)
    ensures r == Restore(raw)
  {
    hide U32At, Put, AllZero;
    if |raw| < HEADER_BYTES { return Err(StateMalformed); }
    if raw[0] != STATE_VERSION { return Err(StateUnsupportedVersion); }
    var body := raw[HEADER_BYTES..];
    if |body| < BODY_MIN { return Err(StateMalformed); }
    var hasSend, hasRecv := raw[1] == 1, raw[98] == 1;
    var sendChain := KeyIf(hasSend, body[0..32]);
    var recvChain := KeyIf(hasRecv, body[32..64]);
    var skipLen := U32At(body, 64);
    var skipRaw := body[68..];
    BodySlices(raw);
    U32InPlace(body, 64);
    U32InPlace(raw, 179);
    if |skipRaw| != skipLen { return Err(StateMalformed); }
    var skipped: seq<Entry> := [];
    var off := 0;
    while off < skipLen
      invariant 0 <= off <= |skipRaw|
      invariant ReadEntries(skipRaw, []) == ReadEntries(skipRaw[off..], skipped)
    {
      if off + ENTRY_SIZE > skipLen { return Err(StateTruncatedSkip); }
      assert skipRaw[off..][ENTRY_SIZE..] == skipRaw[off + ENTRY_SIZE..];
      skipped := Put(skipped, EntryAt(skipRaw[off..]));
      off := off + ENTRY_SIZE;
    }
    var remoteRaw := raw[66..98];
    var isAllZeroRemote := AllZero(remoteRaw);
    AllZeroIsZeroKey(remoteRaw);
    var fields := Fields(raw[2..34], raw[34..66], KeyIf(!isAllZeroRemote, remoteRaw), sendChain, recvChain,
                         U32At(raw, 99), U32At(raw, 103), U32At(raw, 107), U32At(raw, 111),
                         sendChain.Some? && recvChain.None?);
    return Ok(Restored(fields, skipped));
  }
}
