/** The payload that holds a device's private keys (`src/crypto/deviceKeys.ts`, lines 370-452): written as
    version 2, read in versions 1 and 2. */
module DeviceKeyPayload {
  import opened Terms
  import opened Bytes

  /** `RangeError` is thrown by `Uint8Array.set` when the source does not fit behind the offset. */
  datatype PayloadError = Malformed | UnsupportedVersion | BadOpkFlag | BadPqFlag | RangeError

  const PAYLOAD_VERSION: nat := 2
  const KEM_PRIVATE_BYTES: nat := 2400
  const SIG_PRIVATE_BYTES: nat := 2560
  const OPK_OFFSET: nat := 66

  datatype Device = Device(ikx: Key, spk: Key, opk: Option<Key>, pqKem: Option<seq<byte>>,
                           pqSig: Option<seq<byte>>)

  predicate HasPq(d: Device) { d.pqKem.Some? && d.pqSig.Some? }

  /** Both post-quantum keys can be written behind their offsets. */
  predicate Fits(d: Device) {
    HasPq(d) ==> |d.pqKem.value| <= KEM_PRIVATE_BYTES + SIG_PRIVATE_BYTES && |d.pqSig.value| <= SIG_PRIVATE_BYTES
  }

  predicate WellSized(d: Device) {
    && (d.pqKem.Some? ==> |d.pqKem.value| == KEM_PRIVATE_BYTES)
    && (d.pqSig.Some? ==> |d.pqSig.value| == SIG_PRIVATE_BYTES)
  }

  // ---------- Writing ----------

  function Zeros(n: nat): (b: seq<byte>)
    ensures |b| == n && forall i | 0 <= i < n :: b[i] == 0
  {
    if n == 0 then [] else [0] + Zeros(n - 1)
  }

  function ClassicalPart(version: byte, d: Device): seq<byte> {
    [version] + d.ikx + d.spk + (if d.opk.Some? then [1] + d.opk.value else [0])
  }

  /** The KEM key at the front of a zeroed area and the signature key at its offset, over whatever of the
      KEM key reaches that far. */
  function PqPart(d: Device): seq<byte>
    requires Fits(d)
  {
    if HasPq(d) then
      [1] + Written(Written(Zeros(KEM_PRIVATE_BYTES + SIG_PRIVATE_BYTES), 0, d.pqKem.value),
                    KEM_PRIVATE_BYTES, d.pqSig.value)
    else []
  }

  function Payload(d: Device): seq<byte>
    requires Fits(d)
  {
    ClassicalPart(PAYLOAD_VERSION, d) + PqPart(d)
  }

  lemma NoPqPart(d: Device)
    requires !HasPq(d)
    ensures PqPart(d) == [] && Payload(d) == ClassicalPart(PAYLOAD_VERSION, d)
  {
    hide ClassicalPart;
  }

  method SerializeDeviceKeys(d: Device) returns (r: Result<seq<byte>, PayloadError>)
    ensures r == if Fits(d) then Ok(Payload(d)) else Err(RangeError)
  {
    hide ClassicalPart, Zeros, PqPart;
    var hasPq := HasPq(d);
    var classicalPartLen := OPK_OFFSET + if d.opk.Some? then 32 else 0;
    var pqPartLen := if hasPq then 1 + KEM_PRIVATE_BYTES + SIG_PRIVATE_BYTES else 0;
    var out := new byte[classicalPartLen + pqPartLen](_ => 0);
    WriteClassicalPart(out, classicalPartLen, d);
    if hasPq {
      var pq := WritePqPart(out, classicalPartLen, d);
      if pq.Err? { return Err(pq.error); }
    } else {
      NoPqPart(d);
      assert out[..classicalPartLen] == out[..];
    }
    return Ok(out[..]);
  }

  method WriteClassicalPart(out: array<byte>, end: nat, d: Device)
    requires end == OPK_OFFSET + (if d.opk.Some? then 32 else 0) <= out.Length
    modifies out
    ensures out[..end] == ClassicalPart(PAYLOAD_VERSION, d)
    ensures forall i | end <= i < out.Length :: out[i] == old(out[i])
  {
    out[0] := PAYLOAD_VERSION;
    Set(out, d.ikx, 1);
    Set(out, d.spk, 33);
    out[65] := if d.opk.Some? then 1 else 0;
    HeadWritten(old(out[..]), d.ikx, d.spk, if d.opk.Some? then 1 else 0);
    if d.opk.Some? { Set(out, d.opk.value, OPK_OFFSET); }
  }

  lemma HeadWritten(b: seq<byte>, ikx: Key, spk: Key, flag: byte)
    requires |b| >= OPK_OFFSET
    ensures var w := Written(Written(b[0 := PAYLOAD_VERSION], 1, ikx), 33, spk)[65 := flag];
            && w[..OPK_OFFSET] == [PAYLOAD_VERSION] + ikx + spk + [flag]
            && forall i | OPK_OFFSET <= i < |b| :: w[i] == b[i]
  {
  }

  method WritePqPart(out: array<byte>, start: nat, d: Device) returns (r: Result<(), PayloadError>)
    requires HasPq(d) && out.Length == start + 1 + KEM_PRIVATE_BYTES + SIG_PRIVATE_BYTES
    requires forall i | start <= i < out.Length :: out[i] == 0
    modifies out
    ensures r == if Fits(d) then Ok(()) else Err(RangeError)
    ensures r.Ok? ==> out[..] == old(out[..start]) + PqPart(d)
  {
    hide Zeros;
    ghost var front := out[..start];
    ghost var area := Zeros(KEM_PRIVATE_BYTES + SIG_PRIVATE_BYTES);
    var offset := start;
    out[offset] := 1;
    offset := offset + 1;
    assert out[..] == front + ([1] + area);
    if offset + |d.pqKem.value| > out.Length { return Err(RangeError); }
    Set(out, d.pqKem.value, offset);
    WrittenBehind(front, area, 0, d.pqKem.value);
    area := Written(area, 0, d.pqKem.value);
    offset := offset + KEM_PRIVATE_BYTES;
    if offset + |d.pqSig.value| > out.Length { return Err(RangeError); }
    Set(out, d.pqSig.value, offset);
    WrittenBehind(front, area, KEM_PRIVATE_BYTES, d.pqSig.value);
    return Ok(());
  }

  /** Writing behind a front and a flag is writing into the area behind them. */
  lemma WrittenBehind(front: seq<byte>, area: seq<byte>, offset: nat, s: seq<byte>)
    requires offset + |s| <= |area|
    ensures Written(front + ([1] + area), |front| + 1 + offset, s) == front + ([1] + Written(area, offset, s))
  {
  }

  // ---------- Reading ----------

  function Opk(raw: seq<byte>): Option<Key>
    requires |raw| >= OPK_OFFSET && (raw[65] == 1 ==> |raw| >= OPK_OFFSET + 32)
  {
    if raw[65] == 1 then Some(raw[66..98]) else None
  }

  /** Where the classical part ends. */
  function ClassicalEnd(raw: seq<byte>): nat
    requires |raw| >= OPK_OFFSET
  {
    if raw[65] == 1 then OPK_OFFSET + 32 else OPK_OFFSET
  }

  function Parse(raw: seq<byte>): Result<Device, PayloadError> {
    if |raw| < OPK_OFFSET then Err(Malformed)
    else if raw[0] != 1 && raw[0] != PAYLOAD_VERSION then Err(UnsupportedVersion)
    else if raw[65] == 1 && |raw| < OPK_OFFSET + 32 then Err(Malformed)
    else if raw[65] != 0 && raw[65] != 1 then Err(BadOpkFlag)
    else ParsePq(raw, ClassicalEnd(raw))
  }

  function ParsePq(raw: seq<byte>, at: nat): Result<Device, PayloadError>
    requires OPK_OFFSET <= |raw| && ClassicalEnd(raw) == at <= |raw|
  {
    if raw[0] != PAYLOAD_VERSION || |raw| == at
      then Ok(Device(raw[1..33], raw[33..65], Opk(raw), None, None))
    else if raw[at] != 1 then Err(BadPqFlag)
    else if |raw| < at + 1 + KEM_PRIVATE_BYTES + SIG_PRIVATE_BYTES then Err(Malformed)
    else Ok(Device(raw[1..33], raw[33..65], Opk(raw), Some(raw[at + 1..at + 2401]),
                   Some(raw[at + 2401..at + 4961])))
  }

  method DeserializeDeviceKeys(raw: seq<byte>) returns (r: Result<Device, PayloadError>)
    ensures r == Parse(raw)
  {
    var minClassical := 1 + 2 * 32 + 1;
    if |raw| < minClassical { return Err(Malformed); }
    var version := raw[0];
    if version != 1 && version != PAYLOAD_VERSION { return Err(UnsupportedVersion); }
    var ikx: Key := raw[1..33];
    var spk: Key := raw[33..65];
    var opkFlag := raw[65];
    var opk: Option<Key> := None;
    var offset := 66;
    if opkFlag == 1 {
      if |raw| < offset + 32 { return Err(Malformed); }
      opk := Some(raw[offset..offset + 32]);
      offset := offset + 32;
    } else if opkFlag != 0 {
      return Err(BadOpkFlag);
    }
    var pqKem: Option<seq<byte>> := None;
    var pqSig: Option<seq<byte>> := None;
    if version == PAYLOAD_VERSION && |raw| > offset {
      var pqFlag := raw[offset];
      if pqFlag != 1 { return Err(BadPqFlag); }
      offset := offset + 1;
      if |raw| < offset + KEM_PRIVATE_BYTES + SIG_PRIVATE_BYTES { return Err(Malformed); }
      pqKem := Some(raw[offset..offset + KEM_PRIVATE_BYTES]);
      offset := offset + KEM_PRIVATE_BYTES;
      pqSig := Some(raw[offset..offset + SIG_PRIVATE_BYTES]);
      offset := offset + SIG_PRIVATE_BYTES;
    }
    return Ok(Device(ikx, spk, opk, pqKem, pqSig));
  }

  // ---------- The theorems ----------

  lemma ClassicalSlices(version: byte, d: Device, rest: seq<byte>)
    ensures var raw := ClassicalPart(version, d) + rest;
            && |raw| == OPK_OFFSET + (if d.opk.Some? then 32 else 0) + |rest|
            && raw[0] == version && raw[1..33] == d.ikx && raw[33..65] == d.spk
            && raw[65] == (if d.opk.Some? then 1 else 0)
            && Opk(raw) == d.opk && raw[ClassicalEnd(raw)..] == rest
  {
    var raw := ClassicalPart(version, d) + rest;
    if d.opk.Some? { assert raw[66..98] == d.opk.value; }
  }

  lemma PqSlices(d: Device)
    requires Fits(d) && HasPq(d)
    ensures var part := PqPart(d);
            && |part| == 4961 && part[0..1] == [1]
            && |part[1..2401]| == 2400 && |part[2401..4961]| == 2560
            && (WellSized(d) ==> part[1..2401] == d.pqKem.value && part[2401..4961] == d.pqSig.value)
  {
    hide Zeros;
  }

  lemma SliceOfTail(raw: seq<byte>, at: nat, from: nat, to: nat)
    requires from <= to && at + to <= |raw|
    ensures raw[at..][from..to] == raw[at + from..at + to]
  {
  }

  /** A device's keys come back exactly when it holds both post-quantum keys in their sizes, or neither; one
      alone is lost. */
  lemma PayloadRoundTripExactly(d: Device)
    requires Fits(d)
    ensures Parse(Payload(d)) == Ok(d) <==> if HasPq(d) then WellSized(d) else d.pqKem.None? && d.pqSig.None?
    ensures !HasPq(d) ==> Parse(Payload(d)) == Ok(d.(pqKem := None, pqSig := None))
  {
    hide ClassicalPart, Opk, PqPart;
    var raw := Payload(d);
    ClassicalSlices(PAYLOAD_VERSION, d, PqPart(d));
    if HasPq(d) {
      var at := ClassicalEnd(raw);
      PqSlices(d);
      SliceOfTail(raw, at, 0, 1);
      SliceOfTail(raw, at, 1, 2401);
      SliceOfTail(raw, at, 2401, 4961);
      assert raw[at] == raw[at..at + 1][0];
    } else {
      NoPqPart(d);
    }
  }

  /** The classical keys read the same from a payload of version 1. */
  lemma VersionOneReadsTheSame(d: Device, trailing: seq<byte>)
    ensures Parse(ClassicalPart(1, d) + trailing) == Ok(d.(pqKem := None, pqSig := None))
  {
    hide ClassicalPart, Opk;
    ClassicalSlices(1, d, trailing);
  }

  /** Whatever payload is accepted, of either version, its keys are well-sized and survive being written
      again; and it is itself what is written exactly when it is of version 2 and ends where its keys do. */
  lemma RewritingKeepsKeys(raw: seq<byte>)
    requires Parse(raw).Ok?
    ensures var d := Parse(raw).value;
            && WellSized(d) && Parse(Payload(d)) == Ok(d)
            && (Payload(d) == raw <==>
                  raw[0] == PAYLOAD_VERSION
                  && |raw| == OPK_OFFSET + (if d.opk.Some? then 32 else 0)
                              + (if d.pqKem.Some? then 1 + KEM_PRIVATE_BYTES + SIG_PRIVATE_BYTES else 0))
  {
    hide ClassicalPart, Opk, PqPart;
    var d := Parse(raw).value;
    var at := ClassicalEnd(raw);
    PayloadRoundTripExactly(d);
    PrefixIsClassical(raw);
    ClassicalSlices(PAYLOAD_VERSION, d, PqPart(d));
    SplitAt(raw, at);
    if HasPq(d) {
      PqSlices(d);
      if |raw| == at + 4961 { TailIsPqPart(raw, at, d); }
    } else {
      NoPqPart(d);
    }
  }

  lemma TailIsPqPart(raw: seq<byte>, at: nat, d: Device)
    requires Fits(d) && HasPq(d) && WellSized(d) && |raw| == at + 4961 && raw[at] == 1
    requires raw[at + 1..at + 2401] == d.pqKem.value && raw[at + 2401..at + 4961] == d.pqSig.value
    ensures raw[at..] == PqPart(d)
  {
    hide Zeros;
    assert raw[at..] == [raw[at]] + raw[at + 1..at + 2401] + raw[at + 2401..at + 4961];
    assert PqPart(d) == [1] + d.pqKem.value + d.pqSig.value;
  }

  lemma PrefixIsClassical(raw: seq<byte>)
    requires Parse(raw).Ok?
    ensures raw[..ClassicalEnd(raw)] == ClassicalPart(raw[0], Parse(raw).value)
    ensures ClassicalEnd(raw) == OPK_OFFSET + if Parse(raw).value.opk.Some? then 32 else 0
  {
    var d := Parse(raw).value;
    assert raw[..66] == [raw[0]] + raw[1..33] + raw[33..65] + [raw[65]];
    if d.opk.Some? { assert raw[..98] == raw[..66] + raw[66..98]; }
  }
}
