/** The bytes of the two init payloads (`src/crypto/x3dh.ts`, lines 461-609). */
module InitFrames {
  import opened Terms
  import opened Bytes

  datatype FrameError = InvalidPayload | UnsupportedVersion

  const NO_OPK_INDEX: nat := 0xff
  const V1_BYTES: nat := 66
  const V2_BYTES: nat := 2338
  const KEM_CIPHERTEXT_BYTES: nat := 1088
  const KEM_PUBLIC_BYTES: nat := 1184

  datatype Init1 = Init1(ikx: seq<byte>, ek: seq<byte>, opkIndex: Option<nat>)
  datatype Init2 = Init2(ikx: seq<byte>, kemCiphertext: seq<byte>, kemPublic: seq<byte>, ek: seq<byte>,
                         opkIndex: Option<nat>)

  /** The last byte: no index, or what is left of one after `& 0xff`. */
  function IndexByte(opkIndex: Option<nat>): byte {
    if opkIndex.None? then NO_OPK_INDEX else opkIndex.value % 0x100
  }

  function IndexOf(b: byte): Option<nat> { if b == NO_OPK_INDEX then None else Some(b) }

  /** An index survives the byte exactly when it is absent or below 255. */
  lemma IndexRoundTrip(opkIndex: Option<nat>)
    ensures IndexOf(IndexByte(opkIndex)) == opkIndex <==> opkIndex.None? || opkIndex.value < NO_OPK_INDEX
  {
  }

  // ---------- Version 1 ----------

  predicate Sized1(x: Init1) { |x.ikx| == 32 && |x.ek| == 32 }

  function Frame1(x: Init1): (b: seq<byte>)
    requires Sized1(x)
    ensures |b| == V1_BYTES
  {
    [1] + x.ikx + x.ek + [IndexByte(x.opkIndex)]
  }

  method BuildInitPayload(x: Init1) returns (r: Result<seq<byte>, FrameError>)
    ensures r == if Sized1(x) then Ok(Frame1(x)) else Err(InvalidPayload)
  {
    if |x.ikx| != 32 { return Err(InvalidPayload); }
    if |x.ek| != 32 { return Err(InvalidPayload); }
    var out := new byte[V1_BYTES](_ => 0);
    out[0] := 1;
    Set(out, x.ikx, 1);
    Set(out, x.ek, 33);
    out[65] := IndexByte(x.opkIndex);
    assert out[..] == Frame1(x);
    return Ok(out[..]);
  }

  function ParseInitPayload(payload: seq<byte>): Result<Init1, FrameError> {
    if |payload| != V1_BYTES then Err(InvalidPayload)
    else if payload[0] != 1 then Err(UnsupportedVersion)
    else Ok(Init1(payload[1..33], payload[33..65], IndexOf(payload[65])))
  }

  /** Parsing what was built gives it back exactly when the index is absent or below 255. */
  lemma ParseBuilt1(x: Init1)
    requires Sized1(x)
    ensures ParseInitPayload(Frame1(x)) == Ok(x) <==> x.opkIndex.None? || x.opkIndex.value < NO_OPK_INDEX
  {
    assert Frame1(x)[1..33] == x.ikx && Frame1(x)[33..65] == x.ek;
    IndexRoundTrip(x.opkIndex);
  }

  /** Building what was parsed gives the same bytes. */
  lemma BuildParsed1(payload: seq<byte>)
    requires ParseInitPayload(payload).Ok?
    ensures Sized1(ParseInitPayload(payload).value) && Frame1(ParseInitPayload(payload).value) == payload
  {
    assert payload == [payload[0]] + payload[1..33] + payload[33..65] + [payload[65]];
  }

  // ---------- Version 2 ----------

  predicate Sized2(x: Init2) {
    && |x.ikx| == 32 && |x.kemCiphertext| == KEM_CIPHERTEXT_BYTES && |x.kemPublic| == KEM_PUBLIC_BYTES
    && |x.ek| == 32
  }

  function Frame2(x: Init2): (b: seq<byte>)
    requires Sized2(x)
    ensures |b| == V2_BYTES
  {
    [2] + x.ikx + x.kemCiphertext + x.kemPublic + x.ek + [IndexByte(x.opkIndex)]
  }

  method BuildInitPayloadV2(x: Init2) returns (r: Result<seq<byte>, FrameError>)
    ensures r == if Sized2(x) then Ok(Frame2(x)) else Err(InvalidPayload)
  {
    if |x.ikx| != 32 { return Err(InvalidPayload); }
    if |x.kemCiphertext| != KEM_CIPHERTEXT_BYTES { return Err(InvalidPayload); }
    if |x.kemPublic| != KEM_PUBLIC_BYTES { return Err(InvalidPayload); }
    if |x.ek| != 32 { return Err(InvalidPayload); }
    var out := new byte[V2_BYTES](_ => 0);
    out[0] := 2;
    Set(out, x.ikx, 1);
    Set(out, x.kemCiphertext, 1 + 32);
    assert out[..1121] == [2] + x.ikx + x.kemCiphertext;
    Set(out, x.kemPublic, 1 + 32 + KEM_CIPHERTEXT_BYTES);
    assert out[..2305] == [2] + x.ikx + x.kemCiphertext + x.kemPublic;
    Set(out, x.ek, 1 + 32 + KEM_CIPHERTEXT_BYTES + KEM_PUBLIC_BYTES);
    assert out[..2337] == [2] + x.ikx + x.kemCiphertext + x.kemPublic + x.ek;
    out[V2_BYTES - 1] := IndexByte(x.opkIndex);
    assert out[..] == Frame2(x);
    return Ok(out[..]);
  }

  function ParseInitPayloadV2(payload: seq<byte>): Result<Init2, FrameError> {
    if |payload| != V2_BYTES then Err(InvalidPayload)
    else if payload[0] != 2 then Err(UnsupportedVersion)
    else Ok(Init2(payload[1..33], payload[33..1121], payload[1121..2305], payload[2305..2337],
                  IndexOf(payload[2337])))
  }

  lemma ParseBuilt2(x: Init2)
    requires Sized2(x)
    ensures ParseInitPayloadV2(Frame2(x)) == Ok(x) <==> x.opkIndex.None? || x.opkIndex.value < NO_OPK_INDEX
  {
    var b := Frame2(x);
    assert b[1..33] == x.ikx && b[33..1121] == x.kemCiphertext && b[1121..2305] == x.kemPublic;
    assert b[2305..2337] == x.ek && b[2337] == IndexByte(x.opkIndex);
    IndexRoundTrip(x.opkIndex);
  }

  lemma BuildParsed2(payload: seq<byte>)
    requires ParseInitPayloadV2(payload).Ok?
    ensures Sized2(ParseInitPayloadV2(payload).value) && Frame2(ParseInitPayloadV2(payload).value) == payload
  {
    assert payload == [payload[0]] + payload[1..33] + payload[33..1121] + payload[1121..2305]
                      + payload[2305..2337] + [payload[2337]];
  }

  // ---------- Both versions ----------

  function DetectInitVersion(payload: seq<byte>): Result<byte, FrameError> {
    if |payload| == 0 then Err(InvalidPayload) else Ok(payload[0])
  }

  /** No bytes are accepted by both parsers, and the first byte says which one may accept. */
  lemma VersionsAreDisjoint(payload: seq<byte>)
    ensures !(ParseInitPayload(payload).Ok? && ParseInitPayloadV2(payload).Ok?)
    ensures ParseInitPayload(payload).Ok? <==> DetectInitVersion(payload) == Ok(1) && |payload| == V1_BYTES
    ensures ParseInitPayloadV2(payload).Ok? <==> DetectInitVersion(payload) == Ok(2) && |payload| == V2_BYTES
  {
  }
}
