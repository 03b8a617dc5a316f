/** The framing of one ratchet message and the string keys of the skipped-key map
    (`src/crypto/doubleRatchet.ts`, lines 88-141 and 578-623). */
module WireCodec {
  import opened Terms
  import opened Bytes
  import R = Ratchet

  const HEADER_SIZE: nat := 41
  const MESSAGE_VERSION: nat := 1
  const TAG_SIZE: nat := 16

  datatype WireHeader = WireHeader(version: nat, dh: seq<byte>, pn: nat, n: nat)
  datatype WireMessage = WireMessage(dh: seq<byte>, pn: u32, n: u32, ciphertext: seq<byte>)

  // ---------- The header ----------

  function HeaderBytes(h: WireHeader): (b: seq<byte>)
    requires |h.dh| == 32
    ensures |b| == HEADER_SIZE
  {
    [h.version % 0x100] + h.dh + U32Bytes(ToU32(h.pn)) + U32Bytes(ToU32(h.n))
  }

  method PackHeader(h: WireHeader) returns (r: Result<seq<byte>, R.Error>)
    ensures r == if |h.dh| == 32 then Ok(HeaderBytes(h)) else Err(R.Malformed)
  {
    if |h.dh| != 32 { return Err(R.Malformed); }
    var out := new byte[HEADER_SIZE](_ => 0);
    out[0] := h.version % 0x100;
    Set(out, h.dh, 1);
    SetUint32(out, 33, h.pn);
    SetUint32(out, 37, h.n);
    assert out[..] == HeaderBytes(h);
    return Ok(out[..]);
  }

  function UnpackHeader(raw: seq<byte>): Result<WireHeader, R.Error> {
    if |raw| != HEADER_SIZE then Err(R.Malformed)
    else if raw[0] != MESSAGE_VERSION then Err(R.UnsupportedVersion)
    else Ok(WireHeader(raw[0], raw[1..33], U32At(raw, 33), U32At(raw, 37)))
  }

  /** A header survives the wire exactly when it is of this version and its counters fit 32 bits. */
  lemma HeaderRoundTrip(h: WireHeader)
    requires |h.dh| == 32
    ensures UnpackHeader(HeaderBytes(h)) == Ok(h)
       <==> h.version == MESSAGE_VERSION && h.pn < U32_LIMIT && h.n < U32_LIMIT
  {
    hide U32Bytes, U32At;
    var raw := HeaderBytes(h);
    assert raw[1..33] == h.dh;
    assert raw[33..37] == U32Bytes(ToU32(h.pn)) && raw[37..41] == U32Bytes(ToU32(h.n));
    U32InPlace(raw, 33);
    U32InPlace(raw, 37);
    U32RoundTrip(ToU32(h.pn));
    U32RoundTrip(ToU32(h.n));
  }

  /** An accepted header is the packing of what it unpacks to. */
  lemma HeaderIsCanonical(raw: seq<byte>)
    requires UnpackHeader(raw).Ok?
    ensures var h := UnpackHeader(raw).value;
            |h.dh| == 32 && h.pn < U32_LIMIT && h.n < U32_LIMIT && HeaderBytes(h) == raw
  {
    hide U32Bytes, U32At;
    U32InPlace(raw, 33);
    U32InPlace(raw, 37);
    U32BytesOf(raw[33..37]);
    U32BytesOf(raw[37..41]);
    assert raw == [raw[0]] + raw[1..33] + raw[33..37] + raw[37..41];
  }

  // ---------- The message ----------

  function MessageBytes(h: WireHeader, ciphertext: seq<byte>): seq<byte>
    requires |h.dh| == 32
  {
    HeaderBytes(h) + ciphertext
  }

  method PackMessage(h: WireHeader, ciphertext: seq<byte>) returns (r: Result<seq<byte>, R.Error>)
    ensures r == if |ciphertext| < TAG_SIZE || |h.dh| != 32 then Err(R.Malformed)
                 else Ok(MessageBytes(h, ciphertext))
  {
    if |ciphertext| < TAG_SIZE { return Err(R.Malformed); }
    var out := new byte[HEADER_SIZE + |ciphertext|](_ => 0);
    var header := PackHeader(h);
    if header.Err? { return Err(header.error); }
    Set(out, header.value, 0);
    Set(out, ciphertext, HEADER_SIZE);
    assert out[..] == MessageBytes(h, ciphertext);
    return Ok(out[..]);
  }

  function UnpackMessage(raw: seq<byte>): Result<WireMessage, R.Error> {
    if |raw| < HEADER_SIZE + TAG_SIZE then Err(R.Malformed)
    else
      match UnpackHeader(raw[..HEADER_SIZE])
      case Err(error) => Err(error)
      case Ok(h) => Ok(WireMessage(h.dh, h.pn, h.n, raw[HEADER_SIZE..]))
  }

  /** Every message with 32-bit counters comes off the wire as it was put on, and the bytes the receiver
      authenticates are the header the sender authenticated. */
  lemma MessageRoundTrip(m: WireMessage)
    requires |m.dh| == 32 && |m.ciphertext| >= TAG_SIZE
    ensures var h := WireHeader(MESSAGE_VERSION, m.dh, m.pn, m.n);
            && UnpackMessage(MessageBytes(h, m.ciphertext)) == Ok(m)
            && MessageBytes(h, m.ciphertext)[..HEADER_SIZE] == HeaderBytes(h)
  {
    var h := WireHeader(MESSAGE_VERSION, m.dh, m.pn, m.n);
    var raw := MessageBytes(h, m.ciphertext);
    assert raw[..HEADER_SIZE] == HeaderBytes(h) && raw[HEADER_SIZE..] == m.ciphertext;
    HeaderRoundTrip(h);
  }

  /** No two byte strings are read as the same message. */
  lemma MessageIsCanonical(raw: seq<byte>)
    requires UnpackMessage(raw).Ok?
    ensures var m := UnpackMessage(raw).value;
            && |m.dh| == 32 && |m.ciphertext| >= TAG_SIZE
            && MessageBytes(WireHeader(MESSAGE_VERSION, m.dh, m.pn, m.n), m.ciphertext) == raw
  {
    HeaderIsCanonical(raw[..HEADER_SIZE]);
    assert raw == raw[..HEADER_SIZE] + raw[HEADER_SIZE..];
  }

  // ---------- Skipped-key map keys ----------

  const HEX: string := "0123456789abcdef"

  function HexDigit(c: char): Option<nat> {
    if '0' <= c <= '9' then Some((c - '0') as nat)
    else if 'a' <= c <= 'f' then Some(10 + (c - 'a') as nat)
    else if 'A' <= c <= 'F' then Some(10 + (c - 'A') as nat)
    else None
  }

  /** What a `Uint8Array` element becomes when it is assigned `Number.parseInt` of two characters in base 16:
      white space before and anything after the digits is skipped, a sign counts, and NaN is zero. */
  function ParseIntByte(c0: char, c1: char): byte {
    var d1 := HexDigit(c1);
    if IsWhitespace(c0) || c0 == '+' then (if d1.Some? then d1.value else 0)
    else if c0 == '-' then (if d1.Some? then (0x100 - d1.value) % 0x100 else 0)
    else
      match HexDigit(c0)
      case None => 0
      case Some(d0) => if d1.Some? then 16 * d0 + d1.value else d0
  }

  function Base16(bytes: seq<byte>): string {
    if bytes == [] then "" else [HEX[bytes[0] / 16], HEX[bytes[0] % 16]] + Base16(bytes[1..])
  }

  lemma {:induction false} Base16Snoc(bytes: seq<byte>, b: byte)
    ensures Base16(bytes + [b]) == Base16(bytes) + [HEX[b / 16], HEX[b % 16]]
  {
    if bytes == [] {
      assert [b][1..] == [];
      assert Base16([b]) == [HEX[b / 16], HEX[b % 16]] + Base16([]);
    } else {
      Base16Snoc(bytes[1..], b);
      assert (bytes + [b])[1..] == bytes[1..] + [b];
    }
  }

  method BytesToBase16(bytes: seq<byte>) returns (out: string)
    ensures out == Base16(bytes)
  {
    out := "";
    for i := 0 to |bytes|
      invariant out == Base16(bytes[..i])
    {
      Base16Snoc(bytes[..i], bytes[i]);
      assert bytes[..i] + [bytes[i]] == bytes[..i + 1];
      out := out + [HEX[bytes[i] / 16]];
      out := out + [HEX[bytes[i] % 16]];
    }
    assert bytes[..|bytes|] == bytes;
  }

  lemma {:induction false} Base16At(bytes: seq<byte>)
    ensures |Base16(bytes)| == 2 * |bytes|
    ensures forall i | 0 <= i < |bytes| :: ParseIntByte(Base16(bytes)[2 * i], Base16(bytes)[2 * i + 1]) == bytes[i]
  {
    hide ParseIntByte;
    if bytes != [] {
      Base16At(bytes[1..]);
      DigitRoundTrip(bytes[0]);
      var hex, rest := Base16(bytes), Base16(bytes[1..]);
      forall i | 0 < i < |bytes| ensures ParseIntByte(hex[2 * i], hex[2 * i + 1]) == bytes[i] {
        assert hex[2 * i] == rest[2 * (i - 1)] && hex[2 * i + 1] == rest[2 * (i - 1) + 1];
      }
    }
  }

  lemma DigitRoundTrip(b: byte)
    ensures ParseIntByte(HEX[b / 16], HEX[b % 16]) == b
  {
    HexDigitOf(b / 16);
    HexDigitOf(b % 16);
  }

  lemma HexDigitOf(d: nat)
    requires d < 16
    ensures HexDigit(HEX[d]) == Some(d) && !IsWhitespace(HEX[d]) && HEX[d] != '+' && HEX[d] != '-'
  {
  }

  // ---------- Hexadecimal, by character codes ----------

  /** A hexadecimal digit, in lower case or in either. */
  predicate LowerHex(c: char, v: nat) {
    (v < 10 && c as nat == 48 + v) || (10 <= v < 16 && c as nat == 87 + v)
  }

  predicate EitherHex(c: char, v: nat) { LowerHex(c, v) || (10 <= v < 16 && c as nat == 55 + v) }

  /** Two digits in lower case for each byte, the more significant first. */
  lemma {:induction false} Base16Digits(bytes: seq<byte>, i: nat)
    requires i < |bytes|
    ensures |Base16(bytes)| == 2 * |bytes|
    ensures LowerHex(Base16(bytes)[2 * i], bytes[i] / 16) && LowerHex(Base16(bytes)[2 * i + 1], bytes[i] % 16)
  {
    hide LowerHex, ParseIntByte;
    Base16At(bytes);
    if i > 0 {
      Base16Digits(bytes[1..], i - 1);
      var hex, rest := Base16(bytes), Base16(bytes[1..]);
      assert hex[2 * i] == rest[2 * (i - 1)] && hex[2 * i + 1] == rest[2 * (i - 1) + 1];
    } else {
      DigitIsLowerHex(bytes[0] / 16);
      DigitIsLowerHex(bytes[0] % 16);
    }
  }

  lemma DigitIsLowerHex(d: nat)
    requires d < 16
    ensures LowerHex(HEX[d], d)
  {
  }

  /** What two characters are read as: two digits as their value, a digit and something else as the digit, a digit
      behind white space or a sign as itself or its complement, and anything else as zero. */
  lemma PairsExactly(c0: char, c1: char, v0: nat, v1: nat)
    ensures EitherHex(c0, v0) && EitherHex(c1, v1) ==> ParseIntByte(c0, c1) == 16 * v0 + v1
    ensures EitherHex(c0, v0) && (forall v :: !EitherHex(c1, v)) ==> ParseIntByte(c0, c1) == v0
    ensures (IsWhitespace(c0) || c0 == '+') && EitherHex(c1, v1) ==> ParseIntByte(c0, c1) == v1
    ensures c0 == '-' && EitherHex(c1, v1) ==> ParseIntByte(c0, c1) == (256 - v1) % 256
    ensures (forall v :: !EitherHex(c0, v))
            && ((forall v :: !EitherHex(c1, v)) || (!IsWhitespace(c0) && c0 != '+' && c0 != '-')) ==>
              ParseIntByte(c0, c1) == 0
  {
    HexDigitIs(c0, v0);
    HexDigitIs(c1, v1);
    if HexDigit(c0).Some? { HexDigitIs(c0, HexDigit(c0).value); }
    if HexDigit(c1).Some? { HexDigitIs(c1, HexDigit(c1).value); }
    hide HexDigit;
  }

  lemma HexDigitIs(c: char, v: nat)
    ensures HexDigit(c) == Some(v) <==> EitherHex(c, v)
    ensures EitherHex(c, v) ==> !IsWhitespace(c) && c != '+' && c != '-'
  {
  }

  datatype HexError = OddLength

  /** `base16ToBytes`: an error for odd length, and otherwise one byte for two characters, whatever they
      are; it undoes `bytesToBase16`. */
  method Base16ToBytes(hex: string) returns (r: Result<seq<byte>, HexError>)
    ensures |hex| % 2 != 0 ==> r == Err(OddLength)
    ensures |hex| % 2 == 0 ==> r.Ok? && |r.value| == |hex| / 2
    ensures r.Ok? ==> forall i | 0 <= i < |r.value| :: r.value[i] == ParseIntByte(hex[2 * i], hex[2 * i + 1])
    ensures forall b: seq<byte> | hex == Base16(b) :: r == Ok(b)
  {
    hide ParseIntByte, Base16;
    if |hex| % 2 != 0 {
      forall b: seq<byte> ensures hex != Base16(b) { Base16At(b); }
      return Err(OddLength);
    }
    var out := new byte[|hex| / 2](_ => 0);
    for i := 0 to out.Length
      invariant forall j | 0 <= j < i :: out[j] == ParseIntByte(hex[2 * j], hex[2 * j + 1])
    {
      out[i] := ParseIntByte(hex[2 * i], hex[2 * i + 1]);
    }
    var bytes := out[..];
    forall b: seq<byte> | hex == Base16(b) ensures bytes == b {
      Base16At(b);
      assert |bytes| == |b| && forall j | 0 <= j < |b| :: bytes[j] == b[j];
    }
    return Ok(bytes);
  }

  /** The string under which the key of a remote key and an index is kept. */
  function SkipKey(remote: Key, index: u32): string { Base16(remote + U32Bytes(index)) }

  method ParseSkipKey(k: string, ghost remote: Key, ghost index: u32) returns (r: Key, i: u32)
    requires k == SkipKey(remote, index)
    ensures r == remote && i == index
  {
    var parsed := Base16ToBytes(k);
    var buf := parsed.value;
    r := buf[..32];
    i := U32At(buf, 32);
    U32InPlace(buf, 32);
    U32RoundTrip(index);
    assert buf[32..36] == U32Bytes(index);
  }

  /** Different slots have different strings. */
  lemma SkipKeyInjective(a: Key, i: u32, b: Key, j: u32)
    ensures SkipKey(a, i) == SkipKey(b, j) <==> a == b && i == j
  {
    if SkipKey(a, i) == SkipKey(b, j) {
      Base16Injective(a + U32Bytes(i), b + U32Bytes(j));
      assert (a + U32Bytes(i))[..32] == a && (b + U32Bytes(j))[..32] == b;
      assert (a + U32Bytes(i))[32..] == U32Bytes(i) && (b + U32Bytes(j))[32..] == U32Bytes(j);
      U32RoundTrip(i);
      U32RoundTrip(j);
    }
  }

  lemma Base16Injective(a: seq<byte>, b: seq<byte>)
    requires Base16(a) == Base16(b)
    ensures a == b
  {
    Base16At(a);
    Base16At(b);
    assert forall i | 0 <= i < |a| :: a[i] == b[i];
  }
}
