/** The input framing of the hybrid key derivation (`src/crypto/hybridKdf.ts`, lines 58-117): what SHA-256
    and HKDF are given determines every input. */
module HybridKdf {
  import opened Terms
  import opened Bytes

  datatype KdfError = BadVersion | SecretTooLong

  const CONTEXT_TEXT: string := "secure-messaging-hybrid-kem-handshake-v1"

  predicate IsAscii(text: string) { forall i | 0 <= i < |text| :: text[i] < 128 as char }

  function Utf8(text: string): (b: seq<byte>)
    requires IsAscii(text)
    ensures |b| == |text|
  {
    if text == "" then [] else [text[0] as nat] + Utf8(text[1..])
  }

  function Context(): (b: seq<byte>)
    ensures |b| == 40
  {
    Utf8(CONTEXT_TEXT)
  }

  datatype Inputs = Inputs(version: nat, aliceIk: Key, aliceIkx: Key, bobIk: Key, bobIkx: Key, bobSpk: Key,
                           bobPqKem: seq<byte>, bobPqSig: seq<byte>)

  /** What the transcript hashes, after its context. */
  function PreImage(context: seq<byte>, x: Inputs): seq<byte>
    requires x.version in {1, 2}
  {
    context + ([x.version] + x.aliceIk + x.aliceIkx + x.bobIk + x.bobIkx + x.bobSpk + (x.bobPqKem + x.bobPqSig))
  }

  method HybridTranscript(x: Inputs) returns (r: Result<seq<byte>, KdfError>)
    ensures r == if x.version in {1, 2} then Ok(PreImage(Context(), x)) else Err(BadVersion)
  {
    hide Context;
    if x.version != 1 && x.version != 2 { return Err(BadVersion); }
    var context := Context();
    var data := ConcatBytes([context, [x.version], x.aliceIk, x.aliceIkx, x.bobIk, x.bobIkx, x.bobSpk,
                             x.bobPqKem, x.bobPqSig]);
    JoinedThree(context, [x.version], x.aliceIk);
    JoinedThree(x.aliceIkx, x.bobIk, x.bobIkx);
    JoinedThree(x.bobSpk, x.bobPqKem, x.bobPqSig);
    JoinedNine([context, [x.version], x.aliceIk], [x.aliceIkx, x.bobIk, x.bobIkx],
               [x.bobSpk, x.bobPqKem, x.bobPqSig]);
    assert data == PreImage(context, x);
    return Ok(data);
  }

  lemma JoinedNine(a: seq<seq<byte>>, b: seq<seq<byte>>, c: seq<seq<byte>>)
    requires |a| == 3 && |b| == 3 && |c| == 3
    ensures Joined([a[0], a[1], a[2], b[0], b[1], b[2], c[0], c[1], c[2]]) == Joined(a) + Joined(b) + Joined(c)
  {
    JoinedAppend(a, b);
    JoinedAppend(a + b, c);
    assert a + b + c == [a[0], a[1], a[2], b[0], b[1], b[2], c[0], c[1], c[2]];
  }

  /** The pre-image determines the version and every field, given that the KEM key has its fixed size. */
  lemma PreImageInjective(context: seq<byte>, x: Inputs, y: Inputs)
    requires x.version in {1, 2} && y.version in {1, 2} && |x.bobPqKem| == |y.bobPqKem|
    ensures PreImage(context, x) == PreImage(context, y) <==> x == y
  {
    if PreImage(context, x) == PreImage(context, y) {
      var a, b := PreImage(context, x)[|context|..], PreImage(context, y)[|context|..];
      assert a == [x.version] + x.aliceIk + x.aliceIkx + x.bobIk + x.bobIkx + x.bobSpk + (x.bobPqKem + x.bobPqSig);
      assert b == [y.version] + y.aliceIk + y.aliceIkx + y.bobIk + y.bobIkx + y.bobSpk + (y.bobPqKem + y.bobPqSig);
      FieldsAt(x, a);
      FieldsAt(y, b);
    }
  }

  lemma FieldsAt(x: Inputs, a: seq<byte>)
    requires x.version < 0x100
    requires a == [x.version] + x.aliceIk + x.aliceIkx + x.bobIk + x.bobIkx + x.bobSpk + (x.bobPqKem + x.bobPqSig)
    ensures |a| >= 161 + |x.bobPqKem|
    ensures a[0] == x.version && a[1..33] == x.aliceIk && a[33..65] == x.aliceIkx && a[65..97] == x.bobIk
    ensures a[97..129] == x.bobIkx && a[129..161] == x.bobSpk
    ensures a[161..161 + |x.bobPqKem|] == x.bobPqKem && a[161 + |x.bobPqKem|..] == x.bobPqSig
  {
  }

  /** What `HybridTranscript` returns, by offset: the context as ASCII codes, the version, both of the
      initiator's identities, then the responder's, its signed prekey and its post-quantum keys. */
  lemma TranscriptLayout(x: Inputs)
    requires x.version in {1, 2}
    ensures var data := PreImage(Context(), x);
            && |data| == 201 + |x.bobPqKem| + |x.bobPqSig|
            && (forall i | 0 <= i < 40 :: data[i] == CONTEXT_TEXT[i] as nat)
            && data[40] == x.version
            && data[41..73] == x.aliceIk && data[73..105] == x.aliceIkx
            && data[105..137] == x.bobIk && data[137..169] == x.bobIkx && data[169..201] == x.bobSpk
            && data[201..201 + |x.bobPqKem|] == x.bobPqKem && data[201 + |x.bobPqKem|..] == x.bobPqSig
  {
    hide Context, Utf8;
    var rest := [x.version] + x.aliceIk + x.aliceIkx + x.bobIk + x.bobIkx + x.bobSpk + (x.bobPqKem + x.bobPqSig);
    var data := PreImage(Context(), x);
    ContextIsAscii();
    FieldsAt(x, rest);
    assert data == Context() + rest;
    forall i, j | 0 <= i <= j <= |rest| ensures data[40 + i..40 + j] == rest[i..j] {}
  }

  lemma ContextIsAscii()
    ensures forall i | 0 <= i < 40 :: Context()[i] == CONTEXT_TEXT[i] as nat
  {
    Utf8Codes(CONTEXT_TEXT);
  }

  lemma {:induction false} Utf8Codes(text: string)
    requires IsAscii(text)
    ensures forall i | 0 <= i < |text| :: Utf8(text)[i] == text[i] as nat
  {
    if text != "" { Utf8Codes(text[1..]); }
  }

  // ---------- The root secret ----------

  /** The two-byte length prefix. */
  function LengthPrefix(n: nat): (b: seq<byte>)
    requires n < 0x10000
    ensures |b| == 2
  {
    [n / 0x100, n % 0x100]
  }

  method EncodeLp(length: nat) returns (r: Result<seq<byte>, KdfError>)
    ensures r == if length < 0x10000 then Ok(LengthPrefix(length)) else Err(SecretTooLong)
  {
    if length > 0xffff { return Err(SecretTooLong); }
    var out := new byte[2](_ => 0);
    out[0] := length / 0x100;
    out[1] := length % 0x100;
    assert out[..] == LengthPrefix(length);
    return Ok(out[..]);
  }

  function Framed(z: seq<byte>): seq<byte>
    requires |z| < 0x10000
  {
    LengthPrefix(|z|) + z
  }

  function Ikm(transcript: Key, zClassical: seq<byte>, zPq: seq<byte>): seq<byte>
    requires |zClassical| < 0x10000 && |zPq| < 0x10000
  {
    transcript + (Framed(zClassical) + Framed(zPq))
  }

  method HybridIkm(transcript: Key, zClassical: seq<byte>, zPq: seq<byte>)
    returns (r: Result<seq<byte>, KdfError>)
    ensures r == if |zClassical| < 0x10000 && |zPq| < 0x10000 then Ok(Ikm(transcript, zClassical, zPq))
                 else Err(SecretTooLong)
  {
    var a := EncodeLp(|zClassical|);
    if a.Err? { return Err(a.error); }
    var b := EncodeLp(|zPq|);
    if b.Err? { return Err(b.error); }
    var ikm := ConcatBytes([transcript, a.value, zClassical, b.value, zPq]);
    JoinedThree(transcript, a.value, zClassical);
    JoinedTwo(b.value, zPq);
    JoinedAppend([transcript, a.value, zClassical], [b.value, zPq]);
    assert [transcript, a.value, zClassical] + [b.value, zPq] == [transcript, a.value, zClassical, b.value, zPq];
    assert ikm == Ikm(transcript, zClassical, zPq);
    return Ok(ikm);
  }

  /** What `HybridIkm` returns, by offset: the transcript, and the classical before the post-quantum secret, each
      behind its length, the more significant byte first. */
  lemma IkmLayout(transcript: Key, zClassical: seq<byte>, zPq: seq<byte>)
    requires |zClassical| < 0x10000 && |zPq| < 0x10000
    ensures var ikm, at := Ikm(transcript, zClassical, zPq), 34 + |zClassical|;
            && |ikm| == at + 2 + |zPq| && ikm[..32] == transcript
            && ikm[32] as nat * 256 + ikm[33] == |zClassical| && ikm[34..at] == zClassical
            && ikm[at] as nat * 256 + ikm[at + 1] == |zPq| && ikm[at + 2..] == zPq
  {
    var ikm := Ikm(transcript, zClassical, zPq);
    assert ikm == transcript + LengthPrefix(|zClassical|) + zClassical + LengthPrefix(|zPq|) + zPq;
  }

  /** A length prefix tells where its secret ends, whatever follows. */
  lemma FramedInjective(a: seq<byte>, restA: seq<byte>, b: seq<byte>, restB: seq<byte>)
    requires |a| < 0x10000 && |b| < 0x10000
    ensures Framed(a) + restA == Framed(b) + restB <==> a == b && restA == restB
  {
    if Framed(a) + restA == Framed(b) + restB {
      var s, t := Framed(a) + restA, Framed(b) + restB;
      assert s[0] == |a| / 0x100 && s[1] == |a| % 0x100 && t[0] == |b| / 0x100 && t[1] == |b| % 0x100;
      assert |a| == |b|;
      assert s[2..2 + |a|] == a && t[2..2 + |b|] == b && s[2 + |a|..] == restA && t[2 + |b|..] == restB;
    }
  }

  /** The key material determines the transcript and both secrets, of any lengths up to 65535. */
  lemma IkmInjective(t: Key, a: seq<byte>, b: seq<byte>, u: Key, c: seq<byte>, d: seq<byte>)
    requires |a| < 0x10000 && |b| < 0x10000 && |c| < 0x10000 && |d| < 0x10000
    ensures Ikm(t, a, b) == Ikm(u, c, d) <==> t == u && a == c && b == d
  {
    hide LengthPrefix;
    if Ikm(t, a, b) == Ikm(u, c, d) {
      assert Ikm(t, a, b)[..32] == t && Ikm(u, c, d)[..32] == u;
      assert Ikm(t, a, b)[32..] == Framed(a) + Framed(b) && Ikm(u, c, d)[32..] == Framed(c) + Framed(d);
      FramedInjective(a, Framed(b), c, Framed(d));
      assert Framed(b) + [] == Framed(b) && Framed(d) + [] == Framed(d);
      FramedInjective(b, [], d, []);
    }
  }
}
