/** base64url without padding, section 5 of RFC 4648 (`src/crypto/base64url.ts`). The source's shifts and
    masks act on disjoint bits; they are written here as the arithmetic that they compute. */
module Base64Url {
  import opened Terms

  const UPPER: string := "ABCDEFGHIJKLMNOPQRSTUVWXYZ"
  const LOWER: string := "abcdefghijklmnopqrstuvwxyz"
  const REST: string := "0123456789-_"
  const ALPHABET: string := UPPER + LOWER + REST

  datatype DecodeError = InvalidCharacter

  // ---------- The alphabet ----------

  /** `URL_SAFE_ALPHABET.charAt`. */
  function CharAt(i: nat): (c: char)
    requires i < 64
  {
    ALPHABET[i]
  }

  /** `URL_SAFE_ALPHABET.indexOf`. */
  function DecodeChar(c: char): Option<nat> {
    if 'A' <= c <= 'Z' then Some((c - 'A') as nat)
    else if 'a' <= c <= 'z' then Some(26 + (c - 'a') as nat)
    else if '0' <= c <= '9' then Some(52 + (c - '0') as nat)
    else if c == '-' then Some(62)
    else if c == '_' then Some(63)
    else None
  }

  predicate InAlphabet(c: char) { DecodeChar(c).Some? }

  lemma AlphabetIsIndexed(i: nat)
    requires i < 64
    ensures DecodeChar(CharAt(i)) == Some(i)
  {
    if i < 26 {
      UpperAt(i);
    } else if i < 52 {
      LowerAt(i);
    } else {
      RestAt(i);
    }
    hide CharAt;
  }

  lemma UpperAt(i: nat)
    requires i < 26
    ensures CharAt(i) == 'A' + i as char
  {
    assert CharAt(i) == UPPER[i];
  }

  lemma LowerAt(i: nat)
    requires 26 <= i < 52
    ensures CharAt(i) == 'a' + (i - 26) as char
  {
    assert CharAt(i) == LOWER[i - 26];
  }

  lemma RestAt(i: nat)
    requires 52 <= i < 64
    ensures CharAt(i) == if i < 62 then '0' + (i - 52) as char else if i == 62 then '-' else '_'
  {
    assert CharAt(i) == REST[i - 52];
  }

  lemma IndexOfIsExact(c: char, i: nat)
    requires i < 64
    ensures DecodeChar(c) == Some(i) <==> CharAt(i) == c
  {
    hide CharAt;
    AlphabetIsIndexed(i);
  }

  // ---------- Encoding ----------

  /** `base64Chars`: four characters for 24 bits. */
  function Base64Chars(threeBytes: nat): (s: string)
    requires threeBytes < 0x1_000000
    ensures |s| == 4
  {
    [CharAt(threeBytes / 0x40000 % 64), CharAt(threeBytes / 0x1000 % 64), CharAt(threeBytes / 64 % 64),
     CharAt(threeBytes % 64)]
  }

  function ThreeBytes(a: nat, b: nat, c: nat): nat { a * 0x10000 + b * 0x100 + c }

  function LastOne(a: nat): (s: string)
    requires a < 0x100
    ensures |s| == 2
  {
    [CharAt(a / 4), CharAt(a * 16 % 64)]
  }

  function LastTwo(a: nat, b: nat): (s: string)
    requires a < 0x100 && b < 0x100
    ensures |s| == 3
  {
    [CharAt(a / 4), CharAt((a * 16 + b / 16) % 64), CharAt(b * 4 % 64)]
  }

  function Encoded(b: seq<byte>): string {
    if |b| == 0 then ""
    else if |b| == 1 then LastOne(b[0])
    else if |b| == 2 then LastTwo(b[0], b[1])
    else Base64Chars(ThreeBytes(b[0], b[1], b[2])) + Encoded(b[3..])
  }

  method EncodeBase64Url(bytes: seq<byte>) returns (out: string)
    ensures out == Encoded(bytes)
  {
    hide Base64Chars, LastOne, LastTwo;
    out := "";
    var i := 0;
    while i + 2 < |bytes|
      invariant 0 <= i <= |bytes|
      invariant out + Encoded(bytes[i..]) == Encoded(bytes)
    {
      assert bytes[i..][3..] == bytes[i + 3..];
      out := out + Base64Chars(ThreeBytes(bytes[i], bytes[i + 1], bytes[i + 2]));
      i := i + 3;
    }
    var remaining := |bytes| - i;
    if remaining == 1 {
      out := out + LastOne(bytes[i]);
    } else if remaining == 2 {
      out := out + LastTwo(bytes[i], bytes[i + 1]);
    }
  }

  // ---------- Decoding ----------

  function FirstByte(v0: nat, v1: nat): byte { (v0 * 4 + v1 / 16) % 0x100 }
  function SecondByte(v1: nat, v2: nat): byte { (v1 % 16 * 16 + v2 / 4) % 0x100 }
  function ThirdByte(v2: nat, v3: nat): byte { (v2 % 4 * 64 + v3) % 0x100 }

  /** The bytes of up to four characters; a single one is dropped unread. */
  function Group(chars: string): (r: Result<seq<byte>, DecodeError>)
    requires |chars| <= 4
    ensures r.Ok? ==> |r.value| == |chars| * 6 / 8
  {
    if |chars| < 2 then Ok([])
    else
      var v0, v1 := DecodeChar(chars[0]), DecodeChar(chars[1]);
      if v0.None? || v1.None? then Err(InvalidCharacter)
      else if |chars| == 2 then Ok([FirstByte(v0.value, v1.value)])
      else
        var v2 := DecodeChar(chars[2]);
        if v2.None? then Err(InvalidCharacter)
        else if |chars| == 3 then Ok([FirstByte(v0.value, v1.value), SecondByte(v1.value, v2.value)])
        else
          var v3 := DecodeChar(chars[3]);
          if v3.None? then Err(InvalidCharacter)
          else Ok([FirstByte(v0.value, v1.value), SecondByte(v1.value, v2.value), ThirdByte(v2.value, v3.value)])
  }

  function Before(first: Result<seq<byte>, DecodeError>, rest: Result<seq<byte>, DecodeError>)
    : Result<seq<byte>, DecodeError>
  {
    if first.Err? then first else if rest.Err? then rest else Ok(first.value + rest.value)
  }

  lemma BeforeIsAssociative(a: Result<seq<byte>, DecodeError>, b: Result<seq<byte>, DecodeError>,
                            c: Result<seq<byte>, DecodeError>)
    ensures Before(Before(a, b), c) == Before(a, Before(b, c))
    ensures Before(Ok([]), c) == c
  {
    if c.Ok? { assert [] + c.value == c.value; }
    if a.Ok? && b.Ok? && c.Ok? { assert a.value + b.value + c.value == a.value + (b.value + c.value); }
  }

  function Decoded(clean: string): Result<seq<byte>, DecodeError> {
    if |clean| < 4 then Group(clean) else Before(Group(clean[..4]), Decoded(clean[4..]))
  }

  /** Without the `=` characters at its end. */
  function Stripped(s: string): string {
    if s != "" && s[|s| - 1] == '=' then Stripped(s[..|s| - 1]) else s
  }

  method DecodeBase64Url(input: string) returns (r: Result<seq<byte>, DecodeError>)
    ensures r == Decoded(Stripped(input))
  {
    var padded := input;
    while |padded| % 4 != 0
      invariant Stripped(padded) == Stripped(input)
      decreases (4 - |padded| % 4) % 4
    {
      padded := padded + "=";
      assert padded[..|padded| - 1] + "=" == padded;
    }
    var clean := Stripped(padded);
    r := DecodeClean(clean);
  }

  method DecodeClean(clean: string) returns (r: Result<seq<byte>, DecodeError>)
    ensures r == Decoded(clean)
  {
    hide Group, Before, Decoded;
    var out := new byte[|clean| * 6 / 8](_ => 0);
    var oi, i := 0, 0;
    assert out[..0] == [] && clean[0..] == clean;
    BeforeIsAssociative(Ok([]), Ok([]), Decoded(clean));
    while i + 4 <= |clean|
      invariant 0 <= i <= |clean| && i % 4 == 0 && oi == i / 4 * 3
      invariant Decoded(clean) == Before(Ok(out[..oi]), Decoded(clean[i..]))
    {
      var group := Group(clean[i..i + 4]);
      GroupSplits(clean[i..], out[..oi]);
      assert clean[i..][..4] == clean[i..i + 4] && clean[i..][4..] == clean[i + 4..];
      if group.Err? { return Err(group.error); }
      ghost var front := out[..oi];
      out[oi] := group.value[0];
      out[oi + 1] := group.value[1];
      out[oi + 2] := group.value[2];
      assert out[..oi + 3] == front + group.value;
      oi := oi + 3;
      i := i + 4;
    }
    var group := Group(clean[i..]);
    ghost var front := out[..oi];
    LastGroup(front, clean[i..]);
    if group.Err? { return Err(group.error); }
    if |group.value| > 0 { out[oi] := group.value[0]; }
    if |group.value| > 1 { out[oi + 1] := group.value[1]; }
    assert out[..] == front + group.value;
    return Ok(out[..]);
  }

  lemma GroupSplits(clean: string, front: seq<byte>)
    requires |clean| >= 4
    ensures var group := Group(clean[..4]);
            Before(Ok(front), Decoded(clean))
              == if group.Err? then group else Before(Ok(front + group.value), Decoded(clean[4..]))
  {
    hide Group;
    BeforeIsAssociative(Ok(front), Group(clean[..4]), Decoded(clean[4..]));
  }

  lemma LastGroup(front: seq<byte>, rest: string)
    requires |rest| < 4
    ensures Before(Ok(front), Decoded(rest))
         == if Group(rest).Err? then Group(rest) else Ok(front + Group(rest).value)
  {
    hide Group;
  }

  // ---------- The round trip ----------

  lemma ThreeBytesSplit(a: byte, b: byte, c: byte)
    ensures var n := ThreeBytes(a, b, c);
            && n < 0x1_000000
            && n / 0x40000 % 64 == a / 4 && n / 0x1000 % 64 == a % 4 * 16 + b / 16
            && n / 64 % 64 == b % 16 * 4 + c / 64 && n % 64 == c % 64
  {
    DigitsSplit(a / 4, a % 4, b / 16, b % 16, c / 64, c % 64);
  }

  lemma DigitsSplit(x1: nat, x0: nat, y1: nat, y0: nat, z1: nat, z0: nat)
    requires x1 < 64 && x0 < 4 && y1 < 16 && y0 < 16 && z1 < 4 && z0 < 64
    ensures var n := ThreeBytes(4 * x1 + x0, 16 * y1 + y0, 64 * z1 + z0);
            && n < 0x1_000000
            && n / 0x40000 % 64 == x1 && n / 0x1000 % 64 == x0 * 16 + y1
            && n / 64 % 64 == y0 * 4 + z1 && n % 64 == z0
  {
    var n := ThreeBytes(4 * x1 + x0, 16 * y1 + y0, 64 * z1 + z0);
    Quotient(n, 0x40000, x1);
    Quotient(n, 0x1000, 64 * x1 + x0 * 16 + y1);
    Quotient(n, 64, 64 * (64 * x1 + x0 * 16 + y1) + y0 * 4 + z1);
    Remainder(64 * x1 + x0 * 16 + y1, x1, x0 * 16 + y1);
    Remainder(64 * (64 * x1 + x0 * 16 + y1) + y0 * 4 + z1, 64 * x1 + x0 * 16 + y1, y0 * 4 + z1);
    Remainder(n, 64 * (64 * x1 + x0 * 16 + y1) + y0 * 4 + z1, z0);
  }

  lemma Quotient(n: nat, d: nat, q: nat)
    requires d in {0x40000, 0x1000, 64} && d * q <= n < d * q + d
    ensures n / d == q
  {
  }

  lemma Remainder(n: nat, q: nat, r: nat)
    requires n == 64 * q + r && r < 64
    ensures n % 64 == r
  {
  }

  /** The three bytes come back from the four values. */
  lemma BytesFromValues(a: byte, b: byte, c: byte)
    ensures FirstByte(a / 4, a % 4 * 16 + b / 16) == a
    ensures SecondByte(a % 4 * 16 + b / 16, b % 16 * 4 + c / 64) == b
    ensures ThirdByte(b % 16 * 4 + c / 64, c % 64) == c
  {
    var x: nat, y: nat, z: nat := a, b, c;
    assert (x % 4 * 16 + y / 16) / 16 == x % 4 && (x % 4 * 16 + y / 16) % 16 == y / 16;
    assert (y % 16 * 4 + z / 64) / 4 == y % 16 && (y % 16 * 4 + z / 64) % 4 == z / 64;
  }

  /** What two, three or four characters of the alphabet decode to. */
  lemma GroupOfValues(v0: nat, v1: nat, v2: nat, v3: nat)
    requires v0 < 64 && v1 < 64 && v2 < 64 && v3 < 64
    ensures Group([CharAt(v0), CharAt(v1)]) == Ok([FirstByte(v0, v1)])
    ensures Group([CharAt(v0), CharAt(v1), CharAt(v2)]) == Ok([FirstByte(v0, v1), SecondByte(v1, v2)])
    ensures Group([CharAt(v0), CharAt(v1), CharAt(v2), CharAt(v3)])
         == Ok([FirstByte(v0, v1), SecondByte(v1, v2), ThirdByte(v2, v3)])
  {
    hide CharAt, DecodeChar, FirstByte, SecondByte, ThirdByte;
    AlphabetIsIndexed(v0);
    AlphabetIsIndexed(v1);
    AlphabetIsIndexed(v2);
    AlphabetIsIndexed(v3);
  }

  /** The characters of the last one or two bytes, without the shifts. */
  lemma LastCharacters(a: byte, b: byte)
    ensures LastOne(a) == [CharAt(a / 4), CharAt(a % 4 * 16)]
    ensures LastTwo(a, b) == [CharAt(a / 4), CharAt(a % 4 * 16 + b / 16), CharAt(b % 16 * 4)]
  {
    hide CharAt;
    var x: nat, y: nat := a, b;
    Remainder(x * 16, x / 4, x % 4 * 16);
    Remainder(x * 16 + y / 16, x / 4, x % 4 * 16 + y / 16);
    Remainder(y * 4, y / 16, y % 16 * 4);
  }

  lemma GroupOfThree(a: byte, b: byte, c: byte)
    requires ThreeBytes(a, b, c) < 0x1_000000
    ensures Group(Base64Chars(ThreeBytes(a, b, c))) == Ok([a, b, c])
  {
    hide CharAt, ThreeBytes, FirstByte, SecondByte, ThirdByte, Group;
    ThreeBytesSplit(a, b, c);
    GroupOfValues(a / 4, a % 4 * 16 + b / 16, b % 16 * 4 + c / 64, c % 64);
    BytesFromValues(a, b, c);
  }

  lemma GroupOfRest(a: byte, b: byte)
    ensures Group(LastOne(a)) == Ok([a]) && Group(LastTwo(a, b)) == Ok([a, b])
  {
    hide CharAt, LastOne, LastTwo, FirstByte, SecondByte, ThirdByte, Group;
    LastCharacters(a, b);
    GroupOfValues(a / 4, a % 4 * 16, 0, 0);
    GroupOfValues(a / 4, a % 4 * 16 + b / 16, b % 16 * 4, 0);
    BytesFromValues(a, 0, 0);
    BytesFromValues(a, b, 0);
  }

  lemma GroupOfNothing()
    ensures Group("") == Ok([])
  {
  }

  lemma {:induction false} DecodeEncoded(b: seq<byte>)
    ensures Decoded(Encoded(b)) == Ok(b)
    decreases |b|
  {
    if |b| == 0 {
      GroupOfNothing();
    } else if |b| < 3 {
      DecodeRest(b);
    } else {
      hide Encoded, Group;
      EncodedUnfolds(b);
      ThreeBytesSplit(b[0], b[1], b[2]);
      GroupOfThree(b[0], b[1], b[2]);
      DecodeEncoded(b[3..]);
      assert [b[0], b[1], b[2]] + b[3..] == b;
    }
  }

  lemma DecodeRest(b: seq<byte>)
    requires 1 <= |b| <= 2
    ensures Decoded(Encoded(b)) == Ok(b)
  {
    hide LastOne, LastTwo, Group;
    if |b| == 1 {
      GroupOfRest(b[0], 0);
      assert b == [b[0]];
    } else {
      GroupOfRest(b[0], b[1]);
      assert b == [b[0], b[1]];
    }
  }

  lemma EncodedUnfolds(b: seq<byte>)
    requires |b| >= 3
    ensures ThreeBytes(b[0], b[1], b[2]) < 0x1_000000 && |Encoded(b)| >= 4
    ensures Encoded(b)[..4] == Base64Chars(ThreeBytes(b[0], b[1], b[2])) && Encoded(b)[4..] == Encoded(b[3..])
  {
    hide Base64Chars;
    ThreeBytesSplit(b[0], b[1], b[2]);
  }

  /** The encoding has ceil(4n / 3) characters, all of them in the alphabet. */
  lemma {:induction false} EncodedShape(b: seq<byte>)
    ensures |Encoded(b)| == (4 * |b| + 2) / 3
    ensures forall i | 0 <= i < |Encoded(b)| :: exists v: nat :: v < 64 && CharAt(v) == Encoded(b)[i]
    decreases |b|
  {
    hide CharAt;
    if |b| >= 3 { EncodedShape(b[3..]); }
  }

  function Padding(k: nat): string { seq(k, _ => '=') }

  lemma {:induction false} StripsPadding(s: string, k: nat)
    requires s == "" || s[|s| - 1] != '='
    ensures Stripped(s + Padding(k)) == s
  {
    if k == 0 {
      assert s + Padding(0) == s;
    } else {
      var padded := s + Padding(k);
      assert padded[..|padded| - 1] == s + Padding(k - 1);
      StripsPadding(s, k - 1);
    }
  }

  /** Every byte sequence comes back from its encoding, with any number of `=` characters behind it. */
  lemma Base64RoundTrip(b: seq<byte>, k: nat)
    ensures Decoded(Stripped(Encoded(b) + Padding(k))) == Ok(b)
  {
    hide CharAt, DecodeChar;
    EncodedShape(b);
    if Encoded(b) != "" {
      var v :| v < 64 && CharAt(v) == Encoded(b)[|Encoded(b)| - 1];
      AlphabetIsIndexed(v);
      PaddingIsNotInAlphabet();
    }
    StripsPadding(Encoded(b), k);
    DecodeEncoded(b);
  }

  lemma PaddingIsNotInAlphabet()
    ensures DecodeChar('=') == None
  {
  }

  /** What the decoder accepts: every character is in the alphabet, except that a single last one of an
      unfinished group is not looked at. */
  lemma {:induction false} AcceptsExactly(clean: string)
    ensures Decoded(clean).Ok? <==> AllInAlphabet(clean[..|clean| - if |clean| % 4 == 1 then 1 else 0])
    ensures Decoded(clean).Ok? ==> |Decoded(clean).value| == |clean| * 6 / 8
    decreases |clean|
  {
    hide DecodeChar, Group, AllInAlphabet;
    var dropped := if |clean| % 4 == 1 then 1 else 0;
    var read := clean[..|clean| - dropped];
    if |clean| >= 4 {
      var first, rest := clean[..4], clean[4..];
      AcceptsExactly(rest);
      GroupAccepts(first);
      assert first[..4] == first;
      assert read == first + rest[..|rest| - dropped];
      AllInBoth(first, rest[..|rest| - dropped]);
    } else {
      GroupAccepts(clean);
    }
  }

  lemma GroupAccepts(chars: string)
    requires |chars| <= 4
    ensures Group(chars).Ok? <==> AllInAlphabet(chars[..|chars| - if |chars| == 1 then 1 else 0])
  {
    hide DecodeChar;
  }

  predicate AllInAlphabet(s: string) { forall i | 0 <= i < |s| :: InAlphabet(s[i]) }

  lemma AllInBoth(a: string, b: string)
    ensures AllInAlphabet(a + b) <==> AllInAlphabet(a) && AllInAlphabet(b)
  {
    hide DecodeChar;
    if AllInAlphabet(a + b) {
      assert forall i | 0 <= i < |a| :: a[i] == (a + b)[i];
      assert forall i | 0 <= i < |b| :: b[i] == (a + b)[|a| + i];
    }
  }

  // ---------- Which strings are encodings ----------

  function ValueOf(c: char): nat { if DecodeChar(c).Some? then DecodeChar(c).value else 0 }

  /** The bits of the last character that no byte takes: four of two characters, two of three. */
  predicate UnusedBitsZero(clean: string) {
    && (|clean| % 4 == 2 ==> ValueOf(clean[|clean| - 1]) % 16 == 0)
    && (|clean| % 4 == 3 ==> ValueOf(clean[|clean| - 1]) % 4 == 0)
  }

  lemma ValueIsIndex(c: char)
    requires InAlphabet(c)
    ensures DecodeChar(c) == Some(ValueOf(c)) && ValueOf(c) < 64 && CharAt(ValueOf(c)) == c
    ensures forall v: nat | v < 64 :: CharAt(v) == c <==> v == ValueOf(c)
  {
    hide CharAt;
    forall v: nat | v < 64 ensures CharAt(v) == c <==> v == ValueOf(c) {
      AlphabetIsIndexed(v);
      IndexOfIsExact(c, v);
    }
    IndexOfIsExact(c, ValueOf(c));
  }

  /** The values that the decoded bytes are encoded with again. */
  lemma ValuesFromBytes(v0: nat, v1: nat, v2: nat, v3: nat)
    requires v0 < 64 && v1 < 64 && v2 < 64 && v3 < 64
    ensures var a, b, c := FirstByte(v0, v1), SecondByte(v1, v2), ThirdByte(v2, v3);
            && a / 4 == v0 && a % 4 * 16 == v1 / 16 * 16 && a % 4 * 16 + b / 16 == v1
            && b % 16 * 4 == v2 / 4 * 4 && b % 16 * 4 + c / 64 == v2 && c % 64 == v3
  {
    ValuesFromDigits(v0, v1 / 16, v1 % 16, v2 / 4, v2 % 4, v3);
  }

  lemma ValuesFromDigits(v0: nat, x: nat, y: nat, p: nat, q: nat, v3: nat)
    requires v0 < 64 && x < 4 && y < 16 && p < 16 && q < 4 && v3 < 64
    ensures var a, b, c := (v0 * 4 + x) % 0x100, (y * 16 + p) % 0x100, (q * 64 + v3) % 0x100;
            a / 4 == v0 && a % 4 == x && b / 16 == y && b % 16 == p && c / 64 == q && c % 64 == v3
  {
    DivMod(v0 * 4 + x, 4, v0, x);
    DivMod(y * 16 + p, 16, y, p);
    DivMod(q * 64 + v3, 64, q, v3);
  }

  lemma DivMod(n: nat, d: nat, q: nat, r: nat)
    requires d in {4, 16, 64} && n == d * q + r && r < d
    ensures n / d == q && n % d == r
  {
  }

  lemma GroupOfFourIsCanonical(chars: string)
    requires |chars| == 4 && Group(chars).Ok?
    ensures Encoded(Group(chars).value) == chars
  {
    hide CharAt, DecodeChar, FirstByte, SecondByte, ThirdByte, ThreeBytes;
    forall i | 0 <= i < 4 ensures InAlphabet(chars[i]) {}
    var v0, v1, v2, v3 := ValueOf(chars[0]), ValueOf(chars[1]), ValueOf(chars[2]), ValueOf(chars[3]);
    ValueIsIndex(chars[0]);
    ValueIsIndex(chars[1]);
    ValueIsIndex(chars[2]);
    ValueIsIndex(chars[3]);
    ValuesFromBytes(v0, v1, v2, v3);
    var a, b, c := FirstByte(v0, v1), SecondByte(v1, v2), ThirdByte(v2, v3);
    ThreeBytesSplit(a, b, c);
    assert Encoded([a, b, c]) == Base64Chars(ThreeBytes(a, b, c)) by {
      assert [a, b, c][3..] == [];
    }
    assert chars == [chars[0], chars[1], chars[2], chars[3]];
  }

  lemma RestIsCanonical(chars: string)
    requires |chars| < 4 && Group(chars).Ok?
    ensures Encoded(Group(chars).value) == chars <==> |chars| != 1 && UnusedBitsZero(chars)
  {
    hide CharAt, DecodeChar, FirstByte, SecondByte, ThirdByte, LastOne, LastTwo;
    if |chars| >= 2 {
      var v0, v1 := ValueOf(chars[0]), ValueOf(chars[1]);
      ValueIsIndex(chars[0]);
      ValueIsIndex(chars[1]);
      if |chars| == 2 {
        ValuesFromBytes(v0, v1, 0, 0);
        LastCharacters(FirstByte(v0, v1), 0);
        assert chars == [chars[0], chars[1]];
      } else {
        var v2 := ValueOf(chars[2]);
        ValueIsIndex(chars[2]);
        ValuesFromBytes(v0, v1, v2, 0);
        LastCharacters(FirstByte(v0, v1), SecondByte(v1, v2));
        assert chars == [chars[0], chars[1], chars[2]];
      }
    }
  }

  /** Decoding loses nothing exactly when no character is dropped and the bits that no byte takes are zero:
      those strings, and no others, are encodings. */
  lemma {:induction false} CanonicalExactly(clean: string)
    requires Decoded(clean).Ok?
    ensures Encoded(Decoded(clean).value) == clean <==> |clean| % 4 != 1 && UnusedBitsZero(clean)
    decreases |clean|
  {
    hide Group, Encoded, UnusedBitsZero;
    if |clean| >= 4 {
      var first, rest := clean[..4], clean[4..];
      GroupOfFourIsCanonical(first);
      CanonicalExactly(rest);
      EncodedJoins(Group(first).value, Decoded(rest).value);
      UnusedBitsOfRest(first, rest);
      FrontCancels(first, rest, Encoded(Decoded(rest).value));
      assert clean == first + rest;
    } else {
      RestIsCanonical(clean);
    }
  }

  lemma UnusedBitsOfRest(first: string, rest: string)
    requires |first| == 4
    ensures UnusedBitsZero(first + rest) == UnusedBitsZero(rest)
  {
    hide ValueOf;
    if rest != [] { assert (first + rest)[|first + rest| - 1] == rest[|rest| - 1]; }
  }

  lemma FrontCancels(front: string, a: string, b: string)
    ensures front + a == front + b <==> a == b
  {
    assert (front + a)[|front|..] == a && (front + b)[|front|..] == b;
  }

  lemma EncodedJoins(three: seq<byte>, rest: seq<byte>)
    requires |three| == 3
    ensures Encoded(three + rest) == Encoded(three) + Encoded(rest)
  {
    hide Base64Chars;
    assert (three + rest)[3..] == rest && three[3..] == [];
  }
}
