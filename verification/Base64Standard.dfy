/** What RFC 4648 asks of base64url: the alphabet of its Table 2, and the bits of the bytes, six at a time, filled up
    with zeros (sections 4 and 5). */
module Base64Standard {
  import opened Terms
  import opened Base64Url

  /** Table 2 of RFC 4648: the character of a value. */
  predicate InTable2(c: char, v: nat) {
    || (v < 26 && c as nat == 65 + v)
    || (26 <= v < 52 && c as nat == 97 + (v - 26))
    || (52 <= v < 62 && c as nat == 48 + (v - 52))
    || (v == 62 && c == '-')
    || (v == 63 && c == '_')
  }

  lemma AlphabetIsTable2(c: char, v: nat)
    ensures v < 64 ==> (CharAt(v) == c <==> InTable2(c, v))
    ensures DecodeChar(c) == Some(v) <==> InTable2(c, v)
  {
    if v < 26 {
      UpperAt(v);
    } else if v < 52 {
      LowerAt(v);
    } else if v < 64 {
      RestAt(v);
    }
    hide CharAt;
  }

  // ---------- Bits ----------

  type bit = x: nat | x < 2

  /** The lowest `k` bits of a number, the most significant first. */
  function Bits(n: nat, k: nat): (b: seq<bit>)
    ensures |b| == k
  {
    if k == 0 then [] else Bits(n / 2, k - 1) + [n % 2]
  }

  function Bits8(b: byte): (r: seq<bit>)
    ensures |r| == 8
  {
    Bits(b, 8)
  }

  function Bits6(v: nat): (r: seq<bit>)
    ensures |r| == 6
  {
    Bits(v, 6)
  }

  function Zeros(k: nat): seq<bit> { seq(k, _ => 0) }

  function BitsOf(b: seq<byte>): seq<bit> { if b == [] then [] else Bits8(b[0]) + BitsOf(b[1..]) }

  /** The bits of the values that the characters stand for. */
  function TextBits(s: string): seq<bit> { if s == "" then [] else Bits6(ValueOf(s[0])) + TextBits(s[1..]) }

  function Pow2(m: nat): nat { if m == 0 then 1 else 2 * Pow2(m - 1) }

  /** The bits of a number in two digits are those of the digits. */
  lemma {:induction false} BitsOfDigits(high: nat, low: nat, k: nat, m: nat)
    requires low < Pow2(m)
    ensures Bits(high * Pow2(m) + low, k + m) == Bits(high, k) + Bits(low, m)
  {
    if m == 0 {
      assert high * Pow2(0) + low == high;
    } else {
      var p := high * Pow2(m - 1);
      var n := high * Pow2(m) + low;
      assert n == 2 * p + low;
      Halves(p, low);
      BitsOfDigits(high, low / 2, k, m - 1);
      var a, b, c := Bits(high, k), Bits(low / 2, m - 1), [low % 2];
      assert a + (b + c) == a + b + c;
    }
  }

  lemma Halves(p: nat, low: nat)
    ensures (2 * p + low) / 2 == p + low / 2 && (2 * p + low) % 2 == low % 2
  {
  }

  /** A byte, cut after two, four or six bits. */
  lemma BitsOfByte(b: byte)
    ensures Bits8(b) == Bits(b / 4, 6) + Bits(b % 4, 2) == Bits(b / 16, 4) + Bits(b % 16, 4)
    ensures Bits8(b) == Bits(b / 64, 2) + Bits(b % 64, 6)
  {
    hide Bits;
    PowersOfTwo();
    BitsOfDigits(b / 4, b % 4, 6, 2);
    BitsOfDigits(b / 16, b % 16, 4, 4);
    BitsOfDigits(b / 64, b % 64, 2, 6);
  }

  lemma PowersOfTwo()
    ensures Pow2(2) == 4 && Pow2(4) == 16 && Pow2(6) == 64
  {
    assert Pow2(3) == 8 && Pow2(5) == 32;
  }

  /** The four values that three bytes are encoded as. */
  lemma BitsOfValues(a: byte, b: byte, c: byte)
    ensures Bits6(a / 4) + Bits6(a % 4 * 16 + b / 16) + Bits6(b % 16 * 4 + c / 64) + Bits6(c % 64)
         == Bits8(a) + Bits8(b) + Bits8(c)
  {
    hide Bits;
    PowersOfTwo();
    BitsOfByte(a);
    BitsOfByte(b);
    BitsOfByte(c);
    BitsOfDigits(a % 4, b / 16, 2, 4);
    BitsOfDigits(b % 16, c / 64, 4, 2);
    Join24(Bits(a / 4, 6), Bits(a % 4, 2), Bits(b / 16, 4), Bits(b % 16, 4), Bits(c / 64, 2), Bits(c % 64, 6));
  }

  lemma Join24(p: seq<bit>, q: seq<bit>, r: seq<bit>, s: seq<bit>, t: seq<bit>, u: seq<bit>)
    ensures p + (q + r) + (s + t) + u == (p + q) + (r + s) + (t + u)
  {
  }

  lemma NoBits()
    ensures Bits8(0) == Zeros(8) && Bits6(0) == Zeros(6)
  {
    assert Bits(0, 2) == [0, 0] && Bits(0, 4) == [0, 0, 0, 0];
  }

  lemma ValueOfChar(v: nat)
    requires v < 64
    ensures ValueOf(CharAt(v)) == v
  {
    hide CharAt;
    AlphabetIsIndexed(v);
  }

  lemma GroupBits(a: byte, b: byte, c: byte)
    requires ThreeBytes(a, b, c) < 0x1_000000
    ensures TextBits(Base64Chars(ThreeBytes(a, b, c))) == Bits8(a) + Bits8(b) + Bits8(c)
  {
    hide CharAt, ValueOf, ThreeBytes, Bits6, Bits8;
    ThreeBytesSplit(a, b, c);
    var s := Base64Chars(ThreeBytes(a, b, c));
    FourBits(s);
    ValueOfChar(a / 4);
    ValueOfChar(a % 4 * 16 + b / 16);
    ValueOfChar(b % 16 * 4 + c / 64);
    ValueOfChar(c % 64);
    BitsOfValues(a, b, c);
  }

  lemma FourBits(s: string)
    requires |s| == 4
    ensures TextBits(s) == Bits6(ValueOf(s[0])) + Bits6(ValueOf(s[1])) + Bits6(ValueOf(s[2])) + Bits6(ValueOf(s[3]))
  {
    hide Bits6, ValueOf;
    assert s == [s[0]] + ([s[1]] + ([s[2]] + [s[3]]));
    OneBits(s);
    OneBits(s[1..]);
    OneBits(s[2..]);
    OneBits(s[3..]);
    assert s[1..][1..] == s[2..] && s[2..][1..] == s[3..] && s[3..][1..] == [];
  }

  lemma OneBits(s: string)
    requires s != ""
    ensures TextBits(s) == Bits6(ValueOf(s[0])) + TextBits(s[1..])
    ensures TextBits("") == []
  {
    hide Bits6, ValueOf;
  }

  lemma LastBits(a: byte, b: byte)
    ensures TextBits(LastOne(a)) == Bits8(a) + Zeros(4)
    ensures TextBits(LastTwo(a, b)) == Bits8(a) + Bits8(b) + Zeros(2)
  {
    hide CharAt, ValueOf, Bits6, Bits8, LastOne, LastTwo;
    LastCharacters(a, b);
    ValueOfChar(a / 4);
    ValueOfChar(a % 4 * 16);
    ValueOfChar(a % 4 * 16 + b / 16);
    ValueOfChar(b % 16 * 4);
    BitsOfValues(a, 0, 0);
    BitsOfValues(a, b, 0);
    NoBits();
    var one, two := LastOne(a), LastTwo(a, b);
    OneBits(one);
    OneBits(one[1..]);
    OneBits(two);
    OneBits(two[1..]);
    OneBits(two[2..]);
    assert one[1..][1..] == "" && two[1..][1..] == two[2..] && two[2..][1..] == "";
    EndsInZeros(Bits6(a / 4) + Bits6(a % 4 * 16), Bits8(a));
    EndsInZeros2(Bits6(a / 4) + Bits6(a % 4 * 16 + b / 16) + Bits6(b % 16 * 4), Bits8(a) + Bits8(b));
  }

  lemma EndsInZeros(p: seq<bit>, q: seq<bit>)
    requires |p| == 12 && |q| == 8 && p + Zeros(6) + Zeros(6) == q + Zeros(8) + Zeros(8)
    ensures p == q + Zeros(4)
  {
    var whole := p + Zeros(6) + Zeros(6);
    assert p == whole[..12] && whole[..12] == (q + Zeros(8) + Zeros(8))[..12];
  }

  lemma EndsInZeros2(p: seq<bit>, q: seq<bit>)
    requires |p| == 18 && |q| == 16 && p + Zeros(6) == q + Zeros(8)
    ensures p == q + Zeros(2)
  {
    assert p == (p + Zeros(6))[..18] && (q + Zeros(8))[..18] == q + Zeros(2);
  }

  /** The encoding is the one of RFC 4648: the values of its characters are the bits of the bytes, six at a time, and
      zeros behind them. */
  lemma {:induction false} EncodedBits(b: seq<byte>)
    ensures 8 * |b| <= 6 * |Encoded(b)| <= 8 * |b| + 4
    ensures TextBits(Encoded(b)) == BitsOf(b) + Zeros(6 * |Encoded(b)| - 8 * |b|)
    decreases |b|
  {
    hide Bits8, LastOne, LastTwo, Base64Chars, ThreeBytes, Encoded, BitsOf, TextBits;
    EncodedShape(b);
    BitsOfFew(b);
    if |b| < 3 {
      LastEncoded(b);
      if |b| > 0 { LastBits(b[0], if |b| == 2 then b[1] else 0); }
    } else {
      EncodedUnfolds(b);
      GroupBits(b[0], b[1], b[2]);
      EncodedBits(b[3..]);
      EncodedShape(b[3..]);
      var s := Encoded(b);
      assert s == s[..4] + s[4..];
      BitsJoin(s[..4], s[4..]);
    }
  }

  lemma BitsOfFew(b: seq<byte>)
    ensures |b| == 0 ==> BitsOf(b) == [] && TextBits("") == []
    ensures |b| == 1 ==> BitsOf(b) == Bits8(b[0])
    ensures |b| == 2 ==> BitsOf(b) == Bits8(b[0]) + Bits8(b[1])
    ensures |b| >= 3 ==> BitsOf(b) == Bits8(b[0]) + Bits8(b[1]) + Bits8(b[2]) + BitsOf(b[3..])
  {
    hide Bits8, BitsOf;
    NoBytes();
    if |b| >= 1 { FirstBits(b); }
    if |b| >= 2 { FirstBits(b[1..]); }
    if |b| >= 3 {
      FirstBits(b[2..]);
      JoinFour(Bits8(b[0]), Bits8(b[1]), Bits8(b[2]), BitsOf(b[3..]));
      assert b[1..][1..] == b[2..] && b[2..][1..] == b[3..];
    } else if |b| == 2 {
      assert b[1..][1..] == [] && Bits8(b[1]) + [] == Bits8(b[1]);
    } else if |b| == 1 {
      assert b[1..] == [] && Bits8(b[0]) + [] == Bits8(b[0]);
    }
  }

  lemma JoinFour(p: seq<bit>, q: seq<bit>, r: seq<bit>, s: seq<bit>)
    ensures p + (q + (r + s)) == p + q + r + s
  {
  }

  lemma NoBytes()
    ensures BitsOf([]) == [] && TextBits("") == []
  {
  }

  lemma FirstBits(b: seq<byte>)
    requires b != []
    ensures BitsOf(b) == Bits8(b[0]) + BitsOf(b[1..])
  {
    hide Bits8;
  }

  lemma LastEncoded(b: seq<byte>)
    requires |b| < 3
    ensures Encoded(b) == if |b| == 0 then "" else if |b| == 1 then LastOne(b[0]) else LastTwo(b[0], b[1])
  {
    hide LastOne, LastTwo;
  }

  lemma {:induction false} BitsJoin(s: string, t: string)
    ensures TextBits(s + t) == TextBits(s) + TextBits(t)
  {
    hide Bits6, ValueOf;
    if s == "" {
      assert s + t == t;
    } else {
      BitsJoin(s[1..], t);
      assert (s + t)[1..] == s[1..] + t;
    }
  }

  // ---------- Decoding ----------

  /** The bytes that two, three or four values are decoded to. */
  lemma BitsOfBytes(v0: nat, v1: nat, v2: nat, v3: nat)
    requires v0 < 64 && v1 < 64 && v2 < 64 && v3 < 64
    ensures Bits8(FirstByte(v0, v1)) == Bits6(v0) + Bits(v1 / 16, 2)
    ensures Bits8(SecondByte(v1, v2)) == Bits(v1 % 16, 4) + Bits(v2 / 4, 4)
    ensures Bits8(ThirdByte(v2, v3)) == Bits(v2 % 4, 2) + Bits6(v3)
    ensures Bits6(v1) == Bits(v1 / 16, 2) + Bits(v1 % 16, 4) && Bits6(v2) == Bits(v2 / 4, 4) + Bits(v2 % 4, 2)
  {
    hide Bits, FirstByte, SecondByte, ThirdByte;
    PowersOfTwo();
    BytesOfValues(v0, v1, v2, v3);
    BitsOfDigits(v0, v1 / 16, 6, 2);
    BitsOfDigits(v1 % 16, v2 / 4, 4, 4);
    BitsOfDigits(v2 % 4, v3, 2, 6);
    BitsOfDigits(v1 / 16, v1 % 16, 2, 4);
    BitsOfDigits(v2 / 4, v2 % 4, 4, 2);
  }

  lemma BytesOfValues(v0: nat, v1: nat, v2: nat, v3: nat)
    requires v0 < 64 && v1 < 64 && v2 < 64 && v3 < 64
    ensures FirstByte(v0, v1) == v0 * 4 + v1 / 16 && v1 / 16 < 4 && v1 == v1 / 16 * 16 + v1 % 16
    ensures SecondByte(v1, v2) == v1 % 16 * 16 + v2 / 4 && v2 / 4 < 16 && v2 == v2 / 4 * 4 + v2 % 4
    ensures ThirdByte(v2, v3) == v2 % 4 * 64 + v3
  {
  }

  lemma GroupIs(s: string)
    requires |s| <= 4 && Group(s).Ok?
    ensures |s| < 2 ==> Group(s).value == []
    ensures |s| >= 2 ==> forall i | 0 <= i < |s| :: ValueOf(s[i]) < 64
    ensures |s| == 2 ==> Group(s).value == [FirstByte(ValueOf(s[0]), ValueOf(s[1]))]
    ensures |s| == 3 ==> Group(s).value == [FirstByte(ValueOf(s[0]), ValueOf(s[1])),
                                            SecondByte(ValueOf(s[1]), ValueOf(s[2]))]
    ensures |s| == 4 ==> Group(s).value == [FirstByte(ValueOf(s[0]), ValueOf(s[1])),
                                            SecondByte(ValueOf(s[1]), ValueOf(s[2])),
                                            ThirdByte(ValueOf(s[2]), ValueOf(s[3]))]
  {
    hide FirstByte, SecondByte, ThirdByte;
  }

  lemma BitsOfChars(s: string)
    requires 2 <= |s| <= 4
    ensures TextBits(s) == Bits6(ValueOf(s[0])) + Bits6(ValueOf(s[1]))
                           + (if |s| > 2 then Bits6(ValueOf(s[2])) else [])
                           + (if |s| > 3 then Bits6(ValueOf(s[3])) else [])
  {
    hide Bits6, ValueOf, TextBits;
    OneBits(s);
    OneBits(s[1..]);
    assert s[1..][1..] == s[2..];
    if |s| > 2 {
      OneBits(s[2..]);
      assert s[2..][1..] == s[3..];
    }
    if |s| > 3 {
      OneBits(s[3..]);
      assert s[3..][1..] == "";
    }
  }

  lemma GroupDecodes(s: string)
    requires |s| <= 4 && Group(s).Ok?
    ensures 8 * |Group(s).value| <= |TextBits(s)| && |TextBits(s)| == 6 * |s|
    ensures BitsOf(Group(s).value) == TextBits(s)[..8 * |Group(s).value|]
  {
    hide Bits8, Bits6, Bits, ValueOf, FirstByte, SecondByte, ThirdByte, Group, TextBits, BitsOf;
    TextSize(s);
    GroupIs(s);
    BitsOfFew(Group(s).value);
    NoBytes();
    if |s| >= 2 {
      BitsOfChars(s);
      var v0, v1 := ValueOf(s[0]), ValueOf(s[1]);
      var v2, v3 := if |s| > 2 then ValueOf(s[2]) else 0, if |s| > 3 then ValueOf(s[3]) else 0;
      BitsOfBytes(v0, v1, v2, v3);
      Prefixes(Bits6(v0), Bits(v1 / 16, 2), Bits(v1 % 16, 4), Bits(v2 / 4, 4), Bits(v2 % 4, 2), Bits6(v3));
      if |s| == 4 { assert Group(s).value[3..] == []; }
    }
  }

  lemma Prefixes(p: seq<bit>, q: seq<bit>, r: seq<bit>, s: seq<bit>, t: seq<bit>, u: seq<bit>)
    requires |p| == 6 && |q| == 2 && |r| == 4 && |s| == 4 && |t| == 2 && |u| == 6
    ensures p + q == (p + (q + r) + [] + [])[..8]
    ensures (p + q) + (r + s) == (p + (q + r) + (s + t) + [])[..16]
    ensures (p + q) + (r + s) + (t + u) + [] == (p + (q + r) + (s + t) + u)[..24]
  {
  }

  lemma {:induction false} TextSize(s: string)
    ensures |TextBits(s)| == 6 * |s|
  {
    hide Bits6, ValueOf;
    if s != "" { TextSize(s[1..]); }
  }

  /** The bytes are the first bits of the values of the characters, for every string that is accepted. */
  lemma {:induction false} DecodedBits(clean: string)
    requires Decoded(clean).Ok?
    ensures |Decoded(clean).value| == 6 * |clean| / 8 && |TextBits(clean)| == 6 * |clean|
    ensures BitsOf(Decoded(clean).value) == TextBits(clean)[..8 * |Decoded(clean).value|]
    decreases |clean|
  {
    hide Group, TextBits, BitsOf;
    AcceptsExactly(clean);
    TextSize(clean);
    if |clean| < 4 {
      GroupDecodes(clean);
    } else {
      var first, rest := clean[..4], clean[4..];
      GroupDecodes(first);
      DecodedBits(rest);
      assert clean == first + rest;
      BitsJoin(first, rest);
      BytesJoin(Group(first).value, Decoded(rest).value);
      PrefixJoins(TextBits(first), TextBits(rest), 8 * |Decoded(rest).value|);
    }
  }

  lemma PrefixJoins(p: seq<bit>, q: seq<bit>, k: nat)
    requires k <= |q|
    ensures (p + q)[..|p| + k] == p + q[..k]
  {
  }

  lemma {:induction false} BytesJoin(a: seq<byte>, b: seq<byte>)
    ensures BitsOf(a + b) == BitsOf(a) + BitsOf(b)
  {
    hide Bits8;
    if a == [] {
      assert a + b == b;
    } else {
      BytesJoin(a[1..], b);
      assert (a + b)[1..] == a[1..] + b;
    }
  }
}
