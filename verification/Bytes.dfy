/** Byte buffers: what `Uint8Array.set`, `DataView.setUint32`, `slice` and the `concatBytes` helpers do.
    Buffers are arrays; what they hold is stated as sequences. */
module Bytes {
  import opened Terms

  /** A 32-byte key, private or public. */
  type Key = k: seq<byte> | |k| == 32 witness ZERO_KEY

  const ZERO_KEY: seq<byte> := [0, 0, 0, 0, 0, 0, 0, 0, 0, 0, 0, 0, 0, 0, 0, 0,
                                0, 0, 0, 0, 0, 0, 0, 0, 0, 0, 0, 0, 0, 0, 0, 0]

  /** What `trim` and `parseInt` skip. */
  predicate IsWhitespace(c: char) {
    var n := c as int;
    n in {0x20, 0xA0, 0x1680, 0x2028, 0x2029, 0x202F, 0x205F, 0x3000, 0xFEFF} || 9 <= n <= 13 || 0x2000 <= n <= 0x200A
  }

  // ---------- Big-endian counters ----------

  function U32Bytes(n: u32): (b: seq<byte>)
    ensures |b| == 4
  {
    [n / 0x1_000000, n / 0x10000 % 0x100, n / 0x100 % 0x100, n % 0x100]
  }

  /** `getUint32(at, false)`. */
  function U32At(b: seq<byte>, at: nat): u32
    requires at + 4 <= |b|
  {
    var n3: nat, n2: nat, n1: nat, n0: nat := b[at], b[at + 1], b[at + 2], b[at + 3];
    0x1_000000 * n3 + 0x10000 * n2 + 0x100 * n1 + n0
  }

  lemma U32RoundTrip(n: u32)
    ensures U32At(U32Bytes(n), 0) == n
  {
    var n1, n2, n3 := n / 0x100, n / 0x10000, n / 0x1_000000;
    LastByte(n, n1);
    LastByte(n1, n2);
    LastByte(n2, n3);
  }

  lemma LastByte(n: nat, rest: nat)
    requires rest == n / 0x100
    ensures n == 0x100 * rest + n % 0x100
  {
  }

  lemma U32BytesOf(b: seq<byte>)
    requires |b| == 4
    ensures U32Bytes(U32At(b, 0)) == b
  {
    var n3: nat, n2: nat, n1: nat := b[0], b[1], b[2];
    var n := U32At(b, 0);
    assert n == 0x100 * (0x100 * (0x100 * n3 + n2) + n1) + b[3];
    assert n / 0x1_000000 == n3 && n / 0x10000 == 0x100 * n3 + n2;
    assert n / 0x100 == 0x10000 * n3 + 0x100 * n2 + n1;
  }

  /** Where a counter stands in a longer buffer makes no difference. */
  lemma U32InPlace(b: seq<byte>, at: nat)
    requires at + 4 <= |b|
    ensures U32At(b, at) == U32At(b[at..at + 4], 0)
  {
  }

  lemma SplitAt(b: seq<byte>, at: nat)
    requires at <= |b|
    ensures b == b[..at] + b[at..]
  {
  }

  // ---------- Writing at an offset ----------

  /** The buffer with `s` written at `offset`. */
  function Written(b: seq<byte>, offset: nat, s: seq<byte>): (r: seq<byte>)
    requires offset + |s| <= |b|
    ensures |r| == |b|
  {
    b[..offset] + s + b[offset + |s|..]
  }

  /** `out.set(s, offset)`. */
  method Set(out: array<byte>, s: seq<byte>, offset: nat)
    requires offset + |s| <= out.Length
    modifies out
    ensures out[..] == Written(old(out[..]), offset, s)
  {
    forall i | 0 <= i < |s| { out[offset + i] := s[i]; }
  }

  /** `setUint32(offset, n >>> 0, false)`. */
  method SetUint32(out: array<byte>, offset: nat, n: nat)
    requires offset + 4 <= out.Length
    modifies out
    ensures out[..] == Written(old(out[..]), offset, U32Bytes(ToU32(n)))
  {
    Set(out, U32Bytes(ToU32(n)), offset);
  }

  /** A buffer filled from the front: `done` bytes hold `front`, and a write there extends it. */
  lemma WrittenNext(b: seq<byte>, front: seq<byte>, s: seq<byte>)
    requires |front| + |s| <= |b| && b[..|front|] == front
    ensures Written(b, |front|, s)[..|front| + |s|] == front + s
  {
  }

  // ---------- Concatenation ----------

  function Joined(parts: seq<seq<byte>>): seq<byte> {
    if parts == [] then [] else parts[0] + Joined(parts[1..])
  }

  lemma {:induction false} JoinedSnoc(parts: seq<seq<byte>>, last: seq<byte>)
    ensures Joined(parts + [last]) == Joined(parts) + last
  {
    if parts == [] {
      assert [last][1..] == [] && [] + [last] == [last];
      assert Joined([]) == [] && Joined([last]) == last + Joined([]);
    } else {
      JoinedSnoc(parts[1..], last);
      assert (parts + [last])[1..] == parts[1..] + [last];
    }
  }

  lemma JoinedTwo(a: seq<byte>, b: seq<byte>)
    ensures Joined([a, b]) == a + b
  {
    JoinedSnoc([], a);
    JoinedSnoc([a], b);
    assert [a] + [b] == [a, b];
  }

  lemma JoinedThree(a: seq<byte>, b: seq<byte>, c: seq<byte>)
    ensures Joined([a, b, c]) == a + b + c
  {
    JoinedTwo(a, b);
    JoinedSnoc([a, b], c);
    assert [a, b] + [c] == [a, b, c];
  }

  lemma {:induction false} JoinedAppend(a: seq<seq<byte>>, b: seq<seq<byte>>)
    ensures Joined(a + b) == Joined(a) + Joined(b)
  {
    hide Joined;
    if a == [] {
      assert a + b == b;
      JoinedNone(b);
    } else {
      JoinedAppend(a[1..], b);
      JoinedCons(a[0], a[1..]);
      JoinedCons(a[0], a[1..] + b);
      assert a == [a[0]] + a[1..] && a + b == [a[0]] + (a[1..] + b);
      Associates(a[0], Joined(a[1..]), Joined(b));
    }
  }

  lemma JoinedNone(b: seq<seq<byte>>)
    ensures Joined([]) + Joined(b) == Joined(b)
  {
  }

  lemma JoinedCons(first: seq<byte>, rest: seq<seq<byte>>)
    ensures Joined([first] + rest) == first + Joined(rest)
  {
    assert ([first] + rest)[1..] == rest;
  }

  lemma Associates(a: seq<byte>, b: seq<byte>, c: seq<byte>)
    ensures a + (b + c) == a + b + c
  {
  }

  lemma {:induction false} JoinedPrefix(parts: seq<seq<byte>>, i: nat)
    requires i <= |parts|
    ensures |Joined(parts[..i])| <= |Joined(parts)|
    decreases |parts| - i
  {
    if i < |parts| {
      JoinedSnoc(parts[..i], parts[i]);
      assert parts[..i] + [parts[i]] == parts[..i + 1];
      JoinedPrefix(parts, i + 1);
    } else {
      assert parts[..i] == parts;
    }
  }

  /** `concatBytes`: one buffer, filled at a moving offset. */
  method ConcatBytes(parts: seq<seq<byte>>) returns (joined: seq<byte>)
    ensures joined == Joined(parts)
  {
    var total := 0;
    for i := 0 to |parts|
      invariant total == |Joined(parts[..i])|
    {
      JoinedSnoc(parts[..i], parts[i]);
      assert parts[..i] + [parts[i]] == parts[..i + 1];
      total := total + |parts[i]|;
    }
    assert parts[..|parts|] == parts;
    var out := new byte[total](_ => 0);
    var offset := 0;
    for i := 0 to |parts|
      invariant offset == |Joined(parts[..i])| <= total == out.Length
      invariant out[..offset] == Joined(parts[..i])
    {
      JoinedSnoc(parts[..i], parts[i]);
      assert parts[..i] + [parts[i]] == parts[..i + 1];
      JoinedPrefix(parts, i + 1);
      WrittenNext(out[..], Joined(parts[..i]), parts[i]);
      Set(out, parts[i], offset);
      offset := offset + |parts[i]|;
    }
    joined := out[..];
  }
}
