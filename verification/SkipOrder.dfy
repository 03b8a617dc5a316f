/** The order in which `exportState` writes the skipped keys (`src/crypto/doubleRatchet.ts`, lines
    422-427 and 578-585): by remote key, byte by byte, then by index. Sorting distinct slots has one
    result, so the export does not depend on the order in which the map was filled. */
module SkipOrder {
  import opened Terms
  import opened Bytes

  datatype Entry = Entry(remote: Key, index: u32, key: Key)

  predicate SameSlot(a: Entry, b: Entry) { a.remote == b.remote && a.index == b.index }

  ghost predicate DistinctSlots(es: seq<Entry>) {
    forall i, j | 0 <= i < j < |es| :: !SameSlot(es[i], es[j])
  }

  // ---------- The comparator ----------

  function Compare(a: seq<byte>, b: seq<byte>): int {
    if a == [] || b == [] then |a| - |b|
    else if a[0] != b[0] then a[0] as int - b[0] as int
    else Compare(a[1..], b[1..])
  }

  method CompareBytes(a: seq<byte>, b: seq<byte>) returns (r: int)
    ensures r == Compare(a, b)
  {
    var len := if |a| < |b| then |a| else |b|;
    for i := 0 to len
      invariant Compare(a, b) == Compare(a[i..], b[i..])
    {
      var diff := a[i] as int - b[i] as int;
      if diff != 0 { return diff; }
      assert a[i..][1..] == a[i + 1..] && b[i..][1..] == b[i + 1..];
    }
    return |a| - |b|;
  }

  lemma {:induction false} CompareOrders(a: seq<byte>, b: seq<byte>)
    ensures Compare(a, b) == -Compare(b, a)
    ensures Compare(a, b) == 0 <==> a == b
  {
    if a != [] && b != [] {
      CompareOrders(a[1..], b[1..]);
      assert a == [a[0]] + a[1..] && b == [b[0]] + b[1..];
    }
  }

  lemma {:induction false} CompareTransitive(a: seq<byte>, b: seq<byte>, c: seq<byte>)
    requires Compare(a, b) < 0 && Compare(b, c) < 0
    ensures Compare(a, c) < 0
  {
    if a != [] && b != [] && c != [] && a[0] == b[0] && b[0] == c[0] {
      CompareTransitive(a[1..], b[1..], c[1..]);
    }
  }

  /** The comparator that `skipEntries.sort` is given. */
  function CompareEntries(a: Entry, b: Entry): int {
    var c := Compare(a.remote, b.remote);
    if c != 0 then c else a.index as int - b.index as int
  }

  predicate Before(a: Entry, b: Entry) { CompareEntries(a, b) < 0 }

  lemma BeforeIsTotal(a: Entry, b: Entry)
    ensures Before(a, b) || Before(b, a) || SameSlot(a, b)
    ensures !(Before(a, b) && Before(b, a)) && (SameSlot(a, b) ==> !Before(a, b))
  {
    CompareOrders(a.remote, b.remote);
  }

  lemma BeforeTransitive(a: Entry, b: Entry, c: Entry)
    requires Before(a, b) && Before(b, c)
    ensures Before(a, c)
  {
    CompareOrders(a.remote, b.remote);
    CompareOrders(b.remote, c.remote);
    if Compare(a.remote, b.remote) < 0 && Compare(b.remote, c.remote) < 0 {
      CompareTransitive(a.remote, b.remote, c.remote);
    }
  }

  // ---------- Sorting ----------

  predicate InOrder(es: seq<Entry>) { forall i, j | 0 <= i < j < |es| :: Before(es[i], es[j]) }

  function Insert(e: Entry, es: seq<Entry>): seq<Entry> {
    if es == [] || Before(e, es[0]) then [e] + es else [es[0]] + Insert(e, es[1..])
  }

  function Sorted(es: seq<Entry>): seq<Entry> {
    if es == [] then [] else Insert(es[0], Sorted(es[1..]))
  }

  lemma {:induction false} InsertKeeps(e: Entry, es: seq<Entry>)
    ensures multiset(Insert(e, es)) == multiset{e} + multiset(es)
    ensures |Insert(e, es)| == |es| + 1
  {
    if es == [] || Before(e, es[0]) {
    } else {
      InsertKeeps(e, es[1..]);
      assert es == [es[0]] + es[1..];
    }
  }

  lemma {:induction false} InsertInOrder(e: Entry, es: seq<Entry>)
    requires InOrder(es) && forall x | x in es :: !SameSlot(e, x)
    ensures InOrder(Insert(e, es))
  {
    if es == [] {
    } else if Before(e, es[0]) {
      forall j | 0 < j < |es| ensures Before(e, es[j]) { BeforeTransitive(e, es[0], es[j]); }
    } else {
      InsertInOrder(e, es[1..]);
      InsertKeeps(e, es[1..]);
      var rest := Insert(e, es[1..]);
      forall j | 0 <= j < |rest| ensures Before(es[0], rest[j]) {
        BeforeIsTotal(e, es[0]);
        assert rest[j] in multiset{e} + multiset(es[1..]);
        if rest[j] != e {
          var k :| 0 <= k < |es[1..]| && es[1..][k] == rest[j];
          assert rest[j] == es[k + 1];
        }
      }
    }
  }

  lemma {:induction false} SortedKeeps(es: seq<Entry>)
    ensures multiset(Sorted(es)) == multiset(es) && |Sorted(es)| == |es|
  {
    if es != [] {
      SortedKeeps(es[1..]);
      InsertKeeps(es[0], Sorted(es[1..]));
      assert es == [es[0]] + es[1..];
    }
  }

  lemma {:induction false} SortedInOrder(es: seq<Entry>)
    requires DistinctSlots(es)
    ensures InOrder(Sorted(es))
  {
    if es != [] {
      SortedInOrder(es[1..]);
      SortedKeeps(es[1..]);
      forall x | x in Sorted(es[1..]) ensures !SameSlot(es[0], x) {
        assert x in multiset(es[1..]);
        var k :| 0 <= k < |es[1..]| && es[1..][k] == x;
        assert x == es[k + 1];
      }
      InsertInOrder(es[0], Sorted(es[1..]));
    }
  }

  /** There is one way to put a collection of entries in order. */
  lemma {:induction false} OneOrder(a: seq<Entry>, b: seq<Entry>)
    requires InOrder(a) && InOrder(b) && multiset(a) == multiset(b)
    ensures a == b
  {
    hide InOrder;
    assert |multiset(a)| == |a| && |multiset(b)| == |b|;
    if a != [] {
      FirstIsLeast(a, b);
      RestIs(a);
      RestIs(b);
      OneOrder(a[1..], b[1..]);
      assert a == [a[0]] + a[1..] && b == [b[0]] + b[1..];
    }
  }

  lemma RestIs(es: seq<Entry>)
    requires es != []
    ensures multiset(es[1..]) == multiset(es) - multiset{es[0]}
    ensures InOrder(es) ==> InOrder(es[1..])
  {
    assert es == [es[0]] + es[1..];
  }

  lemma FirstIsLeast(a: seq<Entry>, b: seq<Entry>)
    requires InOrder(a) && InOrder(b) && multiset(a) == multiset(b) && |a| > 0 && |b| > 0
    ensures a[0] == b[0]
  {
    assert a[0] in multiset(b) && b[0] in multiset(a);
    var i :| 0 <= i < |b| && b[i] == a[0];
    var j :| 0 <= j < |a| && a[j] == b[0];
    BeforeIsTotal(a[0], b[0]);
  }

  /** Whatever sort puts the entries in order gives `Sorted`, and the order in which they were added to
      the map makes no difference. */
  lemma SortingIsCanonical(es: seq<Entry>, fs: seq<Entry>)
    requires DistinctSlots(es) && DistinctSlots(fs) && multiset(es) == multiset(fs)
    ensures Sorted(es) == Sorted(fs)
    ensures InOrder(fs) ==> Sorted(es) == fs
  {
    SortedInOrder(es);
    SortedInOrder(fs);
    SortedKeeps(es);
    SortedKeeps(fs);
    OneOrder(Sorted(es), Sorted(fs));
    if InOrder(fs) { OneOrder(Sorted(es), fs); }
  }

  // ---------- The order, in bytes and indices ----------

  /** The first byte in which the keys differ is smaller in `a`. */
  ghost predicate KeyBelow(a: Key, b: Key) {
    exists k | 0 <= k < 32 :: a[..k] == b[..k] && a[k] < b[k]
  }

  lemma {:induction false} CompareIsLexicographic(a: seq<byte>, b: seq<byte>)
    requires |a| == |b| && Compare(a, b) < 0
    ensures exists k | 0 <= k < |a| :: a[..k] == b[..k] && a[k] < b[k]
  {
    if a[0] == b[0] {
      CompareIsLexicographic(a[1..], b[1..]);
      var k :| 0 <= k < |a[1..]| && a[1..][..k] == b[1..][..k] && a[1..][k] < b[1..][k];
      assert a[..k + 1] == [a[0]] + a[1..][..k] && b[..k + 1] == [b[0]] + b[1..][..k];
      assert a[k + 1] < b[k + 1];
    } else {
      assert a[..0] == b[..0];
    }
  }

  /** The entries are written by remote key, the first differing byte deciding, and under one remote key in
      the order of the message indices. */
  lemma SortedByKeyThenIndex(es: seq<Entry>, i: nat, j: nat)
    requires DistinctSlots(es) && i < j < |es|
    ensures |Sorted(es)| == |es| && multiset(Sorted(es)) == multiset(es)
    ensures var a, b := Sorted(es)[i], Sorted(es)[j];
            KeyBelow(a.remote, b.remote) || (a.remote == b.remote && a.index < b.index)
  {
    hide Sorted, DistinctSlots;
    SortedKeeps(es);
    SortedInOrder(es);
    var a, b := Sorted(es)[i], Sorted(es)[j];
    assert Before(a, b);
    CompareOrders(a.remote, b.remote);
    if a.remote != b.remote { CompareIsLexicographic(a.remote, b.remote); }
  }

  /** Sorted entries have distinct slots. */
  lemma OrderIsDistinct(es: seq<Entry>)
    requires InOrder(es)
    ensures DistinctSlots(es)
  {
    forall i, j | 0 <= i < j < |es| ensures !SameSlot(es[i], es[j]) { BeforeIsTotal(es[i], es[j]); }
  }
}
