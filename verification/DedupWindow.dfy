/** The window of received envelope ids (`src/realtime/ChatController.ts`, lines 966-979). A `Set`
    enumerates its ids in the order in which they were added. */
module DedupWindow {

  const MAX_RECEIVED_IDS: nat := 2048
  const KEPT: nat := 1024

  /** The window after an id arrives, and whether the id was new. */
  function Marked(window: seq<string>, id: string): (r: (seq<string>, bool)) {
    if id in window then (window, false)
    else if |window| + 1 > MAX_RECEIVED_IDS then ((window + [id])[|window| + 1 - KEPT..], true)
    else (window + [id], true)
  }

  /** An id that has just arrived is refused when it comes again. */
  lemma MarkedIsSeen(window: seq<string>, id: string)
    ensures id in Marked(window, id).0
    ensures Marked(Marked(window, id).0, id) == (Marked(window, id).0, false)
  {
    var after := Marked(window, id).0;
    if id !in window { assert after[|after| - 1] == id; }
  }

  // ---------- Runs ----------

  function After(window: seq<string>, arrivals: seq<string>): seq<string>
    decreases |arrivals|
  {
    if arrivals == [] then window
    else Marked(After(window, arrivals[..|arrivals| - 1]), arrivals[|arrivals| - 1]).0
  }

  /** The ids accepted since the last clear, in order. */
  function Accepted(arrivals: seq<string>): seq<string>
    decreases |arrivals|
  {
    if arrivals == [] then []
    else
      var front := arrivals[..|arrivals| - 1];
      var last := arrivals[|arrivals| - 1];
      Accepted(front) + if Marked(After([], front), last).1 then [last] else []
  }

  /** How many of `n` accepted ids the window still holds: all of them up to 2048, and then again and
      again from 1024 to 2048. */
  function Held(n: nat): (h: nat)
    ensures h <= n && h <= 2048 && (n <= 2048 ==> h == n) && (n > 2048 ==> h == 1024 + (n - 2049) % 1025)
  {
    if n <= MAX_RECEIVED_IDS then n else KEPT + (n - MAX_RECEIVED_IDS - 1) % (MAX_RECEIVED_IDS + 1 - KEPT)
  }

  lemma HeldNext(n: nat)
    ensures Held(n + 1) == if Held(n) == MAX_RECEIVED_IDS then KEPT else Held(n) + 1
  {
    if n > MAX_RECEIVED_IDS { CycleNext(n - MAX_RECEIVED_IDS - 1); }
  }

  lemma CycleNext(k: nat)
    ensures (k + 1) % 1025 == if k % 1025 == 1024 then 0 else k % 1025 + 1
  {
  }

  predicate Distinct(ids: seq<string>) { forall i, j | 0 <= i < j < |ids| :: ids[i] != ids[j] }

  lemma StepKeepsWindow(accepted: seq<string>, window: seq<string>, id: string)
    requires window == accepted[|accepted| - Held(|accepted|)..] && Distinct(window) && id !in window
    ensures var after := Marked(window, id).0;
            after == (accepted + [id])[|accepted| + 1 - Held(|accepted| + 1)..] && Distinct(after)
    ensures Marked(window, id).1
  {
    HeldNext(|accepted|);
    var all := accepted + [id];
    assert window + [id] == all[|accepted| - |window|..];
    if |window| + 1 > MAX_RECEIVED_IDS {
      assert all[|accepted| - |window|..][|window| + 1 - KEPT..] == all[|all| - KEPT..];
    }
  }

  /** The window is exactly the latest ids accepted, as many as `Held` says, and no id twice. */
  lemma {:induction false} WindowExactly(arrivals: seq<string>)
    ensures var accepted := Accepted(arrivals);
            var window := After([], arrivals);
            && window == accepted[|accepted| - Held(|accepted|)..] && Distinct(window)
            && |window| == (if |accepted| <= 2048 then |accepted| else 1024 + (|accepted| - 2049) % 1025)
    decreases |arrivals|
  {
    hide Held, Distinct, Marked;
    if arrivals == [] {
      EmptyIsDistinct();
    } else {
      var front := arrivals[..|arrivals| - 1];
      var last := arrivals[|arrivals| - 1];
      WindowExactly(front);
      if last in After([], front) {
        SeenIsRefused(After([], front), last);
        assert Accepted(front) + [] == Accepted(front);
      } else {
        StepKeepsWindow(Accepted(front), After([], front), last);
      }
    }
  }

  lemma SeenIsRefused(window: seq<string>, id: string)
    requires id in window
    ensures Marked(window, id) == (window, false)
  {
  }

  lemma EmptyIsDistinct()
    ensures Distinct([]) && Held(0) == 0
  {
  }

  /** An arriving id is refused if and only if it is among the ids the window holds; in particular when
      it is among the last 1024 accepted. */
  lemma RefusedExactly(arrivals: seq<string>, id: string)
    ensures var accepted := Accepted(arrivals);
            && (!Marked(After([], arrivals), id).1 <==> id in accepted[|accepted| - Held(|accepted|)..])
            && (id in accepted[if |accepted| <= 1024 then 0 else |accepted| - 1024..] ==>
                  !Marked(After([], arrivals), id).1)
  {
    WindowExactly(arrivals);
    var accepted := Accepted(arrivals);
    var from := if |accepted| <= KEPT then 0 else |accepted| - KEPT;
    var start := |accepted| - Held(|accepted|);
    if id in accepted[from..] {
      var i :| from <= i < |accepted| && accepted[i] == id;
      assert accepted[start..][i - start] == id;
    }
  }
}
