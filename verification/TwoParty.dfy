/** Two ratchets that share a handshake, and a channel between them that may drop, duplicate and
    reorder. The world is what both parties and the channel hold; each event runs one call of one
    party. What the parties have in common is stated in `Epochs.dfy`. */
module TwoParty {
  import opened Terms
  import opened Ratchet
  import opened SkippedKeys

  datatype Party = Alice | Bob

  function Peer(p: Party): Party { if p.Alice? then Bob else Alice }

  /** A message handed to the channel: who sent it, what it says, and the frame. */
  datatype Sent = Sent(from: Party, plaintext: seq<byte>, ad: seq<byte>, wire: Wire)

  /** Fresh keys come from a counter. `delivered` holds the log positions whose plaintext has come out, and
      `seen` those whose ratchet key the receiver has taken note of, which a refused message can do too. */
  datatype World = World(alice: State, bob: State, log: seq<Sent>, delivered: set<nat>, seen: set<nat>,
                         nextKey: PrivateKey)
  {
    function Of(p: Party): State { if p.Alice? then alice else bob }

    function With(p: Party, s: State): World {
      if p.Alice? then this.(alice := s) else this.(bob := s)
    }
  }

  datatype Event = Send(sender: Party, plaintext: seq<byte>, ad: seq<byte>) | Deliver(index: nat)

  /** The two ratchets after a handshake on secret `sk`, ephemeral key `ek` and signed prekey `spk`. */
  function Start(sk: Term, ek: PrivateKey, spk: PrivateKey, maxSkipAlice: nat, maxSkipBob: nat): World {
    var dh := Dh(ek, spk);
    World(Create(NewRoot(sk, dh), FirstChain(sk, dh), ek, Some(PublicOf(spk)), true, maxSkipAlice),
          Create(NewRoot(sk, dh), FirstChain(sk, dh), spk, Some(PublicOf(ek)), false, maxSkipBob),
          [], {}, {}, 1 + if ek < spk then spk else ek)
  }

  function Sending(w: World, p: Party, plaintext: seq<byte>, ad: seq<byte>): Step<Wire> {
    Encrypt(w.Of(p), plaintext, ad, Private(w.nextKey))
  }

  function Delivering(w: World, i: nat): Step<seq<byte>>
    requires i < |w.log|
  {
    Decrypt(w.Of(Peer(w.log[i].from)), w.log[i].wire, w.log[i].ad, Private(w.nextKey))
  }

  /** The ratchet stands at the ratchet key of the frame. */
  predicate Knows(s: State, wire: Wire) { wire.Framed? && s.remote == Some(wire.header.dh) }

  function Next(w: World, event: Event): World {
    match event
    case Send(p, plaintext, ad) =>
      var step := Sending(w, p, plaintext, ad);
      var w' := w.With(p, step.state).(nextKey := w.nextKey + 1);
      if step.outcome.Ok? then w'.(log := w.log + [Sent(p, plaintext, ad, step.outcome.value)]) else w'
    case Deliver(i) =>
      if i >= |w.log| then w
      else
        var step := Delivering(w, i);
        w.With(Peer(w.log[i].from), step.state)
        .(nextKey := w.nextKey + 1,
          delivered := if step.outcome.Ok? then w.delivered + {i} else w.delivered,
          seen := if Knows(step.state, w.log[i].wire) then w.seen + {i} else w.seen)
  }

  // ---------- Which events a run may contain ----------

  /** A later message of the same sender, under another ratchet key, has been seen. */
  predicate Superseded(w: World, i: nat)
    requires i < |w.log| && w.log[i].wire.Framed?
  {
    exists j | j in w.seen && i < j < |w.log| ::
      w.log[j].from == w.log[i].from && w.log[j].wire.Framed?
      && w.log[j].wire.header.dh != w.log[i].wire.header.dh
  }

  /** The delivery does not break off in the middle of a skip loop, and if it is superseded it is refused
      before that. */
  predicate Harmless(w: World, i: nat)
    requires i < |w.log| && w.log[i].wire.Framed?
  {
    var s, header := w.Of(Peer(w.log[i].from)), w.log[i].wire.header;
    if Superseded(w, i) then TurnRefused(s, header) else !Tears(s, header)
  }

  /** Counters stay within their wire width, and deliveries are harmless. First deliveries, repeated ones,
      superseded ones and other refused ones are all part of a run. */
  predicate Admissible(w: World, event: Event) {
    match event
    case Send(p, _, _) => w.Of(p).ns + 1 < U32_LIMIT
    case Deliver(i) => i < |w.log| && w.log[i].wire.Framed? && Harmless(w, i)
  }

  function Run(w: World, events: seq<Event>): World
    decreases |events|
  {
    if events == [] then w else Run(Next(w, events[0]), events[1..])
  }

  predicate AdmissibleRun(w: World, events: seq<Event>)
    decreases |events|
  {
    events == [] || (Admissible(w, events[0]) && AdmissibleRun(Next(w, events[0]), events[1..]))
  }
}
