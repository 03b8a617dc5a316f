/** The session around the ratchet (`src/crypto/e2eeSession.ts`, lines 318-332): the identities of the
    handshake stand before what the caller adds to the associated data. */
module E2EESession {
  import opened Terms
  import opened Ratchet
  import opened DoubleRatchet

  class E2EESession {
    const initiator: bool
    const ad: seq<byte>
    const ratchet: DoubleRatchet

    constructor (initiator: bool, ad: seq<byte>, ratchet: DoubleRatchet)
      ensures this.initiator == initiator && this.ad == ad && this.ratchet == ratchet
    {
      this.initiator, this.ad, this.ratchet := initiator, ad, ratchet;
    }

    method EncryptMessage(plaintext: seq<byte>, extraAd: seq<byte>, draw: Draw) returns (r: Outcome<Wire>)
      modifies ratchet
      ensures Step(ratchet.Value(), r) == Encrypt(old(ratchet.Value()), plaintext, ad + extraAd, draw)
    {
      r := ratchet.EncryptMessage(plaintext, ad + extraAd, draw);
    }

    method DecryptMessage(wire: Wire, extraAd: seq<byte>, draw: Draw) returns (r: Outcome<seq<byte>>)
      modifies ratchet
      ensures Step(ratchet.Value(), r) == Decrypt(old(ratchet.Value()), wire, ad + extraAd, draw)
    {
      r := ratchet.DecryptMessage(wire, ad + extraAd, draw);
    }
  }

  /** A message that one session sealed opens in another only under the same context: whatever the state
      of the receiving ratchet, the associated data of both sessions and what their callers added agree,
      and the plaintext is the one that was sealed. */
  lemma ContextIsBound(s: State, plaintext: seq<byte>, ad: seq<byte>, extraAd: seq<byte>, a: Draw,
                       t: State, otherAd: seq<byte>, otherExtra: seq<byte>, b: Draw)
    requires |ad| == |otherAd| && Encrypt(s, plaintext, ad + extraAd, a).outcome.Ok?
    ensures var wire := Encrypt(s, plaintext, ad + extraAd, a).outcome.value;
            var result := Decrypt(t, wire, otherAd + otherExtra, b).outcome;
            result.Ok? ==> otherAd == ad && otherExtra == extraAd && result.value == plaintext
  {
    hide TakeMessageKey, TurnTo;
    var wire := Encrypt(s, plaintext, ad + extraAd, a).outcome.value;
    if Decrypt(t, wire, otherAd + otherExtra, b).outcome.Ok? {
      assert otherAd + otherExtra == ad + extraAd;
      assert (ad + extraAd)[..|ad|] == ad && (otherAd + otherExtra)[..|ad|] == otherAd;
      assert (ad + extraAd)[|ad|..] == extraAd && (otherAd + otherExtra)[|ad|..] == otherExtra;
    }
  }
}
