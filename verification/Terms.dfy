/** The symbolic cryptography under the ratchet.

    Every derived secret is a term, so two secrets are equal exactly when they were derived the
    same way, and a derived secret is strictly larger than what it was derived from. No axiom is
    needed: the key-derivation functions of `src/crypto/ratchetKdf.ts` are constructors. */
module Terms {

  datatype Option<+T> = None | Some(value: T)

  /** What a call that may throw comes to. */
  datatype Result<+T, +E> = Ok(value: T) | Err(error: E)

  type byte = x: nat | x < 0x100
  const U32_LIMIT: nat := 0x1_0000_0000
  type u32 = x: nat | x < 0x1_0000_0000

  /** What is left of a counter after `n >>> 0`. */
  function ToU32(n: nat): u32 { n % U32_LIMIT }

  /** A private X25519 key is known by its identity. */
  type PrivateKey = nat

  /** A 32-byte public value as it stands in a header. X25519 reads several encodings of one
      point; keys are compared as bytes, but a DH output depends on the point alone. A `Refused`
      value is one for which the library call throws. */
  datatype PublicKey = Point(key: PrivateKey, encoding: nat) | Refused(encoding: nat)

  function PublicOf(k: PrivateKey): PublicKey { Point(k, 0) }

  /** A DH output: the unordered pair of the two private keys. */
  datatype DhOutput = DhOutput(low: PrivateKey, high: PrivateKey)

  function Dh(a: PrivateKey, b: PrivateKey): DhOutput {
    if a <= b then DhOutput(a, b) else DhOutput(b, a)
  }

  /** `dhX25519`: None where the library throws. */
  function DhX25519(private: PrivateKey, peer: PublicKey): Option<DhOutput> {
    match peer
    case Point(key, _) => Some(Dh(private, key))
    case Refused(_) => None
  }

  datatype Term =
    | Secret(id: nat)                                    // an atomic 32-byte secret
    | X3dhSecret(parts: seq<DhOutput>)                   // HKDF over the concatenated DH outputs
    | KemSecret(kemKey: PrivateKey, coins: nat)          // an ML-KEM shared secret
    | KemRejection(kemKey: PrivateKey, capsule: Capsule) // decapsulation of somebody else's capsule
    | HybridSecret(transcript: Transcript, zClassical: Term, zPq: Term)
    | NewRoot(root: Term, dh: DhOutput)                  // rootChain(...).newRoot
    | FirstChain(root: Term, dh: DhOutput)               // rootChain(...).firstChain
    | NextChain(chain: Term)                             // chainStep(...).nextChain
    | MessageKey(chain: Term)                            // chainStep(...).messageKey
    | AesKey(messageKey: Term, index: nat)               // deriveMessageKey(...).aesKey
    | Nonce(messageKey: Term, index: nat)                // deriveMessageKey(...).nonce

  /** An ML-KEM ciphertext for the holder of a private key. */
  datatype Capsule = Capsule(kemKey: PrivateKey, coins: nat)

  /** The public inputs that the hybrid root secret is bound to. */
  datatype Transcript = Transcript(version: nat, aliceIk: nat, aliceIkx: PublicKey, bobIk: nat,
                                   bobIkx: PublicKey, bobSpk: PublicKey, bobPqKem: Option<PrivateKey>,
                                   bobPqSig: Option<nat>)

  /** The header of one ratchet message, and what AES-GCM authenticates: `ad || header`. */
  datatype Header = Header(dh: PublicKey, pn: u32, n: u32)
  datatype FullAd = FullAd(ad: seq<byte>, header: Header)

  /** An AES-256-GCM output, or bytes that no key opens. */
  datatype Ciphertext =
    | Sealed(key: Term, nonce: Term, plaintext: seq<byte>, ad: FullAd)
    | Noise(bytes: seq<byte>)

  /** AES-GCM opens a ciphertext only under the key, the nonce and the data it was sealed with. */
  function Open(key: Term, nonce: Term, ad: FullAd, c: Ciphertext): Option<seq<byte>> {
    if c.Sealed? && c.key == key && c.nonce == nonce && c.ad == ad then Some(c.plaintext) else None
  }

  // ---------- The shape of chain keys ----------

  /** `steps` chain steps after `chain`. */
  function Advance(chain: Term, steps: nat): Term {
    if steps == 0 then chain else NextChain(Advance(chain, steps - 1))
  }

  /** The key a chain started from. */
  function Origin(chain: Term): Term {
    if chain.NextChain? then Origin(chain.chain) else chain
  }

  /** How many steps a chain key is from its origin. */
  function Position(chain: Term): nat {
    if chain.NextChain? then 1 + Position(chain.chain) else 0
  }

  /** How many root steps a root key is from its secret. */
  function Depth(root: Term): nat {
    if root.NewRoot? then 1 + Depth(root.root) else 0
  }

  /** The chain starts from a root that the root key `rk` has already left behind. */
  predicate Older(chain: Term, rk: Term) {
    Origin(chain).FirstChain? && Depth(Origin(chain).root) < Depth(rk)
  }

  lemma {:induction false} AdvanceShape(chain: Term, steps: nat)
    ensures Origin(Advance(chain, steps)) == Origin(chain)
    ensures Position(Advance(chain, steps)) == Position(chain) + steps
  {
    if steps > 0 { AdvanceShape(chain, steps - 1); }
  }

  lemma {:induction false} AdvanceFront(chain: Term, steps: nat)
    ensures Advance(NextChain(chain), steps) == Advance(chain, steps + 1)
  {
    if steps > 0 { AdvanceFront(chain, steps - 1); }
  }

  lemma {:induction false} AdvanceTwice(chain: Term, a: nat, b: nat)
    ensures Advance(Advance(chain, a), b) == Advance(chain, a + b)
  {
    if b > 0 { AdvanceTwice(chain, a, b - 1); }
  }

  /** DH agreement determines the second key from the first. */
  lemma DhCancels(a: PrivateKey, b: PrivateKey, c: PrivateKey)
    ensures Dh(a, b) == Dh(b, a)
    ensures Dh(a, b) == Dh(a, c) <==> b == c
  {
  }
}
