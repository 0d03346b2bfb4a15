/** Ideal cryptography as free terms: Diffie-Hellman secrets are unordered pairs of private
    keys, HKDF outputs and hashes are constructors, and an AEAD ciphertext opens exactly under
    the key, nonce and associated data it was sealed with. A private key and its public key
    share one number; numbers are handed out fresh. */
module Symbolic {
  import opened Wrappers
  import opened Bytes
  import opened Messages

  /** A public key that `X25519::SharedSecret` accepts, or bytes that it rejects. */
  datatype PublicKey = PublicKey(id: nat) | BadKey(raw: nat)

  datatype Dh = Dh(lo: nat, hi: nat)

  function SharedSecret(privateKey: nat, publicKey: PublicKey): (dh: Option<Dh>)
    ensures dh.None? <==> publicKey.BadKey?
  {
    match publicKey
    case PublicKey(id) => Some(if privateKey <= id then Dh(privateKey, id) else Dh(id, privateKey))
    case BadKey(_) => None
  }

  /** Both ends compute the same secret, and the secret names the pair that computed it. */
  lemma SharedSecretAgrees(a: nat, b: nat, c: nat)
    ensures SharedSecret(a, PublicKey(b)) == SharedSecret(b, PublicKey(a))
    ensures SharedSecret(a, PublicKey(b)) == SharedSecret(a, PublicKey(c)) ==> b == c
  {
  }

  datatype KemCiphertext = Encapsulated(key: nat, seed: nat) | BadCiphertext(raw: nat)

  /** ML-KEM never reports a wrong key: it yields a secret that nobody else derives. */
  datatype KemSecret = KemSecret(key: nat, seed: nat) | ImplicitReject(decapsulator: nat, key: nat, seed: nat)

  function Decapsulate(privateKey: nat, ciphertext: KemCiphertext): Option<KemSecret> {
    match ciphertext
    case Encapsulated(key, seed) =>
      Some(if key == privateKey then KemSecret(key, seed) else ImplicitReject(privateKey, key, seed))
    case BadCiphertext(_) => None
  }

  /** SHA-256 of the canonical transcript encoding; collision-free, so the record itself. */
  datatype Transcript = Transcript(
    sessionId: Text,
    fromUser: Text,
    toUser: Text,
    version: Text,
    cipherSuite: Text,
    initiatorSign: nat,
    initiatorMldsa: nat,
    initiatorDh: PublicKey,
    responderSign: nat,
    responderMldsa: nat,
    responderDh: PublicKey,
    ephemeral: PublicKey,
    selected: PrekeySelection,
    kemSigned: KemCiphertext,
    kemOneTime: Option<KemCiphertext>)

  datatype Signature = Signature(signer: nat, message: Transcript) | BadSignature(raw: nat)

  predicate Verifies(key: nat, message: Transcript, signature: Signature) {
    signature == Signature(key, message)
  }

  /** The concatenated handshake secrets. */
  datatype HandshakeSecret = HandshakeSecret(
    dh1: Dh, dh2: Dh, dh3: Dh, kemSigned: KemSecret, dh4: Dh, kemOneTime: KemSecret)

  /** Root and chain keys. The three handshake outputs are the thirds of one HKDF call, the two
      ratchet outputs the halves of another; `NextChain` is the second half of a chain step. */
  datatype Key =
    | HandshakeRoot(secret: HandshakeSecret, transcript: Transcript)
    | HandshakeChain(secret: HandshakeSecret, transcript: Transcript, ofInitiator: bool)
    | NextChain(chain: Key, counter: nat)
    | RatchetChain(dh: Dh, root: Key)
    | RatchetRoot(dh: Dh, root: Key)

  /** The first half of a chain step. */
  datatype MessageKey = MessageKey(chain: Key, counter: nat)

  datatype AssociatedData =
    | TranscriptData(transcript: Transcript)
    | ChatData(sessionId: Text, fromUser: Text, toUser: Text, header: MessageHeader<PublicKey>)

  datatype Ciphertext =
    | Sealed(key: MessageKey, nonce: seq<byte>, plaintext: Text, ad: AssociatedData)
    | BadSealed(raw: nat)

  function Open(key: MessageKey, nonce: seq<byte>, ciphertext: Ciphertext, ad: AssociatedData): (p: Option<Text>)
    ensures p.Some? <==> ciphertext.Sealed? && ciphertext == Sealed(key, nonce, ciphertext.plaintext, ad)
  {
    if ciphertext.Sealed? && ciphertext.key == key && ciphertext.nonce == nonce && ciphertext.ad == ad
    then Some(ciphertext.plaintext)
    else None
  }

  type Chat = ChatMessage<PublicKey, Ciphertext>

  type Initial = InitialMessage<nat, PublicKey, KemCiphertext, Transcript, Signature, Ciphertext>

  function ChatAssociatedData(m: Chat): AssociatedData {
    ChatData(m.sessionId, m.fromUser, m.toUser, m.header)
  }

  const NonceSize: nat := 12

  /** The counter in the last eight of twelve bytes, most significant first. */
  function Nonce(counter: nat): (n: seq<byte>)
    ensures |n| == NonceSize
  {
    [0, 0, 0, 0] + U64Bytes(counter)
  }

  lemma NonceInjective(c: nat, d: nat)
    requires c < TWO64 && d < TWO64 && Nonce(c) == Nonce(d)
    ensures c == d
  {
    U64RoundTrip(c);
    U64RoundTrip(d);
    assert Nonce(c)[4..] == U64Bytes(c) && Nonce(d)[4..] == U64Bytes(d);
  }
}
