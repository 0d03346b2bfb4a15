/** The message records of messages.h. Cryptographic values are type parameters: the wire
    codec instantiates them with byte strings, the protocol model with symbolic terms. */
module Messages {
  import opened Wrappers
  import opened Bytes

  const ProtocolVersion: Text := Ascii("pqchat-v1")
  const CipherSuite: Text := Ascii("X25519+ML-KEM-768+ChaCha20-Poly1305+HKDF-SHA256")

  datatype PrekeySelection = PrekeySelection(
    signedEcId: nat,
    signedPqId: nat,
    oneTimeEcId: Option<nat>,
    oneTimePqId: Option<nat>)

  /** `PK` are Diffie-Hellman public keys. */
  datatype MessageHeader<PK> = MessageHeader(
    ratchetKey: Option<PK>,
    previousChainLength: nat,
    messageNumber: nat,
    flags: nat)

  /** `CT` are AEAD ciphertexts. */
  datatype ChatMessage<PK, CT> = ChatMessage(
    sessionId: Text,
    fromUser: Text,
    toUser: Text,
    header: MessageHeader<PK>,
    nonce: seq<byte>,
    ciphertext: CT)

  /** `VK` are signature verification keys, `KC` KEM ciphertexts, `TH` transcript hashes and
      `SG` signatures. */
  datatype InitialMessage<VK, PK, KC, TH, SG, CT> = InitialMessage(
    sessionId: Text,
    fromUser: Text,
    toUser: Text,
    version: Text,
    cipherSuite: Text,
    identitySign: VK,
    identityMldsa: VK,
    identityDh: PK,
    ephemeral: PK,
    selected: PrekeySelection,
    kemSigned: KC,
    kemOneTime: Option<KC>,
    transcriptHash: TH,
    signatureEd25519: SG,
    signatureMldsa65: SG,
    nonce: seq<byte>,
    ciphertext: CT)

  datatype EnvelopeKind = KindInitial | KindChat

  /** Either payload may be missing; only the From functions keep kind and payload together. */
  datatype Envelope<I, C> = Envelope(kind: EnvelopeKind, initial: Option<I>, chat: Option<C>)

  function FromInitial<I, C>(m: I): Envelope<I, C> {
    Envelope(KindInitial, Some(m), None)
  }

  function FromChat<I, C>(m: C): Envelope<I, C> {
    Envelope(KindChat, None, Some(m))
  }
}
