/** The wire messages of serialization.cpp as sequences of fields, and the encoder and decoder of
    each as functions on byte strings. */
module WireCodec {
  import opened Wrappers
  import opened Bytes
  import opened Messages
  import opened Fields
  import opened InboxPages

  type Blob = seq<byte>
  type WireChat = ChatMessage<Blob, Blob>
  type WireInitial = InitialMessage<Blob, Blob, Blob, Blob, Blob, Blob>
  type WireEnvelope = Envelope<WireInitial, WireChat>

  const StrK: Kind := Kind.Bytes(MaxStringBytes)
  const BlobK: Kind := Kind.Bytes(MaxFieldBytes)

  /** All fields and nothing after them. */
  function Decode(kinds: seq<Kind>, b: Blob): Option<seq<Field>> {
    if |b| > MaxInputBytes then None else
    match InAll(kinds, b)
    case None => None
    case Some((fields, rest)) => if rest == [] then Some(fields) else None
  }

  lemma DecodeRoundTrip(kinds: seq<Kind>, fields: seq<Field>)
    requires AllFit(kinds, fields) && Limited(kinds) && |OutAll(fields)| <= MaxInputBytes
    ensures Decode(kinds, OutAll(fields)) == Some(fields)
  {
    RoundTrip(kinds, fields, []);
    assert OutAll(fields) + [] == OutAll(fields);
  }

  lemma DecodeCanonical(kinds: seq<Kind>, b: Blob)
    requires Decode(kinds, b).Some?
    ensures AllFit(kinds, Decode(kinds, b).value) && OutAll(Decode(kinds, b).value) == b
  {
    Canonical(kinds, b);
    var fields := InAll(kinds, b).value.0;
    assert OutAll(fields) + [] == OutAll(fields);
  }

  // ---- envelopes ----

  const HeaderKinds: seq<Kind> := [OptBytes, U64, U64, Kind.U32]

  function HeaderFields(h: MessageHeader<Blob>): seq<Field> {
    [OptBytesField(h.ratchetKey), U64Field(h.previousChainLength), U64Field(h.messageNumber), U32Field(h.flags)]
  }

  const ChatKinds: seq<Kind> := [StrK, StrK, StrK, OptBytes, U64, U64, Kind.U32, BlobK, BlobK]

  function ChatFields(m: WireChat): seq<Field> {
    [BytesField(m.sessionId), BytesField(m.fromUser), BytesField(m.toUser),
     OptBytesField(m.header.ratchetKey), U64Field(m.header.previousChainLength),
     U64Field(m.header.messageNumber), U32Field(m.header.flags),
     BytesField(m.nonce), BytesField(m.ciphertext)]
  }

  function ChatOf(f: seq<Field>): WireChat
    requires AllFit(ChatKinds, f)
  {
    ChatShape(f);
    ChatMessage(f[0].bytes, f[1].bytes, f[2].bytes,
                MessageHeader(f[3].optBytes, f[4].u64, f[5].u64, f[6].u32), f[7].bytes, f[8].bytes)
  }

  lemma ChatShape(f: seq<Field>)
    requires AllFit(ChatKinds, f)
    ensures |f| == 9 && f[0].BytesField? && f[1].BytesField? && f[2].BytesField? && f[3].OptBytesField? && f[4].U64Field?
    ensures f[5].U64Field? && f[6].U32Field? && f[7].BytesField? && f[8].BytesField?
  {
    var k := ChatKinds;
    assert Fits(k[0], f[0]) && Fits(k[1], f[1]) && Fits(k[2], f[2]) && Fits(k[3], f[3]) && Fits(k[4], f[4]);
    assert Fits(k[5], f[5]) && Fits(k[6], f[6]) && Fits(k[7], f[7]) && Fits(k[8], f[8]);
  }

  const SelectionKinds: seq<Kind> := [Kind.U32, Kind.U32, OptU32, OptU32]

  function SelectionFields(s: PrekeySelection): seq<Field> {
    [U32Field(s.signedEcId), U32Field(s.signedPqId), OptU32Field(s.oneTimeEcId), OptU32Field(s.oneTimePqId)]
  }

  const InitialKinds: seq<Kind> :=
    [StrK, StrK, StrK, StrK, StrK, BlobK, BlobK, BlobK, BlobK, Kind.U32, Kind.U32, OptU32, OptU32,
     BlobK, OptBytes, BlobK, BlobK, BlobK, BlobK, BlobK]

  function InitialFields(m: WireInitial): seq<Field> {
    [BytesField(m.sessionId), BytesField(m.fromUser), BytesField(m.toUser), BytesField(m.version), BytesField(m.cipherSuite),
     BytesField(m.identitySign), BytesField(m.identityMldsa), BytesField(m.identityDh), BytesField(m.ephemeral),
     U32Field(m.selected.signedEcId), U32Field(m.selected.signedPqId),
     OptU32Field(m.selected.oneTimeEcId), OptU32Field(m.selected.oneTimePqId),
     BytesField(m.kemSigned), OptBytesField(m.kemOneTime),
     BytesField(m.transcriptHash), BytesField(m.signatureEd25519), BytesField(m.signatureMldsa65),
     BytesField(m.nonce), BytesField(m.ciphertext)]
  }

  function InitialOf(f: seq<Field>): WireInitial
    requires AllFit(InitialKinds, f)
  {
    InitialShape(f);
    InitialMessage(f[0].bytes, f[1].bytes, f[2].bytes, f[3].bytes, f[4].bytes, f[5].bytes, f[6].bytes, f[7].bytes, f[8].bytes,
                   PrekeySelection(f[9].u32, f[10].u32, f[11].optU32, f[12].optU32),
                   f[13].bytes, f[14].optBytes, f[15].bytes, f[16].bytes, f[17].bytes, f[18].bytes, f[19].bytes)
  }

  lemma InitialShape(f: seq<Field>)
    requires AllFit(InitialKinds, f)
    ensures |f| == 20
    ensures f[0].BytesField? && f[1].BytesField? && f[2].BytesField? && f[3].BytesField? && f[4].BytesField?
    ensures f[5].BytesField? && f[6].BytesField? && f[7].BytesField? && f[8].BytesField?
    ensures f[9].U32Field? && f[10].U32Field? && f[11].OptU32Field? && f[12].OptU32Field?
    ensures f[13].BytesField? && f[14].OptBytesField? && f[15].BytesField? && f[16].BytesField?
    ensures f[17].BytesField? && f[18].BytesField? && f[19].BytesField?
  {
    var k := InitialKinds;
    assert Fits(k[0], f[0]) && Fits(k[1], f[1]) && Fits(k[2], f[2]) && Fits(k[3], f[3]) && Fits(k[4], f[4]);
    assert Fits(k[5], f[5]) && Fits(k[6], f[6]) && Fits(k[7], f[7]) && Fits(k[8], f[8]) && Fits(k[9], f[9]);
    assert Fits(k[10], f[10]) && Fits(k[11], f[11]) && Fits(k[12], f[12]) && Fits(k[13], f[13]) && Fits(k[14], f[14]);
    assert Fits(k[15], f[15]) && Fits(k[16], f[16]) && Fits(k[17], f[17]) && Fits(k[18], f[18]) && Fits(k[19], f[19]);
  }

  function SerializeEnvelope(e: WireEnvelope): Option<Blob> {
    match e.kind
    case KindInitial => if e.initial.None? then None else Some([0] + OutAll(InitialFields(e.initial.value)))
    case KindChat => if e.chat.None? then None else Some([1] + OutAll(ChatFields(e.chat.value)))
  }

  function DeserializeEnvelope(b: Blob): Option<WireEnvelope> {
    if |b| > MaxInputBytes || b == [] then None
    else if b[0] == 0 then
      match Decode(InitialKinds, b[1..])
      case None => None
      case Some(f) => DecodeCanonical(InitialKinds, b[1..]); Some(FromInitial(InitialOf(f)))
    else if b[0] == 1 then
      match Decode(ChatKinds, b[1..])
      case None => None
      case Some(f) => DecodeCanonical(ChatKinds, b[1..]); Some(FromChat(ChatOf(f)))
    else None
  }

  /** Kind and payload agree, every field is within its limit, and so is the whole. */
  predicate EnvelopeFits(e: WireEnvelope) {
    && (match e.kind
        case KindInitial => e.initial.Some? && e.chat.None? && AllFit(InitialKinds, InitialFields(e.initial.value))
        case KindChat => e.chat.Some? && e.initial.None? && AllFit(ChatKinds, ChatFields(e.chat.value)))
    && |SerializeEnvelope(e).value| <= MaxInputBytes
  }

  lemma KindsLimited()
    ensures Limited(ChatKinds) && Limited(InitialKinds)
  {
  }

  lemma FieldsOfChat(m: WireChat, f: seq<Field>)
    requires f == ChatFields(m) && AllFit(ChatKinds, f)
    ensures ChatOf(f) == m
  {
  }

  lemma FieldsOfInitial(m: WireInitial, f: seq<Field>)
    requires f == InitialFields(m) && AllFit(InitialKinds, f)
    ensures InitialOf(f) == m
  {
  }

  /** Decoding an encoded envelope returns it. */
  lemma EnvelopeRoundTrip(e: WireEnvelope)
    requires EnvelopeFits(e)
    ensures DeserializeEnvelope(SerializeEnvelope(e).value) == Some(e)
  {
    var b := SerializeEnvelope(e).value;
    var tail := b[1..];
    KindsLimited();
    if e.kind.KindInitial? {
      var f := InitialFields(e.initial.value);
      assert tail == OutAll(f);
      DecodeRoundTrip(InitialKinds, f);
      FieldsOfInitial(e.initial.value, f);
    } else {
      var f := ChatFields(e.chat.value);
      assert tail == OutAll(f);
      DecodeRoundTrip(ChatKinds, f);
      FieldsOfChat(e.chat.value, f);
    }
  }

  lemma ChatOfInverse(f: seq<Field>)
    requires AllFit(ChatKinds, f)
    ensures ChatFields(ChatOf(f)) == f
  {
    ChatShape(f);
  }

  lemma InitialOfInverse(f: seq<Field>)
    requires AllFit(InitialKinds, f)
    ensures InitialFields(InitialOf(f)) == f
  {
    InitialShape(f);
  }

  /** Encoding a decoded envelope returns the very bytes. */
  lemma EnvelopeCanonical(b: Blob)
    requires DeserializeEnvelope(b).Some?
    ensures EnvelopeFits(DeserializeEnvelope(b).value)
    ensures SerializeEnvelope(DeserializeEnvelope(b).value) == Some(b)
  {
    assert b == [b[0]] + b[1..];
    if b[0] == 0 {
      DecodeCanonical(InitialKinds, b[1..]);
      InitialOfInverse(Decode(InitialKinds, b[1..]).value);
    } else {
      DecodeCanonical(ChatKinds, b[1..]);
      ChatOfInverse(Decode(ChatKinds, b[1..]).value);
    }
  }
}
