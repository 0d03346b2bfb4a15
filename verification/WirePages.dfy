/** Bundles and requests on the wire, and why every page the server builds reaches the client. */
module WirePages {
  import opened Wrappers
  import opened Bytes
  import opened Messages
  import opened Fields
  import opened WireCodec
  import opened Mailbox
  import opened InboxPages

  // ---- prekey bundles ----

  datatype SignedPrekey = SignedPrekey(id: nat, publicKey: Blob, signatureEd25519: Blob, signatureMldsa65: Blob)

  datatype PrekeyBundle = PrekeyBundle(
    user: Text, identitySign: Blob, identityMldsa: Blob, identityDh: Blob,
    signedEc: SignedPrekey, signedPq: SignedPrekey,
    oneTimeEc: seq<OneTimePrekey>, oneTimePq: seq<OneTimePrekey>,
    signatureEd25519: Blob, signatureMldsa65: Blob, version: Text, cipherSuite: Text)

  const BundleKinds: seq<Kind> :=
    [StrK, BlobK, BlobK, BlobK, Kind.U32, BlobK, BlobK, BlobK, Kind.U32, BlobK, BlobK, BlobK, Keys, Keys, BlobK, BlobK, StrK, StrK]

  function BundleFields(b: PrekeyBundle): seq<Field> {
    [BytesField(b.user), BytesField(b.identitySign), BytesField(b.identityMldsa), BytesField(b.identityDh),
     U32Field(b.signedEc.id), BytesField(b.signedEc.publicKey), BytesField(b.signedEc.signatureEd25519), BytesField(b.signedEc.signatureMldsa65),
     U32Field(b.signedPq.id), BytesField(b.signedPq.publicKey), BytesField(b.signedPq.signatureEd25519), BytesField(b.signedPq.signatureMldsa65),
     KeysField(b.oneTimeEc), KeysField(b.oneTimePq),
     BytesField(b.signatureEd25519), BytesField(b.signatureMldsa65), BytesField(b.version), BytesField(b.cipherSuite)]
  }

  function BundleOf(f: seq<Field>): PrekeyBundle
    requires AllFit(BundleKinds, f)
  {
    BundleShape(f);
    PrekeyBundle(f[0].bytes, f[1].bytes, f[2].bytes, f[3].bytes,
                 SignedPrekey(f[4].u32, f[5].bytes, f[6].bytes, f[7].bytes),
                 SignedPrekey(f[8].u32, f[9].bytes, f[10].bytes, f[11].bytes),
                 f[12].keys, f[13].keys, f[14].bytes, f[15].bytes, f[16].bytes, f[17].bytes)
  }

  lemma BundleShape(f: seq<Field>)
    requires AllFit(BundleKinds, f)
    ensures |f| == 18
    ensures f[0].BytesField? && f[1].BytesField? && f[2].BytesField? && f[3].BytesField?
    ensures f[4].U32Field? && f[5].BytesField? && f[6].BytesField? && f[7].BytesField?
    ensures f[8].U32Field? && f[9].BytesField? && f[10].BytesField? && f[11].BytesField?
    ensures f[12].KeysField? && f[13].KeysField?
    ensures f[14].BytesField? && f[15].BytesField? && f[16].BytesField? && f[17].BytesField?
  {
    var k := BundleKinds;
    assert Fits(k[0], f[0]) && Fits(k[1], f[1]) && Fits(k[2], f[2]) && Fits(k[3], f[3]) && Fits(k[4], f[4]);
    assert Fits(k[5], f[5]) && Fits(k[6], f[6]) && Fits(k[7], f[7]) && Fits(k[8], f[8]) && Fits(k[9], f[9]);
    assert Fits(k[10], f[10]) && Fits(k[11], f[11]) && Fits(k[12], f[12]) && Fits(k[13], f[13]);
    assert Fits(k[14], f[14]) && Fits(k[15], f[15]) && Fits(k[16], f[16]) && Fits(k[17], f[17]);
  }

  function SerializeBundle(b: PrekeyBundle): Blob {
    OutAll(BundleFields(b))
  }

  function DeserializeBundle(b: Blob): Option<PrekeyBundle> {
    match Decode(BundleKinds, b)
    case None => None
    case Some(f) => DecodeCanonical(BundleKinds, b); Some(BundleOf(f))
  }

  lemma FieldsOfBundle(b: PrekeyBundle, f: seq<Field>)
    requires f == BundleFields(b) && AllFit(BundleKinds, f)
    ensures BundleOf(f) == b
  {
  }

  lemma BundleLimited()
    ensures Limited(BundleKinds)
  {
  }

  lemma BundleRoundTrip(b: PrekeyBundle)
    requires AllFit(BundleKinds, BundleFields(b)) && |SerializeBundle(b)| <= MaxInputBytes
    ensures DeserializeBundle(SerializeBundle(b)) == Some(b)
  {
    var f := BundleFields(b);
    BundleLimited();
    DecodeRoundTrip(BundleKinds, f);
    FieldsOfBundle(b, f);
  }

  lemma BundleOfInverse(f: seq<Field>)
    requires AllFit(BundleKinds, f)
    ensures BundleFields(BundleOf(f)) == f
  {
    BundleShape(f);
  }

  lemma BundleCanonical(b: Blob)
    requires DeserializeBundle(b).Some?
    ensures SerializeBundle(DeserializeBundle(b).value) == b
    ensures AllFit(BundleKinds, BundleFields(DeserializeBundle(b).value))
  {
    DecodeCanonical(BundleKinds, b);
    BundleOfInverse(Decode(BundleKinds, b).value);
  }

  // ---- requests ----

  datatype EnqueueRequest = EnqueueRequest(user: Text, envelope: WireEnvelope)
  datatype DrainRequest = DrainRequest(user: Text, ack: Option<nat>)
  datatype AuthenticatedPayload = AuthenticatedPayload(token: Blob, payload: Blob)

  function SerializeEnqueue(r: EnqueueRequest): Option<Blob> {
    match SerializeEnvelope(r.envelope)
    case None => None
    case Some(e) => Some(OutAll([BytesField(r.user), BytesField(e)]))
  }

  lemma TwoBytes(k0: Kind, k1: Kind, f: seq<Field>)
    requires k0.Bytes? && k1.Bytes? && AllFit([k0, k1], f)
    ensures |f| == 2 && f == [BytesField(f[0].bytes), BytesField(f[1].bytes)]
    ensures |f[0].bytes| <= k0.max && |f[1].bytes| <= k1.max
  {
    assert Fits([k0, k1][0], f[0]) && Fits([k0, k1][1], f[1]);
  }

  function DeserializeEnqueue(b: Blob): Option<EnqueueRequest> {
    match Decode([StrK, BlobK], b)
    case None => None
    case Some(f) =>
      DecodeCanonical([StrK, BlobK], b);
      TwoBytes(StrK, BlobK, f);
      match DeserializeEnvelope(f[1].bytes)
      case None => None
      case Some(e) => Some(EnqueueRequest(f[0].bytes, e))
  }

  function SerializeAuthenticated(p: AuthenticatedPayload): Blob {
    OutAll([BytesField(p.token), BytesField(p.payload)])
  }

  function DeserializeAuthenticated(b: Blob): Option<AuthenticatedPayload> {
    match Decode([BlobK, BlobK], b)
    case None => None
    case Some(f) =>
      DecodeCanonical([BlobK, BlobK], b);
      TwoBytes(BlobK, BlobK, f);
      Some(AuthenticatedPayload(f[0].bytes, f[1].bytes))
  }

  function SerializeDrain(r: DrainRequest): Blob {
    OutAll([BytesField(r.user), OptU64Field(r.ack)])
  }

  function DeserializeDrain(b: Blob): Option<DrainRequest> {
    match Decode([StrK, OptU64], b)
    case None => None
    case Some(f) =>
      DecodeCanonical([StrK, OptU64], b);
      assert Fits([StrK, OptU64][0], f[0]) && Fits([StrK, OptU64][1], f[1]);
      Some(DrainRequest(f[0].bytes, f[1].optU64))
  }

  lemma TwoOut(a: Field, b: Field)
    ensures OutAll([a, b]) == Out(a) + Out(b)
  {
    var tail := [b];
    assert [a, b][1..] == tail && tail[1..] == [];
    assert OutAll(tail) == Out(b) + [];
  }

  lemma EnqueueRoundTrip(r: EnqueueRequest)
    requires EnvelopeFits(r.envelope) && |SerializeEnvelope(r.envelope).value| <= MaxFieldBytes
    requires |r.user| <= MaxStringBytes
    ensures DeserializeEnqueue(SerializeEnqueue(r).value) == Some(r)
  {
    var e := SerializeEnvelope(r.envelope).value;
    TwoOut(BytesField(r.user), BytesField(e));
    DecodeRoundTrip([StrK, BlobK], [BytesField(r.user), BytesField(e)]);
    EnvelopeRoundTrip(r.envelope);
  }

  lemma EnqueueCanonical(b: Blob)
    requires DeserializeEnqueue(b).Some?
    ensures var r := DeserializeEnqueue(b).value;
            && SerializeEnqueue(r) == Some(b) && EnvelopeFits(r.envelope)
            && |b| == 8 + |r.user| + |SerializeEnvelope(r.envelope).value|
  {
    DecodeCanonical([StrK, BlobK], b);
    var f := Decode([StrK, BlobK], b).value;
    TwoBytes(StrK, BlobK, f);
    EnvelopeCanonical(f[1].bytes);
    TwoOut(f[0], f[1]);
  }

  lemma AuthenticatedRoundTrip(p: AuthenticatedPayload)
    requires |p.token| <= MaxFieldBytes && |p.payload| <= MaxFieldBytes
    ensures DeserializeAuthenticated(SerializeAuthenticated(p)) == Some(p)
  {
    TwoOut(BytesField(p.token), BytesField(p.payload));
    DecodeRoundTrip([BlobK, BlobK], [BytesField(p.token), BytesField(p.payload)]);
  }

  lemma AuthenticatedCanonical(b: Blob)
    requires DeserializeAuthenticated(b).Some?
    ensures var p := DeserializeAuthenticated(b).value;
            SerializeAuthenticated(p) == b && |b| == 8 + |p.token| + |p.payload|
  {
    DecodeCanonical([BlobK, BlobK], b);
    var f := Decode([BlobK, BlobK], b).value;
    TwoBytes(BlobK, BlobK, f);
    TwoOut(f[0], f[1]);
  }

  lemma DrainRoundTrip(r: DrainRequest)
    requires |r.user| <= MaxStringBytes && (r.ack.Some? ==> r.ack.value < TWO64)
    ensures DeserializeDrain(SerializeDrain(r)) == Some(r)
  {
    TwoOut(BytesField(r.user), OptU64Field(r.ack));
    DecodeRoundTrip([StrK, OptU64], [BytesField(r.user), OptU64Field(r.ack)]);
  }

  lemma DrainCanonical(b: Blob)
    requires DeserializeDrain(b).Some?
    ensures SerializeDrain(DeserializeDrain(b).value) == b
  {
    DecodeCanonical([StrK, OptU64], b);
    var f := Decode([StrK, OptU64], b).value;
    assert Fits([StrK, OptU64][0], f[0]) && Fits([StrK, OptU64][1], f[1]);
    assert f == [BytesField(f[0].bytes), OptU64Field(f[1].optU64)];
  }

  // ---- page delivery ----

  const SessionTokenBytes: nat := 32

  /** The enqueue request inside a frame's payload, if it decodes and carries a session token. */
  function FramedEnqueue(payload: Blob): Option<EnqueueRequest> {
    match DeserializeAuthenticated(payload)
    case None => None
    case Some(p) => if |p.token| != SessionTokenBytes then None else DeserializeEnqueue(p.payload)
  }

  /** The envelope came in through a frame. */
  ghost predicate Arrived(e: WireEnvelope) {
    exists payload: Blob :: |payload| <= MaxFramePayload && FramedEnqueue(payload).Some? && FramedEnqueue(payload).value.envelope == e
  }

  /** Such an envelope leaves room in a frame for the overhead of a page: canonicity makes its
      stored encoding as long as the one that arrived. */
  lemma ArrivedFits(e: WireEnvelope)
    requires Arrived(e)
    ensures EnvelopeFits(e) && |SerializeEnvelope(e).value| + RequestOverhead <= MaxFramePayload
  {
    var payload: Blob :| |payload| <= MaxFramePayload && FramedEnqueue(payload).Some? && FramedEnqueue(payload).value.envelope == e;
    AuthenticatedCanonical(payload);
    EnqueueCanonical(DeserializeAuthenticated(payload).value.payload);
  }

  /** The envelope codec decodes nothing but its own encodings, so the page codec does neither. */
  lemma EnvelopeCodecExact()
    ensures Exact(SerializeEnvelope, DeserializeEnvelope)
  {
    forall b: Blob | DeserializeEnvelope(b).Some? ensures SerializeEnvelope(DeserializeEnvelope(b).value) == Some(b) {
      EnvelopeCanonical(b);
    }
  }

  /** Every accepted page is the encoding of what it decodes to. */
  lemma PageCanonical(b: Blob)
    requires DeserializeInbox(b, DeserializeEnvelope).Some?
    ensures SerializeInbox(DeserializeInbox(b, DeserializeEnvelope).value, SerializeEnvelope) == Some(b)
  {
    EnvelopeCodecExact();
    InboxCanonical(b, SerializeEnvelope, DeserializeEnvelope);
  }

  lemma ArrivedIsSmall(i: Item<WireEnvelope>)
    requires i.id < TWO64 && Arrived(i.envelope)
    ensures SmallEnough(i, SerializeEnvelope, DeserializeEnvelope)
  {
    ArrivedFits(i.envelope);
    EnvelopeRoundTrip(i.envelope);
  }

  /** Page delivery. Whatever envelopes have come in through frames, the server can build the next
      page of them, the page fits a frame, and the client decodes that very page. */
  lemma PageDelivered(items: seq<Item<WireEnvelope>>)
    requires forall i :: 0 <= i < |items| ==> items[i].id < TWO64 && Arrived(items[i].envelope)
    ensures Page(items, SizeOf(SerializeEnvelope)).Some?
    ensures var p := Page(items, SizeOf(SerializeEnvelope)).value;
            && p <= items && (items != [] ==> p != []) && |p| <= MaxPageItems
            && SerializeInbox(p, SerializeEnvelope).Some?
            && |SerializeInbox(p, SerializeEnvelope).value| <= MaxFramePayload
            && DeserializeInbox(SerializeInbox(p, SerializeEnvelope).value, DeserializeEnvelope) == Some(p)
  {
    forall i | 0 <= i < |items| ensures SmallEnough(items[i], SerializeEnvelope, DeserializeEnvelope) {
      ArrivedIsSmall(items[i]);
    }
    PageFitsFrame(items, SerializeEnvelope, DeserializeEnvelope);
  }
}
