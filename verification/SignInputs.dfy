/** The byte strings that are signed, hashed or bound as associated data. Each starts with a tag;
    no two different inputs, of the same kind or not, share an encoding. */
module SignInputs {
  import opened Wrappers
  import opened Bytes
  import opened Messages
  import opened Fields
  import opened WireCodec
  import opened WirePages
  import opened WireBuffers

  datatype SignInput =
    | InitialTranscript(sessionId: Text, fromUser: Text, toUser: Text, version: Text, cipherSuite: Text,
                        initiatorSign: Blob, initiatorMldsa: Blob, initiatorDh: Blob,
                        responderSign: Blob, responderMldsa: Blob, responderDh: Blob, ephemeral: Blob,
                        selected: PrekeySelection, kemSigned: Blob, kemOneTime: Option<Blob>)
    | ChatData(sessionId: Text, fromUser: Text, toUser: Text, header: MessageHeader<Blob>)
    | SafetyNumber(peer: Text, sign: Blob, mldsa: Blob, dh: Blob)
    | EcPrekey(id: nat, key: Blob)
    | PqPrekey(id: nat, key: Blob)
    | BundleSignature(user: Text, sign: Blob, mldsa: Blob, dh: Blob, signedEc: SignedPrekey, signedPq: SignedPrekey,
                      version: Text, cipherSuite: Text)
    | TransportRegister(user: Text, newKey: Blob)
    | TransportRotate(user: Text, oldKey: Blob, newKey: Blob)
    | TransportAuth(user: Text, clientNonce: Blob, serverNonce: Blob, challengeId: Text, expires: nat)

  function Ordinal(x: SignInput): (i: nat)
    ensures i < 9
  {
    match x
    case InitialTranscript(_, _, _, _, _, _, _, _, _, _, _, _, _, _, _) => 0
    case ChatData(_, _, _, _) => 1
    case SafetyNumber(_, _, _, _) => 2
    case EcPrekey(_, _) => 3
    case PqPrekey(_, _) => 4
    case BundleSignature(_, _, _, _, _, _, _, _) => 5
    case TransportRegister(_, _) => 6
    case TransportRotate(_, _, _) => 7
    case TransportAuth(_, _, _, _, _) => 8
  }

  function TagText(i: nat): string
    requires i < 9
  {
    if i == 0 then "pqchat_initial_transcript_v1"
    else if i == 1 then "pqchat_chat_ad_v1"
    else if i == 2 then "pqchat_peer_safety_number_v1"
    else if i == 3 then "pqchat_ec_prekey_v1"
    else if i == 4 then "pqchat_pq_prekey_v1"
    else if i == 5 then "pqchat_bundle_sig_v2"
    else if i == 6 then "pqchat_transport_register_v1"
    else if i == 7 then "pqchat_transport_register_rotate_v1"
    else "pqchat_transport_auth_v1"
  }

  function Tag(x: SignInput): Text {
    Ascii(TagText(Ordinal(x)))
  }

  /** An optional value is announced by a 32-bit 0 or 1. */
  function Announced(o: Option<Field>): seq<Field> {
    if o.None? then [U32Field(0)] else [U32Field(1), o.value]
  }

  function OptNat(o: Option<nat>): Option<Field> {
    if o.None? then None else Some(U32Field(o.value))
  }

  function OptBlob(o: Option<Blob>): Option<Field> {
    if o.None? then None else Some(BytesField(o.value))
  }

  function SignedFields(p: SignedPrekey): seq<Field> {
    [U32Field(p.id), BytesField(p.publicKey), BytesField(p.signatureEd25519), BytesField(p.signatureMldsa65)]
  }

  /** The fields that are always there. */
  function Head(x: SignInput): seq<Field> {
    match x
    case InitialTranscript(s, f, t, v, c, sg, im, id, rs, rm, rd, e, sel, kem, _) =>
      [BytesField(s), BytesField(f), BytesField(t), BytesField(v), BytesField(c),
       BytesField(sg), BytesField(im), BytesField(id), BytesField(rs), BytesField(rm), BytesField(rd), BytesField(e),
       U32Field(sel.signedEcId), U32Field(sel.signedPqId)]
    case ChatData(s, f, t, h) =>
      [BytesField(s), BytesField(f), BytesField(t),
       U64Field(h.previousChainLength), U64Field(h.messageNumber), U32Field(h.flags)]
    case SafetyNumber(p, s, m, d) => [BytesField(p), BytesField(s), BytesField(m), BytesField(d)]
    case EcPrekey(id, key) => [U32Field(id), BytesField(key)]
    case PqPrekey(id, key) => [U32Field(id), BytesField(key)]
    case BundleSignature(u, s, m, d, ec, pq, v, c) =>
      [BytesField(u), BytesField(s), BytesField(m), BytesField(d)] + SignedFields(ec) + SignedFields(pq)
      + [BytesField(v), BytesField(c)]
    case TransportRegister(u, k) => [BytesField(u), BytesField(k)]
    case TransportRotate(u, o, n) => [BytesField(u), BytesField(o), BytesField(n)]
    case TransportAuth(u, cn, sn, c, e) => [BytesField(u), BytesField(cn), BytesField(sn), BytesField(c), U64Field(e)]
  }

  function Tail(x: SignInput): seq<Field> {
    match x
    case InitialTranscript(_, _, _, _, _, _, _, _, _, _, _, _, sel, kem, kem1) =>
      Announced(OptNat(sel.oneTimeEcId)) + (Announced(OptNat(sel.oneTimePqId)) + ([BytesField(kem)] + Announced(OptBlob(kem1))))
    case ChatData(_, _, _, h) => Announced(OptBlob(h.ratchetKey))
    case _ => []
  }

  function Encode(x: SignInput): Blob {
    OutAll([BytesField(Tag(x))] + (Head(x) + Tail(x)))
  }

  // ---- limits ----

  predicate FieldFits(f: Field) {
    match f
    case U32Field(v) => v < TWO32
    case U64Field(v) => v < TWO64
    case BytesField(b) => |b| < TWO32
    case _ => false
  }

  /** Lengths below 2^32 and integers in range, as their types have them. */
  predicate Small(x: SignInput) {
    forall f :: f in Head(x) + Tail(x) ==> FieldFits(f)
  }

  function KindOf(f: Field): Kind {
    match f
    case U32Field(_) => Kind.U32
    case U64Field(_) => Kind.U64
    case _ => Kind.Bytes(TWO32 - 1)
  }

  function KindsOf(fields: seq<Field>): seq<Kind> {
    seq(|fields|, i requires 0 <= i < |fields| => KindOf(fields[i]))
  }

  // ---- reading back ----

  lemma {:induction false} OutAllConcat(a: seq<Field>, b: seq<Field>)
    ensures OutAll(a + b) == OutAll(a) + OutAll(b)
  {
    if a == [] {
      assert a + b == b && OutAll(a) + OutAll(b) == OutAll(b);
    } else {
      assert (a + b)[1..] == a[1..] + b;
      OutAllConcat(a[1..], b);
      Assoc(Out(a[0]), OutAll(a[1..]), OutAll(b));
    }
  }

  /** Fields of the same kinds, before whatever follows, are told apart. */
  lemma SameFields(f: seq<Field>, g: seq<Field>, r: Blob, r': Blob)
    requires KindsOf(f) == KindsOf(g) && OutAll(f) + r == OutAll(g) + r'
    requires forall x :: x in f + g ==> FieldFits(x)
    ensures f == g && r == r'
  {
    var k := KindsOf(f);
    AllFitKinds(f, g);
    AllFitKinds(g, f);
    RoundTrip(k, f, r);
    RoundTrip(k, g, r');
  }

  lemma AllFitKinds(f: seq<Field>, g: seq<Field>)
    requires forall x :: x in f + g ==> FieldFits(x)
    ensures AllFit(KindsOf(f), f) && Limited(KindsOf(f))
  {
    forall i | 0 <= i < |f| ensures Fits(KindsOf(f)[i], f[i]) {
      assert f[i] in f + g;
    }
  }

  lemma SameAnnounced(o: Option<Field>, p: Option<Field>, r: Blob, r': Blob)
    requires OutAll(Announced(o)) + r == OutAll(Announced(p)) + r'
    requires Comparable(o, p)
    ensures o == p && r == r'
  {
    var f, g := Announced(o), Announced(p);
    OutAllCons(f[0], f[1..], r);
    OutAllCons(g[0], g[1..], r');
    assert f == [f[0]] + f[1..] && g == [g[0]] + g[1..];
    FieldRoundTrip(Kind.U32, f[0], OutAll(f[1..]) + r);
    FieldRoundTrip(Kind.U32, g[0], OutAll(g[1..]) + r');
    if o.Some? {
      SameFields(f[1..], g[1..], r, r');
    }
  }

  /** The length of a tag and its eighth character tell the kinds apart. */
  lemma TagMark(i: nat)
    requires i < 9
    ensures |TagText(i)| > 7
    ensures (|TagText(i)|, TagText(i)[7]) ==
            [(28, 'i'), (17, 'c'), (28, 'p'), (19, 'e'), (19, 'p'), (20, 'b'), (28, 't'), (35, 't'), (24, 't')][i]
  {
  }

  lemma TagsDiffer(i: nat, j: nat)
    requires i < 9 && j < 9 && Ascii(TagText(i)) == Ascii(TagText(j))
    ensures i == j
  {
    TagMark(i);
    TagMark(j);
    assert Ascii(TagText(i))[7] == Ascii(TagText(j))[7];
  }

  lemma SameFirst(a: Blob, b: Blob, r: seq<Field>, r': seq<Field>)
    requires |a| < TWO32 && |b| < TWO32 && OutAll([BytesField(a)] + r) == OutAll([BytesField(b)] + r')
    ensures a == b && OutAll(r) == OutAll(r')
  {
    assert OutAll([BytesField(a)] + r) == BytesOut(a) + OutAll(r) by {
      assert ([BytesField(a)] + r)[1..] == r;
    }
    assert OutAll([BytesField(b)] + r') == BytesOut(b) + OutAll(r') by {
      assert ([BytesField(b)] + r')[1..] == r';
    }
    BytesIn(a, TWO32 - 1, OutAll(r));
    BytesIn(b, TWO32 - 1, OutAll(r'));
  }

  lemma SameTag(x: SignInput, y: SignInput)
    requires Encode(x) == Encode(y)
    ensures Ordinal(x) == Ordinal(y) && OutAll(Head(x) + Tail(x)) == OutAll(Head(y) + Tail(y))
  {
    TagMark(Ordinal(x));
    TagMark(Ordinal(y));
    SameFirst(Tag(x), Tag(y), Head(x) + Tail(x), Head(y) + Tail(y));
    TagsDiffer(Ordinal(x), Ordinal(y));
  }

  lemma HeadKinds(x: SignInput, y: SignInput)
    requires Ordinal(x) == Ordinal(y)
    ensures KindsOf(Head(x)) == KindsOf(Head(y))
  {
  }

  lemma SameHead(x: SignInput, y: SignInput)
    requires Ordinal(x) == Ordinal(y) && Small(x) && Small(y) && OutAll(Head(x) + Tail(x)) == OutAll(Head(y) + Tail(y))
    ensures Head(x) == Head(y) && OutAll(Tail(x)) == OutAll(Tail(y))
  {
    HeadKinds(x, y);
    OutAllConcat(Head(x), Tail(x));
    OutAllConcat(Head(y), Tail(y));
    forall f | f in Head(x) + Head(y) ensures FieldFits(f) {
      assert f in Head(x) + Tail(x) || f in Head(y) + Tail(y);
    }
    SameFields(Head(x), Head(y), OutAll(Tail(x)), OutAll(Tail(y)));
  }

  lemma AnnouncedFits(o: Option<Field>, a: seq<Field>, b: seq<Field>)
    requires forall f :: f in a + (Announced(o) + b) ==> FieldFits(f)
    ensures o.Some? ==> FieldFits(o.value)
  {
    if o.Some? {
      assert Announced(o)[1] in Announced(o);
      assert o.value in a + (Announced(o) + b);
    }
  }

  function Chain(ec: Option<Field>, pq: Option<Field>, kem: Field, one: Option<Field>): Blob {
    OutAll(Announced(ec)) + (OutAll(Announced(pq)) + (OutAll([kem]) + OutAll(Announced(one))))
  }

  /** Both are within limits and of the same kind, where they are there. */
  predicate Comparable(o: Option<Field>, p: Option<Field>) {
    && (o.Some? ==> FieldFits(o.value)) && (p.Some? ==> FieldFits(p.value))
    && (o.Some? && p.Some? ==> KindOf(o.value) == KindOf(p.value))
  }

  /** Two optional fields, one that is always there, and another optional one. */
  lemma SameChain(ec: Option<Field>, pq: Option<Field>, kem: Field, one: Option<Field>,
                  ec': Option<Field>, pq': Option<Field>, kem': Field, one': Option<Field>)
    requires Chain(ec, pq, kem, one) == Chain(ec', pq', kem', one')
    requires Comparable(ec, ec') && Comparable(pq, pq') && Comparable(Some(kem), Some(kem')) && Comparable(one, one')
    ensures ec == ec' && pq == pq' && kem == kem' && one == one'
  {
    var a, b, c := OutAll(Announced(pq)), OutAll([kem]), OutAll(Announced(one));
    var a', b', c' := OutAll(Announced(pq')), OutAll([kem']), OutAll(Announced(one'));
    SameAnnounced(ec, ec', a + (b + c), a' + (b' + c'));
    SameAnnounced(pq, pq', b + c, b' + c');
    SameFields([kem], [kem'], c, c');
    assert [kem][0] == [kem'][0];
    assert c + [] == c && c' + [] == c';
    SameAnnounced(one, one', [], []);
  }

  /** The optional fields of a transcript, one after the other. */
  lemma SameTranscriptTail(x: SignInput, y: SignInput)
    requires x.InitialTranscript? && y.InitialTranscript? && Small(x) && Small(y) && OutAll(Tail(x)) == OutAll(Tail(y))
    ensures x.selected.oneTimeEcId == y.selected.oneTimeEcId && x.selected.oneTimePqId == y.selected.oneTimePqId
    ensures x.kemSigned == y.kemSigned && x.kemOneTime == y.kemOneTime
  {
    TranscriptFits(x);
    TranscriptFits(y);
    SameChain(OptNat(x.selected.oneTimeEcId), OptNat(x.selected.oneTimePqId), BytesField(x.kemSigned), OptBlob(x.kemOneTime),
              OptNat(y.selected.oneTimeEcId), OptNat(y.selected.oneTimePqId), BytesField(y.kemSigned), OptBlob(y.kemOneTime));
  }

  lemma ConcatThrice(a: seq<Field>, b: seq<Field>, c: seq<Field>, d: seq<Field>)
    ensures OutAll(a + (b + (c + d))) == OutAll(a) + (OutAll(b) + (OutAll(c) + OutAll(d)))
  {
    OutAllConcat(a, b + (c + d));
    OutAllConcat(b, c + d);
    OutAllConcat(c, d);
  }

  lemma TranscriptFits(x: SignInput)
    requires x.InitialTranscript? && Small(x)
    ensures var ec, pq, one := OptNat(x.selected.oneTimeEcId), OptNat(x.selected.oneTimePqId), OptBlob(x.kemOneTime);
            && (ec.Some? ==> FieldFits(ec.value)) && (pq.Some? ==> FieldFits(pq.value)) && (one.Some? ==> FieldFits(one.value))
            && FieldFits(BytesField(x.kemSigned))
            && OutAll(Tail(x)) == Chain(ec, pq, BytesField(x.kemSigned), one)
  {
    var h, ec, pq := Head(x), Announced(OptNat(x.selected.oneTimeEcId)), Announced(OptNat(x.selected.oneTimePqId));
    var kem, one := [BytesField(x.kemSigned)], Announced(OptBlob(x.kemOneTime));
    AnnouncedFits(OptNat(x.selected.oneTimeEcId), h, pq + (kem + one));
    assert h + (ec + (pq + (kem + one))) == (h + ec) + (pq + (kem + one));
    AnnouncedFits(OptNat(x.selected.oneTimePqId), h + ec, kem + one);
    assert kem[0] in h + (ec + (pq + (kem + one)));
    assert h + (ec + (pq + (kem + one))) == (h + ec + pq + kem) + (one + []);
    AnnouncedFits(OptBlob(x.kemOneTime), h + ec + pq + kem, []);
    ConcatThrice(ec, pq, kem, one);
  }

  lemma SameChatTail(x: SignInput, y: SignInput)
    requires x.ChatData? && y.ChatData? && Small(x) && Small(y) && OutAll(Tail(x)) == OutAll(Tail(y))
    ensures x.header.ratchetKey == y.header.ratchetKey
  {
    var o, p := OptBlob(x.header.ratchetKey), OptBlob(y.header.ratchetKey);
    assert Announced(o) == Announced(o) + [] && Announced(p) == Announced(p) + [];
    AnnouncedFits(o, Head(x), []);
    AnnouncedFits(p, Head(y), []);
    assert OutAll(Announced(o)) + [] == OutAll(Announced(o)) && OutAll(Announced(p)) + [] == OutAll(Announced(p));
    SameAnnounced(o, p, [], []);
  }

  lemma HeadTells(x: SignInput, y: SignInput)
    requires Ordinal(x) == Ordinal(y) && Head(x) == Head(y) && !x.InitialTranscript? && !x.ChatData? && !x.BundleSignature?
    ensures x == y
  {
    var h, g := Head(x), Head(y);
    assert h[0] == g[0] && h[1] == g[1];
    if x.SafetyNumber? {
      assert h[2] == g[2] && h[3] == g[3];
    } else if x.TransportRotate? {
      assert h[2] == g[2];
    } else if x.TransportAuth? {
      assert h[2] == g[2] && h[3] == g[3] && h[4] == g[4];
    }
  }

  lemma BundleHeadTells(x: SignInput, y: SignInput)
    requires x.BundleSignature? && y.BundleSignature? && Head(x) == Head(y)
    ensures x == y
  {
    var h, g := Head(x), Head(y);
    assert h[0] == g[0] && h[1] == g[1] && h[2] == g[2] && h[3] == g[3] && h[4] == g[4] && h[5] == g[5] && h[6] == g[6];
    assert h[7] == g[7] && h[8] == g[8] && h[9] == g[9] && h[10] == g[10] && h[11] == g[11] && h[12] == g[12] && h[13] == g[13];
  }

  lemma ChatHeadTells(x: SignInput, y: SignInput)
    requires x.ChatData? && y.ChatData? && Head(x) == Head(y) && x.header.ratchetKey == y.header.ratchetKey
    ensures x == y
  {
    var h, g := Head(x), Head(y);
    assert h[0] == g[0] && h[1] == g[1] && h[2] == g[2] && h[3] == g[3] && h[4] == g[4] && h[5] == g[5];
  }

  lemma TranscriptHeadTells(x: SignInput, y: SignInput)
    requires x.InitialTranscript? && y.InitialTranscript? && Head(x) == Head(y)
    requires x.selected.oneTimeEcId == y.selected.oneTimeEcId && x.selected.oneTimePqId == y.selected.oneTimePqId
    requires x.kemSigned == y.kemSigned && x.kemOneTime == y.kemOneTime
    ensures x == y
  {
    var h, g := Head(x), Head(y);
    assert h[0] == g[0] && h[1] == g[1] && h[2] == g[2] && h[3] == g[3] && h[4] == g[4] && h[5] == g[5] && h[6] == g[6];
    assert h[7] == g[7] && h[8] == g[8] && h[9] == g[9] && h[10] == g[10] && h[11] == g[11] && h[12] == g[12] && h[13] == g[13];
  }

  /** Unambiguous encodings: equal bytes come from equal inputs, across all nine kinds. */
  lemma EncodeInjective(x: SignInput, y: SignInput)
    requires Small(x) && Small(y) && Encode(x) == Encode(y)
    ensures x == y
  {
    SameTag(x, y);
    SameHead(x, y);
    if x.InitialTranscript? {
      SameTranscriptTail(x, y);
      TranscriptHeadTells(x, y);
    } else if x.ChatData? {
      SameChatTail(x, y);
      ChatHeadTells(x, y);
    } else if x.BundleSignature? {
      BundleHeadTells(x, y);
    } else {
      HeadTells(x, y);
    }
  }

  // ---- the encoders ----

  /** A writer that already holds the tag. */
  method StartWith(tag: Text) returns (w: Writer)
    ensures fresh(w) && w.Valid() && w.fields == [BytesField(tag)]
  {
    w := new Writer();
    w.Bytes(tag);
  }

  method AppendBlobs(w: Writer, blobs: seq<Blob>)
    requires w.Valid()
    modifies w
    ensures w.Valid() && w.fields == old(w.fields) + BlobFields(blobs)
  {
    for i := 0 to |blobs|
      invariant w.Valid() && w.fields == old(w.fields) + BlobFields(blobs[..i])
    {
      assert BlobFields(blobs[..i+1]) == BlobFields(blobs[..i]) + [BytesField(blobs[i])];
      w.Bytes(blobs[i]);
    }
    assert blobs[..|blobs|] == blobs;
  }

  function BlobFields(blobs: seq<Blob>): seq<Field> {
    seq(|blobs|, i requires 0 <= i < |blobs| => BytesField(blobs[i]))
  }

  method AppendOptU32(w: Writer, o: Option<nat>)
    requires w.Valid()
    modifies w
    ensures w.Valid() && w.fields == old(w.fields) + Announced(OptNat(o))
  {
    w.U32(if o.Some? then 1 else 0);
    if o.Some? {
      w.U32(o.value);
    }
  }

  method AppendOptBytes(w: Writer, o: Option<Blob>)
    requires w.Valid()
    modifies w
    ensures w.Valid() && w.fields == old(w.fields) + Announced(OptBlob(o))
  {
    w.U32(if o.Some? then 1 else 0);
    if o.Some? {
      w.Bytes(o.value);
    }
  }

  method BuildTransportAuthSignInput(user: Text, clientNonce: Blob, serverNonce: Blob, challengeId: Text, expires: nat) returns (out: Blob)
    ensures out == Encode(TransportAuth(user, clientNonce, serverNonce, challengeId, expires))
  {
    ghost var x := TransportAuth(user, clientNonce, serverNonce, challengeId, expires);
    var w := StartWith(Ascii("pqchat_transport_auth_v1"));
    AppendBlobs(w, [user, clientNonce, serverNonce, challengeId]);
    w.U64(expires);
    assert w.fields == [BytesField(Tag(x))] + (Head(x) + Tail(x));
    return w.out;
  }

  method BuildTransportRegisterSignInput(user: Text, newKey: Blob) returns (out: Blob)
    ensures out == Encode(TransportRegister(user, newKey))
  {
    ghost var x := TransportRegister(user, newKey);
    var w := StartWith(Ascii("pqchat_transport_register_v1"));
    AppendBlobs(w, [user, newKey]);
    assert w.fields == [BytesField(Tag(x))] + (Head(x) + Tail(x));
    return w.out;
  }

  method BuildTransportRegisterRotateSignInput(user: Text, oldKey: Blob, newKey: Blob) returns (out: Blob)
    ensures out == Encode(TransportRotate(user, oldKey, newKey))
  {
    ghost var x := TransportRotate(user, oldKey, newKey);
    var w := StartWith(Ascii("pqchat_transport_register_rotate_v1"));
    AppendBlobs(w, [user, oldKey, newKey]);
    assert w.fields == [BytesField(Tag(x))] + (Head(x) + Tail(x));
    return w.out;
  }

  /** The input of the hash. */
  method BuildChatAssociatedData(m: WireChat) returns (out: Blob)
    ensures out == Encode(ChatData(m.sessionId, m.fromUser, m.toUser, m.header))
  {
    ghost var x := ChatData(m.sessionId, m.fromUser, m.toUser, m.header);
    var w := StartWith(Ascii("pqchat_chat_ad_v1"));
    AppendBlobs(w, [m.sessionId, m.fromUser, m.toUser]);
    w.U64(m.header.previousChainLength);
    w.U64(m.header.messageNumber);
    w.U32(m.header.flags);
    AppendOptBytes(w, m.header.ratchetKey);
    assert w.fields == [BytesField(Tag(x))] + (Head(x) + Tail(x));
    return w.out;
  }

  method AppendTranscriptHead(w: Writer, x: SignInput)
    requires w.Valid() && x.InitialTranscript?
    modifies w
    ensures w.Valid() && w.fields == old(w.fields) + Head(x)
  {
    var blobs := [x.sessionId, x.fromUser, x.toUser, x.version, x.cipherSuite,
                  x.initiatorSign, x.initiatorMldsa, x.initiatorDh,
                  x.responderSign, x.responderMldsa, x.responderDh, x.ephemeral];
    AppendBlobs(w, blobs);
    w.U32(x.selected.signedEcId);
    w.U32(x.selected.signedPqId);
    assert Head(x) == BlobFields(blobs) + [U32Field(x.selected.signedEcId), U32Field(x.selected.signedPqId)];
  }

  /** The input of the hash; an unknown version or suite is an error. */
  method TranscriptInput(x: SignInput) returns (out: Option<Blob>)
    requires x.InitialTranscript?
    ensures out == if x.version == ProtocolVersion && x.cipherSuite == CipherSuite then Some(Encode(x)) else None
  {
    var w := StartWith(Ascii("pqchat_initial_transcript_v1"));
    AppendTranscriptHead(w, x);
    AppendOptU32(w, x.selected.oneTimeEcId);
    AppendOptU32(w, x.selected.oneTimePqId);
    w.Bytes(x.kemSigned);
    AppendOptBytes(w, x.kemOneTime);
    TailAppended([BytesField(Tag(x))], Head(x), Announced(OptNat(x.selected.oneTimeEcId)), Announced(OptNat(x.selected.oneTimePqId)),
                 [BytesField(x.kemSigned)], Announced(OptBlob(x.kemOneTime)));
    if x.version != ProtocolVersion || x.cipherSuite != CipherSuite {
      return None;
    }
    return Some(w.out);
  }

  lemma TailAppended(a: seq<Field>, b: seq<Field>, c: seq<Field>, d: seq<Field>, e: seq<Field>, f: seq<Field>)
    ensures a + b + c + d + e + f == a + (b + (c + (d + (e + f))))
  {
  }
}
