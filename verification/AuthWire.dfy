/** The messages of registration and login on the wire, and plain strings. */
module AuthWire {
  import opened Wrappers
  import opened Bytes
  import opened Fields
  import opened InboxPages
  import opened WireCodec
  import opened AuthSpec

  const RegisterKinds: seq<Kind> := [StrK, BlobK, StrK, BlobK, OptBytes]

  function RegisterFields(m: RegisterRequest): seq<Field> {
    [BytesField(m.user), BytesField(m.key), BytesField(m.token), BytesField(m.proof), OptBytesField(m.rotation)]
  }

  lemma RegisterShape(f: seq<Field>)
    requires AllFit(RegisterKinds, f)
    ensures |f| == 5 && f[0].BytesField? && f[1].BytesField? && f[2].BytesField? && f[3].BytesField? && f[4].OptBytesField?
  {
    assert Fits(RegisterKinds[0], f[0]) && Fits(RegisterKinds[1], f[1]) && Fits(RegisterKinds[2], f[2]) && Fits(RegisterKinds[3], f[3]) && Fits(RegisterKinds[4], f[4]);
  }

  function SerializeRegister(m: RegisterRequest): Blob {
    OutAll(RegisterFields(m))
  }

  function DeserializeRegister(b: Blob): Option<RegisterRequest> {
    match Decode(RegisterKinds, b)
    case None => None
    case Some(f) =>
      DecodeCanonical(RegisterKinds, b);
      RegisterShape(f);
      Some(RegisterRequest(f[0].bytes, f[1].bytes, f[2].bytes, f[3].bytes, f[4].optBytes))
  }

  lemma RegisterRoundTrip(m: RegisterRequest)
    requires AllFit(RegisterKinds, RegisterFields(m)) && |SerializeRegister(m)| <= MaxInputBytes
    ensures DeserializeRegister(SerializeRegister(m)) == Some(m)
  {
    DecodeRoundTrip(RegisterKinds, RegisterFields(m));
  }

  lemma RegisterCanonical(b: Blob)
    requires DeserializeRegister(b).Some?
    ensures var m := DeserializeRegister(b).value; SerializeRegister(m) == b && AllFit(RegisterKinds, RegisterFields(m))
  {
    DecodeCanonical(RegisterKinds, b);
    var f := Decode(RegisterKinds, b).value;
    RegisterShape(f);
    assert RegisterFields(DeserializeRegister(b).value) == f;
  }

  const BeginKinds: seq<Kind> := [StrK, BlobK]

  function BeginFields(m: BeginRequest): seq<Field> {
    [BytesField(m.user), BytesField(m.clientNonce)]
  }

  lemma BeginShape(f: seq<Field>)
    requires AllFit(BeginKinds, f)
    ensures |f| == 2 && f[0].BytesField? && f[1].BytesField?
  {
    assert Fits(BeginKinds[0], f[0]) && Fits(BeginKinds[1], f[1]);
  }

  function SerializeBegin(m: BeginRequest): Blob {
    OutAll(BeginFields(m))
  }

  function DeserializeBegin(b: Blob): Option<BeginRequest> {
    match Decode(BeginKinds, b)
    case None => None
    case Some(f) =>
      DecodeCanonical(BeginKinds, b);
      BeginShape(f);
      Some(BeginRequest(f[0].bytes, f[1].bytes))
  }

  lemma BeginRoundTrip(m: BeginRequest)
    requires AllFit(BeginKinds, BeginFields(m)) && |SerializeBegin(m)| <= MaxInputBytes
    ensures DeserializeBegin(SerializeBegin(m)) == Some(m)
  {
    DecodeRoundTrip(BeginKinds, BeginFields(m));
  }

  lemma BeginCanonical(b: Blob)
    requires DeserializeBegin(b).Some?
    ensures var m := DeserializeBegin(b).value; SerializeBegin(m) == b && AllFit(BeginKinds, BeginFields(m))
  {
    DecodeCanonical(BeginKinds, b);
    var f := Decode(BeginKinds, b).value;
    BeginShape(f);
    assert BeginFields(DeserializeBegin(b).value) == f;
  }

  const BeginReplyKinds: seq<Kind> := [StrK, BlobK, Kind.U64]

  function BeginReplyFields(m: BeginResponse): seq<Field> {
    [BytesField(m.challengeId), BytesField(m.serverNonce), U64Field(m.expires)]
  }

  lemma BeginReplyShape(f: seq<Field>)
    requires AllFit(BeginReplyKinds, f)
    ensures |f| == 3 && f[0].BytesField? && f[1].BytesField? && f[2].U64Field?
  {
    assert Fits(BeginReplyKinds[0], f[0]) && Fits(BeginReplyKinds[1], f[1]) && Fits(BeginReplyKinds[2], f[2]);
  }

  function SerializeBeginReply(m: BeginResponse): Blob {
    OutAll(BeginReplyFields(m))
  }

  function DeserializeBeginReply(b: Blob): Option<BeginResponse> {
    match Decode(BeginReplyKinds, b)
    case None => None
    case Some(f) =>
      DecodeCanonical(BeginReplyKinds, b);
      BeginReplyShape(f);
      Some(BeginResponse(f[0].bytes, f[1].bytes, f[2].u64))
  }

  lemma BeginReplyRoundTrip(m: BeginResponse)
    requires AllFit(BeginReplyKinds, BeginReplyFields(m)) && |SerializeBeginReply(m)| <= MaxInputBytes
    ensures DeserializeBeginReply(SerializeBeginReply(m)) == Some(m)
  {
    DecodeRoundTrip(BeginReplyKinds, BeginReplyFields(m));
  }

  lemma BeginReplyCanonical(b: Blob)
    requires DeserializeBeginReply(b).Some?
    ensures var m := DeserializeBeginReply(b).value; SerializeBeginReply(m) == b && AllFit(BeginReplyKinds, BeginReplyFields(m))
  {
    DecodeCanonical(BeginReplyKinds, b);
    var f := Decode(BeginReplyKinds, b).value;
    BeginReplyShape(f);
    assert BeginReplyFields(DeserializeBeginReply(b).value) == f;
  }

  const FinishKinds: seq<Kind> := [StrK, StrK, BlobK, BlobK, Kind.U64, BlobK]

  function FinishFields(m: FinishRequest): seq<Field> {
    [BytesField(m.user), BytesField(m.challengeId), BytesField(m.clientNonce), BytesField(m.serverNonce), U64Field(m.expires), BytesField(m.signature)]
  }

  lemma FinishShape(f: seq<Field>)
    requires AllFit(FinishKinds, f)
    ensures |f| == 6 && f[0].BytesField? && f[1].BytesField? && f[2].BytesField? && f[3].BytesField? && f[4].U64Field? && f[5].BytesField?
  {
    assert Fits(FinishKinds[0], f[0]) && Fits(FinishKinds[1], f[1]) && Fits(FinishKinds[2], f[2]) && Fits(FinishKinds[3], f[3]) && Fits(FinishKinds[4], f[4]) && Fits(FinishKinds[5], f[5]);
  }

  function SerializeFinish(m: FinishRequest): Blob {
    OutAll(FinishFields(m))
  }

  function DeserializeFinish(b: Blob): Option<FinishRequest> {
    match Decode(FinishKinds, b)
    case None => None
    case Some(f) =>
      DecodeCanonical(FinishKinds, b);
      FinishShape(f);
      Some(FinishRequest(f[0].bytes, f[2].bytes, f[3].bytes, f[1].bytes, f[4].u64, f[5].bytes))
  }

  lemma FinishRoundTrip(m: FinishRequest)
    requires AllFit(FinishKinds, FinishFields(m)) && |SerializeFinish(m)| <= MaxInputBytes
    ensures DeserializeFinish(SerializeFinish(m)) == Some(m)
  {
    DecodeRoundTrip(FinishKinds, FinishFields(m));
  }

  lemma FinishCanonical(b: Blob)
    requires DeserializeFinish(b).Some?
    ensures var m := DeserializeFinish(b).value; SerializeFinish(m) == b && AllFit(FinishKinds, FinishFields(m))
  {
    DecodeCanonical(FinishKinds, b);
    var f := Decode(FinishKinds, b).value;
    FinishShape(f);
    assert FinishFields(DeserializeFinish(b).value) == f;
  }

  const FinishReplyKinds: seq<Kind> := [BlobK, Kind.U64]

  function FinishReplyFields(m: FinishResponse): seq<Field> {
    [BytesField(m.token), U64Field(m.expires)]
  }

  lemma FinishReplyShape(f: seq<Field>)
    requires AllFit(FinishReplyKinds, f)
    ensures |f| == 2 && f[0].BytesField? && f[1].U64Field?
  {
    assert Fits(FinishReplyKinds[0], f[0]) && Fits(FinishReplyKinds[1], f[1]);
  }

  function SerializeFinishReply(m: FinishResponse): Blob {
    OutAll(FinishReplyFields(m))
  }

  function DeserializeFinishReply(b: Blob): Option<FinishResponse> {
    match Decode(FinishReplyKinds, b)
    case None => None
    case Some(f) =>
      DecodeCanonical(FinishReplyKinds, b);
      FinishReplyShape(f);
      Some(FinishResponse(f[0].bytes, f[1].u64))
  }

  lemma FinishReplyRoundTrip(m: FinishResponse)
    requires AllFit(FinishReplyKinds, FinishReplyFields(m)) && |SerializeFinishReply(m)| <= MaxInputBytes
    ensures DeserializeFinishReply(SerializeFinishReply(m)) == Some(m)
  {
    DecodeRoundTrip(FinishReplyKinds, FinishReplyFields(m));
  }

  lemma FinishReplyCanonical(b: Blob)
    requires DeserializeFinishReply(b).Some?
    ensures var m := DeserializeFinishReply(b).value; SerializeFinishReply(m) == b && AllFit(FinishReplyKinds, FinishReplyFields(m))
  {
    DecodeCanonical(FinishReplyKinds, b);
    var f := Decode(FinishReplyKinds, b).value;
    FinishReplyShape(f);
    assert FinishReplyFields(DeserializeFinishReply(b).value) == f;
  }

  // ---- strings ----

  function SerializeString(s: Text): Blob {
    OutAll([BytesField(s)])
  }

  function DeserializeString(b: Blob): Option<Text> {
    match Decode([StrK], b)
    case None => None
    case Some(f) =>
      DecodeCanonical([StrK], b);
      assert Fits([StrK][0], f[0]);
      Some(f[0].bytes)
  }

  lemma StringRoundTrip(s: Text)
    requires |s| <= MaxStringBytes
    ensures DeserializeString(SerializeString(s)) == Some(s)
  {
    assert [BytesField(s)][1..] == [];
    assert OutAll([BytesField(s)]) == BytesOut(s) + [];
    DecodeRoundTrip([StrK], [BytesField(s)]);
  }

  lemma StringCanonical(b: Blob)
    requires DeserializeString(b).Some?
    ensures SerializeString(DeserializeString(b).value) == b && |DeserializeString(b).value| <= MaxStringBytes
  {
    DecodeCanonical([StrK], b);
    var f := Decode([StrK], b).value;
    assert Fits([StrK][0], f[0]);
    assert f == [BytesField(f[0].bytes)];
  }
}
