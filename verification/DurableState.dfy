/** What the client writes to its state file and reads back from it. */
module DurableState {
  import opened Wrappers
  import opened Bytes
  import opened Messages
  import opened Fields
  import opened StateFile
  import ClientSpec
  import ClientRuns
  import Symbolic
  import Sessions

  type Blob = seq<byte>

  const MaxPersistedSessions: nat := 256
  const MaxPersistedPeers: nat := 1024
  const MaxLoadedPool: nat := ClientSpec.PoolTarget * 64
  const Magic: Text := Ascii("pqchat_client_state_payload_v2")

  datatype PoolKey = PoolKey(id: nat, publicKey: Blob, privateKey: Blob)
  datatype SignedKey = SignedKey(id: nat, publicKey: Blob, signatureEd25519: Blob, signatureMldsa65: Blob, privateKey: Blob)
  datatype KeyPair = KeyPair(privateKey: Blob, publicKey: Blob)
  datatype PeerIdentity = PeerIdentity(sign: Blob, mldsa: Blob, dh: Blob, verified: bool)
  datatype SavedSession = SavedSession(
    sessionId: Text, peer: Text, initiator: bool, root: Blob, sendChain: Blob, recvChain: Blob,
    sendCounter: nat, recvCounter: nat, previousSendChainLength: nat, local: KeyPair, remote: Blob)

  datatype Saved = Saved(
    user: Text, sign: KeyPair, mldsa: KeyPair, dh: KeyPair, signedEc: SignedKey, signedPq: SignedKey,
    ecPool: seq<PoolKey>, pqPool: seq<PoolKey>, dirty: bool, pendingAck: Option<nat>,
    peers: map<Text, PeerIdentity>, sessions: map<Text, SavedSession>,
    seenSessions: seq<Text>, seenTranscripts: seq<Text>)

  // ---- the format ----

  const B: Kind := Kind.Bytes(AnyLength)
  const HeadKinds: seq<Kind> := [B, B, B, B, B, B, B, B, B]
  const SignedKinds: seq<Kind> := [Kind.U32, B, B, B, B]
  const PoolKinds: seq<Kind> := [Kind.U32, B, B]
  const FlagKinds: seq<Kind> := [Kind.U8, OptU64]
  const PeerKinds: seq<Kind> := [B, B, B, B, Kind.U8]
  const SessionKinds: seq<Kind> := [B, B, B, Kind.U8, B, B, B, Kind.U64, Kind.U64, Kind.U64, B, B, B]
  const NameKinds: seq<Kind> := [B]

  const Shapes: seq<Shape> := [
    FixedShape(HeadKinds), FixedShape(SignedKinds), FixedShape(SignedKinds),
    RepeatedShape(PoolKinds, MaxLoadedPool), RepeatedShape(PoolKinds, MaxLoadedPool),
    FixedShape(FlagKinds),
    RepeatedShape(PeerKinds, MaxPersistedPeers), RepeatedShape(SessionKinds, MaxPersistedSessions),
    RepeatedShape(NameKinds, ClientSpec.MaxReplayGuards), RepeatedShape(NameKinds, ClientSpec.MaxReplayGuards)]

  function Flag(b: bool): Field {
    U8Field(if b then 1 else 0)
  }

  function HeadFields(s: Saved): seq<Field> {
    [BytesField(Magic), BytesField(s.user), BytesField(ProtocolVersion),
     BytesField(s.sign.privateKey), BytesField(s.sign.publicKey), BytesField(s.mldsa.privateKey), BytesField(s.mldsa.publicKey),
     BytesField(s.dh.privateKey), BytesField(s.dh.publicKey)]
  }

  function SignedFields(k: SignedKey): seq<Field> {
    [U32Field(k.id), BytesField(k.publicKey), BytesField(k.signatureEd25519), BytesField(k.signatureMldsa65), BytesField(k.privateKey)]
  }

  function PoolFields(k: PoolKey): seq<Field> {
    [U32Field(k.id), BytesField(k.publicKey), BytesField(k.privateKey)]
  }

  function PeerFields(name: Text, p: PeerIdentity): seq<Field> {
    [BytesField(name), BytesField(p.sign), BytesField(p.mldsa), BytesField(p.dh), Flag(p.verified)]
  }

  function SessionFields(name: Text, s: SavedSession): seq<Field> {
    [BytesField(name), BytesField(s.sessionId), BytesField(s.peer), Flag(s.initiator),
     BytesField(s.root), BytesField(s.sendChain), BytesField(s.recvChain),
     U64Field(s.sendCounter), U64Field(s.recvCounter), U64Field(s.previousSendChainLength),
     BytesField(s.local.privateKey), BytesField(s.local.publicKey), BytesField(s.remote)]
  }

  function Each<T>(items: seq<T>, f: T -> seq<Field>): seq<seq<Field>> {
    seq(|items|, i requires 0 <= i < |items| => f(items[i]))
  }

  function NameFields(name: Text): seq<Field> {
    [BytesField(name)]
  }

  /** A map is written in whatever order it is iterated over. */
  ghost predicate Lists<V>(order: seq<Text>, m: map<Text, V>) {
    && (forall k :: k in order <==> k in m) && |order| == |m|
  }

  function Listed<V>(order: seq<Text>, m: map<Text, V>): seq<(Text, V)>
    requires forall k :: k in order ==> k in m
  {
    seq(|order|, i requires 0 <= i < |order| => (order[i], m[order[i]]))
  }

  function SectionsOf(s: Saved, peers: seq<(Text, PeerIdentity)>, sessions: seq<(Text, SavedSession)>): seq<Section> {
    [Fixed(HeadFields(s)), Fixed(SignedFields(s.signedEc)), Fixed(SignedFields(s.signedPq)),
     Repeated(Each(s.ecPool, PoolFields)), Repeated(Each(s.pqPool, PoolFields)),
     Fixed([Flag(s.dirty), OptU64Field(s.pendingAck)]),
     Repeated(Each(peers, (e: (Text, PeerIdentity)) => PeerFields(e.0, e.1))),
     Repeated(Each(sessions, (e: (Text, SavedSession)) => SessionFields(e.0, e.1))),
     Repeated(Each(s.seenSessions, NameFields)), Repeated(Each(s.seenTranscripts, NameFields))]
  }

  /** The payload, or an error when there are more peers or sessions than the loader takes. */
  function SavePayload(s: Saved, peerOrder: seq<Text>, sessionOrder: seq<Text>): Option<Blob>
    requires Lists(peerOrder, s.peers) && Lists(sessionOrder, s.sessions)
  {
    if |s.peers| > MaxPersistedPeers || |s.sessions| > MaxPersistedSessions then None
    else Some(SectionsOut(SectionsOf(s, Listed(peerOrder, s.peers), Listed(sessionOrder, s.sessions))))
  }

  // ---- reading ----

  lemma {:induction false} RecordsCanonical(kinds: seq<Kind>, count: nat, b: Blob)
    requires InRecords(kinds, count, b).Some?
    ensures RecordsFit(kinds, InRecords(kinds, count, b).value.0) && |InRecords(kinds, count, b).value.0| == count
  {
    if count > 0 {
      Canonical(kinds, b);
      var (fields, rest) := InAll(kinds, b).value;
      RecordsCanonical(kinds, count - 1, rest);
      var tail := InRecords(kinds, count - 1, rest).value.0;
      assert forall i :: 0 < i <= |tail| ==> ([fields] + tail)[i] == tail[i-1];
    }
  }

  lemma {:induction false} SectionsReadFit(shapes: seq<Shape>, b: Blob)
    requires InSections(shapes, b).Some?
    ensures SectionsFit(shapes, InSections(shapes, b).value.0)
    decreases |shapes|
  {
    if shapes != [] {
      var (s, rest) := InSection(shapes[0], b).value;
      if shapes[0].FixedShape? {
        Canonical(shapes[0].kinds, b);
      } else {
        var (count, b1) := InU32(b).value;
        RecordsCanonical(shapes[0].kinds, count, b1);
      }
      SectionsReadFit(shapes[1..], rest);
      var tail := InSections(shapes[1..], rest).value.0;
      assert forall i :: 0 < i <= |tail| ==> ([s] + tail)[i] == tail[i-1] && shapes[i] == shapes[1..][i-1];
    }
  }

  lemma Shaped(kinds: seq<Kind>, f: seq<Field>, i: nat)
    requires AllFit(kinds, f) && i < |kinds|
    ensures i < |f| && Fits(kinds[i], f[i])
  {
  }

  function PoolKeyOf(f: seq<Field>): PoolKey
    requires AllFit(PoolKinds, f)
  {
    Shaped(PoolKinds, f, 0);
    Shaped(PoolKinds, f, 1);
    Shaped(PoolKinds, f, 2);
    PoolKey(f[0].u32, f[1].bytes, f[2].bytes)
  }

  function SignedKeyOf(f: seq<Field>): SignedKey
    requires AllFit(SignedKinds, f)
  {
    Shaped(SignedKinds, f, 0);
    Shaped(SignedKinds, f, 1);
    Shaped(SignedKinds, f, 2);
    Shaped(SignedKinds, f, 3);
    Shaped(SignedKinds, f, 4);
    SignedKey(f[0].u32, f[1].bytes, f[2].bytes, f[3].bytes, f[4].bytes)
  }

  function PeerOf(f: seq<Field>): (Text, PeerIdentity)
    requires AllFit(PeerKinds, f)
  {
    Shaped(PeerKinds, f, 0);
    Shaped(PeerKinds, f, 1);
    Shaped(PeerKinds, f, 2);
    Shaped(PeerKinds, f, 3);
    Shaped(PeerKinds, f, 4);
    (f[0].bytes, PeerIdentity(f[1].bytes, f[2].bytes, f[3].bytes, f[4].u8 != 0))
  }

  lemma SessionShape(f: seq<Field>)
    requires AllFit(SessionKinds, f)
    ensures |f| == 13 && f[0].BytesField? && f[1].BytesField? && f[2].BytesField? && f[3].U8Field?
    ensures f[4].BytesField? && f[5].BytesField? && f[6].BytesField? && f[7].U64Field? && f[8].U64Field? && f[9].U64Field?
    ensures f[10].BytesField? && f[11].BytesField? && f[12].BytesField?
  {
    var k := SessionKinds;
    assert Fits(k[0], f[0]) && Fits(k[1], f[1]) && Fits(k[2], f[2]) && Fits(k[3], f[3]) && Fits(k[4], f[4]);
    assert Fits(k[5], f[5]) && Fits(k[6], f[6]) && Fits(k[7], f[7]) && Fits(k[8], f[8]) && Fits(k[9], f[9]);
    assert Fits(k[10], f[10]) && Fits(k[11], f[11]) && Fits(k[12], f[12]);
  }

  function SessionOf(f: seq<Field>): (Text, SavedSession)
    requires AllFit(SessionKinds, f)
  {
    SessionShape(f);
    (f[0].bytes, SavedSession(f[1].bytes, f[2].bytes, f[3].u8 != 0, f[4].bytes, f[5].bytes, f[6].bytes,
                              f[7].u64, f[8].u64, f[9].u64, KeyPair(f[10].bytes, f[11].bytes), f[12].bytes))
  }

  function NameOf(f: seq<Field>): Text
    requires AllFit(NameKinds, f)
  {
    Shaped(NameKinds, f, 0);
    f[0].bytes
  }

  /** Entries put into a map one by one. */
  function MapOf<V>(entries: seq<(Text, V)>): map<Text, V> {
    if entries == [] then map[] else
    var last := entries[|entries|-1];
    MapOf(entries[..|entries|-1])[last.0 := last.1]
  }

  function PoolOf(records: seq<seq<Field>>): seq<PoolKey>
    requires RecordsFit(PoolKinds, records)
  {
    seq(|records|, i requires 0 <= i < |records| => PoolKeyOf(records[i]))
  }

  function PeersOf(records: seq<seq<Field>>): seq<(Text, PeerIdentity)>
    requires RecordsFit(PeerKinds, records)
  {
    seq(|records|, i requires 0 <= i < |records| => PeerOf(records[i]))
  }

  function SessionsOf(records: seq<seq<Field>>): seq<(Text, SavedSession)>
    requires RecordsFit(SessionKinds, records)
  {
    seq(|records|, i requires 0 <= i < |records| => SessionOf(records[i]))
  }

  function NamesOf(records: seq<seq<Field>>): seq<Text>
    requires RecordsFit(NameKinds, records)
  {
    seq(|records|, i requires 0 <= i < |records| => NameOf(records[i]))
  }

  lemma ShapesAre(sections: seq<Section>)
    requires SectionsFit(Shapes, sections)
    ensures |sections| == 10
    ensures SectionFits(FixedShape(HeadKinds), sections[0]) && SectionFits(FixedShape(SignedKinds), sections[1])
    ensures SectionFits(FixedShape(SignedKinds), sections[2]) && SectionFits(RepeatedShape(PoolKinds, MaxLoadedPool), sections[3])
    ensures SectionFits(RepeatedShape(PoolKinds, MaxLoadedPool), sections[4]) && SectionFits(FixedShape(FlagKinds), sections[5])
    ensures SectionFits(RepeatedShape(PeerKinds, MaxPersistedPeers), sections[6])
    ensures SectionFits(RepeatedShape(SessionKinds, MaxPersistedSessions), sections[7])
    ensures SectionFits(RepeatedShape(NameKinds, ClientSpec.MaxReplayGuards), sections[8])
    ensures SectionFits(RepeatedShape(NameKinds, ClientSpec.MaxReplayGuards), sections[9])
  {
    assert SectionFits(Shapes[0], sections[0]) && SectionFits(Shapes[1], sections[1]) && SectionFits(Shapes[2], sections[2]);
    assert SectionFits(Shapes[3], sections[3]) && SectionFits(Shapes[4], sections[4]) && SectionFits(Shapes[5], sections[5]);
    assert SectionFits(Shapes[6], sections[6]) && SectionFits(Shapes[7], sections[7]) && SectionFits(Shapes[8], sections[8]);
    assert SectionFits(Shapes[9], sections[9]);
  }

  lemma HeadShape(f: seq<Field>)
    requires AllFit(HeadKinds, f)
    ensures |f| == 9 && forall i :: 0 <= i < 9 ==> f[i].BytesField?
  {
    forall i | 0 <= i < 9 ensures f[i].BytesField? {
      assert Fits(HeadKinds[i], f[i]);
    }
  }

  /** `restores` says which exported private keys load again, given the public key. */
  datatype Restores = Restores(mldsa: (Blob, Blob) -> bool, mlkem: (Blob, Blob) -> bool)

  predicate AllRestore(s: Saved, r: Restores) {
    && r.mldsa(s.mldsa.privateKey, s.mldsa.publicKey) && r.mlkem(s.signedPq.privateKey, s.signedPq.publicKey)
    && forall i :: 0 <= i < |s.pqPool| ==> r.mlkem(s.pqPool[i].privateKey, s.pqPool[i].publicKey)
  }

  function SavedFrom(x: seq<Section>): Saved
    requires SectionsFit(Shapes, x)
  {
    ShapesAre(x);
    var h := x[0].fields;
    HeadShape(h);
    Shaped(FlagKinds, x[5].fields, 0);
    Shaped(FlagKinds, x[5].fields, 1);
    Saved(h[1].bytes, KeyPair(h[3].bytes, h[4].bytes), KeyPair(h[5].bytes, h[6].bytes), KeyPair(h[7].bytes, h[8].bytes),
          SignedKeyOf(x[1].fields), SignedKeyOf(x[2].fields), PoolOf(x[3].records), PoolOf(x[4].records),
          x[5].fields[0].u8 != 0, x[5].fields[1].optU64,
          MapOf(PeersOf(x[6].records)), MapOf(SessionsOf(x[7].records)), NamesOf(x[8].records), NamesOf(x[9].records))
  }

  predicate HeadAccepted(h: seq<Field>, user: Text)
    requires AllFit(HeadKinds, h)
  {
    HeadShape(h);
    h[0].bytes == Magic && h[1].bytes == user && h[2].bytes == ProtocolVersion
  }

  function LoadPayload(b: Blob, user: Text, r: Restores): Option<Saved> {
    match InSections(Shapes, b)
    case None => None
    case Some((x, rest)) =>
      SectionsReadFit(Shapes, b);
      ShapesAre(x);
      var s := SavedFrom(x);
      if rest == [] && HeadAccepted(x[0].fields, user) && AllRestore(s, r) then Some(s) else None
  }

  // ---- round trip ----

  /** Integers within their types and every count within the loader's limit. */
  ghost predicate WithinLimits(s: Saved) {
    && s.signedEc.id < TWO32 && s.signedPq.id < TWO32 && (s.pendingAck.Some? ==> s.pendingAck.value < TWO64)
    && |s.ecPool| <= MaxLoadedPool && |s.pqPool| <= MaxLoadedPool
    && (forall i :: 0 <= i < |s.ecPool| ==> s.ecPool[i].id < TWO32)
    && (forall i :: 0 <= i < |s.pqPool| ==> s.pqPool[i].id < TWO32)
    && (forall p :: p in s.sessions ==> CountersFit(s.sessions[p]))
    && |s.seenSessions| <= ClientSpec.MaxReplayGuards && |s.seenTranscripts| <= ClientSpec.MaxReplayGuards
  }

  predicate CountersFit(s: SavedSession) {
    s.sendCounter < TWO64 && s.recvCounter < TWO64 && s.previousSendChainLength < TWO64
  }

  lemma {:induction false} MapRebuilt<V>(order: seq<Text>, m: map<Text, V>)
    requires forall k :: k in order ==> k in m
    ensures MapOf(Listed(order, m)) == map k | k in order :: m[k]
  {
    if order != [] {
      var n := |order| - 1;
      var entries := Listed(order, m);
      assert entries[..n] == Listed(order[..n], m);
      MapRebuilt(order[..n], m);
      assert order == order[..n] + [order[n]];
    }
  }

  lemma FixedTyped(s: Saved)
    requires WithinLimits(s)
    ensures AllTyped(HeadKinds, HeadFields(s)) && AllTyped(SignedKinds, SignedFields(s.signedEc))
    ensures AllTyped(SignedKinds, SignedFields(s.signedPq)) && AllTyped(FlagKinds, [Flag(s.dirty), OptU64Field(s.pendingAck)])
  {
  }

  lemma SessionTyped(name: Text, s: SavedSession)
    requires CountersFit(s)
    ensures AllTyped(SessionKinds, SessionFields(name, s))
  {
  }

  lemma PoolTyped(pool: seq<PoolKey>)
    requires |pool| <= MaxLoadedPool && forall i :: 0 <= i < |pool| ==> pool[i].id < TWO32
    ensures SectionTyped(RepeatedShape(PoolKinds, MaxLoadedPool), Repeated(Each(pool, PoolFields)))
  {
    forall i | 0 <= i < |pool| ensures AllTyped(PoolKinds, Each(pool, PoolFields)[i]) {
      assert Each(pool, PoolFields)[i] == PoolFields(pool[i]);
    }
  }

  lemma NamesTyped(names: seq<Text>)
    requires |names| <= ClientSpec.MaxReplayGuards
    ensures SectionTyped(RepeatedShape(NameKinds, ClientSpec.MaxReplayGuards), Repeated(Each(names, NameFields)))
  {
    forall i | 0 <= i < |names| ensures AllTyped(NameKinds, Each(names, NameFields)[i]) {
      assert Each(names, NameFields)[i] == NameFields(names[i]);
    }
  }

  lemma SectionsAreTyped(s: Saved, peers: seq<(Text, PeerIdentity)>, sessions: seq<(Text, SavedSession)>)
    requires WithinLimits(s) && |peers| <= MaxPersistedPeers && |sessions| <= MaxPersistedSessions
    requires forall i :: 0 <= i < |sessions| ==> CountersFit(sessions[i].1)
    ensures SectionsTyped(Shapes, SectionsOf(s, peers, sessions))
  {
    FixedTyped(s);
    PoolTyped(s.ecPool);
    PoolTyped(s.pqPool);
    NamesTyped(s.seenSessions);
    NamesTyped(s.seenTranscripts);
    forall i | 0 <= i < |sessions| ensures AllTyped(SessionKinds, SessionFields(sessions[i].0, sessions[i].1)) {
      SessionTyped(sessions[i].0, sessions[i].1);
    }
    var x := SectionsOf(s, peers, sessions);
    assert SectionTyped(Shapes[0], x[0]) && SectionTyped(Shapes[1], x[1]) && SectionTyped(Shapes[2], x[2]);
    assert SectionTyped(Shapes[3], x[3]) && SectionTyped(Shapes[4], x[4]) && SectionTyped(Shapes[5], x[5]);
    assert SectionTyped(Shapes[6], x[6]);
    assert SectionTyped(Shapes[7], x[7]);
    assert SectionTyped(Shapes[8], x[8]) && SectionTyped(Shapes[9], x[9]);
  }

  lemma ShapesReadable()
    ensures forall i :: 0 <= i < |Shapes| ==> Readable(Shapes[i])
  {
    assert Readable(Shapes[0]) && Readable(Shapes[1]) && Readable(Shapes[2]) && Readable(Shapes[3]) && Readable(Shapes[4]);
    assert Readable(Shapes[5]) && Readable(Shapes[6]) && Readable(Shapes[7]) && Readable(Shapes[8]) && Readable(Shapes[9]);
  }

  lemma PoolRebuilt(pool: seq<PoolKey>)
    requires RecordsFit(PoolKinds, Each(pool, PoolFields))
    ensures PoolOf(Each(pool, PoolFields)) == pool
  {
    forall i | 0 <= i < |pool| ensures PoolOf(Each(pool, PoolFields))[i] == pool[i] {
      assert Each(pool, PoolFields)[i] == PoolFields(pool[i]);
    }
  }

  lemma NamesRebuilt(names: seq<Text>)
    requires RecordsFit(NameKinds, Each(names, NameFields))
    ensures NamesOf(Each(names, NameFields)) == names
  {
    forall i | 0 <= i < |names| ensures NamesOf(Each(names, NameFields))[i] == names[i] {
      assert Each(names, NameFields)[i] == NameFields(names[i]);
    }
  }

  lemma SessionRebuilt(name: Text, s: SavedSession, f: seq<Field>)
    requires f == SessionFields(name, s) && AllFit(SessionKinds, f)
    ensures SessionOf(f) == (name, s)
  {
  }

  lemma EntriesRebuilt(peers: seq<(Text, PeerIdentity)>, sessions: seq<(Text, SavedSession)>, p: seq<seq<Field>>, q: seq<seq<Field>>)
    requires |p| == |peers| && (forall i :: 0 <= i < |p| ==> p[i] == PeerFields(peers[i].0, peers[i].1)) && RecordsFit(PeerKinds, p)
    requires |q| == |sessions| && (forall i :: 0 <= i < |q| ==> q[i] == SessionFields(sessions[i].0, sessions[i].1)) && RecordsFit(SessionKinds, q)
    ensures PeersOf(p) == peers && SessionsOf(q) == sessions
  {
    forall i | 0 <= i < |q| ensures SessionOf(q[i]) == sessions[i] {
      SessionRebuilt(sessions[i].0, sessions[i].1, q[i]);
    }
  }

  lemma SavedRebuilt(s: Saved, peers: seq<(Text, PeerIdentity)>, sessions: seq<(Text, SavedSession)>)
    requires SectionsFit(Shapes, SectionsOf(s, peers, sessions))
    requires MapOf(peers) == s.peers && MapOf(sessions) == s.sessions
    ensures SavedFrom(SectionsOf(s, peers, sessions)) == s
  {
    var x := SectionsOf(s, peers, sessions);
    ShapesAre(x);
    PoolRebuilt(s.ecPool);
    PoolRebuilt(s.pqPool);
    NamesRebuilt(s.seenSessions);
    NamesRebuilt(s.seenTranscripts);
    EntriesRebuilt(peers, sessions, x[6].records, x[7].records);
  }

  lemma ListedRebuilds<V>(order: seq<Text>, m: map<Text, V>)
    requires Lists(order, m)
    ensures MapOf(Listed(order, m)) == m
  {
    MapRebuilt(order, m);
  }

  lemma SectionsLoad(x: seq<Section>, s: Saved, r: Restores)
    requires SectionsFit(Shapes, x) && SavedFrom(x) == s && x[0] == Fixed(HeadFields(s)) && AllRestore(s, r)
    ensures LoadPayload(SectionsOut(x), s.user, r) == Some(s)
  {
    ShapesReadable();
    SectionsRoundTrip(Shapes, x, []);
    assert SectionsOut(x) + [] == SectionsOut(x);
    ShapesAre(x);
    var h := x[0].fields;
    assert h[0] == BytesField(Magic) && h[1] == BytesField(s.user) && h[2] == BytesField(ProtocolVersion);
  }

  /** Loading what was saved. A payload that fits the file and whose counts are within limits
      reads back as the very state it was written from, whatever the order of the maps. */
  lemma SavedLoads(s: Saved, peerOrder: seq<Text>, sessionOrder: seq<Text>, r: Restores)
    requires Lists(peerOrder, s.peers) && Lists(sessionOrder, s.sessions)
    requires WithinLimits(s) && AllRestore(s, r)
    requires SavePayload(s, peerOrder, sessionOrder).Some? && |SavePayload(s, peerOrder, sessionOrder).value| <= MaxStateFileBytes
    ensures LoadPayload(SavePayload(s, peerOrder, sessionOrder).value, s.user, r) == Some(s)
  {
    var peers, sessions := Listed(peerOrder, s.peers), Listed(sessionOrder, s.sessions);
    var x := SectionsOf(s, peers, sessions);
    SectionsAreTyped(s, peers, sessions);
    SectionsSmall(Shapes, x);
    ListedRebuilds(peerOrder, s.peers);
    ListedRebuilds(sessionOrder, s.sessions);
    SavedRebuilt(s, peers, sessions);
    SectionsLoad(x, s, r);
  }

  // ---- the limits follow from what the client keeps ----

  /** What the types of the source's variables say. */
  ghost predicate InTypes(s: Saved) {
    && s.signedEc.id < TWO32 && s.signedPq.id < TWO32 && (s.pendingAck.Some? ==> s.pendingAck.value < TWO64)
    && forall p :: p in s.sessions ==> CountersFit(s.sessions[p])
  }

  /** The bytes of private keys, public keys, verification keys, session keys and hashes. */
  datatype TermBytes = TermBytes(
    privateKey: nat -> Blob, publicKey: Symbolic.PublicKey -> Blob, verifyKey: nat -> Blob, sessionKey: Symbolic.Key -> Blob,
    digest: Symbolic.Transcript -> Text)

  /** Different keys and transcripts have different bytes. */
  ghost predicate OneToOne(x: TermBytes) {
    && (forall a, b :: x.privateKey(a) == x.privateKey(b) ==> a == b)
    && (forall a, b :: x.publicKey(a) == x.publicKey(b) ==> a == b)
    && (forall a, b :: x.verifyKey(a) == x.verifyKey(b) ==> a == b)
    && (forall a, b :: x.sessionKey(a) == x.sessionKey(b) ==> a == b)
    && (forall a, b :: x.digest(a) == x.digest(b) ==> a == b)
  }

  function PoolBytes(pool: seq<ClientSpec.OneTimeKey>, x: TermBytes): seq<PoolKey> {
    seq(|pool|, i requires 0 <= i < |pool| =>
          PoolKey(pool[i].id, x.publicKey(Symbolic.PublicKey(pool[i].key)), x.privateKey(pool[i].key)))
  }

  function PinBytes(p: ClientSpec.Pin, x: TermBytes): PeerIdentity {
    PeerIdentity(x.verifyKey(p.sign), x.verifyKey(p.mldsa), x.publicKey(p.dh), p.verified)
  }

  function SessionBytes(s: Sessions.Session, x: TermBytes): SavedSession {
    SavedSession(s.sessionId, s.peer, s.isInitiator, x.sessionKey(s.root), x.sessionKey(s.sendChain), x.sessionKey(s.recvChain),
                 s.sendCounter, s.recvCounter, s.previousSendLength,
                 KeyPair(x.privateKey(s.local), x.publicKey(Symbolic.PublicKey(s.local))), x.publicKey(s.remote))
  }

  function PinsBytes(m: map<Text, ClientSpec.Pin>, x: TermBytes): map<Text, PeerIdentity> {
    map p | p in m :: PinBytes(m[p], x)
  }

  function SessionsBytes(m: map<Text, Sessions.Session>, x: TermBytes): map<Text, SavedSession> {
    map p | p in m :: SessionBytes(m[p], x)
  }

  function Digests(ts: seq<Symbolic.Transcript>, x: TermBytes): seq<Text> {
    seq(|ts|, i requires 0 <= i < |ts| => x.digest(ts[i]))
  }

  /** The signatures over the two signed prekeys, which the symbolic client does not carry. */
  datatype PrekeySignatures = PrekeySignatures(ecEd25519: Blob, ecMldsa65: Blob, pqEd25519: Blob, pqMldsa65: Blob)

  /** All of a client and its pending acknowledgement, in bytes. */
  function SavedOf(c: ClientSpec.ClientState, ack: Option<nat>, g: PrekeySignatures, x: TermBytes): Saved {
    var dh, ec, pq := Symbolic.PublicKey(c.me.dh), Symbolic.PublicKey(c.me.signedEc), Symbolic.PublicKey(c.me.signedPq);
    Saved(c.me.user, KeyPair(x.privateKey(c.me.sign), x.verifyKey(c.me.sign)), KeyPair(x.privateKey(c.me.mldsa), x.verifyKey(c.me.mldsa)),
          KeyPair(x.privateKey(c.me.dh), x.publicKey(dh)),
          SignedKey(c.me.signedEcId, x.publicKey(ec), g.ecEd25519, g.ecMldsa65, x.privateKey(c.me.signedEc)),
          SignedKey(c.me.signedPqId, x.publicKey(pq), g.pqEd25519, g.pqMldsa65, x.privateKey(c.me.signedPq)),
          PoolBytes(c.ecPool, x), PoolBytes(c.pqPool, x), c.dirty, ack,
          PinsBytes(c.pins, x), SessionsBytes(c.sessions, x), c.guards.sessionOrder, Digests(c.guards.transcriptOrder, x))
  }

  lemma PoolTells(a: seq<ClientSpec.OneTimeKey>, b: seq<ClientSpec.OneTimeKey>, x: TermBytes)
    requires OneToOne(x) && PoolBytes(a, x) == PoolBytes(b, x)
    ensures a == b
  {
    assert |a| == |PoolBytes(a, x)| == |b|;
    forall i | 0 <= i < |a| ensures a[i] == b[i] {
      assert PoolBytes(a, x)[i] == PoolBytes(b, x)[i];
    }
  }

  lemma SessionTells(a: Sessions.Session, b: Sessions.Session, x: TermBytes)
    requires OneToOne(x) && SessionBytes(a, x) == SessionBytes(b, x)
    ensures a == b
  {
    var s, t := SessionBytes(a, x), SessionBytes(b, x);
    assert s.root == t.root && s.sendChain == t.sendChain && s.recvChain == t.recvChain;
    assert s.local.privateKey == t.local.privateKey && s.remote == t.remote;
  }

  lemma PinTells(a: ClientSpec.Pin, b: ClientSpec.Pin, x: TermBytes)
    requires OneToOne(x) && PinBytes(a, x) == PinBytes(b, x)
    ensures a == b
  {
    var s, t := PinBytes(a, x), PinBytes(b, x);
    assert s.sign == t.sign && s.mldsa == t.mldsa && s.dh == t.dh;
  }

  lemma PinsTell(a: map<Text, ClientSpec.Pin>, b: map<Text, ClientSpec.Pin>, x: TermBytes)
    requires OneToOne(x) && PinsBytes(a, x) == PinsBytes(b, x)
    ensures a == b
  {
    assert a.Keys == PinsBytes(a, x).Keys == PinsBytes(b, x).Keys == b.Keys;
    forall p | p in a ensures a[p] == b[p] {
      assert PinsBytes(a, x)[p] == PinsBytes(b, x)[p];
      PinTells(a[p], b[p], x);
    }
  }

  lemma SessionsSame(a: map<Text, Sessions.Session>, b: map<Text, Sessions.Session>, x: TermBytes)
    requires SessionsBytes(a, x) == SessionsBytes(b, x)
    ensures a.Keys == b.Keys && forall p :: p in a ==> SessionBytes(a[p], x) == SessionBytes(b[p], x)
  {
    assert a.Keys == SessionsBytes(a, x).Keys == SessionsBytes(b, x).Keys == b.Keys;
    forall p | p in a ensures SessionBytes(a[p], x) == SessionBytes(b[p], x) {
      assert SessionsBytes(a, x)[p] == SessionsBytes(b, x)[p];
    }
  }

  lemma SessionsTell(a: map<Text, Sessions.Session>, b: map<Text, Sessions.Session>, x: TermBytes)
    requires OneToOne(x) && SessionsBytes(a, x) == SessionsBytes(b, x)
    ensures a == b
  {
    SessionsSame(a, b, x);
    forall p | p in a ensures a[p] == b[p] {
      SessionTells(a[p], b[p], x);
    }
  }

  lemma DigestsTell(a: seq<Symbolic.Transcript>, b: seq<Symbolic.Transcript>, x: TermBytes)
    requires OneToOne(x) && Digests(a, x) == Digests(b, x)
    ensures a == b
  {
    assert |a| == |Digests(a, x)| == |Digests(b, x)| == |b|;
    forall i | 0 <= i < |a| ensures a[i] == b[i] {
      assert Digests(a, x)[i] == Digests(b, x)[i];
    }
  }

  lemma IdentityTells(a: ClientSpec.ClientState, ackA: Option<nat>, gA: PrekeySignatures,
                      b: ClientSpec.ClientState, ackB: Option<nat>, gB: PrekeySignatures, x: TermBytes)
    requires OneToOne(x) && SavedOf(a, ackA, gA, x) == SavedOf(b, ackB, gB, x)
    ensures a.me == b.me && gA == gB && a.dirty == b.dirty && ackA == ackB
  {
    var s, t := SavedOf(a, ackA, gA, x), SavedOf(b, ackB, gB, x);
    assert s.sign.privateKey == t.sign.privateKey && s.mldsa.privateKey == t.mldsa.privateKey && s.dh.privateKey == t.dh.privateKey;
    assert s.signedEc == t.signedEc && s.signedPq == t.signedPq && s.user == t.user;
  }

  /** The saved form belongs to one client only. */
  lemma SavedTells(a: ClientSpec.ClientState, ackA: Option<nat>, gA: PrekeySignatures,
                   b: ClientSpec.ClientState, ackB: Option<nat>, gB: PrekeySignatures, x: TermBytes)
    requires OneToOne(x) && ClientSpec.GuardsValid(a.guards) && ClientSpec.GuardsValid(b.guards)
    requires SavedOf(a, ackA, gA, x) == SavedOf(b, ackB, gB, x)
    ensures a == b && ackA == ackB && gA == gB
  {
    IdentityTells(a, ackA, gA, b, ackB, gB, x);
    PoolTells(a.ecPool, b.ecPool, x);
    PoolTells(a.pqPool, b.pqPool, x);
    PinsTell(a.pins, b.pins, x);
    SessionsTell(a.sessions, b.sessions, x);
    DigestsTell(a.guards.transcriptOrder, b.guards.transcriptOrder, x);
  }

  /** Durable state. In every run of a client, whatever it saves loads again as the same keys, pools,
      pins, sessions, pending acknowledgement and replay guards, as long as it fits the file: the
      loader's limits on pools and guards are what the client keeps to, and the loaded state is the
      saved form of no other client. The guard sets, which are not written, are the elements of the
      orders. */
  lemma DurableRoundTrip(c0: ClientSpec.ClientState, clock: nat, events: seq<ClientRuns.Event>, ack: Option<nat>,
                         g: PrekeySignatures, x: TermBytes, peerOrder: seq<Text>, sessionOrder: seq<Text>, r: Restores)
    requires ClientSpec.Valid(c0) && ClientRuns.PossibleRun(c0, clock, events)
    requires var s := SavedOf(ClientRuns.Run(c0, clock, events).0, ack, g, x);
             && InTypes(s) && AllRestore(s, r) && Lists(peerOrder, s.peers) && Lists(sessionOrder, s.sessions)
             && SavePayload(s, peerOrder, sessionOrder).Some? && |SavePayload(s, peerOrder, sessionOrder).value| <= MaxStateFileBytes
    ensures var c := ClientRuns.Run(c0, clock, events).0;
            var s := SavedOf(c, ack, g, x);
            && LoadPayload(SavePayload(s, peerOrder, sessionOrder).value, c.me.user, r) == Some(s)
            && ClientSpec.Elements(s.seenSessions) == c.guards.sessions
  {
    ClientRuns.RunKeepsValid(c0, clock, events);
    var s := SavedOf(ClientRuns.Run(c0, clock, events).0, ack, g, x);
    SavedLoads(s, peerOrder, sessionOrder, r);
  }

  /** A client that loads what another run saved is that run's client. */
  lemma LoadedIsSaved(c0: ClientSpec.ClientState, clock: nat, events: seq<ClientRuns.Event>, ack: Option<nat>,
                      g: PrekeySignatures, x: TermBytes, peerOrder: seq<Text>, sessionOrder: seq<Text>, r: Restores,
                      c: ClientSpec.ClientState, ack': Option<nat>, g': PrekeySignatures)
    requires ClientSpec.Valid(c0) && ClientRuns.PossibleRun(c0, clock, events) && OneToOne(x) && ClientSpec.GuardsValid(c.guards)
    requires var s := SavedOf(ClientRuns.Run(c0, clock, events).0, ack, g, x);
             && InTypes(s) && AllRestore(s, r) && Lists(peerOrder, s.peers) && Lists(sessionOrder, s.sessions)
             && SavePayload(s, peerOrder, sessionOrder).Some? && |SavePayload(s, peerOrder, sessionOrder).value| <= MaxStateFileBytes
             && LoadPayload(SavePayload(s, peerOrder, sessionOrder).value, s.user, r) == Some(SavedOf(c, ack', g', x))
    ensures c == ClientRuns.Run(c0, clock, events).0 && ack' == ack
  {
    DurableRoundTrip(c0, clock, events, ack, g, x, peerOrder, sessionOrder, r);
    ClientRuns.RunKeepsValid(c0, clock, events);
    SavedTells(c, ack', g', ClientRuns.Run(c0, clock, events).0, ack, g, x);
  }
}
