/** The client as a value: what each of its operations does to identity pins, one-time prekey
    pools, replay guards and sessions. The class in Client.dfy is proved against this. */
module ClientSpec {
  import opened Wrappers
  import opened Bytes
  import opened Messages
  import opened Symbolic
  import opened Sessions

  const PoolTarget: nat := 16
  const MaxReplayGuards: nat := 4096

  /** One-time prekey, EC or PQ: its public id and the number of its key pair. */
  datatype OneTimeKey = OneTimeKey(id: nat, key: nat)

  datatype Pin = Pin(sign: nat, mldsa: nat, dh: PublicKey, verified: bool)

  /** Sets for the lookup, sequences for the order of eviction. */
  datatype Guards = Guards(
    sessions: set<Text>,
    transcripts: set<Transcript>,
    sessionOrder: seq<Text>,
    transcriptOrder: seq<Transcript>)

  datatype Identity = Identity(
    user: Text, sign: nat, mldsa: nat, dh: nat, signedEcId: nat, signedEc: nat, signedPqId: nat, signedPq: nat)

  datatype ClientState = ClientState(
    me: Identity,
    ecPool: seq<OneTimeKey>,
    pqPool: seq<OneTimeKey>,
    dirty: bool,
    pins: map<Text, Pin>,
    sessions: map<Text, Session>,
    guards: Guards)

  /** A peer's bundle as handed out by the server; `signaturesVerify` is the outcome of
      `VerifyPrekeyBundleSignatures`. */
  datatype Bundle = Bundle(
    user: Text, version: Text, cipherSuite: Text, signaturesVerify: bool,
    sign: nat, mldsa: nat, dh: PublicKey,
    signedEcId: nat, signedEc: PublicKey, signedPqId: nat, signedPq: PublicKey,
    oneTimeEc: seq<(nat, PublicKey)>, oneTimePq: seq<(nat, PublicKey)>)

  // ---- replay guards ----

  predicate Seen(g: Guards, sessionId: Text, transcript: Transcript) {
    sessionId in g.sessions || transcript in g.transcripts
  }

  function Newest<T>(s: seq<T>): seq<T> {
    if |s| > MaxReplayGuards then s[|s| - MaxReplayGuards..] else s
  }

  function Elements<T>(s: seq<T>): set<T> {
    set x | x in s
  }

  ghost predicate Distinct<T>(s: seq<T>) {
    forall i, j :: 0 <= i < j < |s| ==> s[i] != s[j]
  }

  /** The sets hold exactly what the sequences hold, once each, and no more than the limit. */
  ghost predicate GuardsValid(g: Guards) {
    && g.sessions == Elements(g.sessionOrder) && Distinct(g.sessionOrder) && |g.sessionOrder| <= MaxReplayGuards
    && g.transcripts == Elements(g.transcriptOrder) && Distinct(g.transcriptOrder) && |g.transcriptOrder| <= MaxReplayGuards
  }

  /** Both guards are added and the oldest evicted, or nothing changes. */
  function Remember(g: Guards, sessionId: Text, transcript: Transcript): (Guards, bool) {
    if Seen(g, sessionId, transcript) then (g, false) else
    var so, to := Newest(g.sessionOrder + [sessionId]), Newest(g.transcriptOrder + [transcript]);
    (Guards(Elements(so), Elements(to), so, to), true)
  }

  // ---- identity pins ----

  /** First contact pins the identity, unverified, and is refused; later contacts need the same
      keys and a verified pin. */
  function CheckIdentity(c: ClientState, peer: Text, sign: nat, mldsa: nat, dh: PublicKey): (ClientState, bool) {
    if peer !in c.pins then (c.(pins := c.pins[peer := Pin(sign, mldsa, dh, false)]), false)
    else (c, c.pins[peer] == Pin(sign, mldsa, dh, true))
  }

  /** The hash of a peer's name and identity in hexadecimal; collision-free, so the record itself. */
  datatype SafetyNumber = NumberOf(peer: Text, sign: nat, mldsa: nat, dh: PublicKey) | OtherNumber(raw: nat)

  function NumberOfPin(peer: Text, pin: Pin): SafetyNumber {
    NumberOf(peer, pin.sign, pin.mldsa, pin.dh)
  }

  /** The user enters the number that the peer has read out. */
  function EnterNumber(c: ClientState, peer: Text, expected: SafetyNumber): (ClientState, bool) {
    if peer !in c.pins || NumberOfPin(peer, c.pins[peer]) != expected then (c, false)
    else (c.(pins := c.pins[peer := c.pins[peer].(verified := true)]), true)
  }

  // ---- handshake, responder ----

  function TranscriptOf(me: Identity, m: Initial): Transcript {
    Transcript(m.sessionId, m.fromUser, m.toUser, m.version, m.cipherSuite,
               m.identitySign, m.identityMldsa, m.identityDh, me.sign, me.mldsa, PublicKey(me.dh),
               m.ephemeral, m.selected, m.kemSigned, m.kemOneTime)
  }

  /** All checks up to the signatures. */
  predicate Admissible(c: ClientState, m: Initial) {
    && m.toUser == c.me.user
    && m.version == ProtocolVersion && m.cipherSuite == CipherSuite
    && m.selected.oneTimeEcId.Some? && m.selected.oneTimePqId.Some? && m.kemOneTime.Some?
    && !Seen(c.guards, m.sessionId, m.transcriptHash)
    && m.selected.signedEcId == c.me.signedEcId && m.selected.signedPqId == c.me.signedPqId
    && TranscriptOf(c.me, m) == m.transcriptHash
    && Verifies(m.identitySign, m.transcriptHash, m.signatureEd25519)
    && Verifies(m.identityMldsa, m.transcriptHash, m.signatureMldsa65)
  }

  /** Position of the first key with the given id, or the length of the pool. */
  function IndexOf(pool: seq<OneTimeKey>, id: nat): (i: nat)
    ensures i <= |pool| && (i < |pool| ==> pool[i].id == id)
    ensures forall j :: 0 <= j < i ==> pool[j].id != id
  {
    if pool == [] || pool[0].id == id then 0 else 1 + IndexOf(pool[1..], id)
  }

  function Without<T>(s: seq<T>, i: nat): seq<T>
    requires i < |s|
  {
    s[..i] + s[i+1..]
  }

  /** The secrets the responder computes with the given one-time keys. */
  function ResponderSecret(me: Identity, m: Initial, ecKey: nat, pqKey: nat): Option<HandshakeSecret>
    requires m.kemOneTime.Some?
  {
    match (SharedSecret(me.signedEc, m.identityDh), SharedSecret(me.dh, m.ephemeral),
           SharedSecret(me.signedEc, m.ephemeral), Decapsulate(me.signedPq, m.kemSigned),
           SharedSecret(ecKey, m.ephemeral), Decapsulate(pqKey, m.kemOneTime.value))
    case (Some(dh1), Some(dh2), Some(dh3), Some(k1), Some(dh4), Some(k2)) =>
      Some(HandshakeSecret(dh1, dh2, dh3, k1, dh4, k2))
    case _ => None
  }

  function ResponderSession(me: Identity, m: Initial, secret: HandshakeSecret): Session {
    var t := m.transcriptHash;
    Session(m.sessionId, m.fromUser, false, HandshakeRoot(secret, t),
            HandshakeChain(secret, t, false), NextChain(HandshakeChain(secret, t, true), 0),
            0, 1, 0, me.signedEc, m.ephemeral)
  }

  /** The session and plaintext that an admissible message yields; nothing is changed yet. */
  function OpenInitial(c: ClientState, m: Initial): Option<(Session, Text)>
    requires Admissible(c, m)
  {
    var i := IndexOf(c.ecPool, m.selected.oneTimeEcId.value);
    var j := IndexOf(c.pqPool, m.selected.oneTimePqId.value);
    if i == |c.ecPool| || j == |c.pqPool| then None else
    match ResponderSecret(c.me, m, c.ecPool[i].key, c.pqPool[j].key)
    case None => None
    case Some(secret) =>
      match Open(MessageKey(HandshakeChain(secret, m.transcriptHash, true), 0), m.nonce, m.ciphertext,
                 TranscriptData(m.transcriptHash))
      case None => None
      case Some(p) => Some((ResponderSession(c.me, m, secret), p))
  }

  function HandleInitial(c: ClientState, m: Initial): (ClientState, Option<Text>) {
    if !Admissible(c, m) then (c, None) else
    match CheckIdentity(c, m.fromUser, m.identitySign, m.identityMldsa, m.identityDh)
    case (c', false) => (c', None)
    case (_, true) =>
      match OpenInitial(c, m)
      case None => (c, None)
      case Some((session, p)) =>
        match Remember(c.guards, m.sessionId, m.transcriptHash)
        case (_, false) => (c, None)
        case (guards, true) =>
          (c.(guards := guards, dirty := true,
              ecPool := Without(c.ecPool, IndexOf(c.ecPool, m.selected.oneTimeEcId.value)),
              pqPool := Without(c.pqPool, IndexOf(c.pqPool, m.selected.oneTimePqId.value)),
              sessions := c.sessions[m.fromUser := session]),
           Some(p))
  }

  // ---- handshake, initiator ----

  /** The keys and random values `InitiateSession` draws. */
  datatype Draws = Draws(sessionId: Text, ephemeral: nat, seed1: nat, seed2: nat)

  predicate UsableBundle(b: Bundle, peer: Text) {
    b.user == peer && b.version == ProtocolVersion && b.cipherSuite == CipherSuite && b.signaturesVerify
  }

  function InitiatorTranscript(me: Identity, b: Bundle, peer: Text, d: Draws): Transcript
    requires b.oneTimeEc != [] && b.oneTimePq != [] && b.signedPq.PublicKey? && b.oneTimePq[0].1.PublicKey?
  {
    Transcript(d.sessionId, me.user, peer, ProtocolVersion, CipherSuite,
               me.sign, me.mldsa, PublicKey(me.dh), b.sign, b.mldsa, b.dh, PublicKey(d.ephemeral),
               PrekeySelection(b.signedEcId, b.signedPqId, Some(b.oneTimeEc[0].0), Some(b.oneTimePq[0].0)),
               Encapsulated(b.signedPq.id, d.seed1), Some(Encapsulated(b.oneTimePq[0].1.id, d.seed2)))
  }

  function InitiatorSecret(me: Identity, b: Bundle, d: Draws): Option<HandshakeSecret>
    requires b.oneTimeEc != [] && b.oneTimePq != []
  {
    if b.signedPq.BadKey? || b.oneTimePq[0].1.BadKey? then None else
    match (SharedSecret(me.dh, b.signedEc), SharedSecret(d.ephemeral, b.dh),
           SharedSecret(d.ephemeral, b.signedEc), SharedSecret(d.ephemeral, b.oneTimeEc[0].1))
    case (Some(dh1), Some(dh2), Some(dh3), Some(dh4)) =>
      Some(HandshakeSecret(dh1, dh2, dh3, KemSecret(b.signedPq.id, d.seed1), dh4, KemSecret(b.oneTimePq[0].1.id, d.seed2)))
    case _ => None
  }

  function InitiatorSession(b: Bundle, peer: Text, d: Draws, secret: HandshakeSecret, t: Transcript): Session {
    Session(d.sessionId, peer, true, HandshakeRoot(secret, t),
            NextChain(HandshakeChain(secret, t, true), 0), HandshakeChain(secret, t, false),
            1, 0, 0, d.ephemeral, b.signedEc)
  }

  function InitialOf(me: Identity, d: Draws, plaintext: Text, secret: HandshakeSecret, t: Transcript): Initial {
    InitialMessage(t.sessionId, t.fromUser, t.toUser, t.version, t.cipherSuite,
                   t.initiatorSign, t.initiatorMldsa, t.initiatorDh, t.ephemeral, t.selected,
                   t.kemSigned, t.kemOneTime, t, Signature(me.sign, t), Signature(me.mldsa, t), Nonce(0),
                   Sealed(MessageKey(HandshakeChain(secret, t, true), 0), Nonce(0), plaintext, TranscriptData(t)))
  }

  function Initiate(c: ClientState, b: Bundle, peer: Text, plaintext: Text, d: Draws): (ClientState, Option<Initial>) {
    if !UsableBundle(b, peer) then (c, None) else
    match CheckIdentity(c, peer, b.sign, b.mldsa, b.dh)
    case (c', false) => (c', None)
    case (_, true) =>
      if b.oneTimeEc == [] || b.oneTimePq == [] then (c, None) else
      match InitiatorSecret(c.me, b, d)
      case None => (c, None)
      case Some(secret) =>
        var t := InitiatorTranscript(c.me, b, peer, d);
        match Remember(c.guards, d.sessionId, t)
        case (_, false) => (c, None)
        case (guards, true) =>
          (c.(guards := guards, sessions := c.sessions[peer := InitiatorSession(b, peer, d, secret, t)]),
           Some(InitialOf(c.me, d, plaintext, secret, t)))
  }

  // ---- chat ----

  function HandleChat(c: ClientState, m: Chat): (ClientState, Option<Text>) {
    if m.toUser != c.me.user || m.fromUser !in c.sessions then (c, None) else
    var (session, p) := Receive(c.sessions[m.fromUser], m);
    (c.(sessions := c.sessions[m.fromUser := session]), p)
  }

  function SendChat(c: ClientState, peer: Text, plaintext: Text, newKey: nat): (ClientState, Option<Chat>) {
    if peer !in c.sessions then (c, None) else
    match Send(c.sessions[peer], c.me.user, plaintext, newKey)
    case None => (c, None)
    case Some((session, m)) => (c.(sessions := c.sessions[peer := session]), Some(m))
  }

  // ---- inbox ----

  type ChatEnvelope = Envelope<Initial, Chat>

  /** Handles an envelope; the text shown to the user, or `None` when it is refused. */
  function HandleEnvelope(c: ClientState, e: ChatEnvelope): (ClientState, Option<Text>) {
    if e.kind.KindInitial? && e.initial.Some? then HandleInitial(c, e.initial.value)
    else if e.kind.KindChat? && e.chat.Some? then HandleChat(c, e.chat.value)
    else (c, None)
  }

  function Accepts(c: ClientState, e: ChatEnvelope): (ClientState, bool) {
    var (c', p) := HandleEnvelope(c, e);
    (c', p.Some?)
  }

  // ---- invariants ----

  ghost predicate PoolValid(pool: seq<OneTimeKey>) {
    && |pool| <= PoolTarget
    && (forall i :: 0 <= i < |pool| ==> 0 < pool[i].id < TWO32)
    && (forall i, j :: 0 <= i < j < |pool| ==> pool[i].id != pool[j].id)
  }

  /** Ids are non-zero and distinct across both pools, and neither pool exceeds its target. */
  ghost predicate PoolsValid(ecPool: seq<OneTimeKey>, pqPool: seq<OneTimeKey>) {
    && PoolValid(ecPool) && PoolValid(pqPool)
    && (forall i, j :: 0 <= i < |ecPool| && 0 <= j < |pqPool| ==> ecPool[i].id != pqPool[j].id)
  }

  /** Each session is filed under its peer. */
  ghost predicate SessionsValid(c: ClientState) {
    forall p :: p in c.sessions ==> c.sessions[p].peer == p
  }

  ghost predicate Valid(c: ClientState) {
    GuardsValid(c.guards) && PoolsValid(c.ecPool, c.pqPool) && SessionsValid(c)
  }
}
