/** What a TCP connection does with a request: rate limits, login commands, and the commands that
    act for the user a session token stands for. `Handle` is a request that nothing interferes with;
    Connections.dfy takes it apart into the calls that other connections can come between. */
module Dispatch {
  import opened Wrappers
  import opened Bytes
  import opened Messages
  import opened Fields
  import opened WireCodec
  import opened WirePages
  import opened InboxPages
  import opened Mailbox
  import opened SignInputs
  import opened AuthWire
  import opened AuthSpec
  import opened PreAuthGate

  type Stored = Bundle<PrekeyBundle, OneTimePrekey>
  type MailStore = Store<PrekeyBundle, OneTimePrekey, WireEnvelope>

  datatype ServerState = ServerState(gate: Gate, auth: AuthState, mail: MailStore)

  type Verifier = (Blob, Blob, Blob) -> bool

  datatype ServerConfig = ServerConfig(limits: Config, checks: Checks, ed25519: Verifier, mldsa65: Verifier)

  /** The peer, what the clock shows at each look, and what the random generator yields. */
  datatype Env = Env(addr: Text, gateNow: nat, userNow: nat, now: nat, random: Option<(Text, Text)>, newToken: Option<Text>)

  const CmdPublish: nat := 1
  const CmdAcquire: nat := 2
  const CmdEnqueue: nat := 3
  const CmdDrain: nat := 4
  const CmdRegister: nat := 5
  const CmdAuthBegin: nat := 6
  const CmdAuthFinish: nat := 7
  const CmdLogout: nat := 8

  function CommandOf(command: nat): Command {
    if command == CmdRegister then Register
    else if command == CmdAuthBegin then AuthBegin
    else if command == CmdAuthFinish then AuthFinish
    else OtherCommand
  }

  // ---- bundles ----

  /** The checks of a bundle: its version and suite, both prekeys and the whole, each signed twice. */
  predicate BundleValid(b: PrekeyBundle, config: ServerConfig) {
    && b.version == ProtocolVersion && b.cipherSuite == CipherSuite
    && SignedTwice(b, EcPrekey(b.signedEc.id, b.signedEc.publicKey), b.signedEc.signatureEd25519, b.signedEc.signatureMldsa65, config)
    && SignedTwice(b, PqPrekey(b.signedPq.id, b.signedPq.publicKey), b.signedPq.signatureEd25519, b.signedPq.signatureMldsa65, config)
    && SignedTwice(b, BundleInput(b), b.signatureEd25519, b.signatureMldsa65, config)
  }

  predicate SignedTwice(b: PrekeyBundle, x: SignInput, ed25519: Blob, mldsa65: Blob, config: ServerConfig) {
    config.ed25519(b.identitySign, Encode(x), ed25519) && config.mldsa65(b.identityMldsa, Encode(x), mldsa65)
  }

  function BundleInput(b: PrekeyBundle): SignInput {
    BundleSignature(b.user, b.identitySign, b.identityMldsa, b.identityDh, b.signedEc, b.signedPq, b.version, b.cipherSuite)
  }

  function Split(b: PrekeyBundle): Stored {
    Bundle(b.user, b.(oneTimeEc := [], oneTimePq := []), b.oneTimeEc, b.oneTimePq)
  }

  function Joined(s: Stored): PrekeyBundle {
    s.body.(user := s.user, oneTimeEc := s.ec, oneTimePq := s.pq)
  }

  // ---- login commands ----

  function HandleRegister(s: ServerState, payload: Blob, env: Env, config: ServerConfig): (ServerState, Option<Blob>) {
    match DeserializeRegister(payload)
    case None => (s, None)
    case Some(r) =>
      var (gate, within) := PairLimit(s.gate, Register, env.addr, r.user, env.userNow, config.limits);
      if !within then (s.(gate := gate), None) else
      var (auth, ok) := AuthSpec.Register(s.auth, r, config.checks);
      (s.(gate := gate, auth := auth), if ok then Some([]) else None)
  }

  function HandleBegin(s: ServerState, payload: Blob, env: Env, config: ServerConfig): (ServerState, Option<Blob>) {
    match DeserializeBegin(payload)
    case None => (s, None)
    case Some(r) =>
      var (gate, within) := PairLimit(s.gate, AuthBegin, env.addr, r.user, env.userNow, config.limits);
      if !within then (s.(gate := gate), None) else
      var (auth, a) := Begin(s.auth, r, env.now, env.random);
      (s.(gate := gate, auth := auth), if a.Some? then Some(SerializeBeginReply(a.value)) else None)
  }

  function HandleFinish(s: ServerState, payload: Blob, env: Env, config: ServerConfig): (ServerState, Option<Blob>) {
    match DeserializeFinish(payload)
    case None => (s, None)
    case Some(r) =>
      var (gate, within) := PairLimit(s.gate, AuthFinish, env.addr, r.user, env.userNow, config.limits);
      if !within then (s.(gate := gate), None) else
      var (auth, a) := Finish(s.auth, r, env.now, env.newToken, config.checks);
      (s.(gate := gate, auth := auth), if a.Some? then Some(SerializeFinishReply(a.value)) else None)
  }

  // ---- commands of a user ----

  function HandlePublish(m: MailStore, user: Text, inner: Blob, config: ServerConfig): (MailStore, Option<Blob>) {
    match DeserializeBundle(inner)
    case None => (m, None)
    case Some(b) =>
      if b.user != user || !BundleValid(b, config) then (m, None) else (Publish(m, Split(b)), Some([]))
  }

  function HandleAcquire(m: MailStore, inner: Blob): (MailStore, Option<Blob>) {
    match DeserializeString(inner)
    case None => (m, None)
    case Some(peer) =>
      var (m', b) := Acquire(m, peer);
      (m', if b.Some? then Some(SerializeBundle(Joined(b.value))) else None)
  }

  function SenderOf(e: WireEnvelope): Option<Text> {
    if e.kind.KindInitial? then (if e.initial.Some? then Some(e.initial.value.fromUser) else None)
    else if e.chat.Some? then Some(e.chat.value.fromUser) else None
  }

  function RecipientOf(e: WireEnvelope): Option<Text> {
    if e.kind.KindInitial? then (if e.initial.Some? then Some(e.initial.value.toUser) else None)
    else if e.chat.Some? then Some(e.chat.value.toUser) else None
  }

  function HandleEnqueue(m: MailStore, user: Text, inner: Blob): (MailStore, Option<Blob>) {
    match DeserializeEnqueue(inner)
    case None => (m, None)
    case Some(r) =>
      if SenderOf(r.envelope) != Some(user) || RecipientOf(r.envelope) != Some(r.user) then (m, None)
      else (EnqueueFor(m, r.user, r.envelope), Some([]))
  }

  function HandleDrain(m: MailStore, user: Text, inner: Blob): (MailStore, Option<Blob>) {
    match DeserializeDrain(inner)
    case None => (m, None)
    case Some(r) =>
      if r.user != user then (m, None) else
      var (m', page) := DrainFor(m, user, r.ack, SizeOf(SerializeEnvelope));
      (m', if page.None? then None else SerializeInbox(page.value, SerializeEnvelope))
  }

  function HandleForUser(m: MailStore, command: nat, user: Text, inner: Blob, config: ServerConfig): (MailStore, Option<Blob>) {
    if command == CmdPublish then HandlePublish(m, user, inner, config)
    else if command == CmdAcquire then HandleAcquire(m, inner)
    else if command == CmdEnqueue then HandleEnqueue(m, user, inner)
    else if command == CmdDrain then HandleDrain(m, user, inner)
    else (m, None)
  }

  function HandleAuthenticated(s: ServerState, command: nat, payload: Blob, env: Env, config: ServerConfig): (ServerState, Option<Blob>) {
    match DeserializeAuthenticated(payload)
    case None => (s, None)
    case Some(p) =>
      var (auth, user) := Authenticate(s.auth, p.token, env.now);
      if user.None? then (s.(auth := auth), None)
      else if command == CmdLogout then
        var (auth', ok) := Revoke(auth, p.token);
        (s.(auth := auth'), if ok then Some([]) else None)
      else
        var (mail, reply) := HandleForUser(s.mail, command, user.value, p.payload, config);
        (s.(auth := auth, mail := mail), reply)
  }

  /** One frame and its reply; `None` is an error reply. */
  function Handle(s0: ServerState, command: nat, payload: Blob, env: Env, config: ServerConfig): (ServerState, Option<Blob>) {
    var (gate, within) := AddrLimit(s0.gate, CommandOf(command), env.addr, env.gateNow, config.limits);
    var s := s0.(gate := gate);
    if !within then (s, None)
    else if command == CmdRegister then HandleRegister(s, payload, env, config)
    else if command == CmdAuthBegin then HandleBegin(s, payload, env, config)
    else if command == CmdAuthFinish then HandleFinish(s, payload, env, config)
    else HandleAuthenticated(s, command, payload, env, config)
  }
}
