/** Accounts, challenges and sessions of the in-memory server as functions on its state. Signature
    verification, the provisioning token check, the clock and random values are parameters. */
module AuthSpec {
  import opened Wrappers
  import opened Bytes
  import opened UserIds
  import opened RateLimits
  import opened SignInputs

  const MaxPublicKeyBytes: nat := 8192
  const NonceBytes: nat := 32
  const TokenBytes: nat := 32
  const MinSignatureBytes: nat := 64
  const MaxSignatureBytes: nat := 8192
  const ChallengeIdChars: nat := 32
  const AttemptWindow: nat := 60
  const MaxAttempts: nat := 30
  const ChallengeSeconds: nat := 60
  const SessionSeconds: nat := 900

  datatype Challenge = Challenge(user: Text, clientNonce: Text, serverNonce: Text, expires: nat, used: bool)
  datatype Session = Session(user: Text, expires: nat)

  /** Sessions are keyed by their token; the source's hexadecimal form of it is one-to-one. */
  datatype AuthState = AuthState(
    identities: map<Text, Text>,
    challenges: map<Text, Challenge>,
    sessions: map<Text, Session>,
    begins: Buckets<Text>,
    finishes: Buckets<Text>)

  datatype RegisterRequest = RegisterRequest(user: Text, key: Text, token: Text, proof: Text, rotation: Option<Text>)
  datatype BeginRequest = BeginRequest(user: Text, clientNonce: Text)
  datatype BeginResponse = BeginResponse(challengeId: Text, serverNonce: Text, expires: nat)
  datatype FinishRequest = FinishRequest(
    user: Text, clientNonce: Text, serverNonce: Text, challengeId: Text, expires: nat, signature: Text)
  datatype FinishResponse = FinishResponse(token: Text, expires: nat)

  /** `verify` takes key, message and signature; `provisioned` takes user and registration token
      and is asked only when a token is required. */
  datatype Checks = Checks(verify: (Text, Text, Text) -> bool, tokenRequired: bool, provisioned: (Text, Text) -> bool)

  predicate ValidSignatureSize(s: Text) {
    MinSignatureBytes <= |s| <= MaxSignatureBytes
  }

  predicate HexDigit(c: byte) {
    '0' as int <= c <= '9' as int || 'a' as int <= c <= 'f' as int || 'A' as int <= c <= 'F' as int
  }

  predicate ValidChallengeId(id: Text) {
    |id| == ChallengeIdChars && forall i :: 0 <= i < |id| ==> HexDigit(id[i])
  }

  /** Sums of 64-bit times wrap around. */
  function Plus(now: nat, seconds: nat): nat {
    (now + seconds) % TWO64
  }

  // ---- cleanup ----

  predicate Live(c: Challenge, now: nat) {
    !c.used && c.expires >= now
  }

  function LiveOnly(challenges: map<Text, Challenge>, now: nat): map<Text, Challenge> {
    map id | id in challenges && Live(challenges[id], now) :: challenges[id]
  }

  function Unexpired(sessions: map<Text, Session>, now: nat): map<Text, Session> {
    map t | t in sessions && sessions[t].expires >= now :: sessions[t]
  }

  function Cleanup(s: AuthState, now: nat): AuthState {
    s.(challenges := LiveOnly(s.challenges, now),
       sessions := Unexpired(s.sessions, now),
       begins := TrimAll(s.begins, now, AttemptWindow),
       finishes := TrimAll(s.finishes, now, AttemptWindow))
  }

  // ---- registration ----

  predicate WellFormedRegistration(r: RegisterRequest, checks: Checks) {
    && ValidUserId(r.user) && 0 < |r.key| <= MaxPublicKeyBytes && ValidSignatureSize(r.proof)
    && (r.rotation.Some? ==> ValidSignatureSize(r.rotation.value))
    && checks.verify(r.key, Encode(TransportRegister(r.user, r.key)), r.proof)
  }

  /** The old key signed the new one, or the provisioning token recovers the account. */
  predicate MayReplace(current: Text, r: RegisterRequest, checks: Checks) {
    || (r.rotation.Some? && checks.verify(current, Encode(TransportRotate(r.user, current, r.key)), r.rotation.value))
    || (checks.tokenRequired && checks.provisioned(r.user, r.token))
  }

  function WithoutSessionsOf(sessions: map<Text, Session>, user: Text): map<Text, Session> {
    map t | t in sessions && sessions[t].user != user :: sessions[t]
  }

  /** A key that replaces another revokes all sessions of the user. */
  function Register(s: AuthState, r: RegisterRequest, checks: Checks): (AuthState, bool) {
    if !WellFormedRegistration(r, checks) then (s, false)
    else if r.user !in s.identities then
      if checks.tokenRequired && !checks.provisioned(r.user, r.token) then (s, false)
      else (s.(identities := s.identities[r.user := r.key]), true)
    else if s.identities[r.user] == r.key then (s, true)
    else if MayReplace(s.identities[r.user], r, checks) then
      (s.(identities := s.identities[r.user := r.key], sessions := WithoutSessionsOf(s.sessions, r.user)), true)
    else (s, false)
  }

  // ---- login ----

  /** `random` is the new challenge id and server nonce, if the generator works. */
  function Begin(s0: AuthState, r: BeginRequest, now: nat, random: Option<(Text, Text)>): (AuthState, Option<BeginResponse>) {
    var s := Cleanup(s0, now);
    if !ValidUserId(r.user) || |r.clientNonce| != NonceBytes then (s, None) else
    var (b, ok) := Check(Bucket(s.begins, r.user), now, AttemptWindow, MaxAttempts);
    var s1 := s.(begins := s.begins[r.user := b]);
    if !ok || r.user !in s1.identities || random.None? then (s1, None) else
    var (id, nonce) := random.value;
    var expires := Plus(now, ChallengeSeconds);
    (s1.(challenges := s1.challenges[id := Challenge(r.user, r.clientNonce, nonce, expires, false)]),
     Some(BeginResponse(id, nonce, expires)))
  }

  predicate WellFormedFinish(r: FinishRequest) {
    && ValidUserId(r.user) && ValidChallengeId(r.challengeId) && |r.clientNonce| == NonceBytes && |r.serverNonce| == NonceBytes
    && ValidSignatureSize(r.signature)
  }

  predicate Matches(c: Challenge, r: FinishRequest) {
    c.user == r.user && c.clientNonce == r.clientNonce && c.serverNonce == r.serverNonce && c.expires == r.expires
  }

  function LoginInput(r: FinishRequest): Text {
    Encode(TransportAuth(r.user, r.clientNonce, r.serverNonce, r.challengeId, r.expires))
  }

  /** A matching attempt uses the challenge up before its signature is looked at. `token` is the
      new session token, if the generator works. */
  function Finish(s0: AuthState, r: FinishRequest, now: nat, token: Option<Text>, checks: Checks): (AuthState, Option<FinishResponse>) {
    var s := Cleanup(s0, now);
    if !WellFormedFinish(r) then (s, None) else
    var (b, ok) := Check(Bucket(s.finishes, r.user), now, AttemptWindow, MaxAttempts);
    var s1 := s.(finishes := s.finishes[r.user := b]);
    if !ok || r.challengeId !in s1.challenges then (s1, None) else
    var c := s1.challenges[r.challengeId];
    if c.used || !Matches(c, r) || now > c.expires then (s1, None) else
    var s2 := s1.(challenges := s1.challenges[r.challengeId := c.(used := true)]);
    if r.user !in s2.identities || !checks.verify(s2.identities[r.user], LoginInput(r), r.signature) || token.None? then (s2, None) else
    var expires := Plus(now, SessionSeconds);
    (s2.(sessions := s2.sessions[token.value := Session(r.user, expires)]), Some(FinishResponse(token.value, expires)))
  }

  // ---- sessions ----

  function Authenticate(s0: AuthState, token: Text, now: nat): (AuthState, Option<Text>) {
    var s := Cleanup(s0, now);
    if |token| != TokenBytes || token !in s.sessions || now > s.sessions[token].expires then (s, None)
    else (s, Some(s.sessions[token].user))
  }

  function Revoke(s: AuthState, token: Text): (AuthState, bool) {
    if |token| != TokenBytes || token !in s.sessions then (s, false) else (s.(sessions := s.sessions - {token}), true)
  }

  function EmptyAuth(): AuthState {
    AuthState(map[], map[], map[], map[], map[])
  }
}
