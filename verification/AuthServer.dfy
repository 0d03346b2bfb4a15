/** The server object behind AuthSpec; every call holds its mutex. */
module AuthServer {
  import opened Wrappers
  import opened Bytes
  import opened UserIds
  import opened RateLimits
  import opened SignInputs
  import opened AuthSpec

  method IsValidChallengeId(id: Text) returns (ok: bool)
    ensures ok == ValidChallengeId(id)
  {
    for i := 0 to |id|
      invariant forall j :: 0 <= j < i ==> HexDigit(id[j])
    {
      if !HexDigit(id[i]) {
        return false;
      }
    }
    return |id| == ChallengeIdChars;
  }

  method LiveChallenges(m: map<Text, Challenge>, now: nat) returns (r: map<Text, Challenge>)
    ensures r == LiveOnly(m, now)
  {
    r := m;
    var todo := m.Keys;
    while todo != {}
      invariant todo <= m.Keys && r.Keys <= m.Keys
      invariant forall k :: k in r ==> r[k] == m[k]
      invariant forall k :: k in m ==> (k in r <==> k in todo || Live(m[k], now))
      decreases |todo|
    {
      var k :| k in todo;
      if m[k].used || m[k].expires < now {
        r := r - {k};
      }
      todo := todo - {k};
    }
  }

  method LiveSessions(m: map<Text, Session>, now: nat) returns (r: map<Text, Session>)
    ensures r == Unexpired(m, now)
  {
    r := m;
    var todo := m.Keys;
    while todo != {}
      invariant todo <= m.Keys && r.Keys <= m.Keys
      invariant forall k :: k in r ==> r[k] == m[k]
      invariant forall k :: k in m ==> (k in r <==> k in todo || m[k].expires >= now)
      decreases |todo|
    {
      var k :| k in todo;
      if m[k].expires < now {
        r := r - {k};
      }
      todo := todo - {k};
    }
  }

  method OtherSessions(m: map<Text, Session>, user: Text) returns (r: map<Text, Session>)
    ensures r == WithoutSessionsOf(m, user)
  {
    r := m;
    var todo := m.Keys;
    while todo != {}
      invariant todo <= m.Keys && r.Keys <= m.Keys
      invariant forall k :: k in r ==> r[k] == m[k]
      invariant forall k :: k in m ==> (k in r <==> k in todo || m[k].user != user)
      decreases |todo|
    {
      var k :| k in todo;
      if m[k].user == user {
        r := r - {k};
      }
      todo := todo - {k};
    }
  }

  class Server {
    const checks: Checks
    var identities: map<Text, Text>
    var challenges: map<Text, Challenge>
    var sessions: map<Text, Session>
    var begins: Buckets<Text>
    var finishes: Buckets<Text>

    ghost function State(): AuthState
      reads this
    {
      AuthState(identities, challenges, sessions, begins, finishes)
    }

    constructor (checks: Checks)
      ensures this.checks == checks && State() == EmptyAuth()
    {
      this.checks := checks;
      identities, challenges, sessions, begins, finishes := map[], map[], map[], map[], map[];
    }

    method CleanupAuthState(now: nat)
      modifies this
      ensures State() == Cleanup(old(State()), now)
    {
      challenges := LiveChallenges(challenges, now);
      sessions := LiveSessions(sessions, now);
      begins := TrimMap(begins, now, AttemptWindow);
      finishes := TrimMap(finishes, now, AttemptWindow);
    }

    method RegisterTransportIdentity(r: RegisterRequest) returns (ok: bool)
      modifies this
      ensures (State(), ok) == Register(old(State()), r, checks)
    {
      var validUser := IsValidUserId(r.user);
      if !validUser || r.key == [] || |r.key| > MaxPublicKeyBytes || !ValidSignatureSize(r.proof) {
        return false;
      }
      if r.rotation.Some? && !ValidSignatureSize(r.rotation.value) {
        return false;
      }
      var input := BuildTransportRegisterSignInput(r.user, r.key);
      if !checks.verify(r.key, input, r.proof) {
        return false;
      }
      if r.user !in identities {
        if checks.tokenRequired && !checks.provisioned(r.user, r.token) {
          return false;
        }
        identities := identities[r.user := r.key];
        return true;
      }
      if identities[r.user] != r.key {
        var rotated, recovered := false, false;
        if r.rotation.Some? {
          input := BuildTransportRegisterRotateSignInput(r.user, identities[r.user], r.key);
          rotated := checks.verify(identities[r.user], input, r.rotation.value);
        }
        if !rotated && checks.tokenRequired {
          recovered := checks.provisioned(r.user, r.token);
        }
        if !rotated && !recovered {
          return false;
        }
        identities := identities[r.user := r.key];
        sessions := OtherSessions(sessions, r.user);
      }
      return true;
    }

    method BeginTransportAuthentication(r: BeginRequest, now: nat, random: Option<(Text, Text)>) returns (res: Option<BeginResponse>)
      modifies this
      ensures (State(), res) == Begin(old(State()), r, now, random)
    {
      CleanupAuthState(now);
      var validUser := IsValidUserId(r.user);
      if !validUser || |r.clientNonce| != NonceBytes {
        return None;
      }
      var b, ok := CheckAndRecord(Bucket(begins, r.user), now, AttemptWindow, MaxAttempts);
      begins := begins[r.user := b];
      if !ok || r.user !in identities || random.None? {
        return None;
      }
      var expires := Plus(now, ChallengeSeconds);
      challenges := challenges[random.value.0 := Challenge(r.user, r.clientNonce, random.value.1, expires, false)];
      return Some(BeginResponse(random.value.0, random.value.1, expires));
    }

    method FinishTransportAuthentication(r: FinishRequest, now: nat, token: Option<Text>) returns (res: Option<FinishResponse>)
      modifies this
      ensures (State(), res) == Finish(old(State()), r, now, token, checks)
    {
      CleanupAuthState(now);
      var validUser := IsValidUserId(r.user);
      var validId := IsValidChallengeId(r.challengeId);
      if !validUser || !validId || |r.clientNonce| != NonceBytes || |r.serverNonce| != NonceBytes || !ValidSignatureSize(r.signature) {
        return None;
      }
      var b, ok := CheckAndRecord(Bucket(finishes, r.user), now, AttemptWindow, MaxAttempts);
      finishes := finishes[r.user := b];
      if !ok || r.challengeId !in challenges {
        return None;
      }
      var c := challenges[r.challengeId];
      if c.used || !Matches(c, r) || now > c.expires {
        return None;
      }
      challenges := challenges[r.challengeId := c.(used := true)];
      if r.user !in identities {
        return None;
      }
      var input := BuildTransportAuthSignInput(r.user, r.clientNonce, r.serverNonce, r.challengeId, r.expires);
      if !checks.verify(identities[r.user], input, r.signature) || token.None? {
        return None;
      }
      var expires := Plus(now, SessionSeconds);
      sessions := sessions[token.value := Session(r.user, expires)];
      return Some(FinishResponse(token.value, expires));
    }

    method AuthenticateSessionToken(token: Text, now: nat) returns (user: Option<Text>)
      modifies this
      ensures (State(), user) == Authenticate(old(State()), token, now)
    {
      CleanupAuthState(now);
      if |token| != TokenBytes || token !in sessions || now > sessions[token].expires {
        return None;
      }
      return Some(sessions[token].user);
    }

    method RevokeSessionToken(token: Text) returns (ok: bool)
      modifies this
      ensures (State(), ok) == Revoke(old(State()), token)
    {
      if |token| != TokenBytes || token !in sessions {
        return false;
      }
      sessions := sessions - {token};
      return true;
    }
  }
}
