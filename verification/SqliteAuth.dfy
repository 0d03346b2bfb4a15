/** Accounts, challenges and sessions in SQLite tables. A revoked session keeps its row, and
    cleanup leaves the attempt counters alone; all the same the answers are those of the
    in-memory server. */
module SqliteAuth {
  import opened Wrappers
  import opened Bytes
  import opened UserIds
  import opened RateLimits
  import opened AuthSpec
  import opened AuthRuns
  import opened SqliteStore

  /** Rows are keyed by the keyed hash of the token, which is taken to be one-to-one. */
  datatype SessionRow = SessionRow(user: Text, expires: nat, revoked: bool)

  datatype Tables = Tables(
    accounts: map<Text, Text>,
    challenges: map<Text, Challenge>,
    sessions: map<Text, SessionRow>,
    begins: Buckets<Text>,
    finishes: Buckets<Text>)

  function EmptyTables(): Tables {
    Tables(map[], map[], map[], map[], map[])
  }

  /** Two DELETE statements. */
  function Prune(q: Tables, now: nat): Tables {
    q.(challenges := LiveOnly(q.challenges, now),
       sessions := map t | t in q.sessions && q.sessions[t].expires >= now :: q.sessions[t])
  }

  /** UPDATE sessions SET revoked = 1 WHERE user_id = ?. */
  function RevokeAll(rows: map<Text, SessionRow>, user: Text): map<Text, SessionRow> {
    map t | t in rows :: if rows[t].user == user then rows[t].(revoked := true) else rows[t]
  }

  function RegisterRow(q: Tables, r: RegisterRequest, checks: Checks): (Tables, bool) {
    if !WellFormedRegistration(r, checks) then (q, false)
    else if r.user in q.accounts then
      if q.accounts[r.user] == r.key then (q, true)
      else if !MayReplace(q.accounts[r.user], r, checks) then (q, false)
      else (q.(accounts := q.accounts[r.user := r.key], sessions := RevokeAll(q.sessions, r.user)), true)
    else if checks.tokenRequired && !checks.provisioned(r.user, r.token) then (q, false)
    else (q.(accounts := q.accounts[r.user := r.key]), true)
  }

  /** Inserting an id that is there already fails. */
  function BeginRow(q0: Tables, r: BeginRequest, now: nat, random: Option<(Text, Text)>): (Tables, Option<BeginResponse>) {
    var q := Prune(q0, now);
    if !ValidUserId(r.user) || |r.clientNonce| != NonceBytes then (q, None) else
    var (b, ok) := Check(Bucket(q.begins, r.user), now, AttemptWindow, MaxAttempts);
    var q1 := q.(begins := q.begins[r.user := b]);
    if !ok || r.user !in q1.accounts || random.None? || random.value.0 in q1.challenges then (q1, None) else
    var (id, nonce) := random.value;
    var expires := Plus(now, ChallengeSeconds);
    (q1.(challenges := q1.challenges[id := Challenge(r.user, r.clientNonce, nonce, expires, false)]),
     Some(BeginResponse(id, nonce, expires)))
  }

  /** The mark is committed before the signature is looked at. */
  function FinishRow(q0: Tables, r: FinishRequest, now: nat, token: Option<Text>, checks: Checks): (Tables, Option<FinishResponse>) {
    var q := Prune(q0, now);
    if !WellFormedFinish(r) then (q, None) else
    var (b, ok) := Check(Bucket(q.finishes, r.user), now, AttemptWindow, MaxAttempts);
    var q1 := q.(finishes := q.finishes[r.user := b]);
    if !ok || r.challengeId !in q1.challenges then (q1, None) else
    var c := q1.challenges[r.challengeId];
    if c.used || now > c.expires || !Matches(c, r) then (q1, None) else
    var q2 := q1.(challenges := q1.challenges[r.challengeId := c.(used := true)]);
    if r.user !in q2.accounts || !checks.verify(q2.accounts[r.user], LoginInput(r), r.signature) then (q2, None) else
    if token.None? || token.value in q2.sessions then (q2, None) else
    var expires := Plus(now, SessionSeconds);
    (q2.(sessions := q2.sessions[token.value := SessionRow(r.user, expires, false)]), Some(FinishResponse(token.value, expires)))
  }

  function AuthenticateRow(q0: Tables, token: Text, now: nat): (Tables, Option<Text>) {
    var q := Prune(q0, now);
    if |token| != TokenBytes || token !in q.sessions || q.sessions[token].revoked || now > q.sessions[token].expires then (q, None)
    else (q, Some(q.sessions[token].user))
  }

  /** Revoking again succeeds again. */
  function RevokeRow(q: Tables, token: Text): (Tables, bool) {
    if |token| != TokenBytes || token !in q.sessions then (q, false)
    else (q.(sessions := q.sessions[token := q.sessions[token].(revoked := true)]), true)
  }

  function RowStep(q: Tables, e: Event, checks: Checks): (Tables, Answer) {
    match e
    case RegisterEvent(r) => var (q', ok) := RegisterRow(q, r, checks); (q', Registered(ok))
    case BeginEvent(r, now, random) => var (q', a) := BeginRow(q, r, now, random); (q', Begun(a))
    case FinishEvent(r, now, token) => var (q', a) := FinishRow(q, r, now, token, checks); (q', Finished(a))
    case TokenEvent(token, now) => var (q', a) := AuthenticateRow(q, token, now); (q', Authenticated(a))
    case RevokeEvent(token) => var (q', ok) := RevokeRow(q, token); (q', Revoked(ok))
    case CleanupEvent(now) => (Prune(q, now), Cleaned)
  }

  /** The store object; SQL statements are the functions above, and counters are not in the tables. */
  class SqliteAccounts {
    const checks: Checks
    var accounts: map<Text, Text>
    var challenges: map<Text, Challenge>
    var sessions: map<Text, SessionRow>
    var begins: Buckets<Text>
    var finishes: Buckets<Text>

    ghost function State(): Tables
      reads this
    {
      Tables(accounts, challenges, sessions, begins, finishes)
    }

    constructor (checks: Checks)
      ensures this.checks == checks && State() == EmptyTables()
    {
      this.checks := checks;
      accounts, challenges, sessions, begins, finishes := map[], map[], map[], map[], map[];
    }

    method CleanupAuthState(now: nat)
      modifies this`challenges, this`sessions
      ensures State() == Prune(old(State()), now)
    {
      challenges := LiveOnly(challenges, now);
      sessions := map t | t in sessions && sessions[t].expires >= now :: sessions[t];
    }

    method RegisterTransportIdentity(r: RegisterRequest) returns (ok: bool)
      modifies this`accounts, this`sessions
      ensures (State(), ok) == RegisterRow(old(State()), r, checks)
    {
      if !WellFormedRegistration(r, checks) {
        return false;
      }
      if r.user in accounts {
        var existing := accounts[r.user];
        if existing == r.key {
          return true;
        }
        if !MayReplace(existing, r, checks) {
          return false;
        }
        accounts := accounts[r.user := r.key];
        sessions := RevokeAll(sessions, r.user);
        return true;
      }
      if checks.tokenRequired && !checks.provisioned(r.user, r.token) {
        return false;
      }
      accounts := accounts[r.user := r.key];
      return true;
    }

    method BeginTransportAuthentication(r: BeginRequest, now: nat, random: Option<(Text, Text)>) returns (res: Option<BeginResponse>)
      modifies this`challenges, this`sessions, this`begins
      ensures (State(), res) == BeginRow(old(State()), r, now, random)
    {
      CleanupAuthState(now);
      if !ValidUserId(r.user) || |r.clientNonce| != NonceBytes {
        return None;
      }
      var b, ok := CheckAndRecord(Bucket(begins, r.user), now, AttemptWindow, MaxAttempts);
      begins := begins[r.user := b];
      if !ok || r.user !in accounts || random.None? || random.value.0 in challenges {
        return None;
      }
      var expires := Plus(now, ChallengeSeconds);
      challenges := challenges[random.value.0 := Challenge(r.user, r.clientNonce, random.value.1, expires, false)];
      return Some(BeginResponse(random.value.0, random.value.1, expires));
    }

    method FinishTransportAuthentication(r: FinishRequest, now: nat, token: Option<Text>) returns (res: Option<FinishResponse>)
      modifies this`challenges, this`sessions, this`finishes
      ensures (State(), res) == FinishRow(old(State()), r, now, token, checks)
    {
      CleanupAuthState(now);
      if !WellFormedFinish(r) {
        return None;
      }
      var b, ok := CheckAndRecord(Bucket(finishes, r.user), now, AttemptWindow, MaxAttempts);
      finishes := finishes[r.user := b];
      if !ok || r.challengeId !in challenges {
        return None;
      }
      var c := challenges[r.challengeId];
      if c.used || now > c.expires || !Matches(c, r) {
        return None;
      }
      challenges := challenges[r.challengeId := c.(used := true)];
      if r.user !in accounts || !checks.verify(accounts[r.user], LoginInput(r), r.signature) {
        return None;
      }
      if token.None? || token.value in sessions {
        return None;
      }
      var expires := Plus(now, SessionSeconds);
      sessions := sessions[token.value := SessionRow(r.user, expires, false)];
      return Some(FinishResponse(token.value, expires));
    }

    method AuthenticateSessionToken(token: Text, now: nat) returns (user: Option<Text>)
      modifies this`challenges, this`sessions
      ensures (State(), user) == AuthenticateRow(old(State()), token, now)
    {
      CleanupAuthState(now);
      if |token| != TokenBytes || token !in sessions {
        return None;
      }
      var row := sessions[token];
      return if row.revoked || now > row.expires then None else Some(row.user);
    }

    method RevokeSessionToken(token: Text) returns (ok: bool)
      modifies this`sessions
      ensures (State(), ok) == RevokeRow(old(State()), token)
    {
      if |token| != TokenBytes || token !in sessions {
        return false;
      }
      sessions := sessions[token := sessions[token].(revoked := true)];
      return true;
    }
  }

  // ---- the tables seen as the in-memory state ----

  function Active(rows: map<Text, SessionRow>): map<Text, Session> {
    map t | t in rows && !rows[t].revoked :: Session(rows[t].user, rows[t].expires)
  }

  function View(q: Tables): AuthState {
    AuthState(q.accounts, q.challenges, Active(q.sessions), q.begins, q.finishes)
  }

  /** Drawn ids and tokens are not in the tables. */
  predicate NewRows(q: Tables, e: Event) {
    && (e.BeginEvent? && e.random.Some? ==> e.random.value.0 !in q.challenges)
    && (e.FinishEvent? && e.newToken.Some? ==> e.newToken.value !in q.sessions)
  }

  /** A state but for how far its attempt counters have been trimmed. */
  ghost predicate SameButTrimmed(s: AuthState, s': AuthState, now: nat) {
    && s.identities == s'.identities && s.challenges == s'.challenges && s.sessions == s'.sessions
    && TrimAll(s.begins, now, AttemptWindow) == TrimAll(s'.begins, now, AttemptWindow)
    && TrimAll(s.finishes, now, AttemptWindow) == TrimAll(s'.finishes, now, AttemptWindow)
  }

  lemma SameIsSimilar(s: AuthState, s': AuthState, now: nat)
    requires SameButTrimmed(s, s', now) && AllPast(s, now) && AllPast(s', now)
    ensures Similar(s, s', now)
  {
  }

  lemma PruneView(q: Tables, now: nat)
    ensures View(Prune(q, now)) == Cleanup(View(q), now).(begins := q.begins, finishes := q.finishes)
  {
    assert Active(Prune(q, now).sessions) == Unexpired(Active(q.sessions), now);
  }

  lemma PrunePast(q: Tables, now: nat)
    requires AllPast(View(q), now) && now + AttemptWindow < TWO64
    ensures SameButTrimmed(Cleanup(View(q), now), View(Prune(q, now)), now)
  {
    PruneView(q, now);
    TrimAllTwice(q.begins, now, now);
    TrimAllTwice(q.finishes, now, now);
  }

  /** Checking a bucket that was trimmed before is checking it. */
  lemma CheckTrimmed(m: Buckets<Text>, u: Text, now: nat)
    requires Past(m, now) && now + AttemptWindow < TWO64
    ensures Check(Bucket(TrimAll(m, now, AttemptWindow), u), now, AttemptWindow, MaxAttempts)
         == Check(Bucket(m, u), now, AttemptWindow, MaxAttempts)
  {
    TrimTwice(Bucket(m, u), now, now, AttemptWindow);
  }

  lemma PutTrimmed(m: Buckets<Text>, u: Text, b: Window, now: nat)
    requires Past(m, now) && now + AttemptWindow < TWO64
    ensures TrimAll(TrimAll(m, now, AttemptWindow)[u := b], now, AttemptWindow) == TrimAll(m[u := b], now, AttemptWindow)
  {
    forall k | k in m ensures Trim(Trim(m[k], now, AttemptWindow), now, AttemptWindow) == Trim(m[k], now, AttemptWindow) {
      TrimTwice(m[k], now, now, AttemptWindow);
    }
  }

  lemma RegisterView(q: Tables, r: RegisterRequest, checks: Checks)
    ensures View(RegisterRow(q, r, checks).0) == Register(View(q), r, checks).0
    ensures RegisterRow(q, r, checks).1 == Register(View(q), r, checks).1
  {
    assert Active(RevokeAll(q.sessions, r.user)) == WithoutSessionsOf(Active(q.sessions), r.user);
  }

  lemma RevokeView(q: Tables, token: Text)
    ensures View(RevokeRow(q, token).0) == Revoke(View(q), token).0
  {
    if |token| == TokenBytes && token in q.sessions {
      assert Active(q.sessions[token := q.sessions[token].(revoked := true)]) == Active(q.sessions) - {token};
    }
    RevokeIs(View(q), token);
  }

  lemma BeginAnswer(q: Tables, r: BeginRequest, now: nat, random: Option<(Text, Text)>)
    requires AllPast(View(q), now) && now + AttemptWindow < TWO64
    requires random.Some? ==> random.value.0 !in q.challenges
    ensures BeginRow(q, r, now, random).1 == Begin(View(q), r, now, random).1
  {
    CheckTrimmed(q.begins, r.user, now);
  }

  function Issued(m: map<Text, Challenge>, r: BeginRequest, a: Option<BeginResponse>): map<Text, Challenge> {
    if a.None? then m else m[a.value.challengeId := Challenge(r.user, r.clientNonce, a.value.serverNonce, a.value.expires, false)]
  }

  lemma BeginTables(q: Tables, r: BeginRequest, now: nat, random: Option<(Text, Text)>)
    ensures var (q', a) := BeginRow(q, r, now, random);
            && q'.accounts == q.accounts && q'.sessions == Prune(q, now).sessions && q'.finishes == q.finishes
            && q'.challenges == Issued(Prune(q, now).challenges, r, a)
            && q'.begins == if ValidUserId(r.user) && |r.clientNonce| == NonceBytes
                            then q.begins[r.user := Check(Bucket(q.begins, r.user), now, AttemptWindow, MaxAttempts).0] else q.begins
  {
  }

  lemma BeginState(s: AuthState, r: BeginRequest, now: nat, random: Option<(Text, Text)>)
    ensures var (s', a) := Begin(s, r, now, random);
            var c := Cleanup(s, now);
            && s'.identities == c.identities && s'.sessions == c.sessions && s'.finishes == c.finishes
            && s'.challenges == Issued(c.challenges, r, a)
            && s'.begins == if ValidUserId(r.user) && |r.clientNonce| == NonceBytes
                            then c.begins[r.user := Check(Bucket(c.begins, r.user), now, AttemptWindow, MaxAttempts).0] else c.begins
  {
  }

  lemma BeginView(q: Tables, r: BeginRequest, now: nat, random: Option<(Text, Text)>)
    requires AllPast(View(q), now) && now + AttemptWindow < TWO64
    requires random.Some? ==> random.value.0 !in q.challenges
    ensures BeginRow(q, r, now, random).1 == Begin(View(q), r, now, random).1
    ensures SameButTrimmed(Begin(View(q), r, now, random).0, View(BeginRow(q, r, now, random).0), now)
  {
    PruneView(q, now);
    PrunePast(q, now);
    CheckTrimmed(q.begins, r.user, now);
    PutTrimmed(q.begins, r.user, Check(Bucket(q.begins, r.user), now, AttemptWindow, MaxAttempts).0, now);
    BeginAnswer(q, r, now, random);
    BeginTables(q, r, now, random);
    BeginState(View(q), r, now, random);
  }

  lemma AddActive(rows: map<Text, SessionRow>, token: Text, user: Text, expires: nat)
    ensures Active(rows[token := SessionRow(user, expires, false)]) == Active(rows)[token := Session(user, expires)]
  {
  }

  lemma FinishAnswer(q: Tables, r: FinishRequest, now: nat, token: Option<Text>, checks: Checks)
    requires AllPast(View(q), now) && now + AttemptWindow < TWO64
    requires token.Some? ==> token.value !in q.sessions
    ensures FinishRow(q, r, now, token, checks).1 == Finish(View(q), r, now, token, checks).1
  {
    PruneView(q, now);
    CheckTrimmed(q.finishes, r.user, now);
  }

  /** The tables of a finish, from the answer. */
  lemma FinishTables(q: Tables, r: FinishRequest, now: nat, token: Option<Text>, checks: Checks)
    requires token.Some? ==> token.value !in q.sessions
    ensures var (q', a) := FinishRow(q, r, now, token, checks);
            && q'.accounts == q.accounts && q'.begins == q.begins
            && Active(q'.sessions) == (if a.None? then Active(Prune(q, now).sessions)
                                       else Active(Prune(q, now).sessions)[a.value.token := Session(r.user, a.value.expires)])
            && q'.finishes == if WellFormedFinish(r) then q.finishes[r.user := Check(Bucket(q.finishes, r.user), now, AttemptWindow, MaxAttempts).0]
                              else q.finishes
  {
    if token.Some? {
      AddActive(Prune(q, now).sessions, token.value, r.user, Plus(now, SessionSeconds));
    }
  }

  lemma FinishState(s: AuthState, r: FinishRequest, now: nat, token: Option<Text>, checks: Checks)
    ensures var (s', a) := Finish(s, r, now, token, checks);
            && s'.identities == s.identities && s'.begins == Cleanup(s, now).begins
            && s'.sessions == (if a.None? then Cleanup(s, now).sessions
                               else Cleanup(s, now).sessions[a.value.token := Session(r.user, a.value.expires)])
            && s'.finishes == if WellFormedFinish(r)
                              then Cleanup(s, now).finishes[r.user := Check(Bucket(Cleanup(s, now).finishes, r.user), now, AttemptWindow, MaxAttempts).0]
                              else Cleanup(s, now).finishes
  {
  }

  /** The challenges after an attempt whose rate check came out as `ok`. */
  function Used(m: map<Text, Challenge>, r: FinishRequest, now: nat, ok: bool): map<Text, Challenge> {
    if WellFormedFinish(r) && ok && r.challengeId in m && !m[r.challengeId].used && Matches(m[r.challengeId], r) && now <= m[r.challengeId].expires
    then m[r.challengeId := m[r.challengeId].(used := true)] else m
  }

  lemma UsedInTables(q: Tables, r: FinishRequest, now: nat, token: Option<Text>, checks: Checks)
    ensures FinishRow(q, r, now, token, checks).0.challenges
         == Used(LiveOnly(q.challenges, now), r, now, Check(Bucket(q.finishes, r.user), now, AttemptWindow, MaxAttempts).1)
  {
  }

  lemma UsedInMemory(s: AuthState, r: FinishRequest, now: nat, token: Option<Text>, checks: Checks)
    ensures Finish(s, r, now, token, checks).0.challenges
         == Used(LiveOnly(s.challenges, now), r, now, Check(Bucket(Cleanup(s, now).finishes, r.user), now, AttemptWindow, MaxAttempts).1)
  {
  }

  lemma FinishChallenges(q: Tables, r: FinishRequest, now: nat, token: Option<Text>, checks: Checks)
    requires AllPast(View(q), now) && now + AttemptWindow < TWO64
    ensures FinishRow(q, r, now, token, checks).0.challenges == Finish(View(q), r, now, token, checks).0.challenges
  {
    CheckTrimmed(q.finishes, r.user, now);
    UsedInTables(q, r, now, token, checks);
    UsedInMemory(View(q), r, now, token, checks);
  }

  lemma FinishView(q: Tables, r: FinishRequest, now: nat, token: Option<Text>, checks: Checks)
    requires AllPast(View(q), now) && now + AttemptWindow < TWO64
    requires token.Some? ==> token.value !in q.sessions
    ensures FinishRow(q, r, now, token, checks).1 == Finish(View(q), r, now, token, checks).1
    ensures SameButTrimmed(Finish(View(q), r, now, token, checks).0, View(FinishRow(q, r, now, token, checks).0), now)
  {
    PruneView(q, now);
    PrunePast(q, now);
    CheckTrimmed(q.finishes, r.user, now);
    PutTrimmed(q.finishes, r.user, Check(Bucket(q.finishes, r.user), now, AttemptWindow, MaxAttempts).0, now);
    FinishAnswer(q, r, now, token, checks);
    FinishTables(q, r, now, token, checks);
    FinishState(View(q), r, now, token, checks);
    FinishChallenges(q, r, now, token, checks);
  }

  lemma TokenView(q: Tables, token: Text, now: nat)
    ensures AuthenticateRow(q, token, now).1 == Authenticate(View(q), token, now).1
  {
    PruneView(q, now);
  }

  /** One event on the tables: the answer of the in-memory server on what they show, and tables that
      show its next state but for trimming. */
  lemma RowStepView(q: Tables, e: Event, now: nat, checks: Checks)
    requires AllPast(View(q), now) && now + AttemptWindow < TWO64 && (Timed(e) ==> e.now == now) && NewRows(q, e)
    ensures AllPast(View(RowStep(q, e, checks).0), now)
    ensures Similar(Step(View(q), e, checks).0, View(RowStep(q, e, checks).0), now)
    ensures e.RevokeEvent? || Step(View(q), e, checks).1 == RowStep(q, e, checks).1
  {
    StepPast(View(q), e, now, checks);
    var s, v := Step(View(q), e, checks).0, View(RowStep(q, e, checks).0);
    RowStepPast(q, e, now, checks);
    match e
    case RegisterEvent(r) => RegisterView(q, r, checks);
    case BeginEvent(r, _, random) =>
      BeginView(q, r, now, random);
      SameIsSimilar(s, v, now);
    case FinishEvent(r, _, token) =>
      FinishView(q, r, now, token, checks);
      SameIsSimilar(s, v, now);
    case TokenEvent(token, _) =>
      TokenView(q, token, now);
      PrunePast(q, now);
      SameIsSimilar(s, v, now);
    case RevokeEvent(token) => RevokeView(q, token);
    case CleanupEvent(_) =>
      PrunePast(q, now);
      SameIsSimilar(s, v, now);
  }

  lemma RowStepPast(q: Tables, e: Event, now: nat, checks: Checks)
    requires AllPast(View(q), now) && now + AttemptWindow < TWO64 && (Timed(e) ==> e.now == now)
    ensures AllPast(View(RowStep(q, e, checks).0), now)
  {
    if e.BeginEvent? {
      PutPast(q.begins, e.begin.user, now);
    } else if e.FinishEvent? {
      PutPast(q.finishes, e.finish.user, now);
    }
  }

  predicate NewRowsRun(q: Tables, events: seq<Event>, checks: Checks)
    decreases |events|
  {
    events == [] || (NewRows(q, events[0]) && NewRowsRun(RowStep(q, events[0], checks).0, events[1..], checks))
  }

  function RowRun(q: Tables, events: seq<Event>, checks: Checks): Tables
    decreases |events|
  {
    if events == [] then q else RowRun(RowStep(q, events[0], checks).0, events[1..], checks)
  }

  /** The answers but for those of cleanups and revocations. */
  function RowAnswers(q: Tables, events: seq<Event>, checks: Checks): seq<Answer>
    decreases |events|
  {
    if events == [] then [] else
    var (q', a) := RowStep(q, events[0], checks);
    (if a.Cleaned? || a.Revoked? then [] else [a]) + RowAnswers(q', events[1..], checks)
  }

  lemma SimilarTrans(a: AuthState, b: AuthState, c: AuthState, now: nat)
    requires Similar(a, b, now) && Similar(b, c, now)
    ensures Similar(a, c, now)
  {
  }

  /** The last time of a run, or `now` if nothing in it looks at the clock. */
  function LastTime(events: seq<Event>, now: nat): nat {
    if events == [] then now else LastTime(events[1..], if Timed(events[0]) then events[0].now else now)
  }

  /** All times, those of expiry included, are below 2^63, where the casts to the signed columns of the
      tables change nothing. */
  predicate SignedTimes(events: seq<Event>) {
    LastTime(events, 0) + SessionSeconds < TWO63
  }

  lemma {:induction false} RunsAlike(w: World, q: Tables, events: seq<Event>, now: nat, checks: Checks)
    requires Similar(w.auth, View(q), now) && now + AttemptWindow < TWO64
    requires InOrder(events, now) && NewRowsRun(q, events, checks)
    ensures Answers(w.auth, events, checks) == RowAnswers(q, events, checks)
    ensures Similar(AuthRuns.Run(w, events, checks).auth, View(RowRun(q, events, checks)), LastTime(events, now))
    ensures now <= LastTime(events, now) && LastTime(events, now) + AttemptWindow < TWO64
    decreases |events|
  {
    if events != [] {
      var e := events[0];
      var t := if Timed(e) then e.now else now;
      SimilarLater(w.auth, View(q), now, t);
      StepSimilar(w.auth, View(q), e, t, checks);
      RowStepView(q, e, t, checks);
      SimilarTrans(Step(w.auth, e, checks).0, Step(View(q), e, checks).0, View(RowStep(q, e, checks).0), t);
      RunsAlike(AuthRuns.Advance(w, e, checks), RowStep(q, e, checks).0, events[1..], t, checks);
    }
  }

  // ---- all answers, those to revocations included ----

  /** The same accounts, challenges and live sessions, cleaned up at the same times; the attempt
      counters agree but for trimming. */
  ghost predicate Shows(s: AuthState, q: Tables, now: nat) {
    && s.identities == q.accounts && s.challenges == q.challenges && s.sessions == Active(q.sessions)
    && Similar(s, View(q), now)
  }

  /** A revocation that does not name a row that is revoked already. */
  predicate RevokesOnce(q: Tables, e: Event) {
    e.RevokeEvent? && |e.token| == TokenBytes && e.token in q.sessions ==> !q.sessions[e.token].revoked
  }

  lemma RegisterSame(s: AuthState, v: AuthState, r: RegisterRequest, checks: Checks)
    requires s.identities == v.identities && s.challenges == v.challenges && s.sessions == v.sessions
    ensures var (s', a) := Register(s, r, checks);
            var (v', b) := Register(v, r, checks);
            a == b && s'.identities == v'.identities && s'.challenges == v'.challenges && s'.sessions == v'.sessions
  {
  }

  lemma RevokeSame(s: AuthState, q: Tables, token: Text)
    requires s.identities == q.accounts && s.challenges == q.challenges && s.sessions == Active(q.sessions)
    ensures var s', q' := Revoke(s, token).0, RevokeRow(q, token).0;
            s'.identities == q'.accounts && s'.challenges == q'.challenges && s'.sessions == Active(q'.sessions)
    ensures Revoke(s, token).1 == RevokeRow(q, token).1
            <==> (|token| == TokenBytes && token in q.sessions ==> !q.sessions[token].revoked)
  {
    if |token| == TokenBytes && token in q.sessions {
      assert Active(q.sessions[token := q.sessions[token].(revoked := true)]) == Active(q.sessions) - {token};
      assert token !in s.sessions ==> s.sessions - {token} == s.sessions;
    }
  }

  lemma UntimedShows(s: AuthState, q: Tables, e: Event, checks: Checks)
    requires s.identities == q.accounts && s.challenges == q.challenges && s.sessions == Active(q.sessions)
    requires e.RegisterEvent? || e.RevokeEvent?
    ensures var s', q' := Step(s, e, checks).0, RowStep(q, e, checks).0;
            s'.identities == q'.accounts && s'.challenges == q'.challenges && s'.sessions == Active(q'.sessions)
    ensures Step(s, e, checks).1 == RowStep(q, e, checks).1 <==> RevokesOnce(q, e)
  {
    if e.RegisterEvent? {
      RegisterView(q, e.reg, checks);
      RegisterSame(s, View(q), e.reg, checks);
    } else {
      RevokeSame(s, q, e.token);
    }
  }

  lemma TimedShows(s: AuthState, q: Tables, e: Event, now: nat, checks: Checks)
    requires Shows(s, q, now) && now + AttemptWindow < TWO64 && Timed(e) && e.now == now && NewRows(q, e)
    ensures var s', q' := Step(s, e, checks).0, RowStep(q, e, checks).0;
            s'.identities == q'.accounts && s'.challenges == q'.challenges && s'.sessions == Active(q'.sessions)
    ensures Step(s, e, checks).1 == RowStep(q, e, checks).1
  {
    assert Step(s, e, checks) == Step(View(q), e, checks);
    match e
    case BeginEvent(r, _, random) => BeginView(q, r, now, random);
    case FinishEvent(r, _, token) => FinishView(q, r, now, token, checks);
    case TokenEvent(token, _) =>
      TokenView(q, token, now);
      PrunePast(q, now);
    case CleanupEvent(_) => PrunePast(q, now);
  }

  lemma StepShows(s: AuthState, q: Tables, e: Event, now: nat, checks: Checks)
    requires Shows(s, q, now) && now + AttemptWindow < TWO64 && (Timed(e) ==> e.now == now) && NewRows(q, e)
    ensures Shows(Step(s, e, checks).0, RowStep(q, e, checks).0, now)
    ensures Step(s, e, checks).1 == RowStep(q, e, checks).1 <==> RevokesOnce(q, e)
  {
    StepSimilar(s, View(q), e, now, checks);
    RowStepView(q, e, now, checks);
    SimilarTrans(Step(s, e, checks).0, Step(View(q), e, checks).0, View(RowStep(q, e, checks).0), now);
    if Timed(e) {
      TimedShows(s, q, e, now, checks);
    } else {
      UntimedShows(s, q, e, checks);
    }
  }

  function AllAnswers(s: AuthState, events: seq<Event>, checks: Checks): seq<Answer>
    decreases |events|
  {
    if events == [] then [] else [Step(s, events[0], checks).1] + AllAnswers(Step(s, events[0], checks).0, events[1..], checks)
  }

  function AllRowAnswers(q: Tables, events: seq<Event>, checks: Checks): seq<Answer>
    decreases |events|
  {
    if events == [] then [] else [RowStep(q, events[0], checks).1] + AllRowAnswers(RowStep(q, events[0], checks).0, events[1..], checks)
  }

  predicate RevokesOnceRun(q: Tables, events: seq<Event>, checks: Checks)
    decreases |events|
  {
    events == [] || (RevokesOnce(q, events[0]) && RevokesOnceRun(RowStep(q, events[0], checks).0, events[1..], checks))
  }

  lemma {:induction false} RunsShow(s: AuthState, q: Tables, events: seq<Event>, now: nat, checks: Checks)
    requires Shows(s, q, now) && now + AttemptWindow < TWO64
    requires InOrder(events, now) && NewRowsRun(q, events, checks)
    ensures AllAnswers(s, events, checks) == AllRowAnswers(q, events, checks) <==> RevokesOnceRun(q, events, checks)
    decreases |events|
  {
    if events != [] {
      var e := events[0];
      var t := if Timed(e) then e.now else now;
      SimilarLater(s, View(q), now, t);
      StepShows(s, q, e, t, checks);
      var s', q' := Step(s, e, checks).0, RowStep(q, e, checks).0;
      RunsShow(s', q', events[1..], t, checks);
      var a, b := AllAnswers(s, events, checks), AllRowAnswers(q, events, checks);
      assert a[0] == Step(s, e, checks).1 && a[1..] == AllAnswers(s', events[1..], checks);
      assert b[0] == RowStep(q, e, checks).1 && b[1..] == AllRowAnswers(q', events[1..], checks);
    }
  }

  /** The SQLite store answers registrations, logins and token checks as the in-memory server does,
      in every run with times in order and random values that are not in the tables; and it gives
      all its answers alike if and only if the run never revokes a row that is revoked already. */
  lemma SqliteAuthRefines(events: seq<Event>, checks: Checks)
    requires InOrder(events, 0) && NewRowsRun(EmptyTables(), events, checks) && SignedTimes(events)
    ensures Answers(EmptyAuth(), events, checks) == RowAnswers(EmptyTables(), events, checks)
    ensures AllAnswers(EmptyAuth(), events, checks) == AllRowAnswers(EmptyTables(), events, checks)
            <==> RevokesOnceRun(EmptyTables(), events, checks)
  {
    RunsAlike(EmptyWorld(), EmptyTables(), events, 0, checks);
    RunsShow(EmptyAuth(), EmptyTables(), events, 0, checks);
  }

  /** So live sessions of the SQLite store, too, are bound to the key that is registered now. */
  lemma SqliteSessionBinding(events: seq<Event>, token: Text, now: nat, checks: Checks)
    requires InOrder(events, 0) && NewRowsRun(EmptyTables(), events, checks) && SignedTimes(events)
    requires LastTime(events, 0) <= now && now + AttemptWindow < TWO64
    ensures var q := RowRun(EmptyTables(), events, checks);
            var user := AuthenticateRow(q, token, now).1;
            user.Some? ==>
              && user.value in q.accounts
              && exists i :: i in AuthRuns.Run(EmptyWorld(), events, checks).issues
                             && IssuedFor(i, token, user.value, q.accounts[user.value], checks)
  {
    RunsAlike(EmptyWorld(), EmptyTables(), events, 0, checks);
    var w, q := AuthRuns.Run(EmptyWorld(), events, checks), RowRun(EmptyTables(), events, checks);
    SimilarLater(w.auth, View(q), LastTime(events, 0), now);
    TokenView(q, token, now);
    LiveSessionBinding(events, token, now, checks);
  }

  lemma {:induction false} RunShows(w: World, q: Tables, events: seq<Event>, now: nat, checks: Checks)
    requires Shows(w.auth, q, now) && now + AttemptWindow < TWO64
    requires InOrder(events, now) && NewRowsRun(q, events, checks)
    ensures Shows(AuthRuns.Run(w, events, checks).auth, RowRun(q, events, checks), LastTime(events, now))
    decreases |events|
  {
    if events != [] {
      var e := events[0];
      var t := if Timed(e) then e.now else now;
      SimilarLater(w.auth, View(q), now, t);
      StepShows(w.auth, q, e, t, checks);
      RunShows(AuthRuns.Advance(w, e, checks), RowStep(q, e, checks).0, events[1..], t, checks);
    }
  }

  /** After every run the two stores answer the next revocation alike if and only if it does not name
      a row that is revoked already. */
  lemma RevokeAlikeIff(events: seq<Event>, token: Text, checks: Checks)
    requires InOrder(events, 0) && NewRowsRun(EmptyTables(), events, checks) && SignedTimes(events)
    ensures var q := RowRun(EmptyTables(), events, checks);
            RevokeRow(q, token).1 == Revoke(AuthRuns.Run(EmptyWorld(), events, checks).auth, token).1
            <==> |token| != TokenBytes || token !in q.sessions || !q.sessions[token].revoked
  {
    RunShows(EmptyWorld(), EmptyTables(), events, 0, checks);
  }
}
