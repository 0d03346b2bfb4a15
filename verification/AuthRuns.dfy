/** What every run of registrations, logins, token checks, revocations and cleanups keeps. */
module AuthRuns {
  import opened Wrappers
  import opened Bytes
  import opened UserIds
  import opened RateLimits
  import opened SignInputs
  import opened AuthSpec

  datatype Event =
    | RegisterEvent(reg: RegisterRequest)
    | BeginEvent(begin: BeginRequest, now: nat, random: Option<(Text, Text)>)
    | FinishEvent(finish: FinishRequest, now: nat, newToken: Option<Text>)
    | TokenEvent(token: Text, now: nat)
    | RevokeEvent(token: Text)
    | CleanupEvent(now: nat)

  datatype Answer =
    | Registered(ok: bool)
    | Begun(begun: Option<BeginResponse>)
    | Finished(finished: Option<FinishResponse>)
    | Authenticated(user: Option<Text>)
    | Revoked(ok: bool)
    | Cleaned

  function Step(s: AuthState, e: Event, checks: Checks): (AuthState, Answer) {
    match e
    case RegisterEvent(r) => var (s', ok) := Register(s, r, checks); (s', Registered(ok))
    case BeginEvent(r, now, random) => var (s', a) := Begin(s, r, now, random); (s', Begun(a))
    case FinishEvent(r, now, token) => var (s', a) := Finish(s, r, now, token, checks); (s', Finished(a))
    case TokenEvent(token, now) => var (s', a) := Authenticate(s, token, now); (s', Authenticated(a))
    case RevokeEvent(token) => var (s', ok) := Revoke(s, token); (s', Revoked(ok))
    case CleanupEvent(now) => (Cleanup(s, now), Cleaned)
  }

  /** A session was issued: its token, the key registered at that time and the login request. */
  datatype Issue = Issue(token: Text, key: Text, request: FinishRequest)

  /** The server with the sessions it has issued and the challenge ids it has given out. */
  datatype World = World(auth: AuthState, issues: seq<Issue>, ids: seq<Text>)

  function Advance(w: World, e: Event, checks: Checks): World {
    var (s, a) := Step(w.auth, e, checks);
    var issues := if a.Finished? && a.finished.Some? && e.FinishEvent? && e.finish.user in w.auth.identities
                  then w.issues + [Issue(a.finished.value.token, w.auth.identities[e.finish.user], e.finish)] else w.issues;
    World(s, issues, if a.Begun? && a.begun.Some? then w.ids + [a.begun.value.challengeId] else w.ids)
  }

  function Run(w: World, events: seq<Event>, checks: Checks): World
    decreases |events|
  {
    if events == [] then w else Run(Advance(w, events[0], checks), events[1..], checks)
  }

  function EmptyWorld(): World {
    World(EmptyAuth(), [], [])
  }

  // ---- sessions are bound to the registered key ----

  /** The session comes from a signature over its challenge that verifies under `key`. */
  predicate IssuedFor(i: Issue, token: Text, user: Text, key: Text, checks: Checks) {
    i.token == token && i.request.user == user && i.key == key && checks.verify(key, LoginInput(i.request), i.request.signature)
  }

  ghost predicate Vouched(w: World, token: Text, checks: Checks)
    requires token in w.auth.sessions
  {
    var user := w.auth.sessions[token].user;
    user in w.auth.identities && exists i :: i in w.issues && IssuedFor(i, token, user, w.auth.identities[user], checks)
  }

  ghost predicate Bound(w: World, checks: Checks) {
    forall t :: t in w.auth.sessions ==> Vouched(w, t, checks)
  }

  /** A step that keeps a session and its user's key, and forgets no issue, keeps it vouched for. */
  lemma StillVouched(w: World, w': World, t: Text, checks: Checks)
    requires t in w.auth.sessions && Vouched(w, t, checks) && t in w'.auth.sessions && w'.auth.sessions[t] == w.auth.sessions[t]
    requires var user := w.auth.sessions[t].user; user in w'.auth.identities && w'.auth.identities[user] == w.auth.identities[user]
    requires w.issues <= w'.issues
    ensures Vouched(w', t, checks)
  {
    var user := w.auth.sessions[t].user;
    var i :| i in w.issues && IssuedFor(i, t, user, w.auth.identities[user], checks);
    assert i in w'.issues;
  }

  lemma FinishBinds(w: World, e: Event, checks: Checks)
    requires Bound(w, checks) && e.FinishEvent?
    ensures Bound(Advance(w, e, checks), checks)
  {
    var w' := Advance(w, e, checks);
    var r := e.finish;
    forall t | t in w'.auth.sessions ensures Vouched(w', t, checks) {
      var a := Finish(w.auth, r, e.now, e.newToken, checks).1;
      if a.Some? && t == a.value.token {
        var i := Issue(t, w.auth.identities[r.user], r);
        assert w'.issues[|w.issues|] == i;
        assert IssuedFor(i, t, r.user, w'.auth.identities[r.user], checks);
      } else {
        StillVouched(w, w', t, checks);
      }
    }
  }

  /** Every session after the step was there before, and its user's key is the same. */
  ghost predicate KeepsKeys(s: AuthState, s': AuthState) {
    forall t :: t in s'.sessions ==>
      && t in s.sessions && s'.sessions[t] == s.sessions[t]
      && (var user := s.sessions[t].user; user in s.identities ==> user in s'.identities && s'.identities[user] == s.identities[user])
  }

  lemma StepKeepsKeys(s: AuthState, e: Event, checks: Checks)
    requires !e.FinishEvent?
    ensures KeepsKeys(s, Step(s, e, checks).0)
  {
  }

  lemma KeysKept(w: World, w': World, checks: Checks)
    requires Bound(w, checks) && KeepsKeys(w.auth, w'.auth) && w'.issues == w.issues
    ensures Bound(w', checks)
  {
    forall t | t in w'.auth.sessions ensures Vouched(w', t, checks) {
      assert Vouched(w, t, checks);
      StillVouched(w, w', t, checks);
    }
  }

  lemma StepBinds(w: World, e: Event, checks: Checks)
    requires Bound(w, checks)
    ensures Bound(Advance(w, e, checks), checks)
  {
    if e.FinishEvent? {
      FinishBinds(w, e, checks);
    } else {
      StepKeepsKeys(w.auth, e, checks);
      KeysKept(w, Advance(w, e, checks), checks);
    }
  }

  /** Live-session binding. In every reachable state a token that authenticates was issued on a
      signature that verifies under the key its user has registered now. */
  lemma {:induction false} LiveSessionsBound(w: World, events: seq<Event>, checks: Checks)
    requires Bound(w, checks)
    ensures Bound(Run(w, events, checks), checks)
    decreases |events|
  {
    if events != [] {
      StepBinds(w, events[0], checks);
      LiveSessionsBound(Advance(w, events[0], checks), events[1..], checks);
    }
  }

  lemma LiveSessionBinding(events: seq<Event>, token: Text, now: nat, checks: Checks)
    ensures var w := Run(EmptyWorld(), events, checks);
            var user := Authenticate(w.auth, token, now).1;
            user.Some? ==>
              && user.value in w.auth.identities
              && exists i :: i in w.issues && IssuedFor(i, token, user.value, w.auth.identities[user.value], checks)
  {
    LiveSessionsBound(EmptyWorld(), events, checks);
    var w := Run(EmptyWorld(), events, checks);
    if Authenticate(w.auth, token, now).1.Some? {
      assert Vouched(w, token, checks);
    }
  }

  // ---- a challenge is used once ----

  /** Challenge ids are drawn fresh. */
  predicate NewId(w: World, e: Event) {
    e.BeginEvent? && e.random.Some? ==> e.random.value.0 !in w.ids
  }

  predicate NewIds(w: World, events: seq<Event>, checks: Checks)
    decreases |events|
  {
    events == [] || (NewId(w, events[0]) && NewIds(Advance(w, events[0], checks), events[1..], checks))
  }

  /** No finish can succeed with this id any more. */
  predicate Spent(w: World, id: Text) {
    id in w.ids && (id in w.auth.challenges ==> w.auth.challenges[id].used)
  }

  /** The attempt that uses its challenge up: well-formed, within the rate limit, and on an
      unexpired, unused challenge with the same fields. */
  predicate Consumes(s: AuthState, r: FinishRequest, now: nat) {
    && WellFormedFinish(r)
    && Check(Bucket(Cleanup(s, now).finishes, r.user), now, AttemptWindow, MaxAttempts).1
    && r.challengeId in s.challenges && !s.challenges[r.challengeId].used
    && Matches(s.challenges[r.challengeId], r) && now <= s.challenges[r.challengeId].expires
  }

  /** A finish uses up its challenge exactly when `Consumes` says so, whether or not the signature
      verifies, and issues a session exactly when the signature verifies as well. */
  lemma FinishConsumes(s: AuthState, r: FinishRequest, now: nat, token: Option<Text>, checks: Checks)
    ensures var (s', a) := Finish(s, r, now, token, checks);
            && (a.Some? <==> Consumes(s, r, now) && r.user in s.identities && token.Some?
                             && checks.verify(s.identities[r.user], LoginInput(r), r.signature))
            && (Consumes(s, r, now) <==> r.challengeId in s'.challenges && s'.challenges[r.challengeId].used)
            && (forall id :: id in s'.challenges && id != r.challengeId ==> !s'.challenges[id].used)
            && (!Consumes(s, r, now) ==> s'.challenges == Cleanup(s, now).challenges)
  {
  }

  ghost predicate OncePerChallenge(w: World) {
    && (forall i, j :: 0 <= i < j < |w.issues| ==> w.issues[i].request.challengeId != w.issues[j].request.challengeId)
    && (forall i :: 0 <= i < |w.issues| ==> Spent(w, w.issues[i].request.challengeId))
    && (forall id :: id in w.auth.challenges ==> id in w.ids)
  }

  lemma StaysSpent(w: World, e: Event, id: Text, checks: Checks)
    requires Spent(w, id) && NewId(w, e)
    ensures Spent(Advance(w, e, checks), id)
    ensures e.FinishEvent? && e.finish.challengeId == id ==> Step(w.auth, e, checks).1 == Finished(None)
  {
    if e.FinishEvent? {
      FinishConsumes(w.auth, e.finish, e.now, e.newToken, checks);
    }
  }

  lemma FinishOnce(w: World, e: Event, checks: Checks)
    requires OncePerChallenge(w) && e.FinishEvent?
    ensures OncePerChallenge(Advance(w, e, checks))
  {
    var w' := Advance(w, e, checks);
    FinishConsumes(w.auth, e.finish, e.now, e.newToken, checks);
    forall i | 0 <= i < |w'.issues| ensures Spent(w', w'.issues[i].request.challengeId) {
      if i < |w.issues| {
        StaysSpent(w, e, w.issues[i].request.challengeId, checks);
      }
    }
  }

  lemma StepOnce(w: World, e: Event, checks: Checks)
    requires OncePerChallenge(w) && NewId(w, e)
    ensures OncePerChallenge(Advance(w, e, checks))
  {
    if e.FinishEvent? {
      FinishOnce(w, e, checks);
    } else {
      var w' := Advance(w, e, checks);
      forall i | 0 <= i < |w'.issues| ensures Spent(w', w'.issues[i].request.challengeId) {
        StaysSpent(w, e, w.issues[i].request.challengeId, checks);
      }
    }
  }

  /** Challenge consumption. In every run each challenge yields at most one session. */
  lemma {:induction false} RunOnce(w: World, events: seq<Event>, checks: Checks)
    requires OncePerChallenge(w) && NewIds(w, events, checks)
    ensures OncePerChallenge(Run(w, events, checks))
    decreases |events|
  {
    if events != [] {
      StepOnce(w, events[0], checks);
      RunOnce(Advance(w, events[0], checks), events[1..], checks);
    }
  }

  lemma OneSessionPerChallenge(events: seq<Event>, checks: Checks, i: nat, j: nat)
    requires NewIds(EmptyWorld(), events, checks) && i < j < |Run(EmptyWorld(), events, checks).issues|
    ensures var issues := Run(EmptyWorld(), events, checks).issues;
            issues[i].request.challengeId != issues[j].request.challengeId
  {
    RunOnce(EmptyWorld(), events, checks);
  }

  /** Once an attempt has used its challenge up, no later attempt on it succeeds. */
  lemma {:induction false} SpentForever(w: World, events: seq<Event>, id: Text, k: nat, checks: Checks)
    requires Spent(w, id) && NewIds(w, events, checks)
    requires k < |events| && events[k].FinishEvent? && events[k].finish.challengeId == id
    ensures Step(Run(w, events[..k], checks).auth, events[k], checks).1 == Finished(None)
    decreases |events|
  {
    StaysSpent(w, events[0], id, checks);
    if k == 0 {
      assert events[..0] == [];
    } else {
      assert events[..k][0] == events[0] && events[..k][1..] == events[1..][..k-1];
      SpentForever(Advance(w, events[0], checks), events[1..], id, k - 1, checks);
    }
  }

  lemma FirstAttemptSpends(w: World, r: FinishRequest, now: nat, token: Option<Text>, checks: Checks)
    requires Consumes(w.auth, r, now) && r.challengeId in w.ids
    ensures Spent(Advance(w, FinishEvent(r, now, token), checks), r.challengeId)
  {
    FinishConsumes(w.auth, r, now, token, checks);
  }

  // ---- cleanup is invisible ----

  /** All recorded attempts lie in the past. */
  ghost predicate Past(m: Buckets<Text>, now: nat) {
    forall k :: k in m ==> NotAfter(m[k], now)
  }

  ghost predicate AllPast(s: AuthState, now: nat) {
    Past(s.begins, now) && Past(s.finishes, now)
  }

  lemma TrimAllTwice(m: Buckets<Text>, t: nat, now: nat)
    requires Past(m, t) && t <= now && now + AttemptWindow < TWO64
    ensures TrimAll(TrimAll(m, t, AttemptWindow), now, AttemptWindow) == TrimAll(m, now, AttemptWindow)
    ensures Past(TrimAll(m, t, AttemptWindow), t)
  {
    forall k | k in m
      ensures Trim(Trim(m[k], t, AttemptWindow), now, AttemptWindow) == Trim(m[k], now, AttemptWindow)
      ensures NotAfter(Trim(m[k], t, AttemptWindow), t)
    {
      TrimTwice(m[k], t, now, AttemptWindow);
      TrimTwice(m[k], t, t, AttemptWindow);
    }
  }

  /** Cleaning up early makes no difference to cleaning up later. */
  lemma CleanupTwice(s: AuthState, t: nat, now: nat)
    requires AllPast(s, t) && t <= now && now + AttemptWindow < TWO64
    ensures Cleanup(Cleanup(s, t), now) == Cleanup(s, now) && AllPast(Cleanup(s, t), t)
  {
    TrimAllTwice(s.begins, t, now);
    TrimAllTwice(s.finishes, t, now);
  }

  /** The two states are the same once cleaned up at `now`. */
  ghost predicate Similar(s: AuthState, s': AuthState, now: nat) {
    AllPast(s, now) && AllPast(s', now) && Cleanup(s, now) == Cleanup(s', now)
  }

  lemma SimilarLater(s: AuthState, s': AuthState, t: nat, now: nat)
    requires Similar(s, s', t) && t <= now && now + AttemptWindow < TWO64
    ensures Similar(s, s', now)
  {
    CleanupTwice(s, t, now);
    CleanupTwice(s', t, now);
  }

  lemma UnexpiredCommutes(m: map<Text, Session>, user: Text, token: Text, now: nat)
    ensures Unexpired(WithoutSessionsOf(m, user), now) == WithoutSessionsOf(Unexpired(m, now), user)
    ensures Unexpired(m - {token}, now) == Unexpired(m, now) - {token}
  {
  }

  lemma WithSessions(s: AuthState, m: map<Text, Session>, now: nat)
    ensures Cleanup(s.(sessions := m), now) == Cleanup(s, now).(sessions := Unexpired(m, now))
  {
  }

  lemma WithIdentities(s: AuthState, m: map<Text, Text>, now: nat)
    ensures Cleanup(s.(identities := m), now) == Cleanup(s, now).(identities := m)
  {
  }

  lemma RegisterCommutes(s: AuthState, r: RegisterRequest, now: nat, checks: Checks)
    ensures Cleanup(Register(s, r, checks).0, now) == Register(Cleanup(s, now), r, checks).0
    ensures Register(s, r, checks).1 == Register(Cleanup(s, now), r, checks).1
  {
    var s1 := s.(identities := s.identities[r.user := r.key]);
    WithIdentities(s, s1.identities, now);
    WithSessions(s1, WithoutSessionsOf(s.sessions, r.user), now);
    UnexpiredCommutes(s.sessions, r.user, [], now);
  }

  lemma RevokeIs(s: AuthState, token: Text)
    ensures Revoke(s, token).0 == if |token| != TokenBytes then s else s.(sessions := s.sessions - {token})
  {
    assert token !in s.sessions ==> s.sessions - {token} == s.sessions;
  }

  lemma RevokeCommutes(s: AuthState, token: Text, now: nat)
    ensures Cleanup(Revoke(s, token).0, now) == Revoke(Cleanup(s, now), token).0
  {
    RevokeIs(s, token);
    RevokeIs(Cleanup(s, now), token);
    WithSessions(s, s.sessions - {token}, now);
    UnexpiredCommutes(s.sessions, [], token, now);
  }

  predicate Timed(e: Event) {
    e.BeginEvent? || e.FinishEvent? || e.TokenEvent? || e.CleanupEvent?
  }

  lemma CheckPast(b: Window, now: nat)
    requires NotAfter(b, now) && now + AttemptWindow < TWO64
    ensures NotAfter(Check(b, now, AttemptWindow, MaxAttempts).0, now)
  {
    TrimTwice(b, now, now, AttemptWindow);
  }

  lemma PutPast(m: Buckets<Text>, k: Text, now: nat)
    requires Past(m, now) && now + AttemptWindow < TWO64
    ensures Past(m[k := Check(Bucket(m, k), now, AttemptWindow, MaxAttempts).0], now)
  {
    CheckPast(Bucket(m, k), now);
  }

  lemma BeginPast(s: AuthState, r: BeginRequest, now: nat, random: Option<(Text, Text)>)
    requires AllPast(s, now) && now + AttemptWindow < TWO64
    ensures AllPast(Begin(s, r, now, random).0, now)
  {
    CleanupTwice(s, now, now);
    PutPast(Cleanup(s, now).begins, r.user, now);
  }

  lemma FinishPast(s: AuthState, r: FinishRequest, now: nat, token: Option<Text>, checks: Checks)
    requires AllPast(s, now) && now + AttemptWindow < TWO64
    ensures AllPast(Finish(s, r, now, token, checks).0, now)
  {
    CleanupTwice(s, now, now);
    PutPast(Cleanup(s, now).finishes, r.user, now);
  }

  lemma StepPast(s: AuthState, e: Event, now: nat, checks: Checks)
    requires AllPast(s, now) && now + AttemptWindow < TWO64 && (Timed(e) ==> e.now == now)
    ensures AllPast(Step(s, e, checks).0, now)
  {
    match e
    case BeginEvent(r, _, random) => BeginPast(s, r, now, random);
    case FinishEvent(r, _, token) => FinishPast(s, r, now, token, checks);
    case TokenEvent(_, _) => CleanupTwice(s, now, now);
    case CleanupEvent(_) => CleanupTwice(s, now, now);
    case _ =>
  }

  lemma StepSimilar(s: AuthState, s': AuthState, e: Event, now: nat, checks: Checks)
    requires Similar(s, s', now) && now + AttemptWindow < TWO64 && (Timed(e) ==> e.now == now)
    ensures Similar(Step(s, e, checks).0, Step(s', e, checks).0, now)
    ensures e.RevokeEvent? || Step(s, e, checks).1 == Step(s', e, checks).1
  {
    StepPast(s, e, now, checks);
    StepPast(s', e, now, checks);
    if e.RegisterEvent? {
      RegisterCommutes(s, e.reg, now, checks);
      RegisterCommutes(s', e.reg, now, checks);
    } else if e.RevokeEvent? {
      RevokeCommutes(s, e.token, now);
      RevokeCommutes(s', e.token, now);
    }
  }

  /** Times never go back and stay away from the end of the 64-bit range. */
  predicate InOrder(events: seq<Event>, now: nat) {
    events == [] || if Timed(events[0]) then now <= events[0].now && events[0].now + AttemptWindow < TWO64 && InOrder(events[1..], events[0].now)
                    else InOrder(events[1..], now)
  }

  function WithoutCleanups(events: seq<Event>): seq<Event> {
    if events == [] then [] else
    if events[0].CleanupEvent? then WithoutCleanups(events[1..]) else [events[0]] + WithoutCleanups(events[1..])
  }

  /** The answers of a run but for those of cleanups and of revocations, which tell an expired
      session that is still there from one that is gone. */
  function Answers(s: AuthState, events: seq<Event>, checks: Checks): seq<Answer>
    decreases |events|
  {
    if events == [] then [] else
    var (s', a) := Step(s, events[0], checks);
    (if a.Cleaned? || a.Revoked? then [] else [a]) + Answers(s', events[1..], checks)
  }

  lemma {:induction false} SimilarAnswers(s: AuthState, s': AuthState, events: seq<Event>, now: nat, checks: Checks)
    requires Similar(s, s', now) && now + AttemptWindow < TWO64 && InOrder(events, now)
    ensures Answers(s, events, checks) == Answers(s', WithoutCleanups(events), checks)
    decreases |events|
  {
    if events != [] {
      var e, tail := events[0], events[1..];
      var t := if Timed(e) then e.now else now;
      SimilarLater(s, s', now, t);
      if e.CleanupEvent? {
        CleanupTwice(s, t, t);
        SimilarAnswers(Cleanup(s, t), s', tail, t, checks);
      } else {
        StepSimilar(s, s', e, t, checks);
        SimilarAnswers(Step(s, e, checks).0, Step(s', e, checks).0, tail, t, checks);
        assert WithoutCleanups(events)[1..] == WithoutCleanups(tail);
      }
    }
  }

  /** Running cleanup at any points of a run changes no answer to a registration, a login or a
      token check. */
  lemma CleanupInvisible(events: seq<Event>, checks: Checks)
    requires InOrder(events, 0)
    ensures Answers(EmptyAuth(), events, checks) == Answers(EmptyAuth(), WithoutCleanups(events), checks)
  {
    SimilarAnswers(EmptyAuth(), EmptyAuth(), events, 0, checks);
  }
}
