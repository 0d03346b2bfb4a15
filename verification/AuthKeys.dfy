/** Who may register a key for a user, in memory and in SQLite, and what a login is good for. */
module AuthKeys {
  import opened Wrappers
  import opened Bytes
  import opened UserIds
  import opened RateLimits
  import opened SignInputs
  import opened AuthSpec
  import opened AuthRuns
  import opened SqliteAuth

  // ---- where a key comes from ----

  function KeyOf(identities: map<Text, Text>, user: Text): Option<Text> {
    if user in identities then Some(identities[user]) else None
  }

  /** The request proves possession of its key and may put it in the place of `current`: a first key
      needs the provisioning token if one is required; a key that replaces another needs a signature of
      the other over the rotation, or the token. */
  predicate Authorised(user: Text, current: Option<Text>, r: RegisterRequest, checks: Checks) {
    && r.user == user && checks.verify(r.key, Encode(TransportRegister(user, r.key)), r.proof)
    && match current
       case None => checks.tokenRequired ==> checks.provisioned(user, r.token)
       case Some(k) =>
         || k == r.key
         || (r.rotation.Some? && checks.verify(k, Encode(TransportRotate(user, k, r.key)), r.rotation.value))
         || (checks.tokenRequired && checks.provisioned(user, r.token))
  }

  /** Names and sizes as the server wants them. */
  predicate WellSized(r: RegisterRequest) {
    && 1 <= |r.user| <= 64 && ValidUserId(r.user) && 1 <= |r.key| <= 8192
    && 64 <= |r.proof| <= 8192 && (r.rotation.Some? ==> 64 <= |r.rotation.value| <= 8192)
  }

  /** A registration is accepted exactly if it is authorised by the key that is registered; then its key
      is the user's, and if it replaces another, no session of the user is left. Nothing else changes,
      and a refused registration changes nothing. */
  lemma RegisterIff(s: AuthState, r: RegisterRequest, checks: Checks)
    ensures var (s', ok) := Register(s, r, checks);
            var current := KeyOf(s.identities, r.user);
            && ok == (WellSized(r) && Authorised(r.user, current, r, checks))
            && (!ok ==> s' == s)
            && (ok ==> KeyOf(s'.identities, r.user) == Some(r.key))
            && (forall u :: u != r.user ==> KeyOf(s'.identities, u) == KeyOf(s.identities, u))
            && (forall t :: t in s'.sessions <==>
                  t in s.sessions && !(ok && s.sessions[t].user == r.user && current.Some? && current.value != r.key))
            && (forall t :: t in s'.sessions ==> s'.sessions[t] == s.sessions[t])
            && s'.challenges == s.challenges && s'.begins == s.begins && s'.finishes == s.finishes
  {
    ValidLength(r.user);
  }

  lemma ValidLength(user: Text)
    ensures ValidUserId(user) ==> 1 <= |user| <= 64
  {
  }

  /** The requests of a run that changed the key of a user. */
  function Changes(s: AuthState, events: seq<Event>, user: Text, checks: Checks): seq<RegisterRequest>
    decreases |events|
  {
    if events == [] then [] else
    var s' := Step(s, events[0], checks).0;
    (if events[0].RegisterEvent? && KeyOf(s'.identities, user) != KeyOf(s.identities, user) then [events[0].reg] else [])
    + Changes(s', events[1..], user, checks)
  }

  /** Each request was authorised by the key before it, and leads from it to its own. */
  predicate History(user: Text, from: Option<Text>, changes: seq<RegisterRequest>, to: Option<Text>, checks: Checks)
    decreases |changes|
  {
    if changes == [] then from == to else
    Authorised(user, from, changes[0], checks) && History(user, Some(changes[0].key), changes[1..], to, checks)
  }

  /** An event leaves a user's key alone, or it is a registration that the key authorised. */
  lemma StepAuthorised(s: AuthState, e: Event, user: Text, checks: Checks)
    ensures var s' := Step(s, e, checks).0;
            || KeyOf(s'.identities, user) == KeyOf(s.identities, user)
            || (e.RegisterEvent? && Authorised(user, KeyOf(s.identities, user), e.reg, checks)
                && KeyOf(s'.identities, user) == Some(e.reg.key))
  {
    if e.RegisterEvent? {
      RegisterIff(s, e.reg, checks);
    }
  }

  /** One more change at the front of a history. */
  lemma HistoryStep(user: Text, from: Option<Text>, next: Option<Text>, r: Option<RegisterRequest>, rest: seq<RegisterRequest>,
                    to: Option<Text>, checks: Checks)
    requires History(user, next, rest, to, checks)
    requires if r.Some? then Authorised(user, from, r.value, checks) && next == Some(r.value.key) else next == from
    ensures History(user, from, (if r.Some? then [r.value] else []) + rest, to, checks)
  {
    if r.Some? {
      assert ([r.value] + rest)[1..] == rest;
    } else {
      assert [] + rest == rest;
    }
  }

  /** Key provenance. In every run, a user's key changes only by registrations of the run, each
      authorised by the key that it replaced, one after the other. */
  lemma {:induction false} KeyHistory(s: AuthState, events: seq<Event>, user: Text, checks: Checks)
    ensures var changes := Changes(s, events, user, checks);
            && History(user, KeyOf(s.identities, user), changes, KeyOf(AfterRun(s, events, checks).identities, user), checks)
            && (forall r :: r in changes ==> RegisterEvent(r) in events)
    decreases |events|
  {
    if events != [] {
      var s' := Step(s, events[0], checks).0;
      StepAuthorised(s, events[0], user, checks);
      KeyHistory(s', events[1..], user, checks);
      var changed := events[0].RegisterEvent? && KeyOf(s'.identities, user) != KeyOf(s.identities, user);
      HistoryStep(user, KeyOf(s.identities, user), KeyOf(s'.identities, user),
                  if changed then Some(events[0].reg) else None, Changes(s', events[1..], user, checks),
                  KeyOf(AfterRun(s, events, checks).identities, user), checks);
    }
  }

  function AfterRun(s: AuthState, events: seq<Event>, checks: Checks): AuthState
    decreases |events|
  {
    if events == [] then s else AfterRun(Step(s, events[0], checks).0, events[1..], checks)
  }

  lemma {:induction false} AfterRunIsRun(w: World, events: seq<Event>, checks: Checks)
    ensures AfterRun(w.auth, events, checks) == Run(w, events, checks).auth
    decreases |events|
  {
    if events != [] {
      AfterRunIsRun(Advance(w, events[0], checks), events[1..], checks);
    }
  }

  /** From an empty server: whoever has a key has it by a chain of authorised registrations that starts
      without one. */
  lemma KeyProvenance(events: seq<Event>, user: Text, checks: Checks)
    ensures exists changes ::
              && History(user, None, changes, KeyOf(Run(EmptyWorld(), events, checks).auth.identities, user), checks)
              && forall r :: r in changes ==> RegisterEvent(r) in events
  {
    KeyHistory(EmptyAuth(), events, user, checks);
    AfterRunIsRun(EmptyWorld(), events, checks);
    assert History(user, None, Changes(EmptyAuth(), events, user, checks),
                   KeyOf(Run(EmptyWorld(), events, checks).auth.identities, user), checks);
  }

  // ---- the same in SQLite ----

  /** Accepted under the same conditions; a key that replaces another leaves no unrevoked row of the
      user, and no other row is touched. */
  lemma RegisterRowIff(q: Tables, r: RegisterRequest, checks: Checks)
    ensures var (q', ok) := RegisterRow(q, r, checks);
            var current := KeyOf(q.accounts, r.user);
            && ok == (WellSized(r) && Authorised(r.user, current, r, checks))
            && (!ok ==> q' == q)
            && (ok ==> KeyOf(q'.accounts, r.user) == Some(r.key))
            && (forall u :: u != r.user ==> KeyOf(q'.accounts, u) == KeyOf(q.accounts, u))
            && q'.sessions.Keys == q.sessions.Keys
            && (forall t :: t in q.sessions ==>
                  var replaced := ok && q.sessions[t].user == r.user && current.Some? && current.value != r.key;
                  q'.sessions[t] == if replaced then q.sessions[t].(revoked := true) else q.sessions[t])
  {
    ValidLength(r.user);
  }

  function RowsAfter(q: Tables, events: seq<Event>, checks: Checks): Tables
    decreases |events|
  {
    if events == [] then q else RowsAfter(RowStep(q, events[0], checks).0, events[1..], checks)
  }

  function RowChanges(q: Tables, events: seq<Event>, user: Text, checks: Checks): seq<RegisterRequest>
    decreases |events|
  {
    if events == [] then [] else
    var q' := RowStep(q, events[0], checks).0;
    (if events[0].RegisterEvent? && KeyOf(q'.accounts, user) != KeyOf(q.accounts, user) then [events[0].reg] else [])
    + RowChanges(q', events[1..], user, checks)
  }

  lemma RowStepAuthorised(q: Tables, e: Event, user: Text, checks: Checks)
    ensures var q' := RowStep(q, e, checks).0;
            || KeyOf(q'.accounts, user) == KeyOf(q.accounts, user)
            || (e.RegisterEvent? && Authorised(user, KeyOf(q.accounts, user), e.reg, checks)
                && KeyOf(q'.accounts, user) == Some(e.reg.key))
  {
    if e.RegisterEvent? {
      RegisterRowIff(q, e.reg, checks);
    }
  }

  lemma {:induction false} RowKeyHistory(q: Tables, events: seq<Event>, user: Text, checks: Checks)
    ensures var changes := RowChanges(q, events, user, checks);
            && History(user, KeyOf(q.accounts, user), changes, KeyOf(RowsAfter(q, events, checks).accounts, user), checks)
            && (forall r :: r in changes ==> RegisterEvent(r) in events)
    decreases |events|
  {
    if events != [] {
      var q' := RowStep(q, events[0], checks).0;
      RowStepAuthorised(q, events[0], user, checks);
      RowKeyHistory(q', events[1..], user, checks);
      var changed := events[0].RegisterEvent? && KeyOf(q'.accounts, user) != KeyOf(q.accounts, user);
      HistoryStep(user, KeyOf(q.accounts, user), KeyOf(q'.accounts, user),
                  if changed then Some(events[0].reg) else None, RowChanges(q', events[1..], user, checks),
                  KeyOf(RowsAfter(q, events, checks).accounts, user), checks);
    }
  }

  // ---- what a login is good for ----

  /** A token authenticates exactly the user of its session, until that expires. */
  lemma AuthenticateIff(s: AuthState, token: Text, now: nat, user: Text)
    ensures Authenticate(s, token, now).1 == Some(user) <==>
            |token| == 32 && token in s.sessions && s.sessions[token] == Session(user, s.sessions[token].expires)
            && now <= s.sessions[token].expires
  {
  }

  /** The finish request that belongs to an answered begin request. */
  function Reply(b: BeginRequest, a: BeginResponse, signature: Text): FinishRequest {
    FinishRequest(b.user, b.clientNonce, a.serverNonce, a.challengeId, a.expires, signature)
  }

  /** The challenge that an answered begin request leaves. */
  lemma Begun(s: AuthState, b: BeginRequest, now: nat, id: Text, nonce: Text)
    requires now + 60 < TWO64
    ensures var (s1, a) := Begin(s, b, now, Some((id, nonce)));
            && (a.Some? <==> ValidUserId(b.user) && |b.clientNonce| == 32 && b.user in s.identities
                             && Check(Bucket(Cleanup(s, now).begins, b.user), now, 60, 30).1)
            && (a.Some? ==> a.value == BeginResponse(id, nonce, now + 60) && s1.identities == s.identities
                            && id in s1.challenges && s1.challenges[id] == Challenge(b.user, b.clientNonce, nonce, now + 60, false))
  {
  }

  /** The session that a successful finish leaves. */
  lemma FinishIssues(s: AuthState, r: FinishRequest, now: nat, token: Text, checks: Checks)
    requires Consumes(s, r, now) && r.user in s.identities && now + 900 < TWO64
    requires checks.verify(s.identities[r.user], LoginInput(r), r.signature)
    ensures var (s2, f) := Finish(s, r, now, Some(token), checks);
            f == Some(FinishResponse(token, now + 900)) && token in s2.sessions && s2.sessions[token] == Session(r.user, now + 900)
  {
    FinishConsumes(s, r, now, Some(token), checks);
  }

  /** An honest login goes through: a challenge answered within 60 seconds, with a signature of the
      registered key over its fields, gives a session of 900 seconds; its token authenticates the user
      till then and not later. */
  lemma LoginWorks(s: AuthState, b: BeginRequest, t0: nat, id: Text, nonce: Text, signature: Text, t1: nat, token: Text, checks: Checks)
    requires Begin(s, b, t0, Some((id, nonce))).1.Some? && t0 <= t1 <= t0 + 60 && t1 + 900 < TWO64
    requires var (s1, a) := Begin(s, b, t0, Some((id, nonce)));
             var r := Reply(b, a.value, signature);
             && WellFormedFinish(r) && |token| == TokenBytes
             && Check(Bucket(Cleanup(s1, t1).finishes, b.user), t1, AttemptWindow, MaxAttempts).1
             && b.user in s1.identities
             && checks.verify(s1.identities[b.user], Encode(TransportAuth(b.user, b.clientNonce, nonce, id, t0 + 60)), signature)
    ensures var (s1, a) := Begin(s, b, t0, Some((id, nonce)));
            var (s2, f) := Finish(s1, Reply(b, a.value, signature), t1, Some(token), checks);
            && a == Some(BeginResponse(id, nonce, t0 + 60)) && f == Some(FinishResponse(token, t1 + 900))
            && (forall t2: nat :: Authenticate(s2, token, t2).1 == if t2 <= t1 + 900 then Some(b.user) else None)
  {
    var (s1, a) := Begin(s, b, t0, Some((id, nonce)));
    var r := Reply(b, a.value, signature);
    Begun(s, b, t0, id, nonce);
    assert Consumes(s1, r, t1);
    FinishIssues(s1, r, t1, token, checks);
    TokenLasts(Finish(s1, r, t1, Some(token), checks).0, token, b.user, t1 + 900);
  }

  lemma TokenLasts(s: AuthState, token: Text, user: Text, end: nat)
    requires |token| == TokenBytes && token in s.sessions && s.sessions[token] == Session(user, end)
    ensures forall t: nat :: Authenticate(s, token, t).1 == if t <= end then Some(user) else None
  {
    forall t: nat ensures Authenticate(s, token, t).1 == if t <= end then Some(user) else None {
      AuthenticateIff(s, token, t, user);
    }
  }

  /** A session ends at once by revoking its token or by replacing its user's key. */
  lemma SessionEnds(s: AuthState, token: Text, r: RegisterRequest, now: nat, checks: Checks)
    ensures Authenticate(Revoke(s, token).0, token, now).1 == None
    ensures var before := Authenticate(s, token, now).1;
            var after := Authenticate(Register(s, r, checks).0, token, now).1;
            after == if before == Some(r.user) && Register(s, r, checks).1
                        && r.user in s.identities && s.identities[r.user] != r.key then None else before
  {
    RevokeIs(s, token);
    RegisterIff(s, r, checks);
  }

  /** What a cleanup leaves: the unused challenges and the sessions that have not expired. */
  lemma CleanupIff(s: AuthState, now: nat)
    ensures var c := Cleanup(s, now);
            && c.identities == s.identities
            && (forall id :: id in c.challenges <==> id in s.challenges && !s.challenges[id].used && now <= s.challenges[id].expires)
            && (forall id :: id in c.challenges ==> c.challenges[id] == s.challenges[id])
            && (forall t :: t in c.sessions <==> t in s.sessions && now <= s.sessions[t].expires)
            && (forall t :: t in c.sessions ==> c.sessions[t] == s.sessions[t])
  {
  }
}
