/** The limits on login attempts per user, over whole runs. */
module AuthLimits {
  import opened Wrappers
  import opened Bytes
  import opened UserIds
  import opened RateLimits
  import opened AuthSpec
  import opened AuthRuns

  /** The two limited kinds of attempts. */
  datatype Kind = Begins | Finishes

  function Counted(s: AuthState, kind: Kind, user: Text): Window {
    Bucket(if kind.Begins? then s.begins else s.finishes, user)
  }

  /** The event is an attempt of the user that gets as far as the limit. */
  predicate Attempted(e: Event, kind: Kind, user: Text) {
    match kind
    case Begins => e.BeginEvent? && e.begin.user == user && ValidUserId(user) && |e.begin.clientNonce| == NonceBytes
    case Finishes => e.FinishEvent? && e.finish.user == user && WellFormedFinish(e.finish)
  }

  /** The limit lets the attempt pass. */
  predicate Passes(s: AuthState, e: Event, kind: Kind, user: Text)
    requires Attempted(e, kind, user)
  {
    Check(Counted(Cleanup(s, e.now), kind, user), e.now, AttemptWindow, MaxAttempts).1
  }

  /** The full log of recorded attempts, `log` before the run. */
  function LogAfter(s: AuthState, log: Window, events: seq<Event>, kind: Kind, user: Text, checks: Checks): Window
    decreases |events|
  {
    if events == [] then log else
    var e := events[0];
    LogAfter(Step(s, e, checks).0, if Attempted(e, kind, user) && Passes(s, e, kind, user) then log + [e.now] else log,
             events[1..], kind, user, checks)
  }

  /** At every attempt in the run the limit decides as counting the full log does. */
  ghost predicate DecidesByLog(s: AuthState, log: Window, events: seq<Event>, kind: Kind, user: Text, checks: Checks)
    decreases |events|
  {
    events == [] ||
    var e := events[0];
    && (Attempted(e, kind, user) ==> (Passes(s, e, kind, user) <==> Count(log, e.now, AttemptWindow) < MaxAttempts))
    && DecidesByLog(Step(s, e, checks).0, if Attempted(e, kind, user) && Passes(s, e, kind, user) then log + [e.now] else log,
                    events[1..], kind, user, checks)
  }

  lemma BucketTrimmed(s: AuthState, now: nat, kind: Kind, user: Text)
    ensures Counted(Cleanup(s, now), kind, user) == Trim(Counted(s, kind, user), now, AttemptWindow)
  {
  }

  lemma BeginBuckets(s: AuthState, r: BeginRequest, now: nat, random: Option<(Text, Text)>)
    ensures var (s', c) := (Begin(s, r, now, random).0, Cleanup(s, now));
            && s'.finishes == c.finishes
            && s'.begins == if !ValidUserId(r.user) || |r.clientNonce| != NonceBytes then c.begins
                            else c.begins[r.user := Check(Bucket(c.begins, r.user), now, AttemptWindow, MaxAttempts).0]
  {
  }

  lemma FinishBuckets(s: AuthState, r: FinishRequest, now: nat, token: Option<Text>, checks: Checks)
    ensures var (s', c) := (Finish(s, r, now, token, checks).0, Cleanup(s, now));
            && s'.begins == c.begins
            && s'.finishes == if !WellFormedFinish(r) then c.finishes
                              else c.finishes[r.user := Check(Bucket(c.finishes, r.user), now, AttemptWindow, MaxAttempts).0]
  {
  }

  lemma OtherBuckets(s: AuthState, e: Event, checks: Checks)
    requires !e.BeginEvent? && !e.FinishEvent?
    ensures var (s', c) := (Step(s, e, checks).0, if Timed(e) then Cleanup(s, e.now) else s);
            s'.begins == c.begins && s'.finishes == c.finishes
  {
  }

  lemma BucketAfter(s: AuthState, e: Event, kind: Kind, user: Text, checks: Checks)
    ensures Counted(Step(s, e, checks).0, kind, user) ==
            if !Timed(e) then Counted(s, kind, user)
            else if Attempted(e, kind, user) then Check(Counted(Cleanup(s, e.now), kind, user), e.now, AttemptWindow, MaxAttempts).0
            else Counted(Cleanup(s, e.now), kind, user)
  {
    match e
    case BeginEvent(r, now, random) => BeginBuckets(s, r, now, random);
    case FinishEvent(r, now, token) => FinishBuckets(s, r, now, token, checks);
    case _ => OtherBuckets(s, e, checks);
  }

  lemma StepTracks(s: AuthState, log: Window, e: Event, now: nat, kind: Kind, user: Text, checks: Checks)
    requires Tracks(Counted(s, kind, user), log, now, AttemptWindow) && Legit(log, AttemptWindow, MaxAttempts)
    requires Timed(e) ==> now <= e.now && e.now + AttemptWindow < TWO64
    ensures var log' := if Attempted(e, kind, user) && Passes(s, e, kind, user) then log + [e.now] else log;
            && Tracks(Counted(Step(s, e, checks).0, kind, user), log', if Timed(e) then e.now else now, AttemptWindow)
            && Legit(log', AttemptWindow, MaxAttempts)
    ensures Attempted(e, kind, user) ==> (Passes(s, e, kind, user) <==> Count(log, e.now, AttemptWindow) < MaxAttempts)
  {
    BucketAfter(s, e, kind, user, checks);
    if Timed(e) {
      TracksLater(Counted(s, kind, user), log, now, e.now, AttemptWindow);
      BucketTrimmed(s, e.now, kind, user);
      TracksTrimmed(Counted(s, kind, user), log, e.now, AttemptWindow);
      if Attempted(e, kind, user) {
        CheckTracks(Counted(Cleanup(s, e.now), kind, user), log, e.now, AttemptWindow, MaxAttempts);
        if Passes(s, e, kind, user) {
          LegitPush(log, e.now, AttemptWindow, MaxAttempts);
        }
      }
    }
  }

  lemma {:induction false} RunTracks(s: AuthState, log: Window, events: seq<Event>, now: nat, kind: Kind, user: Text, checks: Checks, x: nat)
    requires Tracks(Counted(s, kind, user), log, now, AttemptWindow) && Legit(log, AttemptWindow, MaxAttempts)
    requires InOrder(events, now)
    ensures DecidesByLog(s, log, events, kind, user, checks)
    ensures Count(LogAfter(s, log, events, kind, user, checks), x, AttemptWindow) <= MaxAttempts
    decreases |events|
  {
    if events == [] {
      NoWindowExceeds(log, x, AttemptWindow, MaxAttempts);
    } else {
      var e := events[0];
      StepTracks(s, log, e, now, kind, user, checks);
      RunTracks(Step(s, e, checks).0, if Attempted(e, kind, user) && Passes(s, e, kind, user) then log + [e.now] else log,
                events[1..], if Timed(e) then e.now else now, kind, user, checks, x);
    }
  }

  /** In every run with times in order, of any registrations, logins, token checks, revocations and
      cleanups: each login attempt is decided as counting all recorded attempts of its user would
      decide it, and no 60 seconds, wherever they end, hold more than 30 of them. */
  lemma AttemptsLimited(events: seq<Event>, kind: Kind, user: Text, checks: Checks, x: nat)
    requires InOrder(events, 0)
    ensures DecidesByLog(EmptyAuth(), [], events, kind, user, checks)
    ensures Count(LogAfter(EmptyAuth(), [], events, kind, user, checks), x, AttemptWindow) <= MaxAttempts
  {
    RunTracks(EmptyAuth(), [], events, 0, kind, user, checks, x);
  }
}
