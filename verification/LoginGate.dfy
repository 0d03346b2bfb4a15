/** The limits on login commands, for the connections that are put to them: however their steps
    interleave, no window lets more of them through than its limit. */
module LoginGate {
  import opened Wrappers
  import opened Bytes
  import opened UserIds
  import opened RateLimits
  import opened PreAuthGate
  import opened Dispatch
  import opened Connections

  /** The check of a limit that a step makes, if it makes one. */
  function GateCall(w: World, e: Connections.Event): Option<PreAuthGate.Event> {
    match PendingOf(w, e.connection)
    case Idle => Some(ByAddress(CommandOf(e.request.command), e.request.addr, e.look.now))
    case Limited(r) =>
      if LoginUser(r).None? then None else Some(ByUser(CommandOf(r.command), r.addr, LoginUser(r).value, e.look.now))
    case _ => None
  }

  /** The connection goes on with its request after the step. */
  predicate GoesOn(w: World, e: Connections.Event, config: ServerConfig) {
    StepConnection(w.server, PendingOf(w, e.connection), e.request, e.look, config).1.Waiting?
  }

  /** Only these checks touch the counters, and they decide whether the connection goes on. */
  lemma GateFollows(w: World, e: Connections.Event, config: ServerConfig)
    ensures var g, g' := w.server.gate, Advance(w, e, config).server.gate;
            match GateCall(w, e)
            case None => g' == g
            case Some(call) => g' == GateStep(g, call, config.limits).0 && GoesOn(w, e, config) == GateStep(g, call, config.limits).1
  {
  }

  /** The limit that a check is about. */
  predicate About(key: Key, call: PreAuthGate.Event) {
    match key
    case AddrKey(cmd, addr) => call.ByAddress? && call.cmd == cmd && call.addr == addr
    case GlobalKey(cmd) => call.ByAddress? && call.cmd == cmd
    case PairKey(cmd, addr, user) => call.ByUser? && call.cmd == cmd && call.addr == addr && call.user == user
  }

  /** The time of a step that lets a connection through the limit. */
  function LetThrough(w: World, e: Connections.Event, key: Key, config: ServerConfig): Window {
    match GateCall(w, e)
    case None => []
    case Some(call) => if About(key, call) && GoesOn(w, e, config) then [e.look.now] else []
  }

  /** The times of all such steps of a run. */
  function LetThroughLog(w: World, events: seq<Connections.Event>, key: Key, config: ServerConfig): Window
    decreases |events|
  {
    if events == [] then [] else
    LetThrough(w, events[0], key, config) + LetThroughLog(Advance(w, events[0], config), events[1..], key, config)
  }

  /** Times never go back and stay away from the end of the 64-bit range. */
  predicate TimesInOrder(events: seq<Connections.Event>, now: nat, width: nat) {
    events == [] || (now <= events[0].look.now && events[0].look.now + width < TWO64
                     && TimesInOrder(events[1..], events[0].look.now, width))
  }

  /** No window holds more of `passed` than of the log. */
  ghost predicate Within(passed: Window, log: Window, width: nat) {
    forall x :: Count(passed, x, width) <= Count(log, x, width)
  }

  lemma CountPush(log: Window, t: nat, x: nat, width: nat)
    ensures Count(log + [t], x, width) == Count(log, x, width) + if t <= x < t + width then 1 else 0
  {
    assert (log + [t])[..|log|] == log;
  }

  lemma WithinPush(passed: Window, log: Window, t: nat, both: bool, width: nat)
    requires Within(passed, log, width)
    ensures Within(if both then passed + [t] else passed, log + [t], width)
  {
    forall x ensures Count(if both then passed + [t] else passed, x, width) <= Count(log + [t], x, width) {
      CountPush(log, t, x, width);
      CountPush(passed, t, x, width);
    }
  }

  /** A check records what it lets through, under the limit that it is about. */
  lemma CallRecords(logs: Logs, call: PreAuthGate.Event, key: Key, config: Config)
    requires Kept(key)
    ensures var (logs', ok) := LoggedStep(logs, call, config);
            || (LogOf(logs', key) == LogOf(logs, key) && !(About(key, call) && ok))
            || LogOf(logs', key) == LogOf(logs, key) + [call.now]
  {
  }

  /** So what it lets through stays within the log. */
  lemma CallWithin(logs: Logs, call: PreAuthGate.Event, key: Key, passed: Window, config: Config)
    requires Kept(key) && Within(passed, LogOf(logs, key), config.window)
    ensures var (logs', ok) := LoggedStep(logs, call, config);
            Within(if About(key, call) && ok then passed + [call.now] else passed, LogOf(logs', key), config.window)
  {
    var (logs', ok) := LoggedStep(logs, call, config);
    CallRecords(logs, call, key, config);
    if LogOf(logs', key) == LogOf(logs, key) + [call.now] {
      WithinPush(passed, LogOf(logs, key), call.now, About(key, call) && ok, config.window);
    }
  }

  lemma CallLegit(logs: Logs, call: PreAuthGate.Event, now: nat, config: Config)
    requires AllLegit(logs, now, config) && now <= call.now
    ensures AllLegit(LoggedStep(logs, call, config).0, call.now, config)
  {
    if !call.cmd.OtherCommand? {
      match call
      case ByAddress(cmd, addr, t) =>
        AttemptLegit(logs, AddrKey(cmd, addr), t, now, config);
        AttemptLegit(Attempt(logs, AddrKey(cmd, addr), t, config).0, GlobalKey(cmd), t, t, config);
      case ByUser(cmd, addr, user, t) =>
        AttemptLegit(logs, PairKey(cmd, addr, user), t, now, config);
    }
  }

  /** The state of the proof: the counters follow full logs, and what was let through is in them. */
  ghost predicate Followed(w: World, logs: Logs, now: nat, passed: Window, key: Key, config: ServerConfig) {
    && GateTracks(w.server.gate, logs, now, config.limits.window) && AllLegit(logs, now, config.limits)
    && Within(passed, LogOf(logs, key), config.limits.window)
  }

  lemma StepFollowed(w: World, logs: Logs, now: nat, passed: Window, e: Connections.Event, key: Key, config: ServerConfig) returns (logs': Logs)
    requires Kept(key) && Followed(w, logs, now, passed, key, config)
    requires now <= e.look.now && e.look.now + config.limits.window < TWO64
    ensures Followed(Advance(w, e, config), logs', e.look.now, passed + LetThrough(w, e, key, config), key, config)
  {
    GateFollows(w, e, config);
    assert passed + [] == passed;
    match GateCall(w, e) {
      case None =>
        logs' := logs;
        GateTracksLater(w.server.gate, logs, now, e.look.now, config.limits.window);
      case Some(call) =>
        logs' := LoggedStep(logs, call, config.limits).0;
        StepTracks(w.server.gate, logs, call, now, config.limits);
        CallLegit(logs, call, now, config.limits);
        CallWithin(logs, call, key, passed, config.limits);
    }
  }

  lemma WindowAssoc(a: Window, b: Window, c: Window)
    ensures (a + b) + c == a + (b + c)
  {
  }

  lemma {:induction false} RunFollowed(w: World, logs: Logs, now: nat, passed: Window, events: seq<Connections.Event>, key: Key,
                                       config: ServerConfig) returns (logs': Logs, end: nat)
    requires Kept(key) && Followed(w, logs, now, passed, key, config) && TimesInOrder(events, now, config.limits.window)
    ensures Followed(Run(w, events, config), logs', end, passed + LetThroughLog(w, events, key, config), key, config)
    decreases |events|
  {
    if events == [] {
      assert passed + [] == passed;
      logs', end := logs, now;
    } else {
      var e := events[0];
      var next := StepFollowed(w, logs, now, passed, e, key, config);
      logs', end := RunFollowed(Advance(w, e, config), next, e.look.now, passed + LetThrough(w, e, key, config), events[1..], key, config);
      WindowAssoc(passed, LetThrough(w, e, key, config), LetThroughLog(Advance(w, e, config), events[1..], key, config));
    }
  }

  lemma FollowedLimited(w: World, logs: Logs, now: nat, passed: Window, key: Key, x: nat, config: ServerConfig)
    requires Followed(w, logs, now, passed, key, config)
    ensures Count(passed, x, config.limits.window) <= LimitOf(config.limits, key)
  {
    NoWindowExceeds(LogOf(logs, key), x, config.limits.window, LimitOf(config.limits, key));
  }

  /** Login commands are limited. Over every interleaving of the steps of all connections, with times in
      order: no window lets more requests of a login command through than its limit for an address, for
      an address and user, or for all of them. */
  lemma LoginsLimited(events: seq<Connections.Event>, key: Key, x: nat, config: ServerConfig)
    requires Kept(key) && TimesInOrder(events, 0, config.limits.window) && config.limits.window < TWO64
    ensures Count(LetThroughLog(EmptyWorld(), events, key, config), x, config.limits.window) <= LimitOf(config.limits, key)
  {
    assert Followed(EmptyWorld(), map[], 0, [], key, config);
    var logs, end := RunFollowed(EmptyWorld(), map[], 0, [], events, key, config);
    FollowedLimited(Run(EmptyWorld(), events, config), logs, end, [] + LetThroughLog(EmptyWorld(), events, key, config), key, x, config);
    assert [] + LetThroughLog(EmptyWorld(), events, key, config) == LetThroughLog(EmptyWorld(), events, key, config);
  }
}
