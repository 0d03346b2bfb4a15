/** The limits the TCP server puts on commands that need no session: per source address, per
    address and user, and global. */
module PreAuthGate {
  import opened Bytes
  import opened UserIds
  import opened RateLimits

  datatype Command = Register | AuthBegin | AuthFinish | OtherCommand

  datatype Limits = Limits(perAddr: nat, perAddrUser: nat, global: nat)
  datatype Config = Config(window: nat, register: Limits, authBegin: Limits, authFinish: Limits)

  function LimitsOf(c: Config, cmd: Command): Limits {
    if cmd.Register? then c.register else if cmd.AuthBegin? then c.authBegin else c.authFinish
  }

  datatype Counters = Counters(byAddr: Buckets<Text>, byAddrUser: Buckets<Text>, global: Window)
  datatype Gate = Gate(register: Counters, authBegin: Counters, authFinish: Counters)

  function CountersOf(g: Gate, cmd: Command): Counters {
    if cmd.Register? then g.register else if cmd.AuthBegin? then g.authBegin else g.authFinish
  }

  function WithCounters(g: Gate, cmd: Command, c: Counters): Gate {
    if cmd.Register? then g.(register := c) else if cmd.AuthBegin? then g.(authBegin := c) else g.(authFinish := c)
  }

  function EmptyGate(): Gate {
    var c := Counters(map[], map[], []);
    Gate(c, c, c)
  }

  const Bar: Text := Ascii("|")

  function PairName(addr: Text, user: Text): Text {
    addr + Bar + user
  }

  // ---- one address, then global ----

  function TrimAddr(c: Counters, now: nat, width: nat): Counters {
    c.(byAddr := TrimAll(c.byAddr, now, width), global := Trim(c.global, now, width))
  }

  function TrimAddrs(g: Gate, now: nat, width: nat): Gate {
    Gate(TrimAddr(g.register, now, width), TrimAddr(g.authBegin, now, width), TrimAddr(g.authFinish, now, width))
  }

  /** An attempt that the global limit refuses stays recorded for its address. */
  function CheckAddr(c: Counters, addr: Text, now: nat, width: nat, limits: Limits): (Counters, bool) {
    var (b, ok) := Check(Bucket(c.byAddr, addr), now, width, limits.perAddr);
    var c1 := c.(byAddr := c.byAddr[addr := b]);
    if !ok then (c1, false) else
    var (all, ok1) := Check(c1.global, now, width, limits.global);
    (c1.(global := all), ok1)
  }

  function AddrLimit(g: Gate, cmd: Command, addr: Text, now: nat, config: Config): (Gate, bool) {
    if cmd.OtherCommand? then (g, true) else
    var g1 := TrimAddrs(g, now, config.window);
    var (c, ok) := CheckAddr(CountersOf(g1, cmd), addr, now, config.window, LimitsOf(config, cmd));
    (WithCounters(g1, cmd, c), ok)
  }

  // ---- one address and user ----

  function TrimPair(c: Counters, now: nat, width: nat): Counters {
    c.(byAddrUser := TrimAll(c.byAddrUser, now, width))
  }

  function TrimPairs(g: Gate, now: nat, width: nat): Gate {
    Gate(TrimPair(g.register, now, width), TrimPair(g.authBegin, now, width), TrimPair(g.authFinish, now, width))
  }

  function CheckPair(c: Counters, addr: Text, user: Text, now: nat, width: nat, limits: Limits): (Counters, bool) {
    var (b, ok) := Check(Bucket(c.byAddrUser, PairName(addr, user)), now, width, limits.perAddrUser);
    (c.(byAddrUser := c.byAddrUser[PairName(addr, user) := b]), ok)
  }

  function PairLimit(g: Gate, cmd: Command, addr: Text, user: Text, now: nat, config: Config): (Gate, bool) {
    if cmd.OtherCommand? || !ValidUserId(user) then (g, true) else
    var g1 := TrimPairs(g, now, config.window);
    var (c, ok) := CheckPair(CountersOf(g1, cmd), addr, user, now, config.window, LimitsOf(config, cmd));
    (WithCounters(g1, cmd, c), ok)
  }

  class TcpGate {
    const config: Config
    var register: Counters
    var authBegin: Counters
    var authFinish: Counters

    ghost function State(): Gate
      reads this
    {
      Gate(register, authBegin, authFinish)
    }

    constructor (config: Config)
      ensures this.config == config && State() == EmptyGate()
    {
      this.config := config;
      var c := Counters(map[], map[], []);
      register, authBegin, authFinish := c, c, c;
    }

    static method TrimCounters(c: Counters, now: nat, width: nat) returns (r: Counters)
      ensures r == TrimAddr(c, now, width)
    {
      var byAddr := TrimMap(c.byAddr, now, width);
      var global := TrimWindow(c.global, now, width);
      r := c.(byAddr := byAddr, global := global);
    }

    method Put(cmd: Command, c: Counters)
      modifies this
      ensures State() == WithCounters(old(State()), cmd, c)
    {
      match cmd
      case Register => register := c;
      case AuthBegin => authBegin := c;
      case _ => authFinish := c;
    }

    method EnforcePreAuthRateLimit(cmd: Command, addr: Text, now: nat) returns (ok: bool)
      modifies this
      ensures (State(), ok) == AddrLimit(old(State()), cmd, addr, now, config)
    {
      if cmd.OtherCommand? {
        return true;
      }
      register := TrimCounters(register, now, config.window);
      authBegin := TrimCounters(authBegin, now, config.window);
      authFinish := TrimCounters(authFinish, now, config.window);
      var c, limits := CountersOf(Gate(register, authBegin, authFinish), cmd), LimitsOf(config, cmd);
      var b: Window;
      b, ok := CheckAndRecord(Bucket(c.byAddr, addr), now, config.window, limits.perAddr);
      c := c.(byAddr := c.byAddr[addr := b]);
      if ok {
        b, ok := CheckAndRecord(c.global, now, config.window, limits.global);
        c := c.(global := b);
      }
      Put(cmd, c);
    }

    method EnforcePreAuthUserRateLimit(cmd: Command, addr: Text, user: Text, now: nat) returns (ok: bool)
      modifies this
      ensures (State(), ok) == PairLimit(old(State()), cmd, addr, user, now, config)
    {
      var valid := IsValidUserId(user);
      if cmd.OtherCommand? || !valid {
        return true;
      }
      var key := addr + Bar + user;
      var a := TrimMap(register.byAddrUser, now, config.window);
      register := register.(byAddrUser := a);
      a := TrimMap(authBegin.byAddrUser, now, config.window);
      authBegin := authBegin.(byAddrUser := a);
      a := TrimMap(authFinish.byAddrUser, now, config.window);
      authFinish := authFinish.(byAddrUser := a);
      var c, limits := CountersOf(Gate(register, authBegin, authFinish), cmd), LimitsOf(config, cmd);
      var b: Window;
      b, ok := CheckAndRecord(Bucket(c.byAddrUser, key), now, config.window, limits.perAddrUser);
      Put(cmd, c.(byAddrUser := c.byAddrUser[key := b]));
    }
  }

  // ---- the reference: a log per limit, never trimmed ----

  datatype Key = AddrKey(cmd: Command, addr: Text) | PairKey(cmd: Command, addr: Text, user: Text) | GlobalKey(cmd: Command)

  type Logs = map<Key, Window>

  function LogOf(logs: Logs, key: Key): Window {
    if key in logs then logs[key] else []
  }

  function LimitOf(config: Config, key: Key): nat {
    match key
    case AddrKey(cmd, _) => LimitsOf(config, cmd).perAddr
    case PairKey(cmd, _, _) => LimitsOf(config, cmd).perAddrUser
    case GlobalKey(cmd) => LimitsOf(config, cmd).global
  }

  /** Counts the whole log and records the attempt if it is within the limit. */
  function Attempt(logs: Logs, key: Key, now: nat, config: Config): (Logs, bool) {
    if Count(LogOf(logs, key), now, config.window) < LimitOf(config, key)
    then (logs[key := LogOf(logs, key) + [now]], true)
    else (logs, false)
  }

  datatype Event = ByAddress(cmd: Command, addr: Text, now: nat) | ByUser(cmd: Command, addr: Text, user: Text, now: nat)

  function LoggedStep(logs: Logs, e: Event, config: Config): (Logs, bool) {
    if e.cmd.OtherCommand? then (logs, true) else
    match e
    case ByAddress(cmd, addr, now) =>
      var (logs1, ok) := Attempt(logs, AddrKey(cmd, addr), now, config);
      if !ok then (logs1, false) else Attempt(logs1, GlobalKey(cmd), now, config)
    case ByUser(cmd, addr, user, now) =>
      if !ValidUserId(user) then (logs, true) else Attempt(logs, PairKey(cmd, addr, user), now, config)
  }

  function GateStep(g: Gate, e: Event, config: Config): (Gate, bool) {
    match e
    case ByAddress(cmd, addr, now) => AddrLimit(g, cmd, addr, now, config)
    case ByUser(cmd, addr, user, now) => PairLimit(g, cmd, addr, user, now, config)
  }

  // ---- the gate tracks the logs ----

  /** Keys that a limit is kept for. */
  predicate Kept(key: Key) {
    !key.cmd.OtherCommand? && (key.PairKey? ==> ValidUserId(key.user))
  }

  function BucketOf(g: Gate, key: Key): Window {
    match key
    case AddrKey(cmd, addr) => Bucket(CountersOf(g, cmd).byAddr, addr)
    case PairKey(cmd, addr, user) => Bucket(CountersOf(g, cmd).byAddrUser, PairName(addr, user))
    case GlobalKey(cmd) => CountersOf(g, cmd).global
  }

  ghost predicate GateTracks(g: Gate, logs: Logs, now: nat, width: nat) {
    forall key :: Kept(key) ==> Tracks(BucketOf(g, key), LogOf(logs, key), now, width)
  }

  /** The separator keeps pairs apart, as no user name contains it. */
  lemma PairNameInjective(addr: Text, user: Text, addr': Text, user': Text)
    requires ValidUserId(user) && ValidUserId(user') && PairName(addr, user) == PairName(addr', user')
    ensures addr == addr' && user == user'
  {
    var s := PairName(addr, user);
    assert s[|addr|] == Bar[0] && s[|addr'|] == Bar[0];
    assert addr == s[..|addr|] && user == s[|addr| + 1..];
    assert addr' == s[..|addr'|] && user' == s[|addr'| + 1..];
  }

  lemma TrimmedBucket<K>(m: Buckets<K>, k: K, log: Window, now: nat, width: nat)
    requires Tracks(Bucket(m, k), log, now, width)
    ensures Tracks(Bucket(TrimAll(m, now, width), k), log, now, width)
  {
    TracksTrimmed(Bucket(m, k), log, now, width);
  }

  /** Trimming, and dropping what became empty, changes nothing. */
  lemma TrimInvisible(g: Gate, logs: Logs, now: nat, width: nat)
    requires GateTracks(g, logs, now, width)
    ensures GateTracks(TrimAddrs(g, now, width), logs, now, width)
    ensures GateTracks(TrimPairs(g, now, width), logs, now, width)
  {
    forall key | Kept(key)
      ensures Tracks(BucketOf(TrimAddrs(g, now, width), key), LogOf(logs, key), now, width)
      ensures Tracks(BucketOf(TrimPairs(g, now, width), key), LogOf(logs, key), now, width)
    {
      assert Tracks(BucketOf(g, key), LogOf(logs, key), now, width);
      match key
      case AddrKey(cmd, addr) => TrimmedBucket(CountersOf(g, cmd).byAddr, addr, LogOf(logs, key), now, width);
      case PairKey(cmd, addr, user) => TrimmedBucket(CountersOf(g, cmd).byAddrUser, PairName(addr, user), LogOf(logs, key), now, width);
      case GlobalKey(cmd) => TracksTrimmed(CountersOf(g, cmd).global, LogOf(logs, key), now, width);
    }
  }

  lemma GateTracksLater(g: Gate, logs: Logs, now: nat, later: nat, width: nat)
    requires GateTracks(g, logs, now, width) && now <= later && later + width < TWO64
    ensures GateTracks(g, logs, later, width)
  {
    forall key | Kept(key) ensures Tracks(BucketOf(g, key), LogOf(logs, key), later, width) {
      TracksLater(BucketOf(g, key), LogOf(logs, key), now, later, width);
    }
  }

  /** The gate with one bucket replaced. */
  function Replaced(g: Gate, key: Key, b: Window): Gate {
    var c := CountersOf(g, key.cmd);
    WithCounters(g, key.cmd,
                 match key
                 case AddrKey(_, addr) => c.(byAddr := c.byAddr[addr := b])
                 case PairKey(_, addr, user) => c.(byAddrUser := c.byAddrUser[PairName(addr, user) := b])
                 case GlobalKey(_) => c.(global := b))
  }

  lemma OtherBuckets(g: Gate, key: Key, b: Window, other: Key)
    requires Kept(key) && Kept(other)
    ensures BucketOf(Replaced(g, key, b), other) == if other == key then b else BucketOf(g, other)
  {
    if key.PairKey? && other.PairKey? && PairName(key.addr, key.user) == PairName(other.addr, other.user) {
      PairNameInjective(key.addr, key.user, other.addr, other.user);
    }
  }

  /** One limit: the bucket decides as the counted log does. */
  lemma AttemptTracks(g: Gate, logs: Logs, key: Key, now: nat, config: Config)
    requires GateTracks(g, logs, now, config.window) && Kept(key)
    ensures var (b, ok) := Check(BucketOf(g, key), now, config.window, LimitOf(config, key));
            var (logs', ok') := Attempt(logs, key, now, config);
            ok == ok' && GateTracks(Replaced(g, key, b), logs', now, config.window)
  {
    var (b, ok) := Check(BucketOf(g, key), now, config.window, LimitOf(config, key));
    var logs' := Attempt(logs, key, now, config).0;
    CheckTracks(BucketOf(g, key), LogOf(logs, key), now, config.window, LimitOf(config, key));
    forall other | Kept(other) ensures Tracks(BucketOf(Replaced(g, key, b), other), LogOf(logs', other), now, config.window) {
      OtherBuckets(g, key, b, other);
      assert Tracks(BucketOf(g, other), LogOf(logs, other), now, config.window);
    }
  }

  lemma AddressTracks(g: Gate, logs: Logs, e: Event, config: Config)
    requires e.ByAddress? && !e.cmd.OtherCommand? && GateTracks(TrimAddrs(g, e.now, config.window), logs, e.now, config.window)
    ensures var (g', ok) := GateStep(g, e, config);
            var (logs', ok') := LoggedStep(logs, e, config);
            ok == ok' && GateTracks(g', logs', e.now, config.window)
  {
    var g1, key := TrimAddrs(g, e.now, config.window), AddrKey(e.cmd, e.addr);
    var (b, ok) := Check(BucketOf(g1, key), e.now, config.window, LimitOf(config, key));
    AttemptTracks(g1, logs, key, e.now, config);
    if ok {
      AttemptTracks(Replaced(g1, key, b), Attempt(logs, key, e.now, config).0, GlobalKey(e.cmd), e.now, config);
    }
  }

  lemma PairTracks(g: Gate, logs: Logs, e: Event, config: Config)
    requires e.ByUser? && Kept(PairKey(e.cmd, e.addr, e.user)) && GateTracks(TrimPairs(g, e.now, config.window), logs, e.now, config.window)
    ensures var (g', ok) := GateStep(g, e, config);
            var (logs', ok') := LoggedStep(logs, e, config);
            ok == ok' && GateTracks(g', logs', e.now, config.window)
  {
    AttemptTracks(TrimPairs(g, e.now, config.window), logs, PairKey(e.cmd, e.addr, e.user), e.now, config);
  }

  lemma StepTracks(g: Gate, logs: Logs, e: Event, now: nat, config: Config)
    requires GateTracks(g, logs, now, config.window) && now <= e.now && e.now + config.window < TWO64
    ensures var (g', ok) := GateStep(g, e, config);
            var (logs', ok') := LoggedStep(logs, e, config);
            ok == ok' && GateTracks(g', logs', e.now, config.window)
  {
    GateTracksLater(g, logs, now, e.now, config.window);
    TrimInvisible(g, logs, e.now, config.window);
    if !e.cmd.OtherCommand? {
      if e.ByAddress? {
        AddressTracks(g, logs, e, config);
      } else if ValidUserId(e.user) {
        PairTracks(g, logs, e, config);
      }
    }
  }

  /** Times never go back and stay away from the end of the 64-bit range. */
  predicate InOrder(events: seq<Event>, now: nat, width: nat) {
    events == [] || (now <= events[0].now && events[0].now + width < TWO64 && InOrder(events[1..], events[0].now, width))
  }

  function Decisions(g: Gate, events: seq<Event>, config: Config): seq<bool>
    decreases |events|
  {
    if events == [] then [] else
    var (g', ok) := GateStep(g, events[0], config);
    [ok] + Decisions(g', events[1..], config)
  }

  function LoggedDecisions(logs: Logs, events: seq<Event>, config: Config): (Logs, seq<bool>)
    decreases |events|
  {
    if events == [] then (logs, []) else
    var (logs', ok) := LoggedStep(logs, events[0], config);
    var (end, oks) := LoggedDecisions(logs', events[1..], config);
    (end, [ok] + oks)
  }

  lemma {:induction false} RunTracks(g: Gate, logs: Logs, events: seq<Event>, now: nat, config: Config)
    requires GateTracks(g, logs, now, config.window) && InOrder(events, now, config.window)
    ensures Decisions(g, events, config) == LoggedDecisions(logs, events, config).1
    decreases |events|
  {
    if events != [] {
      StepTracks(g, logs, events[0], now, config);
      RunTracks(GateStep(g, events[0], config).0, LoggedStep(logs, events[0], config).0, events[1..], events[0].now, config);
    }
  }

  ghost predicate AllLegit(logs: Logs, now: nat, config: Config) {
    forall key :: Legit(LogOf(logs, key), config.window, LimitOf(config, key)) && Sorted(LogOf(logs, key)) && NotAfter(LogOf(logs, key), now)
  }

  lemma AttemptLegit(logs: Logs, key: Key, now: nat, before: nat, config: Config)
    requires AllLegit(logs, before, config) && before <= now
    ensures AllLegit(Attempt(logs, key, now, config).0, now, config)
  {
    if Attempt(logs, key, now, config).1 {
      LegitPush(LogOf(logs, key), now, config.window, LimitOf(config, key));
    }
  }

  lemma {:induction false} RunLegit(logs: Logs, events: seq<Event>, now: nat, config: Config, key: Key, x: nat)
    requires AllLegit(logs, now, config) && InOrder(events, now, config.window)
    ensures Count(LogOf(LoggedDecisions(logs, events, config).0, key), x, config.window) <= LimitOf(config, key)
    decreases |events|
  {
    if events == [] {
      NoWindowExceeds(LogOf(logs, key), x, config.window, LimitOf(config, key));
    } else {
      var e := events[0];
      if !e.cmd.OtherCommand? {
        match e
        case ByAddress(cmd, addr, t) =>
          AttemptLegit(logs, AddrKey(cmd, addr), t, now, config);
          AttemptLegit(Attempt(logs, AddrKey(cmd, addr), t, config).0, GlobalKey(cmd), t, t, config);
        case ByUser(cmd, addr, user, t) =>
          AttemptLegit(logs, PairKey(cmd, addr, user), t, now, config);
      }
      RunLegit(LoggedStep(logs, e, config).0, events[1..], e.now, config, key, x);
    }
  }

  /** Sliding windows. The trimmed buckets decide every attempt as counting the full logs would,
      and in no log does any window ever hold more than its limit. */
  lemma SlidingWindows(events: seq<Event>, config: Config, key: Key, x: nat)
    requires config.window < TWO64 && InOrder(events, 0, config.window)
    ensures Decisions(EmptyGate(), events, config) == LoggedDecisions(map[], events, config).1
    ensures Count(LogOf(LoggedDecisions(map[], events, config).0, key), x, config.window) <= LimitOf(config, key)
  {
    RunTracks(EmptyGate(), map[], events, 0, config);
    RunLegit(map[], events, 0, config, key, x);
  }
}
