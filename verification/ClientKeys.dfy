/** The message keys of a client: every ciphertext that it returns in its lifetime, for whatever
    peer, in a handshake or in a chat, is sealed under a key of its own. */
module ClientKeys {
  import opened Wrappers
  import opened Bytes
  import opened Messages
  import opened Symbolic
  import opened Sessions
  import opened KeyTerms
  import opened ClientSpec
  import ClientRuns

  type Log = seq<Ciphertext>

  /** The ciphertexts that an event makes the client return. */
  function Returned(c: ClientState, clock: nat, e: ClientRuns.Event): Log {
    match e
    case SendRequested(peer, plaintext) =>
      (match SendChat(c, peer, plaintext, clock).1 case None => [] case Some(m) => [m.ciphertext])
    case InitiateRequested(b, peer, plaintext, sessionId, seed1, seed2) =>
      (match Initiate(c, b, peer, plaintext, Draws(sessionId, clock, seed1, seed2)).1 case None => [] case Some(m) => [m.ciphertext])
    case _ => []
  }

  /** All of them in a run, oldest first. */
  function ReturnedLog(c: ClientState, clock: nat, events: seq<ClientRuns.Event>): Log
    decreases |events|
  {
    if events == [] then [] else
    var (c', clock') := ClientRuns.Step(c, clock, events[0]);
    Returned(c, clock, events[0]) + ReturnedLog(c', clock', events[1..])
  }

  /** A key that reaches the client from outside has been generated by somebody. */
  predicate Generated(k: PublicKey, clock: nat) {
    k.PublicKey? ==> k.id < clock
  }

  predicate Named(clock: nat, e: ClientRuns.Event) {
    match e
    case InitialArrives(m) => Generated(m.ephemeral, clock)
    case ChatArrives(m) => m.header.ratchetKey.Some? ==> Generated(m.header.ratchetKey.value, clock)
    case InitiateRequested(b, _, _, _, _, _) => Generated(b.signedEc, clock)
    case _ => true
  }

  predicate NamedRun(c: ClientState, clock: nat, events: seq<ClientRuns.Event>)
    decreases |events|
  {
    events == [] ||
    (Named(clock, events[0]) && var (c', clock') := ClientRuns.Step(c, clock, events[0]); NamedRun(c', clock', events[1..]))
  }

  // ---- chains that cannot begin again ----

  ghost predicate Answered(c: ClientState, clock: nat, secret: HandshakeSecret, t: Transcript) {
    t.ephemeral.PublicKey? && exists k :: ClientRuns.Spent(c, clock, k) && SharedSecret(k, t.ephemeral) == Some(secret.dh4)
  }

  /** A chain that began with a key that is not drawn again: the ephemeral key of a handshake that
      the client began, the one-time key of one that it answered, the ratchet key otherwise. */
  ghost predicate Past(base: Key, c: ClientState, clock: nat) {
    match base
    case HandshakeChain(secret, t, true) => t.ephemeral.PublicKey? && t.ephemeral.id < clock
    case HandshakeChain(secret, t, false) => Answered(c, clock, secret, t)
    case RatchetChain(dh, _) => dh.hi < clock
    case _ => false
  }

  lemma PastForever(base: Key, c: ClientState, clock: nat, e: ClientRuns.Event)
    requires Past(base, c, clock)
    ensures var (c', clock') := ClientRuns.Step(c, clock, e); Past(base, c', clock')
  {
    var (c', clock') := ClientRuns.Step(c, clock, e);
    assert clock' >= clock;
    if base.HandshakeChain? && !base.ofInitiator {
      var k :| ClientRuns.Spent(c, clock, k) && SharedSecret(k, base.transcript.ephemeral) == Some(base.secret.dh4);
      ClientRuns.StepKeepsSpent(c, clock, e, k);
    }
  }

  // ---- the invariant ----

  /** The chain that a session sends on. */
  function SendBase(s: Session): Key {
    Base(s.sendChain)
  }

  ghost predicate SessionKeys(s: Session, c: ClientState, clock: nat, log: Log) {
    && s.sendCounter <= RatchetInterval && s.remote.PublicKey? && s.remote.id < clock
    && Past(SendBase(s), c, clock)
    && (forall m :: m in log && m.Sealed? && Base(m.key.chain) == SendBase(s) ==> m.key.counter < s.sendCounter)
  }

  ghost predicate AllSessionKeys(sessions: map<Text, Session>, c: ClientState, clock: nat, log: Log) {
    forall p :: p in sessions ==> SessionKeys(sessions[p], c, clock, log)
  }

  /** No two sessions send on one chain. */
  ghost predicate Apart(sessions: map<Text, Session>) {
    forall p, q :: p in sessions && q in sessions && p != q ==> SendBase(sessions[p]) != SendBase(sessions[q])
  }

  ghost predicate PastLog(log: Log, c: ClientState, clock: nat) {
    forall m :: m in log ==> m.Sealed? && Past(Base(m.key.chain), c, clock)
  }

  predicate DistinctKeys(log: Log) {
    && (forall i :: 0 <= i < |log| ==> log[i].Sealed? && log[i].nonce == Nonce(log[i].key.counter) && log[i].key.counter < RatchetInterval)
    && (forall i, j :: 0 <= i < j < |log| ==> log[i].key != log[j].key)
  }

  ghost predicate Inv(c: ClientState, clock: nat, log: Log) {
    && ClientRuns.KeysGenerated(c, clock)
    && AllSessionKeys(c.sessions, c, clock, log) && Apart(c.sessions) && PastLog(log, c, clock) && DistinctKeys(log)
  }

  /** One event later: what has passed stays so, and keys stay generated. */
  ghost predicate Advances(c: ClientState, clock: nat, c': ClientState, clock': nat) {
    && clock <= clock' && ClientRuns.KeysGenerated(c', clock')
    && (forall base :: Past(base, c, clock) ==> Past(base, c', clock'))
  }

  lemma StepAdvances(c: ClientState, clock: nat, e: ClientRuns.Event)
    requires ClientRuns.KeysGenerated(c, clock)
    ensures var (c', clock') := ClientRuns.Step(c, clock, e); Advances(c, clock, c', clock')
  {
    ClientRuns.StepKeepsKeys(c, clock, e);
    forall base | Past(base, c, clock) ensures var (c', clock') := ClientRuns.Step(c, clock, e); Past(base, c', clock') {
      PastForever(base, c, clock, e);
    }
  }

  lemma SameSessions(c: ClientState, clock: nat, c': ClientState, clock': nat, log: Log)
    requires Inv(c, clock, log) && Advances(c, clock, c', clock') && c'.sessions == c.sessions
    ensures Inv(c', clock', log)
  {
  }

  /** What may become of one session and what it may return: it begins a chain that could not have
      been used before, or goes on with its own beyond what it has sent. */
  ghost predicate Fits(c: ClientState, clock: nat, c': ClientState, clock': nat, p: Text, s: Session, out: Log) {
    && s.sendCounter <= RatchetInterval && s.remote.PublicKey? && s.remote.id < clock' && |out| <= 1
    && (|| (!Past(SendBase(s), c, clock) && Past(SendBase(s), c', clock'))
        || (p in c.sessions && SendBase(s) == SendBase(c.sessions[p]) && c.sessions[p].sendCounter <= s.sendCounter
            && forall m :: m in out && m.Sealed? ==> c.sessions[p].sendCounter <= m.key.counter))
    && (forall m :: m in out ==> m.Sealed? && m.nonce == Nonce(m.key.counter) && Base(m.key.chain) == SendBase(s)
                                 && m.key.counter < s.sendCounter)
  }

  lemma NewInLog(c: ClientState, clock: nat, c': ClientState, clock': nat, log: Log, p: Text, s: Session, out: Log)
    requires Inv(c, clock, log) && Fits(c, clock, c', clock', p, s, out)
    ensures DistinctKeys(log + out)
    ensures forall m :: m in log && m.Sealed? && Base(m.key.chain) == SendBase(s) ==> m.key.counter < s.sendCounter
  {
    var all := log + out;
    forall i, j | 0 <= i < j < |all| ensures all[i].key != all[j].key {
      if j < |log| {
      } else {
        assert all[i] == log[i] && all[i] in log && all[j] == out[0] && all[j] in out;
      }
    }
    forall i | 0 <= i < |all| ensures all[i].Sealed? && all[i].nonce == Nonce(all[i].key.counter) && all[i].key.counter < RatchetInterval {
      if i >= |log| {
        assert all[i] in out;
      }
    }
  }

  lemma OneSession(c: ClientState, clock: nat, c': ClientState, clock': nat, log: Log, p: Text, s: Session, out: Log)
    requires Inv(c, clock, log) && Advances(c, clock, c', clock') && c'.sessions == c.sessions[p := s]
    requires Fits(c, clock, c', clock', p, s, out)
    ensures Inv(c', clock', log + out)
  {
    NewInLog(c, clock, c', clock', log, p, s, out);
    forall q | q in c'.sessions ensures SessionKeys(c'.sessions[q], c', clock', log + out) {
      if q != p {
        assert SessionKeys(c.sessions[q], c, clock, log);
      }
    }
    forall q | q in c.sessions && q != p ensures SendBase(c.sessions[q]) != SendBase(s) {
      assert SessionKeys(c.sessions[q], c, clock, log);
    }
  }

  // ---- the events ----

  /** The chain and remote key of a session that has sent. */
  lemma SentBase(s: Session, user: Text, plaintext: Text, clock: nat)
    requires s.remote.PublicKey? && s.remote.id < clock && Send(s, user, plaintext, clock).Some?
    ensures var (s', m) := Send(s, user, plaintext, clock).value;
            && s'.remote == s.remote && Base(m.ciphertext.key.chain) == SendBase(s')
            && SendBase(s') == if RatchetsOnSend(s) then RatchetChain(Dh(s.remote.id, clock), s.root) else SendBase(s)
  {
    assert SharedSecret(clock, s.remote) == Some(Dh(s.remote.id, clock));
  }

  lemma SendFits(c: ClientState, clock: nat, peer: Text, plaintext: Text, log: Log)
    requires Inv(c, clock, log) && SendChat(c, peer, plaintext, clock).1.Some?
    ensures var (c', m) := SendChat(c, peer, plaintext, clock);
            && peer in c'.sessions && c'.sessions == c.sessions[peer := c'.sessions[peer]]
            && Fits(c, clock, c', clock + 1, peer, c'.sessions[peer], [m.value.ciphertext])
  {
    var s := c.sessions[peer];
    assert SessionKeys(s, c, clock, log);
    SentBase(s, c.me.user, plaintext, clock);
    if !RatchetsOnSend(s) {
      PastForever(SendBase(s), c, clock, ClientRuns.SendRequested(peer, plaintext));
    }
  }

  lemma ReceiveFits(c: ClientState, clock: nat, m: Chat, log: Log)
    requires Inv(c, clock, log) && Named(clock, ClientRuns.ChatArrives(m)) && m.toUser == c.me.user && m.fromUser in c.sessions
    ensures var c' := HandleChat(c, m).0;
            && m.fromUser in c'.sessions && c'.sessions == c.sessions[m.fromUser := c'.sessions[m.fromUser]]
            && Fits(c, clock, c', clock, m.fromUser, c'.sessions[m.fromUser], [])
  {
    assert SessionKeys(c.sessions[m.fromUser], c, clock, log);
  }

  lemma InitiateFits(c: ClientState, clock: nat, b: Bundle, peer: Text, plaintext: Text, d: Draws)
    requires Initiate(c, b, peer, plaintext, d).1.Some? && d.ephemeral == clock && Generated(b.signedEc, clock)
    ensures var (c', m) := Initiate(c, b, peer, plaintext, d);
            && peer in c'.sessions && c'.sessions == c.sessions[peer := c'.sessions[peer]]
            && Fits(c, clock, c', clock + 1, peer, c'.sessions[peer], [m.value.ciphertext])
  {
    var (c', m) := Initiate(c, b, peer, plaintext, d);
    var secret, t := InitiatorSecret(c.me, b, d).value, InitiatorTranscript(c.me, b, peer, d);
    assert c'.sessions[peer].sendChain == NextChain(HandshakeChain(secret, t, true), 0);
    assert Base(HandshakeChain(secret, t, true)) == HandshakeChain(secret, t, true);
    assert m.value.ciphertext.key == MessageKey(HandshakeChain(secret, t, true), 0);
  }

  lemma AnswerFits(c: ClientState, clock: nat, m: Initial)
    requires HandleInitial(c, m).1.Some? && ClientRuns.KeysGenerated(c, clock) && Generated(m.ephemeral, clock)
    ensures var c' := HandleInitial(c, m).0;
            && m.fromUser in c'.sessions && c'.sessions == c.sessions[m.fromUser := c'.sessions[m.fromUser]]
            && Fits(c, clock, c', clock, m.fromUser, c'.sessions[m.fromUser], [])
  {
    var c' := HandleInitial(c, m).0;
    var key := ClientRuns.KeyUsed(c, m);
    var secret, t := m.ciphertext.key.chain.secret, m.transcriptHash;
    assert SendBase(c'.sessions[m.fromUser]) == HandshakeChain(secret, t, false);
    assert t.ephemeral == m.ephemeral && SharedSecret(key, m.ephemeral) == Some(secret.dh4);
    ClientRuns.AcceptSpends(c, clock, m);
    forall k | ClientRuns.Spent(c, clock, k) ensures SharedSecret(k, t.ephemeral) != Some(secret.dh4) {
      SharedSecretAgrees(k, t.ephemeral.id, 0);
      SharedSecretAgrees(key, t.ephemeral.id, 0);
      SharedSecretAgrees(t.ephemeral.id, k, key);
    }
  }

  lemma StepKeepsInv(c: ClientState, clock: nat, e: ClientRuns.Event, log: Log)
    requires Inv(c, clock, log) && Named(clock, e)
    ensures var (c', clock') := ClientRuns.Step(c, clock, e); Inv(c', clock', log + Returned(c, clock, e))
  {
    var (c', clock') := ClientRuns.Step(c, clock, e);
    StepAdvances(c, clock, e);
    assert log + [] == log;
    if e.SendRequested? && SendChat(c, e.peer, e.plaintext, clock).1.Some? {
      SendFits(c, clock, e.peer, e.plaintext, log);
      OneSession(c, clock, c', clock', log, e.peer, c'.sessions[e.peer], Returned(c, clock, e));
    } else if e.ChatArrives? && e.chat.toUser == c.me.user && e.chat.fromUser in c.sessions {
      ReceiveFits(c, clock, e.chat, log);
      OneSession(c, clock, c', clock', log, e.chat.fromUser, c'.sessions[e.chat.fromUser], []);
    } else if e.InitialArrives? && HandleInitial(c, e.initial).1.Some? {
      AnswerFits(c, clock, e.initial);
      OneSession(c, clock, c', clock', log, e.initial.fromUser, c'.sessions[e.initial.fromUser], []);
    } else if e.InitiateRequested? {
      var d := Draws(e.sessionId, clock, e.seed1, e.seed2);
      if Initiate(c, e.bundle, e.peer, e.plaintext, d).1.Some? {
        InitiateFits(c, clock, e.bundle, e.peer, e.plaintext, d);
        OneSession(c, clock, c', clock', log, e.peer, c'.sessions[e.peer], Returned(c, clock, e));
      } else {
        SameSessions(c, clock, c', clock', log);
      }
    } else {
      SameSessions(c, clock, c', clock', log);
    }
  }

  lemma {:induction false} RunKeepsInv(c: ClientState, clock: nat, events: seq<ClientRuns.Event>, log: Log)
    requires Inv(c, clock, log) && NamedRun(c, clock, events)
    ensures var (c', clock') := ClientRuns.Run(c, clock, events); Inv(c', clock', log + ReturnedLog(c, clock, events))
    decreases |events|
  {
    if events == [] {
      assert log + [] == log;
    } else {
      var (c', clock') := ClientRuns.Step(c, clock, events[0]);
      var out, rest := Returned(c, clock, events[0]), ReturnedLog(c', clock', events[1..]);
      StepKeepsInv(c, clock, events[0], log);
      RunKeepsInv(c', clock', events[1..], log + out);
      assert (log + out) + rest == log + (out + rest);
    }
  }

  /** Every key once. From a client without sessions, in every run in which keys named by the network
      have been generated by somebody: all ciphertexts that the client returns are sealed under
      pairwise different message keys, each with the nonce of its key's position, and no session's
      counter exceeds the ratchet interval. So no nonce is ever used twice under a key. */
  lemma EveryKeyOnce(c: ClientState, clock: nat, events: seq<ClientRuns.Event>)
    requires c.sessions == map[] && ClientRuns.KeysGenerated(c, clock) && NamedRun(c, clock, events)
    ensures DistinctKeys(ReturnedLog(c, clock, events))
    ensures var c' := ClientRuns.Run(c, clock, events).0;
            forall p :: p in c'.sessions ==> c'.sessions[p].sendCounter <= RatchetInterval && c'.sessions[p].remote.PublicKey?
  {
    assert Inv(c, clock, []);
    RunKeepsInv(c, clock, events, []);
    assert [] + ReturnedLog(c, clock, events) == ReturnedLog(c, clock, events);
    var (c', clock') := ClientRuns.Run(c, clock, events);
    forall p | p in c'.sessions ensures SessionKeys(c'.sessions[p], c', clock', ReturnedLog(c, clock, events)) {
    }
  }

  /** In such a run a client with a session can always send: no ratchet of its own fails. */
  lemma SendingNeverFails(c: ClientState, clock: nat, events: seq<ClientRuns.Event>, peer: Text, text: Text, key: nat)
    requires c.sessions == map[] && ClientRuns.KeysGenerated(c, clock) && NamedRun(c, clock, events)
    ensures var c' := ClientRuns.Run(c, clock, events).0; SendChat(c', peer, text, key).1.Some? <==> peer in c'.sessions
  {
    EveryKeyOnce(c, clock, events);
  }
}
