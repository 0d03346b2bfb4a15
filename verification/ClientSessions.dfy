/** The laws of sessions, for clients: stated on the messages a client is given and returns and on
    the texts it shows, whatever else the client does in between. */
module ClientSessions {
  import opened Wrappers
  import opened Bytes
  import opened Messages
  import opened Symbolic
  import opened Sessions
  import opened KeyTerms
  import opened ClientSpec
  import ClientRuns
  import Handshake
  import Agreement = SessionAgreement
  import Safety = SessionSafety

  // ---- one client and one peer ----

  /** The chat ciphertexts that an event makes the client accept from a peer. */
  function Accepted(c: ClientState, e: ClientRuns.Event, peer: Text): Safety.Log {
    if e.ChatArrives? && e.chat.fromUser == peer && HandleChat(c, e.chat).1.Some? then [e.chat.ciphertext] else []
  }

  /** The chat ciphertexts that an event makes the client return for a peer. */
  function Returned(c: ClientState, clock: nat, e: ClientRuns.Event, peer: Text): Safety.Log {
    if e.SendRequested? && e.peer == peer && SendChat(c, peer, e.plaintext, clock).1.Some?
    then [SendChat(c, peer, e.plaintext, clock).1.value.ciphertext] else []
  }

  /** The event is a handshake with the peer that goes through. */
  predicate Handshakes(c: ClientState, clock: nat, e: ClientRuns.Event, peer: Text) {
    || (e.InitialArrives? && e.initial.fromUser == peer && HandleInitial(c, e.initial).1.Some?)
    || (e.InitiateRequested? && e.peer == peer
        && Initiate(c, e.bundle, e.peer, e.plaintext, Draws(e.sessionId, clock, e.seed1, e.seed2)).1.Some?)
  }

  predicate NoHandshake(c: ClientState, clock: nat, events: seq<ClientRuns.Event>, peer: Text)
    decreases |events|
  {
    events == [] ||
    (!Handshakes(c, clock, events[0], peer)
     && var (c', clock') := ClientRuns.Step(c, clock, events[0]); NoHandshake(c', clock', events[1..], peer))
  }

  /** All that is accepted from the peer, and all that is returned for it, in a run. */
  function AcceptedLog(c: ClientState, clock: nat, events: seq<ClientRuns.Event>, peer: Text): Safety.Log
    decreases |events|
  {
    if events == [] then [] else
    var (c', clock') := ClientRuns.Step(c, clock, events[0]);
    Accepted(c, events[0], peer) + AcceptedLog(c', clock', events[1..], peer)
  }

  function ReturnedLog(c: ClientState, clock: nat, events: seq<ClientRuns.Event>, peer: Text): Safety.Log
    decreases |events|
  {
    if events == [] then [] else
    var (c', clock') := ClientRuns.Step(c, clock, events[0]);
    Returned(c, clock, events[0], peer) + ReturnedLog(c', clock', events[1..], peer)
  }

  /** What an event does to the session with a peer, if it is no handshake with that peer. */
  lemma SessionAfter(c: ClientState, clock: nat, e: ClientRuns.Event, peer: Text)
    requires peer in c.sessions && !Handshakes(c, clock, e, peer)
    ensures var c' := ClientRuns.Step(c, clock, e).0;
            && c'.me == c.me && peer in c'.sessions
            && c'.sessions[peer] ==
               (if e.ChatArrives? && e.chat.fromUser == peer && e.chat.toUser == c.me.user then Receive(c.sessions[peer], e.chat).0
                else if e.SendRequested? && e.peer == peer && Send(c.sessions[peer], c.me.user, e.plaintext, clock).Some?
                then Send(c.sessions[peer], c.me.user, e.plaintext, clock).value.0
                else c.sessions[peer])
  {
  }

  /** The session with its logs, as SessionSafety sees it. */
  function SideOf(c: ClientState, peer: Text, sealedLog: Safety.Log, accepted: Safety.Log): Safety.Side
    requires peer in c.sessions
  {
    Safety.Side(c.me.user, c.sessions[peer], sealedLog, accepted)
  }

  lemma StepKeepsSide(c: ClientState, clock: nat, e: ClientRuns.Event, peer: Text, sealedLog: Safety.Log, accepted: Safety.Log,
                      origin: (HandshakeSecret, Transcript))
    requires peer in c.sessions && !Handshakes(c, clock, e, peer)
    requires Safety.SideInv(SideOf(c, peer, sealedLog, accepted), origin)
    ensures var c' := ClientRuns.Step(c, clock, e).0;
            && peer in c'.sessions
            && Safety.SideInv(SideOf(c', peer, sealedLog + Returned(c, clock, e, peer), accepted + Accepted(c, e, peer)), origin)
  {
    SessionAfter(c, clock, e, peer);
    var side := SideOf(c, peer, sealedLog, accepted);
    assert sealedLog + [] == sealedLog && accepted + [] == accepted;
    if e.ChatArrives? && e.chat.fromUser == peer && e.chat.toUser == c.me.user {
      Safety.ReceiveSide(side, e.chat, origin);
    } else if e.SendRequested? && e.peer == peer && Send(c.sessions[peer], c.me.user, e.plaintext, clock).Some? {
      Safety.SendSide(side, e.plaintext, clock, origin);
    }
  }

  lemma {:induction false} RunKeepsSide(c: ClientState, clock: nat, events: seq<ClientRuns.Event>, peer: Text,
                                        sealedLog: Safety.Log, accepted: Safety.Log, origin: (HandshakeSecret, Transcript))
    requires peer in c.sessions && NoHandshake(c, clock, events, peer)
    requires Safety.SideInv(SideOf(c, peer, sealedLog, accepted), origin)
    ensures var c' := ClientRuns.Run(c, clock, events).0;
            && peer in c'.sessions
            && Safety.SideInv(SideOf(c', peer, sealedLog + ReturnedLog(c, clock, events, peer),
                                     accepted + AcceptedLog(c, clock, events, peer)), origin)
    decreases |events|
  {
    if events == [] {
      assert sealedLog + [] == sealedLog && accepted + [] == accepted;
    } else {
      var e := events[0];
      var (c', clock') := ClientRuns.Step(c, clock, e);
      StepKeepsSide(c, clock, e, peer, sealedLog, accepted, origin);
      RunKeepsSide(c', clock', events[1..], peer, sealedLog + Returned(c, clock, e, peer), accepted + Accepted(c, e, peer), origin);
      LogAssoc(sealedLog, Returned(c, clock, e, peer), ReturnedLog(c', clock', events[1..], peer));
      LogAssoc(accepted, Accepted(c, e, peer), AcceptedLog(c', clock', events[1..], peer));
    }
  }

  lemma LogAssoc(a: Safety.Log, b: Safety.Log, c: Safety.Log)
    ensures (a + b) + c == a + (b + c)
  {
  }

  /** Each entry is of an earlier chain than the ones after it, or earlier in the same chain. */
  ghost predicate StrictlyForward(log: Safety.Log) {
    && (forall i :: 0 <= i < |log| ==> log[i].Sealed?)
    && (forall i, j :: 0 <= i < j < |log| ==> Precedes(log[i].key, log[j].key) && log[i] != log[j])
  }

  lemma SideForward(s: Safety.Side, origin: (HandshakeSecret, Transcript))
    requires Safety.SideInv(s, origin)
    ensures StrictlyForward(s.accepted) && StrictlyForward(s.sealedLog) && s.session.sendCounter <= RatchetInterval
  {
  }

  /** A session of the initiator's shape, and one of the responder's. */
  lemma FirstSealed(u: Session, user: Text, secret: HandshakeSecret, t: Transcript, c: Ciphertext)
    requires u.root == HandshakeRoot(secret, t) && u.sendCounter == 1 && u.recvCounter == 0
    requires c.Sealed? && c.key == MessageKey(HandshakeChain(secret, t, true), 0)
    requires u.sendChain == NextChain(c.key.chain, 0) && u.recvChain == HandshakeChain(secret, t, false)
    ensures Safety.SideInv(Safety.Side(user, u, [c], []), (secret, t))
  {
    assert Length(c.key.chain) == 0 && Base(c.key.chain) == c.key.chain;
    assert Base(u.sendChain) == c.key.chain && Length(u.sendChain) == 1;
    assert Safety.Follows(c.key, MessageKey(u.sendChain, 1)) && Precedes(c.key, MessageKey(u.sendChain, 1));
  }

  lemma FirstAccepted(u: Session, user: Text, secret: HandshakeSecret, t: Transcript, c: Ciphertext)
    requires u.root == HandshakeRoot(secret, t) && u.sendCounter == 0 && u.recvCounter == 1
    requires c.Sealed? && c.key == MessageKey(HandshakeChain(secret, t, true), 0)
    requires u.recvChain == NextChain(c.key.chain, 0) && u.sendChain == HandshakeChain(secret, t, false)
    ensures Safety.SideInv(Safety.Side(user, u, [], [c]), (secret, t))
  {
    assert Length(c.key.chain) == 0 && Base(c.key.chain) == c.key.chain;
    assert Base(u.recvChain) == c.key.chain && Length(u.recvChain) == 1;
    assert Safety.Follows(c.key, MessageKey(u.recvChain, 1)) && Precedes(c.key, MessageKey(u.recvChain, 1));
  }

  /** The handshakes start the logs. */
  lemma InitiatedSide(c: ClientState, b: Bundle, peer: Text, plaintext: Text, d: Draws)
    requires Initiate(c, b, peer, plaintext, d).1.Some?
    ensures var (c', m) := Initiate(c, b, peer, plaintext, d);
            && peer in c'.sessions
            && Safety.SideInv(SideOf(c', peer, [m.value.ciphertext], []), Origin(c'.sessions[peer].root))
  {
    var secret, t := InitiatorSecret(c.me, b, d).value, InitiatorTranscript(c.me, b, peer, d);
    var (c', m) := Initiate(c, b, peer, plaintext, d);
    FirstSealed(c'.sessions[peer], c'.me.user, secret, t, m.value.ciphertext);
  }

  lemma AcceptedSide(c: ClientState, m: Initial)
    requires HandleInitial(c, m).1.Some?
    ensures var c' := HandleInitial(c, m).0;
            && m.fromUser in c'.sessions
            && Safety.SideInv(SideOf(c', m.fromUser, [], [m.ciphertext]), Origin(c'.sessions[m.fromUser].root))
  {
    var secret := m.ciphertext.key.chain.secret;
    var c' := HandleInitial(c, m).0;
    FirstAccepted(c'.sessions[m.fromUser], c'.me.user, secret, m.transcriptHash, m.ciphertext);
  }

  /** One session, as its client sees it. After a handshake that it answered, and until the next with
      the same peer, whatever the client does and whatever reaches it: what it accepts from the peer,
      the handshake's message first, goes strictly forward, so no ciphertext is accepted twice; and so
      does what it returns for the peer. */
  lemma AnsweredSession(c: ClientState, m: Initial, clock: nat, events: seq<ClientRuns.Event>)
    requires HandleInitial(c, m).1.Some? && NoHandshake(HandleInitial(c, m).0, clock, events, m.fromUser)
    ensures var c' := HandleInitial(c, m).0;
            && StrictlyForward([m.ciphertext] + AcceptedLog(c', clock, events, m.fromUser))
            && StrictlyForward(ReturnedLog(c', clock, events, m.fromUser))
  {
    var c' := HandleInitial(c, m).0;
    var origin := Origin(c'.sessions[m.fromUser].root);
    AcceptedSide(c, m);
    RunKeepsSide(c', clock, events, m.fromUser, [], [m.ciphertext], origin);
    SideForward(SideOf(ClientRuns.Run(c', clock, events).0, m.fromUser, [] + ReturnedLog(c', clock, events, m.fromUser),
                       [m.ciphertext] + AcceptedLog(c', clock, events, m.fromUser)), origin);
    assert [] + ReturnedLog(c', clock, events, m.fromUser) == ReturnedLog(c', clock, events, m.fromUser);
  }

  /** The same after a handshake that the client began. */
  lemma BegunSession(c: ClientState, b: Bundle, peer: Text, plaintext: Text, d: Draws, clock: nat, events: seq<ClientRuns.Event>)
    requires Initiate(c, b, peer, plaintext, d).1.Some? && NoHandshake(Initiate(c, b, peer, plaintext, d).0, clock, events, peer)
    ensures var (c', m) := Initiate(c, b, peer, plaintext, d);
            && StrictlyForward(AcceptedLog(c', clock, events, peer))
            && StrictlyForward([m.value.ciphertext] + ReturnedLog(c', clock, events, peer))
  {
    var (c', m) := Initiate(c, b, peer, plaintext, d);
    var origin := Origin(c'.sessions[peer].root);
    InitiatedSide(c, b, peer, plaintext, d);
    RunKeepsSide(c', clock, events, peer, [m.value.ciphertext], [], origin);
    SideForward(SideOf(ClientRuns.Run(c', clock, events).0, peer, [m.value.ciphertext] + ReturnedLog(c', clock, events, peer),
                       [] + AcceptedLog(c', clock, events, peer)), origin);
    assert [] + AcceptedLog(c', clock, events, peer) == AcceptedLog(c', clock, events, peer);
  }

  // ---- two clients on a hostile network ----

  /** Two clients that draw keys from one clock, with the logs of what each has returned for the other
      and accepted from it. */
  datatype Duo = Duo(x: ClientState, y: ClientState, clock: nat,
                     sealedX: Safety.Log, acceptedX: Safety.Log, sealedY: Safety.Log, acceptedY: Safety.Log)

  function FlipDuo(d: Duo): Duo {
    Duo(d.y, d.x, d.clock, d.sealedY, d.acceptedY, d.sealedX, d.acceptedX)
  }

  predicate Peers(d: Duo) {
    d.y.me.user in d.x.sessions && d.x.me.user in d.y.sessions
  }

  /** The two sessions as a network. */
  function Net(d: Duo): Safety.Network
    requires Peers(d)
  {
    Safety.Network(SideOf(d.x, d.y.me.user, d.sealedX, d.acceptedX), SideOf(d.y, d.x.me.user, d.sealedY, d.acceptedY), d.clock)
  }

  /** Something happens to x. */
  function DuoAct(d: Duo, e: ClientRuns.Event): Duo {
    var (x', clock') := ClientRuns.Step(d.x, d.clock, e);
    d.(x := x', clock := clock', sealedX := d.sealedX + Returned(d.x, d.clock, e, d.y.me.user),
       acceptedX := d.acceptedX + Accepted(d.x, e, d.y.me.user))
  }

  /** Something happens to x or, with the flag, to y. */
  function DuoStep(d: Duo, e: (bool, ClientRuns.Event)): Duo {
    if e.0 then FlipDuo(DuoAct(FlipDuo(d), e.1)) else DuoAct(d, e.1)
  }

  function DuoRun(d: Duo, events: seq<(bool, ClientRuns.Event)>): Duo
    decreases |events|
  {
    if events == [] then d else DuoRun(DuoStep(d, events[0]), events[1..])
  }

  /** No new handshake between the two, and chat messages in the other's name are what the network can
      hand over. Everything else is free. */
  predicate DuoAllowed(d: Duo, e: ClientRuns.Event)
    requires Peers(d)
  {
    && !Handshakes(d.x, d.clock, e, d.y.me.user)
    && (e.ChatArrives? && e.chat.fromUser == d.y.me.user ==> Safety.Deliverable(Safety.Flip(Net(d)), e.chat))
  }

  predicate DuoAllowedRun(d: Duo, events: seq<(bool, ClientRuns.Event)>)
    decreases |events|
  {
    events == [] ||
    (Peers(d) && DuoAllowed(if events[0].0 then FlipDuo(d) else d, events[0].1) && DuoAllowedRun(DuoStep(d, events[0]), events[1..]))
  }

  ghost predicate DuoInv(d: Duo) {
    Peers(d) && Safety.Inv(Net(d)) && Safety.KeyInv(Net(d))
  }

  lemma FlippedInv(n: Safety.Network)
    requires Safety.Inv(n) && Safety.KeyInv(n)
    ensures Safety.Inv(Safety.Flip(n)) && Safety.KeyInv(Safety.Flip(n))
  {
  }

  /** What an event is for the network of the two sessions. */
  lemma DuoFollows(d: Duo, e: ClientRuns.Event)
    requires Peers(d) && DuoAllowed(d, e)
    ensures var u, n, n' := d.y.me.user, Net(d), Net(DuoAct(d, e));
            Peers(DuoAct(d, e)) &&
            if e.ChatArrives? && e.chat.fromUser == u && e.chat.toUser == d.x.me.user
            then n' == Safety.Flip(Safety.Act(Safety.Flip(n), Safety.DeliverAction(e.chat)))
            else if e.SendRequested? && e.peer == u && Send(d.x.sessions[u], d.x.me.user, e.plaintext, d.clock).Some?
            then n' == Safety.Act(n, Safety.SendAction(e.plaintext))
            else n' == n.(clock := n'.clock) && n'.clock >= n.clock
  {
    SessionAfter(d.x, d.clock, e, d.y.me.user);
    assert d.sealedX + [] == d.sealedX && d.acceptedX + [] == d.acceptedX;
  }

  lemma LaterKeyInv(n: Safety.Network, clock: nat)
    requires Safety.KeyInv(n) && n.clock <= clock
    ensures Safety.KeyInv(n.(clock := clock))
  {
  }

  lemma DuoActKeepsInv(d: Duo, e: ClientRuns.Event)
    requires DuoInv(d) && DuoAllowed(d, e)
    ensures DuoInv(DuoAct(d, e))
  {
    var n, u := Net(d), d.y.me.user;
    DuoFollows(d, e);
    if e.ChatArrives? && e.chat.fromUser == u && e.chat.toUser == d.x.me.user {
      var a := Safety.DeliverAction(e.chat);
      FlippedInv(n);
      Safety.ActKeepsInv(Safety.Flip(n), a);
      Safety.ActKeepsKeyInv(Safety.Flip(n), a);
      FlippedInv(Safety.Act(Safety.Flip(n), a));
    } else if e.SendRequested? && e.peer == u && Send(d.x.sessions[u], d.x.me.user, e.plaintext, d.clock).Some? {
      Safety.ActKeepsInv(n, Safety.SendAction(e.plaintext));
      Safety.ActKeepsKeyInv(n, Safety.SendAction(e.plaintext));
    } else {
      LaterKeyInv(n, Net(DuoAct(d, e)).clock);
    }
  }

  lemma FlippedDuo(d: Duo)
    requires DuoInv(d)
    ensures DuoInv(FlipDuo(d))
  {
    FlippedInv(Net(d));
    assert Net(FlipDuo(d)) == Safety.Flip(Net(d));
  }

  lemma DuoStepKeepsInv(d: Duo, e: (bool, ClientRuns.Event))
    requires DuoInv(d) && DuoAllowed(if e.0 then FlipDuo(d) else d, e.1)
    ensures DuoInv(DuoStep(d, e))
  {
    if e.0 {
      FlippedDuo(d);
      DuoActKeepsInv(FlipDuo(d), e.1);
      FlippedDuo(DuoAct(FlipDuo(d), e.1));
    } else {
      DuoActKeepsInv(d, e.1);
    }
  }

  lemma {:induction false} DuoRunKeepsInv(d: Duo, events: seq<(bool, ClientRuns.Event)>)
    requires DuoInv(d) && DuoAllowedRun(d, events)
    ensures DuoInv(DuoRun(d, events))
    decreases |events|
  {
    if events != [] {
      DuoStepKeepsInv(d, events[0]);
      DuoRunKeepsInv(DuoStep(d, events[0]), events[1..]);
    }
  }

  /** Two clients. From mirrored sessions and until they shake hands again, whatever either does and
      whatever a hostile network hands it: what each accepts from the other is an order-preserving,
      duplicate-free selection of what the other returned for it, contiguous within each chain; and
      all message keys that the two return for each other are different. */
  lemma ClientsSafe(d: Duo, first: Ciphertext, events: seq<(bool, ClientRuns.Event)>)
    requires Peers(d) && Safety.Start(Net(d), first) && DuoAllowedRun(d, events)
    ensures var t := DuoRun(d, events);
            && Safety.IsSelection(t.acceptedY, t.sealedX) && Safety.IsSelection(t.acceptedX, t.sealedY)
            && Safety.DistinctKeys(t.sealedX + t.sealedY)
  {
    Safety.StartInv(Net(d), first);
    DuoRunKeepsInv(d, events);
    var t := DuoRun(d, events);
    var n := Net(t);
    var x, y := n.x.session, n.y.session;
    Safety.OrderedSelection(y.recvChain, y.recvCounter, t.acceptedY, x.sendChain, x.sendCounter, t.sealedX);
    Safety.OrderedSelection(x.recvChain, x.recvCounter, t.acceptedX, y.sendChain, y.sendCounter, t.sealedY);
    Safety.DistinctWithin(x.sendChain, x.sendCounter, t.sealedX);
    Safety.DistinctWithin(y.sendChain, y.sendCounter, t.sealedY);
    Safety.DistinctTogether(n.x, n.y);
  }

  // ---- two clients over ordered mailboxes ----

  /** Two clients, the messages on their way, and what each user has sent and been shown; `refused`
      counts the messages that a client refused. */
  datatype Pair = Pair(x: ClientState, y: ClientState, toY: seq<Chat>, toX: seq<Chat>,
                       sentX: seq<Text>, shownX: seq<Text>, refusedX: nat, sentY: seq<Text>, shownY: seq<Text>, refusedY: nat)

  function FlipPair(p: Pair): Pair {
    Pair(p.y, p.x, p.toX, p.toY, p.sentY, p.shownY, p.refusedY, p.sentX, p.shownX, p.refusedX)
  }

  /** x sends, or y is handed the oldest message of x. */
  function PairAct(p: Pair, a: Agreement.Action): Pair {
    match a
    case SendAction(plaintext, newKey) =>
      (match SendChat(p.x, p.y.me.user, plaintext, newKey)
       case (x', None) => p.(x := x')
       case (x', Some(m)) => p.(x := x', toY := p.toY + [m], sentX := p.sentX + [plaintext]))
    case DeliverAction =>
      if p.toY == [] then p else
      match HandleChat(p.y, p.toY[0])
      case (y', None) => p.(y := y', toY := p.toY[1..], refusedY := p.refusedY + 1)
      case (y', Some(text)) => p.(y := y', toY := p.toY[1..], shownY := p.shownY + [text])
  }

  function PairStep(p: Pair, e: Agreement.Event): Pair {
    if e.flipped then FlipPair(PairAct(FlipPair(p), e.action)) else PairAct(p, e.action)
  }

  function PairRun(p: Pair, events: seq<Agreement.Event>): Pair
    decreases |events|
  {
    if events == [] then p else PairRun(PairStep(p, events[0]), events[1..])
  }

  /** Each has a session with the other, and what is on its way is addressed so. */
  predicate Linked(p: Pair) {
    && p.y.me.user in p.x.sessions && p.x.me.user in p.y.sessions
    && p.x.sessions[p.y.me.user].peer == p.y.me.user && p.y.sessions[p.x.me.user].peer == p.x.me.user
    && (forall m :: m in p.toY ==> m.fromUser == p.x.me.user && m.toUser == p.y.me.user)
    && (forall m :: m in p.toX ==> m.fromUser == p.y.me.user && m.toUser == p.x.me.user)
  }

  function View(p: Pair): Agreement.System
    requires Linked(p)
  {
    Agreement.System(
      Agreement.Side(p.x.me.user, p.x.sessions[p.y.me.user], p.toY, p.sentX, p.shownX, p.refusedX),
      Agreement.Side(p.y.me.user, p.y.sessions[p.x.me.user], p.toX, p.sentY, p.shownY, p.refusedY))
  }

  lemma SendFollows(p: Pair, plaintext: Text, newKey: nat)
    requires Linked(p)
    ensures var a := Agreement.SendAction(plaintext, newKey); Linked(PairAct(p, a)) && View(PairAct(p, a)) == Agreement.Act(View(p), a)
  {
  }

  lemma DeliverFollows(p: Pair)
    requires Linked(p)
    ensures var a := Agreement.DeliverAction; Linked(PairAct(p, a)) && View(PairAct(p, a)) == Agreement.Act(View(p), a)
  {
    if p.toY != [] {
      assert p.toY[0] in p.toY;
    }
  }

  lemma StepFollows(p: Pair, e: Agreement.Event)
    requires Linked(p)
    ensures Linked(PairStep(p, e)) && View(PairStep(p, e)) == Agreement.Step(View(p), e)
  {
    var q := if e.flipped then FlipPair(p) else p;
    if e.action.SendAction? {
      SendFollows(q, e.action.plaintext, e.action.newKey);
    } else {
      DeliverFollows(q);
    }
  }

  lemma {:induction false} PairFollows(p: Pair, events: seq<Agreement.Event>)
    requires Linked(p)
    ensures Linked(PairRun(p, events)) && View(PairRun(p, events)) == Agreement.Run(View(p), events)
    decreases |events|
  {
    if events != [] {
      StepFollows(p, events[0]);
      PairFollows(PairStep(p, events[0]), events[1..]);
    }
  }

  /** What x is asked to send in a run. */
  function Asked(events: seq<Agreement.Event>, flipped: bool): seq<Text>
    decreases |events|
  {
    if events == [] then [] else
    (if events[0].flipped == flipped && events[0].action.SendAction? then [events[0].action.plaintext] else [])
    + Asked(events[1..], flipped)
  }

  /** One request to send adds its text to what was sent, whatever the other user does. */
  lemma SentStep(p: Pair, e: Agreement.Event)
    requires Linked(p) && Agreement.InSync(View(p))
    ensures var q := PairStep(p, e);
            && q.sentX == p.sentX + (if !e.flipped && e.action.SendAction? then [e.action.plaintext] else [])
            && q.sentY == p.sentY + (if e.flipped && e.action.SendAction? then [e.action.plaintext] else [])
  {
    assert p.sentX + [] == p.sentX && p.sentY + [] == p.sentY;
  }

  lemma StepKeepsSync(s: Agreement.System, e: Agreement.Event)
    requires Agreement.InSync(s) && Agreement.Allowed(if e.flipped then Agreement.Flip(s) else s, e.action)
    ensures Agreement.InSync(Agreement.Step(s, e))
  {
    if e.flipped {
      assert Agreement.InSync(Agreement.Flip(s));
      Agreement.ActKeepsSync(Agreement.Flip(s), e.action);
    } else {
      Agreement.ActKeepsSync(s, e.action);
    }
  }

  /** One step of a run that is allowed, on the clients. */
  lemma AllowedStep(p: Pair, e: Agreement.Event)
    requires Linked(p) && Agreement.InSync(View(p)) && Agreement.Allowed(if e.flipped then Agreement.Flip(View(p)) else View(p), e.action)
    ensures Linked(PairStep(p, e)) && Agreement.InSync(View(PairStep(p, e)))
    ensures View(PairStep(p, e)) == Agreement.Step(View(p), e)
  {
    StepFollows(p, e);
    StepKeepsSync(View(p), e);
  }

  lemma AskedMore(texts: seq<Text>, now: seq<Text>, e: Agreement.Event, rest: seq<Agreement.Event>, flipped: bool)
    requires now == texts + if e.flipped == flipped && e.action.SendAction? then [e.action.plaintext] else []
    ensures now + Asked(rest, flipped) == texts + Asked([e] + rest, flipped)
  {
    assert ([e] + rest)[1..] == rest;
  }

  lemma {:induction false} AllSent(p: Pair, events: seq<Agreement.Event>)
    requires Linked(p) && Agreement.InSync(View(p)) && Agreement.AllowedRun(View(p), events)
    ensures PairRun(p, events).sentX == p.sentX + Asked(events, false)
    ensures PairRun(p, events).sentY == p.sentY + Asked(events, true)
    decreases |events|
  {
    if events == [] {
      assert p.sentX + [] == p.sentX && p.sentY + [] == p.sentY;
    } else {
      var e, rest := events[0], events[1..];
      var q := PairStep(p, e);
      SentStep(p, e);
      AllowedStep(p, e);
      AllSent(q, rest);
      assert [e] + rest == events;
      AskedMore(p.sentX, q.sentX, e, rest, false);
      AskedMore(p.sentY, q.sentY, e, rest, true);
    }
  }

  lemma StartSync(s: Agreement.System)
    requires Agreement.Start(s)
    ensures Agreement.InSync(s)
  {
    assert s.y.received + [] == s.x.sent && s.x.received + [] == s.y.sent;
  }

  /** Agreement of clients. From mirrored sessions, in every run of sends and in-order deliveries in
      which no ratchets cross: every text that a client is asked to send is sent, no client refuses a
      message, each user is shown a beginning of what the other was asked to send, and all of it once
      nothing is on its way. */
  lemma ClientsAgree(p: Pair, events: seq<Agreement.Event>)
    requires Linked(p) && Agreement.Start(View(p)) && Agreement.AllowedRun(View(p), events)
    ensures var t := PairRun(p, events);
            && t.sentX == p.sentX + Asked(events, false) && t.sentY == p.sentY + Asked(events, true)
            && t.refusedX == 0 && t.refusedY == 0
            && t.shownY <= t.sentX && t.shownX <= t.sentY
            && (t.toY == [] ==> t.shownY == t.sentX) && (t.toX == [] ==> t.shownX == t.sentY)
  {
    PairFollows(p, events);
    Agreement.Agreement(View(p), events);
    StartSync(View(p));
    AllSent(p, events);
  }

  /** A send that succeeds and a delivery, on the queues and texts. */
  lemma SentOne(p: Pair, text: Text, newKey: nat)
    requires Linked(p) && p.x.sessions[p.y.me.user].remote.PublicKey?
    ensures var q := PairAct(p, Agreement.SendAction(text, newKey));
            && |q.toY| == |p.toY| + 1 && q.sentX == p.sentX + [text] && q.toX == p.toX
            && Linked(q) && q.x.sessions[q.y.me.user].remote == p.x.sessions[p.y.me.user].remote
            && (q.x.sessions[q.y.me.user].local == p.x.sessions[p.y.me.user].local || q.x.sessions[q.y.me.user].local == newKey)
  {
  }

  lemma DeliveredOne(p: Pair)
    requires Linked(p) && p.toY != []
    ensures var q := PairAct(p, Agreement.DeliverAction); |q.toY| == |p.toY| - 1 && q.sentX == p.sentX && q.toX == p.toX
  {
  }

  /** Two messages sent in a row and delivered in order are both shown. */
  lemma TwoInARow(p: Pair, a: Text, b: Text, k: nat, l: nat)
    requires Linked(p) && Agreement.Start(View(p))
    requires k != p.x.sessions[p.y.me.user].local && l != p.x.sessions[p.y.me.user].local && k != l
    ensures var events := [Agreement.Event(false, Agreement.SendAction(a, k)), Agreement.Event(false, Agreement.SendAction(b, l)),
                           Agreement.Event(false, Agreement.DeliverAction), Agreement.Event(false, Agreement.DeliverAction)];
            PairRun(p, events).shownY == p.shownY + [a, b] && PairRun(p, events).refusedY == 0
  {
    var sendA, sendB, take := Agreement.SendAction(a, k), Agreement.SendAction(b, l), Agreement.DeliverAction;
    var p1 := PairAct(p, sendA);
    var p2 := PairAct(p1, sendB);
    var p3 := PairAct(p2, take);
    RunOfFour(p, sendA, sendB, take, take);
    SentOne(p, a, k);
    SentOne(p1, b, l);
    DeliveredOne(p2);
    DeliverFollows(p2);
    DeliveredOne(p3);
    SendFollows(p, a, k);
    AllowedFour(View(p), sendA, sendB);
    ClientsAgree(p, [Agreement.Event(false, sendA), Agreement.Event(false, sendB), Agreement.Event(false, take), Agreement.Event(false, take)]);
    assert p.sentX + [a] + [b] == p.sentX + [a, b];
  }

  lemma PairRunNext(p: Pair, a: Agreement.Action, rest: seq<Agreement.Event>)
    ensures PairRun(p, [Agreement.Event(false, a)] + rest) == PairRun(PairAct(p, a), rest)
  {
    assert ([Agreement.Event(false, a)] + rest)[1..] == rest;
  }

  lemma RunOfFour(p: Pair, a: Agreement.Action, b: Agreement.Action, c: Agreement.Action, d: Agreement.Action)
    ensures PairRun(p, [Agreement.Event(false, a), Agreement.Event(false, b), Agreement.Event(false, c), Agreement.Event(false, d)])
         == PairAct(PairAct(PairAct(PairAct(p, a), b), c), d)
  {
    var ea, eb, ec, ed := Agreement.Event(false, a), Agreement.Event(false, b), Agreement.Event(false, c), Agreement.Event(false, d);
    assert [ea, eb, ec, ed] == [ea] + ([eb] + ([ec] + ([ed] + [])));
    PairRunNext(p, a, [eb] + ([ec] + ([ed] + [])));
    PairRunNext(PairAct(p, a), b, [ec] + ([ed] + []));
    PairRunNext(PairAct(PairAct(p, a), b), c, [ed] + []);
    PairRunNext(PairAct(PairAct(PairAct(p, a), b), c), d, []);
  }

  lemma AllowedNext(s: Agreement.System, a: Agreement.Action, rest: seq<Agreement.Event>)
    requires Agreement.Allowed(s, a) && Agreement.AllowedRun(Agreement.Act(s, a), rest)
    ensures Agreement.AllowedRun(s, [Agreement.Event(false, a)] + rest)
  {
    var e := Agreement.Event(false, a);
    assert ([e] + rest)[1..] == rest;
    assert Agreement.Step(s, e) == Agreement.Act(s, a);
  }

  lemma AllowedFour(s: Agreement.System, a: Agreement.Action, b: Agreement.Action)
    requires a.SendAction? && b.SendAction? && Agreement.Allowed(s, a) && Agreement.Allowed(Agreement.Act(s, a), b)
    ensures var take := Agreement.Event(false, Agreement.DeliverAction);
            Agreement.AllowedRun(s, [Agreement.Event(false, a), Agreement.Event(false, b), take, take])
  {
    var d := Agreement.DeliverAction;
    var ea, eb, t := Agreement.Event(false, a), Agreement.Event(false, b), Agreement.Event(false, d);
    var s2 := Agreement.Act(Agreement.Act(s, a), b);
    AllowedNext(Agreement.Act(s2, d), d, []);
    AllowedNext(s2, d, [t] + []);
    AllowedNext(Agreement.Act(s, a), b, [t] + ([t] + []));
    AllowedNext(s, a, [eb] + ([t] + ([t] + [])));
    assert [ea, eb, t, t] == [ea] + ([eb] + ([t] + ([t] + [])));
  }

  /** The message that a client returns for a peer: it names the two users and their session, is numbered
      by its place in its chain, carries a new ratchet key exactly on top of every ten messages, and its
      seal covers all of that under the nonce of its number. */
  lemma SentMessage(c: ClientState, peer: Text, text: Text, newKey: nat)
    requires SessionsValid(c) && SendChat(c, peer, text, newKey).1.Some?
    ensures var (c', m) := SendChat(c, peer, text, newKey);
            var n := c.sessions[peer].sendCounter;
            var ratchets := n > 0 && n % 10 == 0;
            && m.value.sessionId == c.sessions[peer].sessionId && m.value.fromUser == c.me.user && m.value.toUser == peer
            && m.value.header.messageNumber == (if ratchets then 0 else n) && m.value.header.flags == (if ratchets then 1 else 0)
            && m.value.header.ratchetKey == (if ratchets then Some(PublicKey(newKey)) else None)
            && m.value.header.previousChainLength == (if ratchets then c.sessions[peer].previousSendLength else 0)
            && m.value.nonce == Nonce(m.value.header.messageNumber)
            && m.value.ciphertext.Sealed? && m.value.ciphertext.key.counter == m.value.header.messageNumber
            && m.value.ciphertext.nonce == m.value.nonce && m.value.ciphertext.plaintext == text
            && m.value.ciphertext.ad == ChatAssociatedData(m.value)
            && c'.(sessions := c.sessions) == c && c'.sessions - {peer} == c.sessions - {peer}
  {
  }

  // ---- after a handshake ----

  /** A handshake is where both theorems start: the initiator and the responder that accepted its
      message are mirrored, for a hostile network and for ordered mailboxes. */
  lemma HandshakeStarts(i: ClientState, r: ClientState, b: Bundle, plaintext: Text, d: Draws, clock: nat)
    requires Handshake.Completed(i, r, b, plaintext, d)
    requires d.ephemeral < clock && r.me.signedEc < clock
    ensures var (i', sent) := Initiate(i, b, r.me.user, plaintext, d);
            var (r', shown) := HandleInitial(r, sent.value);
            var c := sent.value.ciphertext;
            var duo, p := Duo(i', r', clock, [c], [], [], [c]), Pair(i', r', [], [], [plaintext], [], 0, [], [plaintext], 0);
            && shown == Some(plaintext)
            && Peers(duo) && Safety.Start(Net(duo), c)
            && Linked(p) && Agreement.Start(View(p))
  {
    Handshake.Mirroring(i, r, b, plaintext, d, clock);
  }
}
