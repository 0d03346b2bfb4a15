/** Two sessions joined by ordered, reliable mailboxes. Both directions mix into one root key,
    so the sides stay in step exactly as long as no side ratchets while a ratchet message of
    the other is still on its way. */
module SessionAgreement {
  import opened Wrappers
  import opened Bytes
  import opened Messages
  import opened Symbolic
  import opened Sessions
  import opened KeyTerms

  /** One side: its session, the messages on their way to the other side, and what the user of
      this side has sent and been shown. `rejected` counts incoming messages refused here. */
  datatype Side = Side(
    user: Text,
    session: Session,
    outbox: seq<Chat>,
    sent: seq<Text>,
    received: seq<Text>,
    rejected: nat)

  datatype System = System(x: Side, y: Side)

  function Flip(s: System): System {
    System(s.y, s.x)
  }

  datatype Action = SendAction(plaintext: Text, newKey: nat) | DeliverAction

  /** An action of side `x`, or with `flipped` of side `y`. */
  datatype Event = Event(flipped: bool, action: Action)

  /** `SendAction` appends to x's mailbox; `DeliverAction` hands y the oldest message in it. */
  function Act(s: System, a: Action): System {
    match a
    case SendAction(plaintext, newKey) =>
      (match Send(s.x.session, s.x.user, plaintext, newKey)
       case None => s
       case Some((session, m)) =>
         s.(x := s.x.(session := session, outbox := s.x.outbox + [m], sent := s.x.sent + [plaintext])))
    case DeliverAction =>
      if s.x.outbox == [] then s else
      var (session, p) := Receive(s.y.session, s.x.outbox[0]);
      System(s.x.(outbox := s.x.outbox[1..]),
             if p.Some? then s.y.(session := session, received := s.y.received + [p.value])
             else s.y.(session := session, rejected := s.y.rejected + 1))
  }

  function Step(s: System, e: Event): System {
    if e.flipped then Flip(Act(Flip(s), e.action)) else Act(s, e.action)
  }

  function Run(s: System, events: seq<Event>): System
    decreases |events|
  {
    if events == [] then s else Run(Step(s, events[0]), events[1..])
  }

  predicate NoRatchet(q: seq<Chat>) {
    forall m :: m in q ==> m.header.ratchetKey.None?
  }

  /** x's next message would ratchet although a ratchet message of y is still on its way. */
  predicate Crosses(s: System) {
    RatchetsOnSend(s.x.session) && !NoRatchet(s.y.outbox)
  }

  /** Generated keys are new, and no ratchets cross. */
  predicate Allowed(s: System, a: Action) {
    a.SendAction? ==> a.newKey != s.x.session.local && !Crosses(s)
  }

  predicate AllowedRun(s: System, events: seq<Event>)
    decreases |events|
  {
    events == [] ||
    (Allowed(if events[0].flipped then Flip(s) else s, events[0].action) &&
     AllowedRun(Step(s, events[0]), events[1..]))
  }

  /** What a finished handshake leaves behind (Handshake.Mirroring). */
  predicate Mirrored(x: Session, y: Session) {
    && x.sessionId == y.sessionId
    && x.root == y.root
    && x.sendChain == y.recvChain && x.recvChain == y.sendChain
    && x.sendCounter == y.recvCounter && x.recvCounter == y.sendCounter
    && x.remote == PublicKey(y.local) && y.remote == PublicKey(x.local)
  }

  /** True of every session a handshake creates, and kept by all that happens to it. */
  predicate Sound(s: Session) {
    Ranked(s) && s.remote.PublicKey?
  }

  predicate Start(s: System) {
    && Mirrored(s.x.session, s.y.session)
    && Sound(s.x.session) && Sound(s.y.session)
    && s.x.outbox == [] && s.y.outbox == []
    && s.x.rejected == 0 && s.y.rejected == 0
    && s.y.received == s.x.sent && s.x.received == s.y.sent
  }

  /** Receives the whole queue in order; `None` as soon as a message is refused. */
  function Replay(h: RecvHalf, local: nat, q: seq<Chat>): Option<(RecvHalf, seq<Text>)>
    decreases |q|
  {
    if q == [] then Some((h, [])) else
    match ReceiveHalf(h, local, q[0])
    case (_, None) => None
    case (h', Some(p)) =>
      match Replay(h', local, q[1..])
      case None => None
      case Some((end, texts)) => Some((end, [p] + texts))
  }

  /** A queue whose ratchet keys all differ from the key in use when they arrive. */
  predicate NewKeys(h: RecvHalf, local: nat, q: seq<Chat>)
    decreases |q|
  {
    q == [] ||
    ((q[0].header.ratchetKey.Some? ==> q[0].header.ratchetKey.value != h.remote) &&
     NewKeys(ReceiveHalf(h, local, q[0]).0, local, q[1..]))
  }

  /** Replaying the messages from x to y at y succeeds, leads to the chain, counter and key x
      now sends with, and shows y's user exactly what x's user has sent. */
  ghost predicate LinkInSync(x: Side, y: Side) {
    && y.rejected == 0
    && (forall m :: m in x.outbox ==> m.sessionId == y.session.sessionId)
    && NewKeys(RecvOf(y.session), y.session.local, x.outbox)
    && var r := Replay(RecvOf(y.session), y.session.local, x.outbox);
       && r.Some?
       && r.value.0.chain == x.session.sendChain
       && r.value.0.counter == x.session.sendCounter
       && r.value.0.remote == PublicKey(x.session.local)
       && y.received + r.value.1 == x.sent
  }

  ghost predicate InSync(s: System) {
    && s.x.session.sessionId == s.y.session.sessionId
    && Sound(s.x.session) && Sound(s.y.session)
    && (NoRatchet(s.x.outbox) || NoRatchet(s.y.outbox))
    && LinkInSync(s.x, s.y)
    && LinkInSync(s.y, s.x)
    && Replay(RecvOf(s.y.session), s.y.session.local, s.x.outbox).value.0.root
       == Replay(RecvOf(s.x.session), s.x.session.local, s.y.outbox).value.0.root
  }

  lemma {:induction false} ReplayAppend(h: RecvHalf, local: nat, q: seq<Chat>, m: Chat)
    requires Replay(h, local, q).Some?
    ensures Replay(h, local, q + [m]) ==
            match ReceiveHalf(Replay(h, local, q).value.0, local, m) {
              case (_, None) => None
              case (h', Some(p)) => Some((h', Replay(h, local, q).value.1 + [p]))
            }
    decreases |q|
  {
    if q == [] {
      assert (q + [m])[1..] == [];
      var p := ReceiveHalf(h, local, m).1;
      assert p.Some? ==> [p.value] + [] == [] + [p.value];
    } else {
      var (h', p) := ReceiveHalf(h, local, q[0]);
      ReplayAppend(h', local, q[1..], m);
      assert (q + [m])[1..] == q[1..] + [m];
      var (end, texts) := Replay(h', local, q[1..]).value;
      var last := ReceiveHalf(end, local, m).1;
      if last.Some? {
        assert [p.value] + (texts + [last.value]) == ([p.value] + texts) + [last.value];
      }
    }
  }

  lemma {:induction false} NewKeysAppend(h: RecvHalf, local: nat, q: seq<Chat>, m: Chat)
    requires Replay(h, local, q).Some? && NewKeys(h, local, q)
    requires m.header.ratchetKey.Some? ==> m.header.ratchetKey.value != Replay(h, local, q).value.0.remote
    ensures NewKeys(h, local, q + [m])
    decreases |q|
  {
    if q == [] {
      assert (q + [m])[1..] == [];
    } else {
      NewKeysAppend(ReceiveHalf(h, local, q[0]).0, local, q[1..], m);
      assert (q + [m])[1..] == q[1..] + [m];
    }
  }

  /** Messages without ratchet keys are received independently of root, local and remote keys. */
  lemma {:induction false} ReplayWithoutRatchet(h: RecvHalf, local: nat, q: seq<Chat>, root: Key, local': nat)
    requires NoRatchet(q) && Replay(h, local, q).Some?
    ensures var r := Replay(h, local, q).value;
            r.0.root == h.root && r.0.remote == h.remote &&
            Replay(h.(root := root), local', q) == Some((r.0.(root := root), r.1)) &&
            NewKeys(h.(root := root), local', q)
    decreases |q|
  {
    if q != [] {
      assert q[0] in q;
      var h' := ReceiveHalf(h, local, q[0]).0;
      assert ReceiveHalf(h.(root := root), local', q[0]) == (h'.(root := root), ReceiveHalf(h, local, q[0]).1);
      ReplayWithoutRatchet(h', local, q[1..], root, local');
    }
  }

  /** x sends an ordinary message. */
  lemma SendKeepsSync(s: System, plaintext: Text, newKey: nat)
    requires InSync(s) && !RatchetsOnSend(s.x.session)
    ensures InSync(Act(s, SendAction(plaintext, newKey)))
  {
    var (session, m) := Send(s.x.session, s.x.user, plaintext, newKey).value;
    ReplayAppend(RecvOf(s.y.session), s.y.session.local, s.x.outbox, m);
    NewKeysAppend(RecvOf(s.y.session), s.y.session.local, s.x.outbox, m);
    assert RecvOf(session) == RecvOf(s.x.session);
    var ts := Replay(RecvOf(s.y.session), s.y.session.local, s.x.outbox).value.1;
    assert s.y.received + (ts + [plaintext]) == s.x.sent + [plaintext];
    assert NoRatchet(s.x.outbox) ==> NoRatchet(s.x.outbox + [m]);
  }

  /** x ratchets while nothing of y's that ratchets is on its way. */
  lemma RatchetKeepsSync(s: System, plaintext: Text, newKey: nat)
    requires InSync(s) && RatchetsOnSend(s.x.session)
    requires newKey != s.x.session.local && NoRatchet(s.y.outbox)
    ensures Send(s.x.session, s.x.user, plaintext, newKey).Some?
    ensures InSync(Act(s, SendAction(plaintext, newKey)))
  {
    var x, y := s.x.session, s.y.session;
    var back := Replay(RecvOf(x), x.local, s.y.outbox).value;
    ReplayWithoutRatchet(RecvOf(x), x.local, s.y.outbox, x.root, x.local);
    assert x.remote == PublicKey(y.local);
    var (session, m) := Send(x, s.x.user, plaintext, newKey).value;
    var there := Replay(RecvOf(y), y.local, s.x.outbox).value;
    assert there.0.root == x.root;
    ReplayAppend(RecvOf(y), y.local, s.x.outbox, m);
    NewKeysAppend(RecvOf(y), y.local, s.x.outbox, m);
    SendRanked(x, s.x.user, plaintext, newKey);
    assert ReceiveHalf(there.0, y.local, m) ==
           (RecvHalf(session.root, session.sendChain, session.sendCounter, PublicKey(newKey)), Some(plaintext));
    assert s.y.received + (there.1 + [plaintext]) == s.x.sent + [plaintext];
    ReplayWithoutRatchet(RecvOf(x), x.local, s.y.outbox, session.root, newKey);
    assert RecvOf(session) == RecvOf(x).(root := session.root);
  }

  /** y receives the oldest message on its way to it. */
  lemma DeliverKeepsSync(s: System)
    requires InSync(s)
    ensures InSync(Act(s, DeliverAction))
  {
    if s.x.outbox != [] {
      var y := s.y.session;
      var (h, p) := ReceiveHalf(RecvOf(y), y.local, s.x.outbox[0]);
      assert s.x.outbox[0] in s.x.outbox;
      ReceiveRanked(y, s.x.outbox[0]);
      var y' := WithRecv(y, h);
      assert RecvOf(y') == h;
      var ts := Replay(h, y.local, s.x.outbox[1..]).value.1;
      assert (s.y.received + [p.value]) + ts == s.y.received + ([p.value] + ts);
    }
  }

  lemma ActKeepsSync(s: System, a: Action)
    requires InSync(s) && Allowed(s, a)
    ensures InSync(Act(s, a))
  {
    match a
    case SendAction(plaintext, newKey) =>
      if RatchetsOnSend(s.x.session) {
        RatchetKeepsSync(s, plaintext, newKey);
      } else {
        SendKeepsSync(s, plaintext, newKey);
      }
    case DeliverAction => DeliverKeepsSync(s);
  }

  lemma {:induction false} RunKeepsSync(s: System, events: seq<Event>)
    requires InSync(s) && AllowedRun(s, events)
    ensures InSync(Run(s, events))
    decreases |events|
  {
    if events != [] {
      if events[0].flipped {
        assert InSync(Flip(s));
        ActKeepsSync(Flip(s), events[0].action);
      } else {
        ActKeepsSync(s, events[0].action);
      }
      RunKeepsSync(Step(s, events[0]), events[1..]);
    }
  }

  /** Session agreement. After every run from a finished handshake in which no ratchets cross,
      neither side has refused a message, each user has been shown a prefix of what the other
      sent, and receiving what is still on its way would show exactly the rest and lead to the
      sender's chain, counter, ratchet key and, unless the receiver itself has ratchet messages
      on their way, root key. */
  lemma Agreement(s: System, events: seq<Event>)
    requires Start(s) && AllowedRun(s, events)
    ensures var t := Run(s, events);
            && LinkInSync(t.x, t.y) && LinkInSync(t.y, t.x)
            && t.x.rejected == 0 && t.y.rejected == 0
            && t.y.received <= t.x.sent && t.x.received <= t.y.sent
            && (t.x.outbox == [] ==> t.y.received == t.x.sent)
            && (t.y.outbox == [] ==> t.x.received == t.y.sent)
            && (NoRatchet(t.y.outbox) ==>
                  Replay(RecvOf(t.y.session), t.y.session.local, t.x.outbox).value.0.root == t.x.session.root)
            && (NoRatchet(t.x.outbox) ==>
                  Replay(RecvOf(t.x.session), t.x.session.local, t.y.outbox).value.0.root == t.y.session.root)
  {
    assert s.y.received + [] == s.x.sent && s.x.received + [] == s.y.sent;
    RunKeepsSync(s, events);
    var t := Run(s, events);
    if NoRatchet(t.y.outbox) {
      ReplayWithoutRatchet(RecvOf(t.x.session), t.x.session.local, t.y.outbox, t.x.session.root, 0);
    }
    if NoRatchet(t.x.outbox) {
      ReplayWithoutRatchet(RecvOf(t.y.session), t.y.session.local, t.x.outbox, t.y.session.root, 0);
    }
  }

  /** Receiving a queue never makes the root shallower, and a ratchet message makes it deeper. */
  lemma {:induction false} ReplayDeepens(h: RecvHalf, local: nat, q: seq<Chat>)
    requires Replay(h, local, q).Some?
    ensures Depth(Replay(h, local, q).value.0.root) >= Depth(h.root)
    ensures NoRatchet(q) ==> Base(Replay(h, local, q).value.0.chain) == Base(h.chain)
    decreases |q|
  {
    if q != [] {
      assert q[0] in q;
      ReplayDeepens(ReceiveHalf(h, local, q[0]).0, local, q[1..]);
    }
  }

  lemma {:induction false} RatchetDeepens(h: RecvHalf, local: nat, q: seq<Chat>)
    requires Replay(h, local, q).Some? && NewKeys(h, local, q) && !NoRatchet(q)
    ensures Depth(Replay(h, local, q).value.0.root) > Depth(h.root)
    decreases |q|
  {
    var h' := ReceiveHalf(h, local, q[0]).0;
    ReplayDeepens(h', local, q[1..]);
    if q[0].header.ratchetKey.None? {
      RatchetDeepens(h', local, q[1..]);
    }
  }

  /** In step, but with a ratchet message of y on its way, y has ratcheted past every chain that
      x could open now. */
  lemma CrossedIsPassed(s: System, newKey: nat)
    requires InSync(s) && Crosses(s)
    ensures Passed(s.y.session, PrepareSend(s.x.session, newKey).value.0.sendChain)
  {
    var x, y := s.x.session, s.y.session;
    ReplayDeepens(RecvOf(y), y.local, s.x.outbox);
    RatchetDeepens(RecvOf(x), x.local, s.y.outbox);
    ReplayWithoutRatchet(RecvOf(y), y.local, s.x.outbox, y.root, y.local);
  }

  /** The other half of agreement: a ratchet that crosses one of the peer is lost. Whatever the
      peer sends and receives before the message reaches it, the peer refuses the message. */
  lemma CrossingNeverAccepted(s: System, plaintext: Text, newKey: nat, steps: seq<LocalStep>)
    requires InSync(s) && Crosses(s)
    ensures Receive(RunLocal(s.y.session, s.y.user, steps),
                    Send(s.x.session, s.x.user, plaintext, newKey).value.1).1.None?
  {
    CrossedIsPassed(s, newKey);
    PassedForever(s.y.session, s.y.user, PrepareSend(s.x.session, newKey).value.0.sendChain, steps,
                  Send(s.x.session, s.x.user, plaintext, newKey).value.1);
  }

  /** The next message of x gets through in order exactly when it does not cross a ratchet. */
  lemma AcceptedIffNotCrossing(s: System, plaintext: Text, newKey: nat)
    requires InSync(s)
    requires newKey != s.x.session.local
    ensures Replay(RecvOf(s.y.session), s.y.session.local,
                   s.x.outbox + [Send(s.x.session, s.x.user, plaintext, newKey).value.1]).Some?
            <==> !Crosses(s)
  {
    var m := Send(s.x.session, s.x.user, plaintext, newKey).value.1;
    var y := s.y.session;
    if !Crosses(s) {
      ActKeepsSync(s, SendAction(plaintext, newKey));
    } else {
      var end := Replay(RecvOf(y), y.local, s.x.outbox).value.0;
      ReplayAppend(RecvOf(y), y.local, s.x.outbox, m);
      CrossedIsPassed(s, newKey);
      ReplayDeepens(RecvOf(y), y.local, s.x.outbox);
      PassedForever(WithRecv(y, end), s.y.user, PrepareSend(s.x.session, newKey).value.0.sendChain, [], m);
      assert RecvOf(WithRecv(y, end)) == end;
    }
  }
}
