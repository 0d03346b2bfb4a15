/** The same two sessions on a network that is in other hands: it may drop, repeat, reorder and
    alter messages and make up new ones, as long as it does not forge a seal under a key of the
    session and does not name a key that has not been generated yet. Ratchets may cross. */
module SessionSafety {
  import opened Wrappers
  import opened Bytes
  import opened Messages
  import opened Symbolic
  import opened Sessions
  import opened KeyTerms

  type Log = seq<Ciphertext>

  /** One side with everything it has sealed and everything it has accepted, oldest first,
      starting with the handshake's first message. */
  datatype Side = Side(user: Text, session: Session, sealedLog: Log, accepted: Log)

  /** Keys numbered below `clock` have been generated. */
  datatype Network = Network(x: Side, y: Side, clock: nat)

  function Flip(n: Network): Network {
    Network(n.y, n.x, n.clock)
  }

  datatype Action = SendAction(plaintext: Text) | DeliverAction(message: Chat) | KeygenAction

  datatype Event = Event(flipped: bool, action: Action)

  /** x sends, or the network hands `message` to y, or somebody else generates a key. */
  function Act(n: Network, a: Action): Network {
    match a
    case SendAction(plaintext) =>
      (match Send(n.x.session, n.x.user, plaintext, n.clock)
       case None => n
       case Some((session, m)) =>
         n.(x := n.x.(session := session, sealedLog := n.x.sealedLog + [m.ciphertext]), clock := n.clock + 1))
    case DeliverAction(m) =>
      var (session, p) := Receive(n.y.session, m);
      n.(y := n.y.(session := session,
                   accepted := if p.Some? then n.y.accepted + [m.ciphertext] else n.y.accepted))
    case KeygenAction => n.(clock := n.clock + 1)
  }

  function Step(n: Network, e: Event): Network {
    if e.flipped then Flip(Act(Flip(n), e.action)) else Act(n, e.action)
  }

  function Run(n: Network, events: seq<Event>): Network
    decreases |events|
  {
    if events == [] then n else Run(Step(n, events[0]), events[1..])
  }

  /** What the network can hand over: any fields with any ciphertext that a side of this session
      has sealed or that is not sealed under a key descending from its handshake. */
  predicate Deliverable(n: Network, m: Chat) {
    && (m.header.ratchetKey.Some? && m.header.ratchetKey.value.PublicKey?
        ==> m.header.ratchetKey.value.id < n.clock)
    && (|| m.ciphertext in n.x.sealedLog
        || m.ciphertext in n.y.sealedLog
        || m.ciphertext.BadSealed?
        || Origin(m.ciphertext.key.chain) != Origin(n.y.session.root))
  }

  predicate PossibleRun(n: Network, events: seq<Event>)
    decreases |events|
  {
    events == [] ||
    ((events[0].action.DeliverAction? ==>
        Deliverable(if events[0].flipped then Flip(n) else n, events[0].action.message)) &&
     PossibleRun(Step(n, events[0]), events[1..]))
  }

  /** The two sides of a finished handshake whose first message was `first`. */
  predicate Start(n: Network, first: Ciphertext) {
    && var x, y := n.x.session, n.y.session;
    && x.root.HandshakeRoot? && y.root == x.root
    && first.Sealed?
    && first.key == MessageKey(HandshakeChain(x.root.secret, x.root.transcript, true), 0)
    && x.sendChain == y.recvChain == NextChain(first.key.chain, 0)
    && x.recvChain == y.sendChain == HandshakeChain(x.root.secret, x.root.transcript, false)
    && x.sendCounter == y.recvCounter == 1 && x.recvCounter == y.sendCounter == 0
    && x.remote == PublicKey(y.local) && y.remote == PublicKey(x.local)
    && x.local < n.clock && y.local < n.clock
    && n.x.sealedLog == [first] && n.y.accepted == [first]
    && n.y.sealedLog == [] && n.x.accepted == []
  }

  // ---- what one side keeps, whatever reaches it ----

  /** A chain in use: its next message key follows everything in the log, directly so unless the
      chain has just begun, and the log itself is ordered the same way. */
  ghost predicate ChainOf(chain: Key, counter: nat, log: Log) {
    && Numbered(chain) && Length(chain) == counter
    && (forall i :: 0 <= i < |log| ==> log[i].Sealed? && Precedes(log[i].key, MessageKey(chain, counter)))
    && (forall i, j :: 0 <= i < j < |log| ==> Precedes(log[i].key, log[j].key))
    && (forall i :: 0 <= i < |log| && log[i].key.counter > 0 ==> i > 0 && Follows(log[i-1].key, log[i].key))
    && (counter > 0 ==> |log| > 0 && Follows(log[|log|-1].key, MessageKey(chain, counter)))
  }

  /** `l` is the next message key after `k` in the same chain. */
  predicate Follows(k: MessageKey, l: MessageKey) {
    l.chain == NextChain(k.chain, k.counter) && l.counter == k.counter + 1
  }

  ghost predicate SideInv(s: Side, origin: (HandshakeSecret, Transcript)) {
    var u := s.session;
    && Ranked(u) && u.sendCounter <= RatchetInterval
    && Origin(u.root) == Origin(u.sendChain) == Origin(u.recvChain) == origin
    && ChainOf(u.sendChain, u.sendCounter, s.sealedLog)
    && ChainOf(u.recvChain, u.recvCounter, s.accepted)
    && Base(u.sendChain) != Base(u.recvChain)
    && (forall c :: c in s.sealedLog ==> c.Sealed? && Origin(c.key.chain) == origin && Base(c.key.chain) != Base(u.recvChain))
  }

  /** Using the next key of a chain. */
  lemma ChainUse(chain: Key, counter: nat, log: Log, c: Ciphertext)
    requires ChainOf(chain, counter, log)
    requires c.Sealed? && c.key == MessageKey(chain, counter)
    ensures ChainOf(NextChain(chain, counter), counter + 1, log + [c])
  {
    var log', next := log + [c], MessageKey(NextChain(chain, counter), counter + 1);
    forall i | 0 <= i < |log'| ensures log'[i].Sealed? && Precedes(log'[i].key, next) {
    }
  }

  /** Beginning a chain that ranks above everything in the log. */
  lemma ChainBegin(chain: Key, counter: nat, log: Log, base: Key)
    requires ChainOf(chain, counter, log) && Rank(Base(chain)) < Rank(base) && base.RatchetChain?
    ensures ChainOf(base, 0, log)
  {
    forall i | 0 <= i < |log| ensures Precedes(log[i].key, MessageKey(base, 0)) {
      assert Precedes(log[i].key, MessageKey(chain, counter));
    }
  }

  lemma RatchetSide(s: Side, newKey: nat, origin: (HandshakeSecret, Transcript))
    requires SideInv(s, origin) && PrepareSend(s.session, newKey).Some?
    ensures SideInv(s.(session := PrepareSend(s.session, newKey).value.0), origin)
    ensures PrepareSend(s.session, newKey).value.0.sendCounter < RatchetInterval
  {
    var u := s.session;
    if RatchetsOnSend(u) {
      var base := PrepareSend(u, newKey).value.0.sendChain;
      ChainBegin(u.sendChain, u.sendCounter, s.sealedLog, base);
    }
  }

  lemma SendSide(s: Side, plaintext: Text, newKey: nat, origin: (HandshakeSecret, Transcript))
    requires SideInv(s, origin) && Send(s.session, s.user, plaintext, newKey).Some?
    ensures var (u, m) := Send(s.session, s.user, plaintext, newKey).value;
            SideInv(s.(session := u, sealedLog := s.sealedLog + [m.ciphertext]), origin)
  {
    RatchetSide(s, newKey, origin);
    var p := PrepareSend(s.session, newKey).value.0;
    var m := Send(s.session, s.user, plaintext, newKey).value.1;
    ChainUse(p.sendChain, p.sendCounter, s.sealedLog, m.ciphertext);
  }

  /** The receive ratchet moves before anything is checked; the sealed log stays apart from the
      new chain because that chain ranks above all before it. */
  lemma RatchetRecvSide(s: Side, key: Option<PublicKey>, origin: (HandshakeSecret, Transcript))
    requires SideInv(s, origin) && RatchetRecv(RecvOf(s.session), s.session.local, key).Some?
    ensures SideInv(s.(session := WithRecv(s.session, RatchetRecv(RecvOf(s.session), s.session.local, key).value)), origin)
  {
    var u := s.session;
    var h := RatchetRecv(RecvOf(u), u.local, key).value;
    if h != RecvOf(u) {
      ChainBegin(u.recvChain, u.recvCounter, s.accepted, h.chain);
      forall c | c in s.sealedLog ensures Base(c.key.chain) != h.chain {
        var i :| 0 <= i < |s.sealedLog| && s.sealedLog[i] == c;
        assert Precedes(s.sealedLog[i].key, MessageKey(u.sendChain, u.sendCounter));
      }
    }
  }

  lemma ReceiveSide(s: Side, m: Chat, origin: (HandshakeSecret, Transcript))
    requires SideInv(s, origin)
    ensures var (u, p) := Receive(s.session, m);
            SideInv(s.(session := u, accepted := if p.Some? then s.accepted + [m.ciphertext] else s.accepted), origin)
    ensures Receive(s.session, m).1.Some? ==>
              m.ciphertext.Sealed? && Origin(m.ciphertext.key.chain) == origin && m.ciphertext !in s.sealedLog
  {
    var r := RatchetRecv(RecvOf(s.session), s.session.local, m.header.ratchetKey);
    assert WithRecv(s.session, RecvOf(s.session)) == s.session;
    if m.sessionId == s.session.sessionId && r.Some? {
      RatchetRecvSide(s, m.header.ratchetKey, origin);
      if Receive(s.session, m).1.Some? {
        ChainUse(r.value.chain, r.value.counter, s.accepted, m.ciphertext);
      }
    }
  }

  // ---- what the two sides keep together ----

  /** Every accepted ciphertext was sealed by the other side. */
  ghost predicate Inv(n: Network) {
    var origin := Origin(n.x.session.root);
    && SideInv(n.x, origin) && SideInv(n.y, origin)
    && (forall c :: c in n.y.accepted ==> c in n.x.sealedLog)
    && (forall c :: c in n.x.accepted ==> c in n.y.sealedLog)
  }

  lemma ActKeepsInv(n: Network, a: Action)
    requires Inv(n) && (a.DeliverAction? ==> Deliverable(n, a.message))
    ensures Inv(Act(n, a))
  {
    var origin := Origin(n.x.session.root);
    match a
    case SendAction(plaintext) =>
      if Send(n.x.session, n.x.user, plaintext, n.clock).Some? {
        SendSide(n.x, plaintext, n.clock, origin);
      }
    case DeliverAction(m) => ReceiveSide(n.y, m, origin);
    case KeygenAction =>
  }

  lemma {:induction false} RunKeepsInv(n: Network, events: seq<Event>)
    requires Inv(n) && PossibleRun(n, events)
    ensures Inv(Run(n, events))
    decreases |events|
  {
    if events != [] {
      if events[0].flipped {
        assert Inv(Flip(n));
        ActKeepsInv(Flip(n), events[0].action);
      } else {
        ActKeepsInv(n, events[0].action);
      }
      RunKeepsInv(Step(n, events[0]), events[1..]);
    }
  }

  lemma StartInv(n: Network, first: Ciphertext)
    requires Start(n, first)
    ensures Inv(n)
  {
    assert Base(n.x.session.sendChain) == first.key.chain;
  }

  // ---- receive safety ----

  /** `picks` selects the elements of `accepted` from `sealedLog`, strictly forward; a message that
      is not the first of its chain is taken directly after its predecessor. */
  ghost predicate Selects(picks: seq<nat>, accepted: Log, sealedLog: Log) {
    && |picks| == |accepted|
    && (forall i :: 0 <= i < |picks| ==> picks[i] < |sealedLog| && accepted[i] == sealedLog[picks[i]])
    && (forall i, j :: 0 <= i < j < |picks| ==> picks[i] < picks[j])
    && (forall i :: 0 <= i < |picks| && accepted[i].Sealed? && accepted[i].key.counter > 0 ==>
          i > 0 && picks[i] == picks[i-1] + 1)
  }

  ghost predicate IsSelection(accepted: Log, sealedLog: Log) {
    exists picks: seq<nat> :: Selects(picks, accepted, sealedLog)
  }

  ghost function IndexIn(log: Log, c: Ciphertext): (i: nat)
    requires c in log
    ensures i < |log| && log[i] == c
  {
    var i :| 0 <= i < |log| && log[i] == c; i
  }

  lemma OrderedSelection(chain: Key, counter: nat, accepted: Log, chain': Key, counter': nat, sealedLog: Log)
    requires ChainOf(chain, counter, accepted) && ChainOf(chain', counter', sealedLog)
    requires forall c :: c in accepted ==> c in sealedLog
    ensures IsSelection(accepted, sealedLog)
  {
    var picks := seq(|accepted|, i requires 0 <= i < |accepted| => IndexIn(sealedLog, accepted[i]));
    forall i, j | 0 <= i < j < |picks| ensures picks[i] < picks[j] {
      assert Precedes(accepted[i].key, accepted[j].key);
    }
    forall i | 0 <= i < |picks| && accepted[i].key.counter > 0 ensures i > 0 && picks[i] == picks[i-1] + 1 {
      var l := picks[i] - 1;
      assert Follows(accepted[i-1].key, accepted[i].key);
      assert Follows(sealedLog[l].key, sealedLog[l+1].key);
    }
    assert Selects(picks, accepted, sealedLog);
  }

  /** Receive safety. In every run of such a network, what each side has accepted is an
      order-preserving, duplicate-free selection of what the other side has sealed, and within
      each chain nothing is skipped: what was accepted of it is a contiguous beginning. */
  lemma ReceiveSafety(n: Network, first: Ciphertext, events: seq<Event>)
    requires Start(n, first) && PossibleRun(n, events)
    ensures var t := Run(n, events);
            IsSelection(t.y.accepted, t.x.sealedLog) && IsSelection(t.x.accepted, t.y.sealedLog)
  {
    StartInv(n, first);
    RunKeepsInv(n, events);
    var t := Run(n, events);
    var x, y := t.x.session, t.y.session;
    OrderedSelection(y.recvChain, y.recvCounter, t.y.accepted, x.sendChain, x.sendCounter, t.x.sealedLog);
    OrderedSelection(x.recvChain, x.recvCounter, t.x.accepted, y.sendChain, y.sendCounter, t.y.sealedLog);
  }

  // ---- key uniqueness ----

  /** Chains opened by a ratchet contain a key that was new at the time. */
  predicate Generated(base: Key, clock: nat) {
    base.RatchetChain? ==> base.dh.hi < clock
  }

  ghost predicate SendBases(s: Side, clock: nat) {
    && Generated(Base(s.session.sendChain), clock)
    && (forall c :: c in s.sealedLog ==> c.Sealed? && Generated(Base(c.key.chain), clock))
    && s.session.remote.PublicKey? && s.session.remote.id < clock
  }

  /** No chain is sent on by both sides. */
  ghost predicate Apart(x: Side, y: Side)
  {
    && Base(x.session.sendChain) != Base(y.session.sendChain)
    && (forall c :: c in x.sealedLog ==> c.Sealed? && Base(c.key.chain) != Base(y.session.sendChain))
    && (forall d :: d in y.sealedLog ==> d.Sealed? && Base(d.key.chain) != Base(x.session.sendChain))
    && (forall c, d :: c in x.sealedLog && d in y.sealedLog ==> Base(c.key.chain) != Base(d.key.chain))
  }

  ghost predicate KeyInv(n: Network) {
    SendBases(n.x, n.clock) && SendBases(n.y, n.clock) && Apart(n.x, n.y)
  }

  lemma ActKeepsKeyInv(n: Network, a: Action)
    requires KeyInv(n) && (a.DeliverAction? ==> Deliverable(n, a.message))
    ensures KeyInv(Act(n, a))
  {
    if a.SendAction? && Send(n.x.session, n.x.user, a.plaintext, n.clock).Some? {
      var (u, m) := Send(n.x.session, n.x.user, a.plaintext, n.clock).value;
      assert Base(m.ciphertext.key.chain) == Base(u.sendChain);
      if RatchetsOnSend(n.x.session) {
        assert Base(u.sendChain).dh.hi == n.clock;
      }
    }
  }

  lemma {:induction false} RunKeepsKeyInv(n: Network, events: seq<Event>)
    requires KeyInv(n) && PossibleRun(n, events)
    ensures KeyInv(Run(n, events))
    decreases |events|
  {
    if events != [] {
      if events[0].flipped {
        assert KeyInv(Flip(n));
        ActKeepsKeyInv(Flip(n), events[0].action);
      } else {
        ActKeepsKeyInv(n, events[0].action);
      }
      RunKeepsKeyInv(Step(n, events[0]), events[1..]);
    }
  }

  ghost predicate DistinctKeys(log: Log) {
    forall i, j :: 0 <= i < j < |log| ==> log[i].Sealed? && log[j].Sealed? && log[i].key != log[j].key
  }

  lemma DistinctWithin(chain: Key, counter: nat, log: Log)
    requires ChainOf(chain, counter, log)
    ensures DistinctKeys(log)
  {
    forall i, j | 0 <= i < j < |log| ensures log[i].key != log[j].key {
      assert Precedes(log[i].key, log[j].key);
    }
  }

  lemma DistinctTogether(x: Side, y: Side)
    requires DistinctKeys(x.sealedLog) && DistinctKeys(y.sealedLog) && Apart(x, y)
    ensures DistinctKeys(x.sealedLog + y.sealedLog)
  {
    var all, k := x.sealedLog + y.sealedLog, |x.sealedLog|;
    forall i, j | 0 <= i < j < |all| ensures all[i].Sealed? && all[j].Sealed? && all[i].key != all[j].key {
      if i < k <= j {
        assert all[i] in x.sealedLog && all[j] in y.sealedLog;
      } else if k <= i {
        assert all[i] == y.sealedLog[i-k] && all[j] == y.sealedLog[j-k];
      }
    }
  }

  /** Key uniqueness. In every run of such a network no message key seals twice, on one side or
      across the two, and no counter exceeds the ratchet interval, so counters never wrap and a
      nonce never repeats under a key. Sending never fails. */
  lemma KeysUsedOnce(n: Network, first: Ciphertext, events: seq<Event>)
    requires Start(n, first) && PossibleRun(n, events)
    ensures var t := Run(n, events);
            && DistinctKeys(t.x.sealedLog + t.y.sealedLog)
            && t.x.session.sendCounter <= RatchetInterval && t.y.session.sendCounter <= RatchetInterval
            && t.x.session.remote.PublicKey? && t.y.session.remote.PublicKey?
  {
    StartInv(n, first);
    RunKeepsInv(n, events);
    RunKeepsKeyInv(n, events);
    var t := Run(n, events);
    DistinctWithin(t.x.session.sendChain, t.x.session.sendCounter, t.x.sealedLog);
    DistinctWithin(t.y.session.sendChain, t.y.session.sendCounter, t.y.sealedLog);
    DistinctTogether(t.x, t.y);
  }
}
