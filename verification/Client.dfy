/** The client object of client.cpp. Every method is proved to change the object exactly as the
    corresponding function of ClientSpec says. */
module Clients {
  import opened Wrappers
  import opened Bytes
  import opened Messages
  import opened Symbolic
  import opened Sessions
  import opened ClientSpec
  import ClientRuns
  import opened Nonces
  import opened Mailbox
  import opened Delivery
  import opened Polls

  class Client {
    const me: Identity
    var ecPool: seq<OneTimeKey>
    var pqPool: seq<OneTimeKey>
    var dirty: bool
    var pendingAck: Option<nat>
    var pins: map<Text, Pin>
    var sessions: map<Text, Session>
    var seenSessions: set<Text>
    var seenTranscripts: set<Transcript>
    var sessionOrder: seq<Text>
    var transcriptOrder: seq<Transcript>

    ghost function State(): ClientState
      reads this
    {
      ClientState(me, ecPool, pqPool, dirty, pins, sessions, Guarding())
    }

    ghost function Guarding(): Guards
      reads this
    {
      Guards(seenSessions, seenTranscripts, sessionOrder, transcriptOrder)
    }

    constructor (me: Identity)
      ensures State() == ClientState(me, [], [], false, map[], map[], Guards({}, {}, [], []))
      ensures pendingAck == None
    {
      this.me := me;
      ecPool, pqPool, dirty, pendingAck := [], [], false, None;
      pins, sessions := map[], map[];
      seenSessions, seenTranscripts, sessionOrder, transcriptOrder := {}, {}, [], [];
    }

    /** Inserts both guards, undoing the first when the second is a duplicate, then evicts. */
    method RememberInitialReplayGuards(sessionId: Text, transcript: Transcript) returns (ok: bool)
      requires GuardsValid(Guarding())
      modifies this`seenSessions, this`seenTranscripts, this`sessionOrder, this`transcriptOrder
      ensures (Guarding(), ok) == Remember(old(Guarding()), sessionId, transcript)
      ensures GuardsValid(Guarding())
    {
      ClientRuns.RememberKeepsGuards(Guarding(), sessionId, transcript);
      if sessionId in seenSessions {
        return false;
      }
      seenSessions := seenSessions + {sessionId};
      sessionOrder := sessionOrder + [sessionId];
      if transcript in seenTranscripts {
        seenSessions := seenSessions - {sessionId};
        if sessionOrder != [] && sessionOrder[|sessionOrder| - 1] == sessionId {
          sessionOrder := sessionOrder[..|sessionOrder| - 1];
        }
        return false;
      }
      seenTranscripts := seenTranscripts + {transcript};
      transcriptOrder := transcriptOrder + [transcript];
      seenSessions, sessionOrder := Evict(seenSessions, sessionOrder);
      seenTranscripts, transcriptOrder := Evict(seenTranscripts, transcriptOrder);
      return true;
    }

    /** Drops the oldest guards until the limit is kept. */
    static method Evict<T(==)>(seen: set<T>, order: seq<T>) returns (seen': set<T>, order': seq<T>)
      requires seen == Elements(order) && Distinct(order)
      ensures order' == Newest(order) && seen' == Elements(order')
    {
      seen', order' := seen, order;
      ghost var dropped := 0;
      while |order'| > MaxReplayGuards
        invariant dropped <= |order| && order' == order[dropped..]
        invariant dropped > 0 ==> |order'| >= MaxReplayGuards
        invariant seen' == Elements(order')
      {
        var oldest := order'[0];
        order' := order'[1..];
        seen' := seen' - {oldest};
        dropped := dropped + 1;
        assert oldest !in order';
      }
    }

    method VerifyOrRememberPeerIdentity(peer: Text, sign: nat, mldsa: nat, dh: PublicKey) returns (ok: bool)
      modifies this`pins
      ensures (State(), ok) == CheckIdentity(old(State()), peer, sign, mldsa, dh)
    {
      if peer !in pins {
        pins := pins[peer := Pin(sign, mldsa, dh, false)];
        return false;
      }
      var pin := pins[peer];
      if pin.sign != sign || pin.mldsa != mldsa || pin.dh != dh {
        return false;
      }
      return pin.verified;
    }

    /** Compares the number the user entered with that of the pinned identity; `saved` is how saving the
        state ends. */
    method VerifyPeerSafetyNumber(peer: Text, expected: SafetyNumber, saved: bool) returns (ok: bool)
      modifies this`pins
      ensures State() == EnterNumber(old(State()), peer, expected).0
      ensures ok == (EnterNumber(old(State()), peer, expected).1 && saved)
    {
      if peer !in pins {
        return false;
      }
      var pin := pins[peer];
      if NumberOf(peer, pin.sign, pin.mldsa, pin.dh) != expected {
        return false;
      }
      pins := pins[peer := pin.(verified := true)];
      return saved;
    }

    static method FindOneTime(pool: seq<OneTimeKey>, id: nat) returns (i: nat)
      ensures i == IndexOf(pool, id)
    {
      i := 0;
      while i < |pool| && pool[i].id != id
        invariant i <= |pool|
        invariant i + IndexOf(pool[i..], id) == IndexOf(pool, id)
      {
        assert pool[i..][1..] == pool[i+1..];
        i := i + 1;
      }
    }

    /** Every check of an initial message that comes before its sender's identity is looked up. */
    method Admit(m: Initial) returns (ok: bool)
      ensures ok == Admissible(State(), m)
    {
      if m.toUser != me.user || m.version != ProtocolVersion || m.cipherSuite != CipherSuite {
        return false;
      }
      if m.selected.oneTimeEcId.None? || m.selected.oneTimePqId.None? || m.kemOneTime.None? {
        return false;
      }
      if m.sessionId in seenSessions || m.transcriptHash in seenTranscripts {
        return false;
      }
      if m.selected.signedEcId != me.signedEcId || m.selected.signedPqId != me.signedPqId {
        return false;
      }
      if TranscriptOf(me, m) != m.transcriptHash {
        return false;
      }
      return Verifies(m.identitySign, m.transcriptHash, m.signatureEd25519) &&
             Verifies(m.identityMldsa, m.transcriptHash, m.signatureMldsa65);
    }

    method HandleInitialMessage(m: Initial) returns (plaintext: Option<Text>)
      requires GuardsValid(Guarding())
      modifies this
      ensures pendingAck == old(pendingAck)
      ensures (State(), plaintext) == HandleInitial(old(State()), m)
      ensures GuardsValid(Guarding())
    {
      var admissible := Admit(m);
      if !admissible {
        return None;
      }
      var trusted := VerifyOrRememberPeerIdentity(m.fromUser, m.identitySign, m.identityMldsa, m.identityDh);
      if !trusted {
        return None;
      }
      assert State() == old(State());
      var found := OpenWithPools(m);
      if found.None? {
        return None;
      }
      var remembered := RememberInitialReplayGuards(m.sessionId, m.transcriptHash);
      if !remembered {
        return None;
      }
      Consume(m.selected.oneTimeEcId.value, m.selected.oneTimePqId.value);
      sessions := sessions[m.fromUser := found.value.0];
      return Some(found.value.1);
    }

    /** Erases the one-time keys that were used. */
    method Consume(ecId: nat, pqId: nat)
      requires IndexOf(ecPool, ecId) < |ecPool| && IndexOf(pqPool, pqId) < |pqPool|
      modifies this`ecPool, this`pqPool, this`dirty
      ensures ecPool == Without(old(ecPool), IndexOf(old(ecPool), ecId))
      ensures pqPool == Without(old(pqPool), IndexOf(old(pqPool), pqId))
      ensures dirty
    {
      var i := FindOneTime(ecPool, ecId);
      var j := FindOneTime(pqPool, pqId);
      ecPool := ecPool[..i] + ecPool[i+1..];
      pqPool := pqPool[..j] + pqPool[j+1..];
      dirty := true;
    }

    /** Secrets, key schedule and first decryption; reads the pools only. */
    method OpenWithPools(m: Initial) returns (r: Option<(Session, Text)>)
      requires Admissible(State(), m)
      ensures r == OpenInitial(State(), m)
    {
      var dh1 := SharedSecret(me.signedEc, m.identityDh);
      var dh2 := SharedSecret(me.dh, m.ephemeral);
      var dh3 := SharedSecret(me.signedEc, m.ephemeral);
      var i := FindOneTime(ecPool, m.selected.oneTimeEcId.value);
      var j := FindOneTime(pqPool, m.selected.oneTimePqId.value);
      if dh1.None? || dh2.None? || dh3.None? || i == |ecPool| || j == |pqPool| {
        return None;
      }
      var dh4 := SharedSecret(ecPool[i].key, m.ephemeral);
      var kemSigned := Decapsulate(me.signedPq, m.kemSigned);
      var kemOneTime := Decapsulate(pqPool[j].key, m.kemOneTime.value);
      if dh4.None? || kemSigned.None? || kemOneTime.None? {
        return None;
      }
      var secret := HandshakeSecret(dh1.value, dh2.value, dh3.value, kemSigned.value, dh4.value, kemOneTime.value);
      var chain := HandshakeChain(secret, m.transcriptHash, true);
      var text := Open(MessageKey(chain, 0), m.nonce, m.ciphertext, TranscriptData(m.transcriptHash));
      if text.None? {
        return None;
      }
      var session := Session(m.sessionId, m.fromUser, false, HandshakeRoot(secret, m.transcriptHash),
                             HandshakeChain(secret, m.transcriptHash, false), NextChain(chain, 0),
                             0, 0, 0, me.signedEc, m.ephemeral);
      session := session.(recvCounter := session.recvCounter + 1);
      return Some((session, text.value));
    }

    /** The handshake of InitiateSession, from the bundle to the message. */
    method BuildInitial(b: ClientSpec.Bundle, peer: Text, plaintext: Text, d: Draws) returns (sent: Option<Initial>)
      requires GuardsValid(Guarding())
      modifies this
      ensures (State(), sent) == Initiate(old(State()), b, peer, plaintext, d)
      ensures GuardsValid(Guarding())
    {
      sent := None;
      if b.user != peer || b.version != ProtocolVersion || b.cipherSuite != CipherSuite || !b.signaturesVerify {
        return;
      }
      var trusted := VerifyOrRememberPeerIdentity(peer, b.sign, b.mldsa, b.dh);
      if !trusted || b.oneTimeEc == [] || b.oneTimePq == [] {
        return;
      }
      var secret := InitiatorSecret(me, b, d);
      if secret.None? {
        return;
      }
      var t := InitiatorTranscript(me, b, peer, d);
      var session := Session(d.sessionId, peer, true, HandshakeRoot(secret.value, t),
                             HandshakeChain(secret.value, t, true), HandshakeChain(secret.value, t, false),
                             0, 0, 0, d.ephemeral, b.signedEc);
      var nonce := NonceFromCounter(session.sendCounter);
      var c := Sealed(MessageKey(session.sendChain, session.sendCounter), nonce, plaintext, TranscriptData(t));
      session := session.(sendChain := NextChain(session.sendChain, session.sendCounter),
                          sendCounter := session.sendCounter + 1);
      var remembered := RememberInitialReplayGuards(d.sessionId, t);
      if !remembered {
        return;
      }
      sessions := sessions[peer := session];
      sent := Some(InitialMessage(
        d.sessionId, me.user, peer, ProtocolVersion, CipherSuite, me.sign, me.mldsa, PublicKey(me.dh),
        PublicKey(d.ephemeral), t.selected, t.kemSigned, t.kemOneTime, t,
        Signature(me.sign, t), Signature(me.mldsa, t), nonce, c));
    }

    /** Acquires the peer's bundle, builds the message and enqueues it. `read` opens what the server
        hands out; `link` is what becomes of the enqueue request and `saved` of saving the state.
        When the request fails the session and the guards stay. */
    method InitiateSession<B, K>(server: InMemoryServer<B, K, ChatEnvelope>, read: Mailbox.Bundle<B, K> -> ClientSpec.Bundle,
                                 peer: Text, plaintext: Text, d: Draws, link: Link, saved: bool)
      returns (ok: bool)
      requires GuardsValid(Guarding())
      modifies this, server
      ensures GuardsValid(Guarding())
      ensures var (store, b) := Acquire(old(server.State()), peer);
              if b.None? then !ok && State() == old(State()) && server.State() == store
              else var (c, sent) := Initiate(old(State()), read(b.value), peer, plaintext, d);
                   && State() == c && ok == (sent.Some? && link == Delivered && saved)
                   && server.State() == if sent.Some? && link != RequestLost then EnqueueFor(store, peer, FromInitial(sent.value)) else store
    {
      var b := server.AcquireBundleForSession(peer);
      if b.None? {
        return false;
      }
      var sent := BuildInitial(read(b.value), peer, plaintext, d);
      if sent.None? {
        return false;
      }
      if link != RequestLost {
        server.EnqueueEnvelope(peer, FromInitial(sent.value));
      }
      return link == Delivered && saved;
    }

    /** Seals the message and enqueues it. When the request fails the session has moved on. */
    method SendMessage<B, K>(server: InMemoryServer<B, K, ChatEnvelope>, peer: Text, plaintext: Text, newKey: nat, link: Link, saved: bool)
      returns (ok: bool)
      requires SessionsValid(State())
      modifies this`sessions, server
      ensures SessionsValid(State())
      ensures var (c, sent) := SendChat(old(State()), peer, plaintext, newKey);
              && State() == c && ok == (sent.Some? && link == Delivered && saved)
              && server.State() == if sent.Some? && link != RequestLost then EnqueueFor(old(server.State()), peer, FromChat(sent.value))
                                   else old(server.State())
    {
      var sent := SealMessage(peer, plaintext, newKey);
      if sent.None? {
        return false;
      }
      if link != RequestLost {
        server.EnqueueEnvelope(peer, FromChat(sent.value));
      }
      return link == Delivered && saved;
    }

    /** The session's part of SendMessage. */
    method SealMessage(peer: Text, plaintext: Text, newKey: nat) returns (sent: Option<Chat>)
      requires SessionsValid(State())
      modifies this`sessions
      ensures (State(), sent) == SendChat(old(State()), peer, plaintext, newKey)
      ensures SessionsValid(State())
    {
      sent := None;
      if peer !in sessions {
        return;
      }
      var session := sessions[peer];
      var header := MessageHeader(None, 0, 0, 0);
      if session.sendCounter > 0 && session.sendCounter % RatchetInterval == 0 {
        var dh := SharedSecret(newKey, session.remote);
        if dh.None? {
          return;
        }
        header := header.(ratchetKey := Some(PublicKey(newKey)), previousChainLength := session.previousSendLength, flags := 1);
        session := session.(local := newKey, sendChain := RatchetChain(dh.value, session.root),
                            root := RatchetRoot(dh.value, session.root),
                            previousSendLength := session.sendCounter, sendCounter := 0);
      }
      header := header.(messageNumber := session.sendCounter);
      var nonce := NonceFromCounter(session.sendCounter);
      var c := Sealed(MessageKey(session.sendChain, session.sendCounter), nonce, plaintext,
                      ChatData(session.sessionId, me.user, peer, header));
      sent := Some(ChatMessage(session.sessionId, me.user, peer, header, nonce, c));
      session := session.(sendChain := NextChain(session.sendChain, session.sendCounter),
                          sendCounter := session.sendCounter + 1);
      sessions := sessions[peer := session];
    }

    method HandleChatMessage(m: Chat) returns (plaintext: Option<Text>)
      modifies this`sessions
      ensures (State(), plaintext) == HandleChat(old(State()), m)
    {
      if m.toUser != me.user || m.fromUser !in sessions {
        return None;
      }
      var session;
      session, plaintext := ReceiveOn(sessions[m.fromUser], m);
      sessions := sessions[m.fromUser := session];
    }

    /** The part of HandleChatMessage that works on the session it found. */
    static method ReceiveOn(s: Session, m: Chat) returns (session: Session, plaintext: Option<Text>)
      ensures (session, plaintext) == Receive(s, m)
    {
      session, plaintext := s, None;
      if session.sessionId != m.sessionId {
        return;
      }
      if m.header.ratchetKey.Some? && m.header.ratchetKey.value != session.remote {
        var dh := SharedSecret(session.local, m.header.ratchetKey.value);
        if dh.None? {
          return;
        }
        session := session.(recvChain := RatchetChain(dh.value, session.root), root := RatchetRoot(dh.value, session.root),
                            remote := m.header.ratchetKey.value, recvCounter := 0);
      }
      if m.header.messageNumber != session.recvCounter {
        return;
      }
      plaintext := Open(MessageKey(session.recvChain, session.recvCounter), m.nonce, m.ciphertext, ChatAssociatedData(m));
      if plaintext.None? {
        return;
      }
      session := session.(recvChain := NextChain(session.recvChain, session.recvCounter),
                          recvCounter := session.recvCounter + 1);
    }

    /** Up to 32 random draws for an id that is neither zero nor in use; running out of draws is
        a failure of the random generator. `used` is how many draws were taken. */
    method GenerateUniqueOneTimePrekeyId(draws: seq<U32>) returns (id: Option<nat>, used: nat)
      ensures var first := ClientRuns.FirstUsable(InUse(), draws, ClientRuns.MaxIdDraws);
              if first.Some? then id == Some(draws[first.value] as nat) && used == first.value + 1 else id == None
      ensures used <= |draws|
    {
      used := 0;
      ghost var taken := InUse();
      while used < 32
        invariant used <= |draws| && used <= 32
        invariant forall k :: 0 <= k < used ==> !ClientRuns.Usable(draws[k], taken)
      {
        if used == |draws| {
          ClientRuns.FirstUsableAt(taken, draws, ClientRuns.MaxIdDraws, used);
          return None, used;
        }
        var candidate := draws[used];
        used := used + 1;
        var i := FindOneTime(ecPool, candidate);
        var j := FindOneTime(pqPool, candidate);
        ClientRuns.IdsFound(ecPool, candidate);
        ClientRuns.IdsFound(pqPool, candidate);
        if candidate == 0 || i < |ecPool| || j < |pqPool| {
          continue;
        }
        ClientRuns.FirstUsableAt(taken, draws, ClientRuns.MaxIdDraws, used - 1);
        return Some(candidate), used;
      }
      ClientRuns.FirstUsableAt(taken, draws, ClientRuns.MaxIdDraws, used);
      id := None;
    }

    ghost function InUse(): set<nat>
      reads this
    {
      ClientRuns.Ids(ecPool) + ClientRuns.Ids(pqPool)
    }

    /** Fills both pools up to their target with newly generated keys, numbered from the clock. What was
        generated before a failure stays; it succeeds if there are plenty of usable draws. */
    method RefillOneTimePrekeyPools(draws: seq<U32>, clock: nat) returns (ok: bool, ecIds: seq<nat>, pqIds: seq<nat>)
      requires PoolsValid(ecPool, pqPool)
      modifies this`ecPool, this`pqPool, this`dirty
      ensures State() == ClientRuns.Refill(old(State()), ecIds, pqIds, clock)
      ensures PoolsValid(ecPool, pqPool)
      ensures ok <==> |ecPool| == |pqPool| == PoolTarget
      ensures old(ClientRuns.Plenty(InUse(), draws, ClientRuns.Missing(ecPool, pqPool))) ==> ok
      ensures pqIds != [] ==> |ecPool| == PoolTarget
    {
      pqIds := [];
      var rest;
      ok, ecIds, rest := RefillEc(draws, clock);
      if ok {
        ok, pqIds := RefillPq(rest, clock + |ecIds|);
      }
    }

    /** The first loop of the refill; `rest` are the draws it leaves. */
    method RefillEc(draws: seq<U32>, clock: nat) returns (ok: bool, ids: seq<nat>, rest: seq<U32>)
      requires PoolsValid(ecPool, pqPool)
      modifies this`ecPool, this`dirty
      ensures ecPool == old(ecPool) + ClientRuns.Numbered(ids, clock)
      ensures dirty == (old(dirty) || ids != [])
      ensures PoolsValid(ecPool, pqPool)
      ensures ok <==> |ecPool| == PoolTarget
      ensures old(ClientRuns.Plenty(InUse(), draws, ClientRuns.Missing(ecPool, pqPool))) ==>
                ok && ClientRuns.Plenty(InUse(), rest, ClientRuns.Missing(ecPool, pqPool))
    {
      ids, rest := [], draws;
      ghost var plenty := ClientRuns.Plenty(InUse(), draws, ClientRuns.Missing(ecPool, pqPool));
      while |ecPool| < PoolTarget
        invariant PoolsValid(ecPool, pqPool)
        invariant ecPool == old(ecPool) + ClientRuns.Numbered(ids, clock)
        invariant dirty == (old(dirty) || ids != [])
        invariant plenty ==> ClientRuns.Plenty(InUse(), rest, ClientRuns.Missing(ecPool, pqPool))
      {
        var id, used := GenerateUniqueOneTimePrekeyId(rest);
        if plenty {
          ClientRuns.PlentyFinds(InUse(), rest, ClientRuns.Missing(ecPool, pqPool));
        }
        if id.None? {
          return false, ids, rest;
        }
        ClientRuns.FillKey(ecPool, pqPool, OneTimeKey(id.value, clock + |ids|));
        ClientRuns.NumberedPush(ids, clock, id.value);
        ecPool := ecPool + [OneTimeKey(id.value, clock + |ids|)];
        ids, rest, dirty := ids + [id.value], rest[used..], true;
      }
      ok := true;
    }

    /** The second loop of the refill. */
    method RefillPq(draws: seq<U32>, clock: nat) returns (ok: bool, ids: seq<nat>)
      requires PoolsValid(ecPool, pqPool)
      modifies this`pqPool, this`dirty
      ensures pqPool == old(pqPool) + ClientRuns.Numbered(ids, clock)
      ensures dirty == (old(dirty) || ids != [])
      ensures PoolsValid(ecPool, pqPool)
      ensures ok <==> |pqPool| == PoolTarget
      ensures |ecPool| == PoolTarget && old(ClientRuns.Plenty(InUse(), draws, ClientRuns.Missing(ecPool, pqPool))) ==> ok
    {
      ids := [];
      var rest: seq<U32> := draws;
      ghost var plenty := ClientRuns.Plenty(InUse(), draws, ClientRuns.Missing(ecPool, pqPool));
      while |pqPool| < PoolTarget
        invariant PoolsValid(ecPool, pqPool)
        invariant pqPool == old(pqPool) + ClientRuns.Numbered(ids, clock)
        invariant dirty == (old(dirty) || ids != [])
        invariant plenty ==> ClientRuns.Plenty(InUse(), rest, ClientRuns.Missing(ecPool, pqPool))
      {
        var id, used := GenerateUniqueOneTimePrekeyId(rest);
        if plenty {
          ClientRuns.PlentyFinds(InUse(), rest, ClientRuns.Missing(ecPool, pqPool));
        }
        if id.None? {
          return false, ids;
        }
        InUseEither();
        ClientRuns.FillKey(pqPool, ecPool, OneTimeKey(id.value, clock + |ids|));
        ClientRuns.NumberedPush(ids, clock, id.value);
        pqPool := pqPool + [OneTimeKey(id.value, clock + |ids|)];
        InUseEither();
        ids, rest, dirty := ids + [id.value], rest[used..], true;
      }
      ok := true;
    }

    lemma InUseEither()
      ensures InUse() == ClientRuns.Ids(pqPool) + ClientRuns.Ids(ecPool)
      ensures ClientRuns.Missing(ecPool, pqPool) == ClientRuns.Missing(pqPool, ecPool)
    {
    }

    // ---- polling ----

    /** The polled inbox, the client and its pending acknowledgement are those of `s`. */
    ghost predicate Matches<B, K>(server: InMemoryServer<B, K, ChatEnvelope>, s: System<ClientState, ChatEnvelope>)
      reads this, server
    {
      QueueOf(server.State(), me.user) == s.queue && State() == s.client && pendingAck == s.pending
    }

    method HandleOne(e: ChatEnvelope) returns (text: Option<Text>)
      requires GuardsValid(Guarding())
      modifies this
      ensures GuardsValid(Guarding()) && pendingAck == old(pendingAck)
      ensures (State(), text) == HandleEnvelope(old(State()), e)
      ensures (State(), text.Some?) == Accepts(old(State()), e)
    {
      if e.kind.KindInitial? && e.initial.Some? {
        text := HandleInitialMessage(e.initial.value);
      } else if e.kind.KindChat? && e.chat.Some? {
        text := HandleChatMessage(e.chat.value);
      } else {
        text := None;
      }
    }

    /** The next envelope of a page that was begun in state `start`, after `texts` have been shown. */
    method HandleNext(page: seq<Item<ChatEnvelope>>, k: nat, ghost start: ClientState, ghost texts: seq<Text>) returns (text: Option<Text>)
      requires GuardsValid(Guarding()) && k == |texts| < |page| && PageSoFar(start, page, State(), texts)
      modifies this
      ensures GuardsValid(Guarding()) && pendingAck == old(pendingAck)
      ensures if text.Some? then PageSoFar(start, page, State(), texts + [text.value]) else PageHandled(start, page, State(), texts)
    {
      PageNext(start, page, State(), texts);
      text := HandleOne(page[k].envelope);
    }

    /** Handles the envelopes of a page in order until one is refused. */
    method HandlePage(page: seq<Item<ChatEnvelope>>) returns (texts: seq<Text>, maxAckable: Option<nat>, failed: bool)
      requires GuardsValid(Guarding())
      modifies this
      ensures GuardsValid(Guarding()) && pendingAck == old(pendingAck)
      ensures PageHandled(old(State()), page, State(), texts) && |texts| <= |page|
      ensures failed == (|texts| < |page|)
      ensures maxAckable == if |texts| == 0 then None else Some(page[|texts|-1].id)
    {
      texts, maxAckable, failed := [], None, false;
      ghost var start := State();
      PageBegin(start, page);
      while |texts| < |page|
        invariant GuardsValid(Guarding()) && pendingAck == old(pendingAck)
        invariant |texts| <= |page| && PageSoFar(start, page, State(), texts)
        invariant maxAckable == if |texts| == 0 then None else Some(page[|texts|-1].id)
      {
        var text := HandleNext(page, |texts|, start, texts);
        if text.None? {
          failed := true;
          return;
        }
        maxAckable := Some(page[|texts|].id);
        texts := texts + [text.value];
      }
      PageEnd(start, page, State(), texts);
    }

    /** The drain request of a pass; no page comes back when request or reply is lost. */
    method RequestPage<B, K>(server: InMemoryServer<B, K, ChatEnvelope>, link: Link, size: Sizer<ChatEnvelope>, ack: Option<nat>)
      returns (page: Option<seq<Item<ChatEnvelope>>>)
      modifies server
      ensures var (queue, p) := Drain(old(QueueOf(server.State(), me.user)), ack, size);
              && QueueOf(server.State(), me.user) == (if link == RequestLost then old(QueueOf(server.State(), me.user)) else queue)
              && page == if link == Delivered then p else None
    {
      if link == RequestLost {
        return None;
      }
      page := server.DrainInbox(me.user, ack, size);
      if link == ReplyLost {
        return None;
      }
    }

    /** One pass of the drain loop. The acknowledgement to send always equals the pending one. */
    method InboxPass<B, K>(server: InMemoryServer<B, K, ChatEnvelope>, link: Link, size: Sizer<ChatEnvelope>,
                           ack: Option<nat>, ghost s: System<ClientState, ChatEnvelope>)
      returns (ackToSend: Option<nat>, texts: seq<Text>, more: bool, failed: bool)
      requires GuardsValid(Guarding()) && Matches(server, s) && ack == pendingAck
      modifies this, server
      ensures GuardsValid(Guarding()) && ackToSend == pendingAck
      ensures Matches(server, DrainPass(s, link, size, Accepts).0)
      ensures more == DrainPass(s, link, size, Accepts).1
      ensures texts == PassTexts(s, link, size) && failed == PassFails(s, link, size)
    {
      ackToSend, texts, more, failed := ack, [], false, true;
      var page := RequestPage(server, link, size, ackToSend);
      if page.None? {
        if ackToSend.Some? {
          pendingAck := ackToSend;
        }
        return;
      }
      ackToSend, pendingAck := None, None;
      if page.value == [] {
        failed := false;
        return;
      }
      var maxAckable;
      texts, maxAckable, failed := HandlePage(page.value);
      if maxAckable.Some? {
        ackToSend, pendingAck := maxAckable, maxAckable;
      }
      more := !failed;
    }

    /** The arrivals before a pass, and the pass. */
    method PassAfterArrivals<B, K>(server: InMemoryServer<B, K, ChatEnvelope>, e: PassEnv<ChatEnvelope>, size: Sizer<ChatEnvelope>,
                                   ack: Option<nat>, ghost s: ChatSystem)
      returns (ackToSend: Option<nat>, texts: seq<Text>, more: bool, failed: bool)
      requires GuardsValid(Guarding()) && Matches(server, s) && ack == pendingAck
      modifies this, server
      ensures GuardsValid(Guarding()) && ackToSend == pendingAck
      ensures var s1 := ArriveAll(s, e.arrivals);
              && Matches(server, DrainPass(s1, e.link, size, Accepts).0)
              && more == DrainPass(s1, e.link, size, Accepts).1
              && texts == PassTexts(s1, e.link, size) && failed == PassFails(s1, e.link, size)
    {
      ReceiveArrivals(server, e.arrivals, s);
      ackToSend, texts, more, failed := InboxPass(server, e.link, size, ack, ArriveAll(s, e.arrivals));
    }

    /** The drain loop: up to 64 passes; envelopes may arrive before each. `env` says what arrives and
        what becomes of the request, `s` gives the histories so far. */
    method DrainLoop<B, K>(server: InMemoryServer<B, K, ChatEnvelope>, env: seq<PassEnv<ChatEnvelope>>,
                           size: Sizer<ChatEnvelope>, ghost s: ChatSystem)
      returns (plaintexts: seq<Text>, failed: bool)
      requires GuardsValid(Guarding()) && Matches(server, s) && |env| == MaxPasses
      modifies this, server
      ensures GuardsValid(Guarding())
      ensures Matches(server, Poll(s, env, size, Accepts))
      ensures plaintexts == PollTexts(s, env, size) && failed == PollFails(s, env, size)
    {
      plaintexts, failed := [], false;
      var ackToSend := pendingAck;
      ghost var now := s;
      var pass, more := 0, true;
      PolledAtFirst(s, env, size);
      while pass < MaxPasses && more
        invariant pass <= MaxPasses
        invariant GuardsValid(Guarding()) && ackToSend == pendingAck && Matches(server, now)
        invariant PolledSoFar(s, env, size, now, env[pass..], more, plaintexts, failed)
      {
        PolledNext(s, env, size, now, env[pass..], plaintexts, failed);
        assert env[pass..][0] == env[pass] && env[pass..][1..] == env[pass+1..];
        var texts, passFailed;
        ackToSend, texts, more, passFailed := PassAfterArrivals(server, env[pass], size, ackToSend, now);
        now := DrainPass(ArriveAll(now, env[pass].arrivals), env[pass].link, size, Accepts).0;
        plaintexts, failed := plaintexts + texts, failed || passFailed;
        pass := pass + 1;
      }
      PolledAll(s, env, size, now, env[pass..], more, plaintexts, failed);
    }

    /** Drains the inbox; then, if one-time keys were used, refills the pools and publishes them; then
        saves. The texts are an error only if there are none and something failed. `draws` are the
        generator's ids, `clock` the next key; `published` and `saved` are how these two end. */
    method ProcessInbox<B, K>(server: InMemoryServer<B, K, ChatEnvelope>, env: seq<PassEnv<ChatEnvelope>>,
                              size: Sizer<ChatEnvelope>, draws: seq<U32>, clock: nat, published: bool, saved: bool,
                              ghost s: ChatSystem)
      returns (r: Option<seq<Text>>, ecIds: seq<nat>, pqIds: seq<nat>)
      requires GuardsValid(Guarding()) && PoolsValid(ecPool, pqPool) && Matches(server, s) && |env| == MaxPasses
      modifies this, server
      ensures GuardsValid(Guarding()) && PoolsValid(ecPool, pqPool)
      ensures var t := Poll(s, env, size, Accepts);
              && QueueOf(server.State(), me.user) == t.queue && pendingAck == t.pending
              && (!t.client.dirty ==> State() == t.client)
              && (t.client.dirty ==>
                    var c := ClientRuns.Refill(t.client, ecIds, pqIds, clock);
                    && (Drawn(t.client, draws) ==> |c.ecPool| == |c.pqPool| == PoolTarget)
                    && State() == if published && (|c.ecPool| == |c.pqPool| == PoolTarget || PollFails(s, env, size))
                                  then c.(dirty := false) else c)
              && (r.Some? ==> r.value == PollTexts(s, env, size))
              && var unpublished := t.client.dirty && !(published && |ecPool| == |pqPool| == PoolTarget);
              (r.None? <==> PollTexts(s, env, size) == [] && (!saved || unpublished || PollFails(s, env, size)))
    {
      PollKeepsPools(s, env, size);
      var texts, failed := DrainLoop(server, env, size, s);
      ecIds, pqIds := [], [];
      if dirty {
        var refilled;
        refilled, ecIds, pqIds := RefillOneTimePrekeyPools(draws, clock);
        if !refilled && !failed {
          failed := true;
        } else if published {
          dirty := false;
        } else {
          failed := true;
        }
      }
      if texts == [] && failed {
        return None, ecIds, pqIds;
      }
      if !saved && texts == [] {
        return None, ecIds, pqIds;
      }
      return Some(texts), ecIds, pqIds;
    }

    /** The generator yields plenty of usable ids. */
    static predicate Drawn(c: ClientState, draws: seq<U32>) {
      ClientRuns.Plenty(ClientRuns.Ids(c.ecPool) + ClientRuns.Ids(c.pqPool), draws, ClientRuns.Missing(c.ecPool, c.pqPool))
    }

    /** Other users' envelopes reaching the server between two passes. */
    method ReceiveArrivals<B, K>(server: InMemoryServer<B, K, ChatEnvelope>, arrivals: seq<ChatEnvelope>,
                                 ghost s: System<ClientState, ChatEnvelope>)
      requires Matches(server, s)
      modifies server
      ensures Matches(server, ArriveAll(s, arrivals))
    {
      ghost var now := s;
      for i := 0 to |arrivals|
        invariant Matches(server, now)
        invariant ArriveAll(s, arrivals) == ArriveAll(now, arrivals[i..])
      {
        assert arrivals[i..][0] == arrivals[i] && arrivals[i..][1..] == arrivals[i+1..];
        server.EnqueueEnvelope(me.user, arrivals[i]);
        now := Arrive(now, arrivals[i]);
      }
    }
  }
}
