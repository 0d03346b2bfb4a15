/** What the handshake guarantees to the two clients that take part in it. */
module Handshake {
  import opened Wrappers
  import opened Bytes
  import opened Messages
  import opened Symbolic
  import opened Sessions
  import opened ClientSpec
  import ClientRuns
  import KeyTerms
  import SessionAgreement
  import SessionSafety

  /** The message that an initiator sends is accepted by `r`. */
  predicate Completed(i: ClientState, r: ClientState, b: Bundle, plaintext: Text, d: Draws) {
    var sent := Initiate(i, b, r.me.user, plaintext, d);
    sent.1.Some? && HandleInitial(r, sent.1.value).1.Some?
  }

  /** Acceptance is key confirmation: whatever bundle the server handed out, a responder that
      accepts has computed the initiator's secret, so the bundle's keys were its own. */
  lemma AcceptanceConfirms(i: ClientState, r: ClientState, b: Bundle, plaintext: Text, d: Draws)
    requires Completed(i, r, b, plaintext, d)
    ensures var m := Initiate(i, b, r.me.user, plaintext, d).1.value;
            && HandleInitial(r, m).1 == Some(plaintext)
            && OpenInitial(r, m) == Some((ResponderSession(r.me, m, InitiatorSecret(i.me, b, d).value), plaintext))
    ensures b.signedEc == PublicKey(r.me.signedEc) && b.dh == PublicKey(r.me.dh)
    ensures b.sign == r.me.sign && b.mldsa == r.me.mldsa
  {
    var m := Initiate(i, b, r.me.user, plaintext, d).1.value;
    var j := IndexOf(r.ecPool, m.selected.oneTimeEcId.value);
    var k := IndexOf(r.pqPool, m.selected.oneTimePqId.value);
    assert ResponderSecret(r.me, m, r.ecPool[j].key, r.pqPool[k].key) == InitiatorSecret(i.me, b, d);
    SharedSecretAgrees(d.ephemeral, r.me.signedEc, b.signedEc.id);
    assert b.signedEc.id == r.me.signedEc;
  }

  /** Whatever a responder accepts with the ciphertext that an initiator sealed is the initiator's
      message, with nothing altered. */
  lemma AcceptedUnaltered(i: ClientState, r: ClientState, b: Bundle, peer: Text, plaintext: Text, d: Draws, m: Initial)
    requires Initiate(i, b, peer, plaintext, d).1.Some? && HandleInitial(r, m).1.Some?
    requires m.ciphertext == Initiate(i, b, peer, plaintext, d).1.value.ciphertext
    ensures m == Initiate(i, b, peer, plaintext, d).1.value && peer == r.me.user
  {
    var t := InitiatorTranscript(i.me, b, peer, d);
    assert m.transcriptHash == t && TranscriptOf(r.me, m) == t;
    assert m.nonce == Nonce(0);
  }

  /** Mirroring for any such message, however it reached the responder. */
  lemma MirroringDelivered(i: ClientState, r: ClientState, b: Bundle, peer: Text, plaintext: Text, d: Draws, m: Initial, clock: nat)
    requires Initiate(i, b, peer, plaintext, d).1.Some? && HandleInitial(r, m).1.Some?
    requires m.ciphertext == Initiate(i, b, peer, plaintext, d).1.value.ciphertext
    requires d.ephemeral < clock && r.me.signedEc < clock
    ensures HandleInitial(r, m).1 == Some(plaintext)
    ensures peer in Initiate(i, b, peer, plaintext, d).0.sessions && i.me.user in HandleInitial(r, m).0.sessions
    ensures var x, y := Initiate(i, b, peer, plaintext, d).0.sessions[peer], HandleInitial(r, m).0.sessions[i.me.user];
            && SessionAgreement.Mirrored(x, y)
            && SessionSafety.Start(SessionSafety.Network(
                 SessionSafety.Side(i.me.user, x, [m.ciphertext], []), SessionSafety.Side(peer, y, [], [m.ciphertext]), clock), m.ciphertext)
  {
    AcceptedUnaltered(i, r, b, peer, plaintext, d, m);
    Mirroring(i, r, b, plaintext, d, clock);
  }

  /** Handshake mirroring. Whenever a responder accepts an initiator's message, it shows the
      initiator's plaintext, and the two sessions have the same root, swapped chains, equal
      counters and each other's ratchet keys: the start of both session theorems. */
  lemma Mirroring(i: ClientState, r: ClientState, b: Bundle, plaintext: Text, d: Draws, clock: nat)
    requires Completed(i, r, b, plaintext, d)
    requires d.ephemeral < clock && r.me.signedEc < clock
    ensures var (i', sent) := Initiate(i, b, r.me.user, plaintext, d);
            var (r', shown) := HandleInitial(r, sent.value);
            && shown == Some(plaintext)
            && r.me.user in i'.sessions && i.me.user in r'.sessions
            && var x, y := i'.sessions[r.me.user], r'.sessions[i.me.user];
               var c := sent.value.ciphertext;
               && SessionAgreement.Start(SessionAgreement.System(
                    SessionAgreement.Side(i.me.user, x, [], [plaintext], [], 0),
                    SessionAgreement.Side(r.me.user, y, [], [], [plaintext], 0)))
               && SessionSafety.Start(SessionSafety.Network(
                    SessionSafety.Side(i.me.user, x, [c], []), SessionSafety.Side(r.me.user, y, [], [c]), clock), c)
  {
    AcceptanceConfirms(i, r, b, plaintext, d);
    var (i', sent) := Initiate(i, b, r.me.user, plaintext, d);
    var (r', shown) := HandleInitial(r, sent.value);
    var x, y := i'.sessions[r.me.user], r'.sessions[i.me.user];
    assert y == ResponderSession(r.me, sent.value, InitiatorSecret(i.me, b, d).value);
    assert KeyTerms.Ranked(x) && KeyTerms.Ranked(y);
  }

  /** The bundle's keys are those of `r`, and its one-time keys are still in r's pools. */
  predicate Current(b: Bundle, r: ClientState) {
    && b.oneTimeEc != [] && b.oneTimePq != []
    && b.sign == r.me.sign && b.mldsa == r.me.mldsa && b.dh == PublicKey(r.me.dh)
    && b.signedEcId == r.me.signedEcId && b.signedEc == PublicKey(r.me.signedEc)
    && b.signedPqId == r.me.signedPqId && b.signedPq == PublicKey(r.me.signedPq)
    && var j := IndexOf(r.ecPool, b.oneTimeEc[0].0);
       var k := IndexOf(r.pqPool, b.oneTimePq[0].0);
       && j < |r.ecPool| && b.oneTimeEc[0].1 == PublicKey(r.ecPool[j].key)
       && k < |r.pqPool| && b.oneTimePq[0].1 == PublicKey(r.pqPool[k].key)
  }

  /** Exactly when an initiator's message is accepted: the bundle is the responder's current one,
      the responder has verified the initiator's identity, and neither guard has been seen. */
  lemma AcceptedIff(i: ClientState, r: ClientState, b: Bundle, plaintext: Text, d: Draws)
    requires Initiate(i, b, r.me.user, plaintext, d).1.Some?
    ensures HandleInitial(r, Initiate(i, b, r.me.user, plaintext, d).1.value).1.Some? <==>
            && Current(b, r)
            && i.me.user in r.pins && r.pins[i.me.user] == Pin(i.me.sign, i.me.mldsa, PublicKey(i.me.dh), true)
            && !Seen(r.guards, d.sessionId, InitiatorTranscript(i.me, b, r.me.user, d))
  {
    var m := Initiate(i, b, r.me.user, plaintext, d).1.value;
    if HandleInitial(r, m).1.Some? {
      AcceptanceConfirms(i, r, b, plaintext, d);
      var j := IndexOf(r.ecPool, b.oneTimeEc[0].0);
      SharedSecretAgrees(d.ephemeral, r.ecPool[j].key, b.oneTimeEc[0].1.id);
    }
    if Current(b, r) {
      var j := IndexOf(r.ecPool, b.oneTimeEc[0].0);
      SharedSecretAgrees(i.me.dh, r.me.signedEc, 0);
      SharedSecretAgrees(d.ephemeral, r.me.dh, 0);
      SharedSecretAgrees(d.ephemeral, r.me.signedEc, 0);
      SharedSecretAgrees(d.ephemeral, r.ecPool[j].key, 0);
    }
  }

  // ---- the initiator ----

  /** The bundle offers a one-time key of each kind, and every key in use is usable. */
  predicate Complete(b: Bundle) {
    && b.oneTimeEc != [] && b.oneTimePq != []
    && b.signedEc.PublicKey? && b.dh.PublicKey? && b.oneTimeEc[0].1.PublicKey?
    && b.signedPq.PublicKey? && b.oneTimePq[0].1.PublicKey?
  }

  /** Exactly when a client begins a session: the bundle is the peer's, in the right version and
      suite and with valid signatures; it carries the identity that the user has verified for the
      peer; its keys can be used; and neither guard has been seen. */
  lemma InitiateIff(c: ClientState, b: Bundle, peer: Text, plaintext: Text, d: Draws)
    ensures Initiate(c, b, peer, plaintext, d).1.Some? <==>
            && b.user == peer && b.version == ProtocolVersion && b.cipherSuite == CipherSuite && b.signaturesVerify
            && peer in c.pins && c.pins[peer] == Pin(b.sign, b.mldsa, b.dh, true)
            && Complete(b)
            && d.sessionId !in c.guards.sessions && InitiatorTranscript(c.me, b, peer, d) !in c.guards.transcripts
  {
  }

  /** What is left if it does not: the client as it was, or with the identity pinned, unverified,
      exactly when a valid bundle of the peer was the first contact. */
  lemma InitiateRefused(c: ClientState, b: Bundle, peer: Text, plaintext: Text, d: Draws)
    requires Initiate(c, b, peer, plaintext, d).1.None?
    ensures var valid := b.user == peer && b.version == ProtocolVersion && b.cipherSuite == CipherSuite && b.signaturesVerify;
            Initiate(c, b, peer, plaintext, d).0 ==
            if valid && peer !in c.pins then c.(pins := c.pins[peer := Pin(b.sign, b.mldsa, b.dh, false)]) else c
  {
  }

  /** And if it does: both guards are seen afterwards, the peer has a session, and nothing else has
      changed; the message names the two users, the bundle's identity and one-time keys. */
  lemma InitiateEffects(c: ClientState, b: Bundle, peer: Text, plaintext: Text, d: Draws)
    requires GuardsValid(c.guards) && Initiate(c, b, peer, plaintext, d).1.Some?
    ensures var (c', m) := Initiate(c, b, peer, plaintext, d);
            && m.value.sessionId == d.sessionId && m.value.fromUser == c.me.user && m.value.toUser == peer
            && m.value.transcriptHash.responderSign == b.sign && m.value.transcriptHash.responderMldsa == b.mldsa
            && m.value.transcriptHash.responderDh == b.dh
            && m.value.selected == PrekeySelection(b.signedEcId, b.signedPqId, Some(b.oneTimeEc[0].0), Some(b.oneTimePq[0].0))
            && d.sessionId in c'.guards.sessions && m.value.transcriptHash in c'.guards.transcripts
            && peer in c'.sessions && c'.sessions - {peer} == c.sessions - {peer}
            && c'.(guards := c.guards, sessions := c.sessions) == c
  {
    ClientRuns.RememberKeepsSeen(c.guards, d.sessionId, InitiatorTranscript(c.me, b, peer, d));
  }
}
