/** From one user's keyboard to the other's screen: sessions, mailbox and polling together. */
module Conversations {
  import opened Wrappers
  import opened Bytes
  import opened Messages
  import opened Symbolic
  import opened Sessions
  import opened ClientSpec
  import opened Mailbox
  import opened Delivery
  import opened Polls
  import opened ClientSessions
  import Agreement = SessionAgreement
  import Handshake

  /** The envelopes carry exactly these messages, in order. */
  predicate Carries(items: seq<Item<ChatEnvelope>>, q: seq<Chat>) {
    |items| == |q| && forall i :: 0 <= i < |items| ==> items[i].envelope == FromChat(q[i])
  }

  /** All messages are of the session that `c` has with `peer`. */
  predicate Addressed(c: ClientState, peer: Text, q: seq<Chat>) {
    peer in c.sessions
    && forall i :: 0 <= i < |q| ==> q[i].fromUser == peer && q[i].toUser == c.me.user && q[i].sessionId == c.sessions[peer].sessionId
  }

  /** One envelope, as the session sees it. */
  lemma ChatHandled(c: ClientState, peer: Text, m: Chat)
    requires peer in c.sessions && m.fromUser == peer && m.toUser == c.me.user && m.sessionId == c.sessions[peer].sessionId
    ensures var s := c.sessions[peer];
            var (h, p) := ReceiveHalf(RecvOf(s), s.local, m);
            HandleEnvelope(c, FromChat(m)) == (c.(sessions := c.sessions[peer := WithRecv(s, h)]), p)
  {
  }

  /** Handling envelopes shows what receiving their messages shows. */
  lemma {:induction false} TextsReplay(c: ClientState, peer: Text, items: seq<Item<ChatEnvelope>>, q: seq<Chat>)
    requires Carries(items, q) && Addressed(c, peer, q)
    requires Agreement.Replay(RecvOf(c.sessions[peer]), c.sessions[peer].local, q).Some?
    ensures HandleItems(c, items, Accepts).1 == |items|
    ensures Texts(c, items) == Agreement.Replay(RecvOf(c.sessions[peer]), c.sessions[peer].local, q).value.1
    decreases |q|
  {
    if q != [] {
      var s := c.sessions[peer];
      ChatHandled(c, peer, q[0]);
      var (h, p) := ReceiveHalf(RecvOf(s), s.local, q[0]);
      var c' := c.(sessions := c.sessions[peer := WithRecv(s, h)]);
      assert RecvOf(WithRecv(s, h)) == h;
      TextsReplay(c', peer, items[1..], q[1..]);
    }
  }

  /** What is on its way to y is addressed to its session and can be received. */
  lemma QueueAddressed(p: Pair)
    requires Linked(p) && Agreement.InSync(View(p))
    ensures Addressed(p.y, p.x.me.user, p.toY)
    ensures var s := p.y.sessions[p.x.me.user];
            var r := Agreement.Replay(RecvOf(s), s.local, p.toY);
            r.Some? && p.shownY + r.value.1 == p.sentX
  {
    forall i | 0 <= i < |p.toY| ensures p.toY[i].fromUser == p.x.me.user && p.toY[i].toUser == p.y.me.user {
      assert p.toY[i] in p.toY;
    }
  }

  /** The inbox of y as it stands when what x sent has been enqueued for y: the envelopes that y has not
      handled carry the messages on their way. */
  ghost predicate Mailed(s: ChatSystem, p: Pair) {
    s.client == p.y && |s.handled| <= |s.enqueued| && Carries(Unhandled(s), p.toY)
  }

  lemma RunInSync(p: Pair, events: seq<Agreement.Event>)
    requires Linked(p) && Agreement.Start(View(p)) && Agreement.AllowedRun(View(p), events)
    ensures Linked(PairRun(p, events)) && Agreement.InSync(View(PairRun(p, events)))
  {
    StartSync(View(p));
    PairFollows(p, events);
    Agreement.RunKeepsSync(View(p), events);
  }

  /** A poll of y, whatever is left of the conversation to receive. */
  lemma PollReceives(p: Pair, s: ChatSystem, env: seq<PassEnv<ChatEnvelope>>, size: Sizer<ChatEnvelope>, m: nat, r: nat)
    requires Linked(p) && Agreement.InSync(View(p)) && Mailed(s, p)
    requires Inv(s) && Small(Unhandled(s), size, m) && FitPage(r, m)
    requires Quiet(env) && |env| == MaxPasses && |Unhandled(s)| <= 63 * r
    ensures p.shownY + PollTexts(s, env, size) == p.sentX && !PollFails(s, env, size)
    ensures var t := Poll(s, env, size, Accepts); t.queue.items == [] && t.pending == None && t.handled == s.enqueued
  {
    QueueAddressed(p);
    TextsReplay(p.y, p.x.me.user, Unhandled(s), p.toY);
    PollShowsAll(s, env, size, m, r);
  }

  /** The conversation arrives. From mirrored sessions, after any run of sends and deliveries in which no
      ratchets cross: when y's client polls over a link that holds, with enough passes for what waits in
      its inbox, every text that x was asked to send has been shown to y's user, once and in order; the
      poll reports no failure and leaves nothing in the inbox. */
  lemma ConversationArrives(p: Pair, events: seq<Agreement.Event>, s: ChatSystem, env: seq<PassEnv<ChatEnvelope>>,
                            size: Sizer<ChatEnvelope>, m: nat, r: nat)
    requires Linked(p) && Agreement.Start(View(p)) && Agreement.AllowedRun(View(p), events)
    requires Mailed(s, PairRun(p, events)) && Inv(s) && Small(Unhandled(s), size, m) && FitPage(r, m)
    requires Quiet(env) && |env| == MaxPasses && |Unhandled(s)| <= 63 * r
    ensures PairRun(p, events).shownY + PollTexts(s, env, size) == p.sentX + Asked(events, false)
    ensures !PollFails(s, env, size)
    ensures var t := Poll(s, env, size, Accepts); t.queue.items == [] && t.pending == None && t.handled == s.enqueued
  {
    RunInSync(p, events);
    ClientsAgree(p, events);
    PollReceives(PairRun(p, events), s, env, size, m, r);
  }

  /** An envelope that lacks the message its kind announces is refused and changes nothing. */
  lemma HollowRefused(c: ClientState, e: ChatEnvelope)
    requires if e.kind.KindInitial? then e.initial.None? else e.chat.None?
    ensures HandleEnvelope(c, e) == (c, None)
  {
  }

  lemma OneItem(c: ClientState, item: Item<ChatEnvelope>, c': ClientState, text: Text)
    requires HandleEnvelope(c, item.envelope) == (c', Some(text))
    ensures HandleItems(c, [item], Accepts) == (c', 1) && Texts(c, [item]) == [text]
  {
    assert [item][1..] == [];
    assert HandleItems(c', [], Accepts) == (c', 0) && Texts(c', []) == [];
  }

  /** The handshake arrives. When an initiator's message waits in the inbox of a responder that accepts
      it, a poll shows the initiator's plaintext and leaves the two clients where the session theorems
      start. */
  lemma HandshakeArrives(i: ClientState, b: ClientSpec.Bundle, plaintext: Text, d: Draws, s: ChatSystem,
                         env: seq<PassEnv<ChatEnvelope>>, size: Sizer<ChatEnvelope>, m: nat, clock: nat)
    requires Handshake.Completed(i, s.client, b, plaintext, d) && d.ephemeral < clock && s.client.me.signedEc < clock
    requires Inv(s) && |Unhandled(s)| == 1
    requires Unhandled(s)[0].envelope == FromInitial(Initiate(i, b, s.client.me.user, plaintext, d).1.value)
    requires Small(Unhandled(s), size, m) && Quiet(env) && |env| == MaxPasses
    ensures PollTexts(s, env, size) == [plaintext] && !PollFails(s, env, size)
    ensures var p := Pair(Initiate(i, b, s.client.me.user, plaintext, d).0, Poll(s, env, size, Accepts).client,
                          [], [], [plaintext], [], 0, [], [plaintext], 0);
            Linked(p) && Agreement.Start(View(p))
  {
    var sent := Initiate(i, b, s.client.me.user, plaintext, d).1.value;
    HandshakeStarts(i, s.client, b, plaintext, d, clock);
    OneItem(s.client, Unhandled(s)[0], HandleInitial(s.client, sent).0, plaintext);
    assert Unhandled(s) == [Unhandled(s)[0]];
    PollShowsAll(s, env, size, m, 1);
    EnoughIf(1, 1, |env|);
    PollGetsAll(s, env, size, Accepts, m, 1);
  }
}
