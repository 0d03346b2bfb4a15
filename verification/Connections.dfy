/** Connections served side by side. Every call into the server holds its mutex and is one step;
    between two steps of a connection any other connection may take its own. */
module Connections {
  import opened Wrappers
  import opened Bytes
  import opened Fields
  import opened WireCodec
  import opened WirePages
  import opened InboxPages
  import opened Mailbox
  import opened AuthWire
  import opened AuthSpec
  import opened PreAuthGate
  import opened Dispatch
  import AuthRuns

  // ---- connections, one API call at a time ----

  /** A frame as it came in on a connection. */
  datatype Request = Request(command: nat, payload: Blob, addr: Text)

  /** What the clock shows and the random generator yields when a step is taken. */
  datatype Look = Look(now: nat, random: Option<(Text, Text)>, newToken: Option<Text>)

  /** How far a connection is with its request: nothing in hand, the address limit passed, the user
      limit of a login command passed, or the session token checked. */
  datatype Pending =
    | Idle
    | Limited(request: Request)
    | Permitted(request: Request)
    | Checked(request: Request, actor: Text)

  datatype Progress = Waiting(pending: Pending) | Replied(reply: Option<Blob>)

  /** The user a login command is for. */
  function LoginUser(r: Request): Option<Text> {
    match CommandOf(r.command)
    case Register => (match DeserializeRegister(r.payload) case None => None case Some(m) => Some(m.user))
    case AuthBegin => (match DeserializeBegin(r.payload) case None => None case Some(m) => Some(m.user))
    case AuthFinish => (match DeserializeFinish(r.payload) case None => None case Some(m) => Some(m.user))
    case OtherCommand => None
  }

  function StepIdle(s: ServerState, r: Request, look: Look, config: ServerConfig): (ServerState, Progress) {
    var (gate, within) := AddrLimit(s.gate, CommandOf(r.command), r.addr, look.now, config.limits);
    (s.(gate := gate), if within then Waiting(Limited(r)) else Replied(None))
  }

  function StepLimited(s: ServerState, r: Request, look: Look, config: ServerConfig): (ServerState, Progress) {
    if CommandOf(r.command) != OtherCommand then
      match LoginUser(r)
      case None => (s, Replied(None))
      case Some(user) =>
        var (gate, within) := PairLimit(s.gate, CommandOf(r.command), r.addr, user, look.now, config.limits);
        (s.(gate := gate), if within then Waiting(Permitted(r)) else Replied(None))
    else
      match DeserializeAuthenticated(r.payload)
      case None => (s, Replied(None))
      case Some(p) =>
        var (auth, user) := Authenticate(s.auth, p.token, look.now);
        (s.(auth := auth), if user.Some? then Waiting(Checked(r, user.value)) else Replied(None))
  }

  function StepPermitted(s: ServerState, r: Request, look: Look, config: ServerConfig): (ServerState, Progress) {
    match CommandOf(r.command)
    case Register =>
      (match DeserializeRegister(r.payload)
       case None => (s, Replied(None))
       case Some(m) => var (auth, ok) := AuthSpec.Register(s.auth, m, config.checks);
                       (s.(auth := auth), Replied(if ok then Some([]) else None)))
    case AuthBegin =>
      (match DeserializeBegin(r.payload)
       case None => (s, Replied(None))
       case Some(m) => var (auth, a) := Begin(s.auth, m, look.now, look.random);
                       (s.(auth := auth), Replied(if a.Some? then Some(SerializeBeginReply(a.value)) else None)))
    case AuthFinish =>
      (match DeserializeFinish(r.payload)
       case None => (s, Replied(None))
       case Some(m) => var (auth, a) := Finish(s.auth, m, look.now, look.newToken, config.checks);
                       (s.(auth := auth), Replied(if a.Some? then Some(SerializeFinishReply(a.value)) else None)))
    case OtherCommand => (s, Replied(None))
  }

  function StepChecked(s: ServerState, r: Request, actor: Text, config: ServerConfig): (ServerState, Progress) {
    match DeserializeAuthenticated(r.payload)
    case None => (s, Replied(None))
    case Some(p) =>
      if r.command == CmdLogout then
        var (auth, ok) := Revoke(s.auth, p.token);
        (s.(auth := auth), Replied(if ok then Some([]) else None))
      else
        var (mail, reply) := HandleForUser(s.mail, r.command, actor, p.payload, config);
        (s.(mail := mail), Replied(reply))
  }

  /** One atomic step of a connection; `r` is the frame that an idle connection takes up. */
  function StepConnection(s: ServerState, p: Pending, r: Request, look: Look, config: ServerConfig): (ServerState, Progress) {
    match p
    case Idle => StepIdle(s, r, look, config)
    case Limited(q) => StepLimited(s, q, look, config)
    case Permitted(q) => StepPermitted(s, q, look, config)
    case Checked(q, actor) => StepChecked(s, q, actor, config)
  }

  /** A connection that nothing interferes with handles its frame as `Handle` says. */
  lemma HandledAlone(s: ServerState, r: Request, env: Env, config: ServerConfig)
    requires r.addr == env.addr
    ensures var (s1, p1) := StepConnection(s, Idle, r, Look(env.gateNow, None, None), config);
            var login := CommandOf(r.command) != OtherCommand;
            Handle(s, r.command, r.payload, env, config) ==
            match p1 {
              case Replied(a) => (s1, a)
              case Waiting(q1) =>
                var (s2, p2) := StepConnection(s1, q1, r, Look(if login then env.userNow else env.now, None, None), config);
                match p2 {
                  case Replied(a) => (s2, a)
                  case Waiting(q2) =>
                    var (s3, p3) := StepConnection(s2, q2, r, Look(env.now, env.random, env.newToken), config);
                    (s3, if p3.Replied? then p3.reply else None)
                }
            }
  {
  }

  /** A session token that was checked: the user it stood for and the request it came with. */
  datatype Act = Act(actor: Text, request: Request)

  /** All connections, and all checks that have been made. */
  datatype World = World(server: ServerState, connections: map<nat, Pending>, acts: seq<Act>)

  datatype Event = Event(connection: nat, request: Request, look: Look)

  function PendingOf(w: World, c: nat): Pending {
    if c in w.connections then w.connections[c] else Idle
  }

  function Advance(w: World, e: Event, config: ServerConfig): World {
    var (s, p) := StepConnection(w.server, PendingOf(w, e.connection), e.request, e.look, config);
    World(s, w.connections[e.connection := if p.Waiting? then p.pending else Idle],
          if p.Waiting? && p.pending.Checked? then w.acts + [Act(p.pending.actor, p.pending.request)] else w.acts)
  }

  function Run(w: World, events: seq<Event>, config: ServerConfig): World
    decreases |events|
  {
    if events == [] then w else Run(Advance(w, events[0], config), events[1..], config)
  }

  /** The replies of a run with the connections they go to. */
  function Replies(w: World, events: seq<Event>, config: ServerConfig): seq<(nat, Option<Blob>)>
    decreases |events|
  {
    if events == [] then [] else
    ReplyOf(w, events[0], config) + Replies(Advance(w, events[0], config), events[1..], config)
  }

  /** The replies before step i have been given, in world `v` at step i. */
  ghost predicate ServedSoFar(w: World, events: seq<Event>, i: nat, v: World, replies: seq<(nat, Option<Blob>)>, config: ServerConfig)
    requires i <= |events|
  {
    replies + Replies(v, events[i..], config) == Replies(w, events, config) && Run(v, events[i..], config) == Run(w, events, config)
  }

  /** The reply of one step, if it gives one. */
  function ReplyOf(v: World, e: Event, config: ServerConfig): seq<(nat, Option<Blob>)> {
    var p := StepConnection(v.server, PendingOf(v, e.connection), e.request, e.look, config).1;
    if p.Replied? then [(e.connection, p.reply)] else []
  }

  lemma ServeNext(w: World, events: seq<Event>, i: nat, v: World, replies: seq<(nat, Option<Blob>)>, config: ServerConfig)
    requires i < |events| && ServedSoFar(w, events, i, v, replies, config)
    ensures ServedSoFar(w, events, i + 1, Advance(v, events[i], config), replies + ReplyOf(v, events[i], config), config)
  {
    assert events[i..][1..] == events[i+1..];
    var r, rest := ReplyOf(v, events[i], config), Replies(Advance(v, events[i], config), events[i+1..], config);
    assert Replies(v, events[i..], config) == r + rest;
    assert replies + (r + rest) == (replies + r) + rest;
  }

  function EmptyWorld(): World {
    World(ServerState(EmptyGate(), EmptyAuth(), EmptyStore()), map[], [])
  }

  // ---- provenance ----

  /** The payload for the user's command inside a request. */
  function Inner(r: Request): Option<Blob> {
    match DeserializeAuthenticated(r.payload)
    case None => None
    case Some(p) => Some(p.payload)
  }

  /** `a` put the envelope into the inbox of `user`: the token in that very request, which came in
      one frame, was checked to stand for the sender, and the request named `user` as the recipient. */
  predicate Sent(a: Act, e: WireEnvelope, user: Text) {
    && Some(a.actor) == SenderOf(e) && RecipientOf(e) == Some(user)
    && a.request.command == CmdEnqueue && |a.request.payload| <= MaxFramePayload
    && FramedEnqueue(a.request.payload) == Some(EnqueueRequest(user, e))
  }

  /** `a` published this bundle body for the user it acted for. */
  predicate PublishedBy(a: Act, body: PrekeyBundle, user: Text, config: ServerConfig) {
    && a.actor == user && a.request.command == CmdPublish && Inner(a.request).Some?
    && var b := DeserializeBundle(Inner(a.request).value);
       b.Some? && b.value.user == user && BundleValid(b.value, config) && Split(b.value).body == body
  }

  ghost predicate InboxSent(acts: seq<Act>, items: seq<Item<WireEnvelope>>, user: Text) {
    forall i :: 0 <= i < |items| ==> SentIn(acts, items[i].envelope, user)
  }

  ghost predicate SentIn(acts: seq<Act>, e: WireEnvelope, user: Text) {
    exists a :: a in acts && Sent(a, e, user)
  }

  ghost predicate BundlePublished(acts: seq<Act>, s: Stored, user: Text, config: ServerConfig) {
    s.user == user && exists a :: a in acts && PublishedBy(a, s.body, user, config)
  }

  /** A connection whose token has been checked. */
  ghost predicate ChecksLogged(w: World) {
    forall c :: c in w.connections && w.connections[c].Checked? ==>
      && Act(w.connections[c].actor, w.connections[c].request) in w.acts
      && |w.connections[c].request.payload| <= MaxFramePayload
      && CommandOf(w.connections[c].request.command) == OtherCommand
      && DeserializeAuthenticated(w.connections[c].request.payload).Some?
      && |DeserializeAuthenticated(w.connections[c].request.payload).value.token| == TokenBytes
  }

  /** Frames in hand came in whole. */
  ghost predicate FramesInHand(w: World) {
    forall c :: c in w.connections && w.connections[c].Limited? ==> |w.connections[c].request.payload| <= MaxFramePayload
  }

  ghost predicate Traced(w: World, config: ServerConfig) {
    && ChecksLogged(w) && FramesInHand(w)
    && (forall u :: u in w.server.mail.inbox ==> InboxSent(w.acts, w.server.mail.inbox[u], u))
    && (forall u :: u in w.server.mail.bundles ==> BundlePublished(w.acts, w.server.mail.bundles[u], u, config))
  }

  /** An inbox stays, grows by an envelope sent to it, or loses its oldest entries to its owner. */
  ghost predicate InboxStep(q: seq<Item<WireEnvelope>>, q': seq<Item<WireEnvelope>>, a: Act, u: Text) {
    || q' == q
    || (q' != [] && q'[..|q'|-1] == q && Sent(a, q'[|q'|-1].envelope, u))
    || (a.actor == u && a.request.command == CmdDrain && |q'| <= |q| && q' == q[|q| - |q'|..])
  }

  /** What a step of a connection may do to the mail of `u`. */
  ghost predicate MailStep(m: MailStore, m': MailStore, a: Act, u: Text, config: ServerConfig) {
    && InboxStep(QueueOf(m, u).items, QueueOf(m', u).items, a, u)
    && (u in m'.bundles ==>
          || (u in m.bundles && m'.bundles[u].user == m.bundles[u].user && m'.bundles[u].body == m.bundles[u].body)
          || (m'.bundles[u].user == u && PublishedBy(a, m'.bundles[u].body, u, config)))
    && (u in m.bundles ==> u in m'.bundles)
  }

  lemma {:induction false} DroppedIsSuffix<E>(items: seq<Item<E>>, ack: Option<nat>)
    ensures var rest := DropAcked(items, ack); |rest| <= |items| && rest == items[|items| - |rest|..]
    decreases |items|
  {
    if ack.Some? && items != [] && items[0].id <= ack.value {
      DroppedIsSuffix(items[1..], ack);
    }
  }

  lemma PublishMail(m: MailStore, a: Act, user: Text, inner: Blob, u: Text, config: ServerConfig)
    requires a.actor == user && a.request.command == CmdPublish && Inner(a.request) == Some(inner)
    ensures MailStep(m, HandlePublish(m, user, inner, config).0, a, u, config)
  {
  }

  lemma AcquireMail(m: MailStore, a: Act, inner: Blob, u: Text, config: ServerConfig)
    ensures MailStep(m, HandleAcquire(m, inner).0, a, u, config)
  {
  }

  lemma EnqueueMail(m: MailStore, a: Act, user: Text, inner: Blob, u: Text, config: ServerConfig)
    requires a.actor == user && a.request.command == CmdEnqueue && |a.request.payload| <= MaxFramePayload
    requires FramedEnqueue(a.request.payload) == DeserializeEnqueue(inner)
    ensures MailStep(m, HandleEnqueue(m, user, inner).0, a, u, config)
  {
    var r := DeserializeEnqueue(inner);
    if r.Some? && SenderOf(r.value.envelope) == Some(user) && RecipientOf(r.value.envelope) == Some(r.value.user) {
      assert Sent(a, r.value.envelope, r.value.user);
      EnqueuedMail(m, a, r.value.user, r.value.envelope, u, config);
    } else {
      assert HandleEnqueue(m, user, inner).0 == m;
    }
  }

  lemma EnqueuedMail(m: MailStore, a: Act, to: Text, e: WireEnvelope, u: Text, config: ServerConfig)
    requires Sent(a, e, to)
    ensures MailStep(m, EnqueueFor(m, to, e), a, u, config)
  {
    var m' := EnqueueFor(m, to, e);
    if u == to {
      var q, q' := QueueOf(m, u).items, QueueOf(m', u).items;
      assert q' == q + [Item(QueueOf(m, u).last + 1, e)];
      assert q'[..|q'|-1] == q && q'[|q'|-1].envelope == e;
    }
  }

  lemma DrainMail(m: MailStore, a: Act, user: Text, inner: Blob, u: Text, config: ServerConfig)
    requires a.actor == user && a.request.command == CmdDrain
    ensures MailStep(m, HandleDrain(m, user, inner).0, a, u, config)
  {
    var r := DeserializeDrain(inner);
    if r.Some? {
      DroppedIsSuffix(QueueOf(m, u).items, r.value.ack);
    }
  }

  /** A step on a checked connection. */
  lemma CheckedMail(s: ServerState, r: Request, actor: Text, u: Text, config: ServerConfig)
    requires |r.payload| <= MaxFramePayload && DeserializeAuthenticated(r.payload).Some?
    requires |DeserializeAuthenticated(r.payload).value.token| == TokenBytes
    ensures MailStep(s.mail, StepChecked(s, r, actor, config).0.mail, Act(actor, r), u, config)
  {
    var inner := DeserializeAuthenticated(r.payload).value.payload;
    if r.command == CmdLogout || r.command !in {CmdPublish, CmdAcquire, CmdEnqueue, CmdDrain} {
      assert StepChecked(s, r, actor, config).0.mail == s.mail;
    } else if r.command == CmdPublish {
      PublishMail(s.mail, Act(actor, r), actor, inner, u, config);
    } else if r.command == CmdAcquire {
      AcquireMail(s.mail, Act(actor, r), inner, u, config);
    } else if r.command == CmdEnqueue {
      EnqueueMail(s.mail, Act(actor, r), actor, inner, u, config);
    } else {
      DrainMail(s.mail, Act(actor, r), actor, inner, u, config);
    }
  }

  /** Any other step leaves the mail alone. */
  lemma OtherMail(s: ServerState, p: Pending, r: Request, look: Look, config: ServerConfig)
    requires !p.Checked?
    ensures StepConnection(s, p, r, look, config).0.mail == s.mail
  {
  }

  /** What a check leaves behind. */
  lemma CheckedBy(s: ServerState, p: Pending, r: Request, look: Look, config: ServerConfig)
    requires var a := StepConnection(s, p, r, look, config).1; a.Waiting? && a.pending.Checked?
    ensures p.Limited? && StepConnection(s, p, r, look, config).1.pending.request == p.request
    ensures CommandOf(p.request.command) == OtherCommand && DeserializeAuthenticated(p.request.payload).Some?
    ensures var token := DeserializeAuthenticated(p.request.payload).value.token;
            |token| == TokenBytes && Authenticate(s.auth, token, look.now).1 == Some(StepConnection(s, p, r, look, config).1.pending.actor)
  {
  }

  lemma StepLogged(w: World, e: Event, config: ServerConfig)
    requires ChecksLogged(w) && FramesInHand(w) && |e.request.payload| <= MaxFramePayload
    ensures ChecksLogged(Advance(w, e, config)) && FramesInHand(Advance(w, e, config))
    ensures w.acts <= Advance(w, e, config).acts
  {
    var (s, p) := StepConnection(w.server, PendingOf(w, e.connection), e.request, e.look, config);
    if p.Waiting? && p.pending.Checked? {
      CheckedBy(w.server, PendingOf(w, e.connection), e.request, e.look, config);
      assert Advance(w, e, config).acts[|w.acts|] == Act(p.pending.actor, p.pending.request);
    }
  }

  lemma InboxStaysSent(acts: seq<Act>, q: seq<Item<WireEnvelope>>, q': seq<Item<WireEnvelope>>, a: Act, u: Text)
    requires InboxSent(acts, q, u) && InboxStep(q, q', a, u)
    ensures InboxSent(acts + [a], q', u)
  {
    forall i | 0 <= i < |q'| ensures SentIn(acts + [a], q'[i].envelope, u) {
      if |q'| == |q| + 1 && i == |q| {
        assert a in acts + [a] && Sent(a, q'[i].envelope, u);
      } else {
        var k := if |q'| <= |q| then |q| - |q'| + i else i;
        StillSent(acts, a, q, k, u);
        assert q'[i] == q[k] by {
          assert |q'| == |q| + 1 ==> q'[..|q'|-1][i] == q'[i];
        }
      }
    }
  }

  lemma StillSent(acts: seq<Act>, a: Act, q: seq<Item<WireEnvelope>>, k: nat, u: Text)
    requires InboxSent(acts, q, u) && k < |q|
    ensures SentIn(acts + [a], q[k].envelope, u)
  {
    assert SentIn(acts, q[k].envelope, u);
    var b :| b in acts && Sent(b, q[k].envelope, u);
    assert b in acts + [a];
  }

  lemma AllStillSent(acts: seq<Act>, acts': seq<Act>, q: seq<Item<WireEnvelope>>, u: Text)
    requires InboxSent(acts, q, u) && acts <= acts'
    ensures InboxSent(acts', q, u)
  {
    forall i | 0 <= i < |q| ensures SentIn(acts', q[i].envelope, u) {
      assert SentIn(acts, q[i].envelope, u);
      var a :| a in acts && Sent(a, q[i].envelope, u);
      assert a in acts';
    }
  }

  lemma InboxFrom(acts: seq<Act>, q: seq<Item<WireEnvelope>>, q': seq<Item<WireEnvelope>>, a: Act, u: Text)
    requires InboxSent(acts, q, u) && InboxStep(q, q', a, u) && a in acts
    ensures InboxSent(acts, q', u)
  {
    InboxStaysSent(acts, q, q', a, u);
    forall i | 0 <= i < |q'| ensures SentIn(acts, q'[i].envelope, u) {
      assert SentIn(acts + [a], q'[i].envelope, u);
      var b :| b in acts + [a] && Sent(b, q'[i].envelope, u);
      assert b in acts;
    }
  }

  /** The mail of one user after a step: unchanged, or changed by a check that has been logged. */
  lemma EventMail(w: World, e: Event, u: Text, config: ServerConfig) returns (a: Option<Act>)
    requires ChecksLogged(w)
    ensures a.None? ==> Advance(w, e, config).server.mail == w.server.mail
    ensures a.Some? ==> PendingOf(w, e.connection) == Checked(a.value.request, a.value.actor) && a.value in w.acts
                        && MailStep(w.server.mail, Advance(w, e, config).server.mail, a.value, u, config)
  {
    var p := PendingOf(w, e.connection);
    if p.Checked? {
      CheckedMail(w.server, p.request, p.actor, u, config);
      a := Some(Act(p.actor, p.request));
    } else {
      OtherMail(w.server, p, e.request, e.look, config);
      a := None;
    }
  }

  lemma InboxesTraced(w: World, e: Event, u: Text, config: ServerConfig)
    requires Traced(w, config) && |e.request.payload| <= MaxFramePayload && u in Advance(w, e, config).server.mail.inbox
    ensures InboxSent(Advance(w, e, config).acts, Advance(w, e, config).server.mail.inbox[u], u)
  {
    var q, q' := QueueOf(w.server.mail, u).items, QueueOf(Advance(w, e, config).server.mail, u).items;
    var a := EventMail(w, e, u, config);
    StepLogged(w, e, config);
    if a.Some? {
      InboxFrom(w.acts, q, q', a.value, u);
    }
    AllStillSent(w.acts, Advance(w, e, config).acts, q', u);
  }

  lemma BundlesTraced(w: World, e: Event, u: Text, config: ServerConfig)
    requires Traced(w, config) && |e.request.payload| <= MaxFramePayload && u in Advance(w, e, config).server.mail.bundles
    ensures BundlePublished(Advance(w, e, config).acts, Advance(w, e, config).server.mail.bundles[u], u, config)
  {
    var s' := Advance(w, e, config).server.mail.bundles[u];
    var a := EventMail(w, e, u, config);
    StepLogged(w, e, config);
    var b;
    if a.Some? && s'.user == u && PublishedBy(a.value, s'.body, u, config) {
      b := a.value;
    } else {
      assert BundlePublished(w.acts, w.server.mail.bundles[u], u, config);
      b :| b in w.acts && PublishedBy(b, s'.body, u, config);
    }
    assert b in Advance(w, e, config).acts;
  }

  lemma StepTraced(w: World, e: Event, config: ServerConfig)
    requires Traced(w, config) && |e.request.payload| <= MaxFramePayload
    ensures Traced(Advance(w, e, config), config)
  {
    var m' := Advance(w, e, config).server.mail;
    StepLogged(w, e, config);
    forall u | u in m'.inbox ensures InboxSent(Advance(w, e, config).acts, m'.inbox[u], u) {
      InboxesTraced(w, e, u, config);
    }
    forall u | u in m'.bundles ensures BundlePublished(Advance(w, e, config).acts, m'.bundles[u], u, config) {
      BundlesTraced(w, e, u, config);
    }
  }

  predicate Framed(events: seq<Event>) {
    forall i :: 0 <= i < |events| ==> |events[i].request.payload| <= MaxFramePayload
  }

  lemma {:induction false} RunTraced(w: World, events: seq<Event>, config: ServerConfig)
    requires Traced(w, config) && Framed(events)
    ensures Traced(Run(w, events, config), config)
    decreases |events|
  {
    if events != [] {
      StepTraced(w, events[0], config);
      RunTraced(Advance(w, events[0], config), events[1..], config);
    }
  }

  /** Provenance. Over every interleaving of the steps of all connections, each inbox entry was put
      there by a request whose own token was checked to stand for its sender and that named the
      inbox's user, and each bundle was published in a request checked for its own user. */
  lemma Provenance(events: seq<Event>, config: ServerConfig)
    requires Framed(events)
    ensures Traced(Run(EmptyWorld(), events, config), config)
  {
    RunTraced(EmptyWorld(), events, config);
  }

  /** Only a drain that was checked for the owner removes entries from an inbox. */
  lemma OnlyOwnerRemoves(before: seq<Event>, e: Event, u: Text, i: Item<WireEnvelope>, config: ServerConfig)
    requires Framed(before)
    requires var w := Run(EmptyWorld(), before, config);
             i in QueueOf(w.server.mail, u).items && i !in QueueOf(Advance(w, e, config).server.mail, u).items
    ensures var w := Run(EmptyWorld(), before, config);
            var p := PendingOf(w, e.connection);
            p.Checked? && p.actor == u && p.request.command == CmdDrain && Act(u, p.request) in w.acts
  {
    RunTraced(EmptyWorld(), before, config);
    var w := Run(EmptyWorld(), before, config);
    var a := EventMail(w, e, u, config);
    Removed(QueueOf(w.server.mail, u).items, QueueOf(Advance(w, e, config).server.mail, u).items, a.value, u, i);
  }

  lemma Removed(q: seq<Item<WireEnvelope>>, q': seq<Item<WireEnvelope>>, a: Act, u: Text, i: Item<WireEnvelope>)
    requires InboxStep(q, q', a, u) && i in q && i !in q'
    ensures a.actor == u && a.request.command == CmdDrain
  {
  }

  // ---- pages in every reachable state ----

  lemma QueuedArrived(w: World, user: Text, i: nat, config: ServerConfig)
    requires Traced(w, config) && i < |QueueOf(w.server.mail, user).items|
    ensures Arrived(QueueOf(w.server.mail, user).items[i].envelope)
  {
    var e := QueueOf(w.server.mail, user).items[i].envelope;
    assert InboxSent(w.acts, w.server.mail.inbox[user], user);
    assert SentIn(w.acts, e, user);
    var a :| a in w.acts && Sent(a, e, user);
    assert FramedEnqueue(a.request.payload).value.envelope == e;
  }

  /** No id is larger than the number of steps taken. */
  ghost predicate IdsBy(m: MailStore, n: nat) {
    forall u :: QueueOf(m, u).last <= n && forall i :: 0 <= i < |QueueOf(m, u).items| ==> QueueOf(m, u).items[i].id <= QueueOf(m, u).last
  }

  ghost predicate ReplyFits<E>(page: Option<seq<Item<E>>>, encode: Encoder<E>, decode: Decoder<E>) {
    && page.Some? && SerializeInbox(page.value, encode).Some?
    && |SerializeInbox(page.value, encode).value| <= MaxFramePayload
    && DeserializeInbox(SerializeInbox(page.value, encode).value, decode) == Some(page.value)
  }

  lemma PageReplies<E>(items: seq<Item<E>>, encode: Encoder<E>, decode: Decoder<E>)
    requires forall i :: 0 <= i < |items| ==> SmallEnough(items[i], encode, decode)
    ensures ReplyFits(Page(items, SizeOf(encode)), encode, decode)
    ensures items == [] ==> Page(items, SizeOf(encode)) == Some([])
  {
    PageFitsFrame(items, encode, decode);
  }

  lemma DrainFits<B, K, E>(m: Store<B, K, E>, user: Text, ack: Option<nat>, encode: Encoder<E>, decode: Decoder<E>)
    requires forall i :: 0 <= i < |QueueOf(m, user).items| ==> SmallEnough(QueueOf(m, user).items[i], encode, decode)
    ensures ReplyFits(DrainFor(m, user, ack, SizeOf(encode)).1, encode, decode)
  {
    var q := QueueOf(m, user).items;
    var items := DropAcked(q, ack);
    DroppedIsSuffix(q, ack);
    forall i | 0 <= i < |items| ensures SmallEnough(items[i], encode, decode) {
      assert items[i] == q[|q| - |items| + i];
    }
    PageReplies(items, encode, decode);
    assert user !in m.inbox ==> items == [];
  }

  lemma EnqueuedIds(m: MailStore, user: Text, e: WireEnvelope, n: nat)
    requires IdsBy(m, n)
    ensures IdsBy(EnqueueFor(m, user, e), n + 1)
  {
    var m' := EnqueueFor(m, user, e);
    forall u
      ensures QueueOf(m', u).last <= n + 1
      ensures forall i :: 0 <= i < |QueueOf(m', u).items| ==> QueueOf(m', u).items[i].id <= QueueOf(m', u).last
    {
      assert QueueOf(m', u) == if u == user then Mailbox.Enqueue(QueueOf(m, u), e) else QueueOf(m, u);
    }
  }

  lemma DrainedIds(m: MailStore, user: Text, ack: Option<nat>, n: nat)
    requires IdsBy(m, n)
    ensures IdsBy(DrainFor(m, user, ack, SizeOf(SerializeEnvelope)).0, n)
  {
    var m' := DrainFor(m, user, ack, SizeOf(SerializeEnvelope)).0;
    forall u
      ensures QueueOf(m', u).last <= n
      ensures forall i :: 0 <= i < |QueueOf(m', u).items| ==> QueueOf(m', u).items[i].id <= QueueOf(m', u).last
    {
      var q, q' := QueueOf(m, u), QueueOf(m', u);
      DroppedIsSuffix(q.items, ack);
      assert q'.last == q.last && (q'.items == q.items || q'.items == DropAcked(q.items, ack));
    }
  }

  lemma SameIds(m: MailStore, m': MailStore, n: nat)
    requires IdsBy(m, n) && m'.inbox == m.inbox && m'.last == m.last
    ensures IdsBy(m', n)
  {
    forall u
      ensures QueueOf(m', u).last <= n
      ensures forall i :: 0 <= i < |QueueOf(m', u).items| ==> QueueOf(m', u).items[i].id <= QueueOf(m', u).last
    {
      assert QueueOf(m', u) == QueueOf(m, u);
    }
  }

  lemma IdsLater(m: MailStore, n: nat)
    requires IdsBy(m, n)
    ensures IdsBy(m, n + 1)
  {
  }

  lemma CommandIds(m: MailStore, command: nat, user: Text, inner: Blob, n: nat, config: ServerConfig)
    requires IdsBy(m, n)
    ensures IdsBy(HandleForUser(m, command, user, inner, config).0, n + 1)
  {
    var m' := HandleForUser(m, command, user, inner, config).0;
    IdsLater(m, n);
    if command == CmdEnqueue && m' != m {
      EnqueuedIds(m, DeserializeEnqueue(inner).value.user, DeserializeEnqueue(inner).value.envelope, n);
    } else if command == CmdDrain && m' != m {
      DrainedIds(m, user, DeserializeDrain(inner).value.ack, n);
      IdsLater(m', n);
    } else {
      SameIds(m, m', n);
      IdsLater(m', n);
    }
  }

  lemma StepIds(w: World, e: Event, n: nat, config: ServerConfig)
    requires IdsBy(w.server.mail, n)
    ensures IdsBy(Advance(w, e, config).server.mail, n + 1)
  {
    var p := PendingOf(w, e.connection);
    IdsLater(w.server.mail, n);
    if p.Checked? && DeserializeAuthenticated(p.request.payload).Some? {
      CommandIds(w.server.mail, p.request.command, p.actor, DeserializeAuthenticated(p.request.payload).value.payload, n, config);
    } else if !p.Checked? {
      OtherMail(w.server, p, e.request, e.look, config);
    }
  }

  lemma {:induction false} RunIds(w: World, events: seq<Event>, n: nat, config: ServerConfig)
    requires IdsBy(w.server.mail, n)
    ensures IdsBy(Run(w, events, config).server.mail, n + |events|)
    decreases |events|
  {
    if events != [] {
      StepIds(w, events[0], n, config);
      RunIds(Advance(w, events[0], config), events[1..], n + 1, config);
    }
  }

  lemma QueueSmall(w: World, user: Text, n: nat, config: ServerConfig)
    requires Traced(w, config) && IdsBy(w.server.mail, n) && n < TWO64
    ensures var items := QueueOf(w.server.mail, user).items;
            forall i :: 0 <= i < |items| ==> SmallEnough(items[i], SerializeEnvelope, DeserializeEnvelope)
  {
    var items := QueueOf(w.server.mail, user).items;
    forall i | 0 <= i < |items| ensures SmallEnough(items[i], SerializeEnvelope, DeserializeEnvelope) {
      QueuedArrived(w, user, i, config);
      ArrivedIsSmall(items[i]);
    }
  }

  /** Whatever has been sent to a user in however many interleaved steps, the user's next drain yields
      a page whose encoding fits a frame and decodes to it. */
  lemma DrainReplyFits(events: seq<Event>, user: Text, ack: Option<nat>, config: ServerConfig)
    requires Framed(events) && |events| < TWO64
    ensures ReplyFits(DrainFor(Run(EmptyWorld(), events, config).server.mail, user, ack, SizeOf(SerializeEnvelope)).1,
                      SerializeEnvelope, DeserializeEnvelope)
  {
    RunTraced(EmptyWorld(), events, config);
    RunIds(EmptyWorld(), events, 0, config);
    var w := Run(EmptyWorld(), events, config);
    QueueSmall(w, user, |events|, config);
    DrainFits(w.server.mail, user, ack, SerializeEnvelope, DeserializeEnvelope);
  }

  /** The step of a checked drain replies with that page. */
  lemma DrainStepReplies(s: ServerState, r: Request, actor: Text, look: Look, config: ServerConfig)
    requires r.command == CmdDrain && DeserializeAuthenticated(r.payload).Some?
    requires var d := DeserializeDrain(DeserializeAuthenticated(r.payload).value.payload); d.Some? && d.value.user == actor
    ensures var ack := DeserializeDrain(DeserializeAuthenticated(r.payload).value.payload).value.ack;
            var page := DrainFor(s.mail, actor, ack, SizeOf(SerializeEnvelope)).1;
            StepConnection(s, Checked(r, actor), r, look, config).1
            == Replied(if page.None? then None else SerializeInbox(page.value, SerializeEnvelope))
  {
  }

  // ---- every sender has signed ----

  /** The call into the account half of the server that a step makes, if it makes one. */
  function AuthCall(w: World, e: Event): seq<AuthRuns.Event> {
    var p := PendingOf(w, e.connection);
    match p
    case Idle => []
    case Limited(r) =>
      if CommandOf(r.command) != OtherCommand then [] else
      (match DeserializeAuthenticated(r.payload) case None => [] case Some(a) => [AuthRuns.TokenEvent(a.token, e.look.now)])
    case Permitted(r) =>
      (match CommandOf(r.command)
       case Register => (match DeserializeRegister(r.payload) case None => [] case Some(m) => [AuthRuns.RegisterEvent(m)])
       case AuthBegin => (match DeserializeBegin(r.payload) case None => [] case Some(m) => [AuthRuns.BeginEvent(m, e.look.now, e.look.random)])
       case AuthFinish => (match DeserializeFinish(r.payload) case None => [] case Some(m) => [AuthRuns.FinishEvent(m, e.look.now, e.look.newToken)])
       case OtherCommand => [])
    case Checked(r, _) =>
      if r.command != CmdLogout then [] else
      (match DeserializeAuthenticated(r.payload) case None => [] case Some(a) => [AuthRuns.RevokeEvent(a.token)])
  }

  lemma AuthFollows(w: World, v: AuthRuns.World, e: Event, config: ServerConfig)
    requires v.auth == w.server.auth
    ensures Advance(w, e, config).server.auth == AuthRuns.Run(v, AuthCall(w, e), config.checks).auth
  {
    var calls := AuthCall(w, e);
    if calls != [] {
      assert calls[1..] == [];
    }
  }

  /** A login of the actor was signed: the token of the checked request was issued on a signature over
      a challenge, under a key that was registered for the actor when the token was checked. */
  ghost predicate Signed(a: Act, issues: seq<AuthRuns.Issue>, checks: Checks) {
    var p := DeserializeAuthenticated(a.request.payload);
    p.Some? && exists i, key :: i in issues && AuthRuns.IssuedFor(i, p.value.token, a.actor, key, checks)
  }

  lemma StillSigned(a: Act, issues: seq<AuthRuns.Issue>, issues': seq<AuthRuns.Issue>, checks: Checks)
    requires Signed(a, issues, checks) && issues <= issues'
    ensures Signed(a, issues', checks)
  {
    var p := DeserializeAuthenticated(a.request.payload);
    var i, key :| i in issues && AuthRuns.IssuedFor(i, p.value.token, a.actor, key, checks);
    assert i in issues';
  }

  lemma CallKeeps(v: AuthRuns.World, calls: seq<AuthRuns.Event>, checks: Checks)
    requires AuthRuns.Bound(v, checks) && |calls| <= 1
    ensures AuthRuns.Bound(AuthRuns.Run(v, calls, checks), checks) && v.issues <= AuthRuns.Run(v, calls, checks).issues
  {
    if calls != [] {
      assert calls[1..] == [];
      AuthRuns.StepBinds(v, calls[0], checks);
    }
  }

  lemma StepSigned(w: World, v: AuthRuns.World, e: Event, config: ServerConfig)
    requires v.auth == w.server.auth && AuthRuns.Bound(v, config.checks)
    requires AllSigned(w.acts, v.issues, config.checks)
    ensures AllSigned(Advance(w, e, config).acts, AuthRuns.Run(v, AuthCall(w, e), config.checks).issues, config.checks)
  {
    var v' := AuthRuns.Run(v, AuthCall(w, e), config.checks);
    CallKeeps(v, AuthCall(w, e), config.checks);
    forall a | a in Advance(w, e, config).acts ensures Signed(a, v'.issues, config.checks) {
      if a !in w.acts {
        NewSigned(w, v, e, a, config);
      }
      StillSigned(a, v.issues, v'.issues, config.checks);
    }
  }

  lemma NewSigned(w: World, v: AuthRuns.World, e: Event, a: Act, config: ServerConfig)
    requires v.auth == w.server.auth && AuthRuns.Bound(v, config.checks)
    requires a in Advance(w, e, config).acts && a !in w.acts
    ensures Signed(a, v.issues, config.checks)
  {
    var p := PendingOf(w, e.connection);
    CheckedBy(w.server, p, e.request, e.look, config);
    var token := DeserializeAuthenticated(p.request.payload).value.token;
    assert token in v.auth.sessions && v.auth.sessions[token].user == a.actor;
    assert AuthRuns.Vouched(v, token, config.checks);
  }

  /** The account half of the server along a run, with the sessions it issues. */
  function AuthAlong(w: World, v: AuthRuns.World, events: seq<Event>, config: ServerConfig): AuthRuns.World
    decreases |events|
  {
    if events == [] then v
    else AuthAlong(Advance(w, events[0], config), AuthRuns.Run(v, AuthCall(w, events[0]), config.checks), events[1..], config)
  }

  ghost predicate AllSigned(acts: seq<Act>, issues: seq<AuthRuns.Issue>, checks: Checks) {
    forall a :: a in acts ==> Signed(a, issues, checks)
  }

  lemma {:induction false} RunSigned(w: World, v: AuthRuns.World, events: seq<Event>, config: ServerConfig)
    requires v.auth == w.server.auth && AuthRuns.Bound(v, config.checks) && AllSigned(w.acts, v.issues, config.checks)
    ensures AuthAlong(w, v, events, config).auth == Run(w, events, config).server.auth
    ensures AllSigned(Run(w, events, config).acts, AuthAlong(w, v, events, config).issues, config.checks)
    decreases |events|
  {
    if events != [] {
      AuthFollows(w, v, events[0], config);
      CallKeeps(v, AuthCall(w, events[0]), config.checks);
      StepSigned(w, v, events[0], config);
      RunSigned(Advance(w, events[0], config), AuthRuns.Run(v, AuthCall(w, events[0]), config.checks), events[1..], config);
    }
  }

  /** End to end. Over every interleaving, each inbox entry goes back to a login of its sender: the
      request that brought it carried a token that was issued on the sender's signature. */
  lemma SendersSigned(events: seq<Event>, user: Text, k: nat, config: ServerConfig)
    requires Framed(events)
    requires k < |QueueOf(Run(EmptyWorld(), events, config).server.mail, user).items|
    ensures var w := Run(EmptyWorld(), events, config);
            var e := QueueOf(w.server.mail, user).items[k].envelope;
            exists a :: a in w.acts && Sent(a, e, user)
                        && Signed(a, AuthAlong(EmptyWorld(), AuthRuns.EmptyWorld(), events, config).issues, config.checks)
  {
    RunTraced(EmptyWorld(), events, config);
    RunSigned(EmptyWorld(), AuthRuns.EmptyWorld(), events, config);
    var w := Run(EmptyWorld(), events, config);
    var e := QueueOf(w.server.mail, user).items[k].envelope;
    assert InboxSent(w.acts, w.server.mail.inbox[user], user);
    assert SentIn(w.acts, e, user);
    var a :| a in w.acts && Sent(a, e, user);
    assert Signed(a, AuthAlong(EmptyWorld(), AuthRuns.EmptyWorld(), events, config).issues, config.checks);
  }
}
