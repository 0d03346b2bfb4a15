/** What each command of a checked user does to the mail and what it replies, and what the bundles
    are that the server stores and hands out. */
module Commands {
  import opened Wrappers
  import opened Bytes
  import opened Messages
  import opened Fields
  import opened WireCodec
  import opened WirePages
  import opened InboxPages
  import opened Mailbox
  import opened SignInputs
  import opened AuthWire
  import opened AuthSpec
  import opened Dispatch
  import opened Connections
  import AuthKeys
  import AuthRuns
  import PreAuthGate

  // ---- one command ----

  /** The six signatures of a bundle, in its version and suite: the identity's two keys have each signed
      both prekeys and the whole. One-time keys are not signed. */
  predicate SixSignatures(b: PrekeyBundle, config: ServerConfig) {
    && b.version == Ascii("pqchat-v1") && b.cipherSuite == Ascii("X25519+ML-KEM-768+ChaCha20-Poly1305+HKDF-SHA256")
    && config.ed25519(b.identitySign, Encode(EcPrekey(b.signedEc.id, b.signedEc.publicKey)), b.signedEc.signatureEd25519)
    && config.mldsa65(b.identityMldsa, Encode(EcPrekey(b.signedEc.id, b.signedEc.publicKey)), b.signedEc.signatureMldsa65)
    && config.ed25519(b.identitySign, Encode(PqPrekey(b.signedPq.id, b.signedPq.publicKey)), b.signedPq.signatureEd25519)
    && config.mldsa65(b.identityMldsa, Encode(PqPrekey(b.signedPq.id, b.signedPq.publicKey)), b.signedPq.signatureMldsa65)
    && var whole := Encode(BundleSignature(b.user, b.identitySign, b.identityMldsa, b.identityDh, b.signedEc, b.signedPq,
                                           b.version, b.cipherSuite));
       && config.ed25519(b.identitySign, whole, b.signatureEd25519)
       && config.mldsa65(b.identityMldsa, whole, b.signatureMldsa65)
  }

  /** A bundle with the first `k` of its one-time keys of each kind handed out. */
  function After(b: PrekeyBundle, k: nat): Stored
    requires k <= |b.oneTimeEc| && k <= |b.oneTimePq|
  {
    Bundle(b.user, b.(oneTimeEc := [], oneTimePq := []), b.oneTimeEc[k..], b.oneTimePq[k..])
  }

  predicate SameInboxes(m: MailStore, m': MailStore) {
    m'.inbox == m.inbox && m'.last == m.last
  }

  predicate OthersSame(m: MailStore, m': MailStore, user: Text) {
    m'.bundles - {user} == m.bundles - {user}
  }

  /** A bundle is stored, with all its one-time keys, exactly if it reads, names the user who publishes
      it, and carries the six signatures. */
  lemma PublishIff(m: MailStore, user: Text, inner: Blob, config: ServerConfig)
    ensures var (m', reply) := HandleForUser(m, CmdPublish, user, inner, config);
            var b := DeserializeBundle(inner);
            if b.Some? && b.value.user == user && SixSignatures(b.value, config)
            then reply == Some([]) && user in m'.bundles && m'.bundles[user] == After(b.value, 0)
                 && OthersSame(m, m', user) && SameInboxes(m, m')
            else reply == None && m' == m
  {
  }

  /** An envelope is put into an inbox exactly if the request reads, the user is its sender and the
      request's user its recipient; then that inbox grows by it at the end, under the next id, and
      nothing else changes. */
  lemma EnqueueIff(m: MailStore, user: Text, inner: Blob, config: ServerConfig)
    ensures var (m', reply) := HandleForUser(m, CmdEnqueue, user, inner, config);
            var r := DeserializeEnqueue(inner);
            if r.Some? && SentBy(r.value.envelope, user, r.value.user)
            then var to := r.value.user;
                 && reply == Some([]) && m'.bundles == m.bundles
                 && QueueOf(m', to).items == QueueOf(m, to).items + [Item(QueueOf(m, to).last + 1, r.value.envelope)]
                 && QueueOf(m', to).last == QueueOf(m, to).last + 1
                 && (forall u :: u != to ==> QueueOf(m', u) == QueueOf(m, u))
            else reply == None && m' == m
  {
  }

  /** The message that the envelope carries is from one user to another. */
  predicate SentBy(e: WireEnvelope, sender: Text, recipient: Text) {
    if e.kind.KindInitial? then e.initial.Some? && e.initial.value.fromUser == sender && e.initial.value.toUser == recipient
    else e.chat.Some? && e.chat.value.fromUser == sender && e.chat.value.toUser == recipient
  }

  /** Ids in an inbox go up. */
  predicate Ascending<E>(items: seq<Item<E>>) {
    forall i, j :: 0 <= i < j < |items| ==> items[i].id < items[j].id
  }

  lemma {:induction false} DropAckedIff<E>(items: seq<Item<E>>, ack: Option<nat>)
    requires Ascending(items)
    ensures forall x :: x in DropAcked(items, ack) <==> x in items && (ack.Some? ==> x.id > ack.value)
    decreases |items|
  {
    if ack.Some? && items != [] && items[0].id <= ack.value {
      DropAckedIff(items[1..], ack);
      assert items == [items[0]] + items[1..];
    } else {
      forall x | x in items ensures ack.Some? ==> x.id > ack.value {
        var i :| 0 <= i < |items| && items[i] == x;
      }
    }
  }

  /** What a drain leaves and yields. */
  lemma DrainForIs<B, K, E>(m: Store<B, K, E>, user: Text, ack: Option<nat>, size: Sizer<E>)
    ensures var (m', page) := DrainFor(m, user, ack, size);
            && m'.bundles == m.bundles && m'.last == m.last
            && (forall u :: u != user ==> QueueOf(m', u) == QueueOf(m, u))
            && QueueOf(m', user) == Queue(DropAcked(QueueOf(m, user).items, ack), QueueOf(m, user).last)
            && page == Page(QueueOf(m', user).items, size)
  {
  }

  /** The items after an acknowledged id, and no others, stay where they are. */
  ghost predicate Acknowledged<E(!new)>(q: seq<Item<E>>, q': seq<Item<E>>, ack: Option<nat>) {
    && (forall x :: x in q' <==> x in q && (ack.Some? ==> x.id > ack.value))
    && |q'| <= |q| && q' == q[|q| - |q'|..]
  }

  lemma DropAckedAcknowledges<E(!new)>(q: seq<Item<E>>, ack: Option<nat>)
    requires Ascending(q)
    ensures Acknowledged(q, DropAcked(q, ack), ack)
  {
    DropAckedIff(q, ack);
    DroppedIsSuffix(q, ack);
  }

  /** The encoding of a page, if there is a page. */
  function PageReply(items: seq<Item<WireEnvelope>>): Option<Blob> {
    match Page(items, SizeOf(SerializeEnvelope))
    case None => None
    case Some(p) => SerializeInbox(p, SerializeEnvelope)
  }

  lemma DrainReply(m: MailStore, user: Text, inner: Blob, config: ServerConfig)
    ensures var (m', reply) := HandleForUser(m, CmdDrain, user, inner, config);
            var r := DeserializeDrain(inner);
            if r.Some? && r.value.user == user
            then m' == DrainFor(m, user, r.value.ack, SizeOf(SerializeEnvelope)).0 && reply == PageReply(QueueOf(m', user).items)
            else reply == None && m' == m
  {
    var r := DeserializeDrain(inner);
    if r.Some? && r.value.user == user {
      DrainForIs(m, user, r.value.ack, SizeOf(SerializeEnvelope));
    }
  }

  /** A drain is refused unless it names the user; otherwise exactly the acknowledged items leave that
      user's inbox, nothing else changes, and the reply is the page of the rest. */
  lemma DrainIff(m: MailStore, user: Text, inner: Blob, config: ServerConfig)
    requires Ascending(QueueOf(m, user).items)
    ensures var (m', reply) := HandleForUser(m, CmdDrain, user, inner, config);
            var r := DeserializeDrain(inner);
            if r.Some? && r.value.user == user
            then && Acknowledged(QueueOf(m, user).items, QueueOf(m', user).items, r.value.ack)
                 && m'.bundles == m.bundles && m'.last == m.last && (forall u :: u != user ==> QueueOf(m', u) == QueueOf(m, u))
                 && reply == PageReply(QueueOf(m', user).items)
            else reply == None && m' == m
  {
    var r := DeserializeDrain(inner);
    DrainReply(m, user, inner, config);
    if r.Some? && r.value.user == user {
      DrainForIs(m, user, r.value.ack, SizeOf(SerializeEnvelope));
      DropAckedAcknowledges(QueueOf(m, user).items, r.value.ack);
    }
  }

  /** An acquire hands out the first key of each kind that is left, or none when a kind has run out. */
  lemma AcquireIff(m: MailStore, user: Text, inner: Blob, config: ServerConfig)
    ensures var (m', reply) := HandleForUser(m, CmdAcquire, user, inner, config);
            var peer := DeserializeString(inner);
            if peer.Some? && peer.value in m.bundles
            then var s := m.bundles[peer.value];
                 var paired := s.ec != [] && s.pq != [];
                 && reply == Some(SerializeBundle(HandedOut(s))) && peer.value in m'.bundles
                 && m'.bundles[peer.value] == (if paired then s.(ec := s.ec[1..], pq := s.pq[1..]) else s)
                 && OthersSame(m, m', peer.value) && SameInboxes(m, m')
            else reply == None && m' == m
  {
    var peer := DeserializeString(inner);
    if peer.Some? && peer.value in m.bundles {
      var s := m.bundles[peer.value];
      if s.ec != [] && s.pq != [] {
        assert s.ec[..1] == [s.ec[0]] && s.pq[..1] == [s.pq[0]];
      }
    }
  }

  /** The bundle that is handed out of a stored one. */
  function HandedOut(s: Stored): PrekeyBundle {
    if s.ec == [] || s.pq == [] then s.body.(user := s.user, oneTimeEc := [], oneTimePq := [])
    else s.body.(user := s.user, oneTimeEc := [s.ec[0]], oneTimePq := [s.pq[0]])
  }

  lemma OtherCommands(m: MailStore, command: nat, user: Text, inner: Blob, config: ServerConfig)
    requires command !in {CmdPublish, CmdAcquire, CmdEnqueue, CmdDrain}
    ensures HandleForUser(m, command, user, inner, config) == (m, None)
  {
  }

  // ---- inboxes stay in order ----

  ghost predicate QueueOrdered<E>(q: Queue<E>) {
    Ascending(q.items) && forall i :: 0 <= i < |q.items| ==> q.items[i].id <= q.last
  }

  ghost predicate Ordered(m: MailStore) {
    forall u :: QueueOrdered(QueueOf(m, u))
  }

  lemma SuffixOrdered<E>(q: Queue<E>, q': Queue<E>)
    requires QueueOrdered(q) && q'.last == q.last && |q'.items| <= |q.items| && q'.items == q.items[|q.items| - |q'.items|..]
    ensures QueueOrdered(q')
  {
    var d := |q.items| - |q'.items|;
    assert forall i :: 0 <= i < |q'.items| ==> q'.items[i] == q.items[d + i];
  }

  lemma EnqueuedOrdered<E>(q: Queue<E>, e: E)
    requires QueueOrdered(q)
    ensures QueueOrdered(Queue(q.items + [Item(q.last + 1, e)], q.last + 1))
  {
  }

  lemma EnqueueForOrdered<B, K, E>(m: Store<B, K, E>, to: Text, e: E, u: Text)
    requires QueueOrdered(QueueOf(m, u))
    ensures QueueOrdered(QueueOf(EnqueueFor(m, to, e), u))
  {
    if u == to {
      EnqueuedOrdered(QueueOf(m, u), e);
    } else {
      assert QueueOf(EnqueueFor(m, to, e), u) == QueueOf(m, u);
    }
  }

  lemma EnqueueKeepsOrder(m: MailStore, user: Text, inner: Blob, u: Text, config: ServerConfig)
    requires QueueOrdered(QueueOf(m, u))
    ensures QueueOrdered(QueueOf(HandleForUser(m, CmdEnqueue, user, inner, config).0, u))
  {
    var r := DeserializeEnqueue(inner);
    if r.Some? {
      EnqueueForOrdered(m, r.value.user, r.value.envelope, u);
    }
  }

  lemma DrainKeepsOrder(m: MailStore, user: Text, inner: Blob, u: Text, config: ServerConfig)
    requires QueueOrdered(QueueOf(m, u)) && QueueOrdered(QueueOf(m, user))
    ensures QueueOrdered(QueueOf(HandleForUser(m, CmdDrain, user, inner, config).0, u))
  {
    var m' := HandleForUser(m, CmdDrain, user, inner, config).0;
    DrainIff(m, user, inner, config);
    if m' != m && u == user {
      SuffixOrdered(QueueOf(m, u), QueueOf(m', u));
    }
  }

  lemma CommandKeepsOrder(m: MailStore, command: nat, user: Text, inner: Blob, config: ServerConfig)
    requires Ordered(m)
    ensures Ordered(HandleForUser(m, command, user, inner, config).0)
  {
    var m' := HandleForUser(m, command, user, inner, config).0;
    forall u ensures QueueOrdered(QueueOf(m', u)) {
      assert QueueOrdered(QueueOf(m, u)) && QueueOrdered(QueueOf(m, user));
      if command == CmdPublish {
        PublishIff(m, user, inner, config);
      } else if command == CmdAcquire {
        AcquireIff(m, user, inner, config);
      } else if command == CmdEnqueue {
        EnqueueKeepsOrder(m, user, inner, u, config);
      } else if command == CmdDrain {
        DrainKeepsOrder(m, user, inner, u, config);
      } else {
        OtherCommands(m, command, user, inner, config);
      }
    }
  }

  // ---- over every interleaving ----

  /** A step of a connection is a command behind a check, a logout, or nothing to the mail. */
  lemma StepMail(w: World, e: Event, config: ServerConfig) returns (a: Option<Act>)
    requires Traced(w, config)
    ensures a.None? ==> Advance(w, e, config).server.mail == w.server.mail
    ensures a.Some? ==> a.value in w.acts && Inner(a.value.request).Some?
    ensures a.Some? ==> Advance(w, e, config).server.mail
                        == HandleForUser(w.server.mail, a.value.request.command, a.value.actor, Inner(a.value.request).value, config).0
  {
    var p := PendingOf(w, e.connection);
    if p.Checked? && p.request.command != CmdLogout {
      a := Some(Act(p.actor, p.request));
    } else {
      a := None;
      if !p.Checked? {
        OtherMail(w.server, p, e.request, e.look, config);
      }
    }
  }

  /** The stored bundle is what is left, after `k` acquires, of one that its user published. */
  ghost predicate LeftOf(s: Stored, b: PrekeyBundle, k: nat) {
    k <= |b.oneTimeEc| && k <= |b.oneTimePq| && s == After(b, k)
  }

  ghost predicate Publishes(a: Act, b: PrekeyBundle, user: Text, config: ServerConfig) {
    && a.actor == user && a.request.command == CmdPublish && Inner(a.request).Some?
    && DeserializeBundle(Inner(a.request).value) == Some(b) && b.user == user && SixSignatures(b, config)
  }

  ghost predicate Genuine(acts: seq<Act>, s: Stored, user: Text, config: ServerConfig) {
    exists a, b, k :: a in acts && Publishes(a, b, user, config) && LeftOf(s, b, k)
  }

  ghost predicate AllGenuine(acts: seq<Act>, m: MailStore, config: ServerConfig) {
    forall u :: u in m.bundles ==> Genuine(acts, m.bundles[u], u, config)
  }

  lemma StillGenuine(acts: seq<Act>, acts': seq<Act>, s: Stored, user: Text, config: ServerConfig)
    requires Genuine(acts, s, user, config) && acts <= acts'
    ensures Genuine(acts', s, user, config)
  {
    var a, b, k :| a in acts && Publishes(a, b, user, config) && LeftOf(s, b, k);
    assert a in acts';
  }

  lemma NextLeft(s: Stored, b: PrekeyBundle, k: nat)
    requires LeftOf(s, b, k) && s.ec != [] && s.pq != []
    ensures LeftOf(s.(ec := s.ec[1..], pq := s.pq[1..]), b, k + 1)
  {
    assert b.oneTimeEc[k..][1..] == b.oneTimeEc[k+1..] && b.oneTimePq[k..][1..] == b.oneTimePq[k+1..];
  }

  lemma AcquiredGenuine(acts: seq<Act>, s: Stored, user: Text, config: ServerConfig)
    requires Genuine(acts, s, user, config) && s.ec != [] && s.pq != []
    ensures Genuine(acts, s.(ec := s.ec[1..], pq := s.pq[1..]), user, config)
  {
    var a, b, k :| a in acts && Publishes(a, b, user, config) && LeftOf(s, b, k);
    NextLeft(s, b, k);
  }

  lemma PublishKeepsGenuine(acts: seq<Act>, m: MailStore, a: Act, inner: Blob, u: Text, config: ServerConfig)
    requires AllGenuine(acts, m, config) && a in acts && Inner(a.request) == Some(inner) && a.request.command == CmdPublish
    requires u in HandleForUser(m, CmdPublish, a.actor, inner, config).0.bundles
    ensures Genuine(acts, HandleForUser(m, CmdPublish, a.actor, inner, config).0.bundles[u], u, config)
  {
    var m' := HandleForUser(m, CmdPublish, a.actor, inner, config).0;
    PublishIff(m, a.actor, inner, config);
    if m' != m && u == a.actor {
      var b := DeserializeBundle(inner).value;
      assert Publishes(a, b, u, config) && LeftOf(m'.bundles[u], b, 0);
    } else if m' != m {
      OtherBundle(m, m', a.actor, u);
    }
  }

  lemma OtherBundle(m: MailStore, m': MailStore, user: Text, u: Text)
    requires OthersSame(m, m', user) && u != user && u in m'.bundles
    ensures u in m.bundles && m'.bundles[u] == m.bundles[u]
  {
    assert u in m'.bundles - {user};
  }

  lemma AcquireKeepsGenuine(acts: seq<Act>, m: MailStore, user: Text, inner: Blob, u: Text, config: ServerConfig)
    requires AllGenuine(acts, m, config) && u in HandleForUser(m, CmdAcquire, user, inner, config).0.bundles
    ensures Genuine(acts, HandleForUser(m, CmdAcquire, user, inner, config).0.bundles[u], u, config)
  {
    var m' := HandleForUser(m, CmdAcquire, user, inner, config).0;
    var peer := DeserializeString(inner);
    AcquireIff(m, user, inner, config);
    if peer.Some? && peer.value in m.bundles && u != peer.value {
      OtherBundle(m, m', peer.value, u);
    } else if peer.Some? && u == peer.value && u in m.bundles && m.bundles[u].ec != [] && m.bundles[u].pq != [] {
      AcquiredGenuine(acts, m.bundles[u], u, config);
    }
  }

  lemma CommandKeepsGenuine(acts: seq<Act>, m: MailStore, a: Act, inner: Blob, u: Text, config: ServerConfig)
    requires AllGenuine(acts, m, config) && a in acts && Inner(a.request) == Some(inner)
    requires u in HandleForUser(m, a.request.command, a.actor, inner, config).0.bundles
    ensures Genuine(acts, HandleForUser(m, a.request.command, a.actor, inner, config).0.bundles[u], u, config)
  {
    var command, user := a.request.command, a.actor;
    if command == CmdPublish {
      PublishKeepsGenuine(acts, m, a, inner, u, config);
    } else if command == CmdAcquire {
      AcquireKeepsGenuine(acts, m, user, inner, u, config);
    } else if command == CmdEnqueue {
      EnqueueIff(m, user, inner, config);
    } else if command == CmdDrain {
      DrainReply(m, user, inner, config);
    } else {
      OtherCommands(m, command, user, inner, config);
    }
  }

  lemma StepKeepsMail(w: World, e: Event, config: ServerConfig)
    requires Traced(w, config) && |e.request.payload| <= MaxFramePayload
    requires Ordered(w.server.mail) && AllGenuine(w.acts, w.server.mail, config)
    ensures var w' := Advance(w, e, config); Ordered(w'.server.mail) && AllGenuine(w'.acts, w'.server.mail, config)
  {
    var w' := Advance(w, e, config);
    var m' := w'.server.mail;
    var a := StepMail(w, e, config);
    StepLogged(w, e, config);
    if a.Some? {
      CommandKeepsOrder(w.server.mail, a.value.request.command, a.value.actor, Inner(a.value.request).value, config);
    }
    forall u | u in m'.bundles ensures Genuine(w'.acts, m'.bundles[u], u, config) {
      if a.Some? {
        CommandKeepsGenuine(w.acts, w.server.mail, a.value, Inner(a.value.request).value, u, config);
      }
      StillGenuine(w.acts, w'.acts, m'.bundles[u], u, config);
    }
  }

  lemma {:induction false} RunKeepsMail(w: World, events: seq<Event>, config: ServerConfig)
    requires Traced(w, config) && Framed(events) && Ordered(w.server.mail) && AllGenuine(w.acts, w.server.mail, config)
    ensures var t := Connections.Run(w, events, config); Ordered(t.server.mail) && AllGenuine(t.acts, t.server.mail, config)
    decreases |events|
  {
    if events != [] {
      StepKeepsMail(w, events[0], config);
      StepTraced(w, events[0], config);
      RunKeepsMail(Advance(w, events[0], config), events[1..], config);
    }
  }

  /** Over every interleaving of all connections: each stored bundle is what is left, after some number
      of acquires, of one that its user published in a checked request; it carries the six signatures
      under the keys it shows. And ids in every inbox go up. */
  lemma StoredBundles(events: seq<Event>, config: ServerConfig)
    requires Framed(events)
    ensures var t := Connections.Run(EmptyWorld(), events, config);
            && (forall u :: u in t.server.mail.bundles ==>
                  var s := t.server.mail.bundles[u];
                  s.user == u && s.body.user == u && SixSignatures(s.body, config) && Genuine(t.acts, s, u, config))
            && (forall u :: Ascending(QueueOf(t.server.mail, u).items))
  {
    RunKeepsMail(EmptyWorld(), events, config);
    var t := Connections.Run(EmptyWorld(), events, config);
    forall u | u in t.server.mail.bundles
      ensures var s := t.server.mail.bundles[u]; s.user == u && s.body.user == u && SixSignatures(s.body, config)
    {
      var s := t.server.mail.bundles[u];
      assert Genuine(t.acts, s, u, config);
      var a, b, k :| a in t.acts && Publishes(a, b, u, config) && LeftOf(s, b, k);
    }
    forall u ensures Ascending(QueueOf(t.server.mail, u).items) {
      assert QueueOrdered(QueueOf(t.server.mail, u));
    }
  }

  // ---- what an acquire replies ----

  lemma OutAllCons(x: Field, tail: seq<Field>)
    ensures |OutAll([x] + tail)| == |Out(x)| + |OutAll(tail)|
  {
    assert ([x] + tail)[1..] == tail;
  }

  /** Replacing one field changes the length by the difference of the two. */
  lemma {:induction false} OutAllUpdate(f: seq<Field>, i: nat, x: Field)
    requires i < |f|
    ensures |OutAll(f[i := x])| + |Out(f[i])| == |OutAll(f)| + |Out(x)|
    decreases i
  {
    var tail := f[1..];
    assert f == [f[0]] + tail;
    OutAllCons(f[0], tail);
    if i == 0 {
      OutAllCons(x, tail);
      assert f[0 := x] == [x] + tail;
    } else {
      OutAllUpdate(tail, i - 1, x);
      OutAllCons(f[0], tail[i-1 := x]);
      assert f[i := x] == [f[0]] + tail[i-1 := x];
    }
  }

  lemma {:induction false} KeysOutSkip(keys: seq<OneTimePrekey>, k: nat)
    requires k <= |keys|
    ensures |KeysOut(keys[k..])| <= |KeysOut(keys)|
    ensures k < |keys| ==> |KeysOut([keys[k]])| <= |KeysOut(keys)|
    decreases k
  {
    if k > 0 {
      assert keys[1..][k-1..] == keys[k..];
      KeysOutSkip(keys[1..], k - 1);
    } else {
      assert keys[0..] == keys;
      if keys != [] {
        assert [keys[0]][1..] == [];
      }
    }
  }

  /** A key list that is no longer than another, and its keys are among the other's. */
  predicate Shorter(keys: seq<OneTimePrekey>, keys': seq<OneTimePrekey>) {
    && |keys'| <= |keys| && |KeysOut(keys')| <= |KeysOut(keys)|
    && (forall i :: 0 <= i < |keys'| ==> keys'[i] in keys)
  }

  lemma ShorterSize(f: seq<Field>, i: nat, keys: seq<OneTimePrekey>)
    requires i < |f| && f[i].KeysField? && Shorter(f[i].keys, keys)
    ensures |OutAll(f[i := KeysField(keys)])| <= |OutAll(f)|
  {
    OutAllUpdate(f, i, KeysField(keys));
  }

  lemma ShorterFits(keys: seq<OneTimePrekey>, keys': seq<OneTimePrekey>)
    requires Fits(Keys, KeysField(keys)) && Shorter(keys, keys')
    ensures Fits(Keys, KeysField(keys'))
  {
    forall i | 0 <= i < |keys'| ensures KeyFits(keys'[i]) {
      var j :| 0 <= j < |keys| && keys[j] == keys'[i];
    }
  }

  lemma ShorterBundle(b: PrekeyBundle, ec: seq<OneTimePrekey>, pq: seq<OneTimePrekey>)
    requires AllFit(BundleKinds, BundleFields(b)) && |SerializeBundle(b)| <= MaxInputBytes
    requires Shorter(b.oneTimeEc, ec) && Shorter(b.oneTimePq, pq)
    ensures var h := b.(oneTimeEc := ec, oneTimePq := pq); DeserializeBundle(SerializeBundle(h)) == Some(h)
  {
    var h, f := b.(oneTimeEc := ec, oneTimePq := pq), BundleFields(b);
    var f1 := f[12 := KeysField(ec)];
    assert BundleFields(h) == f1[13 := KeysField(pq)];
    assert Fits(BundleKinds[12], f[12]) && Fits(BundleKinds[13], f[13]);
    ShorterFits(b.oneTimeEc, ec);
    ShorterFits(b.oneTimePq, pq);
    ShorterSize(f, 12, ec);
    ShorterSize(f1, 13, pq);
    BundleRoundTrip(h);
  }

  /** What is handed out after `k` acquires: the bundle as it was published, with the next pair of its
      one-time keys if there is one. */
  function NextPair(b: PrekeyBundle, k: nat): PrekeyBundle {
    if k < |b.oneTimeEc| && k < |b.oneTimePq| then b.(oneTimeEc := [b.oneTimeEc[k]], oneTimePq := [b.oneTimePq[k]])
    else b.(oneTimeEc := [], oneTimePq := [])
  }

  lemma NextPairReadable(blob: Blob, k: nat)
    requires DeserializeBundle(blob).Some?
    ensures var h := NextPair(DeserializeBundle(blob).value, k); DeserializeBundle(SerializeBundle(h)) == Some(h)
  {
    var b := DeserializeBundle(blob).value;
    BundleCanonical(blob);
    if k < |b.oneTimeEc| && k < |b.oneTimePq| {
      KeysOutSkip(b.oneTimeEc, k);
      KeysOutSkip(b.oneTimePq, k);
    }
    ShorterBundle(b, NextPair(b, k).oneTimeEc, NextPair(b, k).oneTimePq);
  }

  /** Over every interleaving: an acquire of a published user is answered by bytes that read as the very
      bundle the user published, in a checked request, with the next pair of its one-time keys, or with
      none once a kind has run out; and that pair is gone afterwards. */
  lemma AcquireReplies(events: seq<Connections.Event>, actor: Text, peer: Text, config: ServerConfig)
      returns (a: Act, b: PrekeyBundle, k: nat)
    requires Framed(events) && |peer| <= MaxStringBytes
    requires peer in Connections.Run(EmptyWorld(), events, config).server.mail.bundles
    ensures var t := Connections.Run(EmptyWorld(), events, config);
            && a in t.acts && Publishes(a, b, peer, config) && LeftOf(t.server.mail.bundles[peer], b, k)
    ensures var m := Connections.Run(EmptyWorld(), events, config).server.mail;
            var (m', reply) := HandleForUser(m, CmdAcquire, actor, SerializeString(peer), config);
            && reply.Some? && DeserializeBundle(reply.value) == Some(NextPair(b, k))
            && peer in m'.bundles
            && LeftOf(m'.bundles[peer], b, if k < |b.oneTimeEc| && k < |b.oneTimePq| then k + 1 else k)
  {
    RunKeepsMail(EmptyWorld(), events, config);
    var t := Connections.Run(EmptyWorld(), events, config);
    var s := t.server.mail.bundles[peer];
    assert Genuine(t.acts, s, peer, config);
    a, b, k :| a in t.acts && Publishes(a, b, peer, config) && LeftOf(s, b, k);
    StringRoundTrip(peer);
    AcquireIff(t.server.mail, actor, SerializeString(peer), config);
    HandedOutIs(s, b, k);
    NextPairReadable(Inner(a.request).value, k);
    if s.ec != [] && s.pq != [] {
      NextLeft(s, b, k);
    }
  }

  lemma HandedOutIs(s: Stored, b: PrekeyBundle, k: nat)
    requires LeftOf(s, b, k)
    ensures HandedOut(s) == NextPair(b, k)
  {
  }

  // ---- logging in and out ----

  /** A registration is answered, with nothing, exactly if the registered key authorises it. */
  lemma RegisterReply(s: ServerState, r: Request, next: Request, look: Look, config: ServerConfig)
    requires r.command == CmdRegister
    ensures var (s', p) := StepConnection(s, Permitted(r), next, look, config);
            var m := DeserializeRegister(r.payload);
            && s'.mail == s.mail && s'.gate == s.gate && p.Replied?
            && p.reply == (if m.Some? && AuthKeys.WellSized(m.value)
                              && AuthKeys.Authorised(m.value.user, AuthKeys.KeyOf(s.auth.identities, m.value.user), m.value, config.checks)
                           then Some([]) else None)
            && (m.Some? && p.reply.Some? ==> AuthKeys.KeyOf(s'.auth.identities, m.value.user) == Some(m.value.key))
  {
    var m := DeserializeRegister(r.payload);
    if m.Some? {
      AuthKeys.RegisterIff(s.auth, m.value, config.checks);
    }
  }

  /** The challenge that answers a begin request reads as the one that was stored. */
  lemma BeginReply(s: ServerState, r: Request, next: Request, now: nat, id: Text, nonce: Text, config: ServerConfig)
    requires r.command == CmdAuthBegin && now + 60 < TWO64 && |id| <= 32 && |nonce| <= 32
    ensures var (s', p) := StepConnection(s, Permitted(r), next, Look(now, Some((id, nonce)), None), config);
            var b := DeserializeBegin(r.payload);
            && s'.mail == s.mail && s'.gate == s.gate && p.Replied?
            && (b.None? ==> p.reply == None)
            && (b.Some? && p.reply.Some? ==>
                  && DeserializeBeginReply(p.reply.value) == Some(BeginResponse(id, nonce, now + 60))
                  && id in s'.auth.challenges
                  && s'.auth.challenges[id] == Challenge(b.value.user, b.value.clientNonce, nonce, now + 60, false))
            && (b.Some? ==> (p.reply.Some? <==> Begin(s.auth, b.value, now, Some((id, nonce))).1.Some?))
  {
    var b := DeserializeBegin(r.payload);
    if b.Some? {
      AuthKeys.Begun(s.auth, b.value, now, id, nonce);
      SmallBeginReply(BeginResponse(id, nonce, now + 60));
    }
  }

  lemma SmallBeginReply(a: BeginResponse)
    requires |a.challengeId| <= 32 && |a.serverNonce| <= 32 && a.expires < TWO64
    ensures DeserializeBeginReply(SerializeBeginReply(a)) == Some(a)
  {
    var f := BeginReplyFields(a);
    assert f == [f[0]] + ([f[1]] + ([f[2]] + []));
    OutAllCons(f[0], [f[1]] + ([f[2]] + []));
    OutAllCons(f[1], [f[2]] + []);
    OutAllCons(f[2], []);
    BeginReplyRoundTrip(a);
  }

  lemma SmallFinishReply(a: FinishResponse)
    requires |a.token| <= 32 && a.expires < TWO64
    ensures DeserializeFinishReply(SerializeFinishReply(a)) == Some(a)
  {
    var f := FinishReplyFields(a);
    assert f == [f[0]] + ([f[1]] + []);
    OutAllCons(f[0], [f[1]] + []);
    OutAllCons(f[1], []);
    FinishReplyRoundTrip(a);
  }

  /** A finish request that uses up its challenge, with a signature of the registered key over it, is
      answered by the token of the session that it opens for 900 seconds; any other is refused. */
  lemma FinishReply(s: ServerState, r: Request, next: Request, now: nat, token: Text, config: ServerConfig)
    requires r.command == CmdAuthFinish && now + 900 < TWO64 && |token| == 32
    ensures var (s', p) := StepConnection(s, Permitted(r), next, Look(now, None, Some(token)), config);
            var f := DeserializeFinish(r.payload);
            && s'.mail == s.mail && s'.gate == s.gate && p.Replied?
            && (p.reply.Some? <==> f.Some? && SignedLogin(s.auth, f.value, now, config.checks))
            && (p.reply.Some? ==> DeserializeFinishReply(p.reply.value) == Some(FinishResponse(token, now + 900))
                                  && token in s'.auth.sessions && s'.auth.sessions[token] == Session(f.value.user, now + 900))
  {
    var f := DeserializeFinish(r.payload);
    if f.Some? {
      AuthRuns.FinishConsumes(s.auth, f.value, now, Some(token), config.checks);
      if SignedLogin(s.auth, f.value, now, config.checks) {
        AuthKeys.FinishIssues(s.auth, f.value, now, token, config.checks);
      }
      SmallFinishReply(FinishResponse(token, now + 900));
    }
  }

  predicate SignedLogin(s: AuthState, f: FinishRequest, now: nat, checks: Checks) {
    && AuthRuns.Consumes(s, f, now) && f.user in s.identities
    && checks.verify(s.identities[f.user], Encode(TransportAuth(f.user, f.clientNonce, f.serverNonce, f.challengeId, f.expires)), f.signature)
  }

  /** A request of a user gets behind the check exactly if its payload reads and its token stands for
      that user and has not expired. */
  lemma CheckedIff(s: ServerState, r: Request, next: Request, look: Look, user: Text, config: ServerConfig)
    requires CommandOf(r.command) == PreAuthGate.OtherCommand
    ensures var (s', p) := StepConnection(s, Limited(r), next, look, config);
            var a := DeserializeAuthenticated(r.payload);
            && s'.mail == s.mail && s'.gate == s.gate
            && (p == Waiting(Checked(r, user)) <==>
                  a.Some? && |a.value.token| == 32 && a.value.token in s.auth.sessions
                  && s.auth.sessions[a.value.token].user == user && look.now <= s.auth.sessions[a.value.token].expires)
            && (p.Waiting? || p == Replied(None))
  {
    var a := DeserializeAuthenticated(r.payload);
    if a.Some? {
      AuthKeys.AuthenticateIff(s.auth, a.value.token, look.now, user);
    }
  }

  /** A logout is answered exactly if its token had a session, and the token is good for nothing after. */
  lemma LogoutReply(s: ServerState, r: Request, actor: Text, next: Request, look: Look, config: ServerConfig)
    requires r.command == CmdLogout && DeserializeAuthenticated(r.payload).Some?
    ensures var (s', p) := StepConnection(s, Checked(r, actor), next, look, config);
            var token := DeserializeAuthenticated(r.payload).value.token;
            && s'.mail == s.mail && s'.gate == s.gate
            && p == Replied(if |token| == 32 && token in s.auth.sessions then Some([]) else None)
            && (forall now: nat :: Authenticate(s'.auth, token, now).1 == None)
            && (forall t :: t != token ==> (t in s'.auth.sessions <==> t in s.auth.sessions)
                                           && (t in s.auth.sessions ==> s'.auth.sessions[t] == s.auth.sessions[t]))
  {
    AuthRuns.RevokeIs(s.auth, DeserializeAuthenticated(r.payload).value.token);
  }
}
