/** Whole runs of one client process: whatever it is asked to do and whatever reaches it, an
    initial message is accepted at most once and the client's own bookkeeping stays sound. */
module ClientRuns {
  import opened Wrappers
  import opened Bytes
  import opened Messages
  import opened Symbolic
  import opened Sessions
  import opened ClientSpec

  /** Everything that can happen to a client. Keys are drawn from the clock; a refill adds keys
      with the given ids, whatever the random generator returned; others draw keys as well. */
  datatype Event =
    | InitialArrives(initial: Initial)
    | ChatArrives(chat: Chat)
    | SendRequested(peer: Text, plaintext: Text)
    | InitiateRequested(bundle: Bundle, peer: Text, plaintext: Text, sessionId: Text, seed1: nat, seed2: nat)
    | Refilled(ecIds: seq<nat>, pqIds: seq<nat>)
    | NumberEntered(peer: Text, expected: SafetyNumber)
    | ElsewhereGenerated(keys: nat)

  function Numbered(ids: seq<nat>, clock: nat): (keys: seq<OneTimeKey>)
    ensures |keys| == |ids|
  {
    seq(|ids|, i requires 0 <= i < |ids| => OneTimeKey(ids[i], clock + i))
  }

  function Refill(c: ClientState, ecIds: seq<nat>, pqIds: seq<nat>, clock: nat): ClientState {
    c.(ecPool := c.ecPool + Numbered(ecIds, clock),
       pqPool := c.pqPool + Numbered(pqIds, clock + |ecIds|),
       dirty := c.dirty || ecIds != [] || pqIds != [])
  }

  /** The client and clock after an event. */
  function Step(c: ClientState, clock: nat, e: Event): (ClientState, nat) {
    match e
    case InitialArrives(m) => (HandleInitial(c, m).0, clock)
    case ChatArrives(m) => (HandleChat(c, m).0, clock)
    case SendRequested(peer, plaintext) => (SendChat(c, peer, plaintext, clock).0, clock + 1)
    case InitiateRequested(b, peer, plaintext, sessionId, seed1, seed2) =>
      (Initiate(c, b, peer, plaintext, Draws(sessionId, clock, seed1, seed2)).0, clock + 1)
    case Refilled(ecIds, pqIds) => (Refill(c, ecIds, pqIds, clock), clock + |ecIds| + |pqIds|)
    case NumberEntered(peer, expected) => (EnterNumber(c, peer, expected).0, clock)
    case ElsewhereGenerated(keys) => (c, clock + keys)
  }

  function Run(c: ClientState, clock: nat, events: seq<Event>): (ClientState, nat)
    decreases |events|
  {
    if events == [] then (c, clock) else
    var (c', clock') := Step(c, clock, events[0]);
    Run(c', clock', events[1..])
  }

  // ---- at most once ----

  /** The keys of the EC pool have been generated, each for one entry. */
  ghost predicate KeysGenerated(c: ClientState, clock: nat) {
    && (forall i :: 0 <= i < |c.ecPool| ==> c.ecPool[i].key < clock)
    && (forall i, j :: 0 <= i < j < |c.ecPool| ==> c.ecPool[i].key != c.ecPool[j].key)
  }

  ghost predicate Spent(c: ClientState, clock: nat, key: nat) {
    key < clock && forall i :: 0 <= i < |c.ecPool| ==> c.ecPool[i].key != key
  }

  lemma StepKeepsSpent(c: ClientState, clock: nat, e: Event, key: nat)
    requires Spent(c, clock, key)
    ensures var (c', clock') := Step(c, clock, e); Spent(c', clock', key)
  {
  }

  lemma {:induction false} RunKeepsSpent(c: ClientState, clock: nat, events: seq<Event>, key: nat)
    requires Spent(c, clock, key)
    ensures var (c', clock') := Run(c, clock, events); Spent(c', clock', key)
    decreases |events|
  {
    if events != [] {
      StepKeepsSpent(c, clock, events[0], key);
      var (c', clock') := Step(c, clock, events[0]);
      RunKeepsSpent(c', clock', events[1..], key);
    }
  }

  /** The one-time EC key with which an accepted message was opened. */
  function KeyUsed(c: ClientState, m: Initial): nat
    requires HandleInitial(c, m).1.Some?
  {
    c.ecPool[IndexOf(c.ecPool, m.selected.oneTimeEcId.value)].key
  }

  /** The ciphertext alone determines the one-time key that opens it. */
  lemma CiphertextNamesKey(c: ClientState, m: Initial, c': ClientState, m': Initial)
    requires HandleInitial(c, m).1.Some? && HandleInitial(c', m').1.Some?
    requires m.ciphertext == m'.ciphertext
    ensures KeyUsed(c, m) == KeyUsed(c', m')
  {
    assert m.transcriptHash == m'.transcriptHash;
    assert m.ephemeral == m'.ephemeral;
    var secret := m.ciphertext.key.chain.secret;
    assert Some(secret.dh4) == SharedSecret(KeyUsed(c, m), m.ephemeral) == SharedSecret(KeyUsed(c', m'), m.ephemeral);
    SharedSecretAgrees(m.ephemeral.id, KeyUsed(c, m), KeyUsed(c', m'));
    SharedSecretAgrees(KeyUsed(c, m), m.ephemeral.id, 0);
    SharedSecretAgrees(KeyUsed(c', m'), m.ephemeral.id, 0);
  }

  lemma AcceptSpends(c: ClientState, clock: nat, m: Initial)
    requires KeysGenerated(c, clock) && HandleInitial(c, m).1.Some?
    ensures Spent(HandleInitial(c, m).0, clock, KeyUsed(c, m))
  {
    var i := IndexOf(c.ecPool, m.selected.oneTimeEcId.value);
    var rest := Without(c.ecPool, i);
    forall j | 0 <= j < |rest| ensures rest[j].key != c.ecPool[i].key {
      assert rest[j] == c.ecPool[if j < i then j else j + 1];
    }
  }

  /** At most once. After a client has accepted an initial message, no later message with the
      same ciphertext is accepted, however the run goes on: even when the replay guards have been
      evicted and ids are drawn again, the one-time key that opens it is gone. */
  lemma AcceptedAtMostOnce(c: ClientState, clock: nat, m: Initial, events: seq<Event>, m': Initial)
    requires KeysGenerated(c, clock) && HandleInitial(c, m).1.Some?
    requires m.ciphertext == m'.ciphertext
    ensures HandleInitial(Run(HandleInitial(c, m).0, clock, events).0, m').1.None?
  {
    var c1 := HandleInitial(c, m).0;
    var (c2, clock2) := Run(c1, clock, events);
    AcceptSpends(c, clock, m);
    RunKeepsSpent(c1, clock, events, KeyUsed(c, m));
    if HandleInitial(c2, m').1.Some? {
      CiphertextNamesKey(c, m, c2, m');
      assert false;
    }
  }

  lemma WithoutKeepsKeys(c: ClientState, i: nat, clock: nat, c': ClientState)
    requires KeysGenerated(c, clock) && i < |c.ecPool| && c'.ecPool == Without(c.ecPool, i)
    ensures KeysGenerated(c', clock)
  {
    var rest := Without(c.ecPool, i);
    assert forall j :: 0 <= j < |rest| ==> rest[j] == c.ecPool[if j < i then j else j + 1];
  }

  lemma RefillKeepsKeys(c: ClientState, ecIds: seq<nat>, pqIds: seq<nat>, clock: nat)
    requires KeysGenerated(c, clock)
    ensures KeysGenerated(Refill(c, ecIds, pqIds, clock), clock + |ecIds| + |pqIds|)
  {
    var pool := Refill(c, ecIds, pqIds, clock).ecPool;
    var n := |c.ecPool|;
    assert forall i :: 0 <= i < |pool| ==> pool[i].key == if i < n then c.ecPool[i].key else clock + (i - n);
  }

  /** All other events leave the pool alone. */
  lemma PoolStays(c: ClientState, clock: nat, e: Event)
    requires !e.Refilled? && !(e.InitialArrives? && HandleInitial(c, e.initial).1.Some?)
    ensures Step(c, clock, e).0.ecPool == c.ecPool && clock <= Step(c, clock, e).1
  {
  }

  lemma StepKeepsKeys(c: ClientState, clock: nat, e: Event)
    requires KeysGenerated(c, clock)
    ensures var (c', clock') := Step(c, clock, e); KeysGenerated(c', clock')
  {
    if e.Refilled? {
      RefillKeepsKeys(c, e.ecIds, e.pqIds, clock);
    } else if e.InitialArrives? && HandleInitial(c, e.initial).1.Some? {
      WithoutKeepsKeys(c, IndexOf(c.ecPool, e.initial.selected.oneTimeEcId.value), clock, HandleInitial(c, e.initial).0);
    } else {
      PoolStays(c, clock, e);
    }
  }

  lemma {:induction false} RunKeepsKeys(c: ClientState, clock: nat, events: seq<Event>)
    requires KeysGenerated(c, clock)
    ensures var (c', clock') := Run(c, clock, events); KeysGenerated(c', clock')
    decreases |events|
  {
    if events != [] {
      StepKeepsKeys(c, clock, events[0]);
      var (c', clock') := Step(c, clock, events[0]);
      RunKeepsKeys(c', clock', events[1..]);
    }
  }

  /** From a client that has not generated any one-time key yet: in the whole run, of the messages
      with one ciphertext at most one is accepted. */
  lemma AtMostOnceInRun(c0: ClientState, clock0: nat, before: seq<Event>, m: Initial, after: seq<Event>, m': Initial)
    requires c0.ecPool == [] && m.ciphertext == m'.ciphertext
    requires HandleInitial(Run(c0, clock0, before).0, m).1.Some?
    ensures var (c, clock) := Run(c0, clock0, before);
            HandleInitial(Run(HandleInitial(c, m).0, clock, after).0, m').1.None?
  {
    RunKeepsKeys(c0, clock0, before);
    var (c, clock) := Run(c0, clock0, before);
    AcceptedAtMostOnce(c, clock, m, after, m');
  }

  /** What a refused initial message leaves: everything as it was, but that a first contact whose
      message passed all checks up to the signatures has been pinned, unverified. */
  lemma RefusedInitial(c: ClientState, m: Initial)
    requires HandleInitial(c, m).1.None?
    ensures HandleInitial(c, m).0 ==
            if Admissible(c, m) && m.fromUser !in c.pins
            then c.(pins := c.pins[m.fromUser := Pin(m.identitySign, m.identityMldsa, m.identityDh, false)]) else c
  {
  }

  // ---- bookkeeping ----

  lemma NewestDistinct<T>(s: seq<T>, x: T)
    requires Distinct(s) && x !in s
    ensures Distinct(Newest(s + [x]))
  {
    var t := s + [x];
    forall i, j | 0 <= i < j < |t| ensures t[i] != t[j] {
      assert j < |s| || t[j] == x;
    }
  }

  lemma RememberKeepsGuards(g: Guards, sessionId: Text, transcript: Transcript)
    requires GuardsValid(g)
    ensures GuardsValid(Remember(g, sessionId, transcript).0)
  {
    if !Seen(g, sessionId, transcript) {
      NewestDistinct(g.sessionOrder, sessionId);
      NewestDistinct(g.transcriptOrder, transcript);
    }
  }

  lemma NumberedPush(ids: seq<nat>, clock: nat, id: nat)
    ensures Numbered(ids + [id], clock) == Numbered(ids, clock) + [OneTimeKey(id, clock + |ids|)]
  {
  }

  /** A key with an unused id may join one of two pools. */
  lemma PushKeepsPools(pool: seq<OneTimeKey>, other: seq<OneTimeKey>, k: OneTimeKey)
    requires PoolsValid(pool, other) && |pool| < PoolTarget && 0 < k.id < TWO32
    requires IndexOf(pool, k.id) == |pool| && IndexOf(other, k.id) == |other|
    ensures PoolsValid(pool + [k], other)
  {
  }

  lemma WithoutKeepsPool(pool: seq<OneTimeKey>, i: nat)
    requires PoolValid(pool) && i < |pool|
    ensures PoolValid(Without(pool, i))
    ensures forall j :: 0 <= j < |Without(pool, i)| ==> Without(pool, i)[j] in pool
  {
    var rest := Without(pool, i);
    assert forall j :: 0 <= j < |rest| ==> rest[j] == pool[if j < i then j else j + 1];
  }

  /** Newly remembered guards are seen; no earlier one is forgotten below the limit, and at the limit
      only the oldest. */
  lemma RememberKeepsSeen(g: Guards, sessionId: Text, transcript: Transcript)
    requires GuardsValid(g) && Remember(g, sessionId, transcript).1
    ensures var g' := Remember(g, sessionId, transcript).0;
            && sessionId in g'.sessions && transcript in g'.transcripts
            && (|g.sessionOrder| < MaxReplayGuards ==> g'.sessions == g.sessions + {sessionId})
            && (|g.sessionOrder| == MaxReplayGuards ==> g'.sessions == (g.sessions - {g.sessionOrder[0]}) + {sessionId})
            && (|g.transcriptOrder| < MaxReplayGuards ==> g'.transcripts == g.transcripts + {transcript})
            && (|g.transcriptOrder| == MaxReplayGuards ==> g'.transcripts == (g.transcripts - {g.transcriptOrder[0]}) + {transcript})
  {
    NewestElements(g.sessionOrder, sessionId);
    NewestElements(g.transcriptOrder, transcript);
  }

  lemma NewestElements<T>(s: seq<T>, x: T)
    requires Distinct(s) && |s| <= MaxReplayGuards && x !in s
    ensures x in Elements(Newest(s + [x]))
    ensures Elements(Newest(s + [x])) ==
            if |s| < MaxReplayGuards then Elements(s) + {x} else (Elements(s) - {s[0]}) + {x}
  {
    var t := s + [x];
    assert t[|s|] == x;
    if |s| == MaxReplayGuards {
      assert Newest(t) == s[1..] + [x];
      assert s == [s[0]] + s[1..];
      forall y | y in s[1..] ensures y != s[0] {
        var i :| 0 <= i < |s[1..]| && s[1..][i] == y;
        assert s[i+1] == y;
      }
    }
  }

  /** A pool without one of its keys. */
  lemma WithoutMembers(pool: seq<OneTimeKey>, i: nat)
    requires PoolValid(pool) && i < |pool|
    ensures |Without(pool, i)| == |pool| - 1
    ensures forall k :: k in Without(pool, i) <==> k in pool && k.id != pool[i].id
  {
    forall k | k in Without(pool, i) ensures k in pool && k.id != pool[i].id {
      WithoutNone(pool, i, k);
    }
    forall k | k in pool && k.id != pool[i].id ensures k in Without(pool, i) {
      WithoutKeeps(pool, i, k);
    }
  }

  lemma WithoutNone(pool: seq<OneTimeKey>, i: nat, k: OneTimeKey)
    requires PoolValid(pool) && i < |pool| && k in Without(pool, i)
    ensures k in pool && k.id != pool[i].id
  {
    var j :| 0 <= j < |Without(pool, i)| && Without(pool, i)[j] == k;
    var j' := if j < i then j else j + 1;
    assert k == pool[j'];
  }

  lemma WithoutKeeps(pool: seq<OneTimeKey>, i: nat, k: OneTimeKey)
    requires i < |pool| && k in pool && k.id != pool[i].id
    ensures k in Without(pool, i)
  {
    var j :| 0 <= j < |pool| && pool[j] == k;
    assert Without(pool, i)[if j < i then j else j - 1] == k;
  }

  /** What accepting an initial message leaves: the two one-time keys that it names have left their
      pools and no others have, the pools wait to be published again, both guards are seen, the
      sender has a session, and everything else is as it was. */
  lemma AcceptedEffects(c: ClientState, m: Initial)
    requires Valid(c) && HandleInitial(c, m).1.Some?
    ensures var c' := HandleInitial(c, m).0;
            && m.selected.oneTimeEcId.Some? && m.selected.oneTimePqId.Some?
            && (forall k :: k in c'.ecPool <==> k in c.ecPool && k.id != m.selected.oneTimeEcId.value)
            && (forall k :: k in c'.pqPool <==> k in c.pqPool && k.id != m.selected.oneTimePqId.value)
            && |c'.ecPool| == |c.ecPool| - 1 && |c'.pqPool| == |c.pqPool| - 1
            && c'.dirty
    ensures var c' := HandleInitial(c, m).0;
            && m.sessionId !in c.guards.sessions && m.transcriptHash !in c.guards.transcripts
            && m.sessionId in c'.guards.sessions && m.transcriptHash in c'.guards.transcripts
    ensures var c' := HandleInitial(c, m).0;
            && c'.me == c.me && c'.pins == c.pins && m.fromUser in c.pins && c.pins[m.fromUser].verified
            && m.fromUser in c'.sessions && c'.sessions - {m.fromUser} == c.sessions - {m.fromUser}
  {
    WithoutMembers(c.ecPool, IndexOf(c.ecPool, m.selected.oneTimeEcId.value));
    WithoutMembers(c.pqPool, IndexOf(c.pqPool, m.selected.oneTimePqId.value));
    RememberKeepsSeen(c.guards, m.sessionId, m.transcriptHash);
  }

  /** Whose message was accepted: the user has verified the sender's identity, and both keys of that
      identity have signed the transcript that names this client, its keys and all that the message
      carries; neither guard had been seen, and the message names keys that the client still had. */
  lemma AcceptedAuthentic(c: ClientState, m: Initial)
    requires HandleInitial(c, m).1.Some?
    ensures m.fromUser in c.pins && c.pins[m.fromUser] == Pin(m.identitySign, m.identityMldsa, m.identityDh, true)
    ensures var t := Transcript(m.sessionId, m.fromUser, c.me.user, ProtocolVersion, CipherSuite,
                                m.identitySign, m.identityMldsa, m.identityDh, c.me.sign, c.me.mldsa, PublicKey(c.me.dh),
                                m.ephemeral, m.selected, m.kemSigned, m.kemOneTime);
            && m.transcriptHash == t
            && m.signatureEd25519 == Signature(c.pins[m.fromUser].sign, t) && m.signatureMldsa65 == Signature(c.pins[m.fromUser].mldsa, t)
            && m.sessionId !in c.guards.sessions && t !in c.guards.transcripts
    ensures m.selected.signedEcId == c.me.signedEcId && m.selected.signedPqId == c.me.signedPqId
    ensures exists k :: k in c.ecPool && m.selected.oneTimeEcId == Some(k.id)
    ensures exists k :: k in c.pqPool && m.selected.oneTimePqId == Some(k.id)
    ensures m.ciphertext.Sealed? && m.ciphertext.plaintext == HandleInitial(c, m).1.value
            && m.ciphertext.ad == TranscriptData(m.transcriptHash) && m.ciphertext.key.counter == 0
  {
    var i, j := IndexOf(c.ecPool, m.selected.oneTimeEcId.value), IndexOf(c.pqPool, m.selected.oneTimePqId.value);
    assert c.ecPool[i] in c.ecPool && c.pqPool[j] in c.pqPool;
  }

  // ---- refilling ----

  const MaxIdDraws: nat := 32

  function Ids(pool: seq<OneTimeKey>): set<nat> {
    set k | k in pool :: k.id
  }

  /** An id that a new key may have. */
  predicate Usable(id: nat, taken: set<nat>) {
    id != 0 && id !in taken
  }

  /** The position of the first usable draw among the next `limit`. */
  function FirstUsable(taken: set<nat>, draws: seq<U32>, limit: nat): (i: Option<nat>)
    ensures i.Some? ==> i.value < |draws| && Usable(draws[i.value], taken)
    decreases limit
  {
    if limit == 0 || draws == [] then None else
    if Usable(draws[0], taken) then Some(0) else
    match FirstUsable(taken, draws[1..], limit - 1)
    case None => None
    case Some(i) => Some(i + 1)
  }

  function Missing(ecPool: seq<OneTimeKey>, pqPool: seq<OneTimeKey>): nat {
    (if |ecPool| < PoolTarget then PoolTarget - |ecPool| else 0) + (if |pqPool| < PoolTarget then PoolTarget - |pqPool| else 0)
  }

  /** How many of the draws are zero, in use, or repeated. */
  function Wasted(taken: set<nat>, draws: seq<U32>): (n: nat)
    ensures n <= |draws|
    decreases |draws|
  {
    if draws == [] then 0 else
    if Usable(draws[0], taken) then Wasted(taken + {draws[0]}, draws[1..]) else 1 + Wasted(taken, draws[1..])
  }

  lemma {:induction false} SkipWasted(taken: set<nat>, draws: seq<U32>, limit: nat)
    requires Wasted(taken, draws) < limit && Wasted(taken, draws) < |draws|
    ensures FirstUsable(taken, draws, limit).Some?
    ensures var i := FirstUsable(taken, draws, limit).value;
            Wasted(taken, draws) == i + Wasted(taken + {draws[i]}, draws[i+1..])
    decreases limit
  {
    if !Usable(draws[0], taken) {
      SkipWasted(taken, draws[1..], limit - 1);
      var i := FirstUsable(taken, draws[1..], limit - 1).value;
      assert draws[1..][i+1..] == draws[i+2..];
    }
  }

  /** The draws hold an id for every missing key, and fewer than 32 others. */
  predicate Plenty(taken: set<nat>, draws: seq<U32>, missing: nat) {
    missing + Wasted(taken, draws) <= |draws| && Wasted(taken, draws) < MaxIdDraws
  }

  /** With plenty of draws the search finds an id, and leaves plenty for the other keys. */
  lemma PlentyFinds(taken: set<nat>, draws: seq<U32>, missing: nat)
    requires Plenty(taken, draws, missing) && missing > 0
    ensures FirstUsable(taken, draws, MaxIdDraws).Some?
    ensures var i := FirstUsable(taken, draws, MaxIdDraws).value; Plenty(taken + {draws[i]}, draws[i+1..], missing - 1)
  {
    SkipWasted(taken, draws, MaxIdDraws);
  }

  /** What the search for an id finds. */
  lemma {:induction false} FirstUsableAt(taken: set<nat>, draws: seq<U32>, limit: nat, i: nat)
    requires i <= |draws| && i <= limit
    requires forall k :: 0 <= k < i ==> !Usable(draws[k], taken)
    ensures i == limit || i == |draws| ==> FirstUsable(taken, draws, limit) == None
    ensures i < limit && i < |draws| && Usable(draws[i], taken) ==> FirstUsable(taken, draws, limit) == Some(i)
    decreases i
  {
    if i > 0 {
      FirstUsableAt(taken, draws[1..], limit - 1, i - 1);
    }
  }

  lemma IdsPush(pool: seq<OneTimeKey>, k: OneTimeKey)
    ensures Ids(pool + [k]) == Ids(pool) + {k.id}
  {
    assert forall x :: x in pool + [k] <==> x in pool || x == k;
    assert k in pool + [k];
  }

  /** An id is in use exactly if the search finds it. */
  lemma IdsFound(pool: seq<OneTimeKey>, id: nat)
    ensures id in Ids(pool) <==> IndexOf(pool, id) < |pool|
  {
    if IndexOf(pool, id) < |pool| {
      assert pool[IndexOf(pool, id)] in pool;
    }
  }

  /** A usable id joins a pool. */
  lemma FillKey(pool: seq<OneTimeKey>, other: seq<OneTimeKey>, key: OneTimeKey)
    requires PoolsValid(pool, other) && |pool| < PoolTarget && key.id < TWO32 && Usable(key.id, Ids(pool) + Ids(other))
    ensures PoolsValid(pool + [key], other)
    ensures Ids(pool + [key]) + Ids(other) == (Ids(pool) + Ids(other)) + {key.id}
    ensures Missing(pool + [key], other) == Missing(pool, other) - 1
  {
    IdsFound(pool, key.id);
    IdsFound(other, key.id);
    PushKeepsPools(pool, other, key);
    IdsPush(pool, key);
  }

  /** Refills as RefillOneTimePrekeyPools makes them. */
  ghost predicate Possible(c: ClientState, e: Event) {
    e.Refilled? ==> var c' := Refill(c, e.ecIds, e.pqIds, 0); PoolsValid(c'.ecPool, c'.pqPool)
  }

  lemma RefillIdsOnly(c: ClientState, ecIds: seq<nat>, pqIds: seq<nat>, clock: nat)
    requires var c' := Refill(c, ecIds, pqIds, 0); PoolsValid(c'.ecPool, c'.pqPool)
    ensures var c' := Refill(c, ecIds, pqIds, clock); PoolsValid(c'.ecPool, c'.pqPool)
  {
    var c0, c1 := Refill(c, ecIds, pqIds, 0), Refill(c, ecIds, pqIds, clock);
    assert forall i :: 0 <= i < |c0.ecPool| ==> c1.ecPool[i].id == c0.ecPool[i].id;
    assert forall i :: 0 <= i < |c0.pqPool| ==> c1.pqPool[i].id == c0.pqPool[i].id;
  }

  lemma AnswerKeepsValid(c: ClientState, m: Initial)
    requires Valid(c)
    ensures Valid(HandleInitial(c, m).0)
  {
    RememberKeepsGuards(c.guards, m.sessionId, m.transcriptHash);
    if HandleInitial(c, m).1.Some? {
      WithoutKeepsPool(c.ecPool, IndexOf(c.ecPool, m.selected.oneTimeEcId.value));
      WithoutKeepsPool(c.pqPool, IndexOf(c.pqPool, m.selected.oneTimePqId.value));
    }
  }

  lemma InitiateKeepsValid(c: ClientState, b: Bundle, peer: Text, plaintext: Text, d: Draws)
    requires Valid(c)
    ensures Valid(Initiate(c, b, peer, plaintext, d).0)
  {
    if Initiate(c, b, peer, plaintext, d).1.Some? {
      RememberKeepsGuards(c.guards, d.sessionId, InitiatorTranscript(c.me, b, peer, d));
    }
  }

  /** Guards, pools and sessions stay sound through every event. */
  lemma StepKeepsValid(c: ClientState, clock: nat, e: Event)
    requires Valid(c) && Possible(c, e)
    ensures Valid(Step(c, clock, e).0)
  {
    match e
    case InitialArrives(m) => AnswerKeepsValid(c, m);
    case InitiateRequested(b, peer, plaintext, sessionId, seed1, seed2) =>
      InitiateKeepsValid(c, b, peer, plaintext, Draws(sessionId, clock, seed1, seed2));
    case Refilled(ecIds, pqIds) => RefillIdsOnly(c, ecIds, pqIds, clock);
    case _ =>
  }

  ghost predicate PossibleRun(c: ClientState, clock: nat, events: seq<Event>)
    decreases |events|
  {
    events == [] || (Possible(c, events[0])
                     && var (c', clock') := Step(c, clock, events[0]); PossibleRun(c', clock', events[1..]))
  }

  lemma {:induction false} RunKeepsValid(c: ClientState, clock: nat, events: seq<Event>)
    requires Valid(c) && PossibleRun(c, clock, events)
    ensures Valid(Run(c, clock, events).0)
    decreases |events|
  {
    if events != [] {
      StepKeepsValid(c, clock, events[0]);
      var (c', clock') := Step(c, clock, events[0]);
      RunKeepsValid(c', clock', events[1..]);
    }
  }
}
