/** The shape of session keys. Every ratchet of a session mixes its root one level deeper, so
    the depth of the root orders all chains a session ever uses. */
module KeyTerms {
  import opened Wrappers
  import opened Bytes
  import opened Messages
  import opened Symbolic
  import opened Sessions

  /** The first key of a chain. */
  function Base(k: Key): Key {
    match k
    case NextChain(c, _) => Base(c)
    case _ => k
  }

  /** How many steps `k` is from the first key of its chain. */
  function Length(k: Key): nat {
    match k
    case NextChain(c, _) => 1 + Length(c)
    case _ => 0
  }

  /** Every step of the chain used its own position as counter. */
  predicate Numbered(k: Key) {
    k.NextChain? ==> k.counter == Length(k.chain) && Numbered(k.chain)
  }

  /** The number of ratchets mixed into a root key. */
  function Depth(k: Key): nat {
    match k
    case RatchetRoot(_, r) => 1 + Depth(r)
    case _ => 0
  }

  /** The position of a chain among the ratchets of its session. */
  function Rank(base: Key): nat {
    match base
    case RatchetChain(_, r) => 1 + Depth(r)
    case _ => 0
  }

  /** The handshake a key descends from. */
  function Origin(k: Key): (HandshakeSecret, Transcript) {
    match k
    case HandshakeRoot(s, t) => (s, t)
    case HandshakeChain(s, t, _) => (s, t)
    case NextChain(c, _) => Origin(c)
    case RatchetChain(_, r) => Origin(r)
    case RatchetRoot(_, r) => Origin(r)
  }

  /** `k` is of an earlier chain than `l`, or earlier in the same chain. */
  predicate Precedes(k: MessageKey, l: MessageKey) {
    || Rank(Base(k.chain)) < Rank(Base(l.chain))
    || (Base(k.chain) == Base(l.chain) && k.counter < l.counter)
  }

  /** The chain key at position n of a chain is determined by the first key. */
  lemma {:induction false} NumberedUnique(k: Key, l: Key)
    requires Numbered(k) && Numbered(l) && Base(k) == Base(l) && Length(k) == Length(l)
    ensures k == l
  {
    if k.NextChain? {
      NumberedUnique(k.chain, l.chain);
    }
  }

  /** Both chains of a session are at most as deep as its root. */
  predicate Ranked(s: Session) {
    Rank(Base(s.sendChain)) <= Depth(s.root) && Rank(Base(s.recvChain)) <= Depth(s.root)
  }

  lemma ReceiveRanked(s: Session, m: Chat)
    requires Ranked(s)
    ensures Ranked(Receive(s, m).0)
  {
  }

  lemma SendRanked(s: Session, user: Text, plaintext: Text, newKey: nat)
    requires Ranked(s) && Send(s, user, plaintext, newKey).Some?
    ensures Ranked(Send(s, user, plaintext, newKey).value.0)
  {
  }

  /** The session has ratcheted past the chain that starts with `base`. */
  predicate Passed(s: Session, base: Key) {
    Rank(base) <= Depth(s.root) && Base(s.recvChain) != base
  }

  predicate FromChain(m: Chat, base: Key) {
    m.ciphertext.Sealed? && Base(m.ciphertext.key.chain) == base
  }

  datatype LocalStep = LocalSend(plaintext: Text, newKey: nat) | LocalReceive(message: Chat)

  function StepLocal(s: Session, user: Text, step: LocalStep): Session {
    match step
    case LocalSend(plaintext, newKey) =>
      (match Send(s, user, plaintext, newKey) case None => s case Some((t, _)) => t)
    case LocalReceive(m) => Receive(s, m).0
  }

  function RunLocal(s: Session, user: Text, steps: seq<LocalStep>): Session
    decreases |steps|
  {
    if steps == [] then s else RunLocal(StepLocal(s, user, steps[0]), user, steps[1..])
  }

  /** A chain that has been passed is never listened to again: whatever the session sends and
      whatever messages reach it, nothing sealed in that chain is accepted. */
  lemma {:induction false} PassedForever(s: Session, user: Text, base: Key, steps: seq<LocalStep>, m: Chat)
    requires Passed(s, base) && FromChain(m, base)
    ensures Receive(RunLocal(s, user, steps), m).1.None?
    decreases |steps|
  {
    if steps != [] {
      PassedForever(StepLocal(s, user, steps[0]), user, base, steps[1..], m);
    }
  }

  // ---- the length that a ratchet message announces ----

  /** What a session's next ratchet message announces as the length of the chain before it. */
  function Announced(s: Session, newKey: nat): nat
    requires RatchetsOnSend(s) && s.remote.PublicKey?
  {
    PrepareSend(s, newKey).value.1.previousChainLength
  }

  /** The lengths a session has announced or will announce: none before its first ratchet, and a
      full chain after it. */
  predicate Lengths(s: Session, ratcheted: bool) {
    s.sendCounter <= RatchetInterval && s.previousSendLength == if ratcheted then RatchetInterval else 0
  }

  function Ratcheted(s: Session, user: Text, steps: seq<LocalStep>): bool
    decreases |steps|
  {
    steps != [] &&
    ((steps[0].LocalSend? && RatchetsOnSend(s) && s.remote.PublicKey?) || Ratcheted(StepLocal(s, user, steps[0]), user, steps[1..]))
  }

  lemma {:induction false} RunKeepsLengths(s: Session, user: Text, steps: seq<LocalStep>, before: bool)
    requires Lengths(s, before)
    ensures Lengths(RunLocal(s, user, steps), before || Ratcheted(s, user, steps))
    decreases |steps|
  {
    if steps != [] {
      var now := before || (steps[0].LocalSend? && RatchetsOnSend(s) && s.remote.PublicKey?);
      StepKeepsLengths(s, user, steps[0], before);
      RunKeepsLengths(StepLocal(s, user, steps[0]), user, steps[1..], now);
    }
  }

  lemma StepKeepsLengths(s: Session, user: Text, step: LocalStep, before: bool)
    requires Lengths(s, before)
    ensures Lengths(StepLocal(s, user, step), before || (step.LocalSend? && RatchetsOnSend(s) && s.remote.PublicKey?))
  {
  }

  /** In every run from a handshake, whatever is sent and received: a ratchet always ends a chain of
      ten messages, and its message announces that length if and only if the session has ratcheted
      before; the first announces zero. */
  lemma AnnouncedIff(s: Session, user: Text, steps: seq<LocalStep>, newKey: nat)
    requires s.previousSendLength == 0 && s.sendCounter <= 1
    requires var t := RunLocal(s, user, steps); RatchetsOnSend(t) && t.remote.PublicKey?
    ensures var t := RunLocal(s, user, steps);
            && t.sendCounter == RatchetInterval
            && (Announced(t, newKey) == t.sendCounter <==> Ratcheted(s, user, steps))
            && (!Ratcheted(s, user, steps) ==> Announced(t, newKey) == 0)
  {
    RunKeepsLengths(s, user, steps, false);
  }
}
