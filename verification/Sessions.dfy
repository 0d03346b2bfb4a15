/** One side of a session: what `SendMessage` and `HandleChatMessage` do to it. */
module Sessions {
  import opened Wrappers
  import opened Bytes
  import opened Messages
  import opened Symbolic

  const RatchetInterval: nat := 10

  /** `local` numbers the local ratchet key pair. */
  datatype Session = Session(
    sessionId: Text,
    peer: Text,
    isInitiator: bool,
    root: Key,
    sendChain: Key,
    recvChain: Key,
    sendCounter: nat,
    recvCounter: nat,
    previousSendLength: nat,
    local: nat,
    remote: PublicKey)

  /** The fields that receiving changes. */
  datatype RecvHalf = RecvHalf(root: Key, chain: Key, counter: nat, remote: PublicKey)

  function RecvOf(s: Session): RecvHalf {
    RecvHalf(s.root, s.recvChain, s.recvCounter, s.remote)
  }

  function WithRecv(s: Session, h: RecvHalf): Session {
    s.(root := h.root, recvChain := h.chain, recvCounter := h.counter, remote := h.remote)
  }

  /** The DH ratchet of a received header; `None` when the key is unusable. */
  function RatchetRecv(h: RecvHalf, local: nat, key: Option<PublicKey>): Option<RecvHalf> {
    if key.None? || key.value == h.remote then Some(h) else
    match SharedSecret(local, key.value)
    case None => None
    case Some(dh) => Some(RecvHalf(RatchetRoot(dh, h.root), RatchetChain(dh, h.root), 0, key.value))
  }

  /** The receive half after a message, and its plaintext when it was accepted. The ratchet
      moves before the counter and the tag are checked. */
  function ReceiveHalf(h: RecvHalf, local: nat, m: Chat): (RecvHalf, Option<Text>) {
    match RatchetRecv(h, local, m.header.ratchetKey)
    case None => (h, None)
    case Some(r) =>
      if m.header.messageNumber != r.counter then (r, None) else
      match Open(MessageKey(r.chain, r.counter), m.nonce, m.ciphertext, ChatAssociatedData(m))
      case None => (r, None)
      case Some(p) => (r.(chain := NextChain(r.chain, r.counter), counter := r.counter + 1), Some(p))
  }

  function Receive(s: Session, m: Chat): (Session, Option<Text>) {
    if m.sessionId != s.sessionId then (s, None) else
    var (h, p) := ReceiveHalf(RecvOf(s), s.local, m);
    (WithRecv(s, h), p)
  }

  predicate RatchetsOnSend(s: Session) {
    s.sendCounter > 0 && s.sendCounter % RatchetInterval == 0
  }

  /** The session and header with which the next message is sealed; `newKey` is the key pair a
      ratchet generates. `None` when the ratchet's DH fails. */
  function PrepareSend(s: Session, newKey: nat): Option<(Session, MessageHeader<PublicKey>)> {
    if !RatchetsOnSend(s) then Some((s, MessageHeader(None, 0, s.sendCounter, 0))) else
    match SharedSecret(newKey, s.remote)
    case None => None
    case Some(dh) =>
      Some((s.(local := newKey, sendChain := RatchetChain(dh, s.root), root := RatchetRoot(dh, s.root),
               previousSendLength := s.sendCounter, sendCounter := 0),
            MessageHeader(Some(PublicKey(newKey)), s.previousSendLength, 0, 1)))
  }

  /** The message that session `s` of `user` seals under `header`. */
  function SealChat(s: Session, user: Text, header: MessageHeader<PublicKey>, plaintext: Text): Chat {
    ChatMessage(s.sessionId, user, s.peer, header, Nonce(s.sendCounter),
                Sealed(MessageKey(s.sendChain, s.sendCounter), Nonce(s.sendCounter), plaintext,
                       ChatData(s.sessionId, user, s.peer, header)))
  }

  function AdvanceSend(s: Session): Session {
    s.(sendChain := NextChain(s.sendChain, s.sendCounter), sendCounter := s.sendCounter + 1)
  }

  function Send(s: Session, user: Text, plaintext: Text, newKey: nat): Option<(Session, Chat)> {
    match PrepareSend(s, newKey)
    case None => None
    case Some((s', header)) => Some((AdvanceSend(s'), SealChat(s', user, header, plaintext)))
  }

  /** A message whose header makes the receiver ratchet: it carries a usable key that is not
      the one already in use. */
  predicate CarriesNewKey(s: Session, m: Chat) {
    m.header.ratchetKey.Some? && m.header.ratchetKey.value != s.remote && m.header.ratchetKey.value.PublicKey?
  }

  /** A rejected message leaves the session alone exactly when it names another session or its
      header carries no new ratchet key. */
  lemma RejectedUnchanged(s: Session, m: Chat)
    requires Receive(s, m).1.None?
    ensures Receive(s, m).0 == s <==> m.sessionId != s.sessionId || !CarriesNewKey(s, m)
  {
    assert WithRecv(s, RecvOf(s)) == s;
    if m.sessionId == s.sessionId && CarriesNewKey(s, m) {
      assert Receive(s, m).0.remote != s.remote;
    }
  }
}
