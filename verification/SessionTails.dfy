/** When a side misses nothing. The previous chain's length is never checked, so the tail of a chain
    can be skipped; on the hostile network of SessionSafety, what a side has accepted is a beginning
    of what its peer has sealed exactly when each chain from which it accepted was opened with the
    chain before it received to the end. */
module SessionTails {
  import opened Wrappers
  import opened Bytes
  import opened Messages
  import opened Symbolic
  import opened Sessions
  import opened KeyTerms
  import opened SessionSafety

  // ---- what a receiver can watch ----

  /** Whether the receive chain in use was opened with the one before it complete, and whether that
      was so for every chain a message was accepted from. */
  datatype Monitor = Monitor(openedFull: bool, kept: bool)

  /** The receiver looks at its own counter whenever a header moves its ratchet. */
  function Observe(w: Monitor, s: Session, m: Chat): Monitor {
    var moved := m.sessionId == s.sessionId && CarriesNewKey(s, m);
    var full := if moved then s.recvCounter == RatchetInterval else w.openedFull;
    Monitor(full, if Receive(s, m).1.Some? then w.kept && full else w.kept)
  }

  /** The monitors of x and y after an event. */
  function Watch(n: Network, e: Event, wx: Monitor, wy: Monitor): (Monitor, Monitor) {
    if !e.action.DeliverAction? then (wx, wy)
    else if e.flipped then (Observe(wx, n.x.session, e.action.message), wy)
    else (wx, Observe(wy, n.y.session, e.action.message))
  }

  function WatchRun(n: Network, events: seq<Event>, wx: Monitor, wy: Monitor): (Monitor, Monitor)
    decreases |events|
  {
    if events == [] then (wx, wy) else
    var (wx', wy') := Watch(n, events[0], wx, wy);
    WatchRun(Step(n, events[0]), events[1..], wx', wy')
  }

  // ---- root terms ----

  predicate Has(dh: Dh, k: nat) {
    dh.lo == k || dh.hi == k
  }

  /** The root right after the chain was opened. */
  function RootOf(base: Key): Key {
    match base
    case HandshakeChain(s, t, _) => HandshakeRoot(s, t)
    case RatchetChain(dh, r) => RatchetRoot(dh, r)
    case _ => base
  }

  predicate Within(root: Key, part: Key) {
    root == part || (root.RatchetRoot? && Within(root.root, part))
  }

  /** Everything mixed in since `from` involves key `k`. */
  predicate GrownBy(root: Key, from: Key, k: nat) {
    root == from || (root.RatchetRoot? && Has(root.dh, k) && GrownBy(root.root, from, k))
  }

  /** Of the given keys, nothing mixed in since `from` involves any but `k`. */
  predicate GrownForeign(root: Key, from: Key, k: nat, keys: seq<nat>) {
    root == from || (root.RatchetRoot? && Foreign(root.dh, k, keys) && GrownForeign(root.root, from, k, keys))
  }

  predicate Foreign(dh: Dh, k: nat, keys: seq<nat>) {
    forall i :: 0 <= i < |keys| && Has(dh, keys[i]) ==> keys[i] == k
  }

  predicate Young(root: Key, clock: nat) {
    root.RatchetRoot? ==> root.dh.lo < clock && root.dh.hi < clock && Young(root.root, clock)
  }

  lemma {:induction false} GrownDepth(root: Key, from: Key, k: nat)
    requires GrownBy(root, from, k)
    ensures Depth(root) >= Depth(from) && (Depth(root) == Depth(from) ==> root == from) && Within(root, from)
    decreases root
  {
    if root != from {
      GrownDepth(root.root, from, k);
    }
  }

  lemma {:induction false} WithinDepth(root: Key, part: Key)
    requires Within(root, part)
    ensures Depth(root) >= Depth(part)
    decreases root
  {
    if root != part {
      WithinDepth(root.root, part);
    }
  }

  lemma {:induction false} WithinTrans(a: Key, b: Key, c: Key)
    requires Within(a, b) && Within(b, c)
    ensures Within(a, c)
    decreases a
  {
    if a != b {
      WithinTrans(a.root, b, c);
    }
  }

  lemma {:induction false} YoungPart(root: Key, part: Key, clock: nat)
    requires Young(root, clock) && Within(root, part)
    ensures Young(part, clock)
    decreases root
  {
    if root != part {
      YoungPart(root.root, part, clock);
    }
  }

  lemma {:induction false} YoungLater(root: Key, clock: nat, later: nat)
    requires Young(root, clock) && clock <= later
    ensures Young(root, later)
    decreases root
  {
    if root.RatchetRoot? {
      YoungLater(root.root, clock, later);
    }
  }

  /** A key that was not there yet. */
  lemma {:induction false} ForeignToNew(root: Key, from: Key, k: nat, keys: seq<nat>, k2: nat)
    requires GrownForeign(root, from, k, keys) && Young(root, k2)
    ensures GrownForeign(root, from, k, keys + [k2])
    decreases root
  {
    if root != from {
      ForeignToNew(root.root, from, k, keys, k2);
    }
  }

  // ---- the chains a sender has opened ----

  /** The first keys of all send chains of x, and x's ratchet key in each. */
  datatype Line = Line(bases: seq<Key>, keys: seq<nat>)

  ghost predicate LineOk(x: Session, l: Line, clock: nat) {
    var n := |l.bases|;
    && n == |l.keys| && n > 0
    && l.keys[n-1] == x.local && Base(x.sendChain) == l.bases[n-1]
    && (forall i :: 0 <= i < n ==> l.keys[i] < clock)
    && (forall i, j :: 0 <= i < j < n ==> l.keys[i] != l.keys[j])
    && (forall i, j :: 0 <= i < j < n ==> Depth(RootOf(l.bases[i])) < Depth(RootOf(l.bases[j])))
    && l.bases[0].HandshakeChain?
    && (forall j :: 0 < j < n ==> Opened(l, j))
    && GrownBy(x.root, RootOf(l.bases[n-1]), l.keys[n-1])
    && Young(x.root, clock) && (x.remote.PublicKey? ==> x.remote.id < clock)
  }

  /** Chain j was opened from a root that x alone has grown since it opened the chain before. */
  predicate Opened(l: Line, j: nat)
    requires 0 < j < |l.bases| == |l.keys|
  {
    && l.bases[j].RatchetChain? && Has(l.bases[j].dh, l.keys[j])
    && GrownBy(l.bases[j].root, RootOf(l.bases[j-1]), l.keys[j-1])
  }

  /** A root that x can never reach: it grew from chain j by what x's keys have no part in. */
  ghost predicate Poison(p: Key, j: nat, l: Line) {
    && j < |l.bases| == |l.keys| && p.RatchetRoot?
    && GrownForeign(p.root, RootOf(l.bases[j]), l.keys[j], l.keys)
    && !Has(p.dh, l.keys[j])
    && (j + 1 < |l.bases| ==> p != RootOf(l.bases[j+1]))
  }

  lemma {:induction false} ForeignSkips(r: Key, j: nat, l: Line, x: Session, clock: nat)
    requires LineOk(x, l, clock) && j + 1 < |l.bases|
    requires GrownForeign(r, RootOf(l.bases[j]), l.keys[j], l.keys) && Within(r, RootOf(l.bases[j+1]))
    ensures false
    decreases r
  {
    assert Opened(l, j + 1);
    if r == RootOf(l.bases[j]) {
      WithinDepth(r, RootOf(l.bases[j+1]));
    } else if r != RootOf(l.bases[j+1]) {
      ForeignSkips(r.root, j, l, x, clock);
    }
  }

  /** What x has grown since chain i lies above all chains up to i. */
  lemma {:induction false} LineWithin(root: Key, i: nat, k: nat, l: Line, x: Session, clock: nat)
    requires LineOk(x, l, clock) && k <= i < |l.bases| && GrownBy(root, RootOf(l.bases[i]), l.keys[i])
    ensures Within(root, RootOf(l.bases[k]))
    decreases i
  {
    GrownDepth(root, RootOf(l.bases[i]), l.keys[i]);
    if k < i {
      assert Opened(l, i);
      LineWithin(l.bases[i].root, i - 1, k, l, x, clock);
      WithinTrans(root, RootOf(l.bases[i]), RootOf(l.bases[k]));
    }
  }

  lemma {:induction false} ForeignDepth(root: Key, from: Key, k: nat, keys: seq<nat>)
    requires GrownForeign(root, from, k, keys)
    ensures Depth(root) >= Depth(from)
    decreases root
  {
    if root != from {
      ForeignDepth(root.root, from, k, keys);
    }
  }

  /** No root of x contains poison. */
  lemma {:induction false} NotPoisoned(root: Key, i: nat, p: Key, j: nat, l: Line, x: Session, clock: nat)
    requires LineOk(x, l, clock) && Poison(p, j, l) && i < |l.bases| && GrownBy(root, RootOf(l.bases[i]), l.keys[i])
    requires j <= i || root == RootOf(l.bases[i])
    ensures !Within(root, p)
    decreases root
  {
    var b := RootOf(l.bases[i]);
    ForeignDepth(p.root, RootOf(l.bases[j]), l.keys[j], l.keys);
    if i < j || (root == b && i == j) {
      if Within(root, p) {
        WithinDepth(root, p);
      }
    } else if root == b {
      assert Opened(l, i);
      NotPoisoned(l.bases[i].root, i - 1, p, j, l, x, clock);
      if root == p && i > j + 1 {
        LineWithin(p.root, i - 1, j + 1, l, x, clock);
        ForeignSkips(p.root, j, l, x, clock);
      }
    } else {
      NotPoisoned(root.root, i, p, j, l, x, clock);
      if root == p && i > j {
        LineWithin(p.root, i, j + 1, l, x, clock);
        ForeignSkips(p.root, j, l, x, clock);
      }
    }
  }

  // ---- the receiver, seen from the sender's chains ----

  datatype Status = On(j: nat) | Lost(j: nat, poison: Key)

  ghost predicate ReceiverOk(y: Session, st: Status, l: Line, clock: nat) {
    && |l.bases| == |l.keys| && st.j < |l.bases|
    && y.local < clock && y.local !in l.keys
    && Young(y.root, clock) && (y.remote.PublicKey? ==> y.remote.id < clock)
    && match st
       case On(j) =>
         && Base(y.recvChain) == l.bases[j] && y.remote == PublicKey(l.keys[j])
         && GrownForeign(y.root, RootOf(l.bases[j]), l.keys[j], l.keys)
       case Lost(j, p) =>
         && Poison(p, j, l) && Within(y.root, p)
         && Base(y.recvChain).RatchetChain? && Within(RootOf(Base(y.recvChain)), p)
  }

  /** The i-th sealed message is the one at position i mod 10 of chain i / 10. */
  ghost predicate SealedBy(x: Side, l: Line) {
    && |l.bases| > 0 && x.session.sendCounter <= RatchetInterval
    && |x.sealedLog| == RatchetInterval * (|l.bases| - 1) + x.session.sendCounter
    && (forall i :: 0 <= i < |x.sealedLog| ==> Placed(x.sealedLog[i], i, l))
  }

  predicate Placed(c: Ciphertext, i: nat, l: Line) {
    && c.Sealed? && i / RatchetInterval < |l.bases|
    && Base(c.key.chain) == l.bases[i / RatchetInterval] && c.key.counter == i % RatchetInterval
  }

  // ---- the ratchets ----

  /** x opens its next chain. */
  lemma SenderRatchets(x: Session, y: Session, st: Status, l: Line, clock: nat)
    requires LineOk(x, l, clock) && ReceiverOk(y, st, l, clock) && RatchetsOnSend(x) && PrepareSend(x, clock).Some?
    ensures var x' := PrepareSend(x, clock).value.0;
            var l' := Line(l.bases + [x'.sendChain], l.keys + [clock]);
            LineOk(x', l', clock + 1) && ReceiverOk(y, st, l', clock + 1)
  {
    var x' := PrepareSend(x, clock).value.0;
    var l' := Line(l.bases + [x'.sendChain], l.keys + [clock]);
    SenderLine(x, l, clock);
    SenderLeavesReceiver(y, st, l, x'.sendChain, clock);
  }

  lemma SenderLine(x: Session, l: Line, clock: nat)
    requires LineOk(x, l, clock) && RatchetsOnSend(x) && PrepareSend(x, clock).Some?
    ensures var x' := PrepareSend(x, clock).value.0;
            LineOk(x', Line(l.bases + [x'.sendChain], l.keys + [clock]), clock + 1)
  {
    var x' := PrepareSend(x, clock).value.0;
    var l' := Line(l.bases + [x'.sendChain], l.keys + [clock]);
    var n := |l.bases|;
    YoungLater(x.root, clock, clock + 1);
    GrownDepth(x.root, RootOf(l.bases[n-1]), l.keys[n-1]);
    forall i, j | 0 <= i < j < n + 1 ensures Depth(RootOf(l'.bases[i])) < Depth(RootOf(l'.bases[j])) {
      if j == n && i < n - 1 {
        assert Depth(RootOf(l.bases[i])) < Depth(RootOf(l.bases[n-1]));
      }
    }
    forall j | 0 < j < n + 1 ensures Opened(l', j) {
      if j < n {
        assert Opened(l, j);
      }
    }
  }

  lemma SenderLeavesReceiver(y: Session, st: Status, l: Line, base: Key, clock: nat)
    requires ReceiverOk(y, st, l, clock) && base.RatchetChain? && Has(base.dh, clock)
    ensures ReceiverOk(y, st, Line(l.bases + [base], l.keys + [clock]), clock + 1)
  {
    YoungLater(y.root, clock, clock + 1);
    match st
    case On(j) => ForeignToNew(y.root, RootOf(l.bases[j]), l.keys[j], l.keys, clock);
    case Lost(j, p) =>
      YoungPart(y.root, p, clock);
      ForeignToNew(p.root, RootOf(l.bases[j]), l.keys[j], l.keys, clock);
  }

  /** x's own receive ratchet mixes its own key. */
  lemma SenderReceives(x: Session, l: Line, key: PublicKey, clock: nat)
    requires LineOk(x, l, clock) && (key.PublicKey? ==> key.id < clock)
    requires RatchetRecv(RecvOf(x), x.local, Some(key)).Some? && l.keys[|l.keys|-1] < clock
    ensures LineOk(WithRecv(x, RatchetRecv(RecvOf(x), x.local, Some(key)).value), l, clock)
  {
    forall j | 0 < j < |l.bases| ensures Opened(l, j) {
    }
  }

  /** y's own send ratchet mixes a new key with x's key in use. */
  lemma ReceiverRatchets(y: Session, st: Status, l: Line, clock: nat)
    requires ReceiverOk(y, st, l, clock) && RatchetsOnSend(y) && PrepareSend(y, clock).Some?
    requires forall i :: 0 <= i < |l.keys| ==> l.keys[i] < clock
    ensures ReceiverOk(PrepareSend(y, clock).value.0, st, l, clock + 1)
  {
    YoungLater(y.root, clock, clock + 1);
  }

  /** Whether a moving ratchet follows x into its next chain. */
  predicate Follows(y: Session, key: PublicKey, j: nat, l: Line) {
    && RatchetRecv(RecvOf(y), y.local, Some(key)).Some? && j + 1 < |l.bases|
    && RatchetRecv(RecvOf(y), y.local, Some(key)).value.chain == l.bases[j+1]
  }

  function StatusAfter(y: Session, st: Status, key: PublicKey, l: Line): Status
    requires RatchetRecv(RecvOf(y), y.local, Some(key)).Some?
  {
    match st
    case On(j) => if Follows(y, key, j, l) then On(j + 1) else Lost(j, RatchetRecv(RecvOf(y), y.local, Some(key)).value.root)
    case Lost(_, _) => st
  }

  lemma ReceiverMoves(y: Session, st: Status, key: PublicKey, x: Session, l: Line, clock: nat)
    requires LineOk(x, l, clock) && ReceiverOk(y, st, l, clock) && key.PublicKey? && key.id < clock && key != y.remote
    ensures RatchetRecv(RecvOf(y), y.local, Some(key)).Some?
    ensures ReceiverOk(WithRecv(y, RatchetRecv(RecvOf(y), y.local, Some(key)).value), StatusAfter(y, st, key, l), l, clock)
  {
    if st.On? && Follows(y, key, st.j, l) {
      assert Opened(l, st.j + 1);
      assert l.keys[st.j + 1] in l.keys;
    } else if st.On? {
      assert l.keys[st.j] in l.keys;
      assert st.j + 1 < |l.bases| ==> Opened(l, st.j + 1);
    }
  }

  // ---- positions in the log ----

  /** Where the accepted log stands: always a beginning of the sealed log if the monitor says so;
      inside a chain, its last entry is the one before the next expected; and at the beginning of a
      chain it can go on only if that chain was opened full. */
  ghost predicate AtPlace(accepted: Log, sealedLog: Log, counter: nat, st: Status, w: Monitor) {
    && (w.kept <==> accepted <= sealedLog)
    && (st.On? ==>
          var at := RatchetInterval * st.j + counter;
          && (counter > 0 ==> (w.kept ==> w.openedFull) && accepted != [] && 0 < at <= |sealedLog| && accepted[|accepted|-1] == sealedLog[at-1])
          && (counter == 0 && accepted <= sealedLog ==> (w.openedFull <==> |accepted| == at)))
  }

  lemma BasesDiffer(x: Session, l: Line, clock: nat)
    requires LineOk(x, l, clock)
    ensures forall a, b :: 0 <= a < |l.bases| && 0 <= b < |l.bases| && l.bases[a] == l.bases[b] ==> a == b
  {
    forall a, b | 0 <= a < |l.bases| && 0 <= b < |l.bases| && a != b ensures l.bases[a] != l.bases[b] {
      assert if a < b then Depth(RootOf(l.bases[a])) < Depth(RootOf(l.bases[b])) else Depth(RootOf(l.bases[b])) < Depth(RootOf(l.bases[a]));
    }
  }

  lemma PlaceUnique(x: Side, l: Line, clock: nat, i: nat, j: nat)
    requires LineOk(x.session, l, clock) && SealedBy(x, l) && i < |x.sealedLog| && j < |x.sealedLog|
    requires x.sealedLog[i].key.counter == x.sealedLog[j].key.counter && Base(x.sealedLog[i].key.chain) == Base(x.sealedLog[j].key.chain)
    ensures i == j
  {
    assert Placed(x.sealedLog[i], i, l) && Placed(x.sealedLog[j], j, l);
    BasesDiffer(x.session, l, clock);
  }

  /** A sealed message of the chain that is being received is where its counter says. */
  lemma FoundAt(x: Side, l: Line, clock: nat, c: Ciphertext, j: nat, counter: nat)
    requires LineOk(x.session, l, clock) && SealedBy(x, l) && c in x.sealedLog
    requires j < |l.bases| && Base(c.key.chain) == l.bases[j] && c.key.counter == counter
    ensures var at := RatchetInterval * j + counter; at < |x.sealedLog| && x.sealedLog[at] == c
  {
    var i :| 0 <= i < |x.sealedLog| && x.sealedLog[i] == c;
    assert Placed(c, i, l);
    BasesDiffer(x.session, l, clock);
    assert i == RatchetInterval * (i / RatchetInterval) + i % RatchetInterval;
  }

  /** The length of an accepted beginning, from its last entry. */
  lemma LengthOf(x: Side, l: Line, clock: nat, accepted: Log, at: nat)
    requires LineOk(x.session, l, clock) && SealedBy(x, l) && accepted != [] && accepted <= x.sealedLog
    requires 0 < at <= |x.sealedLog| && accepted[|accepted|-1] == x.sealedLog[at-1]
    ensures |accepted| == at
  {
    assert accepted[|accepted|-1] == x.sealedLog[|accepted|-1];
    PlaceUnique(x, l, clock, |accepted|-1, at-1);
  }

  ghost predicate Direction(x: Side, y: Side, clock: nat, l: Line, st: Status, w: Monitor) {
    && LineOk(x.session, l, clock) && ReceiverOk(y.session, st, l, clock) && SealedBy(x, l)
    && (forall c :: c in y.accepted ==> c in x.sealedLog)
    && ChainOf(y.session.recvChain, y.session.recvCounter, y.accepted)
    && AtPlace(y.accepted, x.sealedLog, y.session.recvCounter, st, w)
  }

  // ---- sending ----

  lemma PlacedLater(x: Side, l: Line, base: Key, k: nat)
    requires SealedBy(x, l)
    ensures forall i :: 0 <= i < |x.sealedLog| ==> Placed(x.sealedLog[i], i, Line(l.bases + [base], l.keys + [k]))
  {
    forall i | 0 <= i < |x.sealedLog| ensures Placed(x.sealedLog[i], i, Line(l.bases + [base], l.keys + [k])) {
      assert Placed(x.sealedLog[i], i, l);
    }
  }

  /** The line after x has prepared a message. */
  function LineAfter(x: Session, l: Line, clock: nat): Line {
    if RatchetsOnSend(x) && x.remote.PublicKey? then Line(l.bases + [PrepareSend(x, clock).value.0.sendChain], l.keys + [clock]) else l
  }

  lemma PreparedLine(x: Side, y: Side, clock: nat, l: Line, st: Status)
    requires LineOk(x.session, l, clock) && ReceiverOk(y.session, st, l, clock) && SealedBy(x, l)
    requires PrepareSend(x.session, clock).Some?
    ensures var u, l' := PrepareSend(x.session, clock).value.0, LineAfter(x.session, l, clock);
            && LineOk(u, l', clock + 1) && ReceiverOk(y.session, st, l', clock + 1)
            && SealedBy(x.(session := u), l') && u.sendCounter < RatchetInterval
  {
    if RatchetsOnSend(x.session) {
      SenderRatchets(x.session, y.session, st, l, clock);
      PlacedLater(x, l, PrepareSend(x.session, clock).value.0.sendChain, clock);
    } else {
      LineLater(x.session, l, clock);
      ReceiverLater(y.session, st, l, clock);
    }
  }

  lemma LineLater(x: Session, l: Line, clock: nat)
    requires LineOk(x, l, clock)
    ensures LineOk(x, l, clock + 1)
  {
    YoungLater(x.root, clock, clock + 1);
  }

  lemma ReceiverLater(y: Session, st: Status, l: Line, clock: nat)
    requires ReceiverOk(y, st, l, clock)
    ensures ReceiverOk(y, st, l, clock + 1)
  {
    YoungLater(y.root, clock, clock + 1);
  }

  lemma LongerHas(accepted: Log, sealedLog: Log, s: Ciphertext)
    requires accepted <= sealedLog + [s] && !(accepted <= sealedLog)
    ensures s in accepted
  {
    assert |accepted| == |sealedLog| + 1;
    assert accepted[|sealedLog|] == s;
  }

  lemma GrownLog(accepted: Log, sealedLog: Log, s: Ciphertext, counter: nat, st: Status, w: Monitor)
    requires AtPlace(accepted, sealedLog, counter, st, w) && (forall c :: c in accepted ==> c in sealedLog) && s !in sealedLog
    ensures AtPlace(accepted, sealedLog + [s], counter, st, w)
  {
    if accepted <= sealedLog + [s] && !(accepted <= sealedLog) {
      LongerHas(accepted, sealedLog, s);
    }
  }

  /** One more message in its place, and none like it before. */
  lemma SealedNext(x: Side, v: Session, c: Ciphertext, l: Line, clock: nat)
    requires LineOk(v, l, clock) && SealedBy(x, l) && x.session.sendCounter < RatchetInterval && v.sendCounter == x.session.sendCounter + 1
    requires c.Sealed? && Base(c.key.chain) == l.bases[|l.bases|-1] && c.key.counter == x.session.sendCounter
    ensures SealedBy(x.(session := v, sealedLog := x.sealedLog + [c]), l) && c !in x.sealedLog
  {
    var i, x' := |x.sealedLog|, x.(session := v, sealedLog := x.sealedLog + [c]);
    assert i / RatchetInterval == |l.bases| - 1 && i % RatchetInterval == x.session.sendCounter;
    assert Placed(c, i, l);
    forall k | 0 <= k < i + 1 ensures Placed(x'.sealedLog[k], k, l) {
      if k < i {
        assert Placed(x.sealedLog[k], k, l);
      }
    }
    BasesDiffer(v, l, clock);
    forall k | 0 <= k < i ensures x.sealedLog[k] != c {
      assert Placed(x.sealedLog[k], k, l);
      assert k == RatchetInterval * (k / RatchetInterval) + k % RatchetInterval;
    }
  }

  lemma SendIs(s: Session, user: Text, plaintext: Text, newKey: nat)
    requires Send(s, user, plaintext, newKey).Some?
    ensures var (v, m) := Send(s, user, plaintext, newKey).value;
            && PrepareSend(s, newKey).Some?
            && var u := PrepareSend(s, newKey).value.0;
               v == AdvanceSend(u) && m.ciphertext.Sealed? && m.ciphertext.key == MessageKey(u.sendChain, u.sendCounter)
  {
  }

  lemma SendDirection(x: Side, y: Side, plaintext: Text, clock: nat, l: Line, st: Status, w: Monitor)
    requires Direction(x, y, clock, l, st, w) && Send(x.session, x.user, plaintext, clock).Some?
    ensures var (v, m) := Send(x.session, x.user, plaintext, clock).value;
            Direction(x.(session := v, sealedLog := x.sealedLog + [m.ciphertext]), y, clock + 1, LineAfter(x.session, l, clock), st, w)
  {
    SendIs(x.session, x.user, plaintext, clock);
    var u := PrepareSend(x.session, clock).value.0;
    PreparedLine(x, y, clock, l, st);
    SealDirection(x, y, u, Send(x.session, x.user, plaintext, clock).value.1.ciphertext, clock + 1, LineAfter(x.session, l, clock), st, w);
  }

  lemma SealDirection(x: Side, y: Side, u: Session, c: Ciphertext, clock: nat, l: Line, st: Status, w: Monitor)
    requires LineOk(u, l, clock) && ReceiverOk(y.session, st, l, clock) && SealedBy(x.(session := u), l) && u.sendCounter < RatchetInterval
    requires forall d :: d in y.accepted ==> d in x.sealedLog
    requires ChainOf(y.session.recvChain, y.session.recvCounter, y.accepted)
    requires AtPlace(y.accepted, x.sealedLog, y.session.recvCounter, st, w)
    requires c.Sealed? && c.key == MessageKey(u.sendChain, u.sendCounter)
    ensures Direction(x.(session := AdvanceSend(u), sealedLog := x.sealedLog + [c]), y, clock, l, st, w)
  {
    AdvancedLine(u, l, clock);
    SealedNext(x.(session := u), AdvanceSend(u), c, l, clock);
    GrownLog(y.accepted, x.sealedLog, c, y.session.recvCounter, st, w);
  }

  lemma AdvancedLine(u: Session, l: Line, clock: nat)
    requires LineOk(u, l, clock)
    ensures LineOk(AdvanceSend(u), l, clock)
  {
  }

  lemma PeerSendDirection(x: Side, y: Side, plaintext: Text, clock: nat, l: Line, st: Status, w: Monitor)
    requires Direction(x, y, clock, l, st, w) && Send(y.session, y.user, plaintext, clock).Some?
    ensures var (u, m) := Send(y.session, y.user, plaintext, clock).value;
            Direction(x, y.(session := u, sealedLog := y.sealedLog + [m.ciphertext]), clock + 1, l, st, w)
  {
    LineLater(x.session, l, clock);
    if RatchetsOnSend(y.session) {
      ReceiverRatchets(y.session, st, l, clock);
    } else {
      ReceiverLater(y.session, st, l, clock);
    }
  }

  // ---- receiving ----

  /** A receiver that has left x's chains is in none of them. */
  lemma LostHearsNothing(x: Side, y: Session, st: Status, l: Line, clock: nat, c: Ciphertext)
    requires LineOk(x.session, l, clock) && ReceiverOk(y, st, l, clock) && SealedBy(x, l) && st.Lost? && c in x.sealedLog
    ensures Base(c.key.chain) != Base(y.recvChain)
  {
    var k :| 0 <= k < |x.sealedLog| && x.sealedLog[k] == c;
    assert Placed(c, k, l);
    var i := k / RatchetInterval;
    NotPoisoned(RootOf(l.bases[i]), i, st.poison, st.j, l, x.session, clock);
  }

  /** At the beginning of a chain nothing of it has been accepted. */
  lemma NothingOfChain(x: Side, l: Line, accepted: Log, chain: Key, j: nat)
    requires SealedBy(x, l) && accepted <= x.sealedLog && ChainOf(chain, 0, accepted)
    requires j < |l.bases| && Base(chain) == l.bases[j]
    ensures |accepted| != RatchetInterval * (j + 1)
  {
    if accepted != [] {
      var i := |accepted| - 1;
      assert Placed(x.sealedLog[i], i, l) && accepted[i] == x.sealedLog[i];
      assert Precedes(accepted[i].key, MessageKey(chain, 0));
      assert i / RatchetInterval != j;
    }
  }

  /** The ratchet moves: a chain that is followed has been opened full exactly when everything
      before it has been accepted. */
  lemma MoveAtPlace(x: Side, y: Side, key: PublicKey, clock: nat, l: Line, st: Status, w: Monitor)
    requires Direction(x, y, clock, l, st, w) && RatchetRecv(RecvOf(y.session), y.session.local, Some(key)).Some?
    ensures AtPlace(y.accepted, x.sealedLog, 0, StatusAfter(y.session, st, key, l), Monitor(y.session.recvCounter == RatchetInterval, w.kept))
  {
    var c := y.session.recvCounter;
    if st.On? && Follows(y.session, key, st.j, l) && y.accepted <= x.sealedLog {
      if c > 0 {
        LengthOf(x, l, clock, y.accepted, RatchetInterval * st.j + c);
      } else {
        NothingOfChain(x, l, y.accepted, y.session.recvChain, st.j);
      }
    }
  }

  lemma AcceptAtPlace(x: Side, l: Line, clock: nat, accepted: Log, c: Ciphertext, counter: nat, st: Status, w: Monitor)
    requires LineOk(x.session, l, clock) && SealedBy(x, l) && st.On? && AtPlace(accepted, x.sealedLog, counter, st, w)
    requires var at := RatchetInterval * st.j + counter; at < |x.sealedLog| && x.sealedLog[at] == c
    ensures AtPlace(accepted + [c], x.sealedLog, counter + 1, st, w.(kept := w.kept && w.openedFull))
  {
    var at := RatchetInterval * st.j + counter;
    PrefixPush(accepted, x.sealedLog, c);
    if accepted <= x.sealedLog && counter > 0 {
      LengthOf(x, l, clock, accepted, at);
    }
    if accepted <= x.sealedLog && |accepted| < |x.sealedLog| && x.sealedLog[|accepted|] == c {
      PlaceUnique(x, l, clock, |accepted|, at);
    }
  }

  lemma PrefixPush(accepted: Log, sealedLog: Log, c: Ciphertext)
    ensures accepted + [c] <= sealedLog <==> accepted <= sealedLog && |accepted| < |sealedLog| && sealedLog[|accepted|] == c
  {
    if accepted + [c] <= sealedLog {
      assert (accepted + [c])[|accepted|] == c;
      assert accepted == (accepted + [c])[..|accepted|] == sealedLog[..|accepted|];
    }
  }

  /** The receiver after the ratchet of a header and before its counter is looked at. */
  function Moved(y: Side, m: Chat): Side {
    if m.sessionId == y.session.sessionId && CarriesNewKey(y.session, m)
    then y.(session := WithRecv(y.session, RatchetRecv(RecvOf(y.session), y.session.local, m.header.ratchetKey).value)) else y
  }

  function MovedStatus(y: Side, m: Chat, l: Line, st: Status): Status {
    if m.sessionId == y.session.sessionId && CarriesNewKey(y.session, m)
    then StatusAfter(y.session, st, m.header.ratchetKey.value, l) else st
  }

  function MovedMonitor(y: Side, m: Chat, w: Monitor): Monitor {
    if m.sessionId == y.session.sessionId && CarriesNewKey(y.session, m) then w.(openedFull := y.session.recvCounter == RatchetInterval) else w
  }

  lemma MoveDirection(x: Side, y: Side, m: Chat, clock: nat, l: Line, st: Status, w: Monitor)
    requires Direction(x, y, clock, l, st, w)
    requires m.header.ratchetKey.Some? && m.header.ratchetKey.value.PublicKey? ==> m.header.ratchetKey.value.id < clock
    requires ChainOf(Moved(y, m).session.recvChain, Moved(y, m).session.recvCounter, y.accepted)
    ensures Direction(x, Moved(y, m), clock, l, MovedStatus(y, m, l, st), MovedMonitor(y, m, w))
  {
    if m.sessionId == y.session.sessionId && CarriesNewKey(y.session, m) {
      ReceiverMoves(y.session, st, m.header.ratchetKey.value, x.session, l, clock);
      MoveAtPlace(x, y, m.header.ratchetKey.value, clock, l, st, w);
    }
  }

  lemma AcceptDirection(x: Side, y: Side, c: Ciphertext, clock: nat, l: Line, st: Status, w: Monitor)
    requires Direction(x, y, clock, l, st, w) && c in x.sealedLog && c.Sealed?
    requires c.key == MessageKey(y.session.recvChain, y.session.recvCounter)
    ensures var h := RecvOf(y.session).(chain := NextChain(y.session.recvChain, y.session.recvCounter), counter := y.session.recvCounter + 1);
            Direction(x, Side(y.user, WithRecv(y.session, h), y.sealedLog, y.accepted + [c]), clock, l, st, w.(kept := w.kept && w.openedFull))
  {
    if st.Lost? {
      LostHearsNothing(x, y.session, st, l, clock, c);
    } else {
      FoundAt(x, l, clock, c, st.j, y.session.recvCounter);
      AcceptAtPlace(x, l, clock, y.accepted, c, y.session.recvCounter, st, w);
      ChainUse(y.session.recvChain, y.session.recvCounter, y.accepted, c);
    }
  }

  /** What receiving is, from the moved receiver on. */
  lemma ReceiveIs(y: Side, m: Chat)
    ensures var (u, p) := Receive(y.session, m);
            var v := Moved(y, m).session;
            && (p.None? ==> u == v)
            && (p.Some? ==>
                  && m.ciphertext.Sealed? && m.ciphertext.key == MessageKey(v.recvChain, v.recvCounter)
                  && u == WithRecv(v, RecvOf(v).(chain := NextChain(v.recvChain, v.recvCounter), counter := v.recvCounter + 1)))
  {
    assert WithRecv(y.session, RecvOf(y.session)) == y.session;
  }

  lemma ReceiveDirection(x: Side, y: Side, m: Chat, clock: nat, l: Line, st: Status, w: Monitor)
    requires Direction(x, y, clock, l, st, w)
    requires m.header.ratchetKey.Some? && m.header.ratchetKey.value.PublicKey? ==> m.header.ratchetKey.value.id < clock
    requires ChainOf(Moved(y, m).session.recvChain, Moved(y, m).session.recvCounter, y.accepted)
    requires Receive(y.session, m).1.Some? ==> m.ciphertext in x.sealedLog
    ensures var (u, p) := Receive(y.session, m);
            Direction(x, y.(session := u, accepted := if p.Some? then y.accepted + [m.ciphertext] else y.accepted), clock, l,
                      MovedStatus(y, m, l, st), Observe(w, y.session, m))
  {
    MoveDirection(x, y, m, clock, l, st, w);
    ReceiveIs(y, m);
    if Receive(y.session, m).1.Some? {
      AcceptDirection(x, Moved(y, m), m.ciphertext, clock, l, MovedStatus(y, m, l, st), MovedMonitor(y, m, w));
    }
  }

  lemma PeerReceiveDirection(x: Side, y: Side, m: Chat, clock: nat, l: Line, st: Status, w: Monitor, accepted: Log)
    requires Direction(x, y, clock, l, st, w)
    requires m.header.ratchetKey.Some? && m.header.ratchetKey.value.PublicKey? ==> m.header.ratchetKey.value.id < clock
    ensures Direction(x.(session := Receive(x.session, m).0, accepted := accepted), y, clock, l, st, w)
  {
    ReceiveIs(x, m);
    if m.sessionId == x.session.sessionId && CarriesNewKey(x.session, m) {
      SenderReceives(x.session, l, m.header.ratchetKey.value, clock);
    }
  }

  // ---- whole runs ----

  lemma LaterDirection(x: Side, y: Side, clock: nat, l: Line, st: Status, w: Monitor)
    requires Direction(x, y, clock, l, st, w)
    ensures Direction(x, y, clock + 1, l, st, w)
  {
    LineLater(x.session, l, clock);
    ReceiverLater(y.session, st, l, clock);
  }

  /** The chain of a side after a ratchet has moved, from the invariant of SessionSafety. */
  lemma MovedChain(y: Side, m: Chat, origin: (HandshakeSecret, Transcript))
    requires SideInv(y, origin)
    ensures ChainOf(Moved(y, m).session.recvChain, Moved(y, m).session.recvCounter, y.accepted)
  {
    if m.sessionId == y.session.sessionId && CarriesNewKey(y.session, m) {
      RatchetRecvSide(y, m.header.ratchetKey, origin);
    }
  }

  /** The line of x and the status of y after an action. */
  function LineNext(n: Network, a: Action, l: Line): Line {
    if a.SendAction? && Send(n.x.session, n.x.user, a.plaintext, n.clock).Some? then LineAfter(n.x.session, l, n.clock) else l
  }

  function StatusNext(n: Network, a: Action, l: Line, st: Status): Status {
    if a.DeliverAction? then MovedStatus(n.y, a.message, l, st) else st
  }

  function MonitorNext(n: Network, a: Action, w: Monitor): Monitor {
    if a.DeliverAction? then Observe(w, n.y.session, a.message) else w
  }

  lemma SendForward(n: Network, a: Action, l: Line, st: Status, w: Monitor)
    requires a.SendAction? && Direction(n.x, n.y, n.clock, l, st, w)
    ensures Direction(Act(n, a).x, Act(n, a).y, Act(n, a).clock, LineNext(n, a, l), st, w)
  {
    if Send(n.x.session, n.x.user, a.plaintext, n.clock).Some? {
      SendDirection(n.x, n.y, a.plaintext, n.clock, l, st, w);
      ActSends(n, a.plaintext);
    }
  }

  lemma ActSends(n: Network, plaintext: Text)
    requires Send(n.x.session, n.x.user, plaintext, n.clock).Some?
    ensures var (u, m) := Send(n.x.session, n.x.user, plaintext, n.clock).value;
            var t := Act(n, SendAction(plaintext));
            t.x == n.x.(session := u, sealedLog := n.x.sealedLog + [m.ciphertext]) && t.y == n.y && t.clock == n.clock + 1
  {
  }

  lemma SendBackward(n: Network, a: Action, k: Line, su: Status, v: Monitor)
    requires a.SendAction? && Direction(n.y, n.x, n.clock, k, su, v)
    ensures Direction(Act(n, a).y, Act(n, a).x, Act(n, a).clock, k, su, v)
  {
    if Send(n.x.session, n.x.user, a.plaintext, n.clock).Some? {
      PeerSendDirection(n.y, n.x, a.plaintext, n.clock, k, su, v);
    }
  }

  lemma DeliverForward(n: Network, a: Action, l: Line, st: Status, w: Monitor)
    requires a.DeliverAction? && Inv(n) && Deliverable(n, a.message) && Direction(n.x, n.y, n.clock, l, st, w)
    ensures Direction(Act(n, a).x, Act(n, a).y, Act(n, a).clock, l, StatusNext(n, a, l, st), MonitorNext(n, a, w))
  {
    ActKeepsInv(n, a);
    MovedChain(n.y, a.message, Origin(n.x.session.root));
    if Receive(n.y.session, a.message).1.Some? {
      DeliveredSealed(n, a.message);
    }
    ReceiveDirection(n.x, n.y, a.message, n.clock, l, st, w);
  }

  lemma DeliverBackward(n: Network, a: Action, k: Line, su: Status, v: Monitor)
    requires a.DeliverAction? && Deliverable(n, a.message) && Direction(n.y, n.x, n.clock, k, su, v)
    ensures Direction(Act(n, a).y, Act(n, a).x, Act(n, a).clock, k, su, v)
  {
    PeerReceiveDirection(n.y, n.x, a.message, n.clock, k, su, v, Act(n, a).y.accepted);
  }

  lemma KeygenForward(n: Network, l: Line, st: Status, w: Monitor)
    requires Direction(n.x, n.y, n.clock, l, st, w)
    ensures var t := Act(n, KeygenAction); Direction(t.x, t.y, t.clock, l, st, w)
  {
    LaterDirection(n.x, n.y, n.clock, l, st, w);
  }

  /** x acts or its messages are delivered; both directions go on. */
  lemma ActForward(n: Network, a: Action, l: Line, st: Status, w: Monitor)
    requires Inv(n) && (a.DeliverAction? ==> Deliverable(n, a.message)) && Direction(n.x, n.y, n.clock, l, st, w)
    ensures Direction(Act(n, a).x, Act(n, a).y, Act(n, a).clock, LineNext(n, a, l), StatusNext(n, a, l, st), MonitorNext(n, a, w))
  {
    match a
    case SendAction(_) => SendForward(n, a, l, st, w);
    case DeliverAction(_) => DeliverForward(n, a, l, st, w);
    case KeygenAction => KeygenForward(n, l, st, w);
  }

  lemma ActBackward(n: Network, a: Action, k: Line, su: Status, v: Monitor)
    requires (a.DeliverAction? ==> Deliverable(n, a.message)) && Direction(n.y, n.x, n.clock, k, su, v)
    ensures Direction(Act(n, a).y, Act(n, a).x, Act(n, a).clock, k, su, v)
  {
    match a
    case SendAction(_) => SendBackward(n, a, k, su, v);
    case DeliverAction(_) => DeliverBackward(n, a, k, su, v);
    case KeygenAction => KeygenForward(Flip(n), k, su, v);
  }

  lemma DeliveredSealed(n: Network, m: Chat)
    requires Inv(Act(n, DeliverAction(m))) && Receive(n.y.session, m).1.Some?
    ensures m.ciphertext in n.x.sealedLog
  {
    var t := Act(n, DeliverAction(m));
    assert t.y.accepted[|n.y.accepted|] == m.ciphertext;
    assert m.ciphertext in t.y.accepted;
  }

  /** Both directions, each with its sender's line, its receiver's status and its monitor. */
  ghost predicate Directions(n: Network, l: Line, st: Status, wy: Monitor, k: Line, su: Status, wx: Monitor) {
    Direction(n.x, n.y, n.clock, l, st, wy) && Direction(n.y, n.x, n.clock, k, su, wx)
  }

  lemma ActDirections(n: Network, a: Action, l: Line, st: Status, wy: Monitor, k: Line, su: Status, wx: Monitor)
    requires Inv(n) && (a.DeliverAction? ==> Deliverable(n, a.message)) && Directions(n, l, st, wy, k, su, wx)
    ensures Inv(Act(n, a)) && Directions(Act(n, a), LineNext(n, a, l), StatusNext(n, a, l, st), MonitorNext(n, a, wy), k, su, wx)
  {
    ActKeepsInv(n, a);
    ActForward(n, a, l, st, wy);
    ActBackward(n, a, k, su, wx);
  }

  lemma {:induction false} RunDirections(n: Network, events: seq<Event>, l: Line, st: Status, wy: Monitor, k: Line, su: Status, wx: Monitor)
    requires Inv(n) && PossibleRun(n, events) && Directions(n, l, st, wy, k, su, wx)
    ensures var t := Run(n, events);
            var (vx, vy) := WatchRun(n, events, wx, wy);
            && (vy.kept <==> t.y.accepted <= t.x.sealedLog)
            && (vx.kept <==> t.x.accepted <= t.y.sealedLog)
    decreases |events|
  {
    if events != [] {
      var e, tail := events[0], events[1..];
      if e.flipped {
        FlipInv(n);
        ActDirections(Flip(n), e.action, k, su, wx, l, st, wy);
        FlipInv(Act(Flip(n), e.action));
        RunDirections(Step(n, e), tail, l, st, wy, LineNext(Flip(n), e.action, k), StatusNext(Flip(n), e.action, k, su),
                      MonitorNext(Flip(n), e.action, wx));
      } else {
        ActDirections(n, e.action, l, st, wy, k, su, wx);
        RunDirections(Step(n, e), tail, LineNext(n, e.action, l), StatusNext(n, e.action, l, st), MonitorNext(n, e.action, wy), k, su, wx);
      }
    }
  }

  lemma FlipInv(n: Network)
    requires Inv(n)
    ensures Inv(Flip(n))
  {
  }

  const Fresh: Monitor := Monitor(true, true)

  lemma StartDirections(n: Network, first: Ciphertext)
    requires Start(n, first) && n.x.session.local != n.y.session.local
    ensures Direction(n.x, n.y, n.clock, Line([first.key.chain], [n.x.session.local]), On(0), Fresh)
    ensures Direction(n.y, n.x, n.clock, Line([n.y.session.sendChain], [n.y.session.local]), On(0), Fresh)
  {
    StartInv(n, first);
    assert Placed(first, 0, Line([first.key.chain], [n.x.session.local]));
  }

  /** Nothing missed. In every run on the hostile network, what a side has accepted is a beginning of
      what its peer has sealed if and only if, for every chain from which it accepted a message, the
      ratchet into that chain moved when its receive counter stood at ten. Otherwise the tail of a
      chain, or a whole chain, has been skipped for good. */
  lemma PrefixIff(n: Network, first: Ciphertext, events: seq<Event>)
    requires Start(n, first) && n.x.session.local != n.y.session.local && PossibleRun(n, events)
    ensures var t := Run(n, events);
            var (wx, wy) := WatchRun(n, events, Fresh, Fresh);
            && (t.y.accepted <= t.x.sealedLog <==> wy.kept)
            && (t.x.accepted <= t.y.sealedLog <==> wx.kept)
  {
    StartInv(n, first);
    StartDirections(n, first);
    RunDirections(n, events, Line([first.key.chain], [n.x.session.local]), On(0), Fresh,
                  Line([n.y.session.sendChain], [n.y.session.local]), On(0), Fresh);
  }

  // ---- a tail that is skipped ----

  /** With equal roots and each other's keys, a ratchet message is accepted wherever the receive
      counter stands. */
  lemma RatchetHeard(x: Session, y: Session, user: Text, plaintext: Text, newKey: nat)
    requires x.sessionId == y.sessionId && x.root == y.root && RatchetsOnSend(x)
    requires x.remote == PublicKey(y.local) && y.remote != PublicKey(newKey)
    ensures Send(x, user, plaintext, newKey).Some?
    ensures Receive(y, Send(x, user, plaintext, newKey).value.1).1 == Some(plaintext)
  {
    SharedSecretAgrees(newKey, y.local, 0);
  }

  /** x sends the same text k times. */
  function Sends(n: Network, plaintext: Text, k: nat): Network
    decreases k
  {
    if k == 0 then n else Sends(Act(n, SendAction(plaintext)), plaintext, k - 1)
  }

  lemma SendPlain(n: Network, plaintext: Text)
    requires 0 < n.x.session.sendCounter < RatchetInterval
    ensures var t := Act(n, SendAction(plaintext));
            && t.y == n.y && t.clock == n.clock + 1 && t.x.user == n.x.user
            && t.x.session == n.x.session.(sendChain := t.x.session.sendChain, sendCounter := n.x.session.sendCounter + 1)
            && |t.x.sealedLog| == |n.x.sealedLog| + 1 && t.x.sealedLog[..|n.x.sealedLog|] == n.x.sealedLog
            && t.x.sealedLog[|n.x.sealedLog|].Sealed? && t.x.sealedLog[|n.x.sealedLog|].key.counter > 0
  {
    assert !RatchetsOnSend(n.x.session);
  }

  lemma {:induction false} SendsPlain(n: Network, plaintext: Text, k: nat)
    requires 0 < n.x.session.sendCounter && n.x.session.sendCounter + k <= RatchetInterval
    ensures var t := Sends(n, plaintext, k);
            && t.y == n.y && t.clock == n.clock + k && t.x.user == n.x.user
            && t.x.session == n.x.session.(sendChain := t.x.session.sendChain, sendCounter := n.x.session.sendCounter + k)
            && |t.x.sealedLog| == |n.x.sealedLog| + k && n.x.sealedLog <= t.x.sealedLog
            && forall i :: |n.x.sealedLog| <= i < |t.x.sealedLog| ==> t.x.sealedLog[i].Sealed? && t.x.sealedLog[i].key.counter > 0
    decreases k
  {
    if k > 0 {
      var n1, at := Act(n, SendAction(plaintext)), |n.x.sealedLog|;
      SendPlain(n, plaintext);
      SendsPlain(n1, plaintext, k - 1);
      var t := Sends(n, plaintext, k);
      assert t.x.sealedLog[..at] == n1.x.sealedLog[..at] && t.x.sealedLog[at] == n1.x.sealedLog[at];
    }
  }

  lemma TailState(n: Network, first: Ciphertext, plaintext: Text)
    requires Start(n, first) && n.x.session.sessionId == n.y.session.sessionId
    ensures var t := Sends(n, plaintext, 9);
            && RatchetsOnSend(t.x.session) && t.x.session.sessionId == t.y.session.sessionId && t.x.session.root == t.y.session.root
            && t.x.session.remote == PublicKey(t.y.session.local) && t.y.session.remote != PublicKey(t.clock)
            && |t.x.sealedLog| == 10 && t.x.sealedLog[1].Sealed? && t.x.sealedLog[1].key.counter > 0 && t.y.accepted == [first]
  {
    SendsPlain(n, plaintext, 9);
  }

  /** The tail of a chain can be skipped: x fills its first chain, opens the next, and only the
      message that opens it arrives. It is accepted, and nine messages are lost for good. */
  lemma TailSkipped(n: Network, first: Ciphertext, plaintext: Text)
    requires Start(n, first) && n.x.session.sessionId == n.y.session.sessionId
    ensures var t := Sends(n, plaintext, 9);
            var sent := Send(t.x.session, t.x.user, plaintext, t.clock);
            && sent.Some? && Deliverable(Act(t, SendAction(plaintext)), sent.value.1)
            && var u := Act(Act(t, SendAction(plaintext)), DeliverAction(sent.value.1));
               u.y.accepted == [first, sent.value.1.ciphertext] && |u.x.sealedLog| == 11 && !(u.y.accepted <= u.x.sealedLog)
  {
    TailState(n, first, plaintext);
    var t := Sends(n, plaintext, 9);
    RatchetHeard(t.x.session, t.y.session, t.x.user, plaintext, t.clock);
    OnlyLastArrives(t, plaintext);
    NotBeginning(t.x.sealedLog, first, Send(t.x.session, t.x.user, plaintext, t.clock).value.1.ciphertext);
  }

  lemma NotBeginning(sealedLog: Log, first: Ciphertext, c: Ciphertext)
    requires |sealedLog| > 1 && sealedLog[1].Sealed? && c.Sealed? && sealedLog[1].key.counter != c.key.counter
    ensures [first] + [c] == [first, c] && !([first, c] <= sealedLog + [c])
  {
    assert [first, c][1] == c && (sealedLog + [c])[1] == sealedLog[1];
  }

  lemma OnlyLastArrives(t: Network, plaintext: Text)
    requires RatchetsOnSend(t.x.session) && Send(t.x.session, t.x.user, plaintext, t.clock).Some?
    requires Receive(t.y.session, Send(t.x.session, t.x.user, plaintext, t.clock).value.1).1 == Some(plaintext)
    ensures var m := Send(t.x.session, t.x.user, plaintext, t.clock).value.1;
            var v := Act(t, SendAction(plaintext));
            && m.ciphertext.Sealed? && m.ciphertext.key.counter == 0 && Deliverable(v, m)
            && Act(v, DeliverAction(m)).y.accepted == t.y.accepted + [m.ciphertext]
            && Act(v, DeliverAction(m)).x.sealedLog == t.x.sealedLog + [m.ciphertext]
  {
    var m := Send(t.x.session, t.x.user, plaintext, t.clock).value.1;
    assert (t.x.sealedLog + [m.ciphertext])[|t.x.sealedLog|] == m.ciphertext;
  }
}
