/** The mailbox and prekey half of the in-memory server. Envelopes, bundle bodies and one-time
    keys are type parameters; `Sizer` gives the length of an envelope's encoding, or `None` when
    it cannot be encoded. */
module Mailbox {
  import opened Wrappers
  import opened Bytes

  const MaxPageItems: nat := 128
  const MaxPageBytes: nat := 512 * 1024
  const ItemOverhead: nat := 16

  type Sizer<!E> = E -> Option<nat>

  datatype Item<E> = Item(id: nat, envelope: E)

  /** One user's inbox, oldest first, and the last id given out. */
  datatype Queue<E> = Queue(items: seq<Item<E>>, last: nat)

  function EmptyQueue<E>(): Queue<E> {
    Queue([], 0)
  }

  function Enqueue<E>(q: Queue<E>, e: E): Queue<E> {
    Queue(q.items + [Item(q.last + 1, e)], q.last + 1)
  }

  /** What is left after everything up to the acknowledged id has been removed. */
  function DropAcked<E>(items: seq<Item<E>>, ack: Option<nat>): seq<Item<E>> {
    if ack.None? || items == [] || items[0].id > ack.value then items else DropAcked(items[1..], ack)
  }

  /** How many further items fit a page that already holds `count` items of `bytes` bytes; `None`
      when an item cannot be encoded. The first item of a page always fits. */
  function Fitting<E>(items: seq<Item<E>>, size: Sizer<E>, count: nat, bytes: nat): (n: Option<nat>)
    ensures n.Some? ==> n.value <= |items|
  {
    if items == [] then Some(0) else
    match size(items[0].envelope)
    case None => None
    case Some(length) =>
      if count > 0 && (count >= MaxPageItems || bytes + length + ItemOverhead > MaxPageBytes) then Some(0) else
      match Fitting(items[1..], size, count + 1, bytes + length + ItemOverhead)
      case None => None
      case Some(n) => Some(n + 1)
  }

  function Page<E>(items: seq<Item<E>>, size: Sizer<E>): (p: Option<seq<Item<E>>>)
    ensures p.Some? ==> p.value <= items
  {
    match Fitting(items, size, 0, 0)
    case None => None
    case Some(n) => Some(items[..n])
  }

  /** The acknowledgement takes effect even when building the page fails. */
  function Drain<E>(q: Queue<E>, ack: Option<nat>, size: Sizer<E>): (Queue<E>, Option<seq<Item<E>>>) {
    var items := DropAcked(q.items, ack);
    (q.(items := items), Page(items, size))
  }

  function Encodings<E>(items: seq<Item<E>>, size: Sizer<E>): Option<nat> {
    if items == [] then Some(0) else
    match (size(items[0].envelope), Encodings(items[1..], size))
    case (Some(a), Some(b)) => Some(a + ItemOverhead + b)
    case _ => None
  }

  lemma {:induction false} FittingBounds<E>(items: seq<Item<E>>, size: Sizer<E>, count: nat, bytes: nat)
    requires Fitting(items, size, count, bytes).Some?
    ensures var n := Fitting(items, size, count, bytes).value;
            && (items != [] && count == 0 ==> n > 0)
            && (count <= MaxPageItems ==> count + n <= MaxPageItems)
            && Encodings(items[..n], size).Some?
            && (n == 0 || (count == 0 && n == 1) || bytes + Encodings(items[..n], size).value <= MaxPageBytes)
    decreases |items|
  {
    if items != [] {
      var length := size(items[0].envelope).value;
      var n := Fitting(items, size, count, bytes).value;
      if n > 0 {
        FittingBounds(items[1..], size, count + 1, bytes + length + ItemOverhead);
        assert items[..n][1..] == items[1..][..n-1];
      }
    }
  }

  /** A page of a non-empty inbox holds its oldest envelope, at most 128 items, and more than one
      item only if their encodings with overhead fit into 512 KiB. */
  lemma PageBounds<E>(items: seq<Item<E>>, size: Sizer<E>)
    requires Page(items, size).Some?
    ensures var p := Page(items, size).value;
            && p <= items && (items != [] ==> p != []) && |p| <= MaxPageItems
            && Encodings(p, size).Some?
            && (|p| <= 1 || Encodings(p, size).value <= MaxPageBytes)
  {
    FittingBounds(items, size, 0, 0);
  }

  /** The item after `n` others that take `bytes` bytes no longer fits the page. */
  predicate Overflows(n: nat, bytes: nat, length: nat) {
    n > 0 && (n >= MaxPageItems || bytes + length + ItemOverhead > MaxPageBytes)
  }

  lemma {:induction false} FittingStops<E>(items: seq<Item<E>>, size: Sizer<E>, count: nat, bytes: nat, n: nat)
    requires Fitting(items, size, count, bytes) == Some(n) && n < |items|
    ensures Encodings(items[..n], size).Some? && size(items[n].envelope).Some?
    ensures Overflows(count + n, bytes + Encodings(items[..n], size).value, size(items[n].envelope).value)
    decreases |items|
  {
    if n > 0 {
      FittingStops(items[1..], size, count + 1, bytes + size(items[0].envelope).value + ItemOverhead, n - 1);
      assert items[..n][1..] == items[1..][..n-1];
    }
  }

  lemma {:induction false} FittingFails<E>(items: seq<Item<E>>, size: Sizer<E>, count: nat, bytes: nat) returns (n: nat)
    requires Fitting(items, size, count, bytes).None?
    ensures n < |items| && size(items[n].envelope).None? && Encodings(items[..n], size).Some?
    ensures n > 0 && count + n > 1 ==> count + n <= MaxPageItems && bytes + Encodings(items[..n], size).value <= MaxPageBytes
    decreases |items|
  {
    if size(items[0].envelope).None? {
      n := 0;
    } else {
      var more := size(items[0].envelope).value + ItemOverhead;
      var k := FittingFails(items[1..], size, count + 1, bytes + more);
      n := k + 1;
      assert items[..n][1..] == items[1..][..k];
    }
  }

  /** The page goes on as long as the limits allow: an item that is left out does not fit, and without
      a page an item that directly follows ones that fit cannot be encoded. */
  lemma PageStops<E>(items: seq<Item<E>>, size: Sizer<E>)
    ensures match Page(items, size) {
              case Some(p) =>
                |p| < |items| ==> Encodings(p, size).Some? && size(items[|p|].envelope).Some?
                                  && Overflows(|p|, Encodings(p, size).value, size(items[|p|].envelope).value)
              case None =>
                exists n :: 0 <= n < |items| && size(items[n].envelope).None? && Encodings(items[..n], size).Some?
                            && (n > 1 ==> n <= MaxPageItems && Encodings(items[..n], size).value <= MaxPageBytes)
            }
  {
    if Page(items, size).None? {
      var n := FittingFails(items, size, 0, 0);
    } else if |Page(items, size).value| < |items| {
      FittingStops(items, size, 0, 0, |Page(items, size).value|);
    }
  }

  // ---- the server ----

  /** A published bundle: its owner, its signed part, and its one-time keys. */
  datatype Bundle<B, K> = Bundle(user: Text, body: B, ec: seq<K>, pq: seq<K>)

  datatype Store<B, K, E> = Store(bundles: map<Text, Bundle<B, K>>, inbox: map<Text, seq<Item<E>>>, last: map<Text, nat>)

  function EmptyStore<B, K, E>(): Store<B, K, E> {
    Store(map[], map[], map[])
  }

  function QueueOf<B, K, E>(s: Store<B, K, E>, user: Text): Queue<E> {
    Queue(if user in s.inbox then s.inbox[user] else [], if user in s.last then s.last[user] else 0)
  }

  function WithQueue<B, K, E>(s: Store<B, K, E>, user: Text, q: Queue<E>): Store<B, K, E> {
    s.(inbox := s.inbox[user := q.items], last := s.last[user := q.last])
  }

  function Publish<B, K, E>(s: Store<B, K, E>, b: Bundle<B, K>): Store<B, K, E> {
    s.(bundles := s.bundles[b.user := b])
  }

  /** The bundle with one key of each kind, taken from the pools, or with none when a pool is empty. */
  function Acquire<B, K, E>(s: Store<B, K, E>, user: Text): (Store<B, K, E>, Option<Bundle<B, K>>) {
    if user !in s.bundles then (s, None) else
    var b := s.bundles[user];
    if b.ec == [] || b.pq == [] then (s, Some(b.(ec := [], pq := []))) else
    (s.(bundles := s.bundles[user := b.(ec := b.ec[1..], pq := b.pq[1..])]), Some(b.(ec := b.ec[..1], pq := b.pq[..1])))
  }

  function EnqueueFor<B, K, E>(s: Store<B, K, E>, user: Text, e: E): Store<B, K, E> {
    WithQueue(s, user, Enqueue(QueueOf(s, user), e))
  }

  function DrainFor<B, K, E>(s: Store<B, K, E>, user: Text, ack: Option<nat>, size: Sizer<E>)
    : (Store<B, K, E>, Option<seq<Item<E>>>)
  {
    if user !in s.inbox then (s, Some([])) else
    var (q, page) := Drain(QueueOf(s, user), ack, size);
    (s.(inbox := s.inbox[user := q.items]), page)
  }

  /** The server object; every call holds its mutex, so each method is one atomic step. */
  class InMemoryServer<B, K, E> {
    var bundles: map<Text, Bundle<B, K>>
    var inbox: map<Text, seq<Item<E>>>
    var last: map<Text, nat>

    ghost function State(): Store<B, K, E>
      reads this
    {
      Store(bundles, inbox, last)
    }

    constructor ()
      ensures State() == EmptyStore()
    {
      bundles, inbox, last := map[], map[], map[];
    }

    /** `valid` is the outcome of the version, suite and signature checks. */
    method PublishBundle(b: Bundle<B, K>, valid: bool) returns (ok: bool)
      modifies this`bundles
      ensures ok == valid
      ensures State() == if valid then Publish(old(State()), b) else old(State())
    {
      if !valid {
        return false;
      }
      bundles := bundles[b.user := b];
      return true;
    }

    method AcquireBundleForSession(user: Text) returns (r: Option<Bundle<B, K>>)
      modifies this`bundles
      ensures (State(), r) == Acquire(old(State()), user)
    {
      if user !in bundles {
        return None;
      }
      var b := bundles[user];
      var out := b.(ec := [], pq := []);
      if b.ec != [] && b.pq != [] {
        out := out.(ec := out.ec + [b.ec[0]], pq := out.pq + [b.pq[0]]);
        assert out.ec == b.ec[..1] && out.pq == b.pq[..1];
        bundles := bundles[user := b.(ec := b.ec[1..], pq := b.pq[1..])];
      }
      return Some(out);
    }

    method EnqueueEnvelope(user: Text, e: E)
      modifies this`inbox, this`last
      ensures State() == EnqueueFor(old(State()), user, e)
    {
      var next := (if user in last then last[user] else 0) + 1;
      last := last[user := next];
      inbox := inbox[user := (if user in inbox then inbox[user] else []) + [Item(next, e)]];
    }

    method DrainInbox(user: Text, ack: Option<nat>, size: Sizer<E>) returns (page: Option<seq<Item<E>>>)
      modifies this`inbox
      ensures (State(), page) == DrainFor(old(State()), user, ack, size)
    {
      if user !in inbox {
        return Some([]);
      }
      var items := inbox[user];
      if ack.Some? {
        while items != [] && items[0].id <= ack.value
          invariant DropAcked(items, ack) == DropAcked(inbox[user], ack)
        {
          items := items[1..];
        }
      }
      inbox := inbox[user := items];
      page := BuildPage(items, size);
    }

    static method BuildPage(items: seq<Item<E>>, size: Sizer<E>) returns (page: Option<seq<Item<E>>>)
      ensures page == Page(items, size)
    {
      var out := [];
      var total: nat := 0;
      while |out| < |items|
        invariant |out| <= |items| && out == items[..|out|]
        invariant Fitting(items, size, 0, 0) ==
                  match Fitting(items[|out|..], size, |out|, total) {
                    case None => None
                    case Some(n) => Some(|out| + n)
                  }
      {
        var entry := items[|out|];
        var length := size(entry.envelope);
        if length.None? {
          return None;
        }
        if out != [] && (|out| >= MaxPageItems || total + length.value + ItemOverhead > MaxPageBytes) {
          return Some(out);
        }
        assert items[|out|..][1..] == items[|out|+1..];
        total := total + length.value + ItemOverhead;
        out := out + [entry];
      }
      assert items[|out|..] == [];
      return Some(out);
    }
  }

  // ---- prekey conservation ----

  datatype Call<B, K, E> =
    | PublishCall(bundle: Bundle<B, K>, valid: bool)
    | AcquireCall(user: Text)
    | EnqueueCall(user: Text, envelope: E)
    | DrainCall(user: Text, ack: Option<nat>)

  function Apply<B, K, E>(s: Store<B, K, E>, c: Call<B, K, E>, size: Sizer<E>): Store<B, K, E> {
    match c
    case PublishCall(b, valid) => if valid then Publish(s, b) else s
    case AcquireCall(user) => Acquire(s, user).0
    case EnqueueCall(user, e) => EnqueueFor(s, user, e)
    case DrainCall(user, ack) => DrainFor(s, user, ack, size).0
  }

  function Run<B, K, E>(s: Store<B, K, E>, calls: seq<Call<B, K, E>>, size: Sizer<E>): Store<B, K, E>
    decreases |calls|
  {
    if calls == [] then s else Run(Apply(s, calls[0], size), calls[1..], size)
  }

  /** The one-time pairs that acquiring `user` has handed out in a run. */
  function HandedOut<B(==), K(==), E(==)>(s: Store<B, K, E>, calls: seq<Call<B, K, E>>, user: Text, size: Sizer<E>): seq<(K, K)>
    decreases |calls|
  {
    if calls == [] then [] else
    var rest := HandedOut(Apply(s, calls[0], size), calls[1..], user, size);
    if user in s.bundles && Hands(s, calls[0], user)
    then [(s.bundles[user].ec[0], s.bundles[user].pq[0])] + rest else rest
  }

  function Acquires<B(==), K(==), E(==)>(calls: seq<Call<B, K, E>>, user: Text): nat {
    if calls == [] then 0 else (if calls[0] == AcquireCall(user) then 1 else 0) + Acquires(calls[1..], user)
  }

  function Min(a: nat, b: nat): nat {
    if a < b then a else b
  }

  /** Whether a call hands out a pair of the user's keys. */
  predicate Hands<B(==), K(==), E(==)>(s: Store<B, K, E>, c: Call<B, K, E>, user: Text)
    requires user in s.bundles
  {
    c == AcquireCall(user) && s.bundles[user].ec != [] && s.bundles[user].pq != []
  }

  lemma CallConserves<B, K, E>(s: Store<B, K, E>, c: Call<B, K, E>, user: Text, size: Sizer<E>)
    requires user in s.bundles && (c.PublishCall? && c.valid ==> c.bundle.user != user)
    ensures var t := Apply(s, c, size);
            && user in t.bundles
            && t.bundles[user].ec == (if Hands(s, c, user) then s.bundles[user].ec[1..] else s.bundles[user].ec)
            && t.bundles[user].pq == (if Hands(s, c, user) then s.bundles[user].pq[1..] else s.bundles[user].pq)
  {
  }

  function Firsts<K>(pairs: seq<(K, K)>): seq<K> {
    seq(|pairs|, i requires 0 <= i < |pairs| => pairs[i].0)
  }

  function Seconds<K>(pairs: seq<(K, K)>): seq<K> {
    seq(|pairs|, i requires 0 <= i < |pairs| => pairs[i].1)
  }

  lemma PairsCons<K>(p: (K, K), rest: seq<(K, K)>, ec: seq<K>, pq: seq<K>)
    ensures Firsts([p] + rest) + ec == [p.0] + (Firsts(rest) + ec)
    ensures Seconds([p] + rest) + pq == [p.1] + (Seconds(rest) + pq)
  {
  }

  /** Prekey conservation. Between two publishes of a user, the pairs handed out followed by what
      remains are the published keys in order, and the number of pairs is the number of acquires
      or the smaller pool's size, whichever is less. */
  lemma {:induction false} PrekeysConserved<B, K, E>(s: Store<B, K, E>, calls: seq<Call<B, K, E>>, user: Text, size: Sizer<E>)
    requires user in s.bundles
    requires forall c :: c in calls && c.PublishCall? && c.valid ==> c.bundle.user != user
    ensures var out := HandedOut(s, calls, user, size);
            var t := Run(s, calls, size);
            && user in t.bundles
            && s.bundles[user].ec == Firsts(out) + t.bundles[user].ec
            && s.bundles[user].pq == Seconds(out) + t.bundles[user].pq
            && |out| == Min(Acquires(calls, user), Min(|s.bundles[user].ec|, |s.bundles[user].pq|))
    decreases |calls|
  {
    if calls == [] {
      assert Firsts<K>([]) == [] && Seconds<K>([]) == [];
    } else {
      var c, s1 := calls[0], Apply(s, calls[0], size);
      assert c in calls;
      CallConserves(s, c, user, size);
      PrekeysConserved(s1, calls[1..], user, size);
      if Hands(s, c, user) {
        var rest, t := HandedOut(s1, calls[1..], user, size), Run(s, calls, size);
        var ec, pq := s.bundles[user].ec, s.bundles[user].pq;
        PairsCons((ec[0], pq[0]), rest, t.bundles[user].ec, t.bundles[user].pq);
        assert ec == [ec[0]] + ec[1..] && pq == [pq[0]] + pq[1..];
      }
    }
  }
}
