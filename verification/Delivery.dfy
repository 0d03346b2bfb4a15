/** Polling over a link that can lose a request or its reply. The client's state type `C` and its
    envelope handler are parameters: the result holds for any handler, which may accept or
    refuse each envelope as it likes. */
module Delivery {
  import opened Wrappers
  import opened Bytes
  import opened Mailbox

  /** Handles one envelope; false when it is refused. */
  type Handler<!C, !E> = (C, E) -> (C, bool)

  /** The inbox of the polling user, the client, its pending acknowledgement, and the histories of
      what was ever enqueued and of what was handled successfully. */
  datatype System<C, E> = System(
    queue: Queue<E>,
    client: C,
    pending: Option<nat>,
    enqueued: seq<Item<E>>,
    handled: seq<Item<E>>)

  datatype Link = RequestLost | ReplyLost | Delivered

  datatype Event<E> = Arrives(envelope: E) | Pass(link: Link)

  function Arrive<C, E>(s: System<C, E>, e: E): System<C, E> {
    s.(queue := Enqueue(s.queue, e), enqueued := s.enqueued + [Item(s.queue.last + 1, e)])
  }

  /** Handles items in order until one is refused; returns how many were handled. */
  function HandleItems<C, E>(c: C, items: seq<Item<E>>, handle: Handler<C, E>): (r: (C, nat))
    ensures r.1 <= |items|
    decreases |items|
  {
    if items == [] then (c, 0) else
    match handle(c, items[0].envelope)
    case (c', false) => (c', 0)
    case (c', true) => var (end, n) := HandleItems(c', items[1..], handle); (end, n + 1)
  }

  /** After `done` items the rest of the page is handled from client `c` on. */
  ghost predicate ContinuesFrom<C, E>(start: C, page: seq<Item<E>>, done: nat, c: C, handle: Handler<C, E>)
    requires done <= |page|
  {
    HandleItems(start, page, handle) ==
    (HandleItems(c, page[done..], handle).0, done + HandleItems(c, page[done..], handle).1)
  }

  lemma HandledOne<C, E>(start: C, page: seq<Item<E>>, done: nat, c: C, handle: Handler<C, E>)
    requires done < |page| && ContinuesFrom(start, page, done, c, handle)
    ensures var (c', ok) := handle(c, page[done].envelope);
            if ok then ContinuesFrom(start, page, done + 1, c', handle)
            else HandleItems(start, page, handle) == (c', done)
  {
    assert page[done..][1..] == page[done+1..];
  }

  /** One pass of the drain loop, and whether the loop goes on after it. */
  function DrainPass<C, E>(s: System<C, E>, link: Link, size: Sizer<E>, handle: Handler<C, E>): (System<C, E>, bool) {
    if link == RequestLost then (s, false) else
    var (queue, page) := Drain(s.queue, s.pending, size);
    if link == ReplyLost || page.None? then (s.(queue := queue), false) else
    var (client, n) := HandleItems(s.client, page.value, handle);
    (System(queue, client, if n == 0 then None else Some(page.value[n-1].id), s.enqueued, s.handled + page.value[..n]),
     page.value != [] && n == |page.value|)
  }

  function Step<C, E>(s: System<C, E>, e: Event<E>, size: Sizer<E>, handle: Handler<C, E>): System<C, E> {
    match e
    case Arrives(envelope) => Arrive(s, envelope)
    case Pass(link) => DrainPass(s, link, size, handle).0
  }

  function Run<C, E>(s: System<C, E>, events: seq<Event<E>>, size: Sizer<E>, handle: Handler<C, E>): System<C, E>
    decreases |events|
  {
    if events == [] then s else Run(Step(s, events[0], size, handle), events[1..], size, handle)
  }

  // ---- one poll ----

  const MaxPasses: nat := 64

  /** What arrives before a pass and what becomes of its request. */
  datatype PassEnv<E> = PassEnv(arrivals: seq<E>, link: Link)

  function ArriveAll<C, E>(s: System<C, E>, arrivals: seq<E>): System<C, E>
    decreases |arrivals|
  {
    if arrivals == [] then s else ArriveAll(Arrive(s, arrivals[0]), arrivals[1..])
  }

  /** Passes until one fails, finds the inbox empty or has an envelope refused. */
  function Poll<C, E>(s: System<C, E>, env: seq<PassEnv<E>>, size: Sizer<E>, handle: Handler<C, E>): System<C, E>
    decreases |env|
  {
    if env == [] then s else
    var (t, more) := DrainPass(ArriveAll(s, env[0].arrivals), env[0].link, size, handle);
    if more then Poll(t, env[1..], size, handle) else t
  }

  function Start<C, E>(c: C): System<C, E> {
    System(EmptyQueue(), c, None, [], [])
  }

  /** Ids count up from one; the inbox is the undeleted rest of what was enqueued; what was handled
      is a beginning of it that reaches at least to the inbox; and if it reaches further, exactly
      the last handled id is pending, so everything handled but not deleted is covered. */
  ghost predicate Inv<C, E>(s: System<C, E>) {
    var n, deleted := |s.enqueued|, |s.enqueued| - |s.queue.items|;
    && s.queue.last == n
    && (forall i :: 0 <= i < n ==> s.enqueued[i].id == i + 1)
    && 0 <= deleted <= |s.handled| <= n
    && s.queue.items == s.enqueued[deleted..]
    && s.handled == s.enqueued[..|s.handled|]
    && (s.pending.Some? ==> s.pending.value == |s.handled|)
    && (deleted < |s.handled| ==> s.pending.Some?)
  }

  /** Dropping up to an id that has been given out leaves exactly what came after it. */
  lemma {:induction false} DropAckedTo<E>(all: seq<Item<E>>, from: nat, to: nat)
    requires from <= |all| && to <= |all|
    requires forall i :: 0 <= i < |all| ==> all[i].id == i + 1
    ensures DropAcked(all[from..], Some(to)) == if from <= to then all[to..] else all[from..]
    decreases |all| - from
  {
    if from < to {
      assert all[from..][1..] == all[from+1..];
      DropAckedTo(all, from + 1, to);
    }
  }

  /** After the server has seen the pending acknowledgement, its inbox starts exactly with the first
      envelope that has not been handled. */
  lemma DrainReachesUnhandled<C, E>(s: System<C, E>, size: Sizer<E>)
    requires Inv(s)
    ensures Drain(s.queue, s.pending, size).0.items == s.enqueued[|s.handled|..]
  {
    if s.pending.Some? {
      DropAckedTo(s.enqueued, |s.enqueued| - |s.queue.items|, |s.handled|);
    }
  }

  lemma ArriveKeepsInv<C, E>(s: System<C, E>, e: E)
    requires Inv(s)
    ensures Inv(Arrive(s, e))
  {
    var t := Arrive(s, e);
    assert t.queue.items == t.enqueued[|s.enqueued| - |s.queue.items|..];
    assert t.handled == t.enqueued[..|t.handled|];
  }

  /** The next `n` envelopes have been handled and the last of them is pending. */
  lemma HandledMore<E>(all: seq<Item<E>>, k: nat, page: seq<Item<E>>, n: nat)
    requires k <= |all| && page <= all[k..] && n <= |page|
    ensures all[..k] + page[..n] == all[..k+n]
    ensures n > 0 ==> page[n-1] == all[k+n-1]
  {
    assert page[..n] == all[k..][..n] == all[k..k+n];
  }

  /** The acknowledgement has arrived and nothing else has happened. */
  lemma AckKeepsInv<C, E>(s: System<C, E>, queue: Queue<E>)
    requires Inv(s) && queue.last == s.queue.last && queue.items == s.enqueued[|s.handled|..]
    ensures Inv(s.(queue := queue))
  {
  }

  lemma HandledKeepsInv<C, E>(s: System<C, E>, queue: Queue<E>, c: C, page: seq<Item<E>>, n: nat)
    requires Inv(s) && queue.last == s.queue.last && queue.items == s.enqueued[|s.handled|..]
    requires page <= queue.items && n <= |page|
    ensures Inv(System(queue, c, if n == 0 then None else Some(page[n-1].id), s.enqueued, s.handled + page[..n]))
  {
    HandledMore(s.enqueued, |s.handled|, page, n);
  }

  lemma PassKeepsInv<C, E>(s: System<C, E>, link: Link, size: Sizer<E>, handle: Handler<C, E>)
    requires Inv(s)
    ensures Inv(DrainPass(s, link, size, handle).0)
  {
    if link != RequestLost {
      DrainReachesUnhandled(s, size);
      var (queue, page) := Drain(s.queue, s.pending, size);
      if link == ReplyLost || page.None? {
        AckKeepsInv(s, queue);
      } else {
        var (client, n) := HandleItems(s.client, page.value, handle);
        HandledKeepsInv(s, queue, client, page.value, n);
      }
    }
  }

  lemma StepKeepsInv<C, E>(s: System<C, E>, e: Event<E>, size: Sizer<E>, handle: Handler<C, E>)
    requires Inv(s)
    ensures Inv(Step(s, e, size, handle))
  {
    match e
    case Arrives(envelope) => ArriveKeepsInv(s, envelope);
    case Pass(link) => PassKeepsInv(s, link, size, handle);
  }

  lemma {:induction false} RunKeepsInv<C, E>(s: System<C, E>, events: seq<Event<E>>, size: Sizer<E>, handle: Handler<C, E>)
    requires Inv(s)
    ensures Inv(Run(s, events, size, handle))
    decreases |events|
  {
    if events != [] {
      StepKeepsInv(s, events[0], size, handle);
      RunKeepsInv(Step(s, events[0], size, handle), events[1..], size, handle);
    }
  }

  /** Exactly once. In every run of arrivals and passes, with requests and replies lost anywhere,
      what has been handled is a beginning of what was enqueued, each envelope once and in order;
      nothing unhandled has been deleted; and what is handled but not deleted is acknowledged next. */
  lemma ExactlyOnce<C, E>(c: C, events: seq<Event<E>>, size: Sizer<E>, handle: Handler<C, E>)
    ensures var t := Run(Start(c), events, size, handle);
            && t.handled <= t.enqueued
            && (forall i, j :: 0 <= i < j < |t.handled| ==> t.handled[i].id < t.handled[j].id)
            && (forall x :: x in t.enqueued ==> x in t.handled || x in t.queue.items)
            && (forall x :: x in t.handled && x in t.queue.items ==> t.pending.Some? && x.id <= t.pending.value)
            && (forall x :: x in t.enqueued && t.pending.Some? && x.id <= t.pending.value ==> x in t.handled)
  {
    RunKeepsInv(Start(c), events, size, handle);
    var t := Run(Start(c), events, size, handle);
    HandledOrQueued(t);
    PendingCovers(t);
  }

  lemma HandledOrQueued<C, E>(t: System<C, E>)
    requires Inv(t)
    ensures t.handled <= t.enqueued
    ensures forall i, j :: 0 <= i < j < |t.handled| ==> t.handled[i].id < t.handled[j].id
    ensures forall x :: x in t.enqueued ==> x in t.handled || x in t.queue.items
  {
    var deleted := |t.enqueued| - |t.queue.items|;
    forall i, j | 0 <= i < j < |t.handled| ensures t.handled[i].id < t.handled[j].id {
      assert t.handled[i] == t.enqueued[i] && t.handled[j] == t.enqueued[j];
    }
    forall x | x in t.enqueued ensures x in t.handled || x in t.queue.items {
      var i :| 0 <= i < |t.enqueued| && t.enqueued[i] == x;
      assert if i < |t.handled| then t.handled[i] == x else t.queue.items[i - deleted] == x;
    }
  }

  lemma PendingCovers<C, E>(t: System<C, E>)
    requires Inv(t)
    ensures forall x :: x in t.handled && x in t.queue.items ==> t.pending.Some? && x.id <= t.pending.value
    ensures forall x :: x in t.enqueued && t.pending.Some? && x.id <= t.pending.value ==> x in t.handled
  {
    var deleted := |t.enqueued| - |t.queue.items|;
    forall x | x in t.handled && x in t.queue.items ensures t.pending.Some? && x.id <= t.pending.value {
      var i :| 0 <= i < |t.handled| && t.handled[i] == x;
      var k :| 0 <= k < |t.queue.items| && t.queue.items[k] == x;
      assert t.enqueued[i] == x && t.enqueued[deleted + k] == x;
      assert x.id == i + 1 == deleted + k + 1;
    }
    forall x | x in t.enqueued && t.pending.Some? && x.id <= t.pending.value ensures x in t.handled {
      var i :| 0 <= i < |t.enqueued| && t.enqueued[i] == x;
      assert t.handled[i] == x;
    }
  }

  lemma {:induction false} ArriveAllKeepsInv<C, E>(s: System<C, E>, arrivals: seq<E>)
    requires Inv(s)
    ensures Inv(ArriveAll(s, arrivals))
    decreases |arrivals|
  {
    if arrivals != [] {
      ArriveKeepsInv(s, arrivals[0]);
      ArriveAllKeepsInv(Arrive(s, arrivals[0]), arrivals[1..]);
    }
  }

  /** A poll keeps the invariant of the runs, so polls may be repeated for ever. */
  lemma {:induction false} PollKeepsInv<C, E>(s: System<C, E>, env: seq<PassEnv<E>>, size: Sizer<E>, handle: Handler<C, E>)
    requires Inv(s)
    ensures Inv(Poll(s, env, size, handle))
    decreases |env|
  {
    if env != [] {
      var t := ArriveAll(s, env[0].arrivals);
      ArriveAllKeepsInv(s, env[0].arrivals);
      PassKeepsInv(t, env[0].link, size, handle);
      PollKeepsInv(DrainPass(t, env[0].link, size, handle).0, env[1..], size, handle);
    }
  }

  // ---- how a poll ends ----

  /** The request or its reply is lost. */
  predicate Lost(link: Link) {
    link != Delivered
  }

  /** The page that the server would build, after the pending acknowledgement. */
  function NextPage<C, E>(s: System<C, E>, size: Sizer<E>): Option<seq<Item<E>>> {
    Page(DropAcked(s.queue.items, s.pending), size)
  }

  predicate Unbuilt<C, E>(s: System<C, E>, size: Sizer<E>) {
    NextPage(s, size) == None
  }

  predicate Refused<C, E>(s: System<C, E>, size: Sizer<E>, handle: Handler<C, E>) {
    NextPage(s, size).Some? && HandleItems(s.client, NextPage(s, size).value, handle).1 < |NextPage(s, size).value|
  }

  /** There is nothing to do after a pass over `link` from `s`. */
  predicate Ends<C, E>(s: System<C, E>, link: Link, size: Sizer<E>, handle: Handler<C, E>) {
    Lost(link) || Unbuilt(s, size) || Refused(s, size, handle) || NextPage(s, size) == Some([])
  }

  /** The system after the first `k` passes and their arrivals, one after the other. */
  function Passes<C, E>(s: System<C, E>, env: seq<PassEnv<E>>, k: nat, size: Sizer<E>, handle: Handler<C, E>): System<C, E>
    requires k <= |env|
    decreases k, 0
  {
    if k == 0 then s else DrainPass(Before(s, env, k - 1, size, handle), env[k-1].link, size, handle).0
  }

  /** The system just before pass `k`, its arrivals included. */
  function Before<C, E>(s: System<C, E>, env: seq<PassEnv<E>>, k: nat, size: Sizer<E>, handle: Handler<C, E>): System<C, E>
    requires k < |env|
    decreases k, 1
  {
    ArriveAll(Passes(s, env, k, size, handle), env[k].arrivals)
  }

  lemma {:induction false} PassesShift<C, E>(s: System<C, E>, env: seq<PassEnv<E>>, k: nat, size: Sizer<E>, handle: Handler<C, E>)
    requires k < |env|
    ensures var t := DrainPass(ArriveAll(s, env[0].arrivals), env[0].link, size, handle).0;
            Passes(s, env, k + 1, size, handle) == Passes(t, env[1..], k, size, handle)
    decreases k
  {
    assert Passes(s, env, 0, size, handle) == s;
    if k > 0 {
      PassesShift(s, env, k - 1, size, handle);
    }
  }

  /** The passes of a poll are the first `k` of its environment, and each but the last found reason to
      go on. */
  ghost predicate MadePasses<C, E>(s: System<C, E>, env: seq<PassEnv<E>>, k: nat, size: Sizer<E>, handle: Handler<C, E>) {
    && 0 < k <= |env|
    && Poll(s, env, size, handle) == Passes(s, env, k, size, handle)
    && (forall j :: 0 <= j < k - 1 ==> !Ends(Before(s, env, j, size, handle), env[j].link, size, handle))
    && (k < |env| ==> Ends(Before(s, env, k - 1, size, handle), env[k-1].link, size, handle))
  }

  lemma FirstPassOnly<C, E>(s: System<C, E>, env: seq<PassEnv<E>>, size: Sizer<E>, handle: Handler<C, E>)
    requires env != [] && (|env| == 1 || Ends(Before(s, env, 0, size, handle), env[0].link, size, handle))
    ensures MadePasses(s, env, 1, size, handle)
  {
    var s1 := Before(s, env, 0, size, handle);
    assert Passes(s, env, 1, size, handle) == DrainPass(s1, env[0].link, size, handle).0;
    var t := DrainPass(s1, env[0].link, size, handle).0;
    assert Poll(s, env, size, handle) == t || (|env| == 1 && Poll(s, env, size, handle) == Poll(t, [], size, handle));
  }

  lemma MorePasses<C, E>(s: System<C, E>, env: seq<PassEnv<E>>, k: nat, size: Sizer<E>, handle: Handler<C, E>)
    requires |env| > 1 && !Ends(Before(s, env, 0, size, handle), env[0].link, size, handle)
    requires MadePasses(DrainPass(Before(s, env, 0, size, handle), env[0].link, size, handle).0, env[1..], k, size, handle)
    ensures MadePasses(s, env, k + 1, size, handle)
  {
    var t, rest := DrainPass(Before(s, env, 0, size, handle), env[0].link, size, handle).0, env[1..];
    assert Poll(s, env, size, handle) == Poll(t, rest, size, handle);
    forall j | 0 <= j < |rest| ensures Before(s, env, j + 1, size, handle) == Before(t, rest, j, size, handle) {
      PassesShift(s, env, j, size, handle);
    }
    PassesShift(s, env, k, size, handle);
    forall j | 0 <= j < k ensures !Ends(Before(s, env, j, size, handle), env[j].link, size, handle) {
      if j > 0 {
        assert Before(s, env, (j - 1) + 1, size, handle) == Before(t, rest, j - 1, size, handle);
        assert rest[j-1] == env[j];
      }
    }
  }

  lemma {:induction false} PollPasses<C, E>(s: System<C, E>, env: seq<PassEnv<E>>, size: Sizer<E>, handle: Handler<C, E>) returns (k: nat)
    requires env != []
    ensures MadePasses(s, env, k, size, handle)
    decreases |env|
  {
    var s1 := Before(s, env, 0, size, handle);
    if |env| == 1 || Ends(s1, env[0].link, size, handle) {
      k := 1;
      FirstPassOnly(s, env, size, handle);
    } else {
      var n := PollPasses(DrainPass(s1, env[0].link, size, handle).0, env[1..], size, handle);
      k := n + 1;
      MorePasses(s, env, n, size, handle);
    }
  }

  lemma {:induction false} PassesKeepInv<C, E>(s: System<C, E>, env: seq<PassEnv<E>>, k: nat, size: Sizer<E>, handle: Handler<C, E>)
    requires Inv(s) && k <= |env|
    ensures Inv(Passes(s, env, k, size, handle))
    ensures k < |env| ==> Inv(Before(s, env, k, size, handle))
    decreases k
  {
    if k > 0 {
      PassesKeepInv(s, env, k - 1, size, handle);
      PassKeepsInv(Before(s, env, k - 1, size, handle), env[k-1].link, size, handle);
    }
    if k < |env| {
      ArriveAllKeepsInv(Passes(s, env, k, size, handle), env[k].arrivals);
    }
  }

  /** A pass that gets an empty page leaves nothing behind. */
  lemma EmptyPass<C, E>(s: System<C, E>, size: Sizer<E>, handle: Handler<C, E>)
    requires Inv(s) && NextPage(s, size) == Some([])
    ensures var t := DrainPass(s, Delivered, size, handle).0;
            t.queue.items == [] && t.pending == None && t.handled == t.enqueued
  {
    DrainReachesUnhandled(s, size);
    PageBounds(DropAcked(s.queue.items, s.pending), size);
    assert s.enqueued[..|s.handled|] == s.enqueued;
  }

  lemma LastPass<C, E>(s: System<C, E>, link: Link, size: Sizer<E>, handle: Handler<C, E>)
    requires Inv(s) && Ends(s, link, size, handle) && !Lost(link) && !Unbuilt(s, size) && !Refused(s, size, handle)
    ensures var t := DrainPass(s, link, size, handle).0; t.queue.items == [] && t.pending == None && t.handled == t.enqueued
  {
    EmptyPass(s, size, handle);
  }

  /** How a poll ends: at a lost request or reply, at a page that cannot be built, at an envelope that is
      refused, at the last pass allowed, or with the inbox empty, no acknowledgement pending and
      everything handled that was ever enqueued; and not before. */
  lemma PollEnds<C, E>(s: System<C, E>, env: seq<PassEnv<E>>, size: Sizer<E>, handle: Handler<C, E>) returns (k: nat)
    requires Inv(s) && env != []
    ensures MadePasses(s, env, k, size, handle)
    ensures var t, last, link := Poll(s, env, size, handle), Before(s, env, k - 1, size, handle), env[k-1].link;
            || Lost(link) || Unbuilt(last, size) || Refused(last, size, handle)
            || (k == |env| && !Ends(last, link, size, handle))
            || (t.queue.items == [] && t.pending == None && t.handled == t.enqueued)
  {
    k := PollPasses(s, env, size, handle);
    PassesKeepInv(s, env, k - 1, size, handle);
    var last, link := Before(s, env, k - 1, size, handle), env[k-1].link;
    if Ends(last, link, size, handle) && !Lost(link) && !Unbuilt(last, size) && !Refused(last, size, handle) {
      LastPass(last, link, size, handle);
    }
  }

  // ---- a poll that gets everything ----

  /** Items of at most `m` bytes, `r` of which fit a page. */
  predicate Small<E>(items: seq<Item<E>>, size: Sizer<E>, m: nat) {
    forall i :: 0 <= i < |items| ==> size(items[i].envelope).Some? && size(items[i].envelope).value <= m
  }

  predicate FitPage(r: nat, m: nat) {
    r == 1 || (0 < r <= MaxPageItems && r * (m + ItemOverhead) <= MaxPageBytes)
  }

  lemma {:induction false} SmallEncodings<E>(items: seq<Item<E>>, size: Sizer<E>, m: nat)
    requires Small(items, size, m)
    ensures Encodings(items, size).Some? && Encodings(items, size).value <= |items| * (m + ItemOverhead)
    decreases |items|
  {
    if items != [] {
      SmallEncodings(items[1..], size, m);
      assert (|items| - 1) * (m + ItemOverhead) + (m + ItemOverhead) == |items| * (m + ItemOverhead);
    }
  }

  lemma Monotone(a: nat, b: nat, c: nat)
    requires a <= b
    ensures a * c <= b * c
  {
  }

  lemma SmallFits(n: nat, bytes: nat, length: nat, m: nat, r: nat)
    requires FitPage(r, m) && n < r && bytes <= n * (m + ItemOverhead) && length <= m
    ensures !Overflows(n, bytes, length)
  {
    Monotone(n + 1, r, m + ItemOverhead);
    assert n * (m + ItemOverhead) + (m + ItemOverhead) == (n + 1) * (m + ItemOverhead);
  }

  /** At least `r` items, or all there are. */
  lemma PageHolds<E>(items: seq<Item<E>>, size: Sizer<E>, m: nat, r: nat)
    requires Small(items, size, m) && FitPage(r, m)
    ensures Page(items, size).Some?
    ensures var n := |Page(items, size).value|; n == |items| || n >= r
  {
    PageStops(items, size);
    PageBounds(items, size);
    var p := Page(items, size).value;
    if |p| < |items| && |p| < r {
      SmallEncodings(p, size, m);
      SmallFits(|p|, Encodings(p, size).value, size(items[|p|].envelope).value, m, r);
    }
  }

  /** Handling a sequence is handling its beginning and then its rest. */
  lemma {:induction false} HandleSplit<C, E>(c: C, items: seq<Item<E>>, n: nat, handle: Handler<C, E>)
    requires HandleItems(c, items, handle).1 == |items| && n <= |items|
    ensures HandleItems(c, items[..n], handle).1 == n
    ensures HandleItems(HandleItems(c, items[..n], handle).0, items[n..], handle) == (HandleItems(c, items, handle).0, |items| - n)
    decreases n
  {
    if n > 0 {
      HandleSplit(handle(c, items[0].envelope).0, items[1..], n - 1, handle);
      assert items[..n][1..] == items[1..][..n-1] && items[1..][n-1..] == items[n..];
    } else {
      assert items[0..] == items;
    }
  }

  /** What is enqueued and not handled yet. */
  function Unhandled<C, E>(s: System<C, E>): seq<Item<E>>
    requires |s.handled| <= |s.enqueued|
  {
    s.enqueued[|s.handled|..]
  }

  /** Everything unhandled is small and will be accepted. */
  ghost predicate Good<C, E>(s: System<C, E>, size: Sizer<E>, handle: Handler<C, E>, m: nat) {
    Inv(s) && Small(Unhandled(s), size, m) && HandleItems(s.client, Unhandled(s), handle).1 == |Unhandled(s)|
  }

  /** The system after a pass that has handled `n` unhandled items. */
  ghost predicate HandledNext<C, E>(s: System<C, E>, t: System<C, E>, n: nat, c: C)
    requires |s.handled| <= |s.enqueued|
  {
    && n <= |Unhandled(s)| && t.enqueued == s.enqueued && t.handled == s.handled + Unhandled(s)[..n] && t.client == c
    && t.queue.items == Unhandled(s) && (n == 0 ==> t.pending == None)
  }

  lemma GoodPage<C, E>(s: System<C, E>, size: Sizer<E>, handle: Handler<C, E>, m: nat, r: nat) returns (n: nat)
    requires Good(s, size, handle, m) && FitPage(r, m)
    ensures n == |Unhandled(s)| || r <= n < |Unhandled(s)|
    ensures HandledNext(s, DrainPass(s, Delivered, size, handle).0, n, HandleItems(s.client, Unhandled(s)[..n], handle).0)
    ensures DrainPass(s, Delivered, size, handle).1 <==> n > 0
  {
    var rest := Unhandled(s);
    DrainReachesUnhandled(s, size);
    PageHolds(rest, size, m, r);
    PageBounds(rest, size);
    n := |Page(rest, size).value|;
    assert Page(rest, size).value == rest[..n];
    HandleSplit(s.client, rest, n, handle);
    assert rest[..n][..n] == rest[..n];
  }

  /** A pass over a good link: everything left is still good, and less by a page. */
  lemma GoodPass<C, E>(s: System<C, E>, size: Sizer<E>, handle: Handler<C, E>, m: nat, r: nat)
    requires Good(s, size, handle, m) && FitPage(r, m)
    ensures var t := DrainPass(s, Delivered, size, handle).0;
            && Good(t, size, handle, m) && t.enqueued == s.enqueued
            && (|Unhandled(t)| == 0 || |Unhandled(t)| + r <= |Unhandled(s)|)
            && HandleItems(t.client, Unhandled(t), handle).0 == HandleItems(s.client, Unhandled(s), handle).0
    ensures DrainPass(s, Delivered, size, handle).1 <==> Unhandled(s) != []
  {
    var n := GoodPage(s, size, handle, m, r);
    PassKeepsInv(s, Delivered, size, handle);
    var t := DrainPass(s, Delivered, size, handle).0;
    HandledRest(s, t, n, HandleItems(s.client, Unhandled(s)[..n], handle).0);
    HandleSplit(s.client, Unhandled(s), n, handle);
  }

  lemma HandledRest<C, E>(s: System<C, E>, t: System<C, E>, n: nat, c: C)
    requires |s.handled| <= |s.enqueued| && HandledNext(s, t, n, c)
    ensures |t.handled| == |s.handled| + n <= |t.enqueued| && Unhandled(t) == Unhandled(s)[n..]
  {
  }

  predicate Quiet<E>(env: seq<PassEnv<E>>) {
    forall i :: 0 <= i < |env| ==> env[i] == PassEnv([], Delivered)
  }

  /** Passes of `r` items each, and one that finds the inbox empty, are enough for `n` items. */
  predicate Enough(n: nat, r: nat, passes: nat)
    decreases passes
  {
    passes > 0 && (n == 0 || Enough(if n <= r then 0 else n - r, r, passes - 1))
  }

  lemma {:induction false} EnoughForLess(n: nat, n': nat, r: nat, passes: nat)
    requires Enough(n, r, passes) && n' <= n
    ensures Enough(n', r, passes)
    decreases passes
  {
    if n' > 0 {
      EnoughForLess(if n <= r then 0 else n - r, if n' <= r then 0 else n' - r, r, passes - 1);
    }
  }

  lemma {:induction false} EnoughIf(n: nat, r: nat, passes: nat)
    requires passes > 0 && n <= r * (passes - 1)
    ensures Enough(n, r, passes)
    decreases passes
  {
    if n > 0 {
      assert r * (passes - 1) == r * (passes - 2) + r;
      if passes > 2 {
        Monotone(0, passes - 2, r);
      }
      EnoughIf(if n <= r then 0 else n - r, r, passes - 1);
    }
  }

  lemma QuietPass<C, E>(s: System<C, E>, env: seq<PassEnv<E>>, size: Sizer<E>, handle: Handler<C, E>)
    requires env != [] && env[0] == PassEnv([], Delivered)
    ensures var (t, more) := DrainPass(s, Delivered, size, handle);
            Poll(s, env, size, handle) == if more then Poll(t, env[1..], size, handle) else t
  {
    assert ArriveAll(s, env[0].arrivals) == s;
  }

  lemma NothingLeft<C, E>(s: System<C, E>, size: Sizer<E>, handle: Handler<C, E>, m: nat)
    requires Good(s, size, handle, m) && Unhandled(s) == []
    ensures var t := DrainPass(s, Delivered, size, handle).0;
            && t.handled == t.enqueued == s.enqueued && t.queue.items == [] && t.pending == None
            && t.client == HandleItems(s.client, Unhandled(s), handle).0
  {
    var n := GoodPage(s, size, handle, m, 1);
    assert s.handled == s.enqueued[..|s.handled|] == s.enqueued;
  }

  /** If no request is lost, nothing arrives meanwhile, no envelope is refused and the passes are enough,
      a poll handles everything, and leaves an empty inbox and no pending acknowledgement. */
  lemma {:induction false} PollGetsAll<C, E>(s: System<C, E>, env: seq<PassEnv<E>>, size: Sizer<E>, handle: Handler<C, E>, m: nat, r: nat)
    requires Good(s, size, handle, m) && Quiet(env) && env != []
    requires FitPage(r, m) && Enough(|Unhandled(s)|, r, |env|)
    ensures var t := Poll(s, env, size, handle);
            && t.handled == t.enqueued == s.enqueued && t.queue.items == [] && t.pending == None
            && t.client == HandleItems(s.client, Unhandled(s), handle).0
    decreases |env|
  {
    QuietPass(s, env, size, handle);
    GoodPass(s, size, handle, m, r);
    var t := DrainPass(s, Delivered, size, handle).0;
    if Unhandled(s) == [] {
      NothingLeft(s, size, handle, m);
    } else {
      EnoughForLess(if |Unhandled(s)| <= r then 0 else |Unhandled(s)| - r, |Unhandled(t)|, r, |env| - 1);
      PollGetsAll(t, env[1..], size, handle, m, r);
    }
  }
}
