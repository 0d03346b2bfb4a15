/** What a poll shows the user and whether it reports an error. */
module Polls {
  import opened Wrappers
  import opened Bytes
  import opened Messages
  import opened Symbolic
  import opened ClientSpec
  import opened Mailbox
  import opened Delivery
  import ClientRuns

  type ChatSystem = System<ClientState, ChatEnvelope>

  /** The plaintexts of the items that are handled, in order, up to the first that is refused. */
  function Texts(c: ClientState, items: seq<Item<ChatEnvelope>>): seq<Text>
    decreases |items|
  {
    if items == [] then [] else
    match HandleEnvelope(c, items[0].envelope)
    case (_, None) => []
    case (c', Some(p)) => [p] + Texts(c', items[1..])
  }

  lemma {:induction false} TextsCount(c: ClientState, items: seq<Item<ChatEnvelope>>)
    ensures |Texts(c, items)| == HandleItems(c, items, Accepts).1
    decreases |items|
  {
    if items != [] {
      TextsCount(HandleEnvelope(c, items[0].envelope).0, items[1..]);
    }
  }

  /** `texts` have been shown, and the rest of the page is handled from client `c` on. */
  ghost predicate ShownSoFar(start: ClientState, page: seq<Item<ChatEnvelope>>, texts: seq<Text>, c: ClientState)
    requires |texts| <= |page|
  {
    Texts(start, page) == texts + Texts(c, page[|texts|..])
  }

  lemma ShowNext(start: ClientState, page: seq<Item<ChatEnvelope>>, texts: seq<Text>, c: ClientState)
    requires |texts| < |page| && ShownSoFar(start, page, texts, c)
    ensures var (c', p) := HandleEnvelope(c, page[|texts|].envelope);
            if p.Some? then ShownSoFar(start, page, texts + [p.value], c') else Texts(start, page) == texts
  {
    var (c', p) := HandleEnvelope(c, page[|texts|].envelope);
    assert page[|texts|..][1..] == page[|texts|+1..];
    if p.Some? {
      assert texts + ([p.value] + Texts(c', page[|texts|+1..])) == (texts + [p.value]) + Texts(c', page[|texts|+1..]);
    } else {
      assert texts + [] == texts;
    }
  }

  /** The page that a pass handles, if one arrives. */
  function PassPage(s: ChatSystem, link: Link, size: Sizer<ChatEnvelope>): Option<seq<Item<ChatEnvelope>>> {
    if link == Delivered then Drain(s.queue, s.pending, size).1 else None
  }

  function PassTexts(s: ChatSystem, link: Link, size: Sizer<ChatEnvelope>): seq<Text> {
    match PassPage(s, link, size)
    case None => []
    case Some(page) => Texts(s.client, page)
  }

  /** The request fails or an envelope is refused. */
  predicate PassFails(s: ChatSystem, link: Link, size: Sizer<ChatEnvelope>) {
    match PassPage(s, link, size)
    case None => true
    case Some(page) => HandleItems(s.client, page, Accepts).1 < |page|
  }

  function PollTexts(s: ChatSystem, env: seq<PassEnv<ChatEnvelope>>, size: Sizer<ChatEnvelope>): seq<Text>
    decreases |env|
  {
    if env == [] then [] else
    var s1 := ArriveAll(s, env[0].arrivals);
    var (t, more) := DrainPass(s1, env[0].link, size, Accepts);
    PassTexts(s1, env[0].link, size) + if more then PollTexts(t, env[1..], size) else []
  }

  predicate PollFails(s: ChatSystem, env: seq<PassEnv<ChatEnvelope>>, size: Sizer<ChatEnvelope>)
    decreases |env|
  {
    env != [] &&
    var s1 := ArriveAll(s, env[0].arrivals);
    var (t, more) := DrainPass(s1, env[0].link, size, Accepts);
    PassFails(s1, env[0].link, size) || (more && PollFails(t, env[1..], size))
  }

  lemma TextsAssoc(a: seq<Text>, b: seq<Text>, c: seq<Text>)
    ensures (a + b) + c == a + (b + c)
  {
  }

  /** What handling a page in order has led to, all of it or up to the first refusal. */
  ghost predicate PageHandled(start: ClientState, page: seq<Item<ChatEnvelope>>, c: ClientState, texts: seq<Text>) {
    HandleItems(start, page, Accepts) == (c, |texts|) && Texts(start, page) == texts
  }

  /** After `texts` have been shown, the rest of the page is handled from client `c` on. */
  ghost predicate PageSoFar(start: ClientState, page: seq<Item<ChatEnvelope>>, c: ClientState, texts: seq<Text>) {
    |texts| <= |page| && ContinuesFrom(start, page, |texts|, c, Accepts) && ShownSoFar(start, page, texts, c)
  }

  lemma PageBegin(c: ClientState, page: seq<Item<ChatEnvelope>>)
    ensures PageSoFar(c, page, c, [])
  {
    assert page[0..] == page;
  }

  lemma PageNext(start: ClientState, page: seq<Item<ChatEnvelope>>, c: ClientState, texts: seq<Text>)
    requires PageSoFar(start, page, c, texts) && |texts| < |page|
    ensures var (c', p) := HandleEnvelope(c, page[|texts|].envelope);
            if p.Some? then PageSoFar(start, page, c', texts + [p.value]) else PageHandled(start, page, c', texts)
  {
    HandledOne(start, page, |texts|, c, Accepts);
    ShowNext(start, page, texts, c);
  }

  lemma PageEnd(start: ClientState, page: seq<Item<ChatEnvelope>>, c: ClientState, texts: seq<Text>)
    requires PageSoFar(start, page, c, texts) && |texts| == |page|
    ensures PageHandled(start, page, c, texts)
  {
    assert page[|texts|..] == [] && texts + [] == texts;
  }

  /** `texts` have been returned; if there is `more`, the poll goes on from `now` with `rest`. */
  ghost predicate PolledSoFar(s: ChatSystem, env: seq<PassEnv<ChatEnvelope>>, size: Sizer<ChatEnvelope>,
                              now: ChatSystem, rest: seq<PassEnv<ChatEnvelope>>, more: bool, texts: seq<Text>, failed: bool)
  {
    && Poll(s, env, size, Accepts) == (if more then Poll(now, rest, size, Accepts) else now)
    && PollTexts(s, env, size) == texts + (if more then PollTexts(now, rest, size) else [])
    && PollFails(s, env, size) == (failed || (more && PollFails(now, rest, size)))
  }

  lemma PolledAtFirst(s: ChatSystem, env: seq<PassEnv<ChatEnvelope>>, size: Sizer<ChatEnvelope>)
    ensures PolledSoFar(s, env, size, s, env[0..], true, [], false)
  {
    assert env[0..] == env && [] + PollTexts(s, env, size) == PollTexts(s, env, size);
  }

  lemma PolledNext(s: ChatSystem, env: seq<PassEnv<ChatEnvelope>>, size: Sizer<ChatEnvelope>,
                   now: ChatSystem, rest: seq<PassEnv<ChatEnvelope>>, texts: seq<Text>, failed: bool)
    requires PolledSoFar(s, env, size, now, rest, true, texts, failed) && rest != []
    ensures var s1, link := ArriveAll(now, rest[0].arrivals), rest[0].link;
            var (t, more) := DrainPass(s1, link, size, Accepts);
            PolledSoFar(s, env, size, t, rest[1..], more, texts + PassTexts(s1, link, size), failed || PassFails(s1, link, size))
  {
    var s1, link := ArriveAll(now, rest[0].arrivals), rest[0].link;
    var (t, more) := DrainPass(s1, link, size, Accepts);
    TextsAssoc(texts, PassTexts(s1, link, size), if more then PollTexts(t, rest[1..], size) else []);
  }

  lemma PolledAll(s: ChatSystem, env: seq<PassEnv<ChatEnvelope>>, size: Sizer<ChatEnvelope>,
                  now: ChatSystem, rest: seq<PassEnv<ChatEnvelope>>, more: bool, texts: seq<Text>, failed: bool)
    requires PolledSoFar(s, env, size, now, rest, more, texts, failed) && (more ==> rest == [])
    ensures Poll(s, env, size, Accepts) == now && PollTexts(s, env, size) == texts && PollFails(s, env, size) == failed
  {
    assert texts + [] == texts;
  }

  // ---- pools ----

  lemma HandleKeepsPools(c: ClientState, e: ChatEnvelope)
    requires PoolsValid(c.ecPool, c.pqPool)
    ensures var c' := HandleEnvelope(c, e).0; PoolsValid(c'.ecPool, c'.pqPool)
  {
    if e.kind.KindInitial? && e.initial.Some? {
      InitialKeepsPools(c, e.initial.value);
    }
  }

  lemma InitialKeepsPools(c: ClientState, m: Initial)
    requires PoolsValid(c.ecPool, c.pqPool)
    ensures var c' := HandleInitial(c, m).0; PoolsValid(c'.ecPool, c'.pqPool)
  {
    if HandleInitial(c, m).1.Some? {
      ClientRuns.WithoutKeepsPool(c.ecPool, IndexOf(c.ecPool, m.selected.oneTimeEcId.value));
      ClientRuns.WithoutKeepsPool(c.pqPool, IndexOf(c.pqPool, m.selected.oneTimePqId.value));
    }
  }

  lemma {:induction false} ItemsKeepPools(c: ClientState, items: seq<Item<ChatEnvelope>>)
    requires PoolsValid(c.ecPool, c.pqPool)
    ensures var c' := HandleItems(c, items, Accepts).0; PoolsValid(c'.ecPool, c'.pqPool)
    decreases |items|
  {
    if items != [] {
      HandleKeepsPools(c, items[0].envelope);
      ItemsKeepPools(HandleEnvelope(c, items[0].envelope).0, items[1..]);
    }
  }

  lemma {:induction false} ArriveAllKeepsClient(s: ChatSystem, arrivals: seq<ChatEnvelope>)
    ensures ArriveAll(s, arrivals).client == s.client
    decreases |arrivals|
  {
    if arrivals != [] {
      ArriveAllKeepsClient(Arrive(s, arrivals[0]), arrivals[1..]);
    }
  }

  lemma {:induction false} PollKeepsPools(s: ChatSystem, env: seq<PassEnv<ChatEnvelope>>, size: Sizer<ChatEnvelope>)
    requires PoolsValid(s.client.ecPool, s.client.pqPool)
    ensures var c := Poll(s, env, size, Accepts).client; PoolsValid(c.ecPool, c.pqPool)
    decreases |env|
  {
    if env != [] {
      var s1 := ArriveAll(s, env[0].arrivals);
      ArriveAllKeepsClient(s, env[0].arrivals);
      var page := PassPage(s1, env[0].link, size);
      if page.Some? {
        ItemsKeepPools(s1.client, page.value);
      }
      var (t, more) := DrainPass(s1, env[0].link, size, Accepts);
      PollKeepsPools(t, env[1..], size);
    }
  }

  // ---- what a poll shows ----

  /** Showing a sequence is showing its beginning, if all of that is accepted, and then its rest. */
  lemma {:induction false} TextsAppend(c: ClientState, a: seq<Item<ChatEnvelope>>, b: seq<Item<ChatEnvelope>>)
    requires HandleItems(c, a, Accepts).1 == |a|
    ensures Texts(c, a + b) == Texts(c, a) + Texts(HandleItems(c, a, Accepts).0, b)
    decreases |a|
  {
    if a == [] {
      assert a + b == b && [] + Texts(c, b) == Texts(c, b);
    } else {
      var (c', p) := HandleEnvelope(c, a[0].envelope);
      assert (a + b)[1..] == a[1..] + b;
      TextsAppend(c', a[1..], b);
      TextsAssoc([p.value], Texts(c', a[1..]), Texts(HandleItems(c', a[1..], Accepts).0, b));
    }
  }

  /** Only what is handled is shown. */
  lemma {:induction false} TextsHandled(c: ClientState, items: seq<Item<ChatEnvelope>>)
    ensures var n := HandleItems(c, items, Accepts).1; Texts(c, items) == Texts(c, items[..n])
    decreases |items|
  {
    var n := HandleItems(c, items, Accepts).1;
    if n > 0 {
      TextsHandled(HandleEnvelope(c, items[0].envelope).0, items[1..]);
      assert items[..n][1..] == items[1..][..n-1];
    }
  }

  /** The items that a pass handles, and what it shows of them. */
  lemma PassShows(s: ChatSystem, link: Link, size: Sizer<ChatEnvelope>)
    ensures var (t, more) := DrainPass(s, link, size, Accepts);
            && s.handled <= t.handled
            && PassTexts(s, link, size) == Texts(s.client, t.handled[|s.handled|..])
            && (more ==> var done := t.handled[|s.handled|..];
                         HandleItems(s.client, done, Accepts).1 == |done| && HandleItems(s.client, done, Accepts).0 == t.client)
  {
    var (t, more) := DrainPass(s, link, size, Accepts);
    match PassPage(s, link, size)
    case None =>
      assert t.handled[|s.handled|..] == [];
    case Some(page) =>
      var n := HandleItems(s.client, page, Accepts).1;
      assert t.handled[|s.handled|..] == page[..n];
      assert n == |page| ==> page[..n] == page;
      TextsHandled(s.client, page);
  }

  lemma {:induction false} ArriveAllKeepsHandled(s: ChatSystem, arrivals: seq<ChatEnvelope>)
    ensures ArriveAll(s, arrivals).handled == s.handled
    decreases |arrivals|
  {
    if arrivals != [] {
      ArriveAllKeepsHandled(Arrive(s, arrivals[0]), arrivals[1..]);
    }
  }

  lemma SuffixSplit<T>(a: seq<T>, b: seq<T>, c: seq<T>)
    requires a <= b <= c
    ensures a <= c && c[|a|..] == b[|a|..] + c[|b|..]
  {
  }

  /** The texts that a poll returns are the plaintexts of exactly the envelopes it handles, in order. */
  lemma {:induction false} PollShows(s: ChatSystem, env: seq<PassEnv<ChatEnvelope>>, size: Sizer<ChatEnvelope>)
    ensures var t := Poll(s, env, size, Accepts);
            && s.handled <= t.handled
            && PollTexts(s, env, size) == Texts(s.client, t.handled[|s.handled|..])
    decreases |env|
  {
    if env == [] {
      assert s.handled[|s.handled|..] == [];
    } else {
      var s1 := ArriveAll(s, env[0].arrivals);
      ArriveAllKeepsClient(s, env[0].arrivals);
      ArriveAllKeepsHandled(s, env[0].arrivals);
      PassShows(s1, env[0].link, size);
      var (t, more) := DrainPass(s1, env[0].link, size, Accepts);
      var texts := PassTexts(s1, env[0].link, size);
      if more {
        PollShows(t, env[1..], size);
        var end := Poll(t, env[1..], size, Accepts);
        SuffixSplit(s.handled, t.handled, end.handled);
        TextsAppend(s.client, t.handled[|s.handled|..], end.handled[|t.handled|..]);
      } else {
        assert texts + [] == texts;
      }
    }
  }

  /** A poll fails exactly if its last pass lost a request or reply, met a page that cannot be built,
      or had an envelope refused. */
  predicate Failed(s: ChatSystem, link: Link, size: Sizer<ChatEnvelope>) {
    Lost(link) || Unbuilt(s, size) || Refused(s, size, Accepts)
  }

  lemma {:induction false} PollFailsIff(s: ChatSystem, env: seq<PassEnv<ChatEnvelope>>, size: Sizer<ChatEnvelope>) returns (k: nat)
    requires env != []
    ensures MadePasses(s, env, k, size, Accepts)
    ensures PollFails(s, env, size) <==> Failed(Before(s, env, k - 1, size, Accepts), env[k-1].link, size)
    decreases |env|
  {
    var s1 := Before(s, env, 0, size, Accepts);
    assert s1 == ArriveAll(s, env[0].arrivals);
    var t := DrainPass(s1, env[0].link, size, Accepts).0;
    if |env| == 1 || Ends(s1, env[0].link, size, Accepts) {
      k := 1;
      FirstPassOnly(s, env, size, Accepts);
      if |env| == 1 {
        assert !PollFails(t, env[1..], size);
      }
    } else {
      var n := PollFailsIff(t, env[1..], size);
      k := n + 1;
      MorePasses(s, env, n, size, Accepts);
      PassesShift(s, env, n - 1, size, Accepts);
    }
  }

  lemma GoodPassSucceeds(s: ChatSystem, size: Sizer<ChatEnvelope>, m: nat, r: nat)
    requires Good(s, size, Accepts, m) && FitPage(r, m)
    ensures !PassFails(s, Delivered, size)
  {
    var rest := Unhandled(s);
    DrainReachesUnhandled(s, size);
    PageHolds(rest, size, m, r);
    PageBounds(rest, size);
    assert Page(rest, size).value == rest[..|Page(rest, size).value|];
    HandleSplit(s.client, rest, |Page(rest, size).value|, Accepts);
  }

  lemma {:induction false} GoodPollSucceeds(s: ChatSystem, env: seq<PassEnv<ChatEnvelope>>, size: Sizer<ChatEnvelope>, m: nat, r: nat)
    requires Good(s, size, Accepts, m) && FitPage(r, m) && Quiet(env)
    ensures !PollFails(s, env, size)
    decreases |env|
  {
    if env != [] {
      assert ArriveAll(s, env[0].arrivals) == s;
      GoodPassSucceeds(s, size, m, r);
      GoodPass(s, size, Accepts, m, r);
      GoodPollSucceeds(DrainPass(s, Delivered, size, Accepts).0, env[1..], size, m, r);
    }
  }

  lemma GoodPollShows(s: ChatSystem, env: seq<PassEnv<ChatEnvelope>>, size: Sizer<ChatEnvelope>, m: nat, r: nat)
    requires Good(s, size, Accepts, m) && FitPage(r, m) && Quiet(env) && env != [] && Enough(|Unhandled(s)|, r, |env|)
    ensures var t := Poll(s, env, size, Accepts);
            && t.queue.items == [] && t.pending == None && t.handled == s.enqueued
            && PollTexts(s, env, size) == Texts(s.client, Unhandled(s))
  {
    PollGetsAll(s, env, size, Accepts, m, r);
    PollShows(s, env, size);
  }

  /** When no request is lost, nothing arrives, no envelope is refused and 64 passes are enough: the
      poll reports no failure, shows the text of every unhandled envelope, as many as there were, and
      leaves the inbox empty and nothing pending. */
  lemma PollShowsAll(s: ChatSystem, env: seq<PassEnv<ChatEnvelope>>, size: Sizer<ChatEnvelope>, m: nat, r: nat)
    requires Good(s, size, Accepts, m) && FitPage(r, m) && Quiet(env) && |env| == MaxPasses
    requires |Unhandled(s)| <= 63 * r
    ensures var t := Poll(s, env, size, Accepts);
            && t.queue.items == [] && t.pending == None && t.handled == s.enqueued
            && PollTexts(s, env, size) == Texts(s.client, Unhandled(s)) && |PollTexts(s, env, size)| == |Unhandled(s)|
            && !PollFails(s, env, size)
  {
    EnoughIf(|Unhandled(s)|, r, |env|);
    GoodPollShows(s, env, size, m, r);
    GoodPollSucceeds(s, env, size, m, r);
    TextsCount(s.client, Unhandled(s));
  }
}
