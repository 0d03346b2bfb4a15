/** The SQLite store answers like the in-memory server, up to the names of inbox items: the k-th
    envelope of a user has id k in memory and some row id in the table. */
module StoreRefinement {
  import opened Wrappers
  import opened Bytes
  import opened Mailbox
  import opened InboxPages
  import opened SqliteStore
  import WireCodec
  import WirePages
  import Fields

  // ---- tables ----

  /** Row ids grow, from above `low` to at most `high`. */
  ghost predicate Between<V>(rows: seq<Row<V>>, low: nat, high: nat) {
    rows == [] || (low < rows[0].rowid <= high && Between(rows[1..], rows[0].rowid, high))
  }

  ghost predicate Ordered<V>(t: Table<V>) {
    Between(t.rows, 0, t.last)
  }

  function Values<V>(rows: seq<Row<V>>): seq<V> {
    seq(|rows|, i requires 0 <= i < |rows| => rows[i].value)
  }

  lemma {:induction false} BetweenAppend<V>(rows: seq<Row<V>>, low: nat, high: nat, r: Row<V>)
    requires Between(rows, low, high) && low < r.rowid && high < r.rowid
    ensures Between(rows + [r], low, r.rowid)
  {
    if rows == [] {
      assert rows + [r] == [r] && [r][1..] == [];
    } else {
      assert (rows + [r])[1..] == rows[1..] + [r];
      BetweenAppend(rows[1..], rows[0].rowid, high, r);
    }
  }

  lemma SelectCons<V>(r: Row<V>, rows: seq<Row<V>>, user: Text)
    ensures Select([r] + rows, user) == if r.user == user then [r] + Select(rows, user) else Select(rows, user)
  {
    assert ([r] + rows)[1..] == rows;
  }

  lemma {:induction false} SelectAppend<V>(rows: seq<Row<V>>, r: Row<V>, user: Text)
    ensures Select(rows + [r], user) == if r.user == user then Select(rows, user) + [r] else Select(rows, user)
  {
    if rows == [] {
      assert rows + [r] == [r] + [];
      SelectCons(r, [], user);
    } else {
      var head, tail := rows[0], rows[1..];
      assert rows + [r] == [head] + (tail + [r]);
      SelectCons(head, tail + [r], user);
      SelectAppend(tail, r, user);
      if head.user == user && r.user == user {
        assert [head] + (Select(tail, user) + [r]) == ([head] + Select(tail, user)) + [r];
      }
    }
  }

  lemma InsertKeeps<V>(t: Table<V>, user: Text, v: V)
    requires Ordered(t)
    ensures Ordered(Insert(t, user, v))
  {
    BetweenAppend(t.rows, 0, t.last, Row(t.last + 1, user, v));
  }

  lemma {:induction false} SelectBetween<V>(rows: seq<Row<V>>, user: Text, low: nat, lower: nat, high: nat)
    requires Between(rows, low, high) && lower <= low
    ensures Between(Select(rows, user), lower, high)
    decreases |rows|
  {
    if rows != [] {
      var tail := Select(rows[1..], user);
      if rows[0].user == user {
        SelectBetween(rows[1..], user, rows[0].rowid, rows[0].rowid, high);
        assert Select(rows, user)[1..] == tail;
      } else {
        SelectBetween(rows[1..], user, rows[0].rowid, lower, high);
        assert Select(rows, user) == tail;
      }
    }
  }

  lemma InsertSelect<V>(t: Table<V>, user: Text, v: V, other: Text)
    ensures Values(Select(Insert(t, user, v).rows, other)) ==
            if other == user then Values(Select(t.rows, other)) + [v] else Values(Select(t.rows, other))
  {
    SelectAppend(t.rows, Row(t.last + 1, user, v), other);
  }

  /** Values inserted for a user come after those it has; others keep theirs. */
  lemma {:induction false} InsertAllSelect<V>(t: Table<V>, user: Text, vs: seq<V>, other: Text)
    requires Ordered(t)
    ensures Ordered(InsertAll(t, user, vs))
    ensures Values(Select(InsertAll(t, user, vs).rows, other)) ==
            if other == user then Values(Select(t.rows, other)) + vs else Values(Select(t.rows, other))
    decreases |vs|
  {
    if vs == [] {
      assert Values(Select(t.rows, other)) + [] == Values(Select(t.rows, other));
    } else {
      var v, tail := vs[0], vs[1..];
      InsertKeeps(t, user, v);
      InsertSelect(t, user, v, other);
      InsertAllSelect(Insert(t, user, v), user, tail, other);
      var before := Values(Select(t.rows, other));
      assert vs == [v] + tail && before + [v] + tail == before + ([v] + tail);
    }
  }

  lemma {:induction false} WithoutUserSelect<V>(rows: seq<Row<V>>, user: Text, other: Text, low: nat, lower: nat, high: nat)
    requires Between(rows, low, high) && lower <= low
    ensures Between(WithoutUser(rows, user), lower, high)
    ensures Select(WithoutUser(rows, user), other) == if other == user then [] else Select(rows, other)
    decreases |rows|
  {
    if rows != [] {
      var tail := WithoutUser(rows[1..], user);
      if rows[0].user == user {
        WithoutUserSelect(rows[1..], user, other, rows[0].rowid, lower, high);
        assert WithoutUser(rows, user) == tail;
      } else {
        WithoutUserSelect(rows[1..], user, other, rows[0].rowid, rows[0].rowid, high);
        assert WithoutUser(rows, user)[1..] == tail;
      }
    }
  }

  lemma {:induction false} NoSuchRow<V>(rows: seq<Row<V>>, rowid: nat, low: nat, high: nat)
    requires Between(rows, low, high) && rowid <= low
    ensures WithoutRow(rows, rowid) == rows
    decreases |rows|
  {
    if rows != [] {
      NoSuchRow(rows[1..], rowid, rows[0].rowid, high);
    }
  }

  /** Deleting a user's first row takes it from that user and leaves all others alone. */
  lemma {:induction false} WithoutFirst<V>(rows: seq<Row<V>>, user: Text, other: Text, low: nat, high: nat)
    requires Between(rows, low, high) && Select(rows, user) != []
    ensures var rest := WithoutRow(rows, Select(rows, user)[0].rowid);
            && Between(rest, low, high)
            && Select(rest, other) == if other == user then Select(rows, user)[1..] else Select(rows, other)
    decreases |rows|
  {
    var head, tail := rows[0], rows[1..];
    if head.user == user {
      NoSuchRow(tail, head.rowid, head.rowid, high);
      assert WithoutRow(rows, head.rowid) == tail;
      Weaken(tail, head.rowid, low, high);
      assert Select(rows, user)[1..] == Select(tail, user);
    } else {
      SelectBetween(tail, user, head.rowid, head.rowid, high);
      WithoutFirst(tail, user, other, head.rowid, high);
      var rest := WithoutRow(tail, Select(tail, user)[0].rowid);
      assert Select(rows, user) == Select(tail, user);
      assert WithoutRow(rows, Select(tail, user)[0].rowid) == [head] + rest && ([head] + rest)[1..] == rest;
    }
  }

  lemma Weaken<V>(rows: seq<Row<V>>, low: nat, lower: nat, high: nat)
    requires Between(rows, low, high) && lower <= low
    ensures Between(rows, lower, high)
  {
  }

  /** The rows of a selection above `ack`. */
  function Later<V>(rows: seq<Row<V>>, ack: int): seq<Row<V>> {
    if rows == [] then []
    else if rows[0].rowid <= ack then Later(rows[1..], ack)
    else [rows[0]] + Later(rows[1..], ack)
  }

  lemma {:induction false} WithoutAckedSelect<V>(rows: seq<Row<V>>, user: Text, ack: int, other: Text, low: nat, lower: nat, high: nat)
    requires Between(rows, low, high) && lower <= low
    ensures Between(WithoutAcked(rows, user, ack), lower, high)
    ensures Select(WithoutAcked(rows, user, ack), other) == if other == user then Later(Select(rows, user), ack) else Select(rows, other)
    decreases |rows|
  {
    if rows != [] {
      var tail, kept := rows[1..], WithoutAcked(rows[1..], user, ack);
      if rows[0].user == user && rows[0].rowid <= ack {
        WithoutAckedSelect(tail, user, ack, other, rows[0].rowid, lower, high);
        assert WithoutAcked(rows, user, ack) == kept;
        assert Select(rows, user)[1..] == Select(tail, user);
      } else {
        WithoutAckedSelect(tail, user, ack, other, rows[0].rowid, rows[0].rowid, high);
        assert WithoutAcked(rows, user, ack)[1..] == kept;
        assert rows[0].user == user ==> Select(rows, user)[1..] == Select(tail, user);
      }
    }
  }

  lemma {:induction false} LaterAll<V>(rows: seq<Row<V>>, ack: int, low: nat, high: nat)
    requires Between(rows, low, high) && ack <= low
    ensures Later(rows, ack) == rows
    decreases |rows|
  {
    if rows != [] {
      LaterAll(rows[1..], ack, rows[0].rowid, high);
    }
  }

  // ---- the naming of inbox items ----

  /** The row ids a user's envelopes were given, in the order they were enqueued. */
  type Names = map<Text, seq<nat>>

  function NamesOf(names: Names, user: Text): seq<nat> {
    if user in names then names[user] else []
  }

  /** Names keep the order of enqueueing. */
  ghost predicate Increasing(ns: seq<nat>, last: nat) {
    && (forall i, j :: 0 <= i < j < |ns| ==> ns[i] < ns[j])
    && (forall i :: 0 <= i < |ns| ==> 0 < ns[i] <= last)
  }

  function NameOf(ns: seq<nat>, id: nat): nat
    requires id <= |ns|
  {
    if id == 0 then 0 else ns[id - 1]
  }

  function Renamed<E>(items: seq<Item<E>>, ns: seq<nat>): seq<Item<E>>
    requires forall i :: 0 <= i < |items| ==> items[i].id <= |ns|
  {
    seq(|items|, i requires 0 <= i < |items| => Item(NameOf(ns, items[i].id), items[i].envelope))
  }

  /** The stored payload of an envelope decodes to it. */
  ghost predicate Stored<E>(e: E, payload: seq<byte>, encode: Encoder<E>, decode: Decoder<E>) {
    encode(e) == Some(payload) && decode(payload) == Some(e)
  }

  /** The rows hold the items, in order and under their names. */
  ghost predicate Linked<E>(items: seq<Item<E>>, rows: seq<Row<seq<byte>>>, ns: seq<nat>, encode: Encoder<E>, decode: Decoder<E>) {
    && |items| == |rows|
    && (items != [] ==>
          && 1 <= items[0].id <= |ns| && rows[0].rowid == NameOf(ns, items[0].id)
          && Stored(items[0].envelope, rows[0].value, encode, decode)
          && Linked(items[1..], rows[1..], ns, encode, decode))
  }

  lemma {:induction false} LinkedIds<E>(items: seq<Item<E>>, rows: seq<Row<seq<byte>>>, ns: seq<nat>, encode: Encoder<E>, decode: Decoder<E>)
    requires Linked(items, rows, ns, encode, decode)
    ensures forall i :: 0 <= i < |items| ==> items[i].id <= |ns|
    decreases |items|
  {
    if items != [] {
      LinkedIds(items[1..], rows[1..], ns, encode, decode);
    }
  }

  lemma {:induction false} LinkedAppend<E>(items: seq<Item<E>>, rows: seq<Row<seq<byte>>>, ns: seq<nat>, user: Text, name: nat,
                                           e: E, payload: seq<byte>, encode: Encoder<E>, decode: Decoder<E>)
    requires Linked(items, rows, ns, encode, decode) && Stored(e, payload, encode, decode)
    ensures Linked(items + [Item(|ns| + 1, e)], rows + [Row(name, user, payload)], ns + [name], encode, decode)
    decreases |items|
  {
    var i, r := Item(|ns| + 1, e), Row(name, user, payload);
    if items == [] {
      assert items + [i] == [i] && rows + [r] == [r] && [i][1..] == [] && [r][1..] == [];
      assert NameOf(ns + [name], |ns| + 1) == name;
    } else {
      assert (items + [i])[1..] == items[1..] + [i] && (rows + [r])[1..] == rows[1..] + [r];
      LinkedAppend(items[1..], rows[1..], ns, user, name, e, payload, encode, decode);
    }
  }

  /** Acknowledging an id drops the same envelopes as acknowledging its name. */
  lemma {:induction false} AckLinked<E>(items: seq<Item<E>>, rows: seq<Row<seq<byte>>>, ns: seq<nat>, ack: nat, low: nat, last: nat,
                                        encode: Encoder<E>, decode: Decoder<E>)
    requires Linked(items, rows, ns, encode, decode) && Between(rows, low, last) && Increasing(ns, last) && ack <= |ns|
    ensures Linked(DropAcked(items, Some(ack)), Later(rows, NameOf(ns, ack)), ns, encode, decode)
    decreases |items|
  {
    if items != [] {
      if items[0].id <= ack {
        AckLinked(items[1..], rows[1..], ns, ack, rows[0].rowid, last, encode, decode);
        assert Later(rows, NameOf(ns, ack)) == Later(rows[1..], NameOf(ns, ack));
      } else {
        LaterAll(rows[1..], NameOf(ns, ack), rows[0].rowid, last);
        assert Later(rows, NameOf(ns, ack)) == [rows[0]] + rows[1..] == rows;
      }
    }
  }

  lemma LimitTail<V>(rows: seq<V>, n: nat)
    requires rows != [] && n > 0
    ensures Limit(rows, n) != [] && Limit(rows, n)[0] == rows[0] && Limit(rows, n)[1..] == Limit(rows[1..], n - 1)
  {
  }

  lemma RenamedTail<E>(items: seq<Item<E>>, n: nat, ns: seq<nat>)
    requires n <= |items| && forall i :: 0 <= i < |items| ==> items[i].id <= |ns|
    ensures n == 0 ==> Renamed(items[..n], ns) == []
    ensures n > 0 ==> Renamed(items[..n], ns) == [Item(NameOf(ns, items[0].id), items[0].envelope)] + Renamed(items[1..][..n-1], ns)
  {
    if n > 0 {
      assert items[..n] == [items[0]] + items[1..][..n-1];
    }
  }

  /** The row-fetch loop under its LIMIT builds the page the in-memory loop builds. */
  lemma {:induction false} FetchLinked<E>(items: seq<Item<E>>, rows: seq<Row<seq<byte>>>, ns: seq<nat>, count: nat, bytes: nat,
                                          encode: Encoder<E>, decode: Decoder<E>)
    requires Linked(items, rows, ns, encode, decode) && count <= MaxPageItems
    requires forall i :: 0 <= i < |items| ==> items[i].id <= |ns|
    ensures Fitting(items, SizeOf(encode), count, bytes).Some?
    ensures Fetch(Limit(rows, MaxPageItems - count), decode, count, bytes)
         == Some(Renamed(items[..Fitting(items, SizeOf(encode), count, bytes).value], ns))
    decreases |items|
  {
    if items == [] {
      RenamedTail(items, 0, ns);
      assert Limit(rows, MaxPageItems - count) == [];
    } else {
      assert SizeOf(encode)(items[0].envelope) == Some(|rows[0].value|);
      if count < MaxPageItems {
        var length, limited := |rows[0].value| + ItemOverhead, Limit(rows, MaxPageItems - count);
        LimitTail(rows, MaxPageItems - count);
        FetchLinked(items[1..], rows[1..], ns, count + 1, bytes + length, encode, decode);
        FetchHead(limited, decode, items[0].envelope, count, bytes);
        FittingHead(items, SizeOf(encode), |rows[0].value|, count, bytes);
        RenamedTail(items, Fitting(items, SizeOf(encode), count, bytes).value, ns);
      } else {
        RenamedTail(items, 0, ns);
        assert Limit(rows, 0) == [];
      }
    }
  }

  lemma FetchHead<E>(rows: seq<Row<seq<byte>>>, decode: Decoder<E>, e: E, count: nat, bytes: nat)
    requires rows != [] && decode(rows[0].value) == Some(e)
    ensures var length := |rows[0].value| + ItemOverhead;
            Fetch(rows, decode, count, bytes) ==
            if count > 0 && bytes + length > MaxPageBytes then Some([]) else
            match Fetch(rows[1..], decode, count + 1, bytes + length) {
              case None => None
              case Some(tail) => Some([Item(rows[0].rowid, e)] + tail)
            }
  {
  }

  lemma FittingHead<E>(items: seq<Item<E>>, size: Sizer<E>, length: nat, count: nat, bytes: nat)
    requires items != [] && size(items[0].envelope) == Some(length) && count < MaxPageItems
    ensures Fitting(items, size, count, bytes) ==
            if count > 0 && bytes + (length + ItemOverhead) > MaxPageBytes then Some(0) else
            match Fitting(items[1..], size, count + 1, bytes + (length + ItemOverhead)) {
              case None => None
              case Some(n) => Some(n + 1)
            }
  {
    assert bytes + length + ItemOverhead == bytes + (length + ItemOverhead);
  }

  // ---- the two stores side by side ----

  ghost predicate SameBundle<B, K>(b: Bundle<B, K>, db: Db<B, K>, user: Text)
    requires user in db.bundles
  {
    && b.user == user && b.body == db.bundles[user]
    && b.ec == Values(Select(db.ec.rows, user)) && b.pq == Values(Select(db.pq.rows, user))
  }

  ghost predicate SameInbox<E>(q: Queue<E>, inbox: Table<seq<byte>>, user: Text, ns: seq<nat>, encode: Encoder<E>, decode: Decoder<E>) {
    |ns| == q.last && Increasing(ns, inbox.last) && Linked(q.items, Select(inbox.rows, user), ns, encode, decode)
  }

  ghost predicate SameBundles<B, K>(bundles: map<Text, Bundle<B, K>>, db: Db<B, K>) {
    && Ordered(db.ec) && Ordered(db.pq) && bundles.Keys == db.bundles.Keys
    && (forall u :: u in bundles ==> SameBundle(bundles[u], db, u))
  }

  ghost predicate SameInboxes<B, K, E>(s: Store<B, K, E>, inbox: Table<seq<byte>>, names: Names, encode: Encoder<E>, decode: Decoder<E>) {
    Ordered(inbox) && (forall u :: SameInbox(QueueOf(s, u), inbox, u, NamesOf(names, u), encode, decode))
  }

  ghost predicate Related<B, K, E>(s: Store<B, K, E>, db: Db<B, K>, names: Names, encode: Encoder<E>, decode: Decoder<E>) {
    SameBundles(s.bundles, db) && SameInboxes(s, db.inbox, names, encode, decode)
  }

  datatype Answer<B, K, E> =
    | Done(ok: bool)
    | Bundled(bundle: Option<Bundle<B, K>>)
    | Paged(page: Option<seq<Item<E>>>)

  function InMemory<B, K, E>(s: Store<B, K, E>, c: Call<B, K, E>, encode: Encoder<E>): (Store<B, K, E>, Answer<B, K, E>) {
    match c
    case PublishCall(b, valid) => (if valid then Publish(s, b) else s, Done(valid))
    case AcquireCall(user) => var (s', r) := Acquire(s, user); (s', Bundled(r))
    case EnqueueCall(user, e) => (EnqueueFor(s, user, e), Done(true))
    case DrainCall(user, ack) => var (s', r) := DrainFor(s, user, ack, SizeOf(encode)); (s', Paged(r))
  }

  /** The same call on the tables, its acknowledged id replaced by its name. */
  function InTables<B, K, E>(db: Db<B, K>, c: Call<B, K, E>, names: Names, encode: Encoder<E>, decode: Decoder<E>, columns: Columns<B, K>)
    : (Db<B, K>, Answer<B, K, E>)
  {
    match c
    case PublishCall(b, valid) => var (db', ok) := PublishRows(db, b, valid, columns); (db', Done(ok))
    case AcquireCall(user) => var (db', r) := AcquireRows(db, user); (db', Bundled(r))
    case EnqueueCall(user, e) => var (db', ok) := EnqueueRow(db, user, e, encode); (db', Done(ok))
    case DrainCall(user, ack) =>
      var (db', r) := DrainRows(db, user, RenamedAck(ack, NamesOf(names, user)), decode);
      (db', Paged(r))
  }

  function RenamedAck(ack: Option<nat>, ns: seq<nat>): Option<nat> {
    if ack.None? then None else if ack.value <= |ns| then Some(NameOf(ns, ack.value)) else ack
  }

  /** An enqueued envelope is named by the row it goes into. */
  function NamesAfter<B, K, E>(names: Names, db: Db<B, K>, c: Call<B, K, E>): Names {
    if c.EnqueueCall? then names[c.user := NamesOf(names, c.user) + [db.inbox.last + 1]] else names
  }

  /** The acknowledged id was given out, or all rows of the user are at or below what it is cast to. */
  ghost predicate SoundAck(last: nat, rows: seq<Row<seq<byte>>>, ack: Option<nat>) {
    ack.None? || ack.value <= last || (forall i :: 0 <= i < |rows| ==> rows[i].rowid <= AsInt64(ack.value))
  }

  /** A bundle that is refused anyway or fits its columns, an envelope that survives the codec, a
      sound acknowledgement. */
  ghost predicate Allowed<B, K, E>(s: Store<B, K, E>, db: Db<B, K>, c: Call<B, K, E>,
                                   encode: Encoder<E>, decode: Decoder<E>, columns: Columns<B, K>)
  {
    match c
    case PublishCall(b, valid) => valid ==> Storable(b, columns)
    case AcquireCall(user) => true
    case EnqueueCall(user, e) => encode(e).Some? && Stored(e, encode(e).value, encode, decode)
    case DrainCall(user, ack) => SoundAck(QueueOf(s, user).last, Select(db.inbox.rows, user), ack)
  }

  /** The answers are the same but for the names of the items in a page. */
  ghost predicate SameAnswer<B, K, E>(mem: Answer<B, K, E>, tab: Answer<B, K, E>, c: Call<B, K, E>, names: Names) {
    if mem.Paged? && c.DrainCall? then
      && mem.page.Some? && (forall i :: 0 <= i < |mem.page.value| ==> mem.page.value[i].id <= |NamesOf(names, c.user)|)
      && tab == Paged(Some(Renamed(mem.page.value, NamesOf(names, c.user))))
    else mem == tab
  }

  /** Publishing replaces one user's keys in a table and no one else's. */
  lemma Republished<K>(t: Table<K>, user: Text, keys: seq<K>, u: Text)
    requires Ordered(t)
    ensures var t' := InsertAll(t.(rows := WithoutUser(t.rows, user)), user, keys);
            Ordered(t') && Values(Select(t'.rows, u)) == if u == user then keys else Values(Select(t.rows, u))
  {
    WithoutUserSelect(t.rows, user, u, 0, 0, t.last);
    InsertAllSelect(t.(rows := WithoutUser(t.rows, user)), user, keys, u);
    assert Values<K>([]) == [] && [] + keys == keys;
  }

  lemma PublishStep<B, K>(bundles: map<Text, Bundle<B, K>>, db: Db<B, K>, b: Bundle<B, K>, columns: Columns<B, K>)
    requires SameBundles(bundles, db) && Storable(b, columns)
    ensures SameBundles(bundles[b.user := b], PublishRows(db, b, true, columns).0)
  {
    var bundles', db' := bundles[b.user := b], PublishRows(db, b, true, columns).0;
    Republished(db.ec, b.user, b.ec, b.user);
    Republished(db.pq, b.user, b.pq, b.user);
    forall u | u in bundles' ensures SameBundle(bundles'[u], db', u) {
      Republished(db.ec, b.user, b.ec, u);
      Republished(db.pq, b.user, b.pq, u);
    }
  }

  /** Taking one user's first key takes no one else's. */
  lemma TakenFirst<K>(t: Table<K>, user: Text, u: Text)
    requires Ordered(t) && Select(t.rows, user) != []
    ensures var t' := t.(rows := WithoutRow(t.rows, Select(t.rows, user)[0].rowid));
            Ordered(t') && Values(Select(t'.rows, u)) == if u == user then Values(Select(t.rows, u))[1..] else Values(Select(t.rows, u))
  {
    WithoutFirst(t.rows, user, u, 0, t.last);
  }

  /** `Acquire` on the bundles alone. */
  lemma AcquireStep<B, K, E>(s: Store<B, K, E>, db: Db<B, K>, user: Text)
    requires SameBundles(s.bundles, db)
    ensures SameBundles(Acquire(s, user).0.bundles, AcquireRows(db, user).0)
    ensures Acquire(s, user).1 == AcquireRows(db, user).1
    ensures Acquire(s, user).0 == s.(bundles := Acquire(s, user).0.bundles)
    ensures AcquireRows(db, user).0.inbox == db.inbox
  {
    if user in s.bundles {
      var b, ec, pq := s.bundles[user], Select(db.ec.rows, user), Select(db.pq.rows, user);
      assert SameBundle(b, db, user);
      if b.ec != [] && b.pq != [] {
        var bundles', db' := Acquire(s, user).0.bundles, AcquireRows(db, user).0;
        TakenFirst(db.ec, user, user);
        TakenFirst(db.pq, user, user);
        assert b.ec[..1] == [ec[0].value] && b.pq[..1] == [pq[0].value];
        forall u | u in bundles' ensures SameBundle(bundles'[u], db', u) {
          assert SameBundle(s.bundles[u], db, u);
          TakenFirst(db.ec, user, u);
          TakenFirst(db.pq, user, u);
        }
      }
    }
  }

  lemma OthersKeepBundles<B, K>(bundles: map<Text, Bundle<B, K>>, db: Db<B, K>, db': Db<B, K>)
    requires SameBundles(bundles, db) && db' == db.(inbox := db'.inbox)
    ensures SameBundles(bundles, db')
  {
    forall u | u in bundles ensures SameBundle(bundles[u], db', u) {
      assert SameBundle(bundles[u], db, u);
    }
  }

  lemma OthersKeepInboxes<B, K, E>(s: Store<B, K, E>, s': Store<B, K, E>, inbox: Table<seq<byte>>, names: Names,
                                   encode: Encoder<E>, decode: Decoder<E>)
    requires SameInboxes(s, inbox, names, encode, decode) && s'.inbox == s.inbox && s'.last == s.last
    ensures SameInboxes(s', inbox, names, encode, decode)
  {
    forall u ensures SameInbox(QueueOf(s', u), inbox, u, NamesOf(names, u), encode, decode) {
      assert QueueOf(s', u) == QueueOf(s, u);
    }
  }

  lemma IncreasingPush(ns: seq<nat>, last: nat)
    requires Increasing(ns, last)
    ensures Increasing(ns + [last + 1], last + 1)
  {
  }

  lemma EnqueuedInbox<E>(q: Queue<E>, inbox: Table<seq<byte>>, ns: seq<nat>, user: Text, u: Text, e: E, payload: seq<byte>,
                         encode: Encoder<E>, decode: Decoder<E>)
    requires SameInbox(q, inbox, u, ns, encode, decode) && Stored(e, payload, encode, decode)
    ensures var inbox' := Insert(inbox, user, payload);
            if u == user then SameInbox(Enqueue(q, e), inbox', u, ns + [inbox.last + 1], encode, decode)
            else SameInbox(q, inbox', u, ns, encode, decode)
  {
    var name := inbox.last + 1;
    SelectAppend(inbox.rows, Row(name, user, payload), u);
    if u == user {
      LinkedAppend(q.items, Select(inbox.rows, u), ns, user, name, e, payload, encode, decode);
      IncreasingPush(ns, inbox.last);
    } else {
      assert Select(Insert(inbox, user, payload).rows, u) == Select(inbox.rows, u);
    }
  }

  lemma EnqueueStep<B, K, E>(s: Store<B, K, E>, inbox: Table<seq<byte>>, names: Names, user: Text, e: E, payload: seq<byte>,
                             encode: Encoder<E>, decode: Decoder<E>)
    requires SameInboxes(s, inbox, names, encode, decode) && Stored(e, payload, encode, decode)
    ensures SameInboxes(EnqueueFor(s, user, e), Insert(inbox, user, payload),
                        names[user := NamesOf(names, user) + [inbox.last + 1]], encode, decode)
  {
    var s', inbox' := EnqueueFor(s, user, e), Insert(inbox, user, payload);
    var names' := names[user := NamesOf(names, user) + [inbox.last + 1]];
    InsertKeeps(inbox, user, payload);
    forall u ensures SameInbox(QueueOf(s', u), inbox', u, NamesOf(names', u), encode, decode) {
      assert SameInbox(QueueOf(s, u), inbox, u, NamesOf(names, u), encode, decode);
      EnqueuedInbox(QueueOf(s, u), inbox, NamesOf(names, u), user, u, e, payload, encode, decode);
      assert QueueOf(s', u) == if u == user then Enqueue(QueueOf(s, u), e) else QueueOf(s, u);
    }
  }

  /** The inbox table without what `user` acknowledged. */
  function Kept(inbox: Table<seq<byte>>, user: Text, name: Option<nat>): Table<seq<byte>> {
    inbox.(rows := if name.None? then inbox.rows else WithoutAcked(inbox.rows, user, AsInt64(name.value)))
  }

  lemma KeptLater(inbox: Table<seq<byte>>, user: Text, name: nat)
    requires Ordered(inbox) && name < TWO63
    ensures Select(Kept(inbox, user, Some(name)).rows, user) == Later(Select(inbox.rows, user), name)
  {
    WithoutAckedSelect(inbox.rows, user, name, user, 0, 0, inbox.last);
    assert AsInt64(name) == name;
  }

  lemma {:induction false} AllDropped<E>(items: seq<Item<E>>, ack: nat)
    requires forall i :: 0 <= i < |items| ==> items[i].id <= ack
    ensures DropAcked(items, Some(ack)) == []
    decreases |items|
  {
    if items != [] {
      AllDropped(items[1..], ack);
    }
  }

  lemma {:induction false} LaterNone<V>(rows: seq<Row<V>>, ack: int)
    ensures Later(rows, ack) == [] <==> forall i :: 0 <= i < |rows| ==> rows[i].rowid <= ack
    decreases |rows|
  {
    if rows != [] {
      LaterNone(rows[1..], ack);
    }
  }

  lemma DrainedInbox<E>(q: Queue<E>, inbox: Table<seq<byte>>, ns: seq<nat>, user: Text, ack: Option<nat>, encode: Encoder<E>, decode: Decoder<E>)
    requires Ordered(inbox) && SameInbox(q, inbox, user, ns, encode, decode) && inbox.last < TWO63
    requires SoundAck(q.last, Select(inbox.rows, user), ack)
    ensures SameInbox(q.(items := DropAcked(q.items, ack)), Kept(inbox, user, RenamedAck(ack, ns)), user, ns, encode, decode)
  {
    if ack.Some? && ack.value > q.last {
      LinkedIds(q.items, Select(inbox.rows, user), ns, encode, decode);
      AllDropped(q.items, ack.value);
      LaterNone(Select(inbox.rows, user), AsInt64(ack.value));
      WithoutAckedSelect(inbox.rows, user, AsInt64(ack.value), user, 0, 0, inbox.last);
    } else if ack.Some? {
      var name, rows := NameOf(ns, ack.value), Select(inbox.rows, user);
      SelectBetween(inbox.rows, user, 0, 0, inbox.last);
      AckLinked(q.items, rows, ns, ack.value, 0, inbox.last, encode, decode);
      KeptLater(inbox, user, name);
    }
  }

  lemma KeptOrdered(inbox: Table<seq<byte>>, user: Text, name: Option<nat>, u: Text)
    requires Ordered(inbox)
    ensures Ordered(Kept(inbox, user, name))
    ensures u != user ==> Select(Kept(inbox, user, name).rows, u) == Select(inbox.rows, u)
  {
    if name.Some? {
      WithoutAckedSelect(inbox.rows, user, AsInt64(name.value), u, 0, 0, inbox.last);
    }
  }

  lemma DrainKeepsInboxes<B, K, E>(s: Store<B, K, E>, inbox: Table<seq<byte>>, names: Names, user: Text, ack: Option<nat>,
                                   encode: Encoder<E>, decode: Decoder<E>)
    requires SameInboxes(s, inbox, names, encode, decode) && inbox.last < TWO63
    requires SoundAck(QueueOf(s, user).last, Select(inbox.rows, user), ack)
    ensures SameInboxes(DrainFor(s, user, ack, SizeOf(encode)).0, Kept(inbox, user, RenamedAck(ack, NamesOf(names, user))),
                        names, encode, decode)
  {
    var s' := DrainFor(s, user, ack, SizeOf(encode)).0;
    var inbox' := Kept(inbox, user, RenamedAck(ack, NamesOf(names, user)));
    KeptOrdered(inbox, user, RenamedAck(ack, NamesOf(names, user)), user);
    forall u ensures SameInbox(QueueOf(s', u), inbox', u, NamesOf(names, u), encode, decode) {
      assert SameInbox(QueueOf(s, u), inbox, u, NamesOf(names, u), encode, decode);
      if u == user {
        DrainedInbox(QueueOf(s, u), inbox, NamesOf(names, u), user, ack, encode, decode);
        assert QueueOf(s', u) == QueueOf(s, u).(items := DropAcked(QueueOf(s, u).items, ack));
      } else {
        KeptOrdered(inbox, user, RenamedAck(ack, NamesOf(names, user)), u);
        assert QueueOf(s', u) == QueueOf(s, u);
      }
    }
  }

  lemma DrainedPage<E>(q: Queue<E>, inbox: Table<seq<byte>>, ns: seq<nat>, user: Text, encode: Encoder<E>, decode: Decoder<E>)
    requires SameInbox(q, inbox, user, ns, encode, decode)
    ensures var page := Page(q.items, SizeOf(encode));
            && page.Some? && (forall i :: 0 <= i < |page.value| ==> page.value[i].id <= |ns|)
            && Fetch(Limit(Select(inbox.rows, user), MaxPageItems), decode, 0, 0) == Some(Renamed(page.value, ns))
  {
    LinkedIds(q.items, Select(inbox.rows, user), ns, encode, decode);
    FetchLinked(q.items, Select(inbox.rows, user), ns, 0, 0, encode, decode);
  }

  lemma DrainStep<B, K, E>(s: Store<B, K, E>, db: Db<B, K>, names: Names, user: Text, ack: Option<nat>, encode: Encoder<E>, decode: Decoder<E>)
    requires SameInboxes(s, db.inbox, names, encode, decode) && db.inbox.last < TWO63
    requires SoundAck(QueueOf(s, user).last, Select(db.inbox.rows, user), ack)
    ensures var (s', page) := DrainFor(s, user, ack, SizeOf(encode));
            var (db', page') := DrainRows(db, user, RenamedAck(ack, NamesOf(names, user)), decode);
            && SameInboxes(s', db'.inbox, names, encode, decode) && page.Some?
            && (forall i :: 0 <= i < |page.value| ==> page.value[i].id <= |NamesOf(names, user)|)
            && page' == Some(Renamed(page.value, NamesOf(names, user)))
  {
    var ns := NamesOf(names, user);
    var (s', page) := DrainFor(s, user, ack, SizeOf(encode));
    var inbox' := Kept(db.inbox, user, RenamedAck(ack, ns));
    DrainKeepsInboxes(s, db.inbox, names, user, ack, encode, decode);
    assert SameInbox(QueueOf(s', user), inbox', user, ns, encode, decode);
    DrainedPage(QueueOf(s', user), inbox', ns, user, encode, decode);
    assert page == Page(QueueOf(s', user).items, SizeOf(encode));
  }

  /** One call on both sides: the same answer, and stores that are related again. */
  ghost predicate StaysRelated<B, K, E>(s: Store<B, K, E>, db: Db<B, K>, names: Names, c: Call<B, K, E>,
                                        encode: Encoder<E>, decode: Decoder<E>, columns: Columns<B, K>)
  {
    var (s', mem) := InMemory(s, c, encode);
    var (db', tab) := InTables(db, c, names, encode, decode, columns);
    && Related(s', db', NamesAfter(names, db, c), encode, decode)
    && SameAnswer(mem, tab, c, names)
    && db'.inbox.last <= db.inbox.last + 1
  }

  lemma PublishRelated<B, K, E>(s: Store<B, K, E>, db: Db<B, K>, names: Names, c: Call<B, K, E>,
                            encode: Encoder<E>, decode: Decoder<E>, columns: Columns<B, K>)
    requires c.PublishCall? && Related(s, db, names, encode, decode) && Allowed(s, db, c, encode, decode, columns) && db.inbox.last < TWO63
    ensures StaysRelated(s, db, names, c, encode, decode, columns)
  {
    if c.valid {
      PublishStep(s.bundles, db, c.bundle, columns);
      OthersKeepInboxes(s, Publish(s, c.bundle), db.inbox, names, encode, decode);
    }
  }

  lemma AcquireRelated<B, K, E>(s: Store<B, K, E>, db: Db<B, K>, names: Names, c: Call<B, K, E>,
                            encode: Encoder<E>, decode: Decoder<E>, columns: Columns<B, K>)
    requires c.AcquireCall? && Related(s, db, names, encode, decode) && Allowed(s, db, c, encode, decode, columns) && db.inbox.last < TWO63
    ensures StaysRelated(s, db, names, c, encode, decode, columns)
  {
    var (s', r) := Acquire(s, c.user);
    var (db', r') := AcquireRows(db, c.user);
    AcquireStep(s, db, c.user);
    OthersKeepInboxes(s, s', db.inbox, names, encode, decode);
    assert Related(s', db', names, encode, decode) && r == r';
  }

  lemma EnqueueBoth<B, K, E>(s: Store<B, K, E>, db: Db<B, K>, names: Names, user: Text, e: E, payload: seq<byte>,
                             encode: Encoder<E>, decode: Decoder<E>)
    requires Related(s, db, names, encode, decode) && Stored(e, payload, encode, decode)
    ensures Related(EnqueueFor(s, user, e), db.(inbox := Insert(db.inbox, user, payload)),
                    names[user := NamesOf(names, user) + [db.inbox.last + 1]], encode, decode)
  {
    EnqueueStep(s, db.inbox, names, user, e, payload, encode, decode);
    OthersKeepBundles(s.bundles, db, db.(inbox := Insert(db.inbox, user, payload)));
  }

  lemma EnqueueAnswers<B, K, E>(s: Store<B, K, E>, db: Db<B, K>, names: Names, c: Call<B, K, E>, payload: seq<byte>,
                                encode: Encoder<E>, decode: Decoder<E>, columns: Columns<B, K>)
    requires c.EnqueueCall? && encode(c.envelope) == Some(payload)
    ensures InMemory(s, c, encode) == (EnqueueFor(s, c.user, c.envelope), Done(true))
    ensures InTables(db, c, names, encode, decode, columns) == (db.(inbox := Insert(db.inbox, c.user, payload)), Done(true))
    ensures NamesAfter(names, db, c) == names[c.user := NamesOf(names, c.user) + [db.inbox.last + 1]]
    ensures Insert(db.inbox, c.user, payload).last == db.inbox.last + 1
  {
  }

  lemma EnqueueRelated<B, K, E>(s: Store<B, K, E>, db: Db<B, K>, names: Names, c: Call<B, K, E>,
                            encode: Encoder<E>, decode: Decoder<E>, columns: Columns<B, K>)
    requires c.EnqueueCall? && Related(s, db, names, encode, decode) && Allowed(s, db, c, encode, decode, columns) && db.inbox.last < TWO63
    ensures StaysRelated(s, db, names, c, encode, decode, columns)
  {
    EnqueueBoth(s, db, names, c.user, c.envelope, encode(c.envelope).value, encode, decode);
    EnqueueAnswers(s, db, names, c, encode(c.envelope).value, encode, decode, columns);
  }

  lemma DrainRelated<B, K, E>(s: Store<B, K, E>, db: Db<B, K>, names: Names, c: Call<B, K, E>,
                            encode: Encoder<E>, decode: Decoder<E>, columns: Columns<B, K>)
    requires c.DrainCall? && Related(s, db, names, encode, decode) && Allowed(s, db, c, encode, decode, columns) && db.inbox.last < TWO63
    ensures StaysRelated(s, db, names, c, encode, decode, columns)
  {
    DrainStep(s, db, names, c.user, c.ack, encode, decode);
    OthersKeepBundles(s.bundles, db, DrainRows(db, c.user, RenamedAck(c.ack, NamesOf(names, c.user)), decode).0);
  }

  lemma StepRelated<B, K, E>(s: Store<B, K, E>, db: Db<B, K>, names: Names, c: Call<B, K, E>,
                             encode: Encoder<E>, decode: Decoder<E>, columns: Columns<B, K>)
    requires Related(s, db, names, encode, decode) && Allowed(s, db, c, encode, decode, columns) && db.inbox.last < TWO63
    ensures StaysRelated(s, db, names, c, encode, decode, columns)
  {
    match c
    case PublishCall(_, _) => PublishRelated(s, db, names, c, encode, decode, columns);
    case AcquireCall(_) => AcquireRelated(s, db, names, c, encode, decode, columns);
    case EnqueueCall(_, _) => EnqueueRelated(s, db, names, c, encode, decode, columns);
    case DrainCall(_, _) => DrainRelated(s, db, names, c, encode, decode, columns);
  }

  ghost predicate AllowedRun<B, K, E>(s: Store<B, K, E>, db: Db<B, K>, names: Names, calls: seq<Call<B, K, E>>,
                                      encode: Encoder<E>, decode: Decoder<E>, columns: Columns<B, K>)
    decreases |calls|
  {
    calls == [] || (Allowed(s, db, calls[0], encode, decode, columns)
                    && AllowedRun(InMemory(s, calls[0], encode).0, InTables(db, calls[0], names, encode, decode, columns).0,
                                  NamesAfter(names, db, calls[0]), calls[1..], encode, decode, columns))
  }

  /** Both stores, given the same calls, give the same answers all along, under names that always
      keep the order of enqueueing. */
  ghost predicate Agree<B, K, E>(s: Store<B, K, E>, db: Db<B, K>, names: Names, calls: seq<Call<B, K, E>>,
                                 encode: Encoder<E>, decode: Decoder<E>, columns: Columns<B, K>)
    decreases |calls|
  {
    && (forall u :: Increasing(NamesOf(names, u), db.inbox.last))
    && (calls != [] ==>
          var (s', mem) := InMemory(s, calls[0], encode);
          var (db', tab) := InTables(db, calls[0], names, encode, decode, columns);
          && SameAnswer(mem, tab, calls[0], names)
          && Agree(s', db', NamesAfter(names, db, calls[0]), calls[1..], encode, decode, columns))
  }

  lemma {:induction false} RelatedAgree<B, K, E>(s: Store<B, K, E>, db: Db<B, K>, names: Names, calls: seq<Call<B, K, E>>,
                                                 encode: Encoder<E>, decode: Decoder<E>, columns: Columns<B, K>)
    requires Related(s, db, names, encode, decode) && AllowedRun(s, db, names, calls, encode, decode, columns)
    requires db.inbox.last + |calls| <= TWO63
    ensures Agree(s, db, names, calls, encode, decode, columns)
    decreases |calls|
  {
    forall u ensures Increasing(NamesOf(names, u), db.inbox.last) {
      assert SameInbox(QueueOf(s, u), db.inbox, u, NamesOf(names, u), encode, decode);
    }
    if calls != [] {
      StepRelated(s, db, names, calls[0], encode, decode, columns);
      RelatedAgree(InMemory(s, calls[0], encode).0, InTables(db, calls[0], names, encode, decode, columns).0,
                   NamesAfter(names, db, calls[0]), calls[1..], encode, decode, columns);
    }
  }

  /** Store refinement: from empty stores, as long as row ids last, every run agrees. */
  lemma SqliteRefinesMemory<B, K, E>(calls: seq<Call<B, K, E>>, encode: Encoder<E>, decode: Decoder<E>, columns: Columns<B, K>)
    requires AllowedRun(EmptyStore<B, K, E>(), EmptyDb(), map[], calls, encode, decode, columns) && |calls| <= TWO63
    ensures Agree(EmptyStore(), EmptyDb(), map[], calls, encode, decode, columns)
  {
    RelatedAgree(EmptyStore<B, K, E>(), EmptyDb<B, K>(), map[], calls, encode, decode, columns);
  }

  // ---- the conditions are exact ----

  /** The answers to a publish agree if and only if the bundle is refused anyway or its row and all
      its key rows fit their columns. */
  lemma PublishedAlikeIff<B, K, E>(s: Store<B, K, E>, db: Db<B, K>, names: Names, b: Bundle<B, K>, valid: bool,
                                   encode: Encoder<E>, decode: Decoder<E>, columns: Columns<B, K>)
    ensures var c := PublishCall(b, valid);
            SameAnswer(InMemory(s, c, encode).1, InTables(db, c, names, encode, decode, columns).1, c, names)
            <==> !valid || Storable(b, columns)
  {
  }

  lemma FetchedSome<E>(rows: seq<Row<seq<byte>>>, decode: Decoder<E>)
    requires rows != []
    ensures Fetch(Limit(rows, MaxPageItems), decode, 0, 0) != Some([])
  {
    LimitTail(rows, MaxPageItems);
  }

  /** What an id that was never given out leaves on both sides. */
  lemma UnsoundAck<E>(q: Queue<E>, inbox: Table<seq<byte>>, ns: seq<nat>, user: Text, ack: nat, encode: Encoder<E>, decode: Decoder<E>)
    requires Ordered(inbox) && SameInbox(q, inbox, user, ns, encode, decode) && ack > q.last
    requires !SoundAck(q.last, Select(inbox.rows, user), Some(ack))
    ensures DropAcked(q.items, Some(ack)) == [] && Select(Kept(inbox, user, RenamedAck(Some(ack), ns)).rows, user) != []
  {
    LinkedIds(q.items, Select(inbox.rows, user), ns, encode, decode);
    AllDropped(q.items, ack);
    LaterNone(Select(inbox.rows, user), AsInt64(ack));
    WithoutAckedSelect(inbox.rows, user, AsInt64(ack), user, 0, 0, inbox.last);
  }

  /** On related stores the answers to a drain agree if and only if the acknowledged id was given
      out or every row id of the user is at most what the id is cast to. */
  lemma DrainedAlikeIff<B, K, E>(s: Store<B, K, E>, db: Db<B, K>, names: Names, user: Text, ack: Option<nat>,
                                 encode: Encoder<E>, decode: Decoder<E>, columns: Columns<B, K>)
    requires Related(s, db, names, encode, decode) && db.inbox.last < TWO63
    ensures var c := DrainCall(user, ack);
            SameAnswer(InMemory(s, c, encode).1, InTables(db, c, names, encode, decode, columns).1, c, names)
            <==> SoundAck(QueueOf(s, user).last, Select(db.inbox.rows, user), ack)
  {
    var ns, q := NamesOf(names, user), QueueOf(s, user);
    assert SameInbox(q, db.inbox, user, ns, encode, decode);
    if SoundAck(q.last, Select(db.inbox.rows, user), ack) {
      DrainStep(s, db, names, user, ack, encode, decode);
    } else {
      UnsoundAck(q, db.inbox, ns, user, ack.value, encode, decode);
      UnsoundPages(s, db, ns, user, ack.value, encode, decode);
    }
  }

  lemma UnsoundPages<B, K, E>(s: Store<B, K, E>, db: Db<B, K>, ns: seq<nat>, user: Text, ack: nat, encode: Encoder<E>, decode: Decoder<E>)
    requires DropAcked(QueueOf(s, user).items, Some(ack)) == []
    requires Select(Kept(db.inbox, user, RenamedAck(Some(ack), ns)).rows, user) != []
    ensures DrainFor(s, user, Some(ack), SizeOf(encode)).1 == Some([])
    ensures DrainRows(db, user, RenamedAck(Some(ack), ns), decode).1 != Some([])
  {
    FetchedSome(Select(Kept(db.inbox, user, RenamedAck(Some(ack), ns)).rows, user), decode);
  }

  lemma {:induction false} DropBefore<E>(items: seq<Item<E>>, i: Item<E>, ack: nat)
    requires (forall k :: 0 <= k < |items| ==> items[k].id <= ack) && ack < i.id
    ensures DropAcked(items + [i], Some(ack)) == [i]
    decreases |items|
  {
    if items == [] {
      assert items + [i] == [i];
    } else {
      assert (items + [i])[1..] == items[1..] + [i];
      DropBefore(items[1..], i, ack);
    }
  }

  lemma {:induction false} LaterBefore<V>(rows: seq<Row<V>>, r: Row<V>, ack: int)
    requires (forall k :: 0 <= k < |rows| ==> rows[k].rowid <= ack) && ack < r.rowid
    ensures Later(rows + [r], ack) == [r]
    decreases |rows|
  {
    if rows == [] {
      assert rows + [r] == [r] && [r][1..] == [] && [r] + [] == [r];
    } else {
      assert (rows + [r])[1..] == rows[1..] + [r];
      LaterBefore(rows[1..], r, ack);
    }
  }

  /** The rows of a user are named at most as late as its last id. */
  lemma {:induction false} NamedBefore<E>(items: seq<Item<E>>, rows: seq<Row<seq<byte>>>, ns: seq<nat>, last: nat,
                                          encode: Encoder<E>, decode: Decoder<E>)
    requires Linked(items, rows, ns, encode, decode) && Increasing(ns, last)
    ensures forall k :: 0 <= k < |rows| ==> rows[k].rowid <= NameOf(ns, |ns|)
    decreases |items|
  {
    if items != [] {
      NamedBefore(items[1..], rows[1..], ns, last, encode, decode);
      assert forall k :: 0 < k < |rows| ==> rows[k] == rows[1..][k-1];
    }
  }

  /** Draining a newly enqueued envelope after acknowledging all before it. */
  lemma NewestDrained<E>(q: Queue<E>, inbox: Table<seq<byte>>, ns: seq<nat>, user: Text, e: E, payload: seq<byte>,
                         encode: Encoder<E>, decode: Decoder<E>)
    requires Ordered(inbox) && SameInbox(q, inbox, user, ns, encode, decode) && inbox.last < TWO63 && encode(e) == Some(payload)
    ensures var q', inbox' := Enqueue(q, e), Insert(inbox, user, payload);
            var name := RenamedAck(Some(q.last), ns + [inbox.last + 1]);
            && DropAcked(q'.items, Some(q.last)) == [Item(q.last + 1, e)]
            && Select(Kept(inbox', user, name).rows, user) == [Row(inbox.last + 1, user, payload)]
  {
    var rows, r := Select(inbox.rows, user), Row(inbox.last + 1, user, payload);
    LinkedIds(q.items, rows, ns, encode, decode);
    DropBefore(q.items, Item(q.last + 1, e), q.last);
    NamedBefore(q.items, rows, ns, inbox.last, encode, decode);
    LaterBefore(rows, r, NameOf(ns, |ns|));
    SelectAppend(inbox.rows, r, user);
    InsertKeeps(inbox, user, payload);
    assert NameOf(ns + [inbox.last + 1], |ns|) == NameOf(ns, |ns|);
    KeptLater(Insert(inbox, user, payload), user, NameOf(ns, |ns|));
  }

  lemma OneItemPage<E>(i: Item<E>, payload: seq<byte>, encode: Encoder<E>)
    requires encode(i.envelope) == Some(payload)
    ensures Page([i], SizeOf(encode)) == Some([i])
  {
    var items := [i];
    assert items[1..] == [] && items[..1] == items;
    FittingHead(items, SizeOf(encode), |payload|, 0, 0);
  }

  lemma OneRowPage<E>(row: Row<seq<byte>>, decode: Decoder<E>)
    ensures Fetch(Limit([row], MaxPageItems), decode, 0, 0) ==
            if decode(row.value).None? then None else Some([Item(row.rowid, decode(row.value).value)])
  {
    assert Limit([row], MaxPageItems) == [row] && [row][1..] == [];
    if decode(row.value).Some? {
      FetchHead([row], decode, decode(row.value).value, 0, 0);
      assert [Item(row.rowid, decode(row.value).value)] + [] == [Item(row.rowid, decode(row.value).value)];
    }
  }

  /** The pages of that drain. */
  lemma NewestPages<B, K, E>(s: Store<B, K, E>, db: Db<B, K>, names: Names, user: Text, e: E, payload: seq<byte>,
                             encode: Encoder<E>, decode: Decoder<E>)
    requires SameInboxes(s, db.inbox, names, encode, decode) && db.inbox.last < TWO63 && encode(e) == Some(payload)
    ensures var ack, ns := Some(QueueOf(s, user).last), NamesOf(names, user) + [db.inbox.last + 1];
            && DrainFor(EnqueueFor(s, user, e), user, ack, SizeOf(encode)).1 == Some([Item(QueueOf(s, user).last + 1, e)])
            && DrainRows(db.(inbox := Insert(db.inbox, user, payload)), user, RenamedAck(ack, ns), decode).1
               == if decode(payload).None? then None else Some([Item(db.inbox.last + 1, decode(payload).value)])
  {
    var q := QueueOf(s, user);
    assert SameInbox(q, db.inbox, user, NamesOf(names, user), encode, decode);
    NewestDrained(q, db.inbox, NamesOf(names, user), user, e, payload, encode, decode);
    OneItemPage(Item(q.last + 1, e), payload, encode);
    OneRowPage(Row(db.inbox.last + 1, user, payload), decode);
    assert QueueOf(EnqueueFor(s, user, e), user) == Enqueue(q, e);
  }

  /** On related stores an enqueue and the drain that acknowledges all before it are answered alike
      if and only if the envelope encodes and its encoding decodes to it. */
  lemma EnqueuedAlikeIff<B, K, E>(s: Store<B, K, E>, db: Db<B, K>, names: Names, user: Text, e: E,
                                  encode: Encoder<E>, decode: Decoder<E>, columns: Columns<B, K>)
    requires Related(s, db, names, encode, decode) && db.inbox.last < TWO63
    ensures var c, d := EnqueueCall(user, e), DrainCall(user, Some(QueueOf(s, user).last));
            var (s', mem) := InMemory(s, c, encode);
            var (db', tab) := InTables(db, c, names, encode, decode, columns);
            var names' := NamesAfter(names, db, c);
            (&& SameAnswer(mem, tab, c, names')
             && SameAnswer(InMemory(s', d, encode).1, InTables(db', d, names', encode, decode, columns).1, d, names'))
            <==> encode(e).Some? && decode(encode(e).value) == Some(e)
  {
    if encode(e).Some? {
      NewestAnswers(s, db, names, user, e, encode(e).value, encode, decode, columns);
      EnqueueAnswers(s, db, names, EnqueueCall(user, e), encode(e).value, encode, decode, columns);
      assert [Item(db.inbox.last + 1, e)][0].envelope == e;
    }
  }

  /** The answers to that drain; the one from memory, renamed. */
  lemma NewestAnswers<B, K, E>(s: Store<B, K, E>, db: Db<B, K>, names: Names, user: Text, e: E, payload: seq<byte>,
                               encode: Encoder<E>, decode: Decoder<E>, columns: Columns<B, K>)
    requires SameInboxes(s, db.inbox, names, encode, decode) && db.inbox.last < TWO63 && encode(e) == Some(payload)
    ensures var d := DrainCall(user, Some(QueueOf(s, user).last));
            var s', db' := EnqueueFor(s, user, e), db.(inbox := Insert(db.inbox, user, payload));
            var names' := names[user := NamesOf(names, user) + [db.inbox.last + 1]];
            var i := Item(QueueOf(s, user).last + 1, e);
            && InMemory(s', d, encode).1 == Paged(Some([i])) && i.id <= |NamesOf(names', user)|
            && Renamed([i], NamesOf(names', user)) == [Item(db.inbox.last + 1, e)]
            && InTables(db', d, names', encode, decode, columns).1
               == Paged(if decode(payload).None? then None else Some([Item(db.inbox.last + 1, decode(payload).value)]))
  {
    NewestPages(s, db, names, user, e, payload, encode, decode);
    assert SameInbox(QueueOf(s, user), db.inbox, user, NamesOf(names, user), encode, decode);
  }

  /** The columns of the schema: every key and signature is NOT NULL. */
  function SchemaColumns(): Columns<WirePages.PrekeyBundle, Fields.OneTimePrekey> {
    Columns((b: WirePages.PrekeyBundle) =>
              b.identitySign != [] && b.identityMldsa != [] && b.identityDh != []
              && b.signedEc.publicKey != [] && b.signedEc.signatureEd25519 != [] && b.signedEc.signatureMldsa65 != []
              && b.signedPq.publicKey != [] && b.signedPq.signatureEd25519 != [] && b.signedPq.signatureMldsa65 != []
              && b.signatureEd25519 != [] && b.signatureMldsa65 != [],
            (k: Fields.OneTimePrekey) => k.publicKey != [])
  }

  /** An empty Diffie-Hellman identity key, which no signature check looks at, is taken by memory
      and refused by the tables. */
  lemma EmptyKeyDiffers<E>(s: Store<WirePages.PrekeyBundle, Fields.OneTimePrekey, E>, db: Db<WirePages.PrekeyBundle, Fields.OneTimePrekey>,
                           names: Names, b: Bundle<WirePages.PrekeyBundle, Fields.OneTimePrekey>, encode: Encoder<E>, decode: Decoder<E>)
    requires b.body.identityDh == []
    ensures InMemory(s, PublishCall(b, true), encode).1 == Done(true)
    ensures InTables(db, PublishCall(b, true), names, encode, decode, SchemaColumns()).1 == Done(false)
  {
    assert !SchemaColumns().body(b.body);
  }

  /** Such an id at or above 2^63 is cast to a negative one: memory drops all, the table nothing. */
  lemma LargeAckDiffers<B, K, E>(s: Store<B, K, E>, db: Db<B, K>, names: Names, user: Text, ack: nat,
                                 encode: Encoder<E>, decode: Decoder<E>, columns: Columns<B, K>)
    requires Related(s, db, names, encode, decode) && db.inbox.last < TWO63 && TWO63 <= ack < TWO64
    requires QueueOf(s, user).last < TWO63
    ensures var c := DrainCall(user, Some(ack));
            SameAnswer(InMemory(s, c, encode).1, InTables(db, c, names, encode, decode, columns).1, c, names)
            <==> QueueOf(s, user).items == []
  {
    DrainedAlikeIff(s, db, names, user, Some(ack), encode, decode, columns);
    assert SameInbox(QueueOf(s, user), db.inbox, user, NamesOf(names, user), encode, decode);
    assert AsInt64(ack) < 0;
    var rows := Select(db.inbox.rows, user);
    assert rows != [] ==> rows[0].rowid > AsInt64(ack);
  }

  /** Envelopes that came in through a frame meet that condition. */
  lemma ArrivedIsStored(e: WireCodec.WireEnvelope)
    requires WirePages.Arrived(e)
    ensures WireCodec.SerializeEnvelope(e).Some?
    ensures Stored(e, WireCodec.SerializeEnvelope(e).value, WireCodec.SerializeEnvelope, WireCodec.DeserializeEnvelope)
  {
    WirePages.ArrivedFits(e);
    WireCodec.EnvelopeRoundTrip(e);
  }
}
