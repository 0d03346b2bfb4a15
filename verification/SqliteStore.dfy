/** The SQLite store: global tables whose rows carry a growing row id and the user they belong to.
    SQL statements are functions on tables; a method is one transaction and restores its tables
    on rollback. */
module SqliteStore {
  import opened Wrappers
  import opened Bytes
  import opened Mailbox
  import opened InboxPages

  const TWO63: nat := 0x8000_0000_0000_0000

  datatype Row<V> = Row(rowid: nat, user: Text, value: V)

  /** A table with an AUTOINCREMENT key, in the order of that key; `last` is never given out again. */
  datatype Table<V> = Table(rows: seq<Row<V>>, last: nat)

  function Insert<V>(t: Table<V>, user: Text, v: V): Table<V> {
    Table(t.rows + [Row(t.last + 1, user, v)], t.last + 1)
  }

  function InsertAll<V>(t: Table<V>, user: Text, vs: seq<V>): Table<V>
    decreases |vs|
  {
    if vs == [] then t else InsertAll(Insert(t, user, vs[0]), user, vs[1..])
  }

  /** SELECT … WHERE user_id = ? ORDER BY rowid. */
  function Select<V>(rows: seq<Row<V>>, user: Text): seq<Row<V>> {
    if rows == [] then []
    else if rows[0].user == user then [rows[0]] + Select(rows[1..], user)
    else Select(rows[1..], user)
  }

  /** DELETE … WHERE user_id = ?. */
  function WithoutUser<V>(rows: seq<Row<V>>, user: Text): seq<Row<V>> {
    if rows == [] then []
    else if rows[0].user == user then WithoutUser(rows[1..], user)
    else [rows[0]] + WithoutUser(rows[1..], user)
  }

  /** DELETE … WHERE rowid = ?. */
  function WithoutRow<V>(rows: seq<Row<V>>, rowid: nat): seq<Row<V>> {
    if rows == [] then []
    else if rows[0].rowid == rowid then WithoutRow(rows[1..], rowid)
    else [rows[0]] + WithoutRow(rows[1..], rowid)
  }

  /** DELETE … WHERE user_id = ? AND id <= ?. */
  function WithoutAcked<V>(rows: seq<Row<V>>, user: Text, ack: int): seq<Row<V>> {
    if rows == [] then []
    else if rows[0].user == user && rows[0].rowid <= ack then WithoutAcked(rows[1..], user, ack)
    else [rows[0]] + WithoutAcked(rows[1..], user, ack)
  }

  /** The cast of an unsigned 64-bit value to `sqlite3_int64`. */
  function AsInt64(v: nat): int {
    if v % TWO64 < TWO63 then v % TWO64 else v % TWO64 - TWO64
  }

  datatype Db<B, K> = Db(bundles: map<Text, B>, ec: Table<K>, pq: Table<K>, inbox: Table<seq<byte>>)

  function EmptyDb<B, K>(): Db<B, K> {
    Db(map[], Table([], 0), Table([], 0), Table([], 0))
  }

  /** Which bundle rows and which key rows their NOT NULL columns take; an empty blob is bound as NULL. */
  datatype Columns<!B, !K> = Columns(body: B -> bool, key: K -> bool)

  predicate AllStored<K>(keys: seq<K>, stored: K -> bool) {
    forall i :: 0 <= i < |keys| ==> stored(keys[i])
  }

  /** The columns take the bundle's own row and every row of its keys. */
  predicate Storable<B, K>(b: Bundle<B, K>, columns: Columns<B, K>) {
    columns.body(b.body) && AllStored(b.ec, columns.key) && AllStored(b.pq, columns.key)
  }

  function PublishRows<B, K>(db: Db<B, K>, b: Bundle<B, K>, valid: bool, columns: Columns<B, K>): (Db<B, K>, bool) {
    if !valid || !Storable(b, columns) then (db, false) else
    (db.(bundles := db.bundles[b.user := b.body],
     ec := InsertAll(db.ec.(rows := WithoutUser(db.ec.rows, b.user)), b.user, b.ec),
     pq := InsertAll(db.pq.(rows := WithoutUser(db.pq.rows, b.user)), b.user, b.pq)), true)
  }

  function AcquireRows<B, K>(db: Db<B, K>, user: Text): (Db<B, K>, Option<Bundle<B, K>>) {
    if user !in db.bundles then (db, None) else
    var ec, pq := Select(db.ec.rows, user), Select(db.pq.rows, user);
    if ec == [] || pq == [] then (db, Some(Bundle(user, db.bundles[user], [], []))) else
    (db.(ec := db.ec.(rows := WithoutRow(db.ec.rows, ec[0].rowid)), pq := db.pq.(rows := WithoutRow(db.pq.rows, pq[0].rowid))),
     Some(Bundle(user, db.bundles[user], [ec[0].value], [pq[0].value])))
  }

  function EnqueueRow<B, K, E>(db: Db<B, K>, user: Text, e: E, encode: Encoder<E>): (Db<B, K>, bool) {
    match encode(e)
    case None => (db, false)
    case Some(payload) => (db.(inbox := Insert(db.inbox, user, payload)), true)
  }

  /** LIMIT 128. */
  function Limit<V>(rows: seq<V>, n: nat): seq<V> {
    if |rows| <= n then rows else rows[..n]
  }

  /** The row-fetch loop on a page of `count` items and `bytes` bytes; `None` when a row does not decode. */
  function Fetch<E>(rows: seq<Row<seq<byte>>>, decode: Decoder<E>, count: nat, bytes: nat): Option<seq<Item<E>>> {
    if rows == [] then Some([]) else
    var length := |rows[0].value| + ItemOverhead;
    if count > 0 && bytes + length > MaxPageBytes then Some([]) else
    match (decode(rows[0].value), Fetch(rows[1..], decode, count + 1, bytes + length))
    case (Some(e), Some(tail)) => Some([Item(rows[0].rowid, e)] + tail)
    case _ => None
  }

  /** A row that does not decode rolls the whole drain back, its acknowledgement included. */
  function DrainRows<B, K, E>(db: Db<B, K>, user: Text, ack: Option<nat>, decode: Decoder<E>): (Db<B, K>, Option<seq<Item<E>>>) {
    var rows := if ack.None? then db.inbox.rows else WithoutAcked(db.inbox.rows, user, AsInt64(ack.value));
    match Fetch(Limit(Select(rows, user), MaxPageItems), decode, 0, 0)
    case None => (db, None)
    case Some(page) => (db.(inbox := db.inbox.(rows := rows)), Some(page))
  }

  /** The store object; every call holds its mutex and is one transaction. */
  class SqliteServer<B, K> {
    var bundles: map<Text, B>
    var ec: Table<K>
    var pq: Table<K>
    var inbox: Table<seq<byte>>

    ghost function State(): Db<B, K>
      reads this
    {
      Db(bundles, ec, pq, inbox)
    }

    constructor ()
      ensures State() == EmptyDb()
    {
      bundles, ec, pq, inbox := map[], Table([], 0), Table([], 0), Table([], 0);
    }

    /** Inserts keys one by one, up to the first that a column does not take. */
    static method InsertKeys(t: Table<K>, user: Text, keys: seq<K>, stored: K -> bool) returns (r: Option<Table<K>>)
      ensures r == if AllStored(keys, stored) then Some(InsertAll(t, user, keys)) else None
    {
      var out := t;
      for i := 0 to |keys|
        invariant AllStored(keys[..i], stored) && InsertAll(t, user, keys) == InsertAll(out, user, keys[i..])
      {
        if !stored(keys[i]) {
          return None;
        }
        assert keys[i..][1..] == keys[i+1..] && keys[..i+1] == keys[..i] + [keys[i]];
        out := Insert(out, user, keys[i]);
      }
      assert keys[..|keys|] == keys;
      return Some(out);
    }

    /** `valid` is the outcome of the version, suite and signature checks. */
    method PublishBundle(b: Bundle<B, K>, valid: bool, columns: Columns<B, K>) returns (ok: bool)
      modifies this
      ensures (State(), ok) == PublishRows(old(State()), b, valid, columns)
    {
      if !valid || !columns.body(b.body) {
        return false;
      }
      var before := bundles;
      bundles := bundles[b.user := b.body];
      var newEc := InsertKeys(ec.(rows := WithoutUser(ec.rows, b.user)), b.user, b.ec, columns.key);
      if newEc.None? {
        bundles := before;
        return false;
      }
      var newPq := InsertKeys(pq.(rows := WithoutUser(pq.rows, b.user)), b.user, b.pq, columns.key);
      if newPq.None? {
        bundles := before;
        return false;
      }
      ec, pq := newEc.value, newPq.value;
      return true;
    }

    method AcquireBundleForSession(user: Text) returns (r: Option<Bundle<B, K>>)
      modifies this
      ensures (State(), r) == AcquireRows(old(State()), user)
    {
      if user !in bundles {
        return None;
      }
      var out := Bundle(user, bundles[user], [], []);
      var ecRows, pqRows := Select(ec.rows, user), Select(pq.rows, user);
      if ecRows != [] && pqRows != [] {
        out := out.(ec := out.ec + [ecRows[0].value], pq := out.pq + [pqRows[0].value]);
        assert out.ec == [ecRows[0].value] && out.pq == [pqRows[0].value];
        ec := ec.(rows := WithoutRow(ec.rows, ecRows[0].rowid));
        pq := pq.(rows := WithoutRow(pq.rows, pqRows[0].rowid));
      }
      return Some(out);
    }

    method EnqueueEnvelope<E>(user: Text, e: E, encode: Encoder<E>) returns (ok: bool)
      modifies this
      ensures (State(), ok) == EnqueueRow(old(State()), user, e, encode)
    {
      var payload := encode(e);
      if payload.None? {
        return false;
      }
      inbox := Insert(inbox, user, payload.value);
      return true;
    }

    method DrainInbox<E>(user: Text, ack: Option<nat>, decode: Decoder<E>) returns (page: Option<seq<Item<E>>>)
      modifies this
      ensures (State(), page) == DrainRows(old(State()), user, ack, decode)
    {
      var before := inbox;
      if ack.Some? {
        inbox := inbox.(rows := WithoutAcked(inbox.rows, user, AsInt64(ack.value)));
      }
      page := FetchPage(Limit(Select(inbox.rows, user), MaxPageItems), decode);
      if page.None? {
        inbox := before;
      }
    }

    static method FetchPage<E>(rows: seq<Row<seq<byte>>>, decode: Decoder<E>) returns (page: Option<seq<Item<E>>>)
      ensures page == Fetch(rows, decode, 0, 0)
    {
      var out: seq<Item<E>> := [];
      var total: nat := 0;
      FetchStart(rows, decode);
      while |out| < |rows|
        invariant |out| <= |rows| && FetchSoFar(rows, decode, out, total)
      {
        var row := rows[|out|];
        var estimated := |row.value| + ItemOverhead;
        FetchStep(rows, decode, out, total);
        if out != [] && total + estimated > MaxPageBytes {
          break;
        }
        var envelope := decode(row.value);
        if envelope.None? {
          return None;
        }
        total := total + estimated;
        out := out + [Item(row.rowid, envelope.value)];
      }
      assert out + [] == out;
      return Some(out);
    }
  }

  /** `out` has been fetched, with `total` bytes; the other rows of the page are still to come. */
  ghost predicate FetchSoFar<E>(rows: seq<Row<seq<byte>>>, decode: Decoder<E>, out: seq<Item<E>>, total: nat)
    requires |out| <= |rows|
  {
    Fetch(rows, decode, 0, 0) ==
    match Fetch(rows[|out|..], decode, |out|, total) {
      case None => None
      case Some(tail) => Some(out + tail)
    }
  }

  lemma FetchStart<E>(rows: seq<Row<seq<byte>>>, decode: Decoder<E>)
    ensures FetchSoFar(rows, decode, [], 0)
  {
    assert rows[0..] == rows;
    var all := Fetch(rows, decode, 0, 0);
    if all.Some? {
      assert [] + all.value == all.value;
    }
  }

  lemma FetchStep<E>(rows: seq<Row<seq<byte>>>, decode: Decoder<E>, out: seq<Item<E>>, total: nat)
    requires |out| < |rows| && FetchSoFar(rows, decode, out, total)
    ensures var row := rows[|out|];
            var length := |row.value| + ItemOverhead;
            if out != [] && total + length > MaxPageBytes then Fetch(rows[|out|..], decode, |out|, total) == Some([])
            else if decode(row.value).None? then Fetch(rows, decode, 0, 0).None?
            else FetchSoFar(rows, decode, out + [Item(row.rowid, decode(row.value).value)], total + length)
  {
    var row := rows[|out|];
    assert rows[|out|..][1..] == rows[|out|+1..];
    var more := Fetch(rows[|out|+1..], decode, |out| + 1, total + |row.value| + ItemOverhead);
    if decode(row.value).Some? && more.Some? {
      var i := Item(row.rowid, decode(row.value).value);
      assert out + ([i] + more.value) == (out + [i]) + more.value;
    }
  }
}
