/** The field format under every wire message: fixed big-endian integers, length-prefixed bytes,
    tagged optionals and counted key lists. Parsing consumes a prefix and returns the rest. */
module Fields {
  import opened Wrappers
  import opened Bytes

  const MaxFieldBytes: nat := 1024 * 1024
  const MaxStringBytes: nat := 64 * 1024
  const MaxOneTimePrekeys: nat := 4096

  datatype OneTimePrekey = OneTimePrekey(id: nat, publicKey: seq<byte>)

  datatype Field =
    | U8Field(u8: nat)
    | U32Field(u32: nat)
    | U64Field(u64: nat)
    | BytesField(bytes: seq<byte>)
    | OptU32Field(optU32: Option<nat>)
    | OptU64Field(optU64: Option<nat>)
    | OptBytesField(optBytes: Option<seq<byte>>)
    | KeysField(keys: seq<OneTimePrekey>)

  /** What the reader expects next; `Bytes` carries the length limit. */
  datatype Kind = U8 | U32 | U64 | Bytes(max: nat) | OptU32 | OptU64 | OptBytes | Keys

  // ---- writing ----

  function BytesOut(b: seq<byte>): seq<byte> {
    U32Bytes(|b|) + b
  }

  function KeysOut(keys: seq<OneTimePrekey>): seq<byte> {
    if keys == [] then [] else U32Bytes(keys[0].id) + BytesOut(keys[0].publicKey) + KeysOut(keys[1..])
  }

  function Out(f: Field): seq<byte> {
    match f
    case U8Field(v) => [v % 256]
    case U32Field(v) => U32Bytes(v)
    case U64Field(v) => U64Bytes(v)
    case BytesField(b) => BytesOut(b)
    case OptU32Field(o) => if o.None? then [0] else [1] + U32Bytes(o.value)
    case OptU64Field(o) => if o.None? then [0] else [1] + U64Bytes(o.value)
    case OptBytesField(o) => if o.None? then [0] else [1] + BytesOut(o.value)
    case KeysField(keys) => U32Bytes(|keys|) + KeysOut(keys)
  }

  function OutAll(fields: seq<Field>): seq<byte> {
    if fields == [] then [] else Out(fields[0]) + OutAll(fields[1..])
  }

  // ---- reading ----

  type Parsed<T> = Option<(T, seq<byte>)>

  function InU32(b: seq<byte>): Parsed<nat> {
    if |b| < 4 then None else Some((U32Value(b[..4]), b[4..]))
  }

  function InU64(b: seq<byte>): Parsed<nat> {
    if |b| < 8 then None else Some((U64Value(b[..8]), b[8..]))
  }

  function InBytes(b: seq<byte>, max: nat): Parsed<seq<byte>> {
    match InU32(b)
    case None => None
    case Some((n, rest)) => if n > max || n > |rest| then None else Some((rest[..n], rest[n..]))
  }

  function InKeys(b: seq<byte>, count: nat): Parsed<seq<OneTimePrekey>> {
    if count == 0 then Some(([], b)) else
    match InU32(b)
    case None => None
    case Some((id, b1)) =>
      match InBytes(b1, MaxFieldBytes)
      case None => None
      case Some((key, b2)) =>
        match InKeys(b2, count - 1)
        case None => None
        case Some((keys, rest)) => Some(([OneTimePrekey(id, key)] + keys, rest))
  }

  /** The optional's tag must be 0 or 1. */
  function InTag(b: seq<byte>): Parsed<bool> {
    if b == [] || b[0] > 1 then None else Some((b[0] == 1, b[1..]))
  }

  function In(k: Kind, b: seq<byte>): Parsed<Field> {
    match k
    case U8 => if b == [] then None else Some((U8Field(b[0]), b[1..]))
    case U32 => (match InU32(b) case None => None case Some((v, r)) => Some((U32Field(v), r)))
    case U64 => (match InU64(b) case None => None case Some((v, r)) => Some((U64Field(v), r)))
    case Bytes(max) => (match InBytes(b, max) case None => None case Some((v, r)) => Some((BytesField(v), r)))
    case OptU32 =>
      (match InTag(b)
       case None => None
       case Some((false, r)) => Some((OptU32Field(None), r))
       case Some((true, b1)) =>
         match InU32(b1) case None => None case Some((v, r)) => Some((OptU32Field(Some(v)), r)))
    case OptU64 =>
      (match InTag(b)
       case None => None
       case Some((false, r)) => Some((OptU64Field(None), r))
       case Some((true, b1)) =>
         match InU64(b1) case None => None case Some((v, r)) => Some((OptU64Field(Some(v)), r)))
    case OptBytes =>
      (match InTag(b)
       case None => None
       case Some((false, r)) => Some((OptBytesField(None), r))
       case Some((true, b1)) =>
         match InBytes(b1, MaxFieldBytes) case None => None case Some((v, r)) => Some((OptBytesField(Some(v)), r)))
    case Keys =>
      match InU32(b)
      case None => None
      case Some((n, b1)) =>
        if n > MaxOneTimePrekeys then None else
        match InKeys(b1, n) case None => None case Some((keys, r)) => Some((KeysField(keys), r))
  }

  function InAll(kinds: seq<Kind>, b: seq<byte>): Parsed<seq<Field>>
    decreases |kinds|
  {
    if kinds == [] then Some(([], b)) else
    match In(kinds[0], b)
    case None => None
    case Some((f, b1)) =>
      match InAll(kinds[1..], b1)
      case None => None
      case Some((fields, rest)) => Some(([f] + fields, rest))
  }

  // ---- what fits ----

  predicate KeyFits(k: OneTimePrekey) {
    k.id < TWO32 && |k.publicKey| <= MaxFieldBytes
  }

  predicate Fits(k: Kind, f: Field) {
    match k
    case U8 => f.U8Field? && f.u8 < 256
    case U32 => f.U32Field? && f.u32 < TWO32
    case U64 => f.U64Field? && f.u64 < TWO64
    case Bytes(max) => f.BytesField? && |f.bytes| <= max
    case OptU32 => f.OptU32Field? && (f.optU32.Some? ==> f.optU32.value < TWO32)
    case OptU64 => f.OptU64Field? && (f.optU64.Some? ==> f.optU64.value < TWO64)
    case OptBytes => f.OptBytesField? && (f.optBytes.Some? ==> |f.optBytes.value| <= MaxFieldBytes)
    case Keys => f.KeysField? && |f.keys| <= MaxOneTimePrekeys && forall i :: 0 <= i < |f.keys| ==> KeyFits(f.keys[i])
  }

  predicate AllFit(kinds: seq<Kind>, fields: seq<Field>) {
    |kinds| == |fields| && forall i :: 0 <= i < |kinds| ==> Fits(kinds[i], fields[i])
  }

  predicate Limited(kinds: seq<Kind>) {
    forall i :: 0 <= i < |kinds| && kinds[i].Bytes? ==> kinds[i].max < TWO32
  }

  // ---- the two inverses ----

  lemma U32In(v: nat, rest: seq<byte>)
    requires v < TWO32
    ensures InU32(U32Bytes(v) + rest) == Some((v, rest))
  {
    U32RoundTrip(v);
    assert (U32Bytes(v) + rest)[..4] == U32Bytes(v) && (U32Bytes(v) + rest)[4..] == rest;
  }

  lemma U64In(v: nat, rest: seq<byte>)
    requires v < TWO64
    ensures InU64(U64Bytes(v) + rest) == Some((v, rest))
  {
    U64RoundTrip(v);
    assert (U64Bytes(v) + rest)[..8] == U64Bytes(v) && (U64Bytes(v) + rest)[8..] == rest;
  }

  lemma BytesIn(v: seq<byte>, max: nat, rest: seq<byte>)
    requires |v| <= max < TWO32
    ensures InBytes(BytesOut(v) + rest, max) == Some((v, rest))
  {
    Assoc(U32Bytes(|v|), v, rest);
    U32In(|v|, v + rest);
  }

  lemma KeysOutCons(id: nat, key: seq<byte>, tail: seq<OneTimePrekey>, rest: seq<byte>)
    ensures KeysOut([OneTimePrekey(id, key)] + tail) + rest == U32Bytes(id) + (BytesOut(key) + (KeysOut(tail) + rest))
  {
    var keys := [OneTimePrekey(id, key)] + tail;
    assert keys[1..] == tail;
    Assoc(U32Bytes(id), BytesOut(key), KeysOut(tail) + rest);
    Assoc(U32Bytes(id) + BytesOut(key), KeysOut(tail), rest);
  }

  lemma InKeysCons(b: seq<byte>, n: nat, id: nat, b1: seq<byte>, key: seq<byte>, b2: seq<byte>,
                   tail: seq<OneTimePrekey>, rest: seq<byte>)
    requires InU32(b) == Some((id, b1)) && InBytes(b1, MaxFieldBytes) == Some((key, b2)) && InKeys(b2, n) == Some((tail, rest))
    ensures InKeys(b, n + 1) == Some(([OneTimePrekey(id, key)] + tail, rest))
  {
  }

  lemma {:induction false} KeysIn(keys: seq<OneTimePrekey>, rest: seq<byte>)
    requires forall i :: 0 <= i < |keys| ==> KeyFits(keys[i])
    ensures InKeys(KeysOut(keys) + rest, |keys|) == Some((keys, rest))
  {
    if keys == [] {
      assert KeysOut(keys) + rest == rest;
    } else {
      var id, key, tail := keys[0].id, keys[0].publicKey, keys[1..];
      assert keys == [OneTimePrekey(id, key)] + tail;
      var b2 := KeysOut(tail) + rest;
      KeysOutCons(id, key, tail, rest);
      U32In(id, BytesOut(key) + b2);
      BytesIn(key, MaxFieldBytes, b2);
      KeysIn(tail, rest);
      InKeysCons(KeysOut(keys) + rest, |tail|, id, BytesOut(key) + b2, key, b2, tail, rest);
    }
  }

  lemma TagIn(tag: byte, rest: seq<byte>)
    requires tag <= 1
    ensures InTag([tag] + rest) == Some((tag == 1, rest))
  {
    assert ([tag] + rest)[1..] == rest;
  }

  /** Reading back what was written. */
  lemma FieldRoundTrip(k: Kind, f: Field, rest: seq<byte>)
    requires Fits(k, f) && (k.Bytes? ==> k.max < TWO32)
    ensures In(k, Out(f) + rest) == Some((f, rest))
  {
    match f
    case U8Field(v) => assert (Out(f) + rest)[1..] == rest;
    case U32Field(v) => U32In(v, rest);
    case U64Field(v) => U64In(v, rest);
    case BytesField(b) => BytesIn(b, k.max, rest);
    case KeysField(keys) =>
      Assoc(U32Bytes(|keys|), KeysOut(keys), rest);
      U32In(|keys|, KeysOut(keys) + rest);
      KeysIn(keys, rest);
    case _ => OptionalRoundTrip(k, f, rest);
  }

  lemma OptionalRoundTrip(k: Kind, f: Field, rest: seq<byte>)
    requires Fits(k, f) && (k.OptU32? || k.OptU64? || k.OptBytes?)
    ensures In(k, Out(f) + rest) == Some((f, rest))
  {
    if f.OptU32Field? && f.optU32.Some? {
      Assoc([1], U32Bytes(f.optU32.value), rest);
      TagIn(1, U32Bytes(f.optU32.value) + rest);
      U32In(f.optU32.value, rest);
    } else if f.OptU64Field? && f.optU64.Some? {
      Assoc([1], U64Bytes(f.optU64.value), rest);
      TagIn(1, U64Bytes(f.optU64.value) + rest);
      U64In(f.optU64.value, rest);
    } else if f.OptBytesField? && f.optBytes.Some? {
      Assoc([1], BytesOut(f.optBytes.value), rest);
      TagIn(1, BytesOut(f.optBytes.value) + rest);
      BytesIn(f.optBytes.value, MaxFieldBytes, rest);
    } else {
      TagIn(0, rest);
    }
  }

  lemma InU32Canonical(b: seq<byte>)
    requires InU32(b).Some?
    ensures InU32(b).value.0 < TWO32 && b == U32Bytes(InU32(b).value.0) + InU32(b).value.1
  {
    U32Canonical(b[..4]);
  }

  lemma InU64Canonical(b: seq<byte>)
    requires InU64(b).Some?
    ensures InU64(b).value.0 < TWO64 && b == U64Bytes(InU64(b).value.0) + InU64(b).value.1
  {
    U64Canonical(b[..8]);
  }

  lemma InBytesCanonical(b: seq<byte>, max: nat)
    requires InBytes(b, max).Some?
    ensures var (v, rest) := InBytes(b, max).value; |v| <= max && b == BytesOut(v) + rest
  {
    InU32Canonical(b);
    var (n, b1) := InU32(b).value;
    assert b1 == b1[..n] + b1[n..];
  }

  lemma {:induction false} InKeysCanonical(b: seq<byte>, count: nat)
    requires InKeys(b, count).Some?
    ensures var (keys, rest) := InKeys(b, count).value;
            && |keys| == count && b == KeysOut(keys) + rest
            && forall i :: 0 <= i < |keys| ==> KeyFits(keys[i])
  {
    if count == 0 {
      assert b == KeysOut([]) + b;
    } else {
      InU32Canonical(b);
      var (id, b1) := InU32(b).value;
      InBytesCanonical(b1, MaxFieldBytes);
      var (key, b2) := InBytes(b1, MaxFieldBytes).value;
      InKeysCanonical(b2, count - 1);
      var (tail, rest) := InKeys(b2, count - 1).value;
      KeysOutCons(id, key, tail, rest);
    }
  }

  lemma OptionalCanonical(k: Kind, b: seq<byte>)
    requires In(k, b).Some? && (k.OptU32? || k.OptU64? || k.OptBytes?)
    ensures var (f, rest) := In(k, b).value; Fits(k, f) && b == Out(f) + rest
  {
    assert b == [b[0]] + b[1..];
    if b[0] == 1 {
      match k
      case OptU32 => InU32Canonical(b[1..]);
      case OptU64 => InU64Canonical(b[1..]);
      case OptBytes => InBytesCanonical(b[1..], MaxFieldBytes);
    }
  }

  lemma KeysCanonical(b: seq<byte>)
    requires In(Keys, b).Some?
    ensures var (f, rest) := In(Keys, b).value; Fits(Keys, f) && b == Out(f) + rest
  {
    InU32Canonical(b);
    var (n, b1) := InU32(b).value;
    InKeysCanonical(b1, n);
  }

  /** Writing again what was read. */
  lemma FieldCanonical(k: Kind, b: seq<byte>)
    requires In(k, b).Some?
    ensures var (f, rest) := In(k, b).value; Fits(k, f) && b == Out(f) + rest
  {
    match k
    case U8 => assert b == [b[0]] + b[1..];
    case U32 => InU32Canonical(b);
    case U64 => InU64Canonical(b);
    case Bytes(max) => InBytesCanonical(b, max);
    case Keys => KeysCanonical(b);
    case _ => OptionalCanonical(k, b);
  }

  lemma OutAllCons(f: Field, fields: seq<Field>, rest: seq<byte>)
    ensures OutAll([f] + fields) + rest == Out(f) + (OutAll(fields) + rest)
  {
    assert ([f] + fields)[1..] == fields;
    Assoc(Out(f), OutAll(fields), rest);
  }

  lemma InAllCons(kinds: seq<Kind>, b: seq<byte>, f: Field, b1: seq<byte>, fields: seq<Field>, rest: seq<byte>)
    requires kinds != [] && In(kinds[0], b) == Some((f, b1)) && InAll(kinds[1..], b1) == Some((fields, rest))
    ensures InAll(kinds, b) == Some(([f] + fields, rest))
  {
  }

  lemma {:induction false} RoundTrip(kinds: seq<Kind>, fields: seq<Field>, rest: seq<byte>)
    requires AllFit(kinds, fields) && Limited(kinds)
    ensures InAll(kinds, OutAll(fields) + rest) == Some((fields, rest))
    decreases |kinds|
  {
    if kinds == [] {
      assert OutAll(fields) + rest == rest;
    } else {
      var f, tail := fields[0], fields[1..];
      assert fields == [f] + tail;
      OutAllCons(f, tail, rest);
      FieldRoundTrip(kinds[0], f, OutAll(tail) + rest);
      RoundTrip(kinds[1..], tail, rest);
      InAllCons(kinds, OutAll(fields) + rest, f, OutAll(tail) + rest, tail, rest);
    }
  }

  lemma {:induction false} Canonical(kinds: seq<Kind>, b: seq<byte>)
    requires InAll(kinds, b).Some?
    ensures var (fields, rest) := InAll(kinds, b).value; AllFit(kinds, fields) && b == OutAll(fields) + rest
    decreases |kinds|
  {
    if kinds == [] {
      assert b == OutAll([]) + b;
    } else {
      FieldCanonical(kinds[0], b);
      var (f, b1) := In(kinds[0], b).value;
      Canonical(kinds[1..], b1);
      var (tail, rest) := InAll(kinds[1..], b1).value;
      OutAllCons(f, tail, rest);
    }
  }
}
