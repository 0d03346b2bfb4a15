/** The reading half of serialization.cpp as the source runs it: field by field on a Reader,
    stopping at the first field that is not there; and the loops that write and read a page. */
module WireMessages {
  import opened Wrappers
  import opened Bytes
  import opened Messages
  import opened Fields
  import opened Mailbox
  import opened InboxPages
  import opened WireCodec
  import opened WireBuffers

  /** Where the kinds `ks` are expected from `n` on, part of them is expected from `n + i` on. */
  lemma Within(kinds: seq<Kind>, n: nat, ks: seq<Kind>, i: nat, part: seq<Kind>)
    requires n + |ks| <= |kinds| && kinds[n..n + |ks|] == ks
    requires i + |part| <= |ks| && ks[i..i + |part|] == part
    ensures kinds[n + i..n + i + |part|] == part
  {
    forall j | 0 <= j < |part| ensures kinds[n + i..n + i + |part|][j] == part[j] {
      assert part[j] == ks[i..i + |part|][j] == ks[i + j] == kinds[n..n + |ks|][i + j];
    }
  }

  method ReadTwo(r: Reader, max: nat) returns (v: Option<(Blob, Blob)>)
    requires r.Ahead([Kind.Bytes(max), Kind.Bytes(max)])
    modifies r
    ensures v.Some? ==> r.Valid() && r.fields == old(r.fields) + [BytesField(v.value.0), BytesField(v.value.1)]
    ensures v.None? ==> r.Unreadable()
  {
    var a := r.Bytes(max);
    if a.None? {
      return None;
    }
    var b := r.Bytes(max);
    if b.None? {
      return None;
    }
    return Some((a.value, b.value));
  }

  method ReadMessageHeader(r: Reader) returns (v: Option<MessageHeader<Blob>>)
    requires r.Ahead(HeaderKinds)
    modifies r
    ensures v.Some? ==> r.Valid() && r.fields == old(r.fields) + HeaderFields(v.value)
    ensures v.None? ==> r.Unreadable()
  {
    var key := r.OptionalBytes();
    if key.None? {
      return None;
    }
    var previous := r.U64();
    if previous.None? {
      return None;
    }
    var number := r.U64();
    if number.None? {
      return None;
    }
    var flags := r.U32();
    if flags.None? {
      return None;
    }
    return Some(MessageHeader(key.value, previous.value, number.value, flags.value));
  }

  method ReadChatMessage(r: Reader) returns (v: Option<WireChat>)
    requires r.Ahead(ChatKinds)
    modifies r
    ensures v.Some? ==> r.Valid() && r.fields == old(r.fields) + ChatFields(v.value)
    ensures v.None? ==> r.Unreadable()
  {
    ghost var n := |r.fields|;
    Within(r.kinds, n, ChatKinds, 0, [StrK]);
    Within(r.kinds, n, ChatKinds, 1, [StrK, StrK]);
    Within(r.kinds, n, ChatKinds, 3, HeaderKinds);
    Within(r.kinds, n, ChatKinds, 7, [BlobK, BlobK]);
    var sessionId := r.Bytes(MaxStringBytes);
    if sessionId.None? {
      return None;
    }
    var users := ReadTwo(r, MaxStringBytes);
    if users.None? {
      return None;
    }
    var header := ReadMessageHeader(r);
    if header.None? {
      return None;
    }
    var secret := ReadTwo(r, MaxFieldBytes);
    if secret.None? {
      return None;
    }
    var m := ChatMessage(sessionId.value, users.value.0, users.value.1, header.value, secret.value.0, secret.value.1);
    ChatParts(old(r.fields), m);
    return Some(m);
  }

  method ReadPrekeySelection(r: Reader) returns (v: Option<PrekeySelection>)
    requires r.Ahead(SelectionKinds)
    modifies r
    ensures v.Some? ==> r.Valid() && r.fields == old(r.fields) + SelectionFields(v.value)
    ensures v.None? ==> r.Unreadable()
  {
    var ec := r.U32();
    if ec.None? {
      return None;
    }
    var pq := r.U32();
    if pq.None? {
      return None;
    }
    var oneTimeEc := r.OptionalU32();
    if oneTimeEc.None? {
      return None;
    }
    var oneTimePq := r.OptionalU32();
    if oneTimePq.None? {
      return None;
    }
    return Some(PrekeySelection(ec.value, pq.value, oneTimeEc.value, oneTimePq.value));
  }

  method ReadFour(r: Reader, max: nat) returns (v: Option<(Blob, Blob, Blob, Blob)>)
    requires r.Ahead([Kind.Bytes(max), Kind.Bytes(max), Kind.Bytes(max), Kind.Bytes(max)])
    modifies r
    ensures v.Some? ==> r.Valid() && r.fields == old(r.fields) + Four(v.value)
    ensures v.None? ==> r.Unreadable()
  {
    ghost var n, all := |r.fields|, [Kind.Bytes(max), Kind.Bytes(max), Kind.Bytes(max), Kind.Bytes(max)];
    Within(r.kinds, n, all, 0, [Kind.Bytes(max), Kind.Bytes(max)]);
    Within(r.kinds, n, all, 2, [Kind.Bytes(max), Kind.Bytes(max)]);
    var a := ReadTwo(r, max);
    if a.None? {
      return None;
    }
    var b := ReadTwo(r, max);
    if b.None? {
      return None;
    }
    return Some((a.value.0, a.value.1, b.value.0, b.value.1));
  }

  function Opening(names: (Text, Text, Text, Text), suite: Text, keys: (Blob, Blob, Blob, Blob), selected: PrekeySelection): WireInitial {
    InitialMessage(names.0, names.1, names.2, names.3, suite, keys.0, keys.1, keys.2, keys.3, selected, [], None, [], [], [], [], [])
  }

  function Four(t: (Blob, Blob, Blob, Blob)): seq<Field> {
    [BytesField(t.0), BytesField(t.1), BytesField(t.2), BytesField(t.3)]
  }

  lemma OpeningParts(before: seq<Field>, names: (Text, Text, Text, Text), suite: Text, keys: (Blob, Blob, Blob, Blob), selected: PrekeySelection)
    ensures before + Four(names) + [BytesField(suite)] + Four(keys) + SelectionFields(selected)
            == before + InitialFields(Opening(names, suite, keys, selected))[..13]
  {
    assert InitialFields(Opening(names, suite, keys, selected))[..13]
        == Four(names) + [BytesField(suite)] + Four(keys) + SelectionFields(selected);
  }

  /** The names, the public keys and the prekeys of an initial message. */
  method ReadOpening(r: Reader) returns (v: Option<WireInitial>)
    requires r.Ahead(InitialKinds)
    modifies r
    ensures v.Some? ==> r.Valid() && r.fields == old(r.fields) + InitialFields(v.value)[..13]
    ensures v.None? ==> r.Unreadable()
  {
    ghost var n := |r.fields|;
    Within(r.kinds, n, InitialKinds, 0, [StrK, StrK, StrK, StrK]);
    Within(r.kinds, n, InitialKinds, 4, [StrK]);
    Within(r.kinds, n, InitialKinds, 5, [BlobK, BlobK, BlobK, BlobK]);
    Within(r.kinds, n, InitialKinds, 9, SelectionKinds);
    var names := ReadFour(r, MaxStringBytes);
    if names.None? {
      return None;
    }
    var suite := r.Bytes(MaxStringBytes);
    if suite.None? {
      return None;
    }
    var keys := ReadFour(r, MaxFieldBytes);
    if keys.None? {
      return None;
    }
    var selected := ReadPrekeySelection(r);
    if selected.None? {
      return None;
    }
    OpeningParts(old(r.fields), names.value, suite.value, keys.value, selected.value);
    return Some(Opening(names.value, suite.value, keys.value, selected.value));
  }

  /** What follows the opening of an initial message. */
  function WithProofs(o: WireInitial, kem: Blob, oneTime: Option<Blob>, hash: Blob, secret: (Blob, Blob, Blob, Blob)): WireInitial {
    o.(kemSigned := kem, kemOneTime := oneTime, transcriptHash := hash,
    signatureEd25519 := secret.0, signatureMldsa65 := secret.1, nonce := secret.2, ciphertext := secret.3)
  }

  lemma InitialParts(before: seq<Field>, o: WireInitial, kem: Blob, oneTime: Option<Blob>, hash: Blob, secret: (Blob, Blob, Blob, Blob))
    ensures before + InitialFields(o)[..13] + [BytesField(kem), OptBytesField(oneTime), BytesField(hash)]
            + Four(secret)
            == before + InitialFields(WithProofs(o, kem, oneTime, hash, secret))
  {
    var f, g := InitialFields(o), InitialFields(WithProofs(o, kem, oneTime, hash, secret));
    assert f[..13] == g[..13];
    assert g == g[..13] + [BytesField(kem), OptBytesField(oneTime), BytesField(hash),
                           BytesField(secret.0), BytesField(secret.1), BytesField(secret.2), BytesField(secret.3)];
  }

  method ReadKem(r: Reader) returns (v: Option<(Blob, Option<Blob>, Blob)>)
    requires r.Ahead([BlobK, OptBytes, BlobK])
    modifies r
    ensures v.Some? ==> r.Valid() && r.fields == old(r.fields) + [BytesField(v.value.0), OptBytesField(v.value.1), BytesField(v.value.2)]
    ensures v.None? ==> r.Unreadable()
  {
    var kem := r.Bytes(MaxFieldBytes);
    if kem.None? {
      return None;
    }
    var oneTime := r.OptionalBytes();
    if oneTime.None? {
      return None;
    }
    var hash := r.Bytes(MaxFieldBytes);
    if hash.None? {
      return None;
    }
    return Some((kem.value, oneTime.value, hash.value));
  }

  method ReadInitialMessage(r: Reader) returns (v: Option<WireInitial>)
    requires r.Ahead(InitialKinds)
    modifies r
    ensures v.Some? ==> r.Valid() && r.fields == old(r.fields) + InitialFields(v.value)
    ensures v.None? ==> r.Unreadable()
  {
    ghost var n := |r.fields|;
    Within(r.kinds, n, InitialKinds, 13, [BlobK, OptBytes, BlobK]);
    Within(r.kinds, n, InitialKinds, 16, [BlobK, BlobK, BlobK, BlobK]);
    var opening := ReadOpening(r);
    if opening.None? {
      return None;
    }
    var k := ReadKem(r);
    if k.None? {
      return None;
    }
    var (kem, oneTime, hash) := k.value;
    var secret := ReadFour(r, MaxFieldBytes);
    if secret.None? {
      return None;
    }
    InitialParts(old(r.fields), opening.value, kem, oneTime, hash, secret.value);
    return Some(WithProofs(opening.value, kem, oneTime, hash, secret.value));
  }

  /** A message that follows a one-byte tag. */
  lemma TaggedIn(kinds: seq<Kind>, b: Blob)
    requires b != []
    ensures InAll([Kind.U8] + kinds, b) ==
            match InAll(kinds, b[1..]) {
              case None => None
              case Some((fields, rest)) => Some(([U8Field(b[0])] + fields, rest))
            }
  {
    assert ([Kind.U8] + kinds)[1..] == kinds;
  }

  /** What a reader that has come to its end has read. */
  lemma ReadAll(kinds: seq<Kind>, b: Blob, fields: seq<Field>, rest: Blob)
    requires |fields| == |kinds| && Pending(kinds, b, fields, rest)
    ensures InAll(kinds, b) == Some((fields, rest))
  {
    assert kinds[|fields|..] == [] && fields + [] == fields;
  }

  method DecodeInitial(r: Reader) returns (v: Option<WireInitial>)
    requires r.bytes != [] && |r.bytes| <= MaxInputBytes && r.kinds == [Kind.U8] + InitialKinds
    requires r.Valid() && r.fields == [U8Field(r.bytes[0])]
    modifies r
    ensures v == match Decode(InitialKinds, r.bytes[1..]) {
                   case None => None
                   case Some(f) => DecodeCanonical(InitialKinds, r.bytes[1..]); Some(InitialOf(f))
                 }
  {
    TaggedIn(InitialKinds, r.bytes);
    v := ReadInitialMessage(r);
    if v.None? {
      return None;
    }
    ghost var f := InitialFields(v.value);
    ReadAll(r.kinds, r.bytes, r.fields, r.bytes[r.pos..]);
    assert r.fields[1..] == f;
    if r.pos != |r.bytes| {
      return None;
    }
    DecodeCanonical(InitialKinds, r.bytes[1..]);
    FieldsOfInitial(v.value, f);
  }

  method DecodeChat(r: Reader) returns (v: Option<WireChat>)
    requires r.bytes != [] && |r.bytes| <= MaxInputBytes && r.kinds == [Kind.U8] + ChatKinds
    requires r.Valid() && r.fields == [U8Field(r.bytes[0])]
    modifies r
    ensures v == match Decode(ChatKinds, r.bytes[1..]) {
                   case None => None
                   case Some(f) => DecodeCanonical(ChatKinds, r.bytes[1..]); Some(ChatOf(f))
                 }
  {
    TaggedIn(ChatKinds, r.bytes);
    v := ReadChatMessage(r);
    if v.None? {
      return None;
    }
    ghost var f := ChatFields(v.value);
    ReadAll(r.kinds, r.bytes, r.fields, r.bytes[r.pos..]);
    assert r.fields[1..] == f;
    if r.pos != |r.bytes| {
      return None;
    }
    DecodeCanonical(ChatKinds, r.bytes[1..]);
    FieldsOfChat(v.value, f);
  }

  method DecodeEnvelope(b: Blob) returns (v: Option<WireEnvelope>)
    ensures v == DeserializeEnvelope(b)
  {
    if |b| > MaxInputBytes {
      return None;
    }
    ghost var kinds := if b != [] && b[0] == 0 then InitialKinds else ChatKinds;
    var r := new Reader(b, [Kind.U8] + kinds);
    var tag := r.U8();
    if tag.None? {
      return None;
    }
    assert r.fields == [U8Field(b[0])];
    if tag.value == 0 {
      var m := DecodeInitial(r);
      return if m.None? then None else Some(FromInitial(m.value));
    } else if tag.value == 1 {
      var m := DecodeChat(r);
      return if m.None? then None else Some(FromChat(m.value));
    } else {
      return None;
    }
  }

  // ---- pages ----

  /** `out` is the encoding of the items before `i`; those from `i` on complete it. */
  ghost predicate PageSoFar(items: seq<Item<WireEnvelope>>, i: nat, out: Blob)
    requires i <= |items|
  {
    SerializeInbox(items, SerializeEnvelope) ==
    match ItemsOut(items[i..], SerializeEnvelope) {
      case None => None
      case Some(tail) => Some(out + tail)
    }
  }

  lemma PageStep(items: seq<Item<WireEnvelope>>, i: nat, out: Blob)
    requires i < |items| && PageSoFar(items, i, out)
    ensures var e := SerializeEnvelope(items[i].envelope);
            if e.None? then SerializeInbox(items, SerializeEnvelope).None?
            else PageSoFar(items, i + 1, out + U64Bytes(items[i].id) + BytesOut(e.value))
  {
    assert items[i..][1..] == items[i+1..];
    var e, more := SerializeEnvelope(items[i].envelope), ItemsOut(items[i+1..], SerializeEnvelope);
    if e.Some? && more.Some? {
      Assoc(out, U64Bytes(items[i].id), BytesOut(e.value));
      Assoc(out, U64Bytes(items[i].id) + BytesOut(e.value), more.value);
      Assoc(U64Bytes(items[i].id), BytesOut(e.value), more.value);
    }
  }

  method EncodeInbox(items: seq<Item<WireEnvelope>>) returns (r: Option<Blob>)
    ensures r == SerializeInbox(items, SerializeEnvelope)
  {
    var w := new Writer();
    w.Push32(|items|);
    assert items[0..] == items && [] + U32Bytes(|items|) == U32Bytes(|items|);
    for i := 0 to |items|
      invariant PageSoFar(items, i, w.out)
    {
      PageStep(items, i, w.out);
      var e := EncodeEnvelope(items[i].envelope);
      if e.None? {
        return None;
      }
      w.Push64(items[i].id);
      w.PushBytes(e.value);
    }
    assert items[|items|..] == [] && w.out + [] == w.out;
    return Some(w.out);
  }

  /** `items` have been read off `b`, and the others of the page are expected in `rest`. */
  ghost predicate ItemsSoFar<E>(b: Blob, count: nat, items: seq<Item<E>>, rest: Blob, decode: Decoder<E>)
    requires |items| <= count
  {
    InItems(b, count, decode) == Extended(items, InItems(rest, count - |items|, decode))
  }

  lemma ItemsStart<E>(b: Blob, count: nat, decode: Decoder<E>)
    ensures ItemsSoFar(b, count, [], b, decode)
  {
    var all := InItems(b, count, decode);
    if all.Some? {
      assert [] + all.value.0 == all.value.0;
    }
  }

  lemma NextItem<E>(rest: Blob, n: nat, id: nat, rest1: Blob, e: Blob, rest2: Blob, decode: Decoder<E>)
    requires InU64(rest) == Some((id, rest1)) && InBytes(rest1, MaxFieldBytes) == Some((e, rest2))
    ensures InItems(rest, n + 1, decode) ==
            if decode(e).None? then None else Extended([Item(id, decode(e).value)], InItems(rest2, n, decode))
  {
  }

  function Extended<E>(items: seq<Item<E>>, more: Parsed<seq<Item<E>>>): Parsed<seq<Item<E>>> {
    match more
    case None => None
    case Some((tail, end)) => Some((items + tail, end))
  }

  lemma ExtendedTwice<E>(items: seq<Item<E>>, i: Item<E>, more: Parsed<seq<Item<E>>>)
    ensures Extended(items, Extended([i], more)) == Extended(items + [i], more)
  {
    if more.Some? {
      assert items + ([i] + more.value.0) == (items + [i]) + more.value.0;
    }
  }

  lemma ItemsStep<E>(b: Blob, count: nat, items: seq<Item<E>>, rest: Blob, id: nat, rest1: Blob, e: Blob, rest2: Blob, decode: Decoder<E>)
    requires |items| < count && ItemsSoFar(b, count, items, rest, decode)
    requires InU64(rest) == Some((id, rest1)) && InBytes(rest1, MaxFieldBytes) == Some((e, rest2))
    ensures if decode(e).None? then InItems(b, count, decode).None?
            else ItemsSoFar(b, count, items + [Item(id, decode(e).value)], rest2, decode)
  {
    var n := count - |items| - 1;
    NextItem(rest, n, id, rest1, e, rest2, decode);
    if decode(e).Some? {
      ExtendedTwice(items, Item(id, decode(e).value), InItems(rest2, n, decode));
    }
  }

  method DecodeInbox(b: Blob) returns (v: Option<seq<Item<WireEnvelope>>>)
    ensures v == DeserializeInbox(b, DeserializeEnvelope)
  {
    if |b| > MaxInputBytes {
      return None;
    }
    var r := new Reader(b, []);
    assert b[0..] == b;
    var count := r.Take32();
    if count.None? || count.value > MaxVectorItems {
      return None;
    }
    ghost var start := r.bytes[r.pos..];
    ItemsStart(start, count.value, DeserializeEnvelope);
    var items := [];
    while |items| < count.value
      invariant r.pos <= |r.bytes| && |items| <= count.value
      invariant ItemsSoFar(start, count.value, items, r.bytes[r.pos..], DeserializeEnvelope)
    {
      ghost var before := r.bytes[r.pos..];
      var id := r.Take64();
      ghost var middle := r.bytes[r.pos..];
      if id.None? {
        return None;
      }
      var e := r.TakeBytes(MaxFieldBytes);
      if e.None? {
        return None;
      }
      ItemsStep(start, count.value, items, before, id.value, middle, e.value, r.bytes[r.pos..], DeserializeEnvelope);
      var envelope := DecodeEnvelope(e.value);
      if envelope.None? {
        return None;
      }
      items := items + [Item(id.value, envelope.value)];
    }
    assert items + [] == items;
    return if r.pos == |b| then Some(items) else None;
  }
}
