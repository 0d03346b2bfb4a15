/** The page format of an inbox and the frames that carry it. The envelope codec is a parameter;
    WirePages supplies the real one. */
module InboxPages {
  import opened Wrappers
  import opened Bytes
  import opened Fields
  import opened Mailbox

  const MaxInputBytes: nat := 8 * 1024 * 1024
  const MaxVectorItems: nat := 4096

  type Encoder<!E> = E -> Option<seq<byte>>
  type Decoder<!E> = seq<byte> -> Option<E>

  function ItemsOut<E>(items: seq<Item<E>>, encode: Encoder<E>): Option<seq<byte>> {
    if items == [] then Some([]) else
    match (encode(items[0].envelope), ItemsOut(items[1..], encode))
    case (Some(e), Some(tail)) => Some(U64Bytes(items[0].id) + (BytesOut(e) + tail))
    case _ => None
  }

  function SerializeInbox<E>(items: seq<Item<E>>, encode: Encoder<E>): Option<seq<byte>> {
    match ItemsOut(items, encode)
    case None => None
    case Some(b) => Some(U32Bytes(|items|) + b)
  }

  function InItems<E>(b: seq<byte>, count: nat, decode: Decoder<E>): Parsed<seq<Item<E>>> {
    if count == 0 then Some(([], b)) else
    match InU64(b)
    case None => None
    case Some((id, b1)) =>
      match InBytes(b1, MaxFieldBytes)
      case None => None
      case Some((e, b2)) =>
        match (decode(e), InItems(b2, count - 1, decode))
        case (Some(envelope), Some((items, rest))) => Some(([Item(id, envelope)] + items, rest))
        case _ => None
  }

  function DeserializeInbox<E>(b: seq<byte>, decode: Decoder<E>): Option<seq<Item<E>>> {
    if |b| > MaxInputBytes then None else
    match InU32(b)
    case None => None
    case Some((count, b1)) =>
      if count > MaxVectorItems then None else
      match InItems(b1, count, decode)
      case None => None
      case Some((items, rest)) => if rest == [] then Some(items) else None
  }

  /** The item survives encoding and decoding and is within the field limit. */
  predicate ItemFits<E(==)>(i: Item<E>, encode: Encoder<E>, decode: Decoder<E>) {
    && i.id < TWO64 && encode(i.envelope).Some? && |encode(i.envelope).value| <= MaxFieldBytes
    && decode(encode(i.envelope).value) == Some(i.envelope)
  }

  /** Only canonical encodings decode. */
  ghost predicate Exact<E(!new)>(encode: Encoder<E>, decode: Decoder<E>) {
    forall b :: decode(b).Some? ==> encode(decode(b).value) == Some(b)
  }

  lemma InItemsCons<E>(b: seq<byte>, n: nat, id: nat, b1: seq<byte>, e: seq<byte>, b2: seq<byte>,
                       tail: seq<Item<E>>, rest: seq<byte>, decode: Decoder<E>)
    requires InU64(b) == Some((id, b1)) && InBytes(b1, MaxFieldBytes) == Some((e, b2))
    requires decode(e).Some? && InItems(b2, n, decode) == Some((tail, rest))
    ensures InItems(b, n + 1, decode) == Some(([Item(id, decode(e).value)] + tail, rest))
  {
  }

  lemma ItemsOutCons<E>(i: Item<E>, e: seq<byte>, tail: seq<Item<E>>, t: seq<byte>, encode: Encoder<E>)
    requires encode(i.envelope) == Some(e) && ItemsOut(tail, encode) == Some(t)
    ensures ItemsOut([i] + tail, encode) == Some(U64Bytes(i.id) + (BytesOut(e) + t))
  {
    assert ([i] + tail)[1..] == tail;
  }

  lemma ItemIn<E>(i: Item<E>, e: seq<byte>, n: nat, tail: seq<Item<E>>, t: seq<byte>, decode: Decoder<E>)
    requires i.id < TWO64 && |e| <= MaxFieldBytes && decode(e) == Some(i.envelope)
    requires InItems(t, n, decode) == Some((tail, []))
    ensures InItems(U64Bytes(i.id) + (BytesOut(e) + t), n + 1, decode) == Some(([i] + tail, []))
  {
    var b := U64Bytes(i.id) + (BytesOut(e) + t);
    U64In(i.id, BytesOut(e) + t);
    BytesIn(e, MaxFieldBytes, t);
    InItemsCons(b, n, i.id, BytesOut(e) + t, e, t, tail, [], decode);
  }

  lemma {:induction false} ItemsIn<E>(items: seq<Item<E>>, encode: Encoder<E>, decode: Decoder<E>)
    requires forall i :: 0 <= i < |items| ==> ItemFits(items[i], encode, decode)
    ensures ItemsOut(items, encode).Some? && InItems(ItemsOut(items, encode).value, |items|, decode) == Some((items, []))
    decreases |items|
  {
    if items != [] {
      var item, tail := items[0], items[1..];
      assert ItemFits(item, encode, decode);
      ItemsIn(tail, encode, decode);
      var e, t := encode(item.envelope).value, ItemsOut(tail, encode).value;
      assert items == [item] + tail;
      ItemsOutCons(item, e, tail, t, encode);
      ItemIn(item, e, |tail|, tail, t, decode);
    }
  }

  /** Decoding an encoded page returns it. */
  lemma InboxRoundTrip<E>(items: seq<Item<E>>, encode: Encoder<E>, decode: Decoder<E>)
    requires |items| <= MaxVectorItems && forall i :: 0 <= i < |items| ==> ItemFits(items[i], encode, decode)
    requires SerializeInbox(items, encode).Some? ==> |SerializeInbox(items, encode).value| <= MaxInputBytes
    ensures SerializeInbox(items, encode).Some?
    ensures DeserializeInbox(SerializeInbox(items, encode).value, decode) == Some(items)
  {
    ItemsIn(items, encode, decode);
    U32In(|items|, ItemsOut(items, encode).value);
  }

  lemma EncodesBack<E(!new)>(b: seq<byte>, encode: Encoder<E>, decode: Decoder<E>)
    requires Exact(encode, decode) && decode(b).Some?
    ensures encode(decode(b).value) == Some(b)
  {
  }

  lemma {:induction false} InItemsCanonical<E(!new)>(b: seq<byte>, count: nat, encode: Encoder<E>, decode: Decoder<E>)
    requires InItems(b, count, decode).Some? && Exact(encode, decode)
    ensures var (items, rest) := InItems(b, count, decode).value;
            |items| == count && ItemsOut(items, encode).Some? && b == ItemsOut(items, encode).value + rest
  {
    if count > 0 {
      InU64Canonical(b);
      var (id, b1) := InU64(b).value;
      InBytesCanonical(b1, MaxFieldBytes);
      var (e, b2) := InBytes(b1, MaxFieldBytes).value;
      InItemsCanonical(b2, count - 1, encode, decode);
      var (tail, rest) := InItems(b2, count - 1, decode).value;
      EncodesBack(e, encode, decode);
      var t := ItemsOut(tail, encode).value;
      ItemsOutCons(Item(id, decode(e).value), e, tail, t, encode);
      Assoc(BytesOut(e), t, rest);
      Assoc(U64Bytes(id), BytesOut(e) + t, rest);
    }
  }

  /** Encoding a decoded page returns the very bytes. */
  lemma InboxCanonical<E(!new)>(b: seq<byte>, encode: Encoder<E>, decode: Decoder<E>)
    requires DeserializeInbox(b, decode).Some? && Exact(encode, decode)
    ensures SerializeInbox(DeserializeInbox(b, decode).value, encode) == Some(b)
  {
    InU32Canonical(b);
    var (count, b1) := InU32(b).value;
    InItemsCanonical(b1, count, encode, decode);
    var items := InItems(b1, count, decode).value.0;
    assert ItemsOut(items, encode).value + [] == ItemsOut(items, encode).value;
  }

  // ---- frames ----

  const MaxFramePayload: nat := 1024 * 1024

  function FrameOut(kind: nat, payload: seq<byte>): Option<seq<byte>> {
    if |payload| > MaxFramePayload then None else Some(U32Bytes(kind) + (U32Bytes(|payload|) + payload))
  }

  /** Reads one frame off a stream. */
  function FrameIn(stream: seq<byte>): Parsed<(nat, seq<byte>)> {
    match InU32(stream)
    case None => None
    case Some((kind, b)) =>
      match InBytes(b, MaxFramePayload)
      case None => None
      case Some((payload, rest)) => Some(((kind, payload), rest))
  }

  lemma FrameRoundTrip(kind: nat, payload: seq<byte>, rest: seq<byte>)
    requires kind < TWO32
    ensures FrameOut(kind, payload).Some? <==> |payload| <= MaxFramePayload
    ensures |payload| <= MaxFramePayload ==> FrameIn(FrameOut(kind, payload).value + rest) == Some(((kind, payload), rest))
  {
    if |payload| <= MaxFramePayload {
      Assoc(U32Bytes(kind), BytesOut(payload), rest);
      U32In(kind, BytesOut(payload) + rest);
      BytesIn(payload, MaxFramePayload, rest);
    }
  }

  // ---- pages fit frames ----

  /** Room that an enqueue request leaves in its frame: two length prefixes and a session token
      around the request, two length prefixes inside it. */
  const RequestOverhead: nat := 48

  function SizeOf<E>(encode: Encoder<E>): Sizer<E> {
    e => match encode(e) case None => None case Some(b) => Some(|b|)
  }

  lemma {:induction false} ItemsOutLength<E>(items: seq<Item<E>>, encode: Encoder<E>)
    requires Encodings(items, SizeOf(encode)).Some?
    ensures ItemsOut(items, encode).Some?
    ensures |ItemsOut(items, encode).value| + 4 * |items| == Encodings(items, SizeOf(encode)).value
    decreases |items|
  {
    if items != [] {
      ItemsOutLength(items[1..], encode);
    }
  }

  lemma {:induction false} FittingSucceeds<E>(items: seq<Item<E>>, encode: Encoder<E>, count: nat, bytes: nat)
    requires forall i :: 0 <= i < |items| ==> encode(items[i].envelope).Some?
    ensures Fitting(items, SizeOf(encode), count, bytes).Some?
    decreases |items|
  {
    if items != [] {
      assert encode(items[0].envelope).Some?;
      FittingSucceeds(items[1..], encode, count + 1, bytes + |encode(items[0].envelope).value| + ItemOverhead);
    }
  }

  predicate SmallEnough<E(==)>(i: Item<E>, encode: Encoder<E>, decode: Decoder<E>) {
    ItemFits(i, encode, decode) && |encode(i.envelope).value| + RequestOverhead <= MaxFramePayload
  }

  lemma PageLength<E>(p: seq<Item<E>>, encode: Encoder<E>, decode: Decoder<E>)
    requires Encodings(p, SizeOf(encode)).Some? && (|p| <= 1 || Encodings(p, SizeOf(encode)).value <= MaxPageBytes)
    requires forall i :: 0 <= i < |p| ==> SmallEnough(p[i], encode, decode)
    ensures SerializeInbox(p, encode).Some? && |SerializeInbox(p, encode).value| <= MaxFramePayload
  {
    ItemsOutLength(p, encode);
    if |p| == 1 {
      assert SmallEnough(p[0], encode, decode) && p[1..] == [];
      assert Encodings(p[1..], SizeOf(encode)) == Some(0);
    }
  }

  /** From an inbox of envelopes that each left room in the frame they came in, the server always
      builds a page: the oldest envelopes, at least one if there is any. The page fits a frame,
      even when it is a single envelope above the page limit, and decodes to itself. */
  lemma PageFitsFrame<E>(items: seq<Item<E>>, encode: Encoder<E>, decode: Decoder<E>)
    requires forall i :: 0 <= i < |items| ==> SmallEnough(items[i], encode, decode)
    ensures Page(items, SizeOf(encode)).Some?
    ensures var p := Page(items, SizeOf(encode)).value;
            && p <= items && (items != [] ==> p != []) && |p| <= MaxPageItems
            && SerializeInbox(p, encode).Some? && |SerializeInbox(p, encode).value| <= MaxFramePayload
            && DeserializeInbox(SerializeInbox(p, encode).value, decode) == Some(p)
  {
    forall i | 0 <= i < |items| ensures encode(items[i].envelope).Some? {
      assert SmallEnough(items[i], encode, decode);
    }
    FittingSucceeds(items, encode, 0, 0);
    PageBounds(items, SizeOf(encode));
    var p := Page(items, SizeOf(encode)).value;
    forall i | 0 <= i < |p| ensures SmallEnough(p[i], encode, decode) {
      assert p[i] == items[i];
    }
    PageLength(p, encode, decode);
    forall i | 0 <= i < |p| ensures ItemFits(p[i], encode, decode) {
      assert SmallEnough(p[i], encode, decode);
    }
    InboxRoundTrip(p, encode, decode);
  }
}
