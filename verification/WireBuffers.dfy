/** The Writer and Reader objects of serialization.cpp. A writer's buffer is always the encoding of
    the fields written so far; a reader has always parsed exactly what lies before its position. */
module WireBuffers {
  import opened Wrappers
  import opened Bytes
  import opened Messages
  import opened Fields
  import opened Nonces
  import opened InboxPages
  import opened WireCodec
  import opened WirePages

  lemma {:induction false} OutAllAppend(fields: seq<Field>, f: Field)
    ensures OutAll(fields + [f]) == OutAll(fields) + Out(f)
  {
    if fields == [] {
      assert [f][1..] == [];
      assert OutAll([f]) == Out(f) + [];
      assert fields + [f] == [f];
    } else {
      var tail := fields[1..];
      assert (fields + [f])[1..] == tail + [f];
      OutAllAppend(tail, f);
      Assoc(Out(fields[0]), OutAll(tail), Out(f));
    }
  }

  class Writer {
    var out: seq<byte>
    ghost var fields: seq<Field>

    ghost predicate Valid()
      reads this
    {
      out == OutAll(fields)
    }

    constructor ()
      ensures Valid() && fields == []
    {
      out, fields := [], [];
    }

    method Push32(v: nat)
      modifies this`out
      ensures out == old(out) + U32Bytes(v)
    {
      out := out + [v / 0x100_0000 % 256];
      out := out + [v / 0x1_0000 % 256];
      out := out + [v / 0x100 % 256];
      out := out + [v % 256];
    }

    method Push64(v: nat)
      modifies this`out
      ensures out == old(out) + U64Bytes(v)
    {
      var i := 8;
      while i > 0
        invariant 0 <= i <= 8
        invariant out == old(out) + U64Bytes(v)[..8-i]
      {
        i := i - 1;
        U64ByteAt(v, i);
        var shifted := Shift(v, i);
        out := out + [shifted % 256];
        assert U64Bytes(v)[..8-i] == U64Bytes(v)[..7-i] + [U64Bytes(v)[7-i]];
      }
      assert U64Bytes(v)[..8] == U64Bytes(v);
    }

    /** `v >> (8 * n)`. */
    static method Shift(v: nat, n: nat) returns (r: nat)
      ensures r == Shifted(v, n)
    {
      r := v;
      for i := 0 to n
        invariant r == Shifted(v, i)
      {
        r := r / 256;
      }
    }

    method PushBytes(b: seq<byte>)
      modifies this`out
      ensures out == old(out) + BytesOut(b)
    {
      Push32(|b|);
      out := out + b;
    }

    /** Records, for the proof only, the field just written. */
    ghost method Wrote(f: Field, before: seq<byte>)
      requires before == OutAll(fields) && out == before + Out(f)
      modifies this`fields
      ensures Valid() && fields == old(fields) + [f]
    {
      OutAllAppend(fields, f);
      fields := fields + [f];
    }

    method U8(v: byte)
      requires Valid()
      modifies this
      ensures Valid() && fields == old(fields) + [U8Field(v)]
    {
      ghost var before := out;
      out := out + [v];
      Wrote(U8Field(v), before);
    }

    method U32(v: nat)
      requires Valid()
      modifies this
      ensures Valid() && fields == old(fields) + [U32Field(v)]
    {
      ghost var before := out;
      Push32(v);
      Wrote(U32Field(v), before);
    }

    method U64(v: nat)
      requires Valid()
      modifies this
      ensures Valid() && fields == old(fields) + [U64Field(v)]
    {
      ghost var before := out;
      Push64(v);
      Wrote(U64Field(v), before);
    }

    method Bytes(b: seq<byte>)
      requires Valid()
      modifies this
      ensures Valid() && fields == old(fields) + [BytesField(b)]
    {
      ghost var before := out;
      PushBytes(b);
      Wrote(BytesField(b), before);
    }

    method OptionalU32(o: Option<nat>)
      requires Valid()
      modifies this
      ensures Valid() && fields == old(fields) + [OptU32Field(o)]
    {
      ghost var before := out;
      out := out + [if o.Some? then 1 else 0];
      if o.Some? {
        Push32(o.value);
        Assoc(before, [1], U32Bytes(o.value));
      }
      Wrote(OptU32Field(o), before);
    }

    method OptionalBytes(o: Option<seq<byte>>)
      requires Valid()
      modifies this
      ensures Valid() && fields == old(fields) + [OptBytesField(o)]
    {
      ghost var before := out;
      out := out + [if o.Some? then 1 else 0];
      if o.Some? {
        PushBytes(o.value);
        Assoc(before, [1], BytesOut(o.value));
      }
      Wrote(OptBytesField(o), before);
    }

    /** WriteOneTimeEc and WriteOneTimePq. */
    method OneTimeKeys(keys: seq<OneTimePrekey>)
      requires Valid()
      modifies this
      ensures Valid() && fields == old(fields) + [KeysField(keys)]
    {
      ghost var before := out;
      Push32(|keys|);
      ghost var start := out;
      for i := 0 to |keys|
        invariant before == OutAll(fields) && fields == old(fields)
        invariant start + KeysOut(keys) == out + KeysOut(keys[i..])
      {
        ghost var done, tail := out, KeysOut(keys[i+1..]);
        Push32(keys[i].id);
        PushBytes(keys[i].publicKey);
        assert keys[i..][1..] == keys[i+1..];
        Assoc(done, U32Bytes(keys[i].id), BytesOut(keys[i].publicKey));
        Assoc(done, U32Bytes(keys[i].id) + BytesOut(keys[i].publicKey), tail);
      }
      assert keys[|keys|..] == [] && out + [] == out;
      Assoc(before, U32Bytes(|keys|), KeysOut(keys));
      Wrote(KeysField(keys), before);
    }
  }

  method WriteTwo(w: Writer, a: Blob, b: Blob)
    requires w.Valid()
    modifies w
    ensures w.Valid() && w.fields == old(w.fields) + [BytesField(a), BytesField(b)]
  {
    w.Bytes(a);
    w.Bytes(b);
  }

  method WriteMessageHeader(w: Writer, h: MessageHeader<Blob>)
    requires w.Valid()
    modifies w
    ensures w.Valid() && w.fields == old(w.fields) + HeaderFields(h)
  {
    w.OptionalBytes(h.ratchetKey);
    w.U64(h.previousChainLength);
    w.U64(h.messageNumber);
    w.U32(h.flags);
  }

  lemma ChatParts(before: seq<Field>, m: WireChat)
    ensures before + [BytesField(m.sessionId)] + [BytesField(m.fromUser), BytesField(m.toUser)] + HeaderFields(m.header)
            + [BytesField(m.nonce), BytesField(m.ciphertext)] == before + ChatFields(m)
  {
  }

  method WriteChatMessage(w: Writer, m: WireChat)
    requires w.Valid()
    modifies w
    ensures w.Valid() && w.fields == old(w.fields) + ChatFields(m)
  {
    w.Bytes(m.sessionId);
    WriteTwo(w, m.fromUser, m.toUser);
    WriteMessageHeader(w, m.header);
    WriteTwo(w, m.nonce, m.ciphertext);
    ChatParts(old(w.fields), m);
  }

  method WriteNames(w: Writer, m: WireInitial)
    requires w.Valid()
    modifies w
    ensures w.Valid() && w.fields == old(w.fields) + InitialFields(m)[..5]
  {
    w.Bytes(m.sessionId);
    w.Bytes(m.fromUser);
    w.Bytes(m.toUser);
    w.Bytes(m.version);
    w.Bytes(m.cipherSuite);
  }

  method WritePublicKeys(w: Writer, m: WireInitial)
    requires w.Valid()
    modifies w
    ensures w.Valid() && w.fields == old(w.fields) + InitialFields(m)[5..9]
  {
    WriteTwo(w, m.identitySign, m.identityMldsa);
    WriteTwo(w, m.identityDh, m.ephemeral);
  }

  method WritePrekeySelection(w: Writer, m: WireInitial)
    requires w.Valid()
    modifies w
    ensures w.Valid() && w.fields == old(w.fields) + InitialFields(m)[9..13]
  {
    w.U32(m.selected.signedEcId);
    w.U32(m.selected.signedPqId);
    w.OptionalU32(m.selected.oneTimeEcId);
    w.OptionalU32(m.selected.oneTimePqId);
  }

  method WriteProofs(w: Writer, m: WireInitial)
    requires w.Valid()
    modifies w
    ensures w.Valid() && w.fields == old(w.fields) + InitialFields(m)[13..]
  {
    w.Bytes(m.kemSigned);
    w.OptionalBytes(m.kemOneTime);
    w.Bytes(m.transcriptHash);
    WriteTwo(w, m.signatureEd25519, m.signatureMldsa65);
    WriteTwo(w, m.nonce, m.ciphertext);
  }

  lemma Parts(before: seq<Field>, f: seq<Field>)
    requires |f| >= 13
    ensures before + f[..5] + f[5..9] + f[9..13] + f[13..] == before + f
  {
  }

  method WriteInitialMessage(w: Writer, m: WireInitial)
    requires w.Valid()
    modifies w
    ensures w.Valid() && w.fields == old(w.fields) + InitialFields(m)
  {
    WriteNames(w, m);
    WritePublicKeys(w, m);
    WritePrekeySelection(w, m);
    WriteProofs(w, m);
    Parts(old(w.fields), InitialFields(m));
  }

  lemma TaggedOut(tag: byte, fields: seq<Field>)
    ensures OutAll([U8Field(tag)] + fields) == [tag] + OutAll(fields)
  {
    assert ([U8Field(tag)] + fields)[1..] == fields;
  }

  method EncodeEnvelope(e: WireEnvelope) returns (r: Option<Blob>)
    ensures r == SerializeEnvelope(e)
  {
    var w := new Writer();
    if e.kind.KindInitial? {
      if e.initial.None? {
        return None;
      }
      w.U8(0);
      WriteInitialMessage(w, e.initial.value);
      TaggedOut(0, InitialFields(e.initial.value));
    } else {
      if e.chat.None? {
        return None;
      }
      w.U8(1);
      WriteChatMessage(w, e.chat.value);
      TaggedOut(1, ChatFields(e.chat.value));
    }
    return Some(w.out);
  }

  // ---- reading ----

  /** `fields` have been read off `b`, and the other kinds are expected in `rest`. */
  ghost predicate Pending(kinds: seq<Kind>, b: seq<byte>, fields: seq<Field>, rest: seq<byte>)
    requires |fields| <= |kinds|
  {
    InAll(kinds, b) ==
    match InAll(kinds[|fields|..], rest) {
      case None => None
      case Some((tail, end)) => Some((fields + tail, end))
    }
  }

  lemma PendingStart(kinds: seq<Kind>, b: seq<byte>)
    ensures Pending(kinds, b, [], b)
  {
    assert kinds[0..] == kinds;
    if InAll(kinds, b).Some? {
      assert [] + InAll(kinds, b).value.0 == InAll(kinds, b).value.0;
    }
  }

  lemma PendingStep(kinds: seq<Kind>, b: seq<byte>, fields: seq<Field>, rest: seq<byte>, f: Field, rest': seq<byte>)
    requires |fields| < |kinds| && Pending(kinds, b, fields, rest) && In(kinds[|fields|], rest) == Some((f, rest'))
    ensures Pending(kinds, b, fields + [f], rest')
  {
    var todo := kinds[|fields|..];
    assert todo[1..] == kinds[|fields + [f]|..];
    var more := InAll(todo[1..], rest');
    if more.Some? {
      assert fields + ([f] + more.value.0) == (fields + [f]) + more.value.0;
    }
  }

  class Reader {
    const bytes: seq<byte>
    var pos: nat
    ghost const kinds: seq<Kind>
    ghost var fields: seq<Field>

    ghost predicate Valid()
      reads this
    {
      pos <= |bytes| && |fields| <= |kinds| && Pending(kinds, bytes, fields, bytes[pos..])
    }

    /** The next field to read is of kind `k`. */
    ghost predicate Next(k: Kind)
      reads this
    {
      Valid() && |fields| < |kinds| && kinds[|fields|] == k
    }

    /** The next fields to read are of kinds `ks`. */
    ghost predicate Ahead(ks: seq<Kind>)
      reads this
    {
      Valid() && |fields| + |ks| <= |kinds| && kinds[|fields|..|fields| + |ks|] == ks
    }

    ghost predicate Unreadable()
      reads this
    {
      InAll(kinds, bytes).None?
    }

    constructor (bytes: seq<byte>, ghost kinds: seq<Kind>)
      ensures this.bytes == bytes && this.kinds == kinds && Valid() && fields == [] && pos == 0
    {
      this.bytes, this.kinds := bytes, kinds;
      pos, fields := 0, [];
      new;
      PendingStart(kinds, bytes);
      assert bytes[0..] == bytes;
    }

    /** Records, for the proof only, whether the next field was there. */
    ghost method Read(start: nat, f: Option<Field>)
      requires start <= pos <= |bytes| && |fields| < |kinds| && Pending(kinds, bytes, fields, bytes[start..])
      requires In(kinds[|fields|], bytes[start..]) == if f.None? then None else Some((f.value, bytes[pos..]))
      modifies this`fields
      ensures f.Some? ==> Valid() && fields == old(fields) + [f.value]
      ensures f.None? ==> Unreadable()
    {
      if f.Some? {
        PendingStep(kinds, bytes, fields, bytes[start..], f.value, bytes[pos..]);
        fields := fields + [f.value];
      }
    }

    /** Four bytes at the position, if they are there. */
    method Take32() returns (v: Option<nat>)
      requires pos <= |bytes|
      modifies this`pos
      ensures pos <= |bytes|
      ensures InU32(old(bytes[pos..])) == if v.None? then None else Some((v.value, bytes[pos..]))
      ensures old(pos) <= pos
    {
      if pos + 4 > |bytes| {
        return None;
      }
      ghost var rest := bytes[pos..];
      assert rest[..4] == [bytes[pos], bytes[pos+1], bytes[pos+2], bytes[pos+3]];
      v := Some(bytes[pos] as nat * 0x100_0000 + bytes[pos+1] as nat * 0x1_0000 + bytes[pos+2] as nat * 0x100 + bytes[pos+3] as nat);
      pos := pos + 4;
      assert rest[4..] == bytes[pos..];
    }

    method TakeBytes(max: nat) returns (v: Option<seq<byte>>)
      requires pos <= |bytes|
      modifies this`pos
      ensures old(pos) <= pos <= |bytes|
      ensures InBytes(old(bytes[pos..]), max) == if v.None? then None else Some((v.value, bytes[pos..]))
    {
      var n := Take32();
      if n.None? || n.value > max || pos + n.value > |bytes| {
        return None;
      }
      ghost var rest := bytes[pos..];
      v := Some(bytes[pos..pos + n.value]);
      pos := pos + n.value;
      assert v.value == rest[..n.value] && bytes[pos..] == rest[n.value..];
    }

    method U8() returns (v: Option<byte>)
      requires Next(Kind.U8)
      modifies this
      ensures v.Some? ==> Valid() && fields == old(fields) + [U8Field(v.value)] && old(pos) < |bytes| && v.value == bytes[old(pos)]
      ensures v.None? ==> Unreadable()
    {
      ghost var start := pos;
      v := None;
      if pos + 1 <= |bytes| {
        v := Some(bytes[pos]);
        pos := pos + 1;
      }
      Read(start, if v.None? then None else Some(U8Field(v.value)));
    }

    method U32() returns (v: Option<nat>)
      requires Next(Kind.U32)
      modifies this
      ensures v.Some? ==> Valid() && fields == old(fields) + [U32Field(v.value)]
      ensures v.None? ==> Unreadable()
    {
      ghost var start := pos;
      v := Take32();
      Read(start, if v.None? then None else Some(U32Field(v.value)));
    }

    method Bytes(max: nat) returns (v: Option<seq<byte>>)
      requires Next(Kind.Bytes(max))
      modifies this
      ensures v.Some? ==> Valid() && fields == old(fields) + [BytesField(v.value)]
      ensures v.None? ==> Unreadable()
    {
      ghost var start := pos;
      v := TakeBytes(max);
      Read(start, if v.None? then None else Some(BytesField(v.value)));
    }

    method Take64() returns (v: Option<nat>)
      requires pos <= |bytes|
      modifies this`pos
      ensures old(pos) <= pos <= |bytes|
      ensures InU64(old(bytes[pos..])) == if v.None? then None else Some((v.value, bytes[pos..]))
    {
      if pos + 8 > |bytes| {
        return None;
      }
      ghost var rest := bytes[pos..];
      var value: nat := 0;
      for i := 0 to 8
        invariant value == Folded(bytes[pos..pos+i])
      {
        assert bytes[pos..pos+i+1] == bytes[pos..pos+i] + [bytes[pos+i]];
        value := value * 256 + bytes[pos + i] as nat;
      }
      assert bytes[pos..pos+8] == rest[..8];
      FoldedIsU64(rest[..8]);
      pos := pos + 8;
      assert bytes[pos..] == rest[8..];
      return Some(value);
    }

    /** The tag of an optional. */
    method TakeTag() returns (v: Option<bool>)
      requires pos <= |bytes|
      modifies this`pos
      ensures old(pos) <= pos <= |bytes|
      ensures InTag(old(bytes[pos..])) == if v.None? then None else Some((v.value, bytes[pos..]))
    {
      if pos + 1 > |bytes| {
        return None;
      }
      ghost var rest := bytes[pos..];
      var present := bytes[pos];
      pos := pos + 1;
      assert bytes[pos..] == rest[1..] && present == rest[0];
      if present > 1 {
        return None;
      }
      return Some(present == 1);
    }

    method U64() returns (v: Option<nat>)
      requires Next(Kind.U64)
      modifies this
      ensures v.Some? ==> Valid() && fields == old(fields) + [U64Field(v.value)]
      ensures v.None? ==> Unreadable()
    {
      ghost var start := pos;
      v := Take64();
      Read(start, if v.None? then None else Some(U64Field(v.value)));
    }

    method OptionalU32() returns (v: Option<Option<nat>>)
      requires Next(OptU32)
      modifies this
      ensures v.Some? ==> Valid() && fields == old(fields) + [OptU32Field(v.value)]
      ensures v.None? ==> Unreadable()
    {
      ghost var start := pos;
      v := None;
      var present := TakeTag();
      if present == Some(false) {
        v := Some(None);
      } else if present == Some(true) {
        var value := Take32();
        if value.Some? {
          v := Some(value);
        }
      }
      Read(start, if v.None? then None else Some(OptU32Field(v.value)));
    }

    method OptionalBytes() returns (v: Option<Option<seq<byte>>>)
      requires Next(OptBytes)
      modifies this
      ensures v.Some? ==> Valid() && fields == old(fields) + [OptBytesField(v.value)]
      ensures v.None? ==> Unreadable()
    {
      ghost var start := pos;
      v := None;
      var present := TakeTag();
      if present == Some(false) {
        v := Some(None);
      } else if present == Some(true) {
        var value := TakeBytes(MaxFieldBytes);
        if value.Some? {
          v := Some(value);
        }
      }
      Read(start, if v.None? then None else Some(OptBytesField(v.value)));
    }

    /** ReadOneTimeEc and ReadOneTimePq: a limited count, then that many keys. */
    method OneTimeKeys() returns (v: Option<seq<OneTimePrekey>>)
      requires Next(Keys)
      modifies this
      ensures v.Some? ==> Valid() && fields == old(fields) + [KeysField(v.value)]
      ensures v.None? ==> Unreadable()
    {
      ghost var start := pos;
      v := TakeKeys();
      Read(start, if v.None? then None else Some(KeysField(v.value)));
    }

    method TakeKeys() returns (v: Option<seq<OneTimePrekey>>)
      requires pos <= |bytes|
      modifies this`pos
      ensures old(pos) <= pos <= |bytes|
      ensures In(Keys, old(bytes[pos..])) == if v.None? then None else Some((KeysField(v.value), bytes[pos..]))
    {
      var count := Take32();
      if count.None? || count.value > MaxOneTimePrekeys {
        return None;
      }
      ghost var start := pos;
      var keys := [];
      KeysStart(bytes[start..], count.value);
      while |keys| < count.value
        invariant old(pos) <= start <= pos <= |bytes| && |keys| <= count.value
        invariant KeysSoFar(bytes[start..], count.value, keys, bytes[pos..])
      {
        ghost var before := bytes[pos..];
        var id := Take32();
        ghost var middle := bytes[pos..];
        if id.None? {
          return None;
        }
        var key := TakeBytes(MaxFieldBytes);
        if key.None? {
          return None;
        }
        KeysStep(bytes[start..], count.value, keys, before, id.value, middle, key.value, bytes[pos..]);
        keys := keys + [OneTimePrekey(id.value, key.value)];
      }
      assert keys + [] == keys;
      return Some(keys);
    }
  }

  /** `keys` have been read off `b`, and the others of the list are expected in `rest`. */
  ghost predicate KeysSoFar(b: seq<byte>, count: nat, keys: seq<OneTimePrekey>, rest: seq<byte>)
    requires |keys| <= count
  {
    InKeys(b, count) ==
    match InKeys(rest, count - |keys|) {
      case None => None
      case Some((tail, end)) => Some((keys + tail, end))
    }
  }

  lemma KeysStart(b: seq<byte>, count: nat)
    ensures KeysSoFar(b, count, [], b)
  {
    if InKeys(b, count).Some? {
      assert [] + InKeys(b, count).value.0 == InKeys(b, count).value.0;
    }
  }

  lemma KeysStep(b: seq<byte>, count: nat, keys: seq<OneTimePrekey>, rest: seq<byte>,
                 id: nat, rest1: seq<byte>, key: seq<byte>, rest2: seq<byte>)
    requires |keys| < count && KeysSoFar(b, count, keys, rest)
    requires InU32(rest) == Some((id, rest1)) && InBytes(rest1, MaxFieldBytes) == Some((key, rest2))
    ensures KeysSoFar(b, count, keys + [OneTimePrekey(id, key)], rest2)
  {
    var more := InKeys(rest2, count - |keys| - 1);
    if more.Some? {
      assert keys + ([OneTimePrekey(id, key)] + more.value.0) == (keys + [OneTimePrekey(id, key)]) + more.value.0;
    }
  }

  /** The value of bytes read one after the other, most significant first. */
  function Folded(b: seq<byte>): nat {
    if b == [] then 0 else Folded(b[..|b|-1]) * 256 + b[|b|-1]
  }

  lemma {:induction false} FoldedTwo(b: seq<byte>, x: byte, y: byte)
    ensures Folded(b + [x] + [y]) == Folded(b) * 0x1_0000 + x as nat * 256 + y
  {
    assert (b + [x] + [y])[..|b|+1] == b + [x] && (b + [x])[..|b|] == b;
  }

  lemma FoldedFour(b: seq<byte>, c: seq<byte>)
    requires |c| == 4
    ensures Folded(b + c) == Folded(b) * TWO32 + U32Value(c)
  {
    var b2 := b + [c[0]] + [c[1]];
    assert b + c == b2 + [c[2]] + [c[3]];
    FoldedTwo(b, c[0], c[1]);
    FoldedTwo(b2, c[2], c[3]);
  }

  lemma FoldedIsU64(b: seq<byte>)
    requires |b| == 8
    ensures Folded(b) == U64Value(b)
  {
    FoldedFour([], b[..4]);
    FoldedFour(b[..4], b[4..]);
    assert [] + b[..4] == b[..4] && b[..4] + b[4..] == b;
  }
}
