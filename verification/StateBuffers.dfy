/** Saving and loading the state payload as the source does it: fields appended to a buffer, and
    read back one by one from a position that moves. */
module StateBuffers {
  import opened Wrappers
  import opened Bytes
  import opened Fields
  import opened WireBuffers
  import opened StateFile
  import opened DurableState

  // ---- writing ----

  /** The kinds of fields the state file has. */
  predicate StateField(f: Field) {
    f.U8Field? || f.U32Field? || f.U64Field? || f.BytesField? || f.OptU64Field?
  }

  method WriteField(w: Writer, f: Field)
    requires StateField(f)
    modifies w`out
    ensures w.out == old(w.out) + Out(f)
  {
    match f
    case U8Field(v) => w.out := w.out + [v % 256];
    case U32Field(v) => w.Push32(v);
    case U64Field(v) => w.Push64(v);
    case BytesField(b) => w.PushBytes(b);
    case OptU64Field(o) =>
      w.out := w.out + [if o.Some? then 1 else 0];
      if o.Some? {
        w.Push64(o.value);
        Assoc(old(w.out), [1], U64Bytes(o.value));
      }
  }

  predicate StateFields(fields: seq<Field>) {
    forall i :: 0 <= i < |fields| ==> StateField(fields[i])
  }

  method WriteFields(w: Writer, fields: seq<Field>)
    requires StateFields(fields)
    modifies w`out
    ensures w.out == old(w.out) + OutAll(fields)
  {
    assert fields[0..] == fields;
    for i := 0 to |fields|
      invariant w.out + OutAll(fields[i..]) == old(w.out) + OutAll(fields)
    {
      assert fields[i..][1..] == fields[i+1..];
      Assoc(w.out, Out(fields[i]), OutAll(fields[i+1..]));
      WriteField(w, fields[i]);
    }
    assert fields[|fields|..] == [] && w.out + [] == w.out;
  }

  predicate StateSection(s: Section) {
    match s
    case Fixed(fields) => StateFields(fields)
    case Repeated(records) => forall i :: 0 <= i < |records| ==> StateFields(records[i])
  }

  method WriteSection(w: Writer, s: Section)
    requires StateSection(s)
    modifies w`out
    ensures w.out == old(w.out) + SectionOut(s)
  {
    if s.Fixed? {
      WriteFields(w, s.fields);
    } else {
      w.Push32(|s.records|);
      ghost var start := w.out;
      assert s.records[0..] == s.records;
      for i := 0 to |s.records|
        invariant w.out + RecordsOut(s.records[i..]) == start + RecordsOut(s.records)
      {
        assert s.records[i..][1..] == s.records[i+1..];
        Assoc(w.out, OutAll(s.records[i]), RecordsOut(s.records[i+1..]));
        WriteFields(w, s.records[i]);
      }
      assert s.records[|s.records|..] == [] && w.out + [] == w.out;
      Assoc(old(w.out), U32Bytes(|s.records|), RecordsOut(s.records));
    }
  }

  method WriteSections(sections: seq<Section>) returns (b: Blob)
    requires forall i :: 0 <= i < |sections| ==> StateSection(sections[i])
    ensures b == SectionsOut(sections)
  {
    var w := new Writer();
    assert sections[0..] == sections;
    assert [] + SectionsOut(sections) == SectionsOut(sections);
    for i := 0 to |sections|
      invariant w.out + SectionsOut(sections[i..]) == SectionsOut(sections)
    {
      assert sections[i..][1..] == sections[i+1..];
      Assoc(w.out, SectionOut(sections[i]), SectionsOut(sections[i+1..]));
      WriteSection(w, sections[i]);
    }
    assert sections[|sections|..] == [] && w.out + [] == w.out;
    return w.out;
  }

  lemma EachState<T>(items: seq<T>, f: T -> seq<Field>)
    requires forall i :: 0 <= i < |items| ==> StateFields(f(items[i]))
    ensures StateSection(Repeated(Each(items, f)))
  {
  }

  lemma AllStateSections(s: Saved, peers: seq<(Text, PeerIdentity)>, sessions: seq<(Text, SavedSession)>)
    ensures forall i :: 0 <= i < 10 ==> StateSection(SectionsOf(s, peers, sessions)[i])
  {
    var x := SectionsOf(s, peers, sessions);
    EachState(s.ecPool, PoolFields);
    EachState(s.pqPool, PoolFields);
    EachState(s.seenSessions, NameFields);
    EachState(s.seenTranscripts, NameFields);
    assert StateSection(x[0]) && StateSection(x[1]) && StateSection(x[2]) && StateSection(x[3]) && StateSection(x[4]);
    assert StateSection(x[5]) && StateSection(x[6]) && StateSection(x[7]) && StateSection(x[8]) && StateSection(x[9]);
  }

  /** `peerOrder` and `sessionOrder` are the orders in which the maps are iterated over. */
  method SaveLocalState(s: Saved, peerOrder: seq<Text>, sessionOrder: seq<Text>) returns (b: Option<Blob>)
    requires Lists(peerOrder, s.peers) && Lists(sessionOrder, s.sessions)
    ensures b == SavePayload(s, peerOrder, sessionOrder)
  {
    if |s.peers| > MaxPersistedPeers || |s.sessions| > MaxPersistedSessions {
      return None;
    }
    AllStateSections(s, Listed(peerOrder, s.peers), Listed(sessionOrder, s.sessions));
    var out := WriteSections(SectionsOf(s, Listed(peerOrder, s.peers), Listed(sessionOrder, s.sessions)));
    return Some(out);
  }

  // ---- reading ----

  predicate StateKind(k: Kind) {
    k.U8? || k.U32? || k.U64? || k.Bytes? || k.OptU64?
  }

  method TakeField(r: Reader, k: Kind) returns (f: Option<Field>)
    requires r.pos <= |r.bytes| && StateKind(k)
    modifies r`pos
    ensures old(r.pos) <= r.pos <= |r.bytes|
    ensures In(k, old(r.bytes[r.pos..])) == if f.None? then None else Some((f.value, r.bytes[r.pos..]))
  {
    match k
    case U8 =>
      if r.pos + 1 > |r.bytes| {
        return None;
      }
      r.pos := r.pos + 1;
      return Some(U8Field(r.bytes[r.pos - 1]));
    case U32 =>
      var v := r.Take32();
      return if v.None? then None else Some(U32Field(v.value));
    case U64 =>
      var v := r.Take64();
      return if v.None? then None else Some(U64Field(v.value));
    case Bytes(max) =>
      var v := r.TakeBytes(max);
      return if v.None? then None else Some(BytesField(v.value));
    case OptU64 =>
      var present := r.TakeTag();
      if present.None? {
        return None;
      }
      if !present.value {
        return Some(OptU64Field(None));
      }
      var v := r.Take64();
      return if v.None? then None else Some(OptU64Field(v));
  }

  method TakeFields(r: Reader, kinds: seq<Kind>) returns (fields: Option<seq<Field>>)
    requires r.pos <= |r.bytes| && forall i :: 0 <= i < |kinds| ==> StateKind(kinds[i])
    modifies r`pos
    ensures old(r.pos) <= r.pos <= |r.bytes|
    ensures InAll(kinds, old(r.bytes[r.pos..])) == if fields.None? then None else Some((fields.value, r.bytes[r.pos..]))
  {
    ghost var b := r.bytes[r.pos..];
    var done := [];
    PendingStart(kinds, b);
    while |done| < |kinds|
      invariant old(r.pos) <= r.pos <= |r.bytes| && |done| <= |kinds|
      invariant Pending(kinds, b, done, r.bytes[r.pos..])
    {
      ghost var rest := r.bytes[r.pos..];
      var f := TakeField(r, kinds[|done|]);
      if f.None? {
        return None;
      }
      PendingStep(kinds, b, done, rest, f.value, r.bytes[r.pos..]);
      done := done + [f.value];
    }
    assert kinds[|done|..] == [] && done + [] == done;
    return Some(done);
  }

  /** `done` has been read, and what `rest` yields completes it. */
  function Completed<T>(done: seq<T>, rest: Parsed<seq<T>>): Parsed<seq<T>> {
    match rest
    case None => None
    case Some((tail, end)) => Some((done + tail, end))
  }

  lemma CompletedTwice<T>(done: seq<T>, x: T, rest: Parsed<seq<T>>)
    ensures Completed(done, Completed([x], rest)) == Completed(done + [x], rest)
    ensures Completed([], rest) == rest
  {
    if rest.Some? {
      assert done + ([x] + rest.value.0) == (done + [x]) + rest.value.0;
      assert [] + rest.value.0 == rest.value.0;
    }
  }

  method TakeRecords(r: Reader, kinds: seq<Kind>, count: nat) returns (records: Option<seq<seq<Field>>>)
    requires r.pos <= |r.bytes| && forall i :: 0 <= i < |kinds| ==> StateKind(kinds[i])
    modifies r`pos
    ensures old(r.pos) <= r.pos <= |r.bytes|
    ensures InRecords(kinds, count, old(r.bytes[r.pos..])) == if records.None? then None else Some((records.value, r.bytes[r.pos..]))
  {
    ghost var all := InRecords(kinds, count, r.bytes[r.pos..]);
    var done := [];
    CompletedTwice<seq<Field>>([], [], all);
    while |done| < count
      invariant old(r.pos) <= r.pos <= |r.bytes| && |done| <= count
      invariant all == Completed(done, InRecords(kinds, count - |done|, r.bytes[r.pos..]))
    {
      var fields := TakeFields(r, kinds);
      if fields.None? {
        return None;
      }
      CompletedTwice(done, fields.value, InRecords(kinds, count - |done| - 1, r.bytes[r.pos..]));
      done := done + [fields.value];
    }
    assert done + [] == done;
    return Some(done);
  }

  method TakeSection(r: Reader, shape: Shape) returns (s: Option<Section>)
    requires r.pos <= |r.bytes| && forall i :: 0 <= i < |shape.kinds| ==> StateKind(shape.kinds[i])
    modifies r`pos
    ensures old(r.pos) <= r.pos <= |r.bytes|
    ensures InSection(shape, old(r.bytes[r.pos..])) == if s.None? then None else Some((s.value, r.bytes[r.pos..]))
  {
    if shape.FixedShape? {
      var fields := TakeFields(r, shape.kinds);
      return if fields.None? then None else Some(Fixed(fields.value));
    }
    var count := r.Take32();
    if count.None? || count.value > shape.max {
      return None;
    }
    var records := TakeRecords(r, shape.kinds, count.value);
    return if records.None? then None else Some(Repeated(records.value));
  }

  method TakeSections(r: Reader, shapes: seq<Shape>) returns (sections: Option<seq<Section>>)
    requires r.pos <= |r.bytes|
    requires forall j, i :: 0 <= j < |shapes| && 0 <= i < |shapes[j].kinds| ==> StateKind(shapes[j].kinds[i])
    modifies r`pos
    ensures old(r.pos) <= r.pos <= |r.bytes|
    ensures InSections(shapes, old(r.bytes[r.pos..])) == if sections.None? then None else Some((sections.value, r.bytes[r.pos..]))
  {
    ghost var all := InSections(shapes, r.bytes[r.pos..]);
    var done: seq<Section> := [];
    CompletedTwice(done, Fixed([]), all);
    assert shapes[0..] == shapes;
    while |done| < |shapes|
      invariant old(r.pos) <= r.pos <= |r.bytes| && |done| <= |shapes|
      invariant all == Completed(done, InSections(shapes[|done|..], r.bytes[r.pos..]))
    {
      assert shapes[|done|..][1..] == shapes[|done|+1..];
      var s := TakeSection(r, shapes[|done|]);
      if s.None? {
        return None;
      }
      CompletedTwice(done, s.value, InSections(shapes[|done|+1..], r.bytes[r.pos..]));
      done := done + [s.value];
    }
    assert shapes[|done|..] == [] && done + [] == done;
    return Some(done);
  }

  lemma ShapesAreStateKinds(j: nat, i: nat)
    requires j < |Shapes| && i < |Shapes[j].kinds|
    ensures StateKind(Shapes[j].kinds[i])
  {
    assert Shapes[j].kinds in [HeadKinds, SignedKinds, PoolKinds, FlagKinds, PeerKinds, SessionKinds, NameKinds];
  }

  method LoadLocalState(b: Blob, user: Text, restores: Restores) returns (s: Option<Saved>)
    ensures s == LoadPayload(b, user, restores)
  {
    var r := new Reader(b, []);
    assert b[0..] == b;
    forall j, i | 0 <= j < |Shapes| && 0 <= i < |Shapes[j].kinds| ensures StateKind(Shapes[j].kinds[i]) {
      ShapesAreStateKinds(j, i);
    }
    var x := TakeSections(r, Shapes);
    if x.None? {
      return None;
    }
    SectionsReadFit(Shapes, b);
    ShapesAre(x.value);
    var saved := SavedFrom(x.value);
    if r.pos != |b| || !HeadAccepted(x.value[0].fields, user) || !AllRestore(saved, restores) {
      return None;
    }
    return Some(saved);
  }
}
