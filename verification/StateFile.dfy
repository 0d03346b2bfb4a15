/** The payload of the client's state file: fixed fields and counted lists of records. */
module StateFile {
  import opened Wrappers
  import opened Bytes
  import opened Fields

  const AnyLength: nat := TWO32 - 1
  const MaxStateFileBytes: nat := 16 * 1024 * 1024

  /** A part of the payload: fields that are always there, or a counted list of like records. */
  datatype Section = Fixed(fields: seq<Field>) | Repeated(records: seq<seq<Field>>)
  datatype Shape = FixedShape(kinds: seq<Kind>) | RepeatedShape(kinds: seq<Kind>, max: nat)

  function RecordsOut(records: seq<seq<Field>>): seq<byte> {
    if records == [] then [] else OutAll(records[0]) + RecordsOut(records[1..])
  }

  function SectionOut(s: Section): seq<byte> {
    match s
    case Fixed(fields) => OutAll(fields)
    case Repeated(records) => U32Bytes(|records|) + RecordsOut(records)
  }

  function SectionsOut(sections: seq<Section>): seq<byte> {
    if sections == [] then [] else SectionOut(sections[0]) + SectionsOut(sections[1..])
  }

  function InRecords(kinds: seq<Kind>, count: nat, b: seq<byte>): Parsed<seq<seq<Field>>> {
    if count == 0 then Some(([], b)) else
    match InAll(kinds, b)
    case None => None
    case Some((fields, rest)) =>
      match InRecords(kinds, count - 1, rest)
      case None => None
      case Some((records, end)) => Some(([fields] + records, end))
  }

  function InSection(shape: Shape, b: seq<byte>): Parsed<Section> {
    match shape
    case FixedShape(kinds) =>
      (match InAll(kinds, b) case None => None case Some((fields, rest)) => Some((Fixed(fields), rest)))
    case RepeatedShape(kinds, max) =>
      match InU32(b)
      case None => None
      case Some((count, b1)) =>
        if count > max then None else
        match InRecords(kinds, count, b1)
        case None => None
        case Some((records, rest)) => Some((Repeated(records), rest))
  }

  function InSections(shapes: seq<Shape>, b: seq<byte>): Parsed<seq<Section>>
    decreases |shapes|
  {
    if shapes == [] then Some(([], b)) else
    match InSection(shapes[0], b)
    case None => None
    case Some((s, rest)) =>
      match InSections(shapes[1..], rest)
      case None => None
      case Some((sections, end)) => Some(([s] + sections, end))
  }

  // ---- round trip ----

  predicate RecordsFit(kinds: seq<Kind>, records: seq<seq<Field>>) {
    forall i :: 0 <= i < |records| ==> AllFit(kinds, records[i])
  }

  predicate SectionFits(shape: Shape, s: Section) {
    match shape
    case FixedShape(kinds) => s.Fixed? && AllFit(kinds, s.fields)
    case RepeatedShape(kinds, max) => s.Repeated? && |s.records| <= max && RecordsFit(kinds, s.records)
  }

  predicate SectionsFit(shapes: seq<Shape>, sections: seq<Section>) {
    |shapes| == |sections| && forall i :: 0 <= i < |shapes| ==> SectionFits(shapes[i], sections[i])
  }

  predicate Readable(shape: Shape) {
    Limited(shape.kinds) && (shape.RepeatedShape? ==> shape.max < TWO32)
  }

  lemma InRecordsCons(kinds: seq<Kind>, n: nat, b: seq<byte>, fields: seq<Field>, b1: seq<byte>, records: seq<seq<Field>>, rest: seq<byte>)
    requires InAll(kinds, b) == Some((fields, b1)) && InRecords(kinds, n, b1) == Some((records, rest))
    ensures InRecords(kinds, n + 1, b) == Some(([fields] + records, rest))
  {
  }

  lemma {:induction false} RecordsRoundTrip(kinds: seq<Kind>, records: seq<seq<Field>>, rest: seq<byte>)
    requires RecordsFit(kinds, records) && Limited(kinds)
    ensures InRecords(kinds, |records|, RecordsOut(records) + rest) == Some((records, rest))
    decreases |records|
  {
    if records == [] {
      assert RecordsOut(records) + rest == rest;
    } else {
      var head, tail := records[0], records[1..];
      var b1 := RecordsOut(tail) + rest;
      Assoc(OutAll(head), RecordsOut(tail), rest);
      RoundTrip(kinds, head, b1);
      RecordsRoundTrip(kinds, tail, rest);
      InRecordsCons(kinds, |tail|, RecordsOut(records) + rest, head, b1, tail, rest);
      assert records == [head] + tail;
    }
  }

  lemma SectionRoundTrip(shape: Shape, s: Section, rest: seq<byte>)
    requires SectionFits(shape, s) && Readable(shape)
    ensures InSection(shape, SectionOut(s) + rest) == Some((s, rest))
  {
    match shape
    case FixedShape(kinds) => RoundTrip(kinds, s.fields, rest);
    case RepeatedShape(kinds, max) =>
      Assoc(U32Bytes(|s.records|), RecordsOut(s.records), rest);
      U32In(|s.records|, RecordsOut(s.records) + rest);
      RecordsRoundTrip(kinds, s.records, rest);
  }

  lemma {:induction false} SectionsRoundTrip(shapes: seq<Shape>, sections: seq<Section>, rest: seq<byte>)
    requires SectionsFit(shapes, sections) && forall i :: 0 <= i < |shapes| ==> Readable(shapes[i])
    ensures InSections(shapes, SectionsOut(sections) + rest) == Some((sections, rest))
    decreases |shapes|
  {
    if shapes == [] {
      assert SectionsOut(sections) + rest == rest;
    } else {
      var head, tail := sections[0], sections[1..];
      var b1 := SectionsOut(tail) + rest;
      Assoc(SectionOut(head), SectionsOut(tail), rest);
      SectionRoundTrip(shapes[0], head, b1);
      SectionsRoundTrip(shapes[1..], tail, rest);
      assert sections == [head] + tail;
    }
  }

  // ---- what fits the file fits its fields ----

  /** Integers within their types; byte strings may be of any length. */
  predicate Typed(k: Kind, f: Field) {
    if k.Bytes? then k.max == AnyLength && f.BytesField? else !k.Keys? && !k.OptBytes? && Fits(k, f)
  }

  predicate AllTyped(kinds: seq<Kind>, fields: seq<Field>) {
    |kinds| == |fields| && forall i :: 0 <= i < |kinds| ==> Typed(kinds[i], fields[i])
  }

  predicate SectionTyped(shape: Shape, s: Section) {
    match shape
    case FixedShape(kinds) => s.Fixed? && AllTyped(kinds, s.fields)
    case RepeatedShape(kinds, max) =>
      s.Repeated? && |s.records| <= max && forall i :: 0 <= i < |s.records| ==> AllTyped(kinds, s.records[i])
  }

  predicate SectionsTyped(shapes: seq<Shape>, sections: seq<Section>) {
    |shapes| == |sections| && forall i :: 0 <= i < |shapes| ==> SectionTyped(shapes[i], sections[i])
  }

  lemma {:induction false} FieldsSmall(kinds: seq<Kind>, fields: seq<Field>)
    requires AllTyped(kinds, fields) && |OutAll(fields)| < TWO32
    ensures AllFit(kinds, fields) && Limited(kinds)
    decreases |fields|
  {
    if fields != [] {
      var f := fields[0];
      assert Typed(kinds[0], f);
      FieldsSmall(kinds[1..], fields[1..]);
      assert Fits(kinds[0], f);
      assert forall i :: 0 < i < |kinds| ==> kinds[i] == kinds[1..][i-1] && fields[i] == fields[1..][i-1];
    }
  }

  lemma {:induction false} RecordsSmall(kinds: seq<Kind>, records: seq<seq<Field>>)
    requires |RecordsOut(records)| < TWO32 && forall i :: 0 <= i < |records| ==> AllTyped(kinds, records[i])
    ensures RecordsFit(kinds, records)
    decreases |records|
  {
    if records != [] {
      FieldsSmall(kinds, records[0]);
      RecordsSmall(kinds, records[1..]);
      assert forall i :: 0 < i < |records| ==> records[i] == records[1..][i-1];
    }
  }

  /** A payload that is not larger than 2^32 has no byte string whose length was cut. */
  lemma {:induction false} SectionsSmall(shapes: seq<Shape>, sections: seq<Section>)
    requires SectionsTyped(shapes, sections) && |SectionsOut(sections)| < TWO32
    ensures SectionsFit(shapes, sections)
    decreases |sections|
  {
    if sections != [] {
      var s := sections[0];
      assert SectionTyped(shapes[0], s);
      if s.Fixed? {
        FieldsSmall(shapes[0].kinds, s.fields);
      } else {
        RecordsSmall(shapes[0].kinds, s.records);
      }
      SectionsSmall(shapes[1..], sections[1..]);
      assert forall i :: 0 < i < |shapes| ==> shapes[i] == shapes[1..][i-1] && sections[i] == sections[1..][i-1];
    }
  }
}
