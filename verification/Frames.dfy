/** Frames on a socket that takes and gives bytes in pieces of any size, and may fail. */
module Frames {
  import opened Wrappers
  import opened Bytes
  import opened Fields
  import opened InboxPages

  const HeaderBytes: nat := 8

  /** How reading ends: with everything, at the very beginning of what was asked for, or broken off. */
  datatype ReadEnd = Complete | Eof | Broken

  /** What the peer has sent and whether it then closed the connection in order; how much of it has
      been read; what was sent to the peer and how much more can be before sending fails. */
  class Socket {
    const incoming: seq<byte>
    const orderly: bool
    var pos: nat
    var sent: seq<byte>
    var room: nat

    ghost predicate Valid()
      reads this
    {
      pos <= |incoming|
    }

    ghost function Rest(): seq<byte>
      requires Valid()
      reads this
    {
      incoming[pos..]
    }

    constructor (incoming: seq<byte>, orderly: bool, room: nat)
      ensures Valid() && this.incoming == incoming && this.orderly == orderly && pos == 0 && sent == [] && this.room == room
    {
      this.incoming, this.orderly, this.room := incoming, orderly, room;
      pos, sent := 0, [];
    }

    /** Stores between one and `max` of the next bytes; at the end, none, or an error. */
    method Recv(a: array<byte>, from: nat, max: nat) returns (n: Option<nat>)
      requires Valid() && from + max <= a.Length && max > 0
      modifies this`pos, a
      ensures Valid() && (n.None? <==> old(pos) == |incoming| && !orderly)
      ensures n.None? ==> pos == old(pos)
      ensures n.Some? ==> n.value <= max && pos == old(pos) + n.value && (n.value == 0 <==> old(pos) == |incoming|)
      ensures a[..from] == old(a[..from]) && (n.Some? ==> a[from..from + n.value] == incoming[old(pos)..pos])
    {
      if pos == |incoming| {
        return if orderly then Some(0) else None;
      }
      var k: nat :| 1 <= k <= max && k <= |incoming| - pos;
      forall i | 0 <= i < k {
        a[from + i] := incoming[pos + i];
      }
      pos := pos + k;
      return Some(k);
    }

    /** Takes between one and all of the bytes while there is room. */
    method Send(bytes: seq<byte>) returns (n: Option<nat>)
      requires bytes != []
      modifies this`sent, this`room
      ensures n.None? <==> old(room) == 0
      ensures n.None? ==> sent == old(sent) && room == old(room)
      ensures n.Some? ==> 1 <= n.value <= |bytes| && sent == old(sent) + bytes[..n.value] && room + n.value == old(room)
    {
      if room == 0 {
        return None;
      }
      var k: nat :| 1 <= k <= |bytes| && k <= room;
      sent, room := sent + bytes[..k], room - k;
      return Some(k);
    }
  }

  method ReadExact(s: Socket, a: array<byte>) returns (end: ReadEnd)
    requires s.Valid()
    modifies s`pos, a
    ensures s.Valid()
    ensures end.Complete? <==> a.Length <= |old(s.Rest())|
    ensures end.Eof? <==> a.Length > 0 && old(s.Rest()) == [] && s.orderly
    ensures end.Complete? ==> a[..] == old(s.Rest())[..a.Length] && s.Rest() == old(s.Rest())[a.Length..]
  {
    var done: nat := 0;
    ghost var start := s.pos;
    while done < a.Length
      invariant s.Valid() && done <= a.Length && s.pos == start + done
      invariant a[..done] == s.incoming[start..s.pos]
    {
      ghost var before := s.pos;
      var n := s.Recv(a, done, a.Length - done);
      if n.None? {
        return Broken;
      }
      if n.value == 0 {
        return if done == 0 then Eof else Broken;
      }
      assert a[..done + n.value] == a[..done] + a[done..done + n.value];
      assert s.incoming[start..s.pos] == s.incoming[start..before] + s.incoming[before..s.pos];
      done := done + n.value;
    }
    assert a[..] == a[..done];
    return Complete;
  }

  /** Sends all bytes, or as many as there is room for. */
  method WriteExact(s: Socket, bytes: seq<byte>) returns (ok: bool)
    modifies s`sent, s`room
    ensures ok <==> |bytes| <= old(s.room)
    ensures s.sent == old(s.sent) + if ok then bytes else bytes[..old(s.room)]
    ensures s.room == if ok then old(s.room) - |bytes| else 0
  {
    var done: nat := 0;
    while done < |bytes|
      invariant done <= |bytes| && s.sent == old(s.sent) + bytes[..done] && s.room + done == old(s.room)
    {
      var n := s.Send(bytes[done..]);
      if n.None? {
        return false;
      }
      assert bytes[..done + n.value] == bytes[..done] + bytes[done..][..n.value];
      done := done + n.value;
    }
    assert bytes[..done] == bytes;
    return true;
  }

  method StoreU32(a: array<byte>, from: nat, v: nat)
    requires from + 4 <= a.Length
    modifies a
    ensures a[..] == old(a[..from]) + U32Bytes(v) + old(a[from + 4..])
  {
    a[from], a[from + 1], a[from + 2], a[from + 3] := v / 0x100_0000 % 256, v / 0x1_0000 % 256, v / 0x100 % 256, v % 256;
  }

  /** A frame within the limit goes out whole if there is room, and its beginning if there is not. */
  method WriteFrame(s: Socket, kind: nat, payload: seq<byte>) returns (ok: bool)
    modifies s`sent, s`room
    ensures match FrameOut(kind, payload) {
              case None => !ok && s.sent == old(s.sent)
              case Some(frame) =>
                && (ok <==> |frame| <= old(s.room))
                && s.sent == old(s.sent) + if ok then frame else frame[..old(s.room)]
            }
  {
    if |payload| > MaxFramePayload {
      return false;
    }
    var header := new byte[HeaderBytes](_ => 0);
    StoreU32(header, 0, kind);
    StoreU32(header, 4, |payload|);
    ghost var h := U32Bytes(kind) + U32Bytes(|payload|);
    assert header[..] == h && |h| == 8;
    Assoc(U32Bytes(kind), U32Bytes(|payload|), payload);
    ok := WriteExact(s, header[..]);
    if ok {
      ok := WriteExact(s, payload);
      Assoc(old(s.sent), h, payload);
      assert !ok ==> (h + payload)[..old(s.room)] == h + payload[..old(s.room) - 8];
    } else {
      assert (h + payload)[..old(s.room)] == h[..old(s.room)];
    }
  }

  datatype FrameResult = Frame(kind: nat, payload: seq<byte>) | EndOfStream | FrameError

  /** The stream ends where the source says "eof": before a header, or between a header that
      announces a payload and that payload. */
  predicate EndsAsEof(stream: seq<byte>) {
    stream == [] || (|stream| == HeaderBytes && 0 < U32Value(stream[4..]) <= MaxFramePayload)
  }

  /** The next frame, the end of the stream, or an error. `eof` is reported if and only if the peer
      closed in order and the rest of the stream is empty or just a header with a payload to come. */
  method ReadFrame(s: Socket) returns (r: FrameResult)
    requires s.Valid()
    modifies s`pos
    ensures s.Valid()
    ensures r.Frame? <==> FrameIn(old(s.Rest())).Some?
    ensures r.Frame? ==> FrameIn(old(s.Rest())) == Some(((r.kind, r.payload), s.Rest()))
    ensures r.EndOfStream? <==> s.orderly && EndsAsEof(old(s.Rest()))
  {
    ghost var b := s.Rest();
    var header := new byte[HeaderBytes](_ => 0);
    var end := ReadExact(s, header);
    if !end.Complete? {
      return if end.Eof? then EndOfStream else FrameError;
    }
    var kind, length := U32Value(header[..4]), U32Value(header[4..]);
    assert header[..4] == b[..4] && header[4..] == b[4..][..4] == b[4..8] && b[8..] == b[4..][4..];
    if length > MaxFramePayload {
      assert |b| == 8 ==> b[4..] == b[4..8];
      return FrameError;
    }
    var payload := new byte[length](_ => 0);
    end := ReadExact(s, payload);
    assert |b| == 8 <==> b[8..] == [];
    assert |b| == 8 ==> b[4..] == b[4..8];
    if !end.Complete? {
      return if end.Eof? then EndOfStream else FrameError;
    }
    return Frame(kind, payload[..]);
  }

  /** The header file promises that end of stream means a close before a frame. The code keeps
      that promise exactly when the stream does not stop right behind a header that announces a
      payload; there it reports the end of the stream in the middle of a frame. */
  lemma EofInsideFrame(stream: seq<byte>)
    ensures (EndsAsEof(stream) <==> stream == [])
            <==> !(|stream| == HeaderBytes && 0 < U32Value(stream[4..]) <= MaxFramePayload)
    ensures EndsAsEof(U32Bytes(1) + U32Bytes(1)) && FrameIn(U32Bytes(1) + U32Bytes(1)).None?
  {
    var h := U32Bytes(1) + U32Bytes(1);
    assert h[4..] == U32Bytes(1) && h[..4] == U32Bytes(1);
    U32RoundTrip(1);
  }
}
