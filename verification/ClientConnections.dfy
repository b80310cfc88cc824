/** ClientConnection.cpp: sending a WebSocket frame, handling a received one, and the handshake. */
module ClientConnections {
  import opened HttpTypes
  import opened Buffers
  import opened Sockets
  import opened WebSocket
  import Sha1Spec
  import Sha1
  import Base64

  /** What the outside sees: callbacks of the handler, and the answer to a ping. A text callback
      gets a C string, which ends at the first zero byte. */
  datatype Event = OnOpen | OnClose | OnText(text: seq<Byte>) | OnBinary(data: seq<Byte>) | Answered(bytes: seq<Byte>)

  function CString(s: seq<Byte>): seq<Byte> { if s == [] || s[0] == 0 then [] else [s[0]] + CString(s[1..]) }

  /** The connection stays open or not, the last fin bit, and what happened. */
  datatype Handled = Handled(open: bool, prevFin: bool, events: seq<Event>)

  /** The longest frame that is handled, with the byte behind it. */
  const FRAME_SPACE := 132

  /** The masked or plain payload that the frame at the start of the buffer has. */
  function PayloadIn(buf: seq<Byte>): (r: seq<Byte>)
    requires FRAME_SPACE <= |buf| && buf[1] % 128 <= 125
    ensures |r| == buf[1] % 128
  {
    var len := buf[1] % 128;
    if buf[1] >= 128 then Masked(buf[6..6 + len], buf[2..6]) else buf[2..2 + len]
  }

  /** handleWebSocket */
  function Handle(buf: seq<Byte>, size: nat, prevFin: bool, handler: bool): Handled
    requires FRAME_SPACE <= |buf| && 1 <= size <= |buf|
  {
    var fin, opcode := buf[0] >= 128, buf[0] % 16;
    if opcode == OP_PING then Handled(true, prevFin, [Answered([buf[0] - opcode + OP_PONG] + buf[1..size])])
    else if opcode == OP_CLOSE then Handled(false, prevFin, if handler then [OnClose] else [])
    else if !fin || !prevFin || buf[1] % 128 > 125 then Handled(true, fin, [])
    else Handled(true, true, Callback(opcode, handler, PayloadIn(buf)))
  }

  /** What the handler is told of a payload. */
  function Callback(opcode: nat, handler: bool, payload: seq<Byte>): seq<Event> {
    if !handler then []
    else if opcode == OP_TEXT then [OnText(CString(payload))]
    else if opcode == OP_BINARY then [OnBinary(payload)]
    else []
  }

  /** Where the payload lies. */
  function PayloadPlace(buf: seq<Byte>): nat
    requires FRAME_SPACE <= |buf|
  {
    if buf[1] >= 128 then 6 else 2
  }

  /** A frame whose payload is looked at: not a ping or a close, whole by itself and short. */
  predicate IsUnmasked(buf: seq<Byte>, prevFin: bool)
    requires FRAME_SPACE <= |buf|
  {
    buf[0] % 16 != OP_PING && buf[0] % 16 != OP_CLOSE && buf[0] >= 128 && prevFin && buf[1] % 128 <= 125
  }

  /** The buffer when handleWebSocket returns: a ping has become the pong, a payload is unmasked
      where it lies, and a text that was delivered is ended by a zero byte. */
  function BufferAfter(buf: seq<Byte>, prevFin: bool, handler: bool): seq<Byte>
    requires FRAME_SPACE <= |buf|
  {
    if buf[0] % 16 == OP_PING then buf[0 := buf[0] - OP_PING + OP_PONG]
    else if !IsUnmasked(buf, prevFin) then buf
    else
      Put(buf, PayloadPlace(buf), PayloadIn(buf) + Zero(buf[0] % 16, handler))
  }

  /** What is written behind a payload. */
  function Zero(opcode: nat, handler: bool): seq<Byte> { if handler && opcode == OP_TEXT then [0] else [] }

  /** Of the bytes behind the payload at most the first one changes, which a text sets to zero;
      a frame that is not looked at leaves all bytes but the first one as they are. */
  lemma BufferKept(buf: seq<Byte>, prevFin: bool, handler: bool)
    requires FRAME_SPACE <= |buf|
    ensures var r, end := BufferAfter(buf, prevFin, handler), PayloadPlace(buf) + buf[1] % 128;
            |r| == |buf| &&
            if IsUnmasked(buf, prevFin)
            then r[..PayloadPlace(buf)] == buf[..PayloadPlace(buf)] && r[end + 1..] == buf[end + 1..] &&
                 r[PayloadPlace(buf)..end] == PayloadIn(buf) &&
                 r[end] == if handler && buf[0] % 16 == OP_TEXT then 0 else buf[end]
            else r[1..] == buf[1..]
  {
    hide Masked, Put, PayloadIn;
    if IsUnmasked(buf, prevFin) {
      PutEnded(buf, PayloadPlace(buf), PayloadIn(buf), Zero(buf[0] % 16, handler));
    }
  }

  lemma PutEnded(b: seq<Byte>, at: nat, p: seq<Byte>, z: seq<Byte>)
    requires |z| <= 1 && at + |p| < |b|
    ensures var r, end := Put(b, at, p + z), at + |p|;
            r[..at] == b[..at] && r[at..end] == p && r[end + 1..] == b[end + 1..] &&
            r[end] == if z == [] then b[end] else z[0]
  {
    var r := Put(b, at, p + z);
    assert r[at..at + |p|] == p;
  }

  // ---------------------------------------------------------------- what a socket takes

  /** What one Socket::send takes of a slice. */
  function Taken(plan: seq<int>, slice: seq<Byte>): seq<Byte> {
    if plan == [] || plan[0] >= |slice| then slice else if plan[0] < 0 then [] else slice[..plan[0]]
  }

  function Later(plan: seq<int>): seq<int> { if plan == [] then [] else plan[1..] }

  /** What goes out of a frame with header h and payload bytes p: in one call, or in two, where
      the payload is sent even when the header was not. */
  function OnWire(plan: seq<int>, apart: bool, h: seq<Byte>, p: seq<Byte>): seq<Byte> {
    if apart then Taken(plan, h) + Taken(Later(plan), p) else Taken(plan, h + p)
  }

  /** A beginning of the header and a beginning of the payload; from one call a beginning of the
      frame, from two unless the header was cut and the payload not. */
  lemma OnWireParts(plan: seq<int>, apart: bool, h: seq<Byte>, p: seq<Byte>)
    ensures exists i, j | 0 <= i <= |h| && 0 <= j <= |p| :: OnWire(plan, apart, h, p) == h[..i] + p[..j]
    ensures !apart || Taken(plan, h) == h || Taken(Later(plan), p) == [] ==> OnWire(plan, apart, h, p) <= h + p
  {
    var out := OnWire(plan, apart, h, p);
    var i := if apart then |Taken(plan, h)| else if |out| < |h| then |out| else |h|;
    assert out == h[..i] + p[..|out| - i];
  }

  /** In two calls the whole goes out exactly when each call takes its part. */
  lemma WholeParts(plan: seq<int>, h: seq<Byte>, p: seq<Byte>)
    ensures OnWire(plan, true, h, p) == h + p <==> |Taken(plan, h)| == |h| && |Taken(Later(plan), p)| == |p|
  {
    if OnWire(plan, true, h, p) == h + p {
      assert |Taken(plan, h)| + |Taken(Later(plan), p)| == |h| + |p|;
    }
  }

  /** A socket that takes nothing of the header gets the payload without it. */
  lemma HeaderLost(h: seq<Byte>, p: seq<Byte>)
    requires h != []
    ensures OnWire([0], true, h, p) == p != h + p
  {
    assert [] + p == p;
    assert |h + p| > |p|;
  }

  /** The bytes of a frame that go out. */
  function FrameOnWire(plan: seq<int>, apart: bool, fin: bool, opcode: nat, p: seq<Byte>, key: Option<Key>): seq<Byte>
    requires opcode < 16 && |p| < SIZE_LIMIT
  {
    OnWire(plan, apart, Header(fin, opcode, |p|, key), MaskedIf(p, key))
  }

  // ---------------------------------------------------------------- frames that arrive

  /** A frame as the peer sends it. */
  datatype Sent = Sent(fin: bool, opcode: nat, payload: seq<Byte>, key: Option<Key>)

  predicate IsSent(f: Sent) { f.opcode < 16 && |f.payload| < SIZE_LIMIT }

  function Bytes(f: Sent): (r: seq<Byte>)
    requires IsSent(f)
    ensures |r| >= 2
  {
    Frame(f.fin, f.opcode, f.payload, f.key)
  }

  /** What a peer's frame is meant to cause: section 5.2 of RFC 6455 has 1 for a text, 2 for
      binary data, 8 for a close, 9 for a ping and 10 for a pong. */
  function Meant(f: Sent, prevFin: bool): Handled
    requires IsSent(f)
  {
    if f.opcode == 9 then Handled(true, prevFin, [Answered(Bytes(f.(opcode := 10)))])
    else if f.opcode == 8 then Handled(false, prevFin, [OnClose])
    else if !f.fin || !prevFin || |f.payload| > 125 then Handled(true, f.fin, [])
    else if f.opcode == 1 then Handled(true, true, [OnText(CString(f.payload))])
    else if f.opcode == 2 then Handled(true, true, [OnBinary(f.payload)])
    else Handled(true, true, [])
  }

  lemma HeaderStart(f: Sent)
    requires IsSent(f)
    ensures var b := Bytes(f);
            b[0] == (if f.fin then 128 else 0) + f.opcode && (b[1] % 128 <= 125 <==> |f.payload| <= 125) &&
            (b[1] >= 128 <==> f.key.Some?)
    ensures |f.payload| <= 125 ==>
              var b := Bytes(f);
              b[1] % 128 == |f.payload| &&
              if f.key.Some? then b[2..6] == f.key.value && b[6..] == Masked(f.payload, f.key.value)
                 else b[2..] == f.payload
  {
    hide Masked;
  }

  lemma PayloadReadBack(f: Sent, stale: seq<Byte>)
    requires IsSent(f) && |f.payload| <= 125 && FRAME_SPACE <= |Bytes(f) + stale|
    ensures var buf := Bytes(f) + stale; buf[1] % 128 <= 125 && PayloadIn(buf) == f.payload
  {
    HeaderStart(f);
    hide Masked, Bytes;
    var b, n := Bytes(f), |f.payload|;
    var buf := b + stale;
    if f.key.Some? {
      MaskedTwice(f.payload, f.key.value);
      assert |b[6..]| == n;
      assert buf[6..6 + n] == b[6..] && buf[2..6] == b[2..6];
    } else {
      assert |b[2..]| == n;
      assert buf[2..2 + n] == b[2..];
    }
  }

  /** A frame that arrives at the start of the buffer causes what it is meant to, whatever is
      left in the buffer behind it. */
  lemma FrameHandled(f: Sent, stale: seq<Byte>, prevFin: bool)
    requires IsSent(f) && FRAME_SPACE <= |stale|
    ensures Handle(Bytes(f) + stale, |Bytes(f)|, prevFin, true) == Meant(f, prevFin)
  {
    HeaderStart(f);
    var b := Bytes(f);
    var buf := b + stale;
    if f.opcode == OP_PING { PongReadBack(f, stale); }
    if |f.payload| <= 125 { PayloadReadBack(f, stale); }
    hide Bytes, PayloadIn, CString;
  }

  lemma PongReadBack(f: Sent, stale: seq<Byte>)
    requires IsSent(f) && f.opcode == OP_PING
    ensures var b := Bytes(f); [b[0] - OP_PING + OP_PONG] + (b + stale)[1..|b|] == Bytes(f.(opcode := OP_PONG))
  {
    hide LengthField, Masked;
    var b, c := Bytes(f), Bytes(f.(opcode := OP_PONG));
    assert (b + stale)[1..|b|] == b[1..];
    assert b[1..] == c[1..];
    assert c == [c[0]] + c[1..];
  }

  // ---------------------------------------------------------------- whole streams

  /** Sections 5.4 and 5.5: fragments continue the message that is open, control frames may
      come between them and are never fragments. */
  predicate ValidStream(fs: seq<Sent>, open: bool) {
    fs == [] ||
    (IsSent(fs[0]) &&
     if fs[0].opcode >= 8 then fs[0].fin && |fs[0].payload| <= 125 && ValidStream(fs[1..], open)
     else if fs[0].opcode == 0 then open && ValidStream(fs[1..], !fs[0].fin)
     else (fs[0].opcode == 1 || fs[0].opcode == 2) && !open && ValidStream(fs[1..], !fs[0].fin))
  }

  predicate AllSent(fs: seq<Sent>) { forall i :: 0 <= i < |fs| ==> IsSent(fs[i]) }

  predicate AllSpace(stale: seq<seq<Byte>>) { forall i :: 0 <= i < |stale| ==> FRAME_SPACE <= |stale[i]| }

  /** Every frame in its own receive; `stale` is what the buffer holds behind each of them. */
  function Run(fs: seq<Sent>, stale: seq<seq<Byte>>, prevFin: bool): seq<Event>
    requires |stale| == |fs| && AllSpace(stale) && AllSent(fs)
  {
    if fs == [] then []
    else
      var h := Handle(Bytes(fs[0]) + stale[0], |Bytes(fs[0])|, prevFin, true);
      h.events + if h.open then Run(fs[1..], stale[1..], h.prevFin) else []
  }

  /** What a stream should cause: messages in one frame of at most 125 bytes are delivered,
      pings answered, and a close ends it. */
  function Expected(fs: seq<Sent>): seq<Event>
    requires AllSent(fs)
  {
    if fs == [] then []
    else
      var f := fs[0];
      assert IsSent(f);
      if f.opcode == 8 then [OnClose]
      else (if f.opcode == 9 then [Answered(Bytes(f.(opcode := 10)))]
            else if !f.fin || |f.payload| > 125 then []
            else if f.opcode == 1 then [OnText(CString(f.payload))]
            else if f.opcode == 2 then [OnBinary(f.payload)]
            else []) + Expected(fs[1..])
  }

  lemma {:induction false} ValidIsSent(fs: seq<Sent>, open: bool)
    requires ValidStream(fs, open)
    ensures AllSent(fs)
  {
    if fs != [] {
      var f := fs[0];
      ValidIsSent(fs[1..], if f.opcode >= 8 then open else !f.fin);
      assert forall i :: 1 <= i < |fs| ==> fs[i] == fs[1..][i - 1];
    }
  }

  /** In every valid stream, exactly the messages that come in one short frame are delivered,
      in order; a message in fragments is dropped whole, and does not disturb those around it.
      A pong between fragments sets the last fin bit, which is harmless: only a message in
      one frame is looked at, and none starts inside another. */
  lemma {:induction false} StreamHandled(fs: seq<Sent>, stale: seq<seq<Byte>>, open: bool, prevFin: bool)
    requires |stale| == |fs| && AllSpace(stale) && ValidStream(fs, open) && (open || prevFin)
    ensures AllSent(fs) && Run(fs, stale, prevFin) == Expected(fs)
    decreases |fs|
  {
    hide Bytes, Handle, CString;
    ValidIsSent(fs, open);
    if fs != [] {
      var f := fs[0];
      FrameHandled(f, stale[0], prevFin);
      var h := Meant(f, prevFin);
      if h.open { StreamHandled(fs[1..], stale[1..], if f.opcode >= 8 then open else !f.fin, h.prevFin); }
    }
  }

  // ---------------------------------------------------------------- the object

  /** What sendFrame puts on the wire: the payload of the caller, behind its reserved bytes
      when it has any. */
  function PayloadOf(payload: seq<Byte>, length: nat, headerToPayload: bool): seq<Byte>
    requires (if headerToPayload then MAX_HEADER_SIZE else 0) + length <= |payload|
  {
    var at := if headerToPayload then MAX_HEADER_SIZE else 0;
    payload[at..at + length]
  }

  // ---------------------------------------------------------------- the handshake

  const MAGIC_NUMBER := "258EAFA5-E914-47DA-95CA-C5AB0DC85B11"

  /** The bytes of a text. */
  function Ascii(s: string): (r: seq<Byte>)
    ensures |r| == |s|
  {
    seq(|s|, i requires 0 <= i < |s| => (s[i] as int) % 256)
  }

  /** The value that proves the handshake (RFC 6455, section 4.2.2, item 5.4). */
  function Accept(key: seq<Byte>): string { Base64.Encoded(Sha1Spec.Digest(key + Ascii(MAGIC_NUMBER))) }

  const RESPONSE_HEAD := "HTTP/1.1 101 " + "Switching Protocols\r\n" + "Upgrade: websocket\r\n" +
                         "Connection: Upgrade\r\n" + "Sec-WebSocket-Accept: "

  function UpgradeResponse(key: seq<Byte>): seq<Byte> { Ascii(RESPONSE_HEAD) + Ascii(Accept(key)) + Ascii("\r\n\r\n") }

  const UPGRADE := "Upgrade"
  const WEBSOCKET := "websocket"
  const KEY_NAME := "Sec-WebSocket-Key"

  /** The first place of a name, or the number of names. */
  function FirstOf(fields: seq<string>, name: string): (i: nat)
    ensures i <= |fields| && (i < |fields| ==> fields[i] == name) && forall k | 0 <= k < i :: fields[k] != name
  {
    if fields == [] || fields[0] == name then 0 else 1 + FirstOf(fields[1..], name)
  }

  predicate NamesWebSocket(fields: seq<string>, values: seq<string>)
    requires |fields| == |values|
  {
    exists i :: 0 <= i < |fields| && fields[i] == UPGRADE && values[i] == WEBSOCKET
  }

  /** The key that handleUpgradeRequest answers, if it answers: names and the protocol are compared
      byte by byte, and the value is taken as a C string. */
  function AnsweredKey(fields: seq<string>, values: seq<string>): Option<seq<Byte>>
    requires |fields| == |values|
  {
    var k := FirstOf(fields, KEY_NAME);
    if NamesWebSocket(fields, values) && k < |fields| then Some(CString(Ascii(values[k]))) else None
  }

  lemma AcceptLength(key: seq<Byte>)
    ensures |Accept(key)| == 28
  {
    hide Sha1Spec.Digest;
    Base64.EncodedLength(Sha1Spec.Digest(key + Ascii(MAGIC_NUMBER)));
  }

  method HashOf(buf: seq<Byte>) returns (hash: seq<Byte>)
    requires |buf| <= 128
    ensures hash == Sha1Spec.Digest(buf)
  {
    assert |buf| < Sha1.MAX_BYTES && [] + buf == buf;
    hide *;
    var sha := new Sha1.Sha1Context();
    var _ := sha.Input(buf);
    var _, digest := Sha1.Finish(sha);
    hash := digest;
  }

  method AcceptText(key: seq<Byte>) returns (encoded: string)
    requires |key| <= 91
    ensures encoded == Accept(key)
  {
    hide Ascii, Sha1Spec.Digest, Base64.Encoded;
    AcceptLength(key);
    assert |MAGIC_NUMBER| == 36;
    var hash := HashOf(key + Ascii(MAGIC_NUMBER));
    var text := new char[30];
    var _ := Base64.Encode(hash, text, 30);
    encoded := text[..28];
    assert text[..][..28] == Accept(key);
  }

  class ClientConnection {
    const socket: Socket<Byte>
    const recvBuffer: array<Byte>
    const cIsClient: bool
    const hasHandler: bool
    var mPrevFin: bool
    var events: seq<Event>

    constructor (s: Socket<Byte>, buffer: array<Byte>, client: bool, handler: bool)
      requires FRAME_SPACE <= buffer.Length
      ensures socket == s && recvBuffer == buffer && cIsClient == client && hasHandler == handler && mPrevFin &&
              events == []
    {
      socket, recvBuffer, cIsClient, hasHandler, mPrevFin, events := s, buffer, client, handler, true, [];
    }

    /** The payload of the frame in the buffer, unmasked in place. */
    method Unmask() returns (data: nat)
      requires FRAME_SPACE <= recvBuffer.Length && recvBuffer[1] % 128 <= 125
      modifies recvBuffer
      ensures data == PayloadPlace(old(recvBuffer[..]))
      ensures recvBuffer[..] == Put(old(recvBuffer[..]), data, PayloadIn(old(recvBuffer[..])))
    {
      hide Masked, Put;
      ghost var buf := recvBuffer[..];
      var len := recvBuffer[1] % 128;
      data := 2;
      if recvBuffer[1] >= 128 {
        data := 6;
        MaskInPlace(recvBuffer, data, len, recvBuffer[2..6]);
      } else {
        PutSame(buf, data, data + len);
      }
    }

    /** handleWebSocket, on the `size` bytes that were received into the buffer. */
    method HandleWebSocket(size: nat) returns (open: bool)
      requires FRAME_SPACE <= recvBuffer.Length && 1 <= size <= recvBuffer.Length
      modifies this, recvBuffer, socket
      ensures old(events) <= events
      ensures Handled(open, mPrevFin, events[|old(events)|..]) ==
              Handle(old(recvBuffer[..]), size, old(mPrevFin), hasHandler)
      ensures recvBuffer[..] == BufferAfter(old(recvBuffer[..]), old(mPrevFin), hasHandler)
      ensures socket.sent == old(socket.sent) +
                             if old(recvBuffer[0]) % 16 == OP_PING then Taken(old(socket.plan), recvBuffer[..size])
                             else []
    {
      hide Masked, CString, Put, PayloadIn;
      ghost var buf := recvBuffer[..];
      var fin := recvBuffer[0] >= 128;
      var opcode := recvBuffer[0] % 16;
      if opcode == OP_PING {
        recvBuffer[0] := recvBuffer[0] - opcode + OP_PONG;
        var _ := socket.Send(recvBuffer[..size]);
        events := events + [Answered(recvBuffer[..size])];
        assert recvBuffer[..size] == [buf[0] - opcode + OP_PONG] + buf[1..size];
        return true;
      }
      if opcode == OP_CLOSE {
        if hasHandler { events := events + [OnClose]; }
        return false;
      }
      if !fin || !mPrevFin {
        mPrevFin := fin;
        return true;
      }
      mPrevFin := fin;
      var len := recvBuffer[1] % 128;
      if len > 125 { return true; }
      Deliver(opcode);
      open := true;
    }

    /** The payload is unmasked and given to the handler. */
    method Deliver(opcode: nat)
      requires FRAME_SPACE <= recvBuffer.Length && recvBuffer[1] % 128 <= 125
      modifies this`events, recvBuffer
      ensures recvBuffer[..] == Put(old(recvBuffer[..]), PayloadPlace(old(recvBuffer[..])),
                                    PayloadIn(old(recvBuffer[..])) + Zero(opcode, hasHandler))
      ensures events == old(events) + Callback(opcode, hasHandler, PayloadIn(old(recvBuffer[..])))
    {
      hide Masked, CString, Put, PayloadIn;
      ghost var buf := recvBuffer[..];
      var len := recvBuffer[1] % 128;
      var data := Unmask();
      PutParts(buf, data, PayloadIn(buf));
      assert PayloadIn(buf) + [] == PayloadIn(buf);
      if hasHandler {
        if opcode == OP_TEXT {
          var text := EndText(data, len);
          PutTwice(buf, data, PayloadIn(buf), [0]);
          events := events + [OnText(text)];
        } else if opcode == OP_BINARY {
          events := events + [OnBinary(recvBuffer[data..data + len])];
        }
      }
    }

    /** The zero byte behind a text in the buffer, and what a callback that takes a C string then
        finds. */
    method EndText(data: nat, len: nat) returns (text: seq<Byte>)
      requires data + len < recvBuffer.Length
      modifies recvBuffer
      ensures recvBuffer[..] == Put(old(recvBuffer[..]), data + len, [0])
      ensures text == CString(old(recvBuffer[data..data + len]))
    {
      ghost var p := recvBuffer[data..data + len];
      recvBuffer[data + len] := 0;
      text := CString(recvBuffer[data..]);
      CStringOf(p, recvBuffer[data..]);
    }

    /** sendFrame. `random` gives the mask key and `hasMemory` says whether malloc finds room
        for a packet. What the socket takes goes out of one frame, header and payload in one piece
        or two, and the result is true exactly when the whole frame went out. */
    method SendFrame(opcode: nat, payload: array<Byte>, length: nat, fin: bool, headerToPayload: bool, random: Key,
                     hasMemory: bool)
      returns (ret: bool)
      requires opcode < 16 && length + MAX_HEADER_SIZE < 0x8000_0000
      requires (if headerToPayload then MAX_HEADER_SIZE else 0) + length <= payload.Length
      modifies socket, payload
      ensures !headerToPayload ==> payload[..] == old(payload[..])
      ensures headerToPayload ==> payload[MAX_HEADER_SIZE..] == old(payload[MAX_HEADER_SIZE..])
      ensures var packed := !headerToPayload && 0 < length < 1400 && hasMemory;
              var key := if cIsClient then Some(if packed then random else NO_KEY) else None;
              var p := PayloadOf(old(payload[..]), length, headerToPayload);
              socket.sent == old(socket.sent) + FrameOnWire(old(socket.plan), !packed && !headerToPayload, fin, opcode,
                                                            p, key) &&
              (ret <==> socket.sent == old(socket.sent) + Frame(fin, opcode, p, key))
      ensures old(socket.plan) == [] ==> ret
    {
      hide Frame, Header, Masked, HeaderSize, FrameOnWire;
      ghost var p := PayloadOf(payload[..], length, headerToPayload);
      SizeOfHeader(length, cIsClient);
      var headerSize := HeaderSize(length, cIsClient);
      if !headerToPayload && 0 < length < 1400 && hasMemory {
        var dataPtr := new Byte[length + MAX_HEADER_SIZE];
        ghost var empty := dataPtr[..];
        var _ := WriteBytes(dataPtr, MAX_HEADER_SIZE, payload[..length]);
        PutParts(empty, MAX_HEADER_SIZE, p);
        ret := SendPacked(dataPtr, length, headerSize, opcode, fin, if cIsClient then random else NO_KEY, true);
      } else if headerToPayload {
        ret := SendPacked(payload, length, headerSize, opcode, fin, NO_KEY, false);
      } else {
        ret := SendApart(payload[..length], headerSize, opcode, fin);
      }
    }

    /** sendUpgradeResponse: fails for a key that does not fit into its buffer; otherwise the
        answer to the handshake goes out, as far as the socket takes it, and only an error of the
        socket is a failure. */
    method SendUpgradeResponse(key: seq<Byte>) returns (ok: bool)
      modifies socket
      ensures |key| > 91 ==> !ok && socket.sent == old(socket.sent)
      ensures |key| <= 91 ==> socket.sent == old(socket.sent) + Taken(old(socket.plan), UpgradeResponse(key))
      ensures ok <==> |key| <= 91 && (old(socket.plan) == [] || old(socket.plan)[0] >= 0)
    {
      hide Ascii, Accept;
      assert |MAGIC_NUMBER| == 36;
      if |key| + (|MAGIC_NUMBER| + 1) > 128 { return false; }
      var encoded := AcceptText(key);
      var resp := Ascii(RESPONSE_HEAD) + Ascii(encoded) + Ascii("\r\n\r\n");
      var ret := socket.Send(resp);
      ok := ret >= 0;
    }

    /** handleUpgradeRequest, on the headers of the request. `available` says whether the server has
        room for one more WebSocket. The handshake is answered, and the handler told, when the
        headers name the protocol and a key and there is a handler; nothing happens otherwise. */
    method HandleUpgradeRequest(fields: seq<string>, values: seq<string>, available: bool) returns (isWebSocket: bool)
      requires |fields| == |values|
      modifies this`events, socket
      ensures var key := AnsweredKey(fields, values);
              if key.Some? && hasHandler && available && |key.value| <= 91
              then (isWebSocket <==> old(socket.plan) == [] || old(socket.plan)[0] >= 0) &&
                   socket.sent == old(socket.sent) + Taken(old(socket.plan), UpgradeResponse(key.value))
              else !isWebSocket && socket.sent == old(socket.sent)
      ensures events == old(events) + if isWebSocket then [OnOpen] else []
    {
      hide Ascii, CString, UpgradeResponse;
      var named, i := false, 0;
      while !named && i < |fields|
        invariant i <= |fields|
        invariant forall k | 0 <= k < i :: !(fields[k] == UPGRADE && values[k] == WEBSOCKET)
        invariant named ==> i < |fields| && fields[i] == UPGRADE && values[i] == WEBSOCKET
        decreases !named, |fields| - i
      {
        if fields[i] == UPGRADE && values[i] == WEBSOCKET { named := true; } else { i := i + 1; }
      }
      assert named == NamesWebSocket(fields, values);
      i := 0;
      var found, key := false, [];
      while !found && i < |fields|
        invariant i <= |fields| && forall k | 0 <= k < i :: fields[k] != KEY_NAME
        invariant found ==> i < |fields| && fields[i] == KEY_NAME && key == CString(Ascii(values[i]))
        decreases !found, |fields| - i
      {
        if fields[i] == KEY_NAME {
          key := CString(Ascii(values[i]));
          found := true;
        } else {
          i := i + 1;
        }
      }
      assert i == FirstOf(fields, KEY_NAME);
      if named && found && hasHandler && available {
        isWebSocket := SendUpgradeResponse(key);
        if isWebSocket { events := events + [OnOpen]; }
      } else {
        isWebSocket := false;
      }
    }

    /** Header and payload in one piece: the header goes in front of the payload, which lies
        behind MAX_HEADER_SIZE bytes; a packet of our own is masked in place. */
    method Pack(buf: array<Byte>, length: nat, headerSize: nat, opcode: nat, fin: bool, maskKey: Key,
                useInternBuffer: bool)
      requires opcode < 16 && length < SIZE_LIMIT && MAX_HEADER_SIZE + length <= buf.Length
      requires headerSize == HeaderSize(length, cIsClient) <= MAX_HEADER_SIZE
      requires maskKey == NO_KEY || (useInternBuffer && cIsClient)
      modifies buf
      ensures !useInternBuffer ==> buf[MAX_HEADER_SIZE..] == old(buf[MAX_HEADER_SIZE..])
      ensures var p := old(buf[MAX_HEADER_SIZE..MAX_HEADER_SIZE + length]);
              buf[MAX_HEADER_SIZE - headerSize..MAX_HEADER_SIZE + length] ==
              Frame(fin, opcode, p, if cIsClient then Some(maskKey) else None)
    {
      hide Masked, Header, HeaderSize, Put;
      ghost var key := if cIsClient then Some(maskKey) else None;
      ghost var b := buf[..];
      ghost var p := buf[MAX_HEADER_SIZE..MAX_HEADER_SIZE + length];
      ghost var h := Header(fin, opcode, length, key);
      HeaderIsSize(fin, opcode, length, key);
      MaskedTwice(p, NO_KEY);
      var headerPtr := MAX_HEADER_SIZE - headerSize;
      var _ := CreateHeader(buf, headerPtr, opcode, length, cIsClient, maskKey, fin);
      PutParts(b, headerPtr, h);
      assert buf[MAX_HEADER_SIZE..MAX_HEADER_SIZE + length] == p;
      if useInternBuffer {
        ghost var b' := buf[..];
        MaskInPlace(buf, MAX_HEADER_SIZE, length, maskKey);
        PutParts(b', MAX_HEADER_SIZE, Masked(p, maskKey));
        assert buf[headerPtr..MAX_HEADER_SIZE] == h;
      }
      JoinParts(buf[..], headerPtr, MAX_HEADER_SIZE, MAX_HEADER_SIZE + length);
      assert buf[MAX_HEADER_SIZE..MAX_HEADER_SIZE + length] == MaskedIf(p, key);
    }

    /** The frame in one piece. */
    method SendPacked(buf: array<Byte>, length: nat, headerSize: nat, opcode: nat, fin: bool, maskKey: Key,
                      useInternBuffer: bool)
      returns (ret: bool)
      requires opcode < 16 && length < SIZE_LIMIT && MAX_HEADER_SIZE + length <= buf.Length
      requires headerSize == HeaderSize(length, cIsClient) <= MAX_HEADER_SIZE
      requires maskKey == NO_KEY || (useInternBuffer && cIsClient)
      modifies socket, buf
      ensures !useInternBuffer ==> buf[MAX_HEADER_SIZE..] == old(buf[MAX_HEADER_SIZE..])
      ensures var p := old(buf[MAX_HEADER_SIZE..MAX_HEADER_SIZE + length]);
              var key := if cIsClient then Some(maskKey) else None;
              socket.sent == old(socket.sent) + FrameOnWire(old(socket.plan), false, fin, opcode, p, key) &&
              (ret <==> socket.sent == old(socket.sent) + Frame(fin, opcode, p, key))
      ensures old(socket.plan) == [] ==> ret
    {
      hide Masked, Header, HeaderSize, Put, Taken;
      ghost var was, plan := socket.sent, socket.plan;
      Pack(buf, length, headerSize, opcode, fin, maskKey, useInternBuffer);
      ghost var frame := buf[MAX_HEADER_SIZE - headerSize..MAX_HEADER_SIZE + length];
      var total := length + headerSize;
      var r := socket.Send(buf[MAX_HEADER_SIZE - headerSize..MAX_HEADER_SIZE + length]);
      ret := r == total;
      SizeOfHeader(length, cIsClient);
      SentIs(plan, frame, r);
      SameBehind(was, Taken(plan, frame), frame);
    }

    /** Header and payload in two pieces. The payload is sent even when the header was not. */
    method SendApart(payload: seq<Byte>, headerSize: nat, opcode: nat, fin: bool) returns (ret: bool)
      requires opcode < 16 && |payload| < SIZE_LIMIT
      requires headerSize == HeaderSize(|payload|, cIsClient) <= MAX_HEADER_SIZE
      modifies socket
      ensures var key := if cIsClient then Some(NO_KEY) else None;
              socket.sent == old(socket.sent) + FrameOnWire(old(socket.plan), true, fin, opcode, payload, key) &&
              (ret <==> socket.sent == old(socket.sent) + Frame(fin, opcode, payload, key))
      ensures old(socket.plan) == [] ==> ret
    {
      hide Masked, Header, HeaderSize, Put, Taken, Later, OnWire;
      ghost var key := if cIsClient then Some(NO_KEY) else None;
      ghost var h := Header(fin, opcode, |payload|, key);
      ghost var was, plan := socket.sent, socket.plan;
      HeaderIsSize(fin, opcode, |payload|, key);
      MaskedTwice(payload, NO_KEY);
      var buffer := new Byte[MAX_HEADER_SIZE](_ => 0);
      ghost var b := buffer[..];
      var _ := CreateHeader(buffer, 0, opcode, |payload|, cIsClient, NO_KEY, fin);
      PutParts(b, 0, h);
      assert buffer[..headerSize] == h;
      var r := socket.Send(buffer[..headerSize]);
      ret := r == headerSize;
      SizeOfHeader(|payload|, cIsClient);
      SentIs(plan, h, r);
      LaterIs(plan, payload);
      if |payload| > 0 {
        var r' := socket.Send(payload);
        if r' != |payload| { ret := false; }
        SentIs(Later(plan), payload, r');
      }
      WholeParts(plan, h, payload);
      OnWireIs(was, plan, h, payload);
      SameBehind(was, OnWire(plan, true, h, payload), h + payload);
    }
  }

  lemma SentIs(plan: seq<int>, slice: seq<Byte>, r: int)
    requires r == if plan == [] || plan[0] > |slice| then |slice| else plan[0]
    ensures Taken(plan, slice) == (if r < 0 then [] else slice[..r]) &&
            (r == |slice| || (slice == [] && r < 0) <==> |Taken(plan, slice)| == |slice|) &&
            (|Taken(plan, slice)| == |slice| <==> Taken(plan, slice) == slice)
  {
  }

  lemma LaterIs(plan: seq<int>, p: seq<Byte>)
    ensures Later(plan) == if plan == [] then [] else plan[1..]
    ensures p == [] ==> Taken(Later(plan), p) == []
  {
  }

  lemma OnWireIs(was: seq<Byte>, plan: seq<int>, h: seq<Byte>, p: seq<Byte>)
    ensures was + OnWire(plan, true, h, p) == was + Taken(plan, h) + Taken(Later(plan), p)
  {
  }

  lemma SameBehind(was: seq<Byte>, s: seq<Byte>, t: seq<Byte>)
    ensures was + s == was + t <==> s == t
  {
    if was + s == was + t { assert s == (was + s)[|was|..] && t == (was + t)[|was|..]; }
  }

  lemma JoinParts(b: seq<Byte>, i: nat, j: nat, k: nat)
    requires i <= j <= k <= |b|
    ensures b[i..k] == b[i..j] + b[j..k]
  {
  }

  lemma PutParts(b: seq<Byte>, at: nat, t: seq<Byte>)
    requires at + |t| <= |b|
    ensures var r := Put(b, at, t); r[..at] == b[..at] && r[at..at + |t|] == t && r[at + |t|..] == b[at + |t|..]
  {
  }

  lemma PutSame(b: seq<Byte>, at: nat, end: nat)
    requires at <= end <= |b|
    ensures Put(b, at, b[at..end]) == b
  {
  }

  lemma SizeOfHeader(length: nat, mask: bool)
    ensures 2 <= HeaderSize(length, mask) <= MAX_HEADER_SIZE
  {
  }

  /** A zero byte behind the payload ends the string there at the latest. */
  lemma {:induction false} CStringOf(p: seq<Byte>, buf: seq<Byte>)
    requires |p| < |buf| && buf[..|p|] == p && buf[|p|] == 0
    ensures CString(buf) == CString(p)
  {
    if p != [] {
      assert buf[0] == p[0] && buf[1..][..|p| - 1] == p[1..];
      CStringOf(p[1..], buf[1..]);
    }
  }
}
