/** The fixed header that every packet starts with (MQTT 3.1.1, section 2.2). */
module MqttFrame {
  import opened HttpTypes
  import opened Buffers
  import opened MqttCodec
  import MqttReader

  const BUFFER_TOO_SHORT := -2

  /** The header byte, the remaining length and what it counts. */
  function Frame(header: Byte, body: seq<Byte>): seq<Byte> { [header] + Encoded(|body|) + body }

  /** MQTTHeader: retain, two bits of QoS, dup, four bits of type. */
  function HeaderByte(kind: nat, dup: Byte, qos: nat, retained: Byte): Byte
    requires kind <= 15
  {
    16 * kind + 8 * (dup % 2) + 2 * (qos % 4) + retained % 2
  }

  function KindOf(header: Byte): nat { header / 16 }
  function DupOf(header: Byte): Byte { header / 8 % 2 }
  function QosOf(header: Byte): nat { header / 2 % 4 }
  function RetainedOf(header: Byte): Byte { header % 2 }

  lemma HeaderReadBack(kind: nat, dup: Byte, qos: nat, retained: Byte)
    requires kind <= 15
    ensures var h := HeaderByte(kind, dup, qos, retained);
            KindOf(h) == kind && DupOf(h) == dup % 2 && QosOf(h) == qos % 4 && RetainedOf(h) == retained % 2
  {
    HeaderBits(kind, dup % 2, qos % 4, retained % 2);
  }

  lemma HeaderBits(k: nat, d: nat, q: nat, r: nat)
    requires k <= 15 && d <= 1 && q <= 3 && r <= 1
    ensures var h := 16 * k + 8 * d + 2 * q + r;
            h < 256 && h / 16 == k && h / 8 % 2 == d && h / 2 % 4 == q &&
            h % 2 == r
  {
    var h := 16 * k + 8 * d + 2 * q + r;
    assert h / 8 == 2 * k + d;
    assert h / 2 == 4 * (2 * k + d) + q;
  }

  /** A received packet behind its header byte: `Runs` when the length cannot be read inside
      the buffer, or claims more than the buffer holds. */
  datatype Opened = Runs | Open(rc: nat, cur: nat, enddata: nat)

  /** What the deserializers do first. They go by the length in the packet, not by the length
      of the buffer. */
  function Unframe(buf: seq<Byte>): (r: Opened)
    requires buf != []
    ensures r.Open? ==> r.cur <= r.enddata <= |buf|
  {
    var d := Decode(buf[1..]);
    if d.len <= MAX_LENGTH_BYTES && d.used < d.len then Runs
    else if 1 + d.len + d.value > |buf| then Runs
    else Open(d.len, 1 + d.len, 1 + d.len + d.value)
  }

  /** Both readers take a packet that fits into the buffer as it is, give its type, and leave what
      follows it; only the resumable one passes over a packet of type 0. */
  lemma FrameRead(header: Byte, body: seq<Byte>, rest: seq<Byte>, b: seq<Byte>, buflen: nat)
    requires |body| <= MAX_REMAINING_LENGTH && 5 <= |b| && |Frame(header, body)| <= buflen <= |b|
    ensures var (s, taken) := (Frame(header, body) + rest,
                               MqttReader.Outcome(header / 16, Put(b, 0, Frame(header, body))));
            MqttReader.Blocking(s, b, buflen) == taken &&
            (MqttReader.TakenMeans(s, b, buflen); MqttReader.Behind(s) == rest) &&
            if header >= 16 then MqttReader.Resumed(s, b, buflen) == taken && MqttReader.Left(s, b, buflen) == rest
            else MqttReader.Resumed(s, b, buflen) == MqttReader.Resumed(rest, taken.buf, buflen)
  {
    hide Encoded, Decode, Put;
    var s, e := Frame(header, body) + rest, Encoded(|body|);
    assert s[1..] == e + (body + rest) && s[0] == header;
    LengthReadBack(|body|, body + rest);
    assert s[1 + |e|..] == body + rest && (body + rest)[..|body|] == body && (body + rest)[|body|..] == rest;
    assert MqttReader.Payload(s) == body + rest && MqttReader.PayloadAt(s) == 1 + |e|;
    assert MqttReader.Take(MqttReader.Payload(s), |body|) == body;
    HeadPut(header, e, body, b);
    assert MqttReader.WholeLength(s);
    assert header < 16 ==> header / 16 == 0;
    assert header >= 16 ==> header / 16 > 0;
  }

  lemma HeadPut(header: Byte, e: seq<Byte>, body: seq<Byte>, b: seq<Byte>)
    requires 1 + |e| + |body| <= |b| && b != []
    ensures Put(Put(b[0 := header], 1, e), 1 + |e|, body) == Put(b, 0, [header] + e + body)
  {
    assert b[0 := header] == Put(b, 0, [header]);
    PutTwice(b, 0, [header], e);
    PutTwice(b, 0, [header] + e, body);
  }

  lemma UnframeFrame(header: Byte, body: seq<Byte>, rest: seq<Byte>)
    requires |body| <= MAX_REMAINING_LENGTH
    ensures var s := Frame(header, body) + rest;
            var k := |Encoded(|body|)|;
            s[0] == header && Unframe(s) == Open(k, 1 + k, 1 + k + |body|) && s[1 + k..] == body + rest
  {
    hide Encoded, Decode;
    var s := Frame(header, body) + rest;
    var k := Encoded(|body|);
    LengthReadBack(|body|, body + rest);
    assert s[1..] == k + (body + rest);
    assert s[1 + |k|..] == body + rest;
  }

  lemma {:induction false} DecodeTakesMore(s: seq<Byte>, len: nat, multiplier: nat, value: nat)
    ensures DecodeFrom(s, len, multiplier, value).len > len
    decreases |s|
  {
    if len < MAX_LENGTH_BYTES && s != [] && s[0] >= 128 {
      DecodeTakesMore(s[1..], len + 1, multiplier * 128, value + s[0] % 128 * multiplier);
    }
  }

  /** The length decoder returns 1 exactly when the first byte is the whole length. */
  lemma OneByteLength(buf: seq<Byte>)
    requires buf != [] && Unframe(buf).Open?
    ensures 1 < |buf| && (Unframe(buf).rc == 1 <==> buf[1] < 128)
  {
    assert Decode([]) == Decoded(1, 0, 0);
    assert |buf| > 1 ==> buf[1..][0] == buf[1];
    if |buf| > 1 && buf[1] >= 128 { DecodeTakesMore(buf[1..][1..], 1, 128, buf[1] % 128); }
  }

  /** Header byte and remaining length. */
  method WriteHead(buf: array<Byte>, header: Byte, remLen: nat) returns (ptr: nat)
    requires 1 + |Encoded(remLen)| <= buf.Length
    modifies buf
    ensures ptr == 1 + |Encoded(remLen)| && buf[..] == Put(old(buf[..]), 0, [header] + Encoded(remLen))
  {
    hide Put, Encoded;
    ptr := WriteByte(buf, 0, header);
    var k := Encode(buf, ptr, remLen);
    PutTwice(old(buf[..]), 0, [header], Encoded(remLen));
    ptr := ptr + k;
  }

  /** MQTTPacket_decodeBuf behind the header byte. */
  method ReadHead(buf: seq<Byte>) returns (rc: nat, cur: nat, enddata: nat)
    requires buf != [] && Unframe(buf).Open?
    ensures Unframe(buf) == Open(rc, cur, enddata)
  {
    hide Decode;
    var source := new MqttReader.Stream(buf[1..]);
    var n, v := source.DecodeLength();
    rc, cur, enddata := n, 1 + n, 1 + n + v;
  }
}
