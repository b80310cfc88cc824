/** The publish packet (MQTT 3.1.1, section 3.3): MQTTSerializePublish.c writes it and
    MQTTDeserializePublish.c reads it. */
module MqttPublish {
  import opened HttpTypes
  import opened Buffers
  import opened MqttCodec
  import opened MqttFrame

  const PUBLISH := 3

  /** The arguments of MQTTSerialize_publish. */
  datatype Message = Message(dup: Byte, qos: nat, retained: Byte, packetid: nat, topic: MqttString, payload: seq<Byte>)

  /** The packet id, which QoS 0 leaves out. */
  function IdBytes(m: Message): seq<Byte> { if m.qos > 0 then IntBytes(m.packetid) else [] }

  function Body(m: Message): seq<Byte> { StringBytes(Bytes(m.topic)) + (IdBytes(m) + m.payload) }

  /** The publish packet on the wire. */
  function Packet(m: Message): seq<Byte> { Frame(HeaderByte(PUBLISH, m.dup, m.qos, m.retained), Body(m)) }

  /** The first byte of every publish packet (section 3.3.1): type 3, then dup, QoS and retain. */
  lemma FirstByte(m: Message)
    ensures Packet(m)[0] == 0x30 + 8 * (m.dup % 2) + 2 * (m.qos % 4) + m.retained % 2
  {
    hide Encoded, Body;
  }

  /** The example of section 3.3.2: topic a/b with packet id 10 and QoS 1, and a payload of one
      byte. */
  lemma Example()
    ensures Packet(Message(0, 1, 0, 10, MqttString(Some([0x61, 0x2F, 0x62]), None), [0x21])) ==
            [0x32, 8, 0, 3, 0x61, 0x2F, 0x62, 0, 10, 0x21]
  {
    assert IntBytes(3) == [0, 3] && IntBytes(10) == [0, 10] && Encoded(8) == [8];
  }

  /** MQTTSerialize_publishLength */
  function PublishLength(m: Message): (len: nat)
    ensures OneForm(m.topic) ==> len == |Body(m)|
  {
    StringLength(Bytes(m.topic));
    2 + Strlen(m.topic) + |m.payload| + if m.qos > 0 then 2 else 0
  }

  /** MQTTSerialize_publish */
  method Serialize(buf: array<Byte>, buflen: nat, m: Message) returns (rc: int)
    requires buflen <= buf.Length && OneForm(m.topic) && |Body(m)| <= MAX_REMAINING_LENGTH
    modifies buf
    ensures var needed := PacketLen(|Body(m)|);
            if needed > buflen then rc == -2 && buf[..] == old(buf[..])
            else rc == |Packet(m)| <= needed && buf[..] == Put(old(buf[..]), 0, Packet(m))
  {
    hide Put, Encoded, Bytes, PacketLen, StringBytes;
    var len := PublishLength(m);
    if PacketLen(len) > buflen { return BUFFER_TOO_SHORT; }
    PacketLenExact(len);
    StringLength(Bytes(m.topic));
    ghost var b := buf[..];
    var header := HeaderByte(PUBLISH, m.dup, m.qos, m.retained);
    ghost var h, t, id := [header] + Encoded(len), StringBytes(Bytes(m.topic)), IdBytes(m);
    var ptr := WriteHead(buf, header, len);
    ptr := WriteString(buf, ptr, m.topic);
    PutTwice(b, 0, h, t);
    ptr := WriteId(buf, ptr, m);
    PutTwice(b, 0, h + t, id);
    ptr := WriteBytes(buf, ptr, m.payload);
    PutTwice(b, 0, h + t + id, m.payload);
    Regroup(h, t, id, m.payload);
    rc := ptr;
  }

  method WriteId(buf: array<Byte>, at: nat, m: Message) returns (ptr: nat)
    requires at + |IdBytes(m)| <= buf.Length
    modifies buf
    ensures ptr == at + |IdBytes(m)| && buf[..] == Put(old(buf[..]), at, IdBytes(m))
  {
    hide Put;
    ptr := at;
    PutNothing(buf[..], at);
    if m.qos > 0 { ptr := WriteInt(buf, at, m.packetid); }
  }

  // ---------------------------------------------------------------- reading

  /** What MQTTDeserialize_publish does; the payload is given by where it starts and its
      length. `Overread` stands for a read behind the buffer. */
  datatype Reading =
    | Overread
    | WrongType
    | Failed(rc: nat)
    | Published(dup: Byte, qos: nat, retained: Byte, packetid: Option<nat>, topic: seq<Byte>, payload: nat,
                payloadlen: int)

  function ReadPublish(buf: seq<Byte>): Reading {
    if buf == [] then Overread
    else if KindOf(buf[0]) != PUBLISH then WrongType
    else
      var u := Unframe(buf);
      if u.Runs? then Overread
      else if StringAt(buf[u.cur..], u.enddata - u.cur).None? then Failed(u.rc)
      else
        var t := StringAt(buf[u.cur..], u.enddata - u.cur).value;
        ReadRest(buf, u.cur + 2 + |t|, u.enddata, t)
  }

  /** Behind the topic. */
  function ReadRest(buf: seq<Byte>, cur: nat, enddata: nat, topic: seq<Byte>): Reading
    requires buf != [] && cur <= |buf|
  {
    var h := buf[0];
    if QosOf(h) == 0 then Published(DupOf(h), 0, RetainedOf(h), None, topic, cur, enddata - cur)
    else if cur + 2 > |buf| then Overread
    else Published(DupOf(h), QosOf(h), RetainedOf(h), Some(IntAt(buf[cur..])), topic, cur + 2, enddata - cur - 2)
  }

  /** The payload that the deserializer points to. */
  function PayloadOf(r: Reading, buf: seq<Byte>): seq<Byte>
    requires r.Published? && 0 <= r.payloadlen && r.payload + r.payloadlen <= |buf|
  {
    buf[r.payload..r.payload + r.payloadlen]
  }

  /** What a written message is read as. */
  predicate Gives(r: Reading, m: Message, buf: seq<Byte>) {
    r.Published? && r.dup == m.dup % 2 && r.qos == m.qos && r.retained == m.retained % 2 && r.topic == Bytes(m.topic) &&
    r.packetid == (if m.qos > 0 then Some(m.packetid) else None) &&
    0 <= r.payloadlen && r.payload + r.payloadlen <= |buf| && PayloadOf(r, buf) == m.payload
  }

  /** Behind the topic of a written message. */
  lemma RestReadBack(m: Message, buf: seq<Byte>, cur: nat, rest: seq<Byte>)
    requires m.qos <= 3 && m.packetid <= 65535 && buf != [] && buf[0] == HeaderByte(PUBLISH, m.dup, m.qos, m.retained)
    requires cur <= |buf| && buf[cur..] == IdBytes(m) + (m.payload + rest)
    ensures Gives(ReadRest(buf, cur, cur + |IdBytes(m)| + |m.payload|, Bytes(m.topic)), m, buf)
  {
    hide Bytes, IntAt, IntBytes, HeaderByte, KindOf, DupOf, QosOf, RetainedOf;
    HeaderReadBack(PUBLISH, m.dup, m.qos, m.retained);
    IntReadBack(m.packetid, m.payload + rest);
    var k := |IdBytes(m)|;
    assert buf[cur + k..] == buf[cur..][k..] == m.payload + rest;
    assert buf[cur + k..cur + k + |m.payload|] == buf[cur + k..][..|m.payload|] == m.payload;
  }

  /** With any QoS, topic and payload, the packet gives back the flags, the QoS, the topic,
      the payload, and the packet id when there is one, whatever follows it. */
  lemma PublishReadBack(m: Message, rest: seq<Byte>)
    requires m.qos <= 3 && m.packetid <= 65535 && |Bytes(m.topic)| <= 65535 && |Body(m)| <= MAX_REMAINING_LENGTH
    ensures var buf := Packet(m) + rest; Gives(ReadPublish(buf), m, buf)
  {
    hide Bytes, Encoded, Unframe, StringAt, StringBytes, Gives, ReadRest, HeaderByte, KindOf, IdBytes;
    var header, t := HeaderByte(PUBLISH, m.dup, m.qos, m.retained), Bytes(m.topic);
    var buf := Packet(m) + rest;
    HeaderReadBack(PUBLISH, m.dup, m.qos, m.retained);
    UnframeFrame(header, Body(m), rest);
    StringLength(t);
    var cur := 1 + |Encoded(|Body(m)|)|;
    var n := 2 + |t|;
    var z := IdBytes(m) + (m.payload + rest);
    assert buf[cur..] == StringBytes(t) + z by { Regroup(StringBytes(t), IdBytes(m), m.payload, rest); }
    StringReadBack(t, z, |Body(m)|);
    assert buf[cur + n..] == buf[cur..][n..];
    RestReadBack(m, buf, cur + n, rest);
  }

  // ---------------------------------------------------------------- the deserializer as it is written

  /** MQTTDeserialize_publish. When it fails, its return code is still the result of the
      length decoder. */
  method Deserialize(buf: seq<Byte>)
    returns (rc: int, dup: Byte, qos: nat, retained: Byte, packetid: Option<nat>, topic: seq<Byte>, payload: nat,
             payloadlen: int)
    requires !ReadPublish(buf).Overread?
    ensures var r := ReadPublish(buf);
            if r.WrongType? then rc == 0
            else if r.Failed? then rc == r.rc
            else rc == 1 && r == Published(dup, qos, retained, packetid, topic, payload, payloadlen)
  {
    hide StringAt, Unframe, KindOf, DupOf, QosOf, RetainedOf;
    rc, dup, qos, retained, packetid, topic, payload, payloadlen := 0, 0, 0, 0, None, [], 0, 0;
    if KindOf(buf[0]) != PUBLISH { return; }
    dup := DupOf(buf[0]);
    qos := QosOf(buf[0]);
    retained := RetainedOf(buf[0]);
    var n, cur, enddata := ReadHead(buf);
    rc := n;
    var ok, curdata, b := ReadString(buf, cur, enddata);
    if ok == 0 || curdata > enddata { return; }
    topic := b;
    if qos > 0 {
      packetid := Some(256 * (buf[curdata] as int) + (buf[curdata + 1] as int));
      curdata := curdata + 2;
    }
    payloadlen := enddata - curdata;
    payload := curdata;
    rc := 1;
  }

  /** A complete packet: the topic, and the packet id when there is one, end within what the
      remaining length counts. */
  predicate Complete(buf: seq<Byte>)
    requires buf != []
  {
    var u := Unframe(buf);
    u.Open? && StringAt(buf[u.cur..], u.enddata - u.cur).Some? &&
    2 + |StringAt(buf[u.cur..], u.enddata - u.cur).value| + (if QosOf(buf[0]) > 0 then 2 else 0) <= u.enddata - u.cur
  }

  /** The return code is 1 for every topic that is read, and also for a topic that runs short
      when the remaining length takes one byte. The packet is complete exactly when, besides,
      the payload length is not negative: a missing packet id is read from what follows. */
  lemma SuccessMeans(buf: seq<Byte>)
    requires ReadPublish(buf).Failed? || ReadPublish(buf).Published?
    ensures var r := ReadPublish(buf);
            (if r.Failed? then r.rc else 1) == 1 <==> r.Published? || buf[1] < 128
    ensures Complete(buf) <==> ReadPublish(buf).Published? && 0 <= ReadPublish(buf).payloadlen
  {
    hide StringAt, Decode, KindOf, QosOf;
    OneByteLength(buf);
  }

  /** A topic that runs short, and a packet id that is missing: both return 1. */
  lemma ShortPacketAccepted()
    ensures ReadPublish([0x30, 3, 0, 9, 0x61]) == Failed(1)
    ensures ReadPublish([0x32, 3, 0, 1, 0x61, 0, 0]) == Published(0, 1, 0, Some(0), [0x61], 7, -2)
  {
    ShortTopic();
    ShortPayload();
    hide ReadPublish;
  }

  lemma ShortTopic()
    ensures ReadPublish([0x30, 3, 0, 9, 0x61]) == Failed(1)
  {
    var a: seq<Byte> := [0x30, 3, 0, 9, 0x61];
    assert Decode(a[1..]) == Decoded(1, 3, 1) && a[2..] == [0, 9, 0x61];
  }

  lemma ShortPayload()
    ensures ReadPublish([0x32, 3, 0, 1, 0x61, 0, 0]) == Published(0, 1, 0, Some(0), [0x61], 7, -2)
  {
    var b: seq<Byte> := [0x32, 3, 0, 1, 0x61, 0, 0];
    assert Decode(b[1..]) == Decoded(1, 3, 1) && b[2..] == [0, 1, 0x61, 0, 0] && b[5..] == [0, 0];
    assert [0, 1, 0x61, 0, 0][2..3] == [0x61];
  }
}
