/** The connect packet: its serializer and the deserializer that reads it back
    (MQTT 3.1.1, section 3.1). */
module MqttConnect {
  import opened HttpTypes
  import opened Buffers
  import opened MqttCodec
  import opened MqttFrame
  import MqttReader

  datatype Will = Will(topic: MqttString, message: MqttString, qos: nat, retained: bool)

  /** MQTTPacket_connectData */
  datatype ConnectData = ConnectData(
    version: nat, clientID: MqttString, keepAlive: nat, cleanSession: bool, willFlag: bool, will: Will,
    username: MqttString, password: MqttString)

  predicate Fits(s: MqttString) { OneForm(s) && |Bytes(s)| <= 65535 }

  /** The options that a packet can hold, of any protocol version. */
  predicate IsConnect(o: ConnectData) {
    o.keepAlive <= 65535 && Fits(o.clientID) && Fits(o.username) && Fits(o.password) &&
    (o.willFlag ==> Fits(o.will.topic) && Fits(o.will.message) && o.will.qos <= 3)
  }

  /** The versions that MQTTSerialize_connectLength knows. */
  predicate IsKnown(version: nat) { version == 3 || version == 4 }

  /** MQTTSerialize_connectLength */
  function ConnectLength(o: ConnectData): nat {
    (if o.version == 3 then 12 else if o.version == 4 then 10 else 0) + Strlen(o.clientID) + 2 +
    (if o.willFlag then Strlen(o.will.topic) + 2 + (Strlen(o.will.message) + 2) else 0) +
    (if Present(o.username) then Strlen(o.username) + 2 else 0) +
    (if Present(o.password) then Strlen(o.password) + 2 else 0)
  }

  const MQTT: seq<Byte> := [0x4D, 0x51, 0x54, 0x54]

  /** "MQIsdp", the name that the serializer writes for every version but 4 */
  const MQISDP: seq<Byte> := [0x4D, 0x51, 0x49, 0x73, 0x64, 0x70]

  /** "MQIdsp", the name that the deserializer looks for with version 3 */
  const MQIDSP: seq<Byte> := [0x4D, 0x51, 0x49, 0x64, 0x73, 0x70]

  function Protocol(o: ConnectData): seq<Byte> { if o.version == 4 then MQTT else MQISDP }

  function Bit(b: bool, value: nat): nat { if b then value else 0 }

  /** MQTTConnectFlags */
  function FlagsByte(o: ConnectData): Byte
    requires o.willFlag ==> o.will.qos <= 3
  {
    Bit(o.cleanSession, 2) + (if o.willFlag then 4 + 8 * o.will.qos + Bit(o.will.retained, 32) else 0) +
    Bit(Present(o.password), 64) + Bit(Present(o.username), 128)
  }

  function OptString(present: bool, s: MqttString): seq<Byte> { if present then StringBytes(Bytes(s)) else [] }

  /** The strings behind the client id. */
  function Tail(o: ConnectData): seq<Byte> {
    OptString(o.willFlag, o.will.topic) + (OptString(o.willFlag, o.will.message) +
    (OptString(Present(o.username), o.username) + OptString(Present(o.password), o.password)))
  }

  function Fixed(o: ConnectData): seq<Byte>
    requires o.willFlag ==> o.will.qos <= 3
  {
    [if o.version == 4 then 4 else 3, FlagsByte(o)] + IntBytes(o.keepAlive)
  }

  /** Variable header and payload. */
  function Body(o: ConnectData): seq<Byte>
    requires o.willFlag ==> o.will.qos <= 3
  {
    StringBytes(Protocol(o)) + (Fixed(o) + (StringBytes(Bytes(o.clientID)) + Tail(o)))
  }

  /** The body is as long as predicted exactly for the versions 3 and 4, and longer by the twelve
      bytes in front of the client id for every other. */
  lemma BodyLength(o: ConnectData)
    requires IsConnect(o)
    ensures |Body(o)| == ConnectLength(o) + if IsKnown(o.version) then 0 else 12
    ensures |Body(o)| <= MAX_REMAINING_LENGTH
  {
    StrlenIsLength(o.clientID);
    StrlenIsLength(o.username);
    StrlenIsLength(o.password);
    if o.willFlag {
      StrlenIsLength(o.will.topic);
      StrlenIsLength(o.will.message);
    }
    hide Bytes, Strlen;
  }

  /** The connect packet on the wire: the length field holds the predicted length. */
  function Packet(o: ConnectData): seq<Byte>
    requires o.willFlag ==> o.will.qos <= 3
  {
    [0x10] + Encoded(ConnectLength(o)) + Body(o)
  }

  /** The length field is right, and the packet is one that can be taken apart again, exactly
      for the versions 3 and 4. */
  lemma PacketIsFrame(o: ConnectData)
    requires IsConnect(o)
    ensures Packet(o) == Frame(0x10, Body(o)) <==> IsKnown(o.version)
  {
    hide Encoded, Body, ConnectLength;
    BodyLength(o);
    var n, b := ConnectLength(o), Body(o);
    if Packet(o) == Frame(0x10, b) {
      LengthReadBack(n, b);
      LengthReadBack(|b|, b);
      assert Packet(o)[1..] == Encoded(n) + b && Frame(0x10, b)[1..] == Encoded(|b|) + b;
    }
  }

  /** The bytes before the end of the memory that a caller must own for the writer to stay in
      it: the buffer, and for an unknown version what the length does not count. */
  function Reach(buflen: nat, o: ConnectData): nat { buflen + if IsKnown(o.version) then 0 else 12 }

  /** The test of the length that lets the serializer write. */
  predicate Passes(buflen: nat, o: ConnectData) { PacketLen(ConnectLength(o)) <= buflen }

  /** The test keeps the packet within every buffer exactly for the versions 3 and 4. */
  lemma BoundHolds(o: ConnectData)
    requires IsConnect(o)
    ensures IsKnown(o.version) <==> forall buflen: nat | Passes(buflen, o) :: |Packet(o)| <= buflen
  {
    hide Encoded, Body, ConnectLength, PacketLen;
    BodyLength(o);
    PacketLenExact(ConnectLength(o));
    assert Passes(PacketLen(ConnectLength(o)), o);
  }

  /** What section 3.1.2 puts in front of the client id for level 4: name, level, flags and
      keep-alive. */
  lemma ConnectHead(o: ConnectData)
    requires IsConnect(o) && o.version == 4
    ensures Packet(o)[0] == 0x10 && 10 <= |Body(o)|
    ensures Body(o)[..10] ==
            [0, 4, 'M' as int, 'Q' as int, 'T' as int, 'T' as int, 4, 2 * Bit(o.cleanSession, 1) +
             (if o.willFlag then 4 + 8 * o.will.qos + 32 * Bit(o.will.retained, 1) else 0) +
             64 * Bit(Present(o.password), 1) + 128 * Bit(Present(o.username), 1),
             o.keepAlive / 256, o.keepAlive % 256]
  {
    hide Encoded, Bytes, Tail, StringBytes, Present;
    var s := StringBytes(MQTT);
    NameBytes();
    assert |s| == 6 && |Fixed(o)| == 4;
    assert Body(o)[..10] == s + Fixed(o);
  }

  lemma NameBytes()
    ensures StringBytes(MQTT) == [0, 4, 0x4D, 0x51, 0x54, 0x54]
  {
  }

  /** MQTTSerialize_connect: writes the packet, or nothing when the predicted length does not
      fit. `buf` is the memory from the start of the buffer on, of which `buflen` bytes are its
      own. */
  method Serialize(buf: array<Byte>, buflen: nat, o: ConnectData) returns (rc: int)
    requires Reach(buflen, o) <= buf.Length && IsConnect(o)
    modifies buf
    ensures !Passes(buflen, o) ==> rc == -2 && buf[..] == old(buf[..])
    ensures Passes(buflen, o) ==>
              rc == |Packet(o)| <= Reach(buflen, o) && buf[..] == Put(old(buf[..]), 0, Packet(o))
    ensures IsKnown(o.version) ==> rc <= buflen
  {
    hide Put, Encoded, Bytes, Strlen, PacketLen, FlagsByte, ConnectLength;
    BodyLength(o);
    var len := ConnectLength(o);
    if PacketLen(len) > buflen { return BUFFER_TOO_SHORT; }
    PacketLenExact(len);
    ghost var b := buf[..];
    var ptr := WriteHead(buf, 0x10, len);
    ptr := WriteBody(buf, ptr, o);
    PutTwice(b, 0, [0x10] + Encoded(len), Body(o));
    rc := ptr;
  }

  method WriteBody(buf: array<Byte>, at: nat, o: ConnectData) returns (ptr: nat)
    requires IsConnect(o) && at + |Body(o)| <= buf.Length
    modifies buf
    ensures ptr == at + |Body(o)| && buf[..] == Put(old(buf[..]), at, Body(o))
  {
    hide Put, Bytes, Strlen, Fixed, Tail;
    ghost var b := buf[..];
    ghost var s0, s1, s2, s3 := StringBytes(Protocol(o)), Fixed(o), StringBytes(Bytes(o.clientID)), Tail(o);
    ptr := WriteProtocol(buf, at, o);
    ptr := WriteFixed(buf, ptr, o);
    PutTwice(b, at, s0, s1);
    ptr := WriteString(buf, ptr, o.clientID);
    PutTwice(b, at, s0 + s1, s2);
    ptr := WriteTail(buf, ptr, o);
    PutTwice(b, at, s0 + s1 + s2, s3);
    assert s0 + s1 + s2 + s3 == Body(o);
  }

  /** writeCString of the protocol name. */
  method WriteProtocol(buf: array<Byte>, at: nat, o: ConnectData) returns (ptr: nat)
    requires at + |StringBytes(Protocol(o))| <= buf.Length
    modifies buf
    ensures ptr == at + |StringBytes(Protocol(o))| && buf[..] == Put(old(buf[..]), at, StringBytes(Protocol(o)))
  {
    hide Put;
    var name := if o.version == 4 then MQTT else MQISDP;
    ptr := WriteInt(buf, at, |name|);
    ptr := WriteBytes(buf, ptr, name);
    PutTwice(old(buf[..]), at, IntBytes(|name|), name);
  }

  method WriteFixed(buf: array<Byte>, at: nat, o: ConnectData) returns (ptr: nat)
    requires IsConnect(o) && at + |Fixed(o)| <= buf.Length
    modifies buf
    ensures ptr == at + |Fixed(o)| && buf[..] == Put(old(buf[..]), at, Fixed(o))
  {
    hide Put;
    ghost var b := buf[..];
    var version := if o.version == 4 then 4 else 3;
    ptr := WriteByte(buf, at, version);
    var flags := 0;
    if o.cleanSession { flags := flags + 2; }
    if o.willFlag {
      flags := flags + 4 + 8 * o.will.qos;
      if o.will.retained { flags := flags + 32; }
    }
    if Present(o.username) { flags := flags + 128; }
    if Present(o.password) { flags := flags + 64; }
    assert flags == FlagsByte(o);
    ptr := WriteByte(buf, ptr, flags);
    PutTwice(b, at, [version], [flags]);
    ptr := WriteInt(buf, ptr, o.keepAlive);
    PutTwice(b, at, [version] + [flags], IntBytes(o.keepAlive));
    assert [version] + [flags] + IntBytes(o.keepAlive) == Fixed(o);
  }

  method WriteOpt(buf: array<Byte>, at: nat, present: bool, s: MqttString) returns (ptr: nat)
    requires at + |OptString(present, s)| <= buf.Length
    modifies buf
    ensures ptr == at + |OptString(present, s)| && buf[..] == Put(old(buf[..]), at, OptString(present, s))
  {
    ptr := at;
    if present { ptr := WriteString(buf, at, s); }
  }

  method WriteTail(buf: array<Byte>, at: nat, o: ConnectData) returns (ptr: nat)
    requires at + |Tail(o)| <= buf.Length
    modifies buf
    ensures ptr == at + |Tail(o)| && buf[..] == Put(old(buf[..]), at, Tail(o))
  {
    hide Put, OptString;
    ghost var b := buf[..];
    ghost var s0, s1 := OptString(o.willFlag, o.will.topic), OptString(o.willFlag, o.will.message);
    ghost var s2, s3 := OptString(Present(o.username), o.username), OptString(Present(o.password), o.password);
    ptr := WriteOpt(buf, at, o.willFlag, o.will.topic);
    ptr := WriteOpt(buf, ptr, o.willFlag, o.will.message);
    PutTwice(b, at, s0, s1);
    ptr := WriteOpt(buf, ptr, Present(o.username), o.username);
    PutTwice(b, at, s0 + s1, s2);
    ptr := WriteOpt(buf, ptr, Present(o.password), o.password);
    PutTwice(b, at, s0 + s1 + s2, s3);
    assert s0 + s1 + s2 + s3 == Tail(o);
  }

  // ---------------------------------------------------------------- the deserializer

  /** What MQTTDeserialize_connect does, with the data stored by then. `Overread` stands for a
      read behind the buffer. */
  datatype Reading = Overread | Rejected(stored: ConnectData) | Accepted(data: ConnectData)

  /** The data are taken exactly when `ok` says so. */
  predicate Gives(r: Reading, ok: bool, data: ConnectData) { if ok then r == Accepted(data) else r.Rejected? }

  /** memcmp over the bytes that both have */
  predicate SameStart(a: seq<Byte>, b: seq<Byte>) {
    var n := if |a| < |b| then |a| else |b|; a[..n] == b[..n]
  }

  /** MQTTPacket_checkVersion */
  predicate CheckVersion(protocol: seq<Byte>, version: Byte) {
    (version == 3 && SameStart(protocol, MQIDSP)) || (version == 4 && SameStart(protocol, MQTT))
  }

  predicate HasBit(flags: Byte, value: nat)
    requires value > 0
  {
    flags / value % 2 == 1
  }

  /** The password, behind the user name. */
  function ReadPassword(s: seq<Byte>, avail: int, flags: Byte, data: ConnectData): Reading
    requires avail <= |s|
  {
    if !HasBit(flags, 64) then Accepted(data)
    else if avail < 3 || StringAt(s, avail).None? then Rejected(data)
    else Accepted(data.(password := MqttCodec.Read(StringAt(s, avail).value)))
  }

  function ReadUser(s: seq<Byte>, avail: int, flags: Byte, data: ConnectData): Reading
    requires avail <= |s|
  {
    if !HasBit(flags, 128) then if HasBit(flags, 64) then Rejected(data) else Accepted(data)
    else if avail < 3 || StringAt(s, avail).None? then Rejected(data)
    else
      var b := StringAt(s, avail).value;
      ReadPassword(s[2 + |b|..], avail - 2 - |b|, flags, data.(username := MqttCodec.Read(b)))
  }

  function ReadWill(s: seq<Byte>, avail: int, flags: Byte, data0: ConnectData): Reading
    requires avail <= |s|
  {
    if !HasBit(flags, 4) then ReadUser(s, avail, flags, data0)
    else
      var data := Begun(data0, flags);
      var t := StringAt(s, avail);
      if t.None? then Rejected(data)
      else
        var data1 := data.(will := data.will.(topic := MqttCodec.Read(t.value)));
        var s1, avail1 := s[2 + |t.value|..], avail - 2 - |t.value|;
        var m := StringAt(s1, avail1);
        if m.None? then Rejected(data1)
        else
          ReadUser(s1[2 + |m.value|..], avail1 - 2 - |m.value|, flags,
                   data1.(will := data1.will.(message := MqttCodec.Read(m.value))))
  }

  /** The will before its strings. */
  function Begun(data: ConnectData, flags: Byte): ConnectData {
    data.(willFlag := true, will := data.will.(qos := flags / 8 % 4, retained := HasBit(flags, 32)))
  }

  /** Behind the protocol name: version, flags, keep-alive, client id and the rest. */
  function ReadFixed(protocol: seq<Byte>, s: seq<Byte>, avail: int, data: ConnectData): Reading
    requires avail <= |s|
  {
    if s == [] then Overread
    else if !CheckVersion(protocol, s[0]) then Rejected(data)
    else if |s| < 4 then Overread
    else
      var c := StringAt(s[4..], avail - 4);
      var data1 := data.(cleanSession := HasBit(s[1], 2), keepAlive := IntAt(s[2..]));
      if c.None? then Rejected(data1)
      else
        ReadWill(s[4..][2 + |c.value|..], avail - 4 - 2 - |c.value|, s[1],
                 data1.(clientID := MqttCodec.Read(c.value)))
  }

  function ReadConnect(buf: seq<Byte>, len: nat, data: ConnectData): Reading
    requires len <= |buf|
  {
    if buf == [] then Overread
    else if buf[0] / 16 != 1 then Rejected(data)
    else
      var d := Decode(buf[1..]);
      var cur := 1 + d.len;
      if d.len <= MAX_LENGTH_BYTES && d.used < d.len then Overread
      else if cur > |buf| || StringAt(buf[cur..], len - cur).None? then Rejected(data)
      else
        var b := StringAt(buf[cur..], len - cur).value;
        ReadFixed(b, buf[cur..][2 + |b|..], len - cur - 2 - |b|, data)
  }

  // ---------------------------------------------------------------- the round trip

  /** The deserializer takes the packet back: a password comes with a user name, and neither
      is empty where it would be the end of the packet. */
  predicate Readable(o: ConnectData) {
    (Present(o.password) ==> Present(o.username) && Bytes(o.password) != []) &&
    (Present(o.username) && !Present(o.password) ==> Bytes(o.username) != [])
  }

  function WithFixed(o: ConnectData, data: ConnectData): ConnectData {
    data.(cleanSession := o.cleanSession, keepAlive := o.keepAlive, clientID := MqttCodec.Read(Bytes(o.clientID)))
  }

  function WithWill(o: ConnectData, data: ConnectData): ConnectData {
    if o.willFlag
    then data.(willFlag := true,
               will := Will(MqttCodec.Read(Bytes(o.will.topic)), MqttCodec.Read(Bytes(o.will.message)), o.will.qos,
                            o.will.retained))
    else data
  }

  function WithLogin(o: ConnectData, data: ConnectData): ConnectData {
    var d := if Present(o.username) then data.(username := MqttCodec.Read(Bytes(o.username))) else data;
    if Present(o.password) then d.(password := MqttCodec.Read(Bytes(o.password))) else d
  }

  /** The options as the deserializer leaves them in `data`. */
  function Received(o: ConnectData, data: ConnectData): ConnectData { WithLogin(o, WithWill(o, WithFixed(o, data))) }

  lemma Bits(c: nat, w: nat, q: nat, r: nat, p: nat, u: nat)
    requires c <= 1 && w <= 1 && q <= 3 && r <= 1 && p <= 1 && u <= 1
    ensures var f := 2 * c + 4 * w + 8 * q + 32 * r + 64 * p + 128 * u;
            f < 256 && f / 2 % 2 == c && f / 4 % 2 == w && f / 8 % 4 == q && f / 32 % 2 == r && f / 64 % 2 == p &&
            f / 128 % 2 == u
  {
    var f := 2 * c + 4 * w + 8 * q + 32 * r + 64 * p + 128 * u;
    assert f / 2 == c + 2 * (w + 2 * q + 8 * r + 16 * p + 32 * u);
    assert f / 4 == w + 2 * (q + 4 * r + 8 * p + 16 * u);
    assert f / 8 == q + 4 * (r + 2 * p + 4 * u);
    assert f / 32 == r + 2 * (p + 2 * u);
    assert f / 64 == p + 2 * u;
  }

  lemma FlagsReadBack(o: ConnectData)
    requires o.willFlag ==> o.will.qos <= 3
    ensures var f := FlagsByte(o);
            HasBit(f, 2) == o.cleanSession && HasBit(f, 4) == o.willFlag && HasBit(f, 64) == Present(o.password) &&
            HasBit(f, 128) == Present(o.username) &&
            (o.willFlag ==> f / 8 % 4 == o.will.qos && HasBit(f, 32) == o.will.retained)
  {
    hide Present, FlagsByte;
    var q, r := if o.willFlag then o.will.qos else 0, if o.willFlag then Bit(o.will.retained, 1) else 0;
    FlagsSum(o, q, r);
    Bits(Bit(o.cleanSession, 1), Bit(o.willFlag, 1), q, r, Bit(Present(o.password), 1), Bit(Present(o.username), 1));
  }

  lemma FlagsSum(o: ConnectData, q: nat, r: nat)
    requires if o.willFlag then q == o.will.qos <= 3 && r == Bit(o.will.retained, 1) else q == r == 0
    ensures FlagsByte(o) == 2 * Bit(o.cleanSession, 1) + 4 * Bit(o.willFlag, 1) + 8 * q + 32 * r +
                            64 * Bit(Present(o.password), 1) + 128 * Bit(Present(o.username), 1)
  {
    hide Present;
  }

  lemma PasswordReadBack(o: ConnectData, rest: seq<Byte>, f: Byte, data: ConnectData)
    requires IsConnect(o) && HasBit(f, 64) == Present(o.password)
    ensures var t := OptString(Present(o.password), o.password);
            Gives(ReadPassword(t + rest, |t|, f, data), !Present(o.password) || Bytes(o.password) != [],
                  if Present(o.password) then data.(password := MqttCodec.Read(Bytes(o.password))) else data)
  {
    hide Bytes, HasBit;
    if Present(o.password) { StringReadBack(Bytes(o.password), rest, 2 + |Bytes(o.password)|); }
    hide StringAt, StringBytes;
  }

  lemma UserReadBack(o: ConnectData, rest: seq<Byte>, f: Byte, data: ConnectData)
    requires IsConnect(o) && HasBit(f, 64) == Present(o.password) && HasBit(f, 128) == Present(o.username)
    ensures var t := OptString(Present(o.username), o.username) + OptString(Present(o.password), o.password);
            Gives(ReadUser(t + rest, |t|, f, data), Readable(o), WithLogin(o, data))
  {
    hide Bytes, HasBit, ReadPassword, StringAt;
    var u, p := Bytes(o.username), OptString(Present(o.password), o.password);
    if Present(o.username) {
      var s := StringBytes(u) + (p + rest);
      assert OptString(true, o.username) + p + rest == s;
      StringReadBack(u, p + rest, 2 + |u| + |p|);
      PasswordReadBack(o, rest, f, data.(username := MqttCodec.Read(u)));
      assert |p| == if Present(o.password) then 2 + |Bytes(o.password)| else 0;
    }
  }

  /** Reading a will that was written. */
  lemma WillStep(t: seq<Byte>, m: seq<Byte>, z: seq<Byte>, rest: seq<Byte>, f: Byte, data: ConnectData)
    requires |t| <= 65535 && |m| <= 65535 && HasBit(f, 4)
    ensures var s := StringBytes(t) + (StringBytes(m) + (z + rest));
            ReadWill(s, 4 + |t| + |m| + |z|, f, data) ==
            ReadUser(z + rest, |z|, f, data.(willFlag := true,
                                             will := Will(MqttCodec.Read(t), MqttCodec.Read(m), f / 8 % 4,
                                                          HasBit(f, 32))))
  {
    hide ReadUser, StringAt, HasBit;
    StringReadBack(t, StringBytes(m) + (z + rest), 4 + |t| + |m| + |z|);
    StringReadBack(m, z + rest, 2 + |m| + |z|);
    hide StringBytes;
  }

  lemma Assoc(a: seq<Byte>, b: seq<Byte>, c: seq<Byte>, rest: seq<Byte>)
    ensures a + (b + c) + rest == a + (b + (c + rest))
    ensures |a + (b + c)| == |a| + |b| + |c|
  {
  }

  lemma WillStepOn(tail: seq<Byte>, t: seq<Byte>, m: seq<Byte>, z: seq<Byte>, rest: seq<Byte>, f: Byte,
                   data: ConnectData)
    requires |t| <= 65535 && |m| <= 65535 && HasBit(f, 4) && tail == StringBytes(t) + (StringBytes(m) + z)
    ensures ReadWill(tail + rest, |tail|, f, data) ==
            ReadUser(z + rest, |z|, f, data.(willFlag := true,
                                             will := Will(MqttCodec.Read(t), MqttCodec.Read(m), f / 8 % 4,
                                                          HasBit(f, 32))))
  {
    hide ReadWill, ReadUser, HasBit, StringBytes;
    StringLength(t);
    StringLength(m);
    Assoc(StringBytes(t), StringBytes(m), z, rest);
    WillStep(t, m, z, rest, f, data);
  }

  lemma WillReadBack(o: ConnectData, rest: seq<Byte>, f: Byte, data: ConnectData)
    requires IsConnect(o) && f == FlagsByte(o)
    ensures Gives(ReadWill(Tail(o) + rest, |Tail(o)|, f, data), Readable(o), WithLogin(o, WithWill(o, data)))
  {
    FlagsReadBack(o);
    hide Bytes, HasBit, FlagsByte, ReadUser, StringAt, Readable, OptString, StringBytes, WithLogin, Present,
      IsConnect, ReadWill;
    var t, m := Bytes(o.will.topic), Bytes(o.will.message);
    var z := OptString(Present(o.username), o.username) + OptString(Present(o.password), o.password);
    OptIs(o.will.topic);
    OptIs(o.will.message);
    UserReadBack(o, rest, f, WithWill(o, data));
    if o.willFlag {
      assert Tail(o) == StringBytes(t) + (StringBytes(m) + z);
      WillFits(o);
      WillStepOn(Tail(o), t, m, z, rest, f, data);
    } else {
      assert Tail(o) == z;
      assert ReadWill(z + rest, |z|, f, data) == ReadUser(z + rest, |z|, f, data) by { NoWill(z + rest, |z|, f, data); }
    }
  }

  lemma NoWill(s: seq<Byte>, avail: int, f: Byte, data: ConnectData)
    requires avail <= |s| && !HasBit(f, 4)
    ensures ReadWill(s, avail, f, data) == ReadUser(s, avail, f, data)
  {
  }

  lemma WillFits(o: ConnectData)
    requires IsConnect(o) && o.willFlag
    ensures |Bytes(o.will.topic)| <= 65535 && |Bytes(o.will.message)| <= 65535
  {
  }

  lemma OptIs(s: MqttString)
    ensures OptString(true, s) == StringBytes(Bytes(s)) && OptString(false, s) == [] &&
            |StringBytes(Bytes(s))| == 2 + |Bytes(s)|
  {
  }

  /** Of the two names that are written the deserializer knows the one of version 4: for version
      3 it compares with a name in which two letters are exchanged. */
  lemma ProtocolReadBack(o: ConnectData)
    ensures CheckVersion(Protocol(o), if o.version == 4 then 4 else 3) <==> o.version == 4
  {
    assert MQISDP[..6] == MQISDP && MQIDSP[..6] == MQIDSP && MQISDP[3] != MQIDSP[3];
  }

  lemma FixedRejected(o: ConnectData, s: seq<Byte>, avail: int, data: ConnectData)
    requires IsConnect(o) && o.version != 4 && Fixed(o) <= s && avail <= |s|
    ensures ReadFixed(Protocol(o), s, avail, data).Rejected?
  {
    hide CheckVersion, Protocol, FlagsByte;
    ProtocolReadBack(o);
  }

  /** Reading version, flags, keep-alive and client id that were written. */
  lemma FixedStep(p: seq<Byte>, v: Byte, f: Byte, k: nat, c: seq<Byte>, z: seq<Byte>, rest: seq<Byte>,
                  data: ConnectData)
    requires k <= 65535 && |c| <= 65535 && CheckVersion(p, v)
    ensures var s := [v, f] + IntBytes(k) + (StringBytes(c) + (z + rest));
            ReadFixed(p, s, 6 + |c| + |z|, data) ==
            ReadWill(z + rest, |z|, f, data.(cleanSession := HasBit(f, 2), keepAlive := k,
                                             clientID := MqttCodec.Read(c)))
  {
    hide ReadWill, StringAt, HasBit, CheckVersion, IntAt, IntBytes;
    var u := StringBytes(c) + (z + rest);
    var s := [v, f] + IntBytes(k) + u;
    assert s[4..] == u && s[2..] == IntBytes(k) + u && s[0] == v && s[1] == f;
    IntReadBack(k, u);
    StringReadBack(c, z + rest, 2 + |c| + |z|);
    hide StringBytes;
  }

  lemma FixedStepOn(all: seq<Byte>, p: seq<Byte>, v: Byte, f: Byte, k: nat, c: seq<Byte>, z: seq<Byte>, rest: seq<Byte>,
                    data: ConnectData)
    requires k <= 65535 && |c| <= 65535 && CheckVersion(p, v) && all == [v, f] + IntBytes(k) + (StringBytes(c) + z)
    ensures ReadFixed(p, all + rest, |all|, data) ==
            ReadWill(z + rest, |z|, f, data.(cleanSession := HasBit(f, 2), keepAlive := k,
                                             clientID := MqttCodec.Read(c)))
  {
    hide ReadFixed, ReadWill, HasBit, CheckVersion, IntBytes, StringBytes;
    StringLength(c);
    Assoc([v, f] + IntBytes(k), StringBytes(c), z, rest);
    FixedStep(p, v, f, k, c, z, rest, data);
  }

  lemma FixedReadBack(o: ConnectData, rest: seq<Byte>, data: ConnectData)
    requires IsConnect(o)
    ensures var t := Fixed(o) + (StringBytes(Bytes(o.clientID)) + Tail(o));
            Gives(ReadFixed(Protocol(o), t + rest, |t|, data), o.version == 4 && Readable(o), Received(o, data))
  {
    ProtocolReadBack(o);
    FlagsReadBack(o);
    hide Bytes, HasBit, FlagsByte, ReadWill, StringAt, Readable, Tail, CheckVersion, Protocol, ReadFixed, IntBytes,
      StringBytes, WithLogin, WithWill, Present, Fixed, IsConnect;
    var c, z := Bytes(o.clientID), Tail(o);
    var t := Fixed(o) + (StringBytes(c) + z);
    if o.version == 4 {
      assert Fixed(o) == [4, FlagsByte(o)] + IntBytes(o.keepAlive) by { FixedIs(o); }
      assert |c| <= 65535 && o.keepAlive <= 65535 by { ClientFits(o); }
      FixedStepOn(t, Protocol(o), 4, FlagsByte(o), o.keepAlive, c, z, rest, data);
      WillReadBack(o, rest, FlagsByte(o), WithFixed(o, data));
    } else {
      FixedRejected(o, t + rest, |t|, data);
    }
  }

  lemma FixedIs(o: ConnectData)
    requires o.willFlag ==> o.will.qos <= 3
    ensures Fixed(o) == [if o.version == 4 then 4 else 3, FlagsByte(o)] + IntBytes(o.keepAlive)
  {
    hide FlagsByte;
  }

  lemma ClientFits(o: ConnectData)
    requires IsConnect(o)
    ensures |Bytes(o.clientID)| <= 65535 && o.keepAlive <= 65535
  {
  }

  /** Reading the header, the length and the protocol name that were written. The length that
      was read is not looked at. */
  lemma HeaderStep(n: nat, p: seq<Byte>, t: seq<Byte>, rest: seq<Byte>, data: ConnectData)
    requires |p| <= 65535 && n <= MAX_REMAINING_LENGTH
    ensures var s := [0x10] + Encoded(n) + (StringBytes(p) + (t + rest));
            ReadConnect(s, 1 + |Encoded(n)| + 2 + |p| + |t|, data) == ReadFixed(p, t + rest, |t|, data)
  {
    hide ReadFixed, StringAt, Encoded, Decode;
    var u := StringBytes(p) + (t + rest);
    var s := [0x10] + Encoded(n) + u;
    assert s[1..] == Encoded(n) + u && s[1 + |Encoded(n)|..] == u && s[0] == 0x10;
    LengthReadBack(n, u);
    StringReadBack(p, t + rest, 2 + |p| + |t|);
    hide StringBytes;
  }

  lemma HeaderStepOn(packet: seq<Byte>, n: nat, p: seq<Byte>, t: seq<Byte>, rest: seq<Byte>, data: ConnectData)
    requires |p| <= 65535 && n <= MAX_REMAINING_LENGTH
    requires packet == [0x10] + Encoded(n) + (StringBytes(p) + t)
    ensures ReadConnect(packet + rest, |packet|, data) == ReadFixed(p, t + rest, |t|, data)
  {
    hide ReadConnect, ReadFixed, Encoded, StringBytes, IntBytes, CheckVersion;
    var e, b := [0x10] + Encoded(n), StringBytes(p);
    assert |packet| == 1 + |Encoded(n)| + 2 + |p| + |t| by { StringLength(p); }
    assert packet + rest == e + (b + (t + rest)) by { Assoc(e, b, t, rest); }
    HeaderStep(n, p, t, rest, data);
  }

  /** The deserializer takes a serialized packet back, and recovers everything that was put in
      it, exactly for version 4, when no string it needs three bytes for is empty and a password
      comes with a user name. A packet of any other version is refused, that of version 3 too. */
  lemma ConnectReadBack(o: ConnectData, rest: seq<Byte>, data: ConnectData)
    requires IsConnect(o)
    ensures Gives(ReadConnect(Packet(o) + rest, |Packet(o)|, data), o.version == 4 && Readable(o), Received(o, data))
  {
    BodyLength(o);
    NameShort(o);
    hide Bytes, ReadFixed, ReadConnect, Readable, Encoded, Tail, Received, ConnectLength, IsConnect, Protocol,
      StringBytes, Fixed;
    var p, t := Protocol(o), Fixed(o) + (StringBytes(Bytes(o.clientID)) + Tail(o));
    HeaderStepOn(Packet(o), ConnectLength(o), p, t, rest, data);
    FixedReadBack(o, rest, data);
  }

  lemma NameShort(o: ConnectData)
    ensures |Protocol(o)| <= 6
  {
  }

  // ---------------------------------------------------------------- the deserializer as it is written

  /** rc is 1 exactly when the data are accepted; `data` holds what was stored. */
  predicate Returns(r: Reading, rc: int, data: ConnectData) {
    match r case Overread => true case Rejected(d) => rc == 0 && data == d case Accepted(d) => rc == 1 && data == d
  }

  lemma Further(buf: seq<Byte>, cur: nat, n: nat)
    requires cur + n <= |buf|
    ensures buf[cur..][n..] == buf[cur + n..]
  {
  }

  /** The user name and the password. */
  method TakeLogin(buf: seq<Byte>, cur: nat, enddata: nat, flags: Byte, data0: ConnectData)
    returns (rc: int, data: ConnectData)
    requires cur <= |buf| && enddata <= |buf|
    ensures Returns(ReadUser(buf[cur..], enddata - cur, flags, data0), rc, data)
  {
    hide StringAt;
    rc, data := 0, data0;
    if HasBit(flags, 128) {
      if enddata - cur < 3 { return; }
      var ok, next, b := ReadString(buf, cur, enddata);
      if ok == 0 { return; }
      data := data.(username := MqttCodec.Read(b));
      Further(buf, cur, 2 + |b|);
      if HasBit(flags, 64) {
        if enddata - next < 3 { return; }
        var ok', _, p := ReadString(buf, next, enddata);
        if ok' == 0 { return; }
        data := data.(password := MqttCodec.Read(p));
      }
    } else if HasBit(flags, 64) {
      return;
    }
    rc := 1;
  }

  /** The will and what follows it. */
  method TakeWill(buf: seq<Byte>, cur: nat, enddata: nat, flags: Byte, data0: ConnectData)
    returns (rc: int, data: ConnectData)
    requires cur <= |buf| && enddata <= |buf|
    ensures Returns(ReadWill(buf[cur..], enddata - cur, flags, data0), rc, data)
  {
    hide StringAt, ReadUser;
    rc, data := 0, data0;
    var curdata := cur;
    if HasBit(flags, 4) {
      data := data.(willFlag := true);
      data := data.(will := data.will.(qos := flags / 8 % 4, retained := HasBit(flags, 32)));
      var ok, next, t := ReadString(buf, cur, enddata);
      if ok == 0 { return; }
      data := data.(will := data.will.(topic := MqttCodec.Read(t)));
      Further(buf, cur, 2 + |t|);
      var ok', next', m := ReadString(buf, next, enddata);
      if ok' == 0 { return; }
      data := data.(will := data.will.(message := MqttCodec.Read(m)));
      Further(buf, next, 2 + |m|);
      curdata := next';
    }
    rc, data := TakeLogin(buf, curdata, enddata, flags, data);
  }

  /** Behind the protocol name. */
  method TakeFixed(protocol: seq<Byte>, buf: seq<Byte>, cur: nat, enddata: nat, data0: ConnectData)
    returns (rc: int, data: ConnectData)
    requires cur <= |buf| && enddata <= |buf| && !ReadFixed(protocol, buf[cur..], enddata - cur, data0).Overread?
    ensures Returns(ReadFixed(protocol, buf[cur..], enddata - cur, data0), rc, data)
  {
    hide StringAt, ReadWill, CheckVersion, HasBit;
    rc, data := 0, data0;
    var version := buf[cur];
    if CheckVersion(protocol, version) {
      var flags := buf[cur + 1];
      data := data.(cleanSession := HasBit(flags, 2), keepAlive := 256 * (buf[cur + 2] as int) + (buf[cur + 3] as int));
      Further(buf, cur, 4);
      var ok, next, c := ReadString(buf, cur + 4, enddata);
      if ok == 0 { return; }
      Further(buf, cur + 4, 2 + |c|);
      data := data.(clientID := MqttCodec.Read(c));
      rc, data := TakeWill(buf, next, enddata, flags, data);
    }
  }

  /** MQTTDeserialize_connect: 1 for success, 0 for failure. */
  method Deserialize(buf: seq<Byte>, len: nat, data0: ConnectData) returns (rc: int, data: ConnectData)
    requires len <= |buf| && !ReadConnect(buf, len, data0).Overread?
    ensures Returns(ReadConnect(buf, len, data0), rc, data)
  {
    hide StringAt, ReadFixed, Decode;
    rc, data := 0, data0;
    if buf[0] / 16 != 1 { return; }
    var source := new MqttReader.Stream(buf[1..]);
    var n, _ := source.DecodeLength();
    var cur := 1 + n;
    if cur > |buf| { return; }
    var ok, next, protocol := ReadString(buf, cur, len);
    if ok == 0 { return; }
    Further(buf, cur, 2 + |protocol|);
    rc, data := TakeFixed(protocol, buf, next, len, data);
  }
}
