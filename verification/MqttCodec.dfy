/** MQTTPacket.c: the variable-length integer, integers and strings on the wire
    (MQTT 3.1.1, sections 1.5 and 2.2.3). */
module MqttCodec {
  import opened HttpTypes
  import opened Buffers

  // ---------------------------------------------------------------- the variable-length integer

  const MAX_REMAINING_LENGTH := 268_435_455

  /** The next byte: seven bits, and the top bit when more follow. */
  function Digit7(n: nat): Byte { if n < 128 then n else n % 128 + 128 }

  /** Seven bits a byte, least significant first, the top bit on all but the last. */
  function Encoded(n: nat): (r: seq<Byte>)
    ensures r != []
  {
    if n < 128 then [Digit7(n)] else [Digit7(n)] + Encoded(n / 128)
  }

  lemma EncodedSize(n: nat)
    ensures |Encoded(n)| == 1 <==> n < 128
    ensures |Encoded(n)| <= 2 <==> n < 16384
    ensures |Encoded(n)| <= 3 <==> n < 2_097_152
    ensures |Encoded(n)| <= 4 <==> n <= MAX_REMAINING_LENGTH
  {
    assert n >= 128 ==> |Encoded(n)| == 1 + |Encoded(n / 128)|;
    assert n >= 16384 ==> |Encoded(n / 128)| == 1 + |Encoded(n / 128 / 128)|;
    assert n >= 2_097_152 ==> |Encoded(n / 128 / 128)| == 1 + |Encoded(n / 128 / 128 / 128)|;
  }

  /** The number that bytes of seven bits stand for, least significant first. */
  function Base128(s: seq<Byte>): nat { if s == [] then 0 else s[0] % 128 + 128 * Base128(s[1..]) }

  /** The variable-length form of section 2.2.3: the bytes stand for the number, the top bit is
      set on all but the last, and the last one is not 0 unless it is the only one. */
  lemma {:induction false} EncodedIsStandard(n: nat)
    ensures var e := Encoded(n);
            Base128(e) == n && (forall i | 0 <= i < |e| :: e[i] >= 128 <==> i < |e| - 1) &&
            (|e| > 1 ==> e[|e| - 1] > 0)
    decreases n
  {
    if n >= 128 {
      EncodedIsStandard(n / 128);
      assert Encoded(n)[1..] == Encoded(n / 128);
    }
  }

  lemma EncodedStep(n: nat)
    ensures Encoded(n) == [Digit7(n)] + if n / 128 > 0 then Encoded(n / 128) else []
    ensures n > 0 ==> n / 128 < n
  {
  }

  /** One turn of the loop of MQTTPacket_encode. */
  method NextDigit(length: nat) returns (d: Byte, rest: nat)
    ensures d == Digit7(length) && rest == length / 128
  {
    d := length % 128;
    rest := length / 128;
    if rest > 0 { d := d + 128; }
  }

  /** MQTTPacket_encode: writes the length at buf + at. */
  method Encode(buf: array<Byte>, at: nat, length: nat) returns (rc: nat)
    requires at + |Encoded(length)| <= buf.Length
    modifies buf
    ensures rc == |Encoded(length)| && buf[..] == Put(old(buf[..]), at, Encoded(length))
  {
    hide Put, Encoded, Digit7;
    rc := 0;
    var n := length;
    ghost var done: seq<Byte> := [];
    PutNothing(buf[..], at);
    while true
      invariant rc == |done| && at + rc + |Encoded(n)| <= buf.Length && buf[..] == Put(old(buf[..]), at, done)
      invariant Encoded(length) == done + Encoded(n)
      decreases n
    {
      EncodedStep(n);
      var d, q := NextDigit(n);
      var _ := WriteByte(buf, at + rc, d);
      PutTwice(old(buf[..]), at, done, [d]);
      assert done + Encoded(n) == done + [d] + if q > 0 then Encoded(q) else [];
      assert q == 0 ==> Encoded(length) == done + [d];
      done := done + [d];
      n := q;
      rc := rc + 1;
      if n == 0 { break; }
    }
  }

  const MAX_LENGTH_BYTES := 4

  /** The result of MQTTPacket_decode: what it returns, the value, and how many bytes it took. */
  datatype Decoded = Decoded(len: nat, value: nat, used: nat)

  function DecodeFrom(s: seq<Byte>, len: nat, multiplier: nat, value: nat): Decoded
    decreases |s|
  {
    if len + 1 > MAX_LENGTH_BYTES || s == [] then Decoded(len + 1, value, len)
    else
      var v := value + s[0] % 128 * multiplier;
      if s[0] >= 128 then DecodeFrom(s[1..], len + 1, multiplier * 128, v) else Decoded(len + 1, v, len + 1)
  }

  function Decode(s: seq<Byte>): Decoded { DecodeFrom(s, 0, 1, 0) }

  lemma {:induction false} DecodeEncoded(n: nat, rest: seq<Byte>, len: nat, multiplier: nat, value: nat)
    requires len + |Encoded(n)| <= MAX_LENGTH_BYTES
    ensures DecodeFrom(Encoded(n) + rest, len, multiplier, value) ==
            Decoded(len + |Encoded(n)|, value + n * multiplier, len + |Encoded(n)|)
    decreases n
  {
    if n >= 128 {
      var e := Encoded(n);
      assert (e + rest)[1..] == Encoded(n / 128) + rest;
      DecodeEncoded(n / 128, rest, len + 1, multiplier * 128, value + n % 128 * multiplier);
      Shift(n, multiplier);
    } else {
      assert (Encoded(n) + rest)[0] == n;
    }
  }

  lemma Shift(n: nat, m: nat)
    ensures n % 128 * m + n / 128 * (m * 128) == n * m
  {
    var q, r := n / 128, n % 128;
    assert n == 128 * q + r;
    assert (128 * q + r) * m == q * (m * 128) + r * m;
  }

  /** For 0 to 268435455, encoding takes 1 to 4 bytes and decoding returns the value and the
      number of bytes, whatever follows. */
  lemma LengthReadBack(n: nat, rest: seq<Byte>)
    requires n <= MAX_REMAINING_LENGTH
    ensures 1 <= |Encoded(n)| <= 4 && Decode(Encoded(n) + rest) == Decoded(|Encoded(n)|, n, |Encoded(n)|)
  {
    EncodedSize(n);
    DecodeEncoded(n, rest, 0, 1, 0);
  }

  /** MQTTPacket_len */
  function PacketLen(remLen: nat): nat {
    var n := remLen + 1;
    if n < 128 then n + 1 else if n < 16384 then n + 2 else if n < 2_097_151 then n + 3 else n + 4
  }

  /** The size that is really needed, except just below each step of the encoding, where
      MQTTPacket_len compares the length with its header byte and asks for one byte more. */
  lemma PacketLenExact(n: nat)
    requires n <= MAX_REMAINING_LENGTH
    ensures PacketLen(n) >= 1 + |Encoded(n)| + n
    ensures PacketLen(n) == 1 + |Encoded(n)| + n <==> n !in {127, 16383, 2_097_150, 2_097_151}
    ensures PacketLen(n) <= 2 + |Encoded(n)| + n
  {
    EncodedSize(n);
  }

  // ---------------------------------------------------------------- integers and strings

  /** writeInt: two bytes, most significant first. */
  function IntBytes(n: nat): (r: seq<Byte>)
    ensures |r| == 2
  {
    [n / 256 % 256, n % 256]
  }

  /** readInt */
  function IntAt(s: seq<Byte>): nat
    requires 2 <= |s|
  {
    256 * (s[0] as int) + (s[1] as int)
  }

  lemma IntReadBack(n: nat, rest: seq<Byte>)
    requires n <= 65535
    ensures IntAt(IntBytes(n) + rest) == n
  {
  }

  /** An MQTTString: a C string, or a pointer and a length, or neither. */
  datatype MqttString = MqttString(cstring: Option<seq<Byte>>, data: Option<seq<Byte>>)

  predicate Present(s: MqttString) { s.cstring.Some? || s.data.Some? }

  /** At most one form is set: MQTTstrlen prefers the C string, writeMQTTString the other. */
  predicate OneForm(s: MqttString) { s.cstring.None? || s.data.None? }

  /** MQTTstrlen */
  function Strlen(s: MqttString): nat {
    if s.cstring.Some? then |s.cstring.value| else if s.data.Some? then |s.data.value| else 0
  }

  /** The bytes that writeMQTTString writes behind their length. */
  function Bytes(s: MqttString): seq<Byte> {
    if s.data.Some? && |s.data.value| > 0 then s.data.value else if s.cstring.Some? then s.cstring.value else []
  }

  function StringBytes(b: seq<Byte>): seq<Byte> { IntBytes(|b|) + b }

  lemma StringLength(b: seq<Byte>)
    ensures |StringBytes(b)| == 2 + |b|
  {
  }

  lemma StrlenIsLength(s: MqttString)
    requires OneForm(s)
    ensures Strlen(s) == |Bytes(s)|
  {
  }

  function Read(b: seq<Byte>): MqttString { MqttString(None, Some(b)) }

  /** readMQTTLenString: the string at the pointer, when `avail` bytes are left before the end
      of the data. */
  function StringAt(s: seq<Byte>, avail: int): (r: Option<seq<Byte>>)
    requires avail <= |s|
    ensures r.Some? ==> 2 + |r.value| <= avail && s[2..2 + |r.value|] == r.value
  {
    if avail > 1 && 2 + IntAt(s) <= avail then Some(s[2..2 + IntAt(s)]) else None
  }

  /** A string that was written is read back. */
  lemma StringReadBack(b: seq<Byte>, rest: seq<Byte>, avail: int)
    requires |b| <= 65535 && 2 + |b| <= avail <= 2 + |b| + |rest|
    ensures var s := StringBytes(b) + rest;
            StringAt(s, avail) == Some(b) && s[2 + |b|..] == rest
  {
    var s := StringBytes(b) + rest;
    assert s == IntBytes(|b|) + (b + rest);
    IntReadBack(|b|, b + rest);
    assert s[2..2 + |b|] == b;
  }

  /** readMQTTLenString */
  method ReadString(buf: seq<Byte>, ptr: nat, enddata: nat) returns (rc: int, next: nat, b: seq<Byte>)
    requires ptr <= |buf| && enddata <= |buf|
    ensures var r := StringAt(buf[ptr..], enddata - ptr);
            if r.Some? then rc == 1 && b == r.value && next == ptr + 2 + |b| else rc == 0
    ensures ptr <= next <= |buf|
  {
    rc, next, b := 0, ptr, [];
    if enddata - ptr > 1 {
      var len := 256 * (buf[ptr] as int) + (buf[ptr + 1] as int);
      next := ptr + 2;
      if next + len <= enddata {
        b := buf[next..next + len];
        assert buf[ptr..][2..2 + len] == b;
        next := next + len;
        rc := 1;
      }
    }
  }

  // ---------------------------------------------------------------- writing through a pointer

  method WriteInt(buf: array<Byte>, ptr: nat, n: nat) returns (next: nat)
    requires ptr + 2 <= buf.Length
    modifies buf
    ensures next == ptr + 2 && buf[..] == Put(old(buf[..]), ptr, IntBytes(n))
  {
    buf[ptr] := n / 256 % 256;
    buf[ptr + 1] := n % 256;
    next := ptr + 2;
  }

  /** writeMQTTString */
  method WriteString(buf: array<Byte>, ptr: nat, s: MqttString) returns (next: nat)
    requires ptr + 2 + |Bytes(s)| <= buf.Length
    modifies buf
    ensures next == ptr + 2 + |Bytes(s)| && buf[..] == Put(old(buf[..]), ptr, StringBytes(Bytes(s)))
  {
    var b: seq<Byte> := if s.data.Some? && |s.data.value| > 0 then s.data.value else if s.cstring.Some?
      then s.cstring.value else [];
    next := WriteInt(buf, ptr, |b|);
    next := WriteBytes(buf, next, b);
    PutTwice(old(buf[..]), ptr, IntBytes(|b|), b);
  }
}
