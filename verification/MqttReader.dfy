/** MQTTPacket_read and MQTTPacket_readnb: the resumable reader refines the blocking one. */
module MqttReader {
  import opened HttpTypes
  import opened Buffers
  import opened MqttCodec

  // ---------------------------------------------------------------- what a read does

  /** The return code and the buffer that a read leaves. */
  datatype Outcome = Outcome(rc: int, buf: seq<Byte>)

  function Pow128(k: nat): nat { if k == 0 then 1 else 128 * Pow128(k - 1) }

  lemma {:induction false} DecodeBound(s: seq<Byte>, len: nat, multiplier: nat, value: nat)
    requires len <= MAX_LENGTH_BYTES && multiplier == Pow128(len) && value < multiplier
    ensures DecodeFrom(s, len, multiplier, value).value <= MAX_REMAINING_LENGTH
    decreases |s|
  {
    assert Pow128(4) == 268_435_456;
    if len < MAX_LENGTH_BYTES {
      if s != [] {
        var c := s[0] % 128;
        assert value + c * multiplier < 128 * multiplier by { assert c * multiplier <= 127 * multiplier; }
        assert Pow128(len + 1) == 128 * multiplier;
        DecodeBound(s[1..], len + 1, multiplier * 128, value + c * multiplier);
        PowUp(len + 1);
      } else {
        PowUp(len);
      }
    }
  }

  lemma PowUp(k: nat)
    requires k <= 4
    ensures Pow128(k) <= 268_435_456
  {
    assert Pow128(1) == 128 && Pow128(2) == 16384 && Pow128(3) == 2_097_152 && Pow128(4) == 268_435_456;
  }

  lemma {:induction false} DecodeUsed(s: seq<Byte>, len: nat, multiplier: nat, value: nat)
    ensures var d := DecodeFrom(s, len, multiplier, value); len <= d.used <= len + |s|
    decreases |s|
  {
    if len < MAX_LENGTH_BYTES && s != [] && s[0] >= 128 {
      DecodeUsed(s[1..], len + 1, multiplier * 128, value + s[0] % 128 * multiplier);
    }
  }

  lemma DecodeFits(s: seq<Byte>)
    ensures Decode(s).value <= MAX_REMAINING_LENGTH && |Encoded(Decode(s).value)| <= 4 && Decode(s).used <= |s|
  {
    DecodeBound(s, 0, 1, 0);
    DecodeUsed(s, 0, 1, 0);
    EncodedSize(Decode(s).value);
  }

  function Take(s: seq<Byte>, n: nat): (r: seq<Byte>)
    ensures |r| <= n
  {
    if n <= |s| then s[..n] else s
  }

  /** The header byte and the length, encoded again, at the start of the buffer. */
  function Headed(s: seq<Byte>, b: seq<Byte>): seq<Byte>
    requires s != [] && 5 <= |b|
    ensures |Headed(s, b)| == |b|
  {
    DecodeFits(s[1..]);
    Put(b[0 := s[0]], 1, Encoded(Decode(s[1..]).value))
  }

  /** Where the payload starts in the buffer. */
  function PayloadAt(s: seq<Byte>): nat
    requires s != []
  {
    1 + |Encoded(Decode(s[1..]).value)|
  }

  /** The bytes behind the length. */
  function Payload(s: seq<Byte>): seq<Byte>
    requires s != []
  {
    DecodeFits(s[1..]);
    s[1 + Decode(s[1..]).used..]
  }

  /** What MQTTPacket_read does to a buffer with the bytes `s` in front of it. It does not
      look at the result of decoding the length. */
  function Blocking(s: seq<Byte>, b: seq<Byte>, buflen: nat): Outcome
    requires 5 <= |b| && buflen <= |b|
  {
    if s == [] then Outcome(-1, b)
    else
      DecodeFits(s[1..]);
      var d := Decode(s[1..]);
      var at := PayloadAt(s);
      if d.value + at > buflen then Outcome(-1, Headed(s, b))
      else
        var got := Take(Payload(s), d.value);
        Outcome(if |got| < d.value then -1 else s[0] / 16, Put(Headed(s, b), at, got))
  }

  /** What follows the packet. */
  function Behind(s: seq<Byte>): seq<Byte>
    requires s != [] && Decode(s[1..]).value <= |Payload(s)|
  {
    Payload(s)[Decode(s[1..]).value..]
  }

  /** A packet that is taken is there as a whole. */
  lemma TakenMeans(s: seq<Byte>, b: seq<Byte>, buflen: nat)
    requires 5 <= |b| && buflen <= |b| && Blocking(s, b, buflen).rc >= 0
    ensures s != [] && Decode(s[1..]).value <= |Payload(s)| && |Behind(s)| < |s|
    ensures Blocking(s, b, buflen).rc == s[0] / 16 && |Blocking(s, b, buflen).buf| == |b|
  {
    hide Encoded, Decode;
    DecodeFits(s[1..]);
  }

  // ---------------------------------------------------------------- the blocking reader

  /** A transport that waits: a read gives what is asked for, or less at the end of the stream. */
  class Stream {
    var rest: seq<Byte>

    constructor (s: seq<Byte>)
      ensures rest == s
    {
      rest := s;
    }

    /** getfn */
    method Get(n: nat) returns (got: seq<Byte>)
      modifies this
      ensures var k := if n <= |old(rest)| then n else |old(rest)|; got == old(rest)[..k] && rest == old(rest)[k..]
    {
      var k := if n <= |rest| then n else |rest|;
      got := rest[..k];
      rest := rest[k..];
    }

    /** MQTTPacket_decode */
    method DecodeLength() returns (len: nat, value: nat)
      modifies this
      ensures var d := Decode(old(rest));
              len == d.len && value == d.value && d.used <= |old(rest)| &&
              rest == old(rest)[d.used..]
    {
      var multiplier: nat := 1;
      len, value := 0, 0;
      ghost var s := rest;
      var more := true;
      while more
        invariant 0 <= len <= MAX_LENGTH_BYTES && len <= |s| && rest == s[len..]
        invariant Decode(s) == if more then DecodeFrom(rest, len, multiplier, value) else Decoded(len, value, len)
        decreases more, |rest|
      {
        len := len + 1;
        if len > MAX_LENGTH_BYTES { return; }
        var c := Get(1);
        if |c| != 1 { return; }
        value := value + (c[0] as int) % 128 * multiplier;
        multiplier := multiplier * 128;
        more := c[0] >= 128;
      }
    }

    /** The rest of the packet. */
    method Fill(buf: array<Byte>, at: nat, n: nat) returns (got: nat)
      requires at + n <= buf.Length
      modifies this, buf
      ensures got == |Take(old(rest), n)| && buf[..] == Put(old(buf[..]), at, Take(old(rest), n))
      ensures rest == old(rest)[got..]
    {
      var bytes := Get(n);
      assert bytes == Take(old(rest), n);
      var _ := WriteBytes(buf, at, bytes);
      got := |bytes|;
    }

    /** MQTTPacket_read: the packet type, or -1. */
    method Read(buf: array<Byte>, buflen: nat) returns (rc: int)
      requires 5 <= buf.Length && buflen <= buf.Length
      modifies this, buf
      ensures var r := Blocking(old(rest), old(buf[..]), buflen); rc == r.rc && buf[..] == r.buf
      ensures rc >= 0 ==> (TakenMeans(old(rest), old(buf[..]), buflen); rest == Behind(old(rest)))
    {
      hide Put, Encoded, Decode, DecodeFrom, Take;
      ghost var s, b := rest, buf[..];
      var h := Get(1);
      if |h| != 1 { return -1; }
      DecodeFits(s[1..]);
      buf[0] := h[0];
      assert buf[..] == b[0 := s[0]];
      var _, remLen := DecodeLength();
      ghost var d := Decode(s[1..]);
      assert rest == Payload(s);
      hide Payload;
      var len := Encode(buf, 1, remLen);
      len := len + 1;
      assert buf[..] == Headed(s, b) && len == PayloadAt(s);
      hide Headed, PayloadAt;
      if remLen + len > buflen { return -1; }
      ghost var got := Take(rest, remLen);
      FirstByte(s, b, got);
      if remLen > 0 {
        var n := Fill(buf, len, remLen);
        if n != remLen { return -1; }
      } else {
        PutNothing(buf[..], len);
        assert rest == rest[0..];
      }
      return buf[0] / 16;
    }
  }

  /** The header byte stays first. */
  lemma FirstByte(s: seq<Byte>, b: seq<Byte>, got: seq<Byte>)
    requires s != [] && 5 <= |b| && PayloadAt(s) + |got| <= |b|
    ensures Put(Headed(s, b), PayloadAt(s), got)[0] == s[0]
  {
  }

  // ---------------------------------------------------------------- the resumable reader

  /** The stream has a whole length field of at most 4 bytes behind its first byte. */
  predicate WholeLength(s: seq<Byte>) { s != [] && Decode(s[1..]).used == Decode(s[1..]).len }

  /** What the calls of MQTTPacket_readnb for one packet come to: a length field that is cut off
      or too long is an error before the length is put back. */
  function OnePacket(s: seq<Byte>, b: seq<Byte>, buflen: nat): (r: Outcome)
    requires 5 <= |b| && buflen <= |b|
  {
    if s == [] then Outcome(-1, b)
    else if !WholeLength(s) then Outcome(-1, b[0 := s[0]])
    else Blocking(s, b, buflen)
  }

  /** What a caller gets who calls again until the result is not 0. A packet of type 0 looks like
      "call again", so that the caller goes on with what follows it. */
  function Resumed(s: seq<Byte>, b: seq<Byte>, buflen: nat): Outcome
    requires 5 <= |b| && buflen <= |b|
    decreases |s|
  {
    var r := OnePacket(s, b, buflen);
    if r.rc == 0 then
      ZeroMeans(s, b, buflen);
      Resumed(Behind(s), r.buf, buflen)
    else r
  }

  /** A result of 0 is a whole packet of type 0, and one above 0 a whole packet of its type. */
  lemma ZeroMeans(s: seq<Byte>, b: seq<Byte>, buflen: nat)
    requires 5 <= |b| && buflen <= |b| && OnePacket(s, b, buflen).rc >= 0
    ensures WholeLength(s) && s[0] / 16 == OnePacket(s, b, buflen).rc && Decode(s[1..]).value <= |Payload(s)| &&
            |Behind(s)| < |s|
    ensures |OnePacket(s, b, buflen).buf| == |b|
  {
    TakenMeans(s, b, buflen);
    hide Blocking, Decode, Payload;
  }

  /** What is left of the stream when such a caller has got a packet. */
  function Left(s: seq<Byte>, b: seq<Byte>, buflen: nat): seq<Byte>
    requires 5 <= |b| && buflen <= |b| && Resumed(s, b, buflen).rc >= 0
    decreases |s|
  {
    ZeroMeans(s, b, buflen);
    if OnePacket(s, b, buflen).rc == 0 then Left(Behind(s), OnePacket(s, b, buflen).buf, buflen) else Behind(s)
  }

  /** MQTTTransport, on any schedule: `plan` says how much each call of getfn may take, 0 for
      "call again"; when it runs out, a call takes all it can. */
  class Transport {
    var rest: seq<Byte>
    var plan: seq<nat>
    var multiplier: nat
    var remLen: nat
    var len: nat
    var state: nat

    constructor (s: seq<Byte>, schedule: seq<nat>)
      ensures rest == s && plan == schedule && state == 0
    {
      rest, plan := s, schedule;
      multiplier, remLen, len, state := 1, 0, 0, 0;
    }

    /** getfn: -1 at the end of the stream, 0 for "call again", or the number of bytes. */
    method Get(n: nat) returns (frc: int, got: seq<Byte>)
      requires n > 0
      modifies this`rest, this`plan
      ensures old(rest) == got + rest && rest == old(rest)[|got|..] && (|got| == 0 ==> rest == old(rest)) &&
              |got| <= n && frc == (if old(rest) == [] then -1 else |got|)
      ensures frc == -1 ==> rest == old(rest) && plan == old(plan)
      ensures frc >= 0 ==> |plan| + |rest| < |old(plan)| + |old(rest)|
    {
      if rest == [] { return -1, []; }
      var k: nat := if plan == [] || plan[0] > n then n else plan[0];
      if plan != [] { plan := plan[1..]; }
      if k > |rest| { k := |rest|; }
      got := rest[..k];
      rest := rest[k..];
      frc := k;
    }

    /** What the fields mean when `s` is the stream and `b` the buffer from the packet's start:
        nothing read; the header byte and some of the length; or some of the payload. */
    ghost predicate Midway(s: seq<Byte>, b: seq<Byte>, buf: seq<Byte>, buflen: nat)
      requires 5 <= |b| && buflen <= |b|
      reads this
    {
      if state == 0 then rest == s && buf == b
      else if state == 1 then s != [] && AtLength(s) && buf == b[0 := s[0]]
      else state == 2 && WholeLength(s) && AtPayload(s, b, buf, buflen) && remLen > 0
    }

    ghost predicate AtLength(s: seq<Byte>)
      requires s != []
      reads this
    {
      len < MAX_LENGTH_BYTES && 1 + len <= |s| && rest == s[1 + len..] &&
      (len > 0 ==> DecodeFrom(rest, len, multiplier, remLen) == Decode(s[1..]))
    }

    ghost predicate AtPayload(s: seq<Byte>, b: seq<Byte>, buf: seq<Byte>, buflen: nat)
      requires 5 <= |b| && buflen <= |b| && s != []
      reads this`rest, this`len, this`remLen
    {
      var v, at := Decode(s[1..]).value, PayloadAt(s);
      v + at <= buflen && at <= len <= at + |Payload(s)| && len + remLen == at + v && rest == Payload(s)[len - at..] &&
      buf == Put(Headed(s, b), at, Payload(s)[..len - at])
    }

    /** The length field up to `len`. */
    ghost predicate Counting(s: seq<Byte>, more: bool)
      requires s != []
      reads this
    {
      len <= MAX_LENGTH_BYTES && 1 + len <= |s| && rest == s[1 + len..] && (!more ==> len > 0) &&
      Decode(s[1..]) == if more then DecodeFrom(rest, len, multiplier, remLen) else Decoded(len, remLen, len)
    }

    /** One turn of the loop: a byte of the length field, 0 for "call again", or -1. */
    method NextDigit(ghost s: seq<Byte>) returns (frc: int, more: bool)
      requires s != [] && Counting(s, true)
      modifies this`rest, this`plan, this`multiplier, this`remLen, this`len
      ensures frc == -1 ==> !WholeLength(s)
      ensures frc == 0 ==> Counting(s, true) && len == old(len) < MAX_LENGTH_BYTES
      ensures frc != -1 ==> frc >= 0 && |plan| + |rest| < |old(plan)| + |old(rest)|
      ensures frc > 0 ==> Counting(s, more)
    {
      hide DecodeFrom, Encoded;
      DecodeFits(s[1..]);
      assert Decode(s[1..]) == DecodeFrom(rest, len, multiplier, remLen);
      DecodeStep(rest, len, multiplier, remLen);
      more := true;
      if len >= MAX_LENGTH_BYTES { return -1, more; }
      var c;
      frc, c := Get(1);
      if frc <= 0 { return; }
      assert s[1 + len..][1..] == s[1 + len + 1..];
      len := len + 1;
      remLen := AddDigit(remLen, c[0], multiplier);
      multiplier := multiplier * 128;
      more := c[0] >= 128;
    }

    /** MQTTPacket_decodenb: the size of the length field, 0 for "call again", or -1. */
    method DecodeNb(ghost s: seq<Byte>) returns (rc: int)
      requires s != [] && AtLength(s)
      modifies this`rest, this`plan, this`multiplier, this`remLen, this`len
      ensures rc > 0 ==> WholeLength(s) && remLen == Decode(s[1..]).value && rest == Payload(s)
      ensures rc == 0 ==> AtLength(s)
      ensures rc < 0 ==> rc == -1 && !WholeLength(s)
      ensures rc >= 0 ==> |plan| + |rest| < |old(plan)| + |old(rest)|
    {
      hide DecodeFrom, Encoded;
      if len == 0 { multiplier, remLen := 1, 0; }
      DecodeFits(s[1..]);
      var more := true;
      while more
        invariant Counting(s, more)
        invariant |plan| + |rest| < |old(plan)| + |old(rest)| || (more && |plan| + |rest| == |old(plan)| + |old(rest)|)
        decreases more, |plan| + |rest|
      {
        var frc;
        frc, more := NextDigit(s);
        if frc <= 0 { return frc; }
      }
      rc := len;
    }

    /** One packet has been read. */
    ghost predicate Over(s: seq<Byte>, b: seq<Byte>, buf: seq<Byte>, buflen: nat, rc: int)
      requires 5 <= |b| && buflen <= |b|
      reads this
    {
      state == 0 && Outcome(rc, buf) == OnePacket(s, b, buflen) &&
      (rc >= 0 ==> (ZeroMeans(s, b, buflen); rest == Behind(s)))
    }

    /** MQTTPacket_readnb: the packet type, 0 for "call again", or -1. A result of 0 means that
        the packet goes on, or that it was of type 0 and is over. */
    method ReadNb(buf: array<Byte>, buflen: nat, ghost s: seq<Byte>, ghost b: seq<Byte>) returns (rc: int)
      requires 5 <= buf.Length == |b| && buflen <= |b| && Midway(s, b, buf[..], buflen)
      modifies this, buf
      ensures rc == 0 ==> Midway(s, b, buf[..], buflen) || Over(s, b, buf[..], buflen, 0)
      ensures rc == 0 ==> |plan| + |rest| < |old(plan)| + |old(rest)|
      ensures rc != 0 ==> Over(s, b, buf[..], buflen, rc)
    {
      hide Put, Encoded, Decode, DecodeFrom, Blocking, AtPayload, Headed, Payload;
      if state == 0 {
        var frc, c := Get(1);
        if frc == -1 { return -1; }
        if frc == 0 { return 0; }
        buf[0] := c[0];
        assert buf[..] == b[0 := s[0]] && rest == s[1..];
        len := 0;
        state := 1;
      }
      if state == 1 {
        var frc := DecodeNb(s);
        if frc == -1 {
          state := 0;
          return -1;
        }
        if frc == 0 { return 0; }
        var fits := EnterPayload(buf, buflen, s, b);
        if !fits {
          state := 0;
          return -1;
        }
        state := 2;
      }
      rc := ReadPayload(buf, buflen, s, b);
    }

    /** Puts the length back into the buffer. */
    method EnterPayload(buf: array<Byte>, buflen: nat, ghost s: seq<Byte>, ghost b: seq<Byte>) returns (fits: bool)
      requires 5 <= buf.Length == |b| && buflen <= |b| && s != [] && buf[..] == b[0 := s[0]]
      requires remLen == Decode(s[1..]).value && rest == Payload(s)
      modifies this`len, buf
      ensures fits ==> AtPayload(s, b, buf[..], buflen)
      ensures !fits ==> Outcome(-1, buf[..]) == Blocking(s, b, buflen)
    {
      hide Put, Encoded, Decode, Payload;
      DecodeFits(s[1..]);
      len := Encode(buf, 1, remLen);
      len := len + 1;
      assert buf[..] == Headed(s, b) && len == PayloadAt(s);
      PutNothing(buf[..], len);
      fits := remLen + len <= buflen;
    }

    /** One read of payload bytes. */
    method FillNb(buf: array<Byte>, buflen: nat, ghost s: seq<Byte>, ghost b: seq<Byte>) returns (frc: int)
      requires 5 <= buf.Length == |b| && buflen <= |b| && s != [] && remLen > 0 && AtPayload(s, b, buf[..], buflen)
      modifies this`rest, this`plan, this`remLen, this`len, buf
      ensures AtPayload(s, b, buf[..], buflen)
      ensures frc == -1 ==> remLen > 0 && len == PayloadAt(s) + |Payload(s)|
      ensures frc != -1 ==> |plan| + |rest| < |old(plan)| + |old(rest)|
      ensures frc == 0 ==> remLen > 0
    {
      hide Put, Encoded, Decode, Headed, Payload, PayloadAt;
      ghost var at, all := PayloadAt(s), Payload(s);
      ghost var n := len - at;
      var data;
      frc, data := Get(remLen);
      if frc == -1 { return; }
      assert all[..n] + data == all[..n + frc] && rest == all[n + frc..];
      PutTwice(Headed(s, b), at, all[..n], data);
      var _ := WriteBytes(buf, len, data);
      remLen := remLen - frc;
      len := len + frc;
    }

    /** State 2 of MQTTPacket_readnb. */
    method ReadPayload(buf: array<Byte>, buflen: nat, ghost s: seq<Byte>, ghost b: seq<Byte>) returns (rc: int)
      requires 5 <= buf.Length == |b| && buflen <= |b| && WholeLength(s) && state == 2 &&
               AtPayload(s, b, buf[..], buflen)
      modifies this, buf
      ensures rc == 0 ==> Midway(s, b, buf[..], buflen) || Over(s, b, buf[..], buflen, 0)
      ensures rc == 0 && old(remLen) > 0 ==> |plan| + |rest| < |old(plan)| + |old(rest)|
      ensures rc == 0 ==> |plan| + |rest| <= |old(plan)| + |old(rest)|
      ensures rc != 0 ==> Over(s, b, buf[..], buflen, rc)
    {
      hide Put, Encoded, Decode, Headed, Payload, PayloadAt, Blocking;
      if remLen > 0 {
        var frc := FillNb(buf, buflen, s, b);
        if frc == -1 {
          BlockingEnds(s, b, buflen, len - PayloadAt(s));
          state := 0;
          return -1;
        }
        if remLen > 0 { return 0; }
      }
      BlockingEnds(s, b, buflen, len - PayloadAt(s));
      FirstByte(s, b, Payload(s)[..len - PayloadAt(s)]);
      rc := buf[0] / 16;
      state := 0;
    }

    /** A caller that calls again until there is a result: on every stream and every schedule of
        short reads and "call again" results it gets the result and the buffer that the
        specification says, and the transport is ready for the next packet. */
    method ReadAll(buf: array<Byte>, buflen: nat) returns (rc: int)
      requires 5 <= buf.Length && buflen <= buf.Length && state == 0
      modifies this, buf
      ensures state == 0 && Outcome(rc, buf[..]) == Resumed(old(rest), old(buf[..]), buflen)
      ensures rc >= 0 ==> rest == Left(old(rest), old(buf[..]), buflen)
    {
      hide OnePacket;
      ghost var s, b := rest, buf[..];
      rc := 0;
      while rc == 0
        invariant |b| == buf.Length && Resumed(s, b, buflen) == Resumed(old(rest), old(buf[..]), buflen)
        invariant Resumed(s, b, buflen).rc >= 0 ==>
                    Left(s, b, buflen) == Left(old(rest), old(buf[..]), buflen)
        invariant if rc == 0 then Midway(s, b, buf[..], buflen) else Over(s, b, buf[..], buflen, rc)
        decreases rc == 0, |plan| + |rest|
      {
        rc := ReadNb(buf, buflen, s, b);
        if rc == 0 && !Midway(s, b, buf[..], buflen) {
          s, b := rest, buf[..];
        }
      }
    }
  }

  /** What the blocking read does when n is all there is of the payload, or all of it. */
  lemma BlockingEnds(s: seq<Byte>, b: seq<Byte>, buflen: nat, n: nat)
    requires 5 <= |b| && buflen <= |b| && s != [] && PayloadAt(s) + Decode(s[1..]).value <= buflen
    requires n <= |Payload(s)| && n <= Decode(s[1..]).value && (n < Decode(s[1..]).value ==> n == |Payload(s)|)
    ensures Blocking(s, b, buflen) ==
            Outcome(if n < Decode(s[1..]).value then -1 else s[0] / 16,
                    Put(Headed(s, b), PayloadAt(s), Payload(s)[..n]))
  {
    hide Put, Encoded, Decode, Headed, Payload, PayloadAt;
    assert Take(Payload(s), Decode(s[1..]).value) == Payload(s)[..n];
  }

  /** The value with seven more bits. */
  function AddDigit(value: nat, c: Byte, multiplier: nat): nat { value + c % 128 * multiplier }

  /** One turn of decoding. */
  lemma DecodeStep(s: seq<Byte>, len: nat, multiplier: nat, value: nat)
    ensures var d := DecodeFrom(s, len, multiplier, value);
            if len >= MAX_LENGTH_BYTES || s == [] then d.used != d.len
            else d == if s[0] >= 128 then DecodeFrom(s[1..], len + 1, multiplier * 128,
                                                     AddDigit(value, s[0], multiplier))
                      else Decoded(len + 1, AddDigit(value, s[0], multiplier), len + 1)
  {
  }

  /** The blocking reader, with the value it has, runs out of room or of bytes. */
  predicate RunsOut(s: seq<Byte>, buflen: nat)
    requires s != []
  {
    Decode(s[1..]).value + PayloadAt(s) > buflen || |Payload(s)| < Decode(s[1..]).value
  }

  /** When the two readers give the same: exactly on a whole length field with a packet type that
      is not 0 or a packet for which there is no room or that is cut off, and on a bad length
      field for which the blocking reader, which goes on with the value it has, runs out of room
      or of bytes. */
  lemma ReadersCompared(s: seq<Byte>, b: seq<Byte>, buflen: nat)
    requires 5 <= |b| && buflen <= |b| && s != []
    ensures WholeLength(s) ==>
              (Resumed(s, b, buflen) == Blocking(s, b, buflen) <==> s[0] >= 16 || RunsOut(s, buflen))
    ensures !WholeLength(s) ==>
              Resumed(s, b, buflen) == Outcome(-1, b[0 := s[0]]) &&
              (Resumed(s, b, buflen).rc == Blocking(s, b, buflen).rc <==> RunsOut(s, buflen))
  {
    hide Put, Encoded, Decode;
    DecodeFits(s[1..]);
    ResumedEnds(s, b, buflen);
    assert s[0] >= 16 || s[0] / 16 == 0;
    hide Resumed, Headed;
  }

  /** The result is never 0. */
  lemma {:induction false} ResumedEnds(s: seq<Byte>, b: seq<Byte>, buflen: nat)
    requires 5 <= |b| && buflen <= |b|
    ensures Resumed(s, b, buflen).rc != 0
    ensures OnePacket(s, b, buflen).rc != 0 ==> Resumed(s, b, buflen) == OnePacket(s, b, buflen)
    decreases |s|
  {
    hide OnePacket;
    var r := OnePacket(s, b, buflen);
    if r.rc == 0 {
      ZeroMeans(s, b, buflen);
      ResumedEnds(Behind(s), r.buf, buflen);
    }
  }

  /** A stream that ends within the length field: the blocking reader returns a packet type
      exactly when the bits it has make the length 0 and there is room for the header. */
  lemma BlindRead(s: seq<Byte>, b: seq<Byte>, buflen: nat)
    requires 5 <= |b| && buflen <= |b| && s != [] && !WholeLength(s) && Decode(s[1..]).used == |s| - 1
    ensures Resumed(s, b, buflen).rc == -1
    ensures Blocking(s, b, buflen).rc == if Decode(s[1..]).value == 0 && 2 <= buflen then s[0] / 16 else -1
  {
    hide Put, Decode, Headed;
    DecodeFits(s[1..]);
    assert Payload(s) == [];
  }
}
