/** WebSocket frames: createHeader and the masking loops of ClientConnection.cpp against
    RFC 6455, sections 5.2 and 5.3. */
module WebSocket {
  import opened HttpTypes
  import opened Buffers

  const OP_CONT := 0x0
  const OP_TEXT := 0x1
  const OP_BINARY := 0x2
  const OP_CLOSE := 0x8
  const OP_PING := 0x9
  const OP_PONG := 0xA

  const MAX_HEADER_SIZE := 14

  /** size_t */
  const SIZE_LIMIT := 0x1_0000_0000

  type Key = k: seq<Byte> | |k| == 4 witness [0, 0, 0, 0]

  const NO_KEY: Key := [0, 0, 0, 0]

  // ---------------------------------------------------------------- headers

  /** The second byte without the mask bit, and the longer length fields. The 64-bit form
      starts at 65535. */
  function LengthField(length: nat): seq<Byte>
    requires length < SIZE_LIMIT
  {
    if length < 126 then [length]
    else if length < 0xFFFF then [126, length / 0x100, length % 0x100]
    else [127, 0, 0, 0, 0, length / 0x100_0000, length / 0x1_0000 % 0x100, length / 0x100 % 0x100, length % 0x100]
  }

  /** What createHeader writes. */
  function Header(fin: bool, opcode: nat, length: nat, key: Option<Key>): seq<Byte>
    requires opcode < 16 && length < SIZE_LIMIT
  {
    var l := LengthField(length);
    [(if fin then 128 else 0) + opcode, (if key.Some? then 128 else 0) + l[0]] + l[1..] + if key.Some? then key.value
    else []
  }

  function HeaderSize(length: nat, mask: bool): nat {
    (if length < 126 then 2 else if length < 0xFFFF then 4 else 10) + if mask then 4 else 0
  }

  lemma HeaderIsSize(fin: bool, opcode: nat, length: nat, key: Option<Key>)
    requires opcode < 16 && length < SIZE_LIMIT
    ensures |Header(fin, opcode, length, key)| == HeaderSize(length, key.Some?)
  {
  }

  /** A frame header as section 5.2 reads it. */
  datatype FrameHeader = FrameHeader(fin: bool, rsv: nat, opcode: nat, key: Option<Key>, length: nat, size: nat)

  /** Bytes as a number, most significant first. */
  function BigEndian(s: seq<Byte>): nat { if s == [] then 0 else 256 * BigEndian(s[..|s| - 1]) + s[|s| - 1] }

  /** Section 5.2, read byte by byte. */
  function ParseHeader(s: seq<Byte>): Option<FrameHeader> {
    if |s| < 2 then None
    else
      var ext := if s[1] % 128 == 126 then 2 else if s[1] % 128 == 127 then 8 else 0;
      var mask := s[1] >= 128;
      var size := 2 + ext + if mask then 4 else 0;
      if |s| < size || (ext == 8 && s[2] >= 128) then None
      else
        var key: Option<Key> := if mask then Some(s[2 + ext..size]) else None;
        Some(FrameHeader(s[0] >= 128, s[0] / 16 % 8, s[0] % 16, key, if ext == 0 then s[1] % 128
                         else BigEndian(s[2..2 + ext]), size))
  }

  lemma TwoBytes(a: Byte, b: Byte)
    ensures BigEndian([a, b]) == 256 * a + b
  {
    hide BigEndian;
    OneMore([], a);
    OneMore([a], b);
    assert [] + [a] == [a] && [a] + [b] == [a, b];
    NoBytes();
  }

  lemma NoBytes()
    ensures BigEndian([]) == 0
  {
  }

  lemma OneMore(s: seq<Byte>, c: Byte)
    ensures BigEndian(s + [c]) == 256 * BigEndian(s) + c
  {
    assert (s + [c])[..|s|] == s;
  }

  lemma EightBytes(a: Byte, b: Byte, c: Byte, d: Byte)
    ensures BigEndian([0, 0, 0, 0, a, b, c, d]) == 0x100_0000 * a + 0x1_0000 * b + 0x100 * c + d
  {
    hide BigEndian;
    var z: seq<Byte> := [0, 0];
    assert z + [0] == [0, 0, 0] && [0, 0, 0] + [0] == [0, 0, 0, 0] && [0, 0, 0, 0] + [a] == [0, 0, 0, 0, a];
    assert [0, 0, 0, 0, a] + [b] == [0, 0, 0, 0, a, b] && [0, 0, 0, 0, a, b] + [c] == [0, 0, 0, 0, a, b, c];
    assert [0, 0, 0, 0, a, b, c] + [d] == [0, 0, 0, 0, a, b, c, d];
    TwoBytes(0, 0);
    OneMore([0, 0], 0);
    OneMore([0, 0, 0], 0);
    OneMore([0, 0, 0, 0], a);
    OneMore([0, 0, 0, 0, a], b);
    OneMore([0, 0, 0, 0, a, b], c);
    OneMore([0, 0, 0, 0, a, b, c], d);
  }

  lemma LengthReadBack(length: nat)
    requires length < SIZE_LIMIT
    ensures var l := LengthField(length);
            if length < 126 then |l| == 1 && l[0] == length
            else if length < 0xFFFF then |l| == 3 && l[0] == 126 && BigEndian(l[1..]) == length
            else |l| == 9 && l[0] == 127 && l[1] == 0 && BigEndian(l[1..]) == length
  {
    var l := LengthField(length);
    if length < 126 {
    } else if length < 0xFFFF {
      TwoBytes(l[1], l[2]);
      assert l[1..] == [l[1], l[2]];
    } else {
      FourDigits(length);
      EightBytes(l[5], l[6], l[7], l[8]);
      assert l[1..] == [0, 0, 0, 0, l[5], l[6], l[7], l[8]];
    }
  }

  lemma FourDigits(n: nat)
    ensures n == 0x100_0000 * (n / 0x100_0000) + 0x1_0000 * (n / 0x1_0000 % 0x100) + 0x100 * (n / 0x100 % 0x100) +
            n % 0x100
  {
    assert n / 0x100 / 0x100 == n / 0x1_0000;
    assert n / 0x1_0000 / 0x100 == n / 0x100_0000;
  }

  /** For every length of a size_t, opcode, fin bit and key, the header reads back as what was
      put in, and ends where createHeader says, whatever follows. */
  lemma HeaderReadBack(fin: bool, opcode: nat, length: nat, key: Option<Key>, rest: seq<Byte>)
    requires opcode < 16 && length < SIZE_LIMIT
    ensures ParseHeader(Header(fin, opcode, length, key) + rest) ==
            Some(FrameHeader(fin, 0, opcode, key, length, HeaderSize(length, key.Some?)))
  {
    hide LengthField, BigEndian;
    var l := LengthField(length);
    LengthReadBack(length);
    var h := Header(fin, opcode, length, key);
    var s := h + rest;
    var n := |l| - 1;
    assert s[2..2 + n] == l[1..];
    if key.Some? { assert s[2 + n..6 + n] == key.value; }
  }

  /** Section 5.2 wants the shortest length field; the header has it except for one length. */
  lemma ShortestForm(length: nat)
    requires length < SIZE_LIMIT
    ensures |LengthField(length)| == (if length <= 125 then 1 else if length <= 65535 then 3 else 9) <==>
            length != 65535
  {
  }

  // ---------------------------------------------------------------- masking

  function Pow2(n: nat): nat { if n == 0 then 1 else 2 * Pow2(n - 1) }

  /** Exclusive or of the low n bits. */
  function XorBits(a: nat, b: nat, n: nat): nat { if n == 0 then 0 else (a + b) % 2 + 2 * XorBits(a / 2, b / 2, n - 1) }

  lemma {:induction false} XorBound(a: nat, b: nat, n: nat)
    ensures XorBits(a, b, n) < Pow2(n)
    decreases n
  {
    if n > 0 { XorBound(a / 2, b / 2, n - 1); }
  }

  lemma EightBits()
    ensures Pow2(8) == 256
  {
    assert Pow2(2) == 4 && Pow2(4) == 16 && Pow2(6) == 64;
  }

  function Xor(a: Byte, b: Byte): Byte {
    XorBound(a, b, 8);
    EightBits();
    XorBits(a, b, 8)
  }

  lemma {:induction false} XorBitsTwice(a: nat, b: nat, n: nat)
    requires a < Pow2(n)
    ensures XorBits(XorBits(a, b, n), b, n) == a && XorBits(a, 0, n) == a
    decreases n
  {
    if n > 0 {
      XorBitsTwice(a / 2, b / 2, n - 1);
      Parity(a, b, XorBits(a / 2, b / 2, n - 1));
      Parity(a, 0, XorBits(a / 2, 0, n - 1));
    }
  }

  lemma Parity(a: nat, b: nat, h: nat)
    ensures var x := (a + b) % 2 + 2 * h; x / 2 == h && (x + b) % 2 == a % 2 && (b == 0 ==> x % 2 == a % 2)
  {
  }

  lemma XorTwice(a: Byte, b: Byte)
    ensures Xor(Xor(a, b), b) == a && Xor(a, 0) == a
  {
    hide XorBits;
    EightBits();
    XorBitsTwice(a, b, 8);
  }

  /** Section 5.3 */
  function Masked(p: seq<Byte>, key: Key): (r: seq<Byte>)
    ensures |r| == |p|
  {
    seq(|p|, i requires 0 <= i < |p| => Xor(p[i], key[i % 4]))
  }

  lemma MaskedTwice(p: seq<Byte>, key: Key)
    ensures Masked(Masked(p, key), key) == p && Masked(p, NO_KEY) == p
  {
    hide Xor;
    forall i | 0 <= i < |p|
      ensures Masked(Masked(p, key), key)[i] == p[i] && Masked(p, NO_KEY)[i] == p[i]
    {
      XorTwice(p[i], key[i % 4]);
      XorTwice(p[i], 0);
    }
  }

  function MaskedIf(p: seq<Byte>, key: Option<Key>): (r: seq<Byte>)
    ensures |r| == |p|
  {
    if key.Some? then Masked(p, key.value) else p
  }

  // ---------------------------------------------------------------- frames

  /** A frame on the wire. */
  function Frame(fin: bool, opcode: nat, p: seq<Byte>, key: Option<Key>): seq<Byte>
    requires opcode < 16 && |p| < SIZE_LIMIT
  {
    Header(fin, opcode, |p|, key) + MaskedIf(p, key)
  }

  lemma Xor4837()
    ensures Xor(0x48, 0x37) == 0x7F
  {
    assert XorBits(1, 0, 2) == 1 && XorBits(4, 3, 4) == 7 && XorBits(18, 13, 6) == 31;
  }

  lemma Xor65FA()
    ensures Xor(0x65, 0xFA) == 0x9F
  {
    assert XorBits(1, 3, 2) == 2 && XorBits(6, 15, 4) == 9 && XorBits(25, 62, 6) == 39;
  }

  lemma Xor6C21()
    ensures Xor(0x6C, 0x21) == 0x4D
  {
    assert XorBits(1, 0, 2) == 1 && XorBits(6, 2, 4) == 4 && XorBits(27, 8, 6) == 19;
  }

  lemma Xor6C3D()
    ensures Xor(0x6C, 0x3D) == 0x51
  {
    assert XorBits(1, 0, 2) == 1 && XorBits(6, 3, 4) == 5 && XorBits(27, 15, 6) == 20;
  }

  lemma Xor6F37()
    ensures Xor(0x6F, 0x37) == 0x58
  {
    assert XorBits(1, 0, 2) == 1 && XorBits(6, 3, 4) == 5 && XorBits(27, 13, 6) == 22;
  }

  /** The examples of section 5.7: a masked text, and the headers of 256 and 65536 bytes. */
  lemma Examples()
    ensures Frame(true, 1, [0x48, 0x65, 0x6C, 0x6C, 0x6F], Some([0x37, 0xFA, 0x21, 0x3D])) ==
            [0x81, 0x85, 0x37, 0xFA, 0x21, 0x3D, 0x7F, 0x9F, 0x4D, 0x51, 0x58]
    ensures Header(true, 2, 256, None) == [0x82, 0x7E, 1, 0]
    ensures Header(true, 2, 65536, None) == [0x82, 0x7F, 0, 0, 0, 0, 0, 1, 0, 0]
  {
    hide Xor;
    Xor4837();
    Xor65FA();
    Xor6C21();
    Xor6C3D();
    Xor6F37();
    var p: seq<Byte>, key: Key := [0x48, 0x65, 0x6C, 0x6C, 0x6F], [0x37, 0xFA, 0x21, 0x3D];
    assert Masked(p, key) == [0x7F, 0x9F, 0x4D, 0x51, 0x58];
    assert Header(true, 1, 5, Some(key)) == [0x81, 0x85] + key;
  }

  /** A received frame: its header, its payload unmasked, and what follows it. */
  datatype Received = Received(header: FrameHeader, payload: seq<Byte>, rest: seq<Byte>)

  /** Sections 5.2 and 5.3 */
  function ReadFrame(s: seq<Byte>): Option<Received> {
    var h := ParseHeader(s);
    if h.None? || h.value.size + h.value.length > |s| then None
    else
      var n := h.value.size;
      Some(Received(h.value, MaskedIf(s[n..n + h.value.length], h.value.key), s[n + h.value.length..]))
  }

  lemma FrameReadBack(fin: bool, opcode: nat, p: seq<Byte>, key: Option<Key>, rest: seq<Byte>)
    requires opcode < 16 && |p| < SIZE_LIMIT
    ensures ReadFrame(Frame(fin, opcode, p, key) + rest) ==
            Some(Received(FrameHeader(fin, 0, opcode, key, |p|, HeaderSize(|p|, key.Some?)), p, rest))
  {
    hide Header, ParseHeader, Masked;
    HeaderReadBack(fin, opcode, |p|, key, MaskedIf(p, key) + rest);
    HeaderIsSize(fin, opcode, |p|, key);
    if key.Some? { MaskedTwice(p, key.value); }
    var h := Header(fin, opcode, |p|, key);
    var s := Frame(fin, opcode, p, key) + rest;
    assert s == h + (MaskedIf(p, key) + rest);
    assert s[|h|..|h| + |p|] == MaskedIf(p, key);
    assert s[|h| + |p|..] == rest;
  }

  // ---------------------------------------------------------------- writing a header

  /** createHeader, at buf + at. */
  method CreateHeader(buf: array<Byte>, at: nat, opcode: nat, length: nat, mask: bool, maskKey: Key, fin: bool)
    returns (headerSize: nat)
    requires opcode < 16 && length < SIZE_LIMIT && at + HeaderSize(length, mask) <= buf.Length
    modifies buf
    ensures headerSize == HeaderSize(length, mask)
    ensures buf[..] == Put(old(buf[..]), at, Header(fin, opcode, length, if mask then Some(maskKey) else None))
  {
    hide Put;
    ghost var key := if mask then Some(maskKey) else None;
    HeaderIsSize(fin, opcode, length, key);
    headerSize := if length < 126 then 2 else if length < 0xFFFF then 4 else 10;
    if mask { headerSize := headerSize + 4; }
    ghost var b := buf[..];
    var first := (if fin then 128 else 0) + opcode;
    var ptr := WriteByte(buf, at, first);
    ptr := WriteLength(buf, ptr, length, mask);
    ghost var l := LengthField(length);
    ghost var second := [(if mask then 128 else 0) + l[0]] + l[1..];
    PutTwice(b, at, [first], second);
    if mask {
      ptr := WriteBytes(buf, ptr, maskKey);
      PutTwice(b, at, [first] + second, maskKey);
      assert [first] + second + maskKey == Header(fin, opcode, length, key);
    } else {
      assert [first] + second == Header(fin, opcode, length, key);
    }
  }

  /** The byte with the mask bit, and the length. */
  method WriteLength(buf: array<Byte>, at: nat, length: nat, mask: bool) returns (ptr: nat)
    requires length < SIZE_LIMIT && at + |LengthField(length)| <= buf.Length
    modifies buf
    ensures ptr == at + |LengthField(length)|
    ensures var l := LengthField(length); buf[..] == Put(old(buf[..]), at, [(if mask then 128 else 0) + l[0]] + l[1..])
  {
    hide Put;
    var bit := if mask then 128 else 0;
    if length < 126 {
      ptr := WriteByte(buf, at, bit + length);
      assert [bit + length] + [length][1..] == [bit + length];
    } else if length < 0xFFFF {
      var s: seq<Byte> := [bit + 126, length / 0x100, length % 0x100];
      ptr := WriteBytes(buf, at, s);
      assert s == [bit + 126] + LengthField(length)[1..];
    } else {
      var s: seq<Byte> := [bit + 127, 0, 0, 0, 0, length / 0x100_0000, length / 0x1_0000 % 0x100,
                           length / 0x100 % 0x100, length % 0x100];
      ptr := WriteBytes(buf, at, s);
      assert s == [bit + 127] + LengthField(length)[1..];
    }
  }

  /** The masking loops: n bytes from data + at. */
  method MaskInPlace(data: array<Byte>, at: nat, n: nat, key: Key)
    requires at + n <= data.Length
    modifies data
    ensures data[..] == Put(old(data[..]), at, Masked(old(data[at..at + n]), key))
  {
    hide Xor;
    for i := 0 to n
      invariant data[..at] == old(data[..at]) && data[at + i..] == old(data[at + i..])
      invariant forall j :: 0 <= j < i ==> data[at + j] == Xor(old(data[at + j]), key[j % 4])
    {
      data[at + i] := Xor(data[at + i], key[i % 4]);
    }
    ghost var m := Masked(old(data[at..at + n]), key);
    assert data[at..at + n] == m;
    assert data[..] == data[..at] + data[at..at + n] + data[at + n..];
  }
}
