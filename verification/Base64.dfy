/** ClientConnection::base64Encode, and the decoder of RFC 4648, section 4. */
module Base64 {
  import opened HttpTypes
  import opened Buffers

  const UPPER := "ABCDEFGHIJKLMNOPQRSTUVWXYZ"
  const LOWER := "abcdefghijklmnopqrstuvwxyz"
  const DIGITS := "0123456789"

  /** encodingTable */
  const ENCODING_TABLE := UPPER + LOWER + DIGITS + "+/"

  type Sextet = x: int | 0 <= x < 64

  /** The alphabet, table 1 of the RFC. */
  function Symbol(x: Sextet): char {
    if x < 26 then 'A' + x as char
    else if x < 52 then 'a' + (x - 26) as char
    else if x < 62 then '0' + (x - 52) as char
    else if x == 62 then '+' else '/'
  }

  lemma TableIsAlphabet(x: Sextet)
    ensures |ENCODING_TABLE| == 64 && ENCODING_TABLE[x] == Symbol(x)
  {
    if x < 26 { UpperAt(x); }
    else if x < 52 { LowerAt(x - 26); }
    else if x < 62 { assert DIGITS[x - 52] == '0' + (x - 52) as char; }
  }

  lemma UpperAt(x: nat)
    requires x < 26
    ensures UPPER[x] == 'A' + x as char
  {
  }

  lemma LowerAt(x: nat)
    requires x < 26
    ensures LOWER[x] == 'a' + x as char
  {
  }

  function Value(c: char): Option<Sextet> {
    if 'A' <= c <= 'Z' then Some((c - 'A') as int)
    else if 'a' <= c <= 'z' then Some((c - 'a') as int + 26)
    else if '0' <= c <= '9' then Some((c - '0') as int + 52)
    else if c == '+' then Some(62) else if c == '/' then Some(63) else None
  }

  lemma SymbolReadBack(x: Sextet)
    ensures Value(Symbol(x)) == Some(x) && Symbol(x) != '='
  {
  }

  lemma ValuePrintBack(c: char)
    ensures Value(c).Some? ==> Symbol(Value(c).value) == c && c != '='
  {
  }

  // ---------------------------------------------------------------- the specification

  /** The four sextets of three bytes. */
  function Sextet0(a: Byte): Sextet { a / 4 }
  function Sextet1(a: Byte, b: Byte): Sextet { a % 4 * 16 + b / 16 }
  function Sextet2(b: Byte, c: Byte): Sextet { b % 16 * 4 + c / 64 }
  function Sextet3(c: Byte): Sextet { c % 64 }

  function Quad(a: Byte, b: Byte, c: Byte): (r: string)
    ensures |r| == 4
  {
    [Symbol(Sextet0(a)), Symbol(Sextet1(a, b)), Symbol(Sextet2(b, c)), Symbol(Sextet3(c))]
  }

  /** Three bytes a quad; one byte left gives two symbols and two pads, two bytes three and one. */
  function Encoded(d: seq<Byte>): string {
    if d == [] then ""
    else if |d| == 1 then [Symbol(Sextet0(d[0])), Symbol(Sextet1(d[0], 0)), '=', '=']
    else if |d| == 2 then [Symbol(Sextet0(d[0])), Symbol(Sextet1(d[0], d[1])), Symbol(Sextet2(d[1], 0)), '=']
    else Quad(d[0], d[1], d[2]) + Encoded(d[3..])
  }

  function EncodedSize(n: nat): nat { 4 * ((n + 2) / 3) }

  lemma SizeStep(n: nat)
    requires 3 <= n
    ensures EncodedSize(n) == 4 + EncodedSize(n - 3) && Pads(n) == Pads(n - 3) <= 2
    ensures n > 3 ==> EncodedSize(n - 3) >= 4
    ensures EncodedSize(0) == 0 && EncodedSize(1) == EncodedSize(2) == 4
  {
  }

  /** Four symbols for every three bytes or part of them. */
  lemma {:induction false} EncodedLength(d: seq<Byte>)
    ensures |Encoded(d)| == EncodedSize(|d|)
  {
    hide EncodedSize, Quad, Symbol, Sextet0, Sextet1, Sextet2, Sextet3;
    SizeStep(if |d| >= 3 then |d| else 3);
    if |d| >= 3 { EncodedLength(d[3..]); }
  }

  function First(v0: Sextet, v1: Sextet): Byte { v0 * 4 + v1 / 16 }
  function Second(v1: Sextet, v2: Sextet): Byte { v1 % 16 * 16 + v2 / 4 }
  function Third(v2: Sextet, v3: Sextet): Byte { v2 % 4 * 64 + v3 }

  /** A decoder that takes no symbol outside the alphabet, and no pad bits but zeros. */
  function Decoded(s: string): Option<seq<Byte>> {
    if s == "" then Some([])
    else if |s| < 4 || Value(s[0]).None? || Value(s[1]).None? then None
    else
      var v0, v1 := Value(s[0]).value, Value(s[1]).value;
      if |s| == 4 && s[2] == '=' && s[3] == '=' then if v1 % 16 == 0 then Some([First(v0, v1)]) else None
      else if Value(s[2]).None? then None
      else
        var v2 := Value(s[2]).value;
        if |s| == 4 && s[3] == '=' then if v2 % 4 == 0 then Some([First(v0, v1), Second(v1, v2)]) else None
        else if Value(s[3]).None? || Decoded(s[4..]).None? then None
        else Some([First(v0, v1), Second(v1, v2), Third(v2, Value(s[3]).value)] + Decoded(s[4..]).value)
  }

  lemma BytesReadBack(a: Byte, b: Byte, c: Byte)
    ensures First(Sextet0(a), Sextet1(a, b)) == a
    ensures Second(Sextet1(a, b), Sextet2(b, c)) == b
    ensures Third(Sextet2(b, c), Sextet3(c)) == c
    ensures Sextet1(a, 0) % 16 == 0 && Sextet2(b, 0) % 4 == 0
  {
  }

  /** Every byte string is decoded to itself. */
  lemma {:induction false} Base64ReadBack(d: seq<Byte>)
    ensures Decoded(Encoded(d)) == Some(d)
  {
    hide Quad, Symbol, Value, Sextet0, Sextet1, Sextet2, Sextet3, First, Second, Third;
    if |d| >= 3 {
      Base64ReadBack(d[3..]);
      QuadStep(d[0], d[1], d[2], Encoded(d[3..]));
      assert [d[0], d[1], d[2]] + d[3..] == d;
    } else if d != [] {
      TailStep(d);
    }
  }

  /** The vectors of RFC 4648, section 10, with the last two symbols of the alphabet. */
  lemma Vectors()
    ensures Encoded([]) == "" && Encoded([0x66]) == "Zg==" && Encoded([0x66, 0x6F]) == "Zm8="
    ensures Encoded([0x66, 0x6F, 0x6F]) == "Zm9v" && Encoded([0x66, 0x6F, 0x6F, 0x62]) == "Zm9vYg=="
    ensures Encoded([0xFB, 0xEF, 0xBE]) == "++++" && Encoded([0xFF, 0xFF, 0xFF]) == "////"
  {
    assert Encoded([]) == "" && Encoded([0x66, 0x6F, 0x6F]) == Quad(0x66, 0x6F, 0x6F) + Encoded([]);
    assert Encoded([0xFB, 0xEF, 0xBE]) == Quad(0xFB, 0xEF, 0xBE) &&
           Encoded([0xFF, 0xFF, 0xFF]) == Quad(0xFF, 0xFF, 0xFF);
    assert [0x66, 0x6F, 0x6F, 0x62][3..] == [0x62];
  }

  lemma QuadStep(a: Byte, b: Byte, c: Byte, rest: string)
    requires Decoded(rest).Some?
    ensures Decoded(Quad(a, b, c) + rest) == Some([a, b, c] + Decoded(rest).value)
  {
    hide Symbol, Value, Sextet0, Sextet1, Sextet2, Sextet3, First, Second, Third;
    BytesReadBack(a, b, c);
    SymbolReadBack(Sextet0(a));
    SymbolReadBack(Sextet1(a, b));
    SymbolReadBack(Sextet2(b, c));
    SymbolReadBack(Sextet3(c));
    assert (Quad(a, b, c) + rest)[4..] == rest;
  }

  lemma TailStep(d: seq<Byte>)
    requires 1 <= |d| <= 2
    ensures Decoded(Encoded(d)) == Some(d)
  {
    hide Symbol, Value, Sextet0, Sextet1, Sextet2, Sextet3, First, Second, Third;
    var b := if |d| == 2 then d[1] else 0;
    BytesReadBack(d[0], b, 0);
    SymbolReadBack(Sextet0(d[0]));
    SymbolReadBack(Sextet1(d[0], b));
    SymbolReadBack(Sextet2(b, 0));
    assert d == if |d| == 1 then [d[0]] else [d[0], d[1]];
  }

  lemma SextetsPrintBack(v0: Sextet, v1: Sextet, v2: Sextet, v3: Sextet)
    ensures Sextet0(First(v0, v1)) == v0
    ensures Sextet1(First(v0, v1), Second(v1, v2)) == v1
    ensures Sextet2(Second(v1, v2), Third(v2, v3)) == v2
    ensures Sextet3(Third(v2, v3)) == v3
    ensures v1 % 16 == 0 ==> Sextet1(First(v0, v1), 0) == v1
    ensures v2 % 4 == 0 ==> Sextet2(Second(v1, v2), 0) == v2
  {
  }

  /** And every string that decodes is the one that is written for its bytes. */
  lemma {:induction false} Base64Canonical(s: string)
    ensures Decoded(s).Some? ==> Encoded(Decoded(s).value) == s
  {
    hide Symbol, Value, Sextet0, Sextet1, Sextet2, Sextet3, First, Second, Third;
    if s != "" && Decoded(s).Some? {
      ValuePrintBack(s[0]);
      ValuePrintBack(s[1]);
      ValuePrintBack(s[2]);
      ValuePrintBack(s[3]);
      var v0, v1 := Value(s[0]).value, Value(s[1]).value;
      var v2: Sextet := if Value(s[2]).Some? then Value(s[2]).value else 0;
      var v3: Sextet := if Value(s[3]).Some? then Value(s[3]).value else 0;
      SextetsPrintBack(v0, v1, v2, v3);
      assert s == [s[0], s[1], s[2], s[3]] + s[4..];
      if |s| > 4 || s[3] != '=' {
        Base64Canonical(s[4..]);
        assert Decoded(s).value[3..] == Decoded(s[4..]).value;
      }
    }
  }

  // ---------------------------------------------------------------- the encoder as it is written

  function Nth(d: seq<Byte>, i: nat): Byte { if i < |d| then d[i] else 0 }

  /** The quads with zero bytes behind the data, before the pads are written. */
  function Unpadded(d: seq<Byte>): string {
    if d == [] then "" else Quad(d[0], Nth(d, 1), Nth(d, 2)) + Unpadded(d[if |d| < 3 then |d| else 3..])
  }

  function Pads(n: nat): nat { if n % 3 == 0 then 0 else if n % 3 == 1 then 2 else 1 }

  function PadText(n: nat): (r: string)
    ensures |r| == n
  {
    seq(n, _ => '=')
  }

  lemma {:induction false} PadsMakeEncoded(d: seq<Byte>)
    ensures var n := EncodedSize(|d|);
            |Unpadded(d)| == n && Pads(|d|) <= n && Encoded(d) == Unpadded(d)[..n - Pads(|d|)] + PadText(Pads(|d|))
  {
    hide Quad, PadText, Pads, EncodedSize, Symbol, Sextet0, Sextet1, Sextet2, Sextet3;
    if |d| > 3 {
      PadsMakeEncoded(d[3..]);
      SizeStep(|d|);
      CutBehind(Quad(d[0], d[1], d[2]), Unpadded(d[3..]), Pads(|d|), PadText(Pads(|d|)));
    } else if d != [] {
      OneQuad(d);
    } else {
      NoQuad();
    }
  }

  lemma NoQuad()
    ensures Pads(0) == EncodedSize(0) == 0 && PadText(0) == ""
  {
  }

  lemma CutBehind(q: string, u: string, n: nat, pads: string)
    requires n <= |u|
    ensures (q + u)[..|q + u| - n] + pads == q + (u[..|u| - n] + pads)
  {
  }

  lemma OneQuad(d: seq<Byte>)
    requires 1 <= |d| <= 3
    ensures |Unpadded(d)| == EncodedSize(|d|) == 4 && Pads(|d|) <= 2 &&
            Encoded(d) == Unpadded(d)[..4 - Pads(|d|)] + PadText(Pads(|d|))
  {
    hide Symbol, Sextet0, Sextet1, Sextet2, Sextet3;
    assert d[|d|..] == [];
    assert Unpadded(d) == Quad(d[0], Nth(d, 1), Nth(d, 2));
    if |d| == 3 { assert Encoded(d) == Quad(d[0], d[1], d[2]); }
  }

  /** The shifts and masks of one triple. */
  lemma TripleIsQuad(a: Byte, b: Byte, c: Byte)
    ensures var triple := a * 0x1_0000 + b * 0x100 + c;
            triple / 0x4_0000 % 64 == Sextet0(a) && triple / 0x1000 % 64 == Sextet1(a, b) &&
            triple / 64 % 64 == Sextet2(b, c) && triple % 64 == Sextet3(c)
  {
    TripleParts(a / 4, a % 4, b / 16, b % 16, c / 64, c % 64);
  }

  lemma TripleParts(a1: nat, a0: nat, b1: nat, b0: nat, c1: nat, c0: nat)
    requires a1 < 64 && a0 < 4 && b1 < 16 && b0 < 16 && c1 < 4 && c0 < 64
    ensures var triple := (4 * a1 + a0) * 0x1_0000 + (16 * b1 + b0) * 0x100 + 64 * c1 + c0;
            triple / 0x4_0000 % 64 == a1 && triple / 0x1000 % 64 == 16 * a0 + b1 &&
            triple / 64 % 64 == 4 * b0 + c1 && triple % 64 == c0
  {
    var triple := (4 * a1 + a0) * 0x1_0000 + (16 * b1 + b0) * 0x100 + 64 * c1 + c0;
    assert triple / 64 == 4096 * a1 + 1024 * a0 + 64 * b1 + 4 * b0 + c1;
    assert triple / 0x1000 == 64 * a1 + 16 * a0 + b1;
    assert triple / 0x4_0000 == a1;
  }

  lemma TripleSymbols(a: Byte, b: Byte, c: Byte)
    ensures var triple := a * 0x1_0000 + b * 0x100 + c;
            |ENCODING_TABLE| == 64 &&
            Quad(a, b, c) == [ENCODING_TABLE[triple / 0x4_0000 % 64], ENCODING_TABLE[triple / 0x1000 % 64],
                              ENCODING_TABLE[triple / 64 % 64], ENCODING_TABLE[triple % 64]]
  {
    hide Symbol, Sextet0, Sextet1, Sextet2, Sextet3;
    var triple := a * 0x1_0000 + b * 0x100 + c;
    TripleIsQuad(a, b, c);
    TableIsAlphabet(Sextet0(a));
    TableIsAlphabet(Sextet1(a, b));
    TableIsAlphabet(Sextet2(b, c));
    TableIsAlphabet(Sextet3(c));
  }

  /** One turn of the loop. */
  method WriteQuad(a: Byte, b: Byte, c: Byte, outputBuffer: array<char>, j: nat)
    requires j + 4 <= outputBuffer.Length
    modifies outputBuffer
    ensures outputBuffer[..] == old(outputBuffer[..j]) + Quad(a, b, c) + old(outputBuffer[j + 4..])
  {
    hide Quad;
    var triple := a * 0x1_0000 + b * 0x100 + c;
    TripleSymbols(a, b, c);
    var q := [ENCODING_TABLE[triple / 0x4_0000 % 64], ENCODING_TABLE[triple / 0x1000 % 64],
              ENCODING_TABLE[triple / 64 % 64], ENCODING_TABLE[triple % 64]];
    outputBuffer[j] := q[0];
    outputBuffer[j + 1] := q[1];
    outputBuffer[j + 2] := q[2];
    outputBuffer[j + 3] := q[3];
  }

  /** The longest text that passes the size test, which subtracts one from a size_t. */
  function Passing(outputBufferSize: nat): nat {
    if outputBufferSize == 0 then 0xFFFF_FFFF else outputBufferSize - 1
  }

  /** The test keeps the text and its end within the buffer exactly for sizes other than 0. */
  lemma TestHolds(outputBufferSize: nat)
    ensures outputBufferSize != 0 <==>
            forall data | |Encoded(data)| <= Passing(outputBufferSize) :: |Encoded(data)| + 1 <= outputBufferSize
  {
    var none: seq<Byte> := [];
    EncodedLength(none);
    hide Encoded;
    if outputBufferSize == 0 { assert |Encoded(none)| <= Passing(outputBufferSize); }
  }

  /** base64Encode: fails, with nothing written, exactly when the text does not pass the size
      test. `outputBuffer` is the memory from the start of the buffer on. */
  method Encode(data: seq<Byte>, outputBuffer: array<char>, outputBufferSize: nat) returns (ok: bool)
    requires outputBufferSize <= outputBuffer.Length
    requires outputBufferSize == 0 ==> EncodedSize(|data|) < outputBuffer.Length
    modifies outputBuffer
    ensures ok == (|Encoded(data)| <= Passing(outputBufferSize)) && (ok ==> |Encoded(data)| < outputBuffer.Length)
    ensures outputBuffer[..] ==
            if ok then Encoded(data) + "\0" + old(outputBuffer[..])[|Encoded(data)| + 1..] else old(outputBuffer[..])
  {
    hide Quad, Encoded, Unpadded;
    var size := |data|;
    var outputLength := 4 * ((size + 2) / 3);
    EncodedLength(data);
    if Passing(outputBufferSize) < outputLength { return false; }
    WriteQuads(data, outputBuffer, outputLength);
    PadsMakeEncoded(data);
    WritePads(Pads(size), outputBuffer, outputLength);
    outputBuffer[outputLength] := '\0';
    ok := true;
  }

  /** The loop over the data. */
  method WriteQuads(data: seq<Byte>, outputBuffer: array<char>, ghost outputLength: nat)
    requires outputLength == EncodedSize(|data|) < outputBuffer.Length
    modifies outputBuffer
    ensures |Unpadded(data)| == outputLength && outputBuffer[..] == Unpadded(data) + old(outputBuffer[outputLength..])
  {
    hide Quad, Unpadded;
    var size := |data|;
    ghost var tail := outputBuffer[outputLength..];
    var i, j := 0, 0;
    ghost var done := "";
    assert data[0..] == data;
    while i < size
      invariant 0 <= i <= size && j + EncodedSize(size - i) == outputLength
      invariant |done| == j && outputBuffer[..j] == done && done + Unpadded(data[i..]) == Unpadded(data)
      invariant outputBuffer[outputLength..] == tail
    {
      UnpaddedStep(data, i, done);
      var octet1 := data[i];
      i := i + 1;
      var octet2: Byte := 0;
      if i < size { octet2 := data[i]; i := i + 1; }
      var octet3: Byte := 0;
      if i < size { octet3 := data[i]; i := i + 1; }
      WriteQuad(octet1, octet2, octet3, outputBuffer, j);
      done := done + Quad(octet1, octet2, octet3);
      j := j + 4;
      assert outputBuffer[..j] == done;
    }
    assert data[i..] == [] && Unpadded([]) == "" by { UnpaddedNone(); }
    assert outputBuffer[..] == outputBuffer[..outputLength] + tail;
  }

  lemma UnpaddedNone()
    ensures Unpadded([]) == ""
  {
  }

  lemma UnpaddedStep(data: seq<Byte>, i: nat, done: string)
    requires i < |data|
    ensures var n := if |data| - i < 3 then |data| else i + 3;
            done + Unpadded(data[i..]) == done + Quad(data[i], Nth(data, i + 1), Nth(data, i + 2)) + Unpadded(data[n..])
  {
    hide Quad;
    var rest := data[i..];
    assert rest[if |rest| < 3 then |rest| else 3..] == data[if |data| - i < 3 then |data| else i + 3..];
    assert rest[0] == data[i] && Nth(rest, 1) == Nth(data, i + 1) && Nth(rest, 2) == Nth(data, i + 2);
  }

  method WritePads(paddingCount: nat, outputBuffer: array<char>, outputLength: nat)
    requires paddingCount <= 2 && paddingCount <= outputLength < outputBuffer.Length
    modifies outputBuffer
    ensures outputBuffer[..] == old(outputBuffer[..outputLength - paddingCount]) + PadText(paddingCount) +
            old(outputBuffer[outputLength..])
  {
    for i := 0 to paddingCount
      invariant outputBuffer[..outputLength - i] == old(outputBuffer[..outputLength - i])
      invariant outputBuffer[outputLength - i..outputLength] == PadText(i)
      invariant outputBuffer[outputLength..] == old(outputBuffer[outputLength..])
    {
      outputBuffer[outputLength - 1 - i] := '=';
    }
  }
}
