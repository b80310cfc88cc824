/** SHA-1 as RFC 3174 defines it, for a whole message. */
module Sha1Spec {
  import opened Buffers

  /** uint32_t and its operations */
  datatype Word = Word(bits: bv32)

  function And(x: Word, y: Word): Word { Word(x.bits & y.bits) }
  function Or(x: Word, y: Word): Word { Word(x.bits | y.bits) }
  function Xor(x: Word, y: Word): Word { Word(x.bits ^ y.bits) }
  function Not(x: Word): Word { Word(!x.bits) }
  function Plus(x: Word, y: Word): Word { Word(x.bits + y.bits) }

  /** The five words of a hash value. */
  datatype Hash = Hash(a: Word, b: Word, c: Word, d: Word, e: Word)

  /** S^n(X), section 3 */
  function CircularShift(bits: bv32, word: Word): Word
    requires 0 < bits < 32
  {
    Word((word.bits << bits) | (word.bits >> (32 - bits)))
  }

  /** The function f(t), section 5 */
  function F(t: nat, b: Word, c: Word, d: Word): Word {
    if t < 20 then Or(And(b, c), And(Not(b), d))
    else if t < 40 then Xor(Xor(b, c), d)
    else if t < 60 then Or(Or(And(b, c), And(b, d)), And(c, d))
    else Xor(Xor(b, c), d)
  }

  /** The constant K(t), section 5 */
  function K(t: nat): Word {
    Word(if t < 20 then 0x5A827999 else if t < 40 then 0x6ED9EBA1 else if t < 60 then 0x8F1BBCDC else 0xCA62C1D6)
  }

  function Wide(a: Byte): bv32 { a as bv32 }

  function WordOf(a: Byte, b: Byte, c: Byte, d: Byte): Word {
    Word((Wide(a) << 24) | (Wide(b) << 16) | (Wide(c) << 8) | Wide(d))
  }

  /** W(t), section 6.1 */
  function W(block: seq<Byte>, t: nat): Word
    requires |block| == 64
  {
    if t < 16 then WordOf(block[4 * t], block[4 * t + 1], block[4 * t + 2], block[4 * t + 3])
    else CircularShift(1, Xor(Xor(Xor(W(block, t - 3), W(block, t - 8)), W(block, t - 14)), W(block, t - 16)))
  }

  /** One turn of step d of section 6.1. */
  function Turn(h: Hash, t: nat, w: Word): Hash {
    Hash(Plus(Plus(Plus(Plus(CircularShift(5, h.a), F(t, h.b, h.c, h.d)), h.e), w), K(t)), h.a, CircularShift(30, h.b),
         h.c, h.d)
  }

  /** The first t turns. */
  function Turns(h: Hash, block: seq<Byte>, t: nat): Hash
    requires |block| == 64
  {
    if t == 0 then h else Turn(Turns(h, block, t - 1), t - 1, W(block, t - 1))
  }

  function Sum(h: Hash, g: Hash): Hash {
    Hash(Plus(h.a, g.a), Plus(h.b, g.b), Plus(h.c, g.c), Plus(h.d, g.d), Plus(h.e, g.e))
  }

  /** Processing a block, section 6.1. */
  function Compress(h: Hash, block: seq<Byte>): Hash
    requires |block| == 64
  {
    Sum(h, Turns(h, block, 80))
  }

  const INITIAL := Hash(Word(0x67452301), Word(0xEFCDAB89), Word(0x98BADCFE), Word(0x10325476), Word(0xC3D2E1F0))

  /** The hash value after the first i blocks. */
  function After(s: seq<Byte>, i: nat): Hash
    requires 64 * i <= |s|
  {
    if i == 0 then INITIAL else Compress(After(s, i - 1), s[64 * (i - 1)..64 * i])
  }

  function Zeros(n: nat): (r: seq<Byte>)
    ensures |r| == n
  {
    seq(n, _ => 0)
  }

  function ByteOf(n: nat): Byte { n % 256 }

  /** 32 bits, most significant byte first. */
  function FourBytes(n: nat): (r: seq<Byte>)
    ensures |r| == 4
  {
    [ByteOf(n / 0x100_0000), ByteOf(n / 0x1_0000), ByteOf(n / 0x100), ByteOf(n)]
  }

  /** A length in bits as two words, section 4. */
  function LengthBytes(n: nat): (r: seq<Byte>)
    ensures |r| == 8
  {
    FourBytes(n / 0x1_0000_0000) + FourBytes(n % 0x1_0000_0000)
  }

  /** How many zero bytes follow the byte 0x80 up to the length. */
  function Gap(n: nat): nat { (119 - n % 64) % 64 }

  lemma Mod64(n: nat)
    ensures (n + 9 + Gap(n)) % 64 == 0
  {
  }

  /** The padded message, section 4. */
  function Padded(m: seq<Byte>): (r: seq<Byte>)
    ensures |r| == |m| + 9 + Gap(|m|) && |r| % 64 == 0
  {
    Mod64(|m|);
    m + [0x80] + Zeros(Gap(|m|)) + LengthBytes(8 * |m|)
  }

  /** Byte number n of a word, the low one being number 0. */
  function ByteAt(w: Word, n: nat): Byte
    requires n < 4
  {
    (((w.bits >> (8 * n)) & 0xFF) as bv8) as int
  }

  /** Most significant byte first. */
  function WordBytes(w: Word): (r: seq<Byte>)
    ensures |r| == 4
  {
    [ByteAt(w, 3), ByteAt(w, 2), ByteAt(w, 1), ByteAt(w, 0)]
  }

  function HashBytes(h: Hash): (r: seq<Byte>)
    ensures |r| == 20
  {
    WordBytes(h.a) + WordBytes(h.b) + WordBytes(h.c) + WordBytes(h.d) + WordBytes(h.e)
  }

  /** The message digest of a whole message. */
  function Digest(m: seq<Byte>): (r: seq<Byte>)
    ensures |r| == 20
  {
    HashBytes(After(Padded(m), |Padded(m)| / 64))
  }

  // ---------------------------------------------------------------- laws

  /** The blocks of a message depend on nothing behind them. */
  lemma {:induction false} AfterPrefix(s: seq<Byte>, t: seq<Byte>, i: nat)
    requires 64 * i <= |s| && s <= t
    ensures After(s, i) == After(t, i)
  {
    hide Compress;
    if i > 0 {
      AfterPrefix(s, t, i - 1);
      assert s[64 * (i - 1)..64 * i] == t[64 * (i - 1)..64 * i];
    }
  }

  lemma AfterNone(s: seq<Byte>)
    ensures After(s, 0) == INITIAL
  {
  }

  /** One block more. */
  lemma AfterBlock(s: seq<Byte>, block: seq<Byte>, i: nat)
    requires |s| == 64 * i && |block| == 64
    ensures After(s + block, i + 1) == Compress(After(s, i), block)
  {
    hide Compress;
    AfterPrefix(s, s + block, i);
    assert (s + block)[64 * i..64 * (i + 1)] == block;
  }
}
