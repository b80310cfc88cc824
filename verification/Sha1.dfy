/** sha1_ws.cpp: the digest of a message that arrives in pieces. */
module Sha1 {
  import opened Buffers
  import opened Sha1Spec

  const SHA_SUCCESS := 0
  const SHA_STATE_ERROR := 3

  const MAX_BYTES := 0x2000_0000_0000_0000
  const TWO32 := 0x1_0000_0000

  function AsHash(s: seq<Word>): Hash
    requires |s| == 5
  {
    Hash(s[0], s[1], s[2], s[3], s[4])
  }

  lemma WFirst(block: seq<Byte>, t: nat)
    requires |block| == 64 && t < 16
    ensures W(block, t) == WordOf(block[4 * t], block[4 * t + 1], block[4 * t + 2], block[4 * t + 3])
  {
    hide WordOf;
  }

  lemma WNext(block: seq<Byte>, t: nat)
    requires |block| == 64 && 16 <= t
    ensures W(block, t) == CircularShift(1,
                                         Xor(Xor(Xor(W(block, t - 3), W(block, t - 8)), W(block, t - 14)),
                                             W(block, t - 16)))
  {
    hide CircularShift, Xor;
  }

  class Sha1Context {
    const Intermediate_Hash: array<Word>
    var Length_Low: nat
    var Length_High: nat
    var Message_Block_Index: nat
    const Message_Block: array<Byte>
    var Computed: bool
    var Corrupted: int
    /** What has been put in. */
    ghost var message: seq<Byte>

    ghost predicate Shaped()
    {
      Intermediate_Hash.Length == 5 && Message_Block.Length == 64
    }

    /** Index and length pair count the bytes, the block holds those that have not been
        processed, and the hash value is that of the blocks that have. */
    ghost predicate Collecting()
      reads this, Intermediate_Hash, Message_Block
      requires Shaped()
    {
      var q := |message| / 64;
      |message| < MAX_BYTES && Length_Low < TWO32 && Length_High < TWO32 &&
      Length_High * TWO32 + Length_Low == 8 * |message| &&
      Message_Block_Index == |message| % 64 && Message_Block[..Message_Block_Index] == message[64 * q..] &&
      AsHash(Intermediate_Hash[..]) == After(message, q)
    }

    ghost predicate Done()
      reads this, Intermediate_Hash
      requires Shaped()
    {
      AsHash(Intermediate_Hash[..]) == After(Padded(message), |Padded(message)| / 64)
    }

    ghost predicate Valid()
      reads this, Intermediate_Hash, Message_Block
    {
      Shaped() && (Corrupted == 0 ==> if Computed then Done() else Collecting())
    }

    /** SHA1Reset */
    constructor ()
      ensures Valid() && Corrupted == 0 && !Computed && message == []
      ensures fresh(Intermediate_Hash) && fresh(Message_Block)
    {
      hide After, Padded;
      Intermediate_Hash := new Word[] [Word(0x67452301), Word(0xEFCDAB89), Word(0x98BADCFE), Word(0x10325476),
                                       Word(0xC3D2E1F0)];
      Message_Block := new Byte[64];
      Length_Low, Length_High, Message_Block_Index, Computed, Corrupted, message := 0, 0, 0, false, 0, [];
      new;
      AfterNone([]);
      assert AsHash(Intermediate_Hash[..]) == INITIAL;
      assert Message_Block[..Message_Block_Index] == message[0..];
    }

    /** SHA1ProcessMessageBlock */
    method ProcessMessageBlock()
      requires Shaped()
      modifies this`Message_Block_Index, Intermediate_Hash
      ensures AsHash(Intermediate_Hash[..]) == Compress(old(AsHash(Intermediate_Hash[..])), Message_Block[..])
      ensures Message_Block_Index == 0
    {
      hide CircularShift, WordOf, Turns, W, F, K, Plus;
      var w := Schedule();
      ghost var h := AsHash(Intermediate_Hash[..]);
      var g := FourRounds(w, Message_Block[..], Intermediate_Hash[0], Intermediate_Hash[1], Intermediate_Hash[2],
                          Intermediate_Hash[3], Intermediate_Hash[4]);
      Intermediate_Hash[0] := Plus(Intermediate_Hash[0], g.a);
      Intermediate_Hash[1] := Plus(Intermediate_Hash[1], g.b);
      Intermediate_Hash[2] := Plus(Intermediate_Hash[2], g.c);
      Intermediate_Hash[3] := Plus(Intermediate_Hash[3], g.d);
      Intermediate_Hash[4] := Plus(Intermediate_Hash[4], g.e);
      Message_Block_Index := 0;
    }

    /** The word sequence W. */
    method Schedule() returns (w: array<Word>)
      requires Shaped()
      ensures fresh(w) && w.Length == 80 && forall t :: 0 <= t < 80 ==> w[t] == W(Message_Block[..], t)
    {
      hide W, CircularShift, Xor, WordOf;
      w := new Word[80];
      ghost var block := Message_Block[..];
      for t := 0 to 16
        invariant forall i :: 0 <= i < t ==> w[i] == W(block, i)
      {
        WFirst(block, t);
        w[t] := WordOf(Message_Block[4 * t], Message_Block[4 * t + 1], Message_Block[4 * t + 2],
                       Message_Block[4 * t + 3]);
      }
      for t := 16 to 80
        invariant forall i :: 0 <= i < t ==> w[i] == W(block, i)
      {
        WNext(block, t);
        w[t] := CircularShift(1, Xor(Xor(Xor(w[t - 3], w[t - 8]), w[t - 14]), w[t - 16]));
      }
    }

    /** One turn of the loop of SHA1Input. */
    method AddByte(x: Byte)
      requires Shaped() && Collecting() && Corrupted == 0
      modifies this, Intermediate_Hash, Message_Block
      ensures Computed == old(Computed) && message == old(message) + [x]
      ensures if |message| < MAX_BYTES then Collecting() && Corrupted == 0 else Corrupted == 1
    {
      hide Compress, After, Padded, AsHash;
      ghost var m := message;
      CountUp(Length_High, Length_Low, |m|);
      Message_Block[Message_Block_Index] := x;
      Message_Block_Index := Message_Block_Index + 1;
      Length_Low := (Length_Low + 8) % TWO32;
      if Length_Low == 0 {
        Length_High := if Length_High + 1 == TWO32 then 0 else Length_High + 1;
        if Length_High == 0 {
          Corrupted := 1;
        }
      }
      message := m + [x];
      if Message_Block_Index == 64 {
        Filled(m, x);
        assert Message_Block[..] == m[64 * (|m| / 64)..] + [x];
        ProcessMessageBlock();
      } else {
        NotFilled(m, x);
      }
    }

    /** SHA1Input: the bytes are added to the message, unless the digest has been taken, or the
        message becomes 2^61 bytes or longer; the return code does not tell the latter. */
    method Input(message_array: seq<Byte>) returns (rc: int)
      requires Valid()
      modifies this, Intermediate_Hash, Message_Block
      ensures Valid()
      ensures Computed == old(Computed)
      ensures message_array == [] ==> rc == SHA_SUCCESS && Corrupted == old(Corrupted) && message == old(message)
      ensures message_array != [] && old(Computed) ==> rc == Corrupted == SHA_STATE_ERROR
      ensures message_array != [] && !old(Computed) && old(Corrupted) != 0 ==> rc == Corrupted == old(Corrupted)
      ensures message_array != [] && !old(Computed) && old(Corrupted) == 0 ==>
                rc == SHA_SUCCESS &&
                if |old(message) + message_array| < MAX_BYTES
                then Corrupted == 0 && message == old(message) + message_array
                else Corrupted == 1
    {
      hide Compress, After, Padded;
      rc := SHA_SUCCESS;
      if message_array == [] { return; }
      if Computed {
        Corrupted := SHA_STATE_ERROR;
        return SHA_STATE_ERROR;
      }
      if Corrupted != 0 { return Corrupted; }
      var i := 0;
      while i < |message_array| && Corrupted == 0
        invariant 0 <= i <= |message_array| && Shaped() && !Computed && message == old(message) + message_array[..i]
        invariant if |message| < MAX_BYTES then Collecting() && Corrupted == 0 else Corrupted == 1
      {
        AddByte(message_array[i]);
        i := i + 1;
      }
      assert message_array[..|message_array|] == message_array;
    }

    /** The loops that write zero bytes up to a place in the block. */
    method FillZeros(upto: nat)
      requires Shaped() && Message_Block_Index <= upto <= 64
      modifies this`Message_Block_Index, Message_Block
      ensures Message_Block_Index == upto
      ensures Message_Block[..upto] == old(Message_Block[..Message_Block_Index]) +
              Zeros(upto - old(Message_Block_Index))
    {
      while Message_Block_Index < upto
        invariant old(Message_Block_Index) <= Message_Block_Index <= upto
        invariant Message_Block[..Message_Block_Index] ==
                  old(Message_Block[..Message_Block_Index]) + Zeros(Message_Block_Index - old(Message_Block_Index))
      {
        Message_Block[Message_Block_Index] := 0;
        Message_Block_Index := Message_Block_Index + 1;
      }
    }

    /** The last eight bytes of the last block. */
    method StoreLength()
      requires Shaped() && Length_Low < TWO32
      modifies Message_Block
      ensures Message_Block[..] == old(Message_Block[..56]) + LengthBytes(Length_High * TWO32 + Length_Low)
    {
      LengthParts(Length_High, Length_Low);
      hide ByteOf, LengthBytes;
      Message_Block[56] := ByteOf(Length_High / 0x100_0000);
      Message_Block[57] := ByteOf(Length_High / 0x1_0000);
      Message_Block[58] := ByteOf(Length_High / 0x100);
      Message_Block[59] := ByteOf(Length_High);
      Message_Block[60] := ByteOf(Length_Low / 0x100_0000);
      Message_Block[61] := ByteOf(Length_Low / 0x1_0000);
      Message_Block[62] := ByteOf(Length_Low / 0x100);
      Message_Block[63] := ByteOf(Length_Low);
    }

    /** SHA1PadMessage: one more block, or two when the length does not fit. */
    method PadMessage()
      requires Shaped() && Collecting()
      modifies this`Message_Block_Index, Intermediate_Hash, Message_Block
      ensures Done() && Message_Block_Index == 0
    {
      hide Compress, After, Padded, LengthBytes, AsHash;
      ghost var m, q := message, |message| / 64;
      ghost var tail := m[64 * q..];
      if Message_Block_Index > 55 {
        Message_Block[Message_Block_Index] := 0x80;
        Message_Block_Index := Message_Block_Index + 1;
        assert Message_Block[..Message_Block_Index] == tail + [0x80];
        FillZeros(64);
        assert Message_Block[..] == tail + [0x80] + Zeros(63 - |tail|);
        ProcessMessageBlock();
        FillZeros(56);
        assert Message_Block[..56] == Zeros(56);
        StoreLength();
        TwoBlocks(m);
      } else {
        Message_Block[Message_Block_Index] := 0x80;
        Message_Block_Index := Message_Block_Index + 1;
        assert Message_Block[..Message_Block_Index] == tail + [0x80];
        FillZeros(56);
        assert Message_Block[..56] == tail + [0x80] + Zeros(55 - |tail|);
        StoreLength();
        OneBlock(m);
      }
      ProcessMessageBlock();
    }

    /** The last loop of SHA1Result. */
    method CopyDigest(Message_Digest: array<Byte>)
      requires Shaped() && Message_Digest.Length == 20
      modifies Message_Digest
      ensures Message_Digest[..] == HashBytes(AsHash(Intermediate_Hash[..]))
    {
      hide HashBytes, AsHash, ByteAt;
      ghost var h := HashBytes(AsHash(Intermediate_Hash[..]));
      for i := 0 to 20
        invariant Message_Digest[..i] == h[..i]
      {
        Message_Digest[i] := ByteAt(Intermediate_Hash[i / 4], 3 - i % 4);
        HashByteAt(Intermediate_Hash[..], i);
      }
    }

    /** SHA1Result: the digest of everything that was put in, as often as it is asked for. */
    method Result(Message_Digest: array<Byte>) returns (rc: int)
      requires Valid() && Message_Digest.Length == 20 && Message_Digest != Message_Block
      modifies this, Intermediate_Hash, Message_Block, Message_Digest
      ensures Valid() && rc == Corrupted == old(Corrupted) && message == old(message)
      ensures rc == SHA_SUCCESS ==> Computed && Message_Digest[..] == Digest(message)
      ensures rc != SHA_SUCCESS ==> Message_Digest[..] == old(Message_Digest[..])
    {
      hide Compress, After, Padded, HashBytes, AsHash;
      if Corrupted != 0 { return Corrupted; }
      if !Computed {
        PadMessage();
        ghost var padded := Intermediate_Hash[..];
        for i := 0 to 64
          modifies Message_Block
        {
          Message_Block[i] := 0;
        }
        assert Intermediate_Hash[..] == padded;
        Length_Low, Length_High, Computed := 0, 0, true;
      }
      ghost var words := Intermediate_Hash[..];
      CopyDigest(Message_Digest);
      assert Intermediate_Hash[..] == words;
      rc := SHA_SUCCESS;
    }
  }

  lemma HashByteAt(s: seq<Word>, i: nat)
    requires |s| == 5 && i < 20
    ensures HashBytes(AsHash(s))[i] == ByteAt(s[i / 4], 3 - i % 4)
  {
    hide ByteAt;
    assert HashBytes(AsHash(s))[i] == WordBytes(s[i / 4])[i % 4];
  }

  // ---------------------------------------------------------------- one byte more

  /** The length pair counts eight bits more, and both words are zero again at 2^61 bytes. */
  lemma CountUp(high: nat, low: nat, n: nat)
    requires high < TWO32 && low < TWO32 && high * TWO32 + low == 8 * n
    ensures var low' := (low + 8) % TWO32;
            if low' != 0 then low' == low + 8 && high * TWO32 + low' == 8 * (n + 1) && n + 1 < MAX_BYTES
            else if high + 1 == TWO32 then n + 1 == MAX_BYTES
            else (high + 1) * TWO32 == 8 * (n + 1) && n + 1 < MAX_BYTES
  {
  }

  lemma NotFilled(m: seq<Byte>, x: Byte)
    requires |m| % 64 < 63
    ensures var q := |m| / 64;
            |m + [x]| / 64 == q && |m + [x]| % 64 == |m| % 64 + 1 && (m + [x])[64 * q..] == m[64 * q..] + [x] &&
            After(m + [x], q) == After(m, q)
  {
    AfterPrefix(m, m + [x], |m| / 64);
  }

  lemma Filled(m: seq<Byte>, x: Byte)
    requires |m| % 64 == 63
    ensures var q := |m| / 64;
            |m + [x]| / 64 == q + 1 && |m + [x]| % 64 == 0 && (m + [x])[64 * (q + 1)..] == [] &&
            After(m + [x], q + 1) == Compress(After(m, q), m[64 * q..] + [x])
  {
    hide Compress;
    var q := |m| / 64;
    AfterPrefix(m[..64 * q], m, q);
    AfterBlock(m[..64 * q], m[64 * q..] + [x], q);
    assert m[..64 * q] + (m[64 * q..] + [x]) == m + [x];
  }

  // ---------------------------------------------------------------- the end of the message

  lemma LengthParts(high: nat, low: nat)
    requires low < TWO32
    ensures LengthBytes(high * TWO32 + low) == FourBytes(high) + FourBytes(low)
  {
    hide FourBytes;
    assert (high * TWO32 + low) / TWO32 == high;
  }

  /** The length fits behind the message in its last block. */
  lemma OneBlock(m: seq<Byte>)
    requires |m| % 64 <= 55
    ensures var q, tail := |m| / 64, m[64 * (|m| / 64)..];
            |Padded(m)| / 64 == q + 1 &&
            After(Padded(m), q + 1) == Compress(After(m, q), tail + [0x80] + Zeros(55 - |tail|) + LengthBytes(8 * |m|))
  {
    hide Compress, LengthBytes, After;
    var q := |m| / 64;
    var block := m[64 * q..] + [0x80] + Zeros(55 - |m| % 64) + LengthBytes(8 * |m|);
    assert Gap(|m|) == 55 - |m| % 64;
    assert Padded(m) == m[..64 * q] + block;
    hide Padded, Gap, Zeros;
    AfterPrefix(m[..64 * q], m, q);
    AfterBlock(m[..64 * q], block, q);
  }

  /** It does not. */
  lemma TwoBlocks(m: seq<Byte>)
    requires |m| % 64 > 55
    ensures var q, tail := |m| / 64, m[64 * (|m| / 64)..];
            |Padded(m)| / 64 == q + 2 &&
            After(Padded(m), q + 2) ==
            Compress(Compress(After(m, q), tail + [0x80] + Zeros(63 - |tail|)), Zeros(56) + LengthBytes(8 * |m|))
  {
    hide Compress, LengthBytes, After;
    var q := |m| / 64;
    var head := m[..64 * q];
    var block := m[64 * q..] + [0x80] + Zeros(63 - |m| % 64);
    var last := Zeros(56) + LengthBytes(8 * |m|);
    assert Padded(m) == head + block + last;
    AfterPrefix(head, m, q);
    AfterBlock(head, block, q);
    AfterBlock(head + block, last, q + 1);
  }

  /** The four loops over the word buffers. */
  method FourRounds(w: array<Word>, ghost block: seq<Byte>, a0: Word, b0: Word, c0: Word, d0: Word, e0: Word)
    returns (h: Hash)
    requires w.Length == 80 && |block| == 64 && forall t :: 0 <= t < 80 ==> w[t] == W(block, t)
    ensures h == Turns(Hash(a0, b0, c0, d0, e0), block, 80)
  {
    hide CircularShift, W, Plus, Xor, Or, And, Not;
    ghost var h0 := Hash(a0, b0, c0, d0, e0);
    var A, B, C, D, E := a0, b0, c0, d0, e0;
    for t := 0 to 20
      invariant Hash(A, B, C, D, E) == Turns(h0, block, t)
    {
      var temp := Plus(Plus(Plus(Plus(CircularShift(5, A), Or(And(B, C), And(Not(B), D))), E), w[t]), Word(0x5A827999));
      E, D, C, B, A := D, C, CircularShift(30, B), A, temp;
    }
    for t := 20 to 40
      invariant Hash(A, B, C, D, E) == Turns(h0, block, t)
    {
      var temp := Plus(Plus(Plus(Plus(CircularShift(5, A), Xor(Xor(B, C), D)), E), w[t]), Word(0x6ED9EBA1));
      E, D, C, B, A := D, C, CircularShift(30, B), A, temp;
    }
    for t := 40 to 60
      invariant Hash(A, B, C, D, E) == Turns(h0, block, t)
    {
      var temp := Plus(Plus(Plus(Plus(CircularShift(5, A), Or(Or(And(B, C), And(B, D)), And(C, D))), E), w[t]),
                       Word(0x8F1BBCDC));
      E, D, C, B, A := D, C, CircularShift(30, B), A, temp;
    }
    for t := 60 to 80
      invariant Hash(A, B, C, D, E) == Turns(h0, block, t)
    {
      var temp := Plus(Plus(Plus(Plus(CircularShift(5, A), Xor(Xor(B, C), D)), E), w[t]), Word(0xCA62C1D6));
      E, D, C, B, A := D, C, CircularShift(30, B), A, temp;
    }
    h := Hash(A, B, C, D, E);
  }

  // ---------------------------------------------------------------- any partition

  function Joined(pieces: seq<seq<Byte>>): seq<Byte> {
    if pieces == [] then [] else Joined(pieces[..|pieces| - 1]) + pieces[|pieces| - 1]
  }

  lemma {:induction false} JoinedGrows(pieces: seq<seq<Byte>>, i: nat)
    requires i <= |pieces|
    ensures |Joined(pieces[..i])| <= |Joined(pieces)|
    decreases |pieces| - i
  {
    if i < |pieces| {
      JoinedStep(pieces, i);
      JoinedGrows(pieces, i + 1);
    } else {
      assert pieces[..i] == pieces;
    }
  }

  lemma JoinedStep(pieces: seq<seq<Byte>>, i: nat)
    requires i < |pieces|
    ensures Joined(pieces[..i + 1]) == Joined(pieces[..i]) + pieces[i]
  {
    assert pieces[..i + 1][..i] == pieces[..i];
  }

  lemma JoinedNone()
    ensures Joined([]) == []
  {
  }

  method Finish(context: Sha1Context) returns (rc: int, digest: seq<Byte>)
    requires context.Valid()
    modifies context, context.Intermediate_Hash, context.Message_Block
    ensures old(context.Corrupted) == 0 ==> rc == SHA_SUCCESS && digest == Digest(old(context.message))
  {
    hide Digest, After, Padded, AsHash;
    var out := new Byte[20];
    rc := context.Result(out);
    digest := out[..];
  }

  /** However a message under 2^61 bytes is cut into pieces, the digest is that of the whole. */
  method DigestOfPieces(pieces: seq<seq<Byte>>) returns (rc: int, digest: seq<Byte>)
    ensures |Joined(pieces)| < MAX_BYTES ==> rc == SHA_SUCCESS && digest == Digest(Joined(pieces))
  {
    hide *;
    JoinedNone();
    assert pieces[..0] == [];
    var context := new Sha1Context();
    for i := 0 to |pieces|
      invariant context.Valid() && !context.Computed && fresh(context) && fresh(context.Intermediate_Hash) &&
                fresh(context.Message_Block)
      invariant |Joined(pieces)| < MAX_BYTES ==> context.Corrupted == 0 && context.message == Joined(pieces[..i])
    {
      JoinedGrows(pieces, i + 1);
      JoinedStep(pieces, i);
      rc := context.Input(pieces[i]);
    }
    assert pieces[..|pieces|] == pieces;
    rc, digest := Finish(context);
  }
}
