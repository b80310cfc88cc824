/** Bytes, and writing them through a moving pointer. */
module Buffers {
  type Byte = x: int | 0 <= x < 256

  /** Overwriting a stretch of a buffer. */
  function Put(b: seq<Byte>, at: nat, t: seq<Byte>): (r: seq<Byte>)
    requires at + |t| <= |b|
    ensures |r| == |b|
  {
    b[..at] + t + b[at + |t|..]
  }

  lemma PutNothing(b: seq<Byte>, at: nat)
    requires at <= |b|
    ensures Put(b, at, []) == b
  {
    assert b[..at] + [] + b[at..] == b;
  }

  method WriteByte(buf: array<Byte>, ptr: nat, c: Byte) returns (next: nat)
    requires ptr < buf.Length
    modifies buf
    ensures next == ptr + 1 && buf[..] == Put(old(buf[..]), ptr, [c])
  {
    buf[ptr] := c;
    next := ptr + 1;
  }

  method WriteBytes(buf: array<Byte>, ptr: nat, b: seq<Byte>) returns (next: nat)
    requires ptr + |b| <= buf.Length
    modifies buf
    ensures next == ptr + |b| && buf[..] == Put(old(buf[..]), ptr, b)
  {
    hide Put;
    var i := 0;
    PutNothing(buf[..], ptr);
    assert b[..0] == [];
    while i < |b|
      invariant 0 <= i <= |b| && buf[..] == Put(old(buf[..]), ptr, b[..i])
    {
      var _ := WriteByte(buf, ptr + i, b[i]);
      PutTwice(old(buf[..]), ptr, b[..i], [b[i]]);
      assert b[..i] + [b[i]] == b[..i + 1];
      i := i + 1;
    }
    next := ptr + |b|;
    assert b[..i] == b;
  }

  lemma PutTwice(b: seq<Byte>, at: nat, s: seq<Byte>, t: seq<Byte>)
    requires at + |s| + |t| <= |b|
    ensures Put(Put(b, at, s), at + |s|, t) == Put(b, at, s + t)
  {
  }

  lemma Regroup<T>(a: seq<T>, b: seq<T>, c: seq<T>, d: seq<T>)
    ensures a + b + c == a + (b + c)
    ensures a + b + c + d == a + (b + (c + d)) == a + ((b + c) + d)
  {
  }

  /** memcpy */
  method Memcpy<T>(block: array<T>, at: nat, data: seq<T>)
    requires at + |data| <= block.Length
    modifies block
    ensures block[..at + |data|] == old(block[..at]) + data
    ensures forall k | at + |data| <= k < block.Length :: block[k] == old(block[k])
  {
    var i := 0;
    while i < |data|
      invariant 0 <= i <= |data| && block[..at + i] == old(block[..at]) + data[..i]
      invariant forall k | at + |data| <= k < block.Length :: block[k] == old(block[k])
    {
      block[at + i] := data[i];
      i := i + 1;
    }
  }
}
