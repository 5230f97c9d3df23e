/** Big-endian integers in byte sequences and byte buffers. */
module Bytes {
  import opened Base

  type Word = n: int | 0 <= n < 0x1_0000

  type DWord = n: int | 0 <= n < 0x1_0000_0000

  /** Go strings and slices are byte sequences; their lengths and indices count bytes. */
  type Text = seq<Byte>

  function U16(n: Word): (b: seq<Byte>)
    ensures |b| == 2
  {
    [n / 0x100, n % 0x100]
  }

  function U32(n: DWord): (b: seq<Byte>)
    ensures |b| == 4
  {
    [n / 0x100_0000, n / 0x1_0000 % 0x100, n / 0x100 % 0x100, n % 0x100]
  }

  function GetU16(b: seq<Byte>, off: nat): (n: Word)
    requires off + 2 <= |b|
  {
    b[off] as int * 0x100 + b[off + 1] as int
  }

  function GetU32(b: seq<Byte>, off: nat): (n: DWord)
    requires off + 4 <= |b|
  {
    b[off] as int * 0x100_0000 + b[off + 1] as int * 0x1_0000 + b[off + 2] as int * 0x100 + b[off + 3] as int
  }

  /** Reading undoes writing, wherever the number stands. */
  lemma ReadU16(b: seq<Byte>, off: nat, n: Word)
    requires off + 2 <= |b| && b[off..off + 2] == U16(n)
    ensures GetU16(b, off) == n
  {
    assert b[off] == b[off..off + 2][0] && b[off + 1] == b[off..off + 2][1];
  }

  lemma Digits(n: DWord)
    ensures n == n / 0x100_0000 * 0x100_0000 + n / 0x1_0000 % 0x100 * 0x1_0000 + n / 0x100 % 0x100 * 0x100 + n % 0x100
  {
    var hi, lo := n / 0x1_0000, n % 0x1_0000;
    assert n / 0x100_0000 == hi / 0x100;
    assert n / 0x100 == hi * 0x100 + lo / 0x100;
  }

  lemma ReadU32(b: seq<Byte>, off: nat, n: DWord)
    requires off + 4 <= |b| && b[off..off + 4] == U32(n)
    ensures GetU32(b, off) == n
  {
    Digits(n);
    var s := b[off..off + 4];
    assert b[off] == s[0] && b[off + 1] == s[1] && b[off + 2] == s[2] && b[off + 3] == s[3];
  }

  /** Reading a field of a record `e` that lies at offset `o`. */
  lemma FieldU16(b: seq<Byte>, o: nat, e: seq<Byte>, i: nat, n: Word)
    requires o + |e| <= |b| && b[o..o + |e|] == e && i + 2 <= |e| && e[i..i + 2] == U16(n)
    ensures GetU16(b, o + i) == n
  {
    forall k | 0 <= k < |e| ensures b[o + k] == e[k] {
      assert b[o..o + |e|][k] == b[o + k];
    }
    assert b[o + i..o + i + 2] == e[i..i + 2];
    ReadU16(b, o + i, n);
  }

  lemma FieldU32(b: seq<Byte>, o: nat, e: seq<Byte>, i: nat, n: DWord)
    requires o + |e| <= |b| && b[o..o + |e|] == e && i + 4 <= |e| && e[i..i + 4] == U32(n)
    ensures GetU32(b, o + i) == n
  {
    forall k | 0 <= k < |e| ensures b[o + k] == e[k] {
      assert b[o..o + |e|][k] == b[o + k];
    }
    assert b[o + i..o + i + 4] == e[i..i + 4];
    ReadU32(b, o + i, n);
  }

  /** Writing undoes reading: no other bytes stand for the same number. */
  lemma WriteU16(b: seq<Byte>, off: nat)
    requires off + 2 <= |b|
    ensures U16(GetU16(b, off)) == b[off..off + 2]
  {
  }

  lemma WriteU32(b: seq<Byte>, off: nat)
    requires off + 4 <= |b|
    ensures U32(GetU32(b, off)) == b[off..off + 4]
  {
    var hi: int, lo: int := GetU16(b, off), GetU16(b, off + 2);
    var n := GetU32(b, off);
    assert n == hi * 0x1_0000 + lo;
    assert n / 0x1_0000 == hi && n % 0x1_0000 == lo;
    assert n / 0x100 == hi * 0x100 + b[off + 2] as int;
    assert n / 0x100_0000 == hi / 0x100;
  }

  method PutU16(b: array<Byte>, off: nat, n: Word)
    requires off + 2 <= b.Length
    modifies b
    ensures b[..off + 2] == old(b[..off]) + U16(n)
    ensures forall k :: off + 2 <= k < b.Length ==> b[k] == old(b[k])
  {
    b[off], b[off + 1] := n / 0x100, n % 0x100;
  }

  method PutU32(b: array<Byte>, off: nat, n: DWord)
    requires off + 4 <= b.Length
    modifies b
    ensures b[..off + 4] == old(b[..off]) + U32(n)
    ensures forall k :: off + 4 <= k < b.Length ==> b[k] == old(b[k])
  {
    b[off], b[off + 1] := n / 0x100_0000, n / 0x1_0000 % 0x100;
    b[off + 2], b[off + 3] := n / 0x100 % 0x100, n % 0x100;
  }

  method PutByte(b: array<Byte>, off: nat, n: Byte)
    requires off < b.Length
    modifies b
    ensures b[..off + 1] == old(b[..off]) + [n]
    ensures forall k :: off + 1 <= k < b.Length ==> b[k] == old(b[k])
  {
    b[off] := n;
  }

  /** Go's `copy(b[off:], s)` where the destination is long enough. */
  method Copy(b: array<Byte>, off: nat, s: seq<Byte>)
    requires off + |s| <= b.Length
    modifies b
    ensures b[..off + |s|] == old(b[..off]) + s
    ensures forall k :: off + |s| <= k < b.Length ==> b[k] == old(b[k])
  {
    for i := 0 to |s|
      invariant b[off..off + i] == s[..i] && b[..off] == old(b[..off])
      invariant forall k :: off + i <= k < b.Length ==> b[k] == old(b[k])
    {
      b[off + i] := s[i];
      assert b[off..off + i + 1] == b[off..off + i] + [s[i]];
    }
    assert b[..off + |s|] == b[..off] + b[off..off + |s|];
  }
}
