/** Bytes, fixed-width unsigned integers in little-endian order, and the FNV-1a checksum. */
module Bytes {

  type Byte = b: int | 0 <= b < 256
  type U16 = n: int | 0 <= n < 0x1_0000
  type U32 = n: int | 0 <= n < 0x1_0000_0000
  type U64 = n: int | 0 <= n < 0x1_0000_0000_0000_0000

  function Wrap32(n: int): U32 {
    n % 0x1_0000_0000
  }

  function BytesU16(n: U16): (s: seq<Byte>)
    ensures |s| == 2
  {
    [n % 256, n / 256]
  }

  function BytesU32(n: U32): (s: seq<Byte>)
    ensures |s| == 4
  {
    BytesU16(n % 0x1_0000) + BytesU16(n / 0x1_0000)
  }

  function BytesU64(n: U64): (s: seq<Byte>)
    ensures |s| == 8
  {
    BytesU32(n % 0x1_0000_0000) + BytesU32(n / 0x1_0000_0000)
  }

  function ReadU16(s: seq<Byte>): U16
    requires |s| >= 2
  {
    var low: int, high: int := s[0], s[1];
    low + high * 256
  }

  function ReadU32(s: seq<Byte>): U32
    requires |s| >= 4
  {
    ReadU16(s) + ReadU16(s[2..]) * 0x1_0000
  }

  function ReadU64(s: seq<Byte>): U64
    requires |s| >= 8
  {
    ReadU32(s) + ReadU32(s[4..]) * 0x1_0000_0000
  }

  lemma ReadBytesU16(n: U16, rest: seq<Byte>)
    ensures ReadU16(BytesU16(n) + rest) == n
  {
  }

  lemma ReadBytesU32(n: U32, rest: seq<Byte>)
    ensures ReadU32(BytesU32(n) + rest) == n
  {
    var low, high := BytesU16(n % 0x1_0000), BytesU16(n / 0x1_0000);
    assert BytesU32(n) + rest == low + (high + rest);
    assert (low + (high + rest))[2..] == high + rest;
    ReadBytesU16(n % 0x1_0000, high + rest);
    ReadBytesU16(n / 0x1_0000, rest);
  }

  lemma ReadBytesU64(n: U64, rest: seq<Byte>)
    ensures ReadU64(BytesU64(n) + rest) == n
  {
    var low, high := BytesU32(n % 0x1_0000_0000), BytesU32(n / 0x1_0000_0000);
    assert BytesU64(n) + rest == low + (high + rest);
    assert (low + (high + rest))[4..] == high + rest;
    ReadBytesU32(n % 0x1_0000_0000, high + rest);
    ReadBytesU32(n / 0x1_0000_0000, rest);
  }

  // Writing what was read.
  lemma BytesReadU32(s: seq<Byte>)
    requires |s| == 4
    ensures BytesU32(ReadU32(s)) == s
  {
    var low, high := ReadU16(s), ReadU16(s[2..]);
    assert BytesU16(low) == s[..2] && BytesU16(high) == s[2..];
    assert s[..2] + s[2..] == s;
    assert ReadU32(s) % 0x1_0000 == low && ReadU32(s) / 0x1_0000 == high;
  }

  function Zeros(n: nat): (s: seq<Byte>)
    ensures |s| == n && forall i | 0 <= i < n :: s[i] == 0
  {
    seq(n, _ => 0)
  }

  predicate AllZero(s: seq<Byte>) {
    forall i | 0 <= i < |s| :: s[i] == 0
  }

  function XorByte(a: Byte, b: Byte): Byte {
    ((a as bv8) ^ (b as bv8)) as int
  }

  // One step of FNV-1a: mix a byte into the low bits, then multiply.
  function FnvStep(hash: U32, b: Byte): U32 {
    Wrap32((hash - hash % 256 + XorByte(hash % 256, b)) * 16777619)
  }

  function Fnv1a(data: seq<Byte>): U32 {
    if data == [] then 2166136261 else FnvStep(Fnv1a(data[..|data| - 1]), data[|data| - 1])
  }

  method Checksum(data: array<Byte>, size: nat) returns (hash: U32)
    requires size <= data.Length
    ensures hash == Fnv1a(data[..size])
  {
    hash := 2166136261;
    for index := 0 to size
      invariant hash == Fnv1a(data[..index])
    {
      hash := FnvStep(hash, data[index]);
      assert data[..index + 1][..index] == data[..index];
    }
  }

  lemma SliceCut<T>(s: seq<T>, i: nat, j: nat, n: nat)
    requires i <= j <= |s| && i + n <= j
    ensures s[i..j][..n] == s[i..i + n] && s[i..j][n..] == s[i + n..j]
  {
  }

  // Whether `part` is in `data` at `offset`.
  predicate HasAt(data: seq<Byte>, offset: nat, part: seq<Byte>) {
    offset + |part| <= |data| && data[offset..offset + |part|] == part
  }

  lemma HasAtSplit(data: seq<Byte>, offset: nat, x: seq<Byte>, y: seq<Byte>)
    requires HasAt(data, offset, x + y)
    ensures HasAt(data, offset, x) && HasAt(data, offset + |x|, y)
  {
    var z := data[offset..offset + |x + y|];
    assert z[..|x|] == x && z[|x|..] == y;
    assert data[offset..offset + |x|] == z[..|x|];
    assert data[offset + |x|..offset + |x| + |y|] == z[|x|..];
  }

  lemma HasAtU16(data: seq<Byte>, offset: nat, n: U16)
    requires HasAt(data, offset, BytesU16(n))
    ensures ReadU16(data[offset..]) == n
  {
    assert data[offset..] == BytesU16(n) + data[offset + 2..];
  }

  lemma HasAtU32(data: seq<Byte>, offset: nat, n: U32)
    requires HasAt(data, offset, BytesU32(n))
    ensures ReadU32(data[offset..]) == n
  {
    assert data[offset..] == BytesU32(n) + data[offset + 4..];
    ReadBytesU32(n, data[offset + 4..]);
  }

  lemma HasAtU64(data: seq<Byte>, offset: nat, n: U64)
    requires HasAt(data, offset, BytesU64(n))
    ensures ReadU64(data[offset..]) == n
  {
    assert data[offset..] == BytesU64(n) + data[offset + 8..];
    ReadBytesU64(n, data[offset + 8..]);
  }

  lemma ReadU32At(data: seq<Byte>, offset: nat)
    requires offset + 4 <= |data|
    ensures BytesU32(ReadU32(data[offset..])) == data[offset..offset + 4]
  {
    var four := data[offset..offset + 4];
    assert data[offset..] == four + data[offset + 4..];
    ReadU32Extends(four, data[offset + 4..]);
    BytesReadU32(four);
  }

  lemma ReadU32Extends(four: seq<Byte>, rest: seq<Byte>)
    requires |four| == 4
    ensures ReadU32(four + rest) == ReadU32(four)
  {
    assert (four + rest)[2..][0] == four[2] && (four + rest)[2..][1] == four[3];
    assert four[2..][0] == four[2] && four[2..][1] == four[3];
  }

  lemma SliceParts<T>(s: seq<T>, i: nat)
    requires i <= |s|
    ensures s == s[..i] + s[i..]
  {
  }

  // Copy bytes to an offset of the buffer and move on.
  method Put(blob: array<Byte>, offset: nat, bytes: seq<Byte>) returns (next: nat)
    requires offset + |bytes| <= blob.Length
    modifies blob
    ensures next == offset + |bytes|
    ensures blob[..next] == old(blob[..offset]) + bytes
    ensures forall i | next <= i < blob.Length :: blob[i] == old(blob[i])
  {
    for i := 0 to |bytes|
      invariant blob[..offset] == old(blob[..offset]) && blob[offset..offset + i] == bytes[..i]
      invariant forall j | offset + i <= j < blob.Length :: blob[j] == old(blob[j])
    {
      blob[offset + i] := bytes[i];
      assert blob[offset..offset + (i + 1)] == blob[offset..offset + i] + [bytes[i]];
    }
    assert bytes[..|bytes|] == bytes;
    next := offset + |bytes|;
    SliceParts(blob[..next], offset);
    assert blob[..next][..offset] == blob[..offset] && blob[..next][offset..] == blob[offset..next];
  }

  method Fill(blob: array<Byte>)
    modifies blob
    ensures blob[..] == Zeros(blob.Length)
  {
    for i := 0 to blob.Length
      invariant forall j | 0 <= j < i :: blob[j] == 0
    {
      blob[i] := 0;
    }
  }
}
