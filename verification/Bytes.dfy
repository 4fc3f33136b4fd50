/** Bytes and big-endian numbers. */
module Bytes {
  type Byte = b: int | 0 <= b < 256

  /** Bytes as the source's `std::string`. */
  function AsText(bytes: seq<Byte>): string {
    seq(|bytes|, i requires 0 <= i < |bytes| => bytes[i] as char)
  }

  function UInt16At(bytes: seq<Byte>, offset: nat): (n: nat)
    requires offset + 2 <= |bytes|
    ensures n < 0x1_0000
  {
    bytes[offset] as int * 256 + bytes[offset + 1] as int
  }

  function UInt16Bytes(n: nat): (bytes: seq<Byte>)
    requires n < 0x1_0000
    ensures |bytes| == 2 && bytes[0] as int * 256 + bytes[1] as int == n
  {
    [n / 256, n % 256]
  }

  function UInt32At(bytes: seq<Byte>, offset: nat): (n: nat)
    requires offset + 4 <= |bytes|
    ensures n < 0x1_0000_0000
    ensures n == ((bytes[offset] as int * 256 + bytes[offset + 1]) * 256 + bytes[offset + 2]) * 256 + bytes[offset + 3]
  {
    UInt16At(bytes, offset) * 0x1_0000 + UInt16At(bytes, offset + 2)
  }

  /** Do the bytes at an offset spell this? */
  predicate At(bytes: seq<Byte>, offset: nat, part: seq<Byte>) {
    offset + |part| <= |bytes| && bytes[offset..offset + |part|] == part
  }

  lemma AtParts(bytes: seq<Byte>, offset: nat, a: seq<Byte>, b: seq<Byte>)
    requires At(bytes, offset, a + b)
    ensures At(bytes, offset, a) && At(bytes, offset + |a|, b)
  {
    var whole := bytes[offset..offset + |a + b|];
    assert whole[..|a|] == a && whole[|a|..] == b;
    assert bytes[offset..offset + |a|] == whole[..|a|];
    assert bytes[offset + |a|..offset + |a| + |b|] == whole[|a|..];
  }

  lemma SliceOfSlice(bytes: seq<Byte>, from: nat, to: nat, i: nat, j: nat)
    requires from <= to <= |bytes| && i <= j <= to - from
    ensures bytes[from..to][i..j] == bytes[from + i..from + j]
  {
    var part, same := bytes[from..to][i..j], bytes[from + i..from + j];
    forall k | 0 <= k < j - i ensures part[k] == same[k] {
      assert part[k] == bytes[from..to][i + k] == bytes[from + i + k];
    }
    assert |part| == |same|;
  }
}
