/** Addresses as text: dotted decimal for IPv4, colon-separated hexadecimal for MAC. */
module Addresses {
  import opened Bytes
  import opened Decimals
  import opened Text

  /** The four bytes from an offset, in decimal with dots between them. */
  function FormatIpv4Address(bytes: seq<Byte>, offset: nat): string
    requires offset + 4 <= |bytes|
  {
    PrintNat(bytes[offset]) + "." + (PrintNat(bytes[offset + 1]) + "."
    + (PrintNat(bytes[offset + 2]) + "." + PrintNat(bytes[offset + 3])))
  }

  lemma SameBeforeSeparator(a: string, x: string, b: string, y: string, sep: char)
    requires a + [sep] + x == b + [sep] + y && sep !in a && sep !in b
    ensures a == b && x == y
  {
    var s := a + [sep] + x;
    assert s == b + [sep] + y;
    assert forall i :: 0 <= i < |a| ==> s[i] == a[i] && s[i] != sep;
    assert forall i :: 0 <= i < |b| ==> s[i] == b[i] && s[i] != sep;
    assert s[|a|] == sep && s[|b|] == sep;
    assert a == s[..|a|] && b == s[..|b|] && x == s[|a| + 1..] && y == s[|b| + 1..];
  }

  lemma NoDots()
    ensures forall n: nat :: '.' !in PrintNat(n)
  {
  }

  /** Different addresses have different texts. */
  lemma Ipv4TextIsInjective(a: seq<Byte>, i: nat, b: seq<Byte>, j: nat)
    requires i + 4 <= |a| && j + 4 <= |b| && FormatIpv4Address(a, i) == FormatIpv4Address(b, j)
    ensures a[i..i + 4] == b[j..j + 4]
  {
    var a2, b2 := PrintNat(a[i + 2]) + "." + PrintNat(a[i + 3]), PrintNat(b[j + 2]) + "." + PrintNat(b[j + 3]);
    var a1, b1 := PrintNat(a[i + 1]) + "." + a2, PrintNat(b[j + 1]) + "." + b2;
    NoDots();
    SameBeforeSeparator(PrintNat(a[i]), a1, PrintNat(b[j]), b1, '.');
    SameBeforeSeparator(PrintNat(a[i + 1]), a2, PrintNat(b[j + 1]), b2, '.');
    SameBeforeSeparator(PrintNat(a[i + 2]), PrintNat(a[i + 3]), PrintNat(b[j + 2]), PrintNat(b[j + 3]), '.');
    PrintNatInjective(a[i], b[j]);
    PrintNatInjective(a[i + 1], b[j + 1]);
    PrintNatInjective(a[i + 2], b[j + 2]);
    PrintNatInjective(a[i + 3], b[j + 3]);
    FourBytes(a, i);
    FourBytes(b, j);
  }

  lemma FourBytes(bytes: seq<Byte>, i: nat)
    requires i + 4 <= |bytes|
    ensures bytes[i..i + 4] == [bytes[i], bytes[i + 1], bytes[i + 2], bytes[i + 3]]
  {
  }

  function HexChar(d: nat): (c: char)
    requires d < 16
    ensures c != ':'
  {
    if d < 10 then ('0' as int + d) as char else ('a' as int + d - 10) as char
  }

  function High(b: Byte): char {
    HexChar(b / 16)
  }

  function Low(b: Byte): char {
    HexChar(b % 16)
  }

  function Pair(b: Byte): string {
    [High(b), Low(b)]
  }

  /** Any number of bytes in hexadecimal. */
  function FormatHexBytes(bytes: seq<Byte>): string {
    Join(seq(|bytes|, i requires 0 <= i < |bytes| => Pair(bytes[i])), ':')
  }

  /** The six bytes from an offset, two hexadecimal digits each with colons between them. */
  function FormatMacAddress(bytes: seq<Byte>, offset: nat): string
    requires offset + 6 <= |bytes|
  {
    var b := bytes[offset..offset + 6];
    [High(b[0]), Low(b[0]), ':', High(b[1]), Low(b[1]), ':', High(b[2]), Low(b[2]), ':',
     High(b[3]), Low(b[3]), ':', High(b[4]), Low(b[4]), ':', High(b[5]), Low(b[5])]
  }

  lemma HexPairInjective(a: Byte, b: Byte)
    requires High(a) == High(b) && Low(a) == Low(b)
    ensures a == b
  {
    assert a / 16 == b / 16 && a % 16 == b % 16;
  }

  lemma MacTextIsInjective(a: seq<Byte>, i: nat, b: seq<Byte>, j: nat)
    requires i + 6 <= |a| && j + 6 <= |b| && FormatMacAddress(a, i) == FormatMacAddress(b, j)
    ensures a[i..i + 6] == b[j..j + 6]
  {
    var x, y := a[i..i + 6], b[j..j + 6];
    var s, t := FormatMacAddress(a, i), FormatMacAddress(b, j);
    forall k | 0 <= k < 6 ensures x[k] == y[k] {
      assert s[3 * k] == High(x[k]) && t[3 * k] == High(y[k]);
      assert s[3 * k + 1] == Low(x[k]) && t[3 * k + 1] == Low(y[k]);
      HexPairInjective(x[k], y[k]);
    }
  }
}
