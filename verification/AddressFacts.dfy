/** What the parts of an address's text are, and what the inventory reads back from them. */
module AddressFacts {
  import opened Options
  import opened Bytes
  import opened Text
  import opened Decimals
  import opened Addresses
  import opened AssetStores

  function Ipv4Parts(bytes: seq<Byte>, offset: nat): seq<string>
    requires offset + 4 <= |bytes|
  {
    seq(4, i requires 0 <= i < 4 => PrintNat(bytes[offset + i]))
  }

  /** Between the dots stand the four bytes, in the order of the wire. */
  lemma Ipv4TextIsRead(bytes: seq<Byte>, offset: nat)
    requires offset + 4 <= |bytes|
    ensures Pieces(FormatIpv4Address(bytes, offset), '.') == Ipv4Parts(bytes, offset)
  {
    NoDots();
    var p := Ipv4Parts(bytes, offset);
    JoinFour(p[0], p[1], p[2], p[3], '.');
    assert p == [p[0], p[1], p[2], p[3]];
    JoinedPieces(p, '.');
  }

  lemma JoinFour(a: string, b: string, c: string, d: string, sep: char)
    ensures Join([a, b, c, d], sep) == a + [sep] + (b + [sep] + (c + [sep] + d))
  {
    JoinCons(c, [d], sep);
    JoinCons(b, [c, d], sep);
    JoinCons(a, [b, c, d], sep);
    assert [c] + [d] == [c, d] && [b] + [c, d] == [b, c, d] && [a] + [b, c, d] == [a, b, c, d];
  }

  function MacParts(bytes: seq<Byte>, offset: nat): seq<string>
    requires offset + 6 <= |bytes|
  {
    seq(6, i requires 0 <= i < 6 => Pair(bytes[offset + i]))
  }

  lemma {:induction false} JoinedPairs(parts: seq<string>, sep: char, k: nat)
    requires (forall i :: 0 <= i < |parts| ==> |parts[i]| == 2) && k < |parts|
    ensures |Join(parts, sep)| == 3 * |parts| - 1
    ensures Join(parts, sep)[3 * k] == parts[k][0] && Join(parts, sep)[3 * k + 1] == parts[k][1]
    ensures k + 1 < |parts| ==> Join(parts, sep)[3 * k + 2] == sep
    decreases |parts|
  {
    if |parts| > 1 {
      JoinedPairs(parts[1..], sep, if k == 0 then 0 else k - 1);
    }
  }

  lemma MacIsJoined(bytes: seq<Byte>, offset: nat)
    requires offset + 6 <= |bytes|
    ensures FormatMacAddress(bytes, offset) == Join(MacParts(bytes, offset), ':')
  {
    var p, b := MacParts(bytes, offset), bytes[offset..offset + 6];
    var mac, text := FormatMacAddress(bytes, offset), Join(p, ':');
    forall k | 0 <= k < 6 ensures p[k] == [High(b[k]), Low(b[k])] {
      assert p[k] == Pair(bytes[offset + k]);
    }
    forall k: nat | k < 6
      ensures |text| == 17 && text[3 * k] == High(b[k]) && text[3 * k + 1] == Low(b[k])
      ensures k < 5 ==> text[3 * k + 2] == ':'
    {
      JoinedPairs(p, ':', k);
    }
    assert text[3 * 0] == mac[0] && text[3 * 1] == mac[3] && text[3 * 2] == mac[6];
    assert text[3 * 3] == mac[9] && text[3 * 4] == mac[12] && text[3 * 5] == mac[15];
    assert |mac| == 17;
  }

  /** Between the colons stand the six bytes as two digits each, in the order of the wire. */
  lemma MacTextIsRead(bytes: seq<Byte>, offset: nat)
    requires offset + 6 <= |bytes|
    ensures Pieces(FormatMacAddress(bytes, offset), ':') == MacParts(bytes, offset)
  {
    MacIsJoined(bytes, offset);
    var p := MacParts(bytes, offset);
    forall i | 0 <= i < 6 ensures p[i] != "" && ':' !in p[i] {
      assert p[i] == Pair(bytes[offset + i]);
    }
    JoinedPieces(MacParts(bytes, offset), ':');
  }

  lemma HexCharIsRead(d: nat)
    requires d < 16
    ensures HexDigit(HexChar(d)) == Some(d) && LowerChar(HexChar(d)) == HexChar(d)
  {
  }

  /** The character is a hexadecimal digit in either case. */
  predicate Hex(c: char, d: nat) {
    d < 16 && LowerChar(c) == HexChar(d)
  }

  lemma HexDigitIsExact(c: char, d: nat)
    ensures HexDigit(c) == Some(d) <==> Hex(c, d)
  {
  }

  predicate Skipped(c: char) {
    c == '+' || c == ' ' || 9 <= c as int <= 13
  }

  /** Two characters are read as a byte when both are digits; when the first one is blank or a
      plus sign and the second a digit; when the second one is no digit, but for `0x`; and as
      minus zero. */
  lemma HexByteIsExact(v: string, n: nat)
    ensures ParseHexByte(v) == Some(n) <==>
              |v| == 2
              && (|| (exists h: nat, l: nat :: Hex(v[0], h) && Hex(v[1], l) && n == 16 * h + l)
                  || (Skipped(v[0]) && Hex(v[1], n))
                  || (v == "-0" && n == 0)
                  || (Hex(v[0], n) && (forall l: nat :: !Hex(v[1], l)) && v != "0x" && v != "0X"))
  {
    if |v| == 2 {
      var high, low := HexDigit(v[0]), HexDigit(v[1]);
      forall d: nat ensures high == Some(d) <==> Hex(v[0], d) {
        HexDigitIsExact(v[0], d);
      }
      forall d: nat ensures low == Some(d) <==> Hex(v[1], d) {
        HexDigitIsExact(v[1], d);
      }
    }
  }

  lemma PairIsRead(b: Byte)
    ensures ParseHexByte(Pair(b)) == Some(b as nat)
  {
    HexCharIsRead(b / 16);
    HexCharIsRead(b % 16);
  }

  lemma DecodedMacIsLower(bytes: seq<Byte>, offset: nat)
    requires offset + 6 <= |bytes|
    ensures Lower(FormatMacAddress(bytes, offset)) == FormatMacAddress(bytes, offset)
  {
    forall d: nat | d < 16 ensures LowerChar(HexChar(d)) == HexChar(d) {
      HexCharIsRead(d);
    }
  }

  /** The text begins with three parts, which make up `p`. */
  ghost predicate BeginsWithThree(mac: string, p: string, a: string, b: string, c: string, more: string) {
    && ':' !in a && ':' !in b && ':' !in c && p == a + ":" + b + ":" + c
    && ((mac == p && c != "") || mac == p + ":" + more)
  }

  /** A part and what is behind it. */
  ghost predicate Behind(s: string, part: string, rest: Option<string>) {
    && ':' !in part
    && match rest
       case Some(r) => s == part + ":" + r
       case None => s == part && part != ""
  }

  lemma BehindIsSplit(s: string, part: string, rest: Option<string>)
    requires Behind(s, part, rest)
    ensures Pieces(s, ':') == [part] + if rest.Some? then Pieces(rest.value, ':') else []
  {
    if rest.Some? {
      SplitOnce(part, rest.value, ':');
    } else {
      LastPiece(part, ':');
    }
  }

  lemma SplitIsBehind(s: string) returns (part: string, rest: Option<string>)
    requires Pieces(s, ':') != []
    ensures Behind(s, part, rest)
  {
    var i := IndexOf(s, ':');
    part := s[..i];
    if i < |s| {
      rest := Some(s[i + 1..]);
      assert s == s[..i] + ":" + s[i + 1..];
    } else {
      rest := None;
      assert s[..i] == s;
    }
  }

  lemma ThreeInARow(a: string, b: string, t: string, c: string, more: string)
    ensures t == c ==> a + ":" + (b + ":" + t) == a + ":" + b + ":" + c
    ensures t == c + ":" + more ==> a + ":" + (b + ":" + t) == a + ":" + b + ":" + c + ":" + more
  {
  }

  lemma ThreePieces(mac: string, p: string, a: string, b: string, c: string, more: string)
    requires BeginsWithThree(mac, p, a, b, c, more)
    ensures MacOui(mac) == Some(p)
  {
    var last := mac == p && c != "";
    var t := if last then c else c + ":" + more;
    ThreeInARow(a, b, t, c, more);
    BehindIsSplit(t, c, if last then None else Some(more));
    BehindIsSplit(b + ":" + t, b, Some(t));
    BehindIsSplit(mac, a, Some(b + ":" + t));
  }

  lemma PiecesAreThree(mac: string, p: string) returns (a: string, b: string, c: string, more: string)
    requires MacOui(mac) == Some(p)
    ensures BeginsWithThree(mac, p, a, b, c, more)
  {
    var s, t, u;
    a, s := SplitIsBehind(mac);
    BehindIsSplit(mac, a, s);
    b, t := SplitIsBehind(s.value);
    BehindIsSplit(s.value, b, t);
    c, u := SplitIsBehind(t.value);
    BehindIsSplit(t.value, c, u);
    more := if u.Some? then u.value else "";
    ThreeInARow(a, b, t.value, c, more);
  }

  /** A prefix is found in exactly the texts that begin with three parts between colons, the third
      one ended by a colon or being the end of the text. */
  lemma OuiIsExact(mac: string, p: string)
    ensures MacOui(mac) == Some(p) <==> exists a, b, c, more :: BeginsWithThree(mac, p, a, b, c, more)
  {
    if MacOui(mac) == Some(p) {
      var a, b, c, more := PiecesAreThree(mac, p);
    }
    forall a, b, c, more | BeginsWithThree(mac, p, a, b, c, more) ensures MacOui(mac) == Some(p) {
      ThreePieces(mac, p, a, b, c, more);
    }
  }

  /** Of a MAC address that a decoder printed the inventory finds back the first byte, whose
      low bits say multicast and locally administered, and the three bytes of its prefix; and
      folding its case changes nothing, so different addresses are different assets. */
  lemma DecodedMacIsUnderstood(bytes: seq<Byte>, offset: nat)
    requires offset + 6 <= |bytes|
    ensures var mac := FormatMacAddress(bytes, offset);
            && Lower(mac) == mac
            && Pieces(mac, ':') != [] && ParseHexByte(Pieces(mac, ':')[0]) == Some(bytes[offset] as nat)
            && MacOui(mac) == Some(Pair(bytes[offset]) + ":" + Pair(bytes[offset + 1]) + ":" + Pair(bytes[offset + 2]))
  {
    MacTextIsRead(bytes, offset);
    PairIsRead(bytes[offset]);
    DecodedMacIsLower(bytes, offset);
  }
}
