/** Lower-case hexadecimal text: bytesToHex and hexToBytes of OpenSslCrypto.cpp. */
module Hex {
  import opened Wrappers

  predicate IsLowerHex(c: char) { '0' <= c <= '9' || 'a' <= c <= 'f' }

  function HexChar(n: int): (c: char)
    requires 0 <= n < 16
    ensures IsLowerHex(c)
  {
    if n < 10 then ('0' as int + n) as char else ('a' as int + n - 10) as char
  }

  /** The value of a hexadecimal digit of either case. */
  function HexValue(c: char): (v: Option<int>)
    ensures v.Some? ==> 0 <= v.value < 16
  {
    if '0' <= c <= '9' then Some(c as int - '0' as int)
    else if 'a' <= c <= 'f' then Some(c as int - 'a' as int + 10)
    else if 'A' <= c <= 'F' then Some(c as int - 'A' as int + 10)
    else None
  }

  lemma HexDigitReadsBack(n: int)
    requires 0 <= n < 16
    ensures HexValue(HexChar(n)) == Some(n)
  {
  }

  lemma LowerDigitPrintsBack(c: char)
    ensures HexValue(c).Some? && HexChar(HexValue(c).value) == c <==> IsLowerHex(c)
  {
  }

  /** `setw(2)`, `setfill('0')` and `hex`. */
  function HexByte(b: byte): (s: string)
    ensures |s| == 2 && IsLowerHex(s[0]) && IsLowerHex(s[1])
  {
    [HexChar(b as int / 16), HexChar(b as int % 16)]
  }

  function HexText(bytes: seq<byte>): (s: string)
    ensures |s| == 2 * |bytes|
  {
    if bytes == [] then "" else HexByte(bytes[0]) + HexText(bytes[1..])
  }

  predicate IsSpace(c: char) { c == ' ' || 9 <= c as int <= 13 }

  /** `strtoul` in base 16 on two characters, cut to a byte: blanks, a sign, then the digits there are. */
  function ReadPair(c0: char, c1: char): byte {
    var a, b := HexValue(c0), HexValue(c1);
    if a.Some? && b.Some? then a.value * 16 + b.value
    else if a.Some? then a.value
    else if b.None? then 0
    else if IsSpace(c0) || c0 == '+' then b.value
    else if c0 == '-' && b.value > 0 then 256 - b.value
    else 0
  }

  /** Every pair: two digits, one digit first, or one digit last behind a blank or a sign; anything else is 0. */
  lemma PairReads(c0: char, c1: char)
    ensures HexValue(c0).Some? && HexValue(c1).Some? ==>
              ReadPair(c0, c1) == HexValue(c0).value * 16 + HexValue(c1).value
    ensures HexValue(c0).Some? && HexValue(c1).None? ==> ReadPair(c0, c1) == HexValue(c0).value
    ensures HexValue(c1).Some? && c0 in " \t\n\r+" ==> ReadPair(c0, c1) == HexValue(c1).value
    ensures HexValue(c1).Some? && c0 == '-' ==> ReadPair(c0, c1) == (256 - HexValue(c1).value) % 256
    ensures HexValue(c0).None? && (HexValue(c1).None? || (!IsSpace(c0) && c0 !in "+-")) ==> ReadPair(c0, c1) == 0
  {
  }

  /** The digits of either case have the values 0 to 15. */
  lemma DigitValues(c: char, k: nat)
    ensures k < 16 && (c == "0123456789abcdef"[k] || c == "0123456789ABCDEF"[k]) ==> HexValue(c) == Some(k)
    ensures HexValue(c).Some? ==>
              c == "0123456789abcdef"[HexValue(c).value] || c == "0123456789ABCDEF"[HexValue(c).value]
  {
  }

  function BytesOf(hex: string): seq<byte>
    requires |hex| % 2 == 0
  {
    if hex == "" then [] else [ReadPair(hex[0], hex[1])] + BytesOf(hex[2..])
  }

  /** An odd number of characters reads as nothing. */
  function ReadHex(hex: string): seq<byte> {
    if |hex| % 2 != 0 then [] else BytesOf(hex)
  }

  lemma {:induction false} HexMore(bytes: seq<byte>, b: byte)
    ensures HexText(bytes + [b]) == HexText(bytes) + HexByte(b)
    decreases |bytes|
  {
    if bytes == [] {
      assert [b][1..] == [];
      assert HexText([b]) == HexByte(b) + "";
    } else {
      HexMore(bytes[1..], b);
      assert (bytes + [b])[1..] == bytes[1..] + [b];
    }
  }

  method BytesToHex(data: seq<byte>) returns (s: string)
    ensures s == HexText(data)
  {
    s := "";
    for i := 0 to |data|
      invariant s == HexText(data[..i])
    {
      HexMore(data[..i], data[i]);
      assert data[..i + 1] == data[..i] + [data[i]];
      s := s + HexByte(data[i]);
    }
    assert data[..|data|] == data;
  }

  method HexToBytes(hex: string) returns (bytes: seq<byte>)
    ensures bytes == ReadHex(hex)
  {
    bytes := [];
    if |hex| % 2 != 0 { return; }
    var i := 0;
    while i < |hex|
      invariant 0 <= i <= |hex| && i % 2 == 0
      invariant bytes + BytesOf(hex[i..]) == BytesOf(hex)
    {
      assert hex[i..][2..] == hex[i + 2..];
      bytes := bytes + [ReadPair(hex[i], hex[i + 1])];
      i := i + 2;
    }
    assert hex[i..] == "";
  }

  lemma PairReadsBack(b: byte)
    ensures ReadPair(HexByte(b)[0], HexByte(b)[1]) == b
  {
    HexDigitReadsBack(b as int / 16);
    HexDigitReadsBack(b as int % 16);
  }

  lemma {:induction false} HexReadsBack(bytes: seq<byte>)
    ensures ReadHex(HexText(bytes)) == bytes
    decreases |bytes|
  {
    if bytes != [] {
      var rest := HexText(bytes[1..]);
      HexReadsBack(bytes[1..]);
      PairReadsBack(bytes[0]);
      assert HexText(bytes)[2..] == rest;
    }
  }

  predicate AllLowerHex(s: string) { forall i :: 0 <= i < |s| ==> IsLowerHex(s[i]) }

  lemma PairPrintsBack(c0: char, c1: char)
    ensures HexByte(ReadPair(c0, c1)) == [c0, c1] <==> IsLowerHex(c0) && IsLowerHex(c1)
  {
    if IsLowerHex(c0) && IsLowerHex(c1) {
      LowerDigitPrintsBack(c0);
      LowerDigitPrintsBack(c1);
    }
  }

  /** Reading is exact on what bytesToHex prints and on nothing else. */
  lemma {:induction false} PrintsBackExactlyWhenLower(hex: string)
    ensures HexText(ReadHex(hex)) == hex <==> |hex| % 2 == 0 && AllLowerHex(hex)
    decreases |hex|
  {
    if hex != "" && |hex| % 2 == 0 {
      var pair, rest := hex[..2], hex[2..];
      PairPrintsBack(hex[0], hex[1]);
      PrintsBackExactlyWhenLower(rest);
      var bytes := ReadHex(hex);
      assert bytes[1..] == ReadHex(rest);
      assert hex == [hex[0], hex[1]] + rest;
      assert HexText(bytes) == HexByte(bytes[0]) + HexText(bytes[1..]);
      assert HexText(bytes)[..2] == HexByte(bytes[0]) && HexText(bytes)[2..] == HexText(bytes[1..]);
      assert AllLowerHex(hex) <==> IsLowerHex(hex[0]) && IsLowerHex(hex[1]) && AllLowerHex(rest) by {
        assert forall i :: 0 <= i < |rest| ==> rest[i] == hex[i + 2];
        assert forall i :: 2 <= i < |hex| ==> hex[i] == rest[i - 2];
      }
    }
  }
}
