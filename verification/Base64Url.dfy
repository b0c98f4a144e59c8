/**
 Base64url as written in OpenSslCrypto.cpp, proved against the 24-bit groups of
 section 4 of RFC 4648 under the URL-safe alphabet of its section 5.
 Shifts and masks of the 32-bit words are written as multiplication, division and
 remainder by powers of two; the decoder's accumulator wraps at 2^32.
 */
module Base64Url {
  import opened Wrappers

  const WORD: int := 0x1_0000_0000

  type digit = d: int | 0 <= d < 64

  predicate IsUrlSafe(c: char) {
    'A' <= c <= 'Z' || 'a' <= c <= 'z' || '0' <= c <= '9' || c == '-' || c == '_'
  }

  /** The source's `decodeChar`: -1 for an invalid character, -2 for padding. */
  function DecodeChar(c: char): (d: int)
    ensures -2 <= d < 64
  {
    if 'A' <= c <= 'Z' then c as int - 'A' as int
    else if 'a' <= c <= 'z' then c as int - 'a' as int + 26
    else if '0' <= c <= '9' then c as int - '0' as int + 52
    else if c == '-' || c == '+' then 62
    else if c == '_' || c == '/' then 63
    else if c == '=' then -2
    else -1
  }

  /** The source's table `b64Chars`: A to Z, a to z, 0 to 9, '-' and '_', in this order. */
  function EncodeDigit(d: digit): char {
    if d < 26 then ('A' as int + d) as char
    else if d < 52 then ('a' as int + d - 26) as char
    else if d < 62 then ('0' as int + d - 52) as char
    else if d == 62 then '-' else '_'
  }

  /** The decoder inverts the table, and the table lists every URL-safe character. */
  lemma AlphabetIsInverse(d: digit, c: char)
    ensures IsUrlSafe(EncodeDigit(d)) && DecodeChar(EncodeDigit(d)) == d
    ensures IsUrlSafe(c) ==> DecodeChar(c) >= 0 && EncodeDigit(DecodeChar(c)) == c
  {
  }

  function Letters(): string { "ABCDEFGHIJKLMNOPQRSTUVWXYZ" }

  function SmallLetters(): string { "abcdefghijklmnopqrstuvwxyz" }

  function Others(): string { "0123456789-_" }

  lemma LetterAt(k: nat)
    requires k < 26
    ensures |Letters()| == |SmallLetters()| == 26
    ensures Letters()[k] == EncodeDigit(k) && SmallLetters()[k] == EncodeDigit(26 + k)
  {
  }

  lemma OtherAt(k: nat)
    requires k < 12
    ensures |Others()| == 12 && Others()[k] == EncodeDigit(52 + k)
  {
  }

  /** The table itself, in order. */
  lemma AlphabetInOrder(d: digit)
    ensures |Letters() + SmallLetters() + Others()| == 64
    ensures EncodeDigit(d) == (Letters() + SmallLetters() + Others())[d]
  {
    hide Letters, SmallLetters, Others, EncodeDigit;
    LetterAt(if d < 26 then d else if d < 52 then d - 26 else 0);
    OtherAt(if d < 52 then 0 else d - 52);
  }

  /** The decoder also takes the two characters of the other alphabet, and nothing else but padding. */
  lemma DecoderTakes(c: char)
    ensures DecodeChar('+') == 62 && DecodeChar('/') == 63 && DecodeChar('=') == -2
    ensures !IsUrlSafe(c) && c !in {'+', '/', '='} ==> DecodeChar(c) == -1
  {
  }

  /** Quotient and remainder are determined by the division equation. */
  lemma Quotient(a: int, b: int, q: int, r: int)
    requires b > 0 && a == q * b + r && 0 <= r < b
    ensures a / b == q && a % b == r
  {
    var p := a / b - q;
    assert p * b == r - a % b;
    assert p > 0 ==> p * b >= b;
    assert p < 0 ==> p * b <= -b;
  }

  // ----- The reference: 24-bit groups -----

  // The four 6-bit digits of three octets, and the three octets of four digits.
  function Digit0(b0: byte): digit { b0 / 4 }
  function Digit1(b0: byte, b1: byte): digit { b0 as int % 4 * 16 + b1 / 16 }
  function Digit2(b1: byte, b2: byte): digit { b1 as int % 16 * 4 + b2 / 64 }
  function Digit3(b2: byte): digit { b2 % 64 }
  function Byte0(d0: digit, d1: digit): byte { d0 as int * 4 + d1 / 16 }
  function Byte1(d1: digit, d2: digit): byte { d1 as int % 16 * 16 + d2 / 4 }
  function Byte2(d2: digit, d3: digit): byte { d2 as int % 4 * 64 + d3 as int }

  function GroupToDigits(b0: byte, b1: byte, b2: byte): (ds: seq<digit>)
    ensures |ds| == 4
  {
    [Digit0(b0), Digit1(b0, b1), Digit2(b1, b2), Digit3(b2)]
  }

  function GroupToBytes(d0: digit, d1: digit, d2: digit, d3: digit): (bs: seq<byte>)
    ensures |bs| == 3
  {
    [Byte0(d0, d1), Byte1(d1, d2), Byte2(d2, d3)]
  }

  /** A group and its digits are the same 24-bit number, in base 256 and in base 64. */
  lemma GroupIsOneNumber(b0: byte, b1: byte, b2: byte)
    ensures var ds := GroupToDigits(b0, b1, b2);
            ds[0] as int * 262144 + ds[1] as int * 4096 + ds[2] as int * 64 + ds[3] as int
            == b0 as int * 65536 + b1 as int * 256 + b2 as int
  {
    assert b0 as int == b0 / 4 * 4 + b0 % 4;
    assert b1 as int == b1 / 16 * 16 + b1 % 16;
    assert b2 as int == b2 / 64 * 64 + b2 % 64;
  }

  lemma JoinsFirst(b0: byte, b1: byte)
    ensures Byte0(Digit0(b0), Digit1(b0, b1)) == b0
  {
    Quotient(b0 as int % 4 * 16 + b1 / 16, 16, b0 % 4, b1 / 16);
  }

  lemma JoinsSecond(b0: byte, b1: byte, b2: byte)
    ensures Byte1(Digit1(b0, b1), Digit2(b1, b2)) == b1
  {
    Quotient(b0 as int % 4 * 16 + b1 / 16, 16, b0 % 4, b1 / 16);
    Quotient(b1 as int % 16 * 4 + b2 / 64, 4, b1 % 16, b2 / 64);
  }

  lemma JoinsThird(b1: byte, b2: byte)
    ensures Byte2(Digit2(b1, b2), Digit3(b2)) == b2
  {
    Quotient(b1 as int % 16 * 4 + b2 / 64, 4, b1 % 16, b2 / 64);
  }

  lemma SplitsFirst(d0: digit, d1: digit)
    ensures Digit0(Byte0(d0, d1)) == d0
  {
    Quotient(d0 as int * 4 + d1 / 16, 4, d0, d1 / 16);
  }

  lemma SplitsSecond(d0: digit, d1: digit, d2: digit)
    ensures Digit1(Byte0(d0, d1), Byte1(d1, d2)) == d1
  {
    Quotient(d0 as int * 4 + d1 / 16, 4, d0, d1 / 16);
    Quotient(d1 as int % 16 * 16 + d2 / 4, 16, d1 % 16, d2 / 4);
  }

  lemma SplitsThird(d1: digit, d2: digit, d3: digit)
    ensures Digit2(Byte1(d1, d2), Byte2(d2, d3)) == d2
  {
    Quotient(d1 as int % 16 * 16 + d2 / 4, 16, d1 % 16, d2 / 4);
    Quotient(d2 as int % 4 * 64 + d3 as int, 64, d2 % 4, d3);
  }

  lemma SplitsFourth(d2: digit, d3: digit)
    ensures Digit3(Byte2(d2, d3)) == d3
  {
    Quotient(d2 as int % 4 * 64 + d3 as int, 64, d2 % 4, d3);
  }

  /** The bits of a last digit that belong to no octet are zero. */
  predicate Spare4(d: digit) { d % 16 == 0 }
  predicate Spare2(d: digit) { d % 4 == 0 }

  /** Padding with zero octets sets no spare bit, and unused digits vanish. */
  lemma PaddedDigits(b: byte)
    ensures Spare4(Digit1(b, 0)) && Spare2(Digit2(b, 0)) && Digit2(0, 0) == 0 && Digit3(0) == 0
  {
    Quotient(b as int % 4 * 16, 16, b as int % 4, 0);
    Quotient(b as int % 16 * 4, 4, b as int % 16, 0);
  }

  lemma PaddedBytes(d: digit)
    ensures Spare4(d) ==> Byte1(d, 0) == 0
    ensures Spare2(d) ==> Byte2(d, 0) == 0
  {
  }

  /** A final group of one or two octets is padded with zero bits and cut short. */
  function Digits(data: seq<byte>): seq<digit> {
    if |data| == 0 then []
    else if |data| == 1 then GroupToDigits(data[0], 0, 0)[..2]
    else if |data| == 2 then GroupToDigits(data[0], data[1], 0)[..3]
    else GroupToDigits(data[0], data[1], data[2]) + Digits(data[3..])
  }

  function Bytes(ds: seq<digit>): seq<byte> {
    if |ds| <= 1 then []
    else if |ds| == 2 then GroupToBytes(ds[0], ds[1], 0, 0)[..1]
    else if |ds| == 3 then GroupToBytes(ds[0], ds[1], ds[2], 0)[..2]
    else GroupToBytes(ds[0], ds[1], ds[2], ds[3]) + Bytes(ds[4..])
  }

  function Chars(ds: seq<digit>): string {
    seq(|ds|, j requires 0 <= j < |ds| => EncodeDigit(ds[j]))
  }

  function EncodeText(data: seq<byte>): string {
    Chars(Digits(data))
  }

  // ----- Encoder -----

  /** The masked shift expressions of the encoder are the digits of the group. */
  lemma ShiftsAreDigits(b0: byte, b1: byte, b2: byte)
    ensures b0 / 4 % 64 == Digit0(b0)
    ensures (b0 as int * 16 + b1 / 16) % 64 == Digit1(b0, b1)
    ensures (b1 as int * 4 + b2 / 64) % 64 == Digit2(b1, b2)
  {
    Quotient(b0 as int * 16 + b1 / 16, 64, b0 / 4, b0 as int % 4 * 16 + b1 / 16);
    Quotient(b1 as int * 4 + b2 / 64, 64, b1 / 16, b1 as int % 16 * 4 + b2 / 64);
  }

  /** The table entry the encoder looks up with each masked shift expression. */
  function Shifted(b0: byte, b1: byte, b2: byte): (text: string)
    ensures text == Chars(GroupToDigits(b0, b1, b2))
  {
    ShiftsAreDigits(b0, b1, b2);
    var ds: seq<digit> := [b0 / 4 % 64, (b0 as int * 16 + b1 / 16) % 64, (b1 as int * 4 + b2 / 64) % 64, b2 % 64];
    Chars(ds)
  }

  /** A full group at the front. */
  lemma FrontChars(data: seq<byte>)
    requires |data| >= 3
    ensures Chars(Digits(data)) == Shifted(data[0], data[1], data[2]) + Chars(Digits(data[3..]))
  {
    hide EncodeDigit, Digit0, Digit1, Digit2, Digit3, Shifted;
    CharsConcat(GroupToDigits(data[0], data[1], data[2]), Digits(data[3..]));
  }

  /** A short last group. */
  lemma LastChars(data: seq<byte>)
    requires 0 < |data| < 3
    ensures var b1: byte := if |data| > 1 then data[1] else 0;
            |Shifted(data[0], b1, 0)| == 4 && Chars(Digits(data)) == Shifted(data[0], b1, 0)[..|data| + 1]
  {
    hide EncodeDigit, Digit0, Digit1, Digit2, Digit3, Shifted;
  }

  method Encode(data: seq<byte>) returns (encoded: string)
    ensures encoded == EncodeText(data)
  {
    hide EncodeDigit, Digit0, Digit1, Digit2, Digit3, Shifted, Chars, Digits;
    encoded := "";
    var i := 0;
    assert data[0..] == data;
    while i + 3 <= |data|
      invariant 0 <= i <= |data|
      invariant encoded + Chars(Digits(data[i..])) == EncodeText(data)
    {
      var b0, b1, b2 := data[i], data[i + 1], data[i + 2];
      FrontChars(data[i..]);
      assert data[i..][3..] == data[i + 3..];
      encoded := encoded + Shifted(b0, b1, b2);
      i := i + 3;
    }
    if i < |data| {
      LastChars(data[i..]);
      var rem := |data| - i;
      var b0: byte := data[i];
      var b1: byte := if rem > 1 then data[i + 1] else 0;
      var block := Shifted(b0, b1, 0);
      encoded := encoded + block[..2];
      if rem == 2 {
        encoded := encoded + [block[2]];
      }
    } else {
      NoChars(data[i..]);
    }
  }

  lemma NoChars(data: seq<byte>)
    requires data == []
    ensures Chars(Digits(data)) == ""
  {
  }

  lemma CharsConcat(ds: seq<digit>, es: seq<digit>)
    ensures Chars(ds + es) == Chars(ds) + Chars(es)
  {
  }

  lemma DigitsLength(data: seq<byte>)
    ensures |Digits(data)| == (4 * |data| + 2) / 3
  {
  }

  /** Length and alphabet of every encoding; a 32-octet digest takes 43 characters. */
  lemma EncodedShape(data: seq<byte>)
    ensures |EncodeText(data)| == (4 * |data| + 2) / 3
    ensures |data| == 32 ==> |EncodeText(data)| == 43
    ensures forall c :: c in EncodeText(data) ==> IsUrlSafe(c)
    ensures '.' !in EncodeText(data) && '=' !in EncodeText(data)
  {
    DigitsLength(data);
    forall c | c in EncodeText(data)
      ensures IsUrlSafe(c)
    {
      var j :| 0 <= j < |EncodeText(data)| && EncodeText(data)[j] == c;
      AlphabetIsInverse(Digits(data)[j], 'A');
    }
  }

  // ----- Decoder -----

  /** The length of the text before the first '='. */
  function Unpadded(s: string): (k: nat)
    ensures k <= |s|
    ensures '=' !in s[..k]
    ensures k < |s| ==> s[k] == '='
  {
    if s == "" || s[0] == '=' then 0
    else
      var k := 1 + Unpadded(s[1..]);
      assert s[..k] == [s[0]] + s[1..][..k - 1];
      k
  }

  predicate AllDigits(s: string) {
    forall c :: c in s ==> 0 <= DecodeChar(c)
  }

  function Values(s: string): (ds: seq<digit>)
    requires AllDigits(s)
  {
    seq(|s|, i requires 0 <= i < |s| => DecodeChar(s[i]))
  }

  function DecodeText(s: string): Option<seq<byte>> {
    var body := s[..Unpadded(s)];
    if AllDigits(body) then Some(Bytes(Values(body))) else None
  }

  /**
   What the wrapped accumulator still holds after dropping the emitted bits: with `width`
   a divisor of 2^26, the bits lost to the wrap are a multiple of `width * 64`.
   */
  lemma Accumulate(val: int, d: int, width: int, rest: int)
    requires 0 <= val < WORD && 0 <= d < 64 && width > 0 && width * rest == 0x400_0000
    ensures var next := (val * 64 + d) % WORD;
            0 <= next < WORD && next % (width * 64) == val % width * 64 + d
  {
    var q := (val * 64 + d) / WORD;
    var next := (val * 64 + d) % WORD;
    var high := val / width - q * rest;
    calc {
      next;
      val * 64 + d - q * (width * rest * 64);
      { assert val == val / width * width + val % width; assert q * (width * rest) == q * rest * width; }
      high * (width * 64) + (val % width * 64 + d);
    }
    assert val % width * 64 + d < width * 64;
    Quotient(next, width * 64, high, val % width * 64 + d);
  }

  lemma BytesLength(ds: seq<digit>)
    ensures |Bytes(ds)| == 6 * |ds| / 8
  {
  }

  /** The byte completed when a digit arrives, in terms of that digit and the one before. */
  function Completed(ds: seq<digit>, d: digit): (bs: seq<byte>) {
    if |ds| % 4 == 0 then []
    else
      var p := ds[|ds| - 1];
      [if |ds| % 4 == 1 then Byte0(p, d) else if |ds| % 4 == 2 then Byte1(p, d) else Byte2(p, d)]
  }

  lemma {:induction false} BytesGrow(ds: seq<digit>, d: digit)
    ensures Bytes(ds + [d]) == Bytes(ds) + Completed(ds, d)
  {
    hide Byte0, Byte1, Byte2;
    if |ds| >= 4 {
      BytesGrow(ds[4..], d);
      assert (ds + [d])[4..] == ds[4..] + [d];
      SameCompleted(ds, d);
      hide Completed;
    }
  }

  lemma SameCompleted(ds: seq<digit>, d: digit)
    requires |ds| >= 4
    ensures Completed(ds, d) == Completed(ds[4..], d)
  {
    hide Byte0, Byte1, Byte2;
  }

  /** `val >> bits` for the three shift distances that occur. */
  function ShiftRight(val: nat, bits: nat): nat {
    if bits == 4 then val / 16 else if bits == 2 then val / 4 else val
  }

  /** How many decoded bits wait for the next byte after n digits. */
  function WaitingBits(n: nat): (bits: nat) {
    if n % 4 == 0 then 0 else 8 - n % 4 * 2
  }

  /** What the decoder pushes when the digit d follows the n digits whose last one is p. */
  function Pushed(n: nat, val: nat, d: digit): (bs: seq<byte>) {
    var bits := WaitingBits(n) + 6;
    if bits >= 8 then [ShiftRight((val * 64 + d) % WORD, bits - 8) % 256] else []
  }

  lemma NextWaiting(n: nat)
    ensures var bits := WaitingBits(n) + 6;
            WaitingBits(n + 1) == if bits >= 8 then bits - 8 else bits
  {
    assert n == n / 4 * 4 + n % 4;
  }

  /** The bits that stay in the accumulator, in spite of the wrap. */
  lemma Remaining(val: nat, d: digit)
    requires val < WORD
    ensures var next := (val * 64 + d) % WORD;
            && 0 <= next < WORD && next % 64 == d
            && next == next / 4096 * 4096 + val % 64 * 64 + d
  {
    Accumulate(val, d, 64, 0x10_0000);
    var next := (val * 64 + d) % WORD;
    Quotient(next, 64, next / 4096 * 64 + val % 64, d);
  }

  /** The pushed byte is the completed one. */
  lemma PushedIsCompleted(ds: seq<digit>, val: nat, d: digit)
    requires val < WORD && (|ds| > 0 ==> val % 64 == ds[|ds| - 1])
    ensures Pushed(|ds|, val, d) == Completed(ds, d)
  {
    hide Byte0, Byte1, Byte2, ShiftRight;
    if |ds| % 4 != 0 {
      Remaining(val, d);
      Emitted(((val * 64 + d) % WORD) / 4096, ds[|ds| - 1], d);
    }
  }

  lemma Emitted(h: nat, v: digit, d: digit)
    ensures ShiftRight(h * 4096 + v * 64 + d, 4) % 256 == Byte0(v, d)
    ensures ShiftRight(h * 4096 + v * 64 + d, 2) % 256 == Byte1(v, d)
    ensures ShiftRight(h * 4096 + v * 64 + d, 0) % 256 == Byte2(v, d)
  {
    EmittedBy4(h, v, d);
    EmittedBy2(h, v, d);
    EmittedBy0(h, v, d);
  }

  lemma EmittedBy4(h: nat, v: nat, d: digit)
    requires v < 64
    ensures (h * 4096 + v * 64 + d) / 16 % 256 == v * 4 + d / 16
  {
    Quotient(h * 4096 + v * 64 + d, 16, h * 256 + v * 4 + d / 16, d % 16);
    Quotient(h * 256 + v * 4 + d / 16, 256, h, v * 4 + d / 16);
  }

  lemma EmittedBy2(h: nat, v: nat, d: digit)
    requires v < 64
    ensures (h * 4096 + v * 64 + d) / 4 % 256 == v % 16 * 16 + d / 4
  {
    Quotient(h * 4096 + v * 64 + d, 4, h * 1024 + v * 16 + d / 4, d % 4);
    Quotient(h * 1024 + v * 16 + d / 4, 256, h * 4 + v / 16, v % 16 * 16 + d / 4);
  }

  lemma EmittedBy0(h: nat, v: nat, d: digit)
    requires v < 64
    ensures (h * 4096 + v * 64 + d) % 256 == v % 4 * 64 + d
  {
    Quotient(h * 4096 + v * 64 + d, 256, h * 16 + v / 4, v % 4 * 64 + d);
  }

  /** What the accumulator gives when it takes the digit d: the same byte as without the wrap. */
  lemma Emit(ds: seq<digit>, val: nat, d: digit)
    requires val < WORD && (|ds| > 0 ==> val % 64 == ds[|ds| - 1])
    ensures Bytes(ds + [d]) == Bytes(ds) + Pushed(|ds|, val, d)
  {
    BytesGrow(ds, d);
    PushedIsCompleted(ds, val, d);
  }

  /** One more character that is a digit. */
  lemma NextValue(s: string, i: nat)
    requires i < |s| && '=' !in s[..i] && AllDigits(s[..i]) && DecodeChar(s[i]) >= 0
    ensures '=' !in s[..i + 1] && AllDigits(s[..i + 1])
    ensures Values(s[..i + 1]) == Values(s[..i]) + [DecodeChar(s[i])]
  {
    assert s[..i + 1] == s[..i] + [s[i]];
  }

  /** What the loop has when it meets the padding, an invalid character, or the end. */
  lemma StopsWith(s: string, i: nat)
    requires i <= |s| && '=' !in s[..i] && AllDigits(s[..i])
    ensures i < |s| && DecodeChar(s[i]) == -1 ==> DecodeText(s) == None
    ensures i == |s| || DecodeChar(s[i]) == -2 ==> DecodeText(s) == Some(Bytes(Values(s[..i])))
  {
    StopsAt(s, i);
    hide Bytes;
    assert i < |s| && DecodeChar(s[i]) == -1 ==> s[..Unpadded(s)][i] == s[i];
  }

  method Decode(base64Url: string) returns (decoded: Option<seq<byte>>)
    ensures decoded == DecodeText(base64Url)
  {
    hide DecodeChar, Values, AllDigits, DecodeText, Bytes;
    assert AllDigits("") && Values("") == [] && Bytes([]) == [] by { NothingYet(); }
    StopsWith(base64Url, 0);
    if base64Url == "" { return Some([]); }
    var result: seq<byte> := [];
    var val, valBits := 0, 0;
    ghost var ds: seq<digit> := [];
    for i := 0 to |base64Url|
      invariant '=' !in base64Url[..i] && AllDigits(base64Url[..i]) && ds == Values(base64Url[..i])
      invariant result == Bytes(ds)
      invariant 0 <= val < WORD && (|ds| > 0 ==> val % 64 == ds[|ds| - 1])
      invariant valBits == WaitingBits(|ds|)
    {
      var d := DecodeChar(base64Url[i]);
      StopsWith(base64Url, i);
      if d < 0 {
        if d == -1 { return None; }
        return Some(result);
      }
      NextValue(base64Url, i);
      Emit(ds, val, d);
      NextWaiting(|ds|);
      Remaining(val, d);
      ds := ds + [d];
      val := (val * 64 + d) % WORD;
      valBits := valBits + 6;
      if valBits >= 8 {
        valBits := valBits - 8;
        result := result + [ShiftRight(val, valBits) % 256];
      }
    }
    StopsWith(base64Url, |base64Url|);
    decoded := Some(result);
  }

  lemma NothingYet()
    ensures AllDigits("") && Values("") == [] && Bytes([]) == []
  {
  }

  /** A prefix without '=' lies before the padding. */
  lemma {:induction false} StopsAt(s: string, i: nat)
    requires i <= |s| && '=' !in s[..i]
    ensures i <= Unpadded(s)
    ensures i < |s| && s[i] == '=' ==> Unpadded(s) == i
    ensures i < |s| && s[i] != '=' ==> i < Unpadded(s)
  {
    if i > 0 {
      assert s[..i] == [s[0]] + s[1..][..i - 1];
      StopsAt(s[1..], i - 1);
    }
  }

  /**
   Decoding fails exactly when an invalid character precedes the first '='; otherwise it
   yields floor(6k / 8) octets for the k characters before it.
   */
  lemma DecodeOutcome(s: string)
    ensures DecodeText(s).None? <==> exists i :: 0 <= i < |s| && DecodeChar(s[i]) == -1 && '=' !in s[..i]
    ensures DecodeText(s).Some? ==> |DecodeText(s).value| == 6 * Unpadded(s) / 8
  {
    var k := Unpadded(s);
    if DecodeText(s).Some? {
      BytesLength(Values(s[..k]));
      forall i | 0 <= i < k
        ensures DecodeChar(s[i]) >= 0
      {
        assert s[i] in s[..k];
      }
      forall i | 0 <= i < |s| && DecodeChar(s[i]) == -1
        ensures '=' in s[..i]
      {
        assert s[k] == '=' && i > k;
        assert s[..i][k] == '=';
      }
    } else {
      InvalidBefore(s);
    }
  }

  lemma NegativeIsInvalid(c: char)
    requires DecodeChar(c) < 0 && c != '='
    ensures DecodeChar(c) == -1
  {
  }

  lemma InvalidBefore(s: string)
    requires !AllDigits(s[..Unpadded(s)])
    ensures exists i :: 0 <= i < |s| && DecodeChar(s[i]) == -1 && '=' !in s[..i]
  {
    hide Unpadded, DecodeChar;
    var prefix := s[..Unpadded(s)];
    var c :| c in prefix && DecodeChar(c) < 0;
    var i :| 0 <= i < |prefix| && prefix[i] == c;
    NegativeIsInvalid(c);
    assert s[i] == c && s[..i] == prefix[..i];
  }

  // ----- Round trips -----

  lemma {:induction false} DigitsRoundTrip(data: seq<byte>)
    ensures Bytes(Digits(data)) == data
  {
    hide Digit0, Digit1, Digit2, Digit3, Byte0, Byte1, Byte2;
    if |data| > 0 {
      var b0 := data[0];
      var b1 := if |data| > 1 then data[1] else 0;
      var b2 := if |data| > 2 then data[2] else 0;
      JoinsFirst(b0, b1);
      JoinsSecond(b0, b1, b2);
      JoinsThird(b1, b2);
      PaddedDigits(b1);
      if |data| > 2 {
        DigitsRoundTrip(data[3..]);
        assert Digits(data)[4..] == Digits(data[3..]);
      }
    }
  }

  /** The text of an encoding reads back as its digits, with no padding. */
  lemma EncodedReadsBack(data: seq<byte>)
    ensures var s := EncodeText(data);
            Unpadded(s) == |s| && AllDigits(s) && Values(s) == Digits(data)
  {
    var s := EncodeText(data);
    EncodedShape(data);
    assert s[..|s|] == s;
    StopsAt(s, |s|);
    forall j | 0 <= j < |s|
      ensures DecodeChar(s[j]) == Digits(data)[j]
    {
      AlphabetIsInverse(Digits(data)[j], 'A');
    }
  }

  /** The central law: decoding an encoding gives the bytes back. */
  lemma RoundTrip(data: seq<byte>)
    ensures DecodeText(EncodeText(data)) == Some(data)
  {
    var s := EncodeText(data);
    EncodedReadsBack(data);
    assert s[..|s|] == s;
    DigitsRoundTrip(data);
  }

  /** A possible length, and no spare bits set in the last digit. */
  predicate CanonicalDigits(ds: seq<digit>) {
    && |ds| % 4 != 1
    && (|ds| % 4 == 2 ==> Spare4(ds[|ds| - 1]))
    && (|ds| % 4 == 3 ==> Spare2(ds[|ds| - 1]))
  }

  predicate Canonical(s: string) {
    && (forall c :: c in s ==> IsUrlSafe(c))
    && AllDigits(s)
    && CanonicalDigits(Values(s))
  }

  lemma {:induction false} EncodedDigitsAreCanonical(data: seq<byte>)
    ensures CanonicalDigits(Digits(data))
  {
    hide Digit0, Digit1, Digit2, Digit3, Spare4, Spare2;
    if |data| == 1 {
      PaddedDigits(data[0]);
    } else if |data| == 2 {
      PaddedDigits(data[1]);
    } else if |data| > 2 {
      EncodedDigitsAreCanonical(data[3..]);
    }
  }

  lemma {:induction false} CanonicalDigitsRoundTrip(ds: seq<digit>)
    requires CanonicalDigits(ds)
    ensures Digits(Bytes(ds)) == ds
  {
    hide Digit0, Digit1, Digit2, Digit3, Byte0, Byte1, Byte2, Spare4, Spare2;
    if |ds| > 0 {
      var d0, d1 := ds[0], ds[1];
      var d2 := if |ds| > 2 then ds[2] else 0;
      var d3 := if |ds| > 3 then ds[3] else 0;
      SplitsFirst(d0, d1);
      SplitsSecond(d0, d1, d2);
      SplitsThird(d1, d2, d3);
      SplitsFourth(d2, d3);
      PaddedBytes(d1);
      PaddedBytes(d2);
      if |ds| > 3 {
        CanonicalDigitsRoundTrip(ds[4..]);
        assert Bytes(ds)[3..] == Bytes(ds[4..]);
      }
    }
  }

  /** Re-encoding a decoded text gives the text back exactly when it was canonical. */
  lemma ReencodeExactlyWhenCanonical(s: string)
    requires DecodeText(s).Some?
    ensures EncodeText(DecodeText(s).value) == s <==> Canonical(s)
  {
    var data := DecodeText(s).value;
    assert s[..|s|] == s;
    if EncodeText(data) == s {
      EncodedShape(data);
      EncodedReadsBack(data);
      EncodedDigitsAreCanonical(data);
    }
    if Canonical(s) {
      assert '=' !in s;
      StopsAt(s, |s|);
      CanonicalDigitsRoundTrip(Values(s));
      forall j | 0 <= j < |s|
        ensures EncodeDigit(Values(s)[j]) == s[j]
      {
        assert s[j] in s;
        AlphabetIsInverse(0, s[j]);
      }
    }
  }
}
