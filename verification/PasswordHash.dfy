/**
 The stored password format of OpenSslCrypto.cpp. PBKDF2 (section 5.2 of RFC 8018) is a function
 of password, salt, iterations and key length.
 */
module PasswordHash {
  import opened Wrappers
  import opened Numerals
  import opened Hex

  type Kdf = (string, seq<byte>, int, nat) -> seq<byte>

  ghost predicate GivesLength(kdf: Kdf) {
    forall password, salt, iterations, length :: |kdf(password, salt, iterations, length)| == length
  }

  const ITERATIONS := 100000
  const KEY_LENGTH := 32
  const INT_MAX := 0x7fff_ffff

  function Scheme(): string { "pbkdf2_sha256$" }

  function StoredText(iterations: nat, salt: seq<byte>, key: seq<byte>): string {
    Scheme() + NatText(iterations) + "$" + HexText(salt) + "$" + HexText(key)
  }

  // ----- Reading -----

  /** `find(c, from)` */
  function Find(s: string, c: char, from: nat): (found: Option<nat>)
    ensures found.Some? ==> from <= found.value < |s| && s[found.value] == c
    ensures found.Some? ==> forall k :: from <= k < found.value ==> s[k] != c
    ensures found.None? ==> forall k :: from <= k < |s| ==> s[k] != c
    decreases |s| - from
  {
    if from >= |s| then None else if s[from] == c then Some(from) else Find(s, c, from + 1)
  }

  function SkipSpace(s: string): string
    decreases |s|
  {
    if s != "" && IsSpace(s[0]) then SkipSpace(s[1..]) else s
  }

  function LeadingDigits(s: string): (digits: string)
    ensures forall c :: c in digits ==> IsDecimal(c)
    decreases |s|
  {
    if s != "" && IsDecimal(s[0]) then [s[0]] + LeadingDigits(s[1..]) else ""
  }

  /** `std::stoi`: blanks, a sign, digits, and anything after them; otherwise an exception. */
  function Stoi(s: string): Option<int> {
    var t := SkipSpace(s);
    var negative := t != "" && t[0] == '-';
    var digits := LeadingDigits(if t != "" && t[0] in {'+', '-'} then t[1..] else t);
    if digits == "" then None
    else
      var n := if negative then -(DigitsValue(digits) as int) else DigitsValue(digits);
      if -INT_MAX - 1 <= n <= INT_MAX then Some(n) else None
  }

  datatype Parsed = Malformed | BadNumber | Fields(iterations: int, saltHex: string, keyHex: string)

  function Parse(stored: string): Parsed {
    if !(Scheme() <= stored) then Malformed
    else
      match Find(stored, '$', |Scheme()|)
      case None => Malformed
      case Some(first) =>
        match Find(stored, '$', first + 1)
        case None => Malformed
        case Some(second) =>
          match Stoi(stored[|Scheme()|..first])
          case None => BadNumber
          case Some(n) => Fields(n, stored[first + 1..second], stored[second + 1..])
  }

  datatype Check = Verdict(matches: bool) | Throws

  function Verify(kdf: Kdf, password: string, stored: string): Check {
    match Parse(stored)
    case Malformed => Verdict(false)
    case BadNumber => Throws
    case Fields(iterations, saltHex, keyHex) =>
      var salt, key := ReadHex(saltHex), ReadHex(keyHex);
      if key == [] || salt == [] then Verdict(false)
      else Verdict(kdf(password, salt, iterations, |key|) == key)
  }

  method HashPassword(kdf: Kdf, password: string, salt: seq<byte>) returns (stored: string)
    ensures stored == StoredText(ITERATIONS, salt, kdf(password, salt, ITERATIONS, KEY_LENGTH))
  {
    hide Scheme;
    var derivedKey := kdf(password, salt, ITERATIONS, KEY_LENGTH);
    var saltHex := BytesToHex(salt);
    var keyHex := BytesToHex(derivedKey);
    stored := Scheme() + NatText(ITERATIONS) + "$" + saltHex + "$" + keyHex;
  }

  method VerifyPassword(kdf: Kdf, password: string, stored: string) returns (check: Check)
    ensures check == Verify(kdf, password, stored)
  {
    hide Find, Stoi, Scheme;
    if !(Scheme() <= stored) { return Verdict(false); }
    var first := Find(stored, '$', |Scheme()|);
    if first.None? { return Verdict(false); }
    var second := Find(stored, '$', first.value + 1);
    if second.None? { return Verdict(false); }
    var iterations := Stoi(stored[|Scheme()|..first.value]);
    if iterations.None? { return Throws; }
    var salt := HexToBytes(stored[first.value + 1..second.value]);
    var expectedKey := HexToBytes(stored[second.value + 1..]);
    if expectedKey == [] || salt == [] { return Verdict(false); }
    check := Verdict(kdf(password, salt, iterations.value, |expectedKey|) == expectedKey);
  }

  // ----- What is printed reads back -----

  lemma {:induction false} DigitsLead(s: string)
    requires forall c :: c in s ==> IsDecimal(c)
    ensures LeadingDigits(s) == s
    decreases |s|
  {
    if s != "" {
      assert s[0] in s;
      assert forall c :: c in s[1..] ==> c in s;
      DigitsLead(s[1..]);
    }
  }

  lemma NumberReadsBack(n: nat)
    requires n <= INT_MAX
    ensures Stoi(NatText(n)) == Some(n)
  {
    var s := NatText(n);
    assert s[0] in s;
    assert IsDecimal(s[0]) && !IsSpace(s[0]) && s[0] !in {'+', '-'};
    DigitsLead(s);
    NatTextValue(n);
  }

  /** The first '$' after a text without one. */
  lemma FindAfter(s: string, a: string, b: string, c: string)
    requires '$' !in b && s == a + b + ("$" + c)
    ensures Find(s, '$', |a|) == Some(|a| + |b|)
    ensures s[|a|..|a| + |b|] == b && s[|a| + |b| + 1..] == c
  {
    assert forall k :: |a| <= k < |a| + |b| ==> s[k] == b[k - |a|];
    assert s[|a| + |b|] == '$';
  }

  lemma Assoc(a: string, b: string, c: string)
    ensures a + b + c == a + (b + c)
  {
  }

  /** Three texts behind a head, cut at the first dollar. */
  lemma FirstDollar(s: string, head: string, x: string, y: string, z: string)
    requires '$' !in x && s == head + x + "$" + y + "$" + z
    ensures head <= s && |s| == |head| + |x| + |y| + |z| + 2
    ensures Find(s, '$', |head|) == Some(|head| + |x|)
    ensures s[|head|..|head| + |x|] == x
  {
    hide Find;
    var a := head + x;
    Assoc(a, "$", y);
    Assoc(a, "$" + y, "$");
    Assoc(a, "$" + y + "$", z);
    Assoc("$", y, "$");
    Assoc("$", y + "$", z);
    var rest := y + "$" + z;
    assert s == a + ("$" + rest);
    FindAfter(s, head, x, rest);
  }

  lemma SecondDollar(s: string, longer: string, y: string, z: string)
    requires '$' !in y && s == longer + y + "$" + z
    ensures Find(s, '$', |longer|) == Some(|longer| + |y|)
    ensures s[|longer|..|longer| + |y|] == y && s[|longer| + |y| + 1..] == z
  {
    hide Find;
    Assoc(longer + y, "$", z);
    FindAfter(s, longer, y, z);
  }

  lemma TakesApart(s: string, head: string, x: string, y: string, z: string) returns (first: nat, second: nat)
    requires '$' !in x && '$' !in y && s == head + x + "$" + y + "$" + z
    ensures |head| <= first < second < |s| && head <= s
    ensures Find(s, '$', |head|) == Some(first) && Find(s, '$', first + 1) == Some(second)
    ensures s[|head|..first] == x && s[first + 1..second] == y && s[second + 1..] == z
  {
    hide Find;
    FirstDollar(s, head, x, y, z);
    var longer := head + x + "$";
    SecondDollar(s, longer, y, z);
    first, second := |head| + |x|, |longer| + |y|;
  }

  lemma HexHasNoDollar(bytes: seq<byte>)
    ensures '$' !in HexText(bytes)
  {
    HexReadsBack(bytes);
    PrintsBackExactlyWhenLower(HexText(bytes));
  }

  /** Every salt and key, and every iteration count that fits an int, come back as they were printed. */
  lemma StoredReadsBack(iterations: nat, salt: seq<byte>, key: seq<byte>)
    requires iterations <= INT_MAX
    ensures Parse(StoredText(iterations, salt, key)) == Fields(iterations, HexText(salt), HexText(key))
    ensures ReadHex(HexText(salt)) == salt && ReadHex(HexText(key)) == key
  {
    var number, saltHex, keyHex := NatText(iterations), HexText(salt), HexText(key);
    hide Scheme;
    assert '$' !in number;
    HexHasNoDollar(salt);
    HexReadsBack(salt);
    HexReadsBack(key);
    NumberReadsBack(iterations);
    var stored := StoredText(iterations, salt, key);
    var first, second := TakesApart(stored, Scheme(), number, saltHex, keyHex);
    hide NatText, HexText, Stoi, ReadHex, Find, StoredText, Parse;
    ParsesTo(stored, first, second, iterations);
  }

  lemma ParsesTo(stored: string, first: nat, second: nat, iterations: int)
    requires Scheme() <= stored && Find(stored, '$', |Scheme()|) == Some(first)
    requires Find(stored, '$', first + 1) == Some(second) && Stoi(stored[|Scheme()|..first]) == Some(iterations)
    ensures Parse(stored) == Fields(iterations, stored[first + 1..second], stored[second + 1..])
  {
    hide Find, Stoi, Scheme;
  }

  /** A password verifies against what was stored for another exactly when their derived keys agree. */
  lemma VerifiesExactlyWhenKeysAgree(kdf: Kdf, password: string, other: string, salt: seq<byte>)
    requires GivesLength(kdf) && salt != []
    ensures Verify(kdf, password, StoredText(ITERATIONS, salt, kdf(other, salt, ITERATIONS, KEY_LENGTH)))
         == Verdict(kdf(password, salt, ITERATIONS, KEY_LENGTH) == kdf(other, salt, ITERATIONS, KEY_LENGTH))
  {
    var key := kdf(other, salt, ITERATIONS, KEY_LENGTH);
    assert |key| == KEY_LENGTH;
    StoredReadsBack(ITERATIONS, salt, key);
    hide StoredText, Parse, ReadHex, Scheme;
  }

  // ----- Every stored text -----

  lemma HundredThousand()
    ensures NatText(100000) == "100000"
  {
    assert NatText(1) == "1" && NatText(10) == "10" && NatText(100) == "100";
    assert NatText(1000) == "1000" && NatText(10000) == "10000";
  }

  /** What is stored for a password, literally. */
  lemma StoredInWords(kdf: Kdf, password: string, salt: seq<byte>)
    ensures StoredText(ITERATIONS, salt, kdf(password, salt, ITERATIONS, KEY_LENGTH))
         == "pbkdf2_sha256$" + "100000" + "$" + HexText(salt) + "$" + HexText(kdf(password, salt, 100000, 32))
  {
    HundredThousand();
    hide NatText, HexText;
  }

  /** The stored text is the scheme, three fields and two dollars; the key may hold more of them. */
  predicate HasFields(stored: string, iterations: string, saltHex: string, keyHex: string) {
    '$' !in iterations && '$' !in saltHex
    && stored == "pbkdf2_sha256$" + iterations + "$" + saltHex + "$" + keyHex
  }

  /**
   The verdict on any stored text with three fields: an exception if the first is no int, otherwise whether
   salt and key are there and the password derives that very key with that salt and count.
   */
  lemma VerdictOnFields(kdf: Kdf, password: string, stored: string, n: string, saltHex: string, keyHex: string)
    requires HasFields(stored, n, saltHex, keyHex)
    ensures Verify(kdf, password, stored) ==
            match Stoi(n)
            case None => Throws
            case Some(iterations) =>
              var salt, key := ReadHex(saltHex), ReadHex(keyHex);
              Verdict(salt != [] && key != [] && kdf(password, salt, iterations, |key|) == key)
  {
    var first, second := TakesApart(stored, "pbkdf2_sha256$", n, saltHex, keyHex);
    hide Find, Stoi, ReadHex;
  }

  /** Any other text is no match. */
  lemma NoFieldsNoMatch(kdf: Kdf, password: string, stored: string)
    requires forall n, saltHex, keyHex :: !HasFields(stored, n, saltHex, keyHex)
    ensures Verify(kdf, password, stored) == Verdict(false)
  {
    if !Parse(stored).Malformed? {
      var n, saltHex, keyHex := ParsedFields(stored);
    }
    hide Parse, HasFields, ReadHex;
  }

  lemma ParsedFields(stored: string) returns (n: string, saltHex: string, keyHex: string)
    requires !Parse(stored).Malformed?
    ensures HasFields(stored, n, saltHex, keyHex)
  {
    var first := Find(stored, '$', |Scheme()|).value;
    var second := Find(stored, '$', first + 1).value;
    n, saltHex, keyHex := stored[|Scheme()|..first], stored[first + 1..second], stored[second + 1..];
    FieldsOf(stored, Scheme(), first, second);
    hide Find, Stoi;
  }

  lemma FieldsOf(s: string, head: string, first: nat, second: nat)
    requires head <= s && |head| <= first < second < |s| && s[first] == '$' && s[second] == '$'
    ensures s == head + s[|head|..first] + "$" + s[first + 1..second] + "$" + s[second + 1..]
  {
    assert s == s[..|head|] + s[|head|..first] + [s[first]] + s[first + 1..second] + [s[second]] + s[second + 1..];
  }

  // ----- Numbers with blanks and signs -----

  lemma {:induction false} SpaceSkips(blanks: string, s: string)
    requires (forall c :: c in blanks ==> IsSpace(c)) && (s == "" || !IsSpace(s[0]))
    ensures SkipSpace(blanks + s) == s
    decreases |blanks|
  {
    if blanks == "" {
      assert blanks + s == s;
    } else {
      assert blanks[0] in blanks && forall c :: c in blanks[1..] ==> c in blanks;
      assert (blanks + s)[1..] == blanks[1..] + s;
      SpaceSkips(blanks[1..], s);
    }
  }

  lemma {:induction false} DigitsStop(digits: string, rest: string)
    requires (forall c :: c in digits ==> IsDecimal(c)) && (rest == "" || !IsDecimal(rest[0]))
    ensures LeadingDigits(digits + rest) == digits
    decreases |digits|
  {
    if digits == "" {
      assert digits + rest == rest;
    } else {
      assert digits[0] in digits && forall c :: c in digits[1..] ==> c in digits;
      assert (digits + rest)[1..] == digits[1..] + rest;
      DigitsStop(digits[1..], rest);
    }
  }

  /** A number by the parts that are read. */
  lemma StoiOf(s: string, t: string, digits: string)
    requires SkipSpace(s) == t && t != "" && digits != "" && forall c :: c in digits ==> IsDecimal(c)
    requires LeadingDigits(if t[0] in {'+', '-'} then t[1..] else t) == digits
    ensures var v: int := if t[0] == '-' then -(DigitsValue(digits) as int) else DigitsValue(digits);
            Stoi(s) == if -2147483648 <= v <= 2147483647 then Some(v) else None
  {
    hide SkipSpace, LeadingDigits, DigitsValue;
  }

  /** Blanks, a sign or none, a number and whatever follows it: the number, or an exception beyond an int. */
  lemma StoiReads(blanks: string, sign: string, n: nat, rest: string)
    requires (forall c :: c in blanks ==> IsSpace(c)) && (sign == "" || sign == "+" || sign == "-")
    requires rest == "" || !IsDecimal(rest[0])
    ensures var v: int := if sign == "-" then -(n as int) else n;
            Stoi(blanks + (sign + (NatText(n) + rest))) == if -2147483648 <= v <= 2147483647 then Some(v) else None
  {
    var digits := NatText(n);
    NatTextValue(n);
    hide NatText, LeadingDigits, SkipSpace, DigitsValue, Stoi;
    assert digits[0] in digits;
    var t := sign + (digits + rest);
    assert t[0] == (if sign == "" then digits[0] else sign[0]);
    SpaceSkips(blanks, t);
    DigitsStop(digits, rest);
    if sign == "" {
      assert t == digits + rest;
    } else {
      assert t[1..] == digits + rest;
    }
    StoiOf(blanks + t, t, digits);
  }

  /** Without a digit behind blanks and sign it is an exception. */
  lemma StoiThrows(blanks: string, sign: string, rest: string)
    requires (forall c :: c in blanks ==> IsSpace(c)) && sign in {"", "+", "-"}
    requires rest == "" || (!IsDecimal(rest[0]) && (sign == "" ==> !IsSpace(rest[0]) && rest[0] !in {'+', '-'}))
    ensures Stoi(blanks + (sign + rest)) == None
  {
    var t := sign + rest;
    assert t == "" || !IsSpace(t[0]);
    SpaceSkips(blanks, t);
    DigitsStop("", rest);
    assert "" + rest == rest;
    hide LeadingDigits, SkipSpace, DigitsValue;
    if sign == "" {
      assert t == rest;
    } else {
      assert t[1..] == rest;
    }
  }
}
