/**
 The rotating key set of RsaKeyManager.cpp: one active key, at most five retired ones, and
 the cached JWKS document of section 5 of RFC 7517.
 Key generation and the reading of RSA parameters out of a PEM text are foreign: the first
 arrives as an argument, the second as the function `rsaParams`.
 */
module KeyManager {
  import opened Wrappers
  import opened Numerals

  datatype Jwk = Jwk(kty: string, use: string, alg: string, kid: string, n: string, e: string)

  datatype SigningKey = SigningKey(kid: string, privatePem: string, publicPem: string, jwk: Jwk)

  datatype KeyPair = KeyPair(privatePem: string, publicPem: string)

  /** The manager's keys as a value. */
  datatype KeyRing = KeyRing(active: SigningKey, previous: seq<SigningKey>)

  const RETIRED := 5

  function KeyRecord(kid: string, pair: KeyPair, rsaParams: string -> (string, string)): SigningKey {
    var (n, e) := rsaParams(pair.publicPem);
    SigningKey(kid, pair.privatePem, pair.publicPem, Jwk("RSA", "sig", "RS256", kid, n, e))
  }

  /** The published members of a key are those of its own public half: modulus n, exponent e. */
  predicate Describes(key: SigningKey, rsaParams: string -> (string, string)) {
    && key.jwk.kty == "RSA" && key.jwk.use == "sig" && key.jwk.alg == "RS256" && key.jwk.kid == key.kid
    && key.jwk.n == rsaParams(key.publicPem).0 && key.jwk.e == rsaParams(key.publicPem).1
  }

  /** A record keeps the pair it was made of and describes it. */
  lemma RecordIsExact(kid: string, pair: KeyPair, rsaParams: string -> (string, string))
    ensures var key := KeyRecord(kid, pair, rsaParams);
            && key.kid == kid && key.privatePem == pair.privatePem && key.publicPem == pair.publicPem
            && Describes(key, rsaParams)
  {
  }

  function ChosenKid(newKid: string, nowSec: nat): string {
    if newKid == "" then "key-" + NatText(nowSec) else newKid
  }

  /** A given kid is taken as it is; an empty one becomes the seconds in decimal behind `key-`. */
  lemma ChosenKidIsExact(newKid: string, nowSec: nat)
    ensures newKid != "" ==> ChosenKid(newKid, nowSec) == newKid
    ensures newKid == "" ==>
              var kid := ChosenKid(newKid, nowSec);
              && |kid| > 4 && kid[..4] == "key-" && (forall c :: c in kid[4..] ==> IsDecimal(c))
              && DigitsValue(kid[4..]) == nowSec
  {
    NatTextValue(nowSec);
    assert ("key-" + NatText(nowSec))[4..] == NatText(nowSec);
    hide NatText, DigitsValue;
  }

  function Rotate(ring: KeyRing, key: SigningKey): KeyRing {
    var previous := ring.previous + [ring.active];
    KeyRing(key, if |previous| > RETIRED then previous[1..] else previous)
  }

  function RotateAll(ring: KeyRing, keys: seq<SigningKey>): KeyRing
    decreases |keys|
  {
    if keys == [] then ring else RotateAll(Rotate(ring, keys[0]), keys[1..])
  }

  function Lookup(ring: KeyRing, kid: string): Option<string> {
    if ring.active.kid == kid then Some(ring.active.publicPem) else LookupIn(ring.previous, kid)
  }

  function LookupIn(keys: seq<SigningKey>, kid: string): Option<string> {
    if keys == [] then None
    else if keys[0].kid == kid then Some(keys[0].publicPem)
    else LookupIn(keys[1..], kid)
  }

  // ----- The window of keys -----

  /** The newest six keys, oldest first. */
  function Newest(keys: seq<SigningKey>): seq<SigningKey> {
    if |keys| <= RETIRED + 1 then keys else keys[|keys| - RETIRED - 1..]
  }

  ghost predicate DistinctKids(keys: seq<SigningKey>) {
    forall i, j :: 0 <= i < j < |keys| ==> keys[i].kid != keys[j].kid
  }

  /** The ring holds exactly the newest keys of a history that ends with its active key. */
  ghost predicate Holds(ring: KeyRing, history: seq<SigningKey>) {
    history != [] && ring.previous + [ring.active] == Newest(history)
  }

  lemma RotateKeepsNewest(ring: KeyRing, history: seq<SigningKey>, key: SigningKey)
    requires Holds(ring, history)
    ensures Holds(Rotate(ring, key), history + [key])
  {
    var all := ring.previous + [ring.active];
    assert |all| <= RETIRED + 1;
    var next := Rotate(ring, key);
    if |history| <= RETIRED {
      assert next.previous + [key] == history + [key];
    } else {
      assert next.previous + [key] == all[1..] + [key];
    }
  }

  /** After any rotations the ring is the newest min(n + 1, 6) keys in order. */
  lemma {:induction false} RotationsKeepNewest(ring: KeyRing, history: seq<SigningKey>, keys: seq<SigningKey>)
    requires Holds(ring, history)
    ensures Holds(RotateAll(ring, keys), history + keys)
    decreases |keys|
  {
    if keys == [] {
      assert history + keys == history;
    } else {
      RotateKeepsNewest(ring, history, keys[0]);
      RotationsKeepNewest(Rotate(ring, keys[0]), history + [keys[0]], keys[1..]);
      assert history + [keys[0]] + keys[1..] == history + keys;
    }
  }

  /** In numbers: the last key rotated in is active, and the five before it, or as many as there are, retired. */
  lemma RingHoldsSix(first: SigningKey, keys: seq<SigningKey>)
    ensures var ring, all, n := RotateAll(KeyRing(first, []), keys), [first] + keys, |keys|;
            var retired := if n < 5 then n else 5;
            && ring.active == all[n] && |ring.previous| == retired
            && forall i :: 0 <= i < retired ==> ring.previous[i] == all[n - retired + i]
  {
    assert Holds(KeyRing(first, []), [first]) by { assert [] + [first] == Newest([first]); }
    RotationsKeepNewest(KeyRing(first, []), [first], keys);
    HoldsAt(RotateAll(KeyRing(first, []), keys), [first] + keys);
  }

  lemma {:induction false} LookupInFinds(keys: seq<SigningKey>, kid: string)
    ensures LookupIn(keys, kid).None? <==> forall i :: 0 <= i < |keys| ==> keys[i].kid != kid
    ensures DistinctKids(keys) ==>
              forall i :: 0 <= i < |keys| && keys[i].kid == kid ==> LookupIn(keys, kid) == Some(keys[i].publicPem)
  {
    if keys != [] {
      LookupInFinds(keys[1..], kid);
      assert forall i :: 1 <= i < |keys| ==> keys[i] == keys[1..][i - 1];
    }
  }

  /** With distinct kids a key answers exactly while fewer than six newer ones exist. */
  lemma LookupAnswersWindow(ring: KeyRing, history: seq<SigningKey>, i: nat)
    requires Holds(ring, history) && DistinctKids(history) && i < |history|
    ensures Lookup(ring, history[i].kid) ==
            if i + RETIRED + 1 >= |history| then Some(history[i].publicPem) else None
  {
    hide Holds, LookupIn, DistinctKids;
    HoldsAt(ring, history);
    if i < |history| - 1 {
      KidsDiffer(history, i, |history| - 1);
      LookupInWindow(ring.previous, history, |history| - |ring.previous| - 1, i);
    }
  }

  lemma KidsDiffer(history: seq<SigningKey>, i: nat, j: nat)
    requires DistinctKids(history) && i < j < |history|
    ensures history[i].kid != history[j].kid
  {
  }

  lemma LookupInWindow(previous: seq<SigningKey>, history: seq<SigningKey>, cut: nat, i: nat)
    requires DistinctKids(history) && |history| == cut + |previous| + 1 && i < |history| - 1
    requires forall k :: 0 <= k < |previous| ==> previous[k] == history[cut + k]
    ensures LookupIn(previous, history[i].kid) == if i >= cut then Some(history[i].publicPem) else None
  {
    forall k | 0 <= k < |previous| && previous[k].kid == history[i].kid
      ensures cut + k == i
    {
      assert history[cut + k].kid == history[i].kid;
    }
    LookupInOne(previous, history[i].kid, i - cut);
  }

  /** A kid that only position j may carry. */
  lemma {:induction false} LookupInOne(keys: seq<SigningKey>, kid: string, j: int)
    requires forall k :: 0 <= k < |keys| && keys[k].kid == kid ==> k == j
    ensures 0 <= j < |keys| && keys[j].kid == kid ==> LookupIn(keys, kid) == Some(keys[j].publicPem)
    ensures !(0 <= j < |keys| && keys[j].kid == kid) ==> LookupIn(keys, kid) == None
    decreases |keys|
  {
    if keys != [] && keys[0].kid != kid {
      assert forall k :: 0 <= k < |keys| - 1 ==> keys[1..][k] == keys[k + 1];
      LookupInOne(keys[1..], kid, j - 1);
    }
  }

  /** The window by position. */
  lemma HoldsAt(ring: KeyRing, history: seq<SigningKey>)
    requires Holds(ring, history)
    ensures |ring.previous| + 1 == if |history| > RETIRED then RETIRED + 1 else |history|
    ensures ring.active == history[|history| - 1]
    ensures forall k :: 0 <= k < |ring.previous| ==>
              ring.previous[k] == history[|history| - |ring.previous| - 1 + k]
  {
    var window := ring.previous + [ring.active];
    assert forall k :: 0 <= k < |ring.previous| ==> ring.previous[k] == window[k];
    assert ring.active == window[|window| - 1];
  }

  /** A kid that no key of the window carries is unknown. */
  lemma LookupRefusesOthers(ring: KeyRing, kid: string)
    ensures Lookup(ring, kid).None? <==>
            forall key :: key in ring.previous + [ring.active] ==> key.kid != kid
  {
    LookupInFinds(ring.previous, kid);
    var window := ring.previous + [ring.active];
    assert ring.active in window;
    assert forall key :: key in window ==> key in ring.previous || key == ring.active;
    assert forall i :: 0 <= i < |ring.previous| ==> ring.previous[i] in window;
  }

  // ----- Kids that repeat -----

  /** Of the keys with one kid the active one is preferred, else the oldest. */
  ghost predicate Preferred(keys: seq<SigningKey>, i: nat) {
    && i < |keys|
    && (|| i == |keys| - 1
        || (keys[|keys| - 1].kid != keys[i].kid && forall k :: 0 <= k < i ==> keys[k].kid != keys[i].kid))
  }

  /**
   Whatever kids repeat: the lookup answers with the preferred one of the newest six keys that have
   the kid, and with none exactly when none of the six has it.
   */
  lemma LookupAnswersPreferred(ring: KeyRing, history: seq<SigningKey>, kid: string)
    requires Holds(ring, history)
    ensures var keys := Newest(history);
            match Lookup(ring, kid)
            case None => forall i :: 0 <= i < |keys| ==> keys[i].kid != kid
            case Some(pem) => exists i: nat :: Preferred(keys, i) && keys[i].kid == kid && keys[i].publicPem == pem
  {
    var keys := Newest(history);
    var n := |ring.previous|;
    OldestOfKid(ring.previous, kid);
    assert keys == ring.previous + [ring.active];
    hide Holds, LookupIn, Newest;
    assert keys[n] == ring.active && forall k :: 0 <= k < n ==> keys[k] == ring.previous[k];
    if ring.active.kid == kid {
      assert Preferred(keys, n);
    } else if Lookup(ring, kid).Some? {
      var k: nat :| IsOldest(ring.previous, kid, k) && Lookup(ring, kid) == Some(ring.previous[k].publicPem);
      assert Preferred(keys, k);
    }
  }

  predicate IsOldest(keys: seq<SigningKey>, kid: string, i: nat) {
    i < |keys| && keys[i].kid == kid && forall j :: 0 <= j < i ==> keys[j].kid != kid
  }

  lemma {:induction false} OldestOfKid(keys: seq<SigningKey>, kid: string)
    ensures match LookupIn(keys, kid)
            case None => forall i :: 0 <= i < |keys| ==> keys[i].kid != kid
            case Some(pem) => exists i: nat :: IsOldest(keys, kid, i) && keys[i].publicPem == pem
  {
    if keys != [] && keys[0].kid == kid {
      assert IsOldest(keys, kid, 0);
    } else if keys != [] {
      OldestOfKid(keys[1..], kid);
      assert forall i :: 1 <= i < |keys| ==> keys[i] == keys[1..][i - 1];
      if LookupIn(keys[1..], kid).Some? {
        var i: nat :| IsOldest(keys[1..], kid, i) && Some(keys[1..][i].publicPem) == LookupIn(keys[1..], kid);
        assert IsOldest(keys, kid, i + 1);
      }
    }
  }

  /** A rotation retires the active key behind the others, whose first may go. */
  lemma RotateRetires(ring: KeyRing, key: SigningKey)
    ensures var retired := Rotate(ring, key).previous;
            var gone := |ring.previous| + 1 - |retired|;
            && |retired| > 0 && 0 <= gone <= 1 && retired[|retired| - 1] == ring.active
            && (|ring.previous| <= 1 ==> gone == 0)
            && forall i :: 0 <= i < |retired| - 1 ==> retired[i] == ring.previous[gone + i]
  {
  }

  /**
   Two rotations without a kid in one second share one. The newer key answers for it while it is
   active; after the next rotation the older one does, and the newer key for nothing any more.
   */
  lemma SameSecondRotationsShareKid(
    ring: KeyRing, nowSec: nat, a: KeyPair, b: KeyPair, third: SigningKey, rsaParams: string -> (string, string))
    requires var kid := ChosenKid("", nowSec);
             && third.kid != kid && ring.active.kid != kid
             && forall i :: 0 <= i < |ring.previous| ==> ring.previous[i].kid != kid
    ensures var kid := ChosenKid("", nowSec);
            var two := Rotate(Rotate(ring, KeyRecord(kid, a, rsaParams)), KeyRecord(kid, b, rsaParams));
            Lookup(two, kid) == Some(b.publicPem) && Lookup(Rotate(two, third), kid) == Some(a.publicPem)
  {
    var kid := ChosenKid("", nowSec);
    var x, y := KeyRecord(kid, a, rsaParams), KeyRecord(kid, b, rsaParams);
    hide ChosenKid, Rotate;
    var one := Rotate(ring, x);
    var two := Rotate(one, y);
    var three := Rotate(two, third);
    RotationActivates(ring, x);
    RotationActivates(one, y);
    RotationActivates(two, third);
    RotateRetires(ring, x);
    RotateRetires(one, y);
    RotateRetires(two, third);
    FirstOfKid(three.previous, kid, |three.previous| - 2);
  }

  lemma RotationActivates(ring: KeyRing, key: SigningKey)
    ensures Rotate(ring, key).active == key
  {
  }

  lemma {:induction false} FirstOfKid(keys: seq<SigningKey>, kid: string, at: nat)
    requires IsOldest(keys, kid, at)
    ensures LookupIn(keys, kid) == Some(keys[at].publicPem)
  {
    if at > 0 {
      FirstOfKid(keys[1..], kid, at - 1);
    }
  }

  // ----- The JWKS document -----

  /** One line `"name": "value"` of a key, with the separator that follows it. */
  function MemberText(member: (string, string), isLast: bool): string {
    "      \"" + member.0 + "\": \"" + member.1 + "\"" + (if isLast then "\n" else ",\n")
  }

  function MembersText(members: seq<(string, string)>): string {
    if members == [] then "" else MemberText(members[0], |members| == 1) + MembersText(members[1..])
  }

  function JwkMembers(jwk: Jwk): seq<(string, string)> {
    [("kty", jwk.kty), ("use", jwk.use), ("alg", jwk.alg), ("kid", jwk.kid), ("n", jwk.n), ("e", jwk.e)]
  }

  function JwkText(jwk: Jwk, isLast: bool): string {
    "    {\n" + MembersText(JwkMembers(jwk)) + "    }" + (if isLast then "\n" else ",\n")
  }

  function JwkListText(jwks: seq<Jwk>): string {
    if jwks == [] then "" else JwkText(jwks[0], |jwks| == 1) + JwkListText(jwks[1..])
  }

  const OPENING: string := "{\n  \"keys\": [\n"
  const CLOSING: string := "  ]\n}"

  function JwksText(jwks: seq<Jwk>): string {
    OPENING + JwkListText(jwks) + CLOSING
  }

  function JwkOf(keys: seq<SigningKey>): seq<Jwk> {
    seq(|keys|, i requires 0 <= i < |keys| => keys[i].jwk)
  }

  /** The keys in the order the document lists them: active first, then retired. */
  function Listed(ring: KeyRing): seq<Jwk> {
    [ring.active.jwk] + JwkOf(ring.previous)
  }

  class RsaKeyManager {
    const rsaParams: string -> (string, string)
    var activeKey: SigningKey
    var previousKeys: seq<SigningKey>
    var cachedJwksJson: string
    ghost var history: seq<SigningKey>

    function Ring(): KeyRing
      reads this
    {
      KeyRing(activeKey, previousKeys)
    }

    ghost predicate Valid()
      reads this
    {
      && Holds(Ring(), history)
      && cachedJwksJson == JwksText(Listed(Ring()))
      && forall key :: key in history ==> Describes(key, rsaParams)
    }

    constructor (initialKid: string, pair: KeyPair, generated: KeyPair, rsaParams: string -> (string, string))
      ensures Valid() && this.rsaParams == rsaParams
      ensures history == [KeyRecord(initialKid,
                                    if pair.privatePem == "" || pair.publicPem == "" then generated else pair,
                                    rsaParams)]
    {
      var used := if pair.privatePem == "" || pair.publicPem == "" then generated else pair;
      this.rsaParams := rsaParams;
      activeKey := KeyRecord(initialKid, used, rsaParams);
      previousKeys := [];
      cachedJwksJson := "";
      history := [KeyRecord(initialKid, used, rsaParams)];
      new;
      RebuildJwksJson();
    }

    method RotateKey(newKid: string, nowSec: nat, generated: KeyPair)
      requires Valid()
      modifies this
      ensures Valid()
      ensures history == old(history) + [KeyRecord(ChosenKid(newKid, nowSec), generated, rsaParams)]
      ensures Ring() == Rotate(old(Ring()), KeyRecord(ChosenKid(newKid, nowSec), generated, rsaParams))
      ensures activeKey.privatePem == generated.privatePem && activeKey.publicPem == generated.publicPem
      ensures activeKey.kid == (if newKid == "" then "key-" + NatText(nowSec) else newKid) && |previousKeys| <= 5
    {
      var kid := if newKid == "" then "key-" + NatText(nowSec) else newKid;
      ghost var key := KeyRecord(kid, generated, rsaParams);
      RotateKeepsNewest(Ring(), history, key);
      previousKeys := previousKeys + [activeKey];
      if |previousKeys| > 5 {
        previousKeys := previousKeys[1..];
      }
      activeKey := KeyRecord(kid, generated, rsaParams);
      history := history + [key];
      RebuildJwksJson();
    }

    method GetVerificationPublicKeyPem(kid: string) returns (pem: Option<string>)
      ensures pem == Lookup(Ring(), kid)
    {
      if activeKey.kid == kid { return Some(activeKey.publicPem); }
      for i := 0 to |previousKeys|
        invariant LookupIn(previousKeys, kid) == LookupIn(previousKeys[i..], kid)
      {
        if previousKeys[i].kid == kid { return Some(previousKeys[i].publicPem); }
      }
      pem := None;
    }

    method GetJwksJson() returns (json: string)
      requires Valid()
      ensures json == JwksText(Listed(Ring()))
      ensures forall key :: key in previousKeys + [activeKey] ==> Describes(key, rsaParams)
    {
      assert Newest(history) <= history[|history| - |previousKeys| - 1..];
      json := cachedJwksJson;
    }

    method RebuildJwksJson()
      modifies this`cachedJwksJson
      ensures cachedJwksJson == JwksText(Listed(Ring()))
    {
      hide JwkText;
      var oss := OPENING;
      var hasPrev := |previousKeys| > 0;
      var entry := WriteJwk(activeKey.jwk, !hasPrev);
      ghost var jwks := JwkOf(previousKeys);
      assert Listed(Ring())[1..] == jwks;
      oss := oss + entry;
      for i := 0 to |previousKeys|
        invariant oss + JwkListText(jwks[i..]) == OPENING + JwkListText(Listed(Ring()))
      {
        var isLast := i + 1 == |previousKeys|;
        entry := WriteJwk(previousKeys[i].jwk, isLast);
        assert jwks[i..][1..] == jwks[i + 1..];
        assert oss + entry + JwkListText(jwks[i + 1..]) == oss + JwkListText(jwks[i..]);
        oss := oss + entry;
      }
      cachedJwksJson := oss + CLOSING;
    }
  }

  method WriteJwk(jwk: Jwk, isLast: bool) returns (text: string)
    ensures text == JwkText(jwk, isLast)
  {
    ghost var ms := JwkMembers(jwk);
    text := "    {\n";
    text := Append(text, ms, 0, MemberText(("kty", jwk.kty), false));
    text := Append(text, ms, 1, MemberText(("use", jwk.use), false));
    text := Append(text, ms, 2, MemberText(("alg", jwk.alg), false));
    text := Append(text, ms, 3, MemberText(("kid", jwk.kid), false));
    text := Append(text, ms, 4, MemberText(("n", jwk.n), false));
    text := Append(text, ms, 5, MemberText(("e", jwk.e), true));
    text := text + "    }" + (if isLast then "\n" else ",\n");
  }

  /** `oss << line`, where the line is the k-th member of the list still to be written. */
  function Append(text: string, ghost ms: seq<(string, string)>, ghost k: nat, line: string): (longer: string)
    requires k < |ms| && line == MemberText(ms[k], k + 1 == |ms|)
    ensures longer == text + line
    ensures longer + MembersText(ms[k + 1..]) == text + MembersText(ms[k..])
  {
    assert ms[k..][1..] == ms[k + 1..];
    text + line
  }
}
