/**
 Access tokens as JwtService.cpp builds and checks them: the compact form of section 2 of
 RFC 7515 over the claims of section 7 of RFC 7519.
 The JSON library and the RSA signature are foreign and enter as functions with a contract.
 */
module Jwt {
  import opened Wrappers
  import opened KeyManager
  import Base64Url

  /** The numbers of the claims and of the JSON library. */
  type int64 = n: int | Fits64(n)

  predicate Fits64(n: int) { -0x8000_0000_0000_0000 <= n < 0x8000_0000_0000_0000 }

  datatype JsonValue = Str(text: string) | Num(number: int64)

  type JsonObject = map<string, JsonValue>

  /** What the service calls outside this repository. `asInt` is the JSON library's cast to int64. */
  datatype Foreign = Foreign(
    dump: JsonObject -> seq<byte>,
    load: seq<byte> -> Option<JsonObject>,
    asInt: JsonValue -> Option<int64>,
    sign: (string, string) -> Option<seq<byte>>,
    verify: (string, string, seq<byte>) -> bool)

  /** A written object reads back, and a 64-bit number reads as itself. */
  ghost predicate JsonContract(lib: Foreign) {
    && (forall j :: lib.load(lib.dump(j)) == Some(j))
    && (forall n: int64 :: lib.asInt(Num(n)) == Some(n))
  }

  /** Signatures made with the private half verify under the public half. */
  ghost predicate PairContract(lib: Foreign, key: SigningKey) {
    forall m :: lib.sign(key.privatePem, m).Some? ==>
                  lib.verify(key.publicPem, m, lib.sign(key.privatePem, m).value)
  }

  datatype Claims = Claims(
    iss: string, sub: string, aud: string, iat: int64, nbf: int64, exp: int64,
    jti: string, sid: string, role: string, kid: string)

  /** `Thrown` is an exception of the JSON library for a member of the wrong type. */
  datatype Refusal =
    | Malformed | BadHeader | BadHeaderJson | UnsupportedAlgorithm | MissingKid | UnknownKey
    | InvalidSignature | BadPayload | BadPayloadJson | MissingClaims | WrongIssuer | WrongAudience
    | Expired | NotYetValid | Thrown

  datatype Service = Service(lib: Foreign, issuer: string, audience: string)

  // ----- Creation -----

  function HeaderObject(kid: string): JsonObject {
    map["alg" := Str("RS256"), "typ" := Str("JWT"), "kid" := Str(kid)]
  }

  function PayloadObject(c: Claims): JsonObject {
    map["iss" := Str(c.iss), "sub" := Str(c.sub), "aud" := Str(c.aud), "iat" := Num(c.iat), "nbf" := Num(c.nbf),
        "exp" := Num(c.exp), "jti" := Str(c.jti), "sid" := Str(c.sid), "role" := Str(c.role)]
  }

  function IssuedClaims(
    s: Service, key: SigningKey, userId: string, role: string, sessionId: string, jti: string, now: int64, ttl: int
  ): Claims
    requires Fits64(now + ttl)
  {
    Claims(s.issuer, userId, s.audience, now, now, now + ttl, jti, sessionId, role, key.kid)
  }

  function SigningInput(s: Service, c: Claims): string {
    Base64Url.EncodeText(s.lib.dump(HeaderObject(c.kid))) + "." + Base64Url.EncodeText(s.lib.dump(PayloadObject(c)))
  }

  function CreateAccessToken(
    s: Service, key: SigningKey, userId: string, role: string, sessionId: string, jti: string, now: int64, ttl: int
  ): string
    requires Fits64(now + ttl)
  {
    var input := SigningInput(s, IssuedClaims(s, key, userId, role, sessionId, jti, now, ttl));
    var signature := s.lib.sign(key.privatePem, input);
    if signature.None? then "" else input + "." + Base64Url.EncodeText(signature.value)
  }

  // ----- Validation -----

  /** `token.find('.', from)` */
  function FindDot(token: string, from: nat): (at: Option<nat>)
    requires from <= |token|
    ensures at.Some? ==> from <= at.value < |token| && token[at.value] == '.'
    decreases |token| - from
  {
    if from == |token| then None
    else if token[from] == '.' then Some(from)
    else FindDot(token, from + 1)
  }

  /** The three segments, or nothing unless there are exactly two dots. */
  function Segments(token: string): Option<(string, string, string)> {
    var first := FindDot(token, 0);
    if first.None? then None
    else
      var second := FindDot(token, first.value + 1);
      if second.None? || FindDot(token, second.value + 1).Some? then None
      else Some((token[..first.value], token[first.value + 1..second.value], token[second.value + 1..]))
  }

  function VerifyRs256(lib: Foreign, publicPem: string, message: string, signatureBase64Url: string): bool {
    var raw := Base64Url.DecodeText(signatureBase64Url);
    raw.Some? && lib.verify(publicPem, message, raw.value)
  }

  function ValidateAccessToken(s: Service, ring: KeyRing, token: string, now: int): Result<Claims, Refusal> {
    var segments := Segments(token);
    if segments.None? then Err(Malformed)
    else
      var (header, payload, signature) := segments.value;
      var headerText := Base64Url.DecodeText(header);
      if headerText.None? then Err(BadHeader)
      else
        var headerJson := s.lib.load(headerText.value);
        if headerJson.None? then Err(BadHeaderJson) else
        var h := headerJson.value;
        if "alg" !in h then Err(UnsupportedAlgorithm)
        else if !h["alg"].Str? then Err(Thrown)
        else if h["alg"].text != "RS256" then Err(UnsupportedAlgorithm)
        else if "kid" !in h || !h["kid"].Str? then Err(MissingKid)
        else
          var kid := h["kid"].text;
          var publicPem := Lookup(ring, kid);
          if publicPem.None? then Err(UnknownKey)
          else if !VerifyRs256(s.lib, publicPem.value, header + "." + payload, signature) then Err(InvalidSignature)
          else
            var payloadText := Base64Url.DecodeText(payload);
            if payloadText.None? then Err(BadPayload)
            else
              var payloadJson := s.lib.load(payloadText.value);
              if payloadJson.None? then Err(BadPayloadJson)
              else CheckClaims(s, payloadJson.value, kid, now)
  }

  function CheckClaims(s: Service, p: JsonObject, kid: string, now: int): Result<Claims, Refusal> {
    if !({"iss", "sub", "aud", "exp", "jti", "sid"} <= p.Keys) then Err(MissingClaims)
    else if !p["iss"].Str? then Err(Thrown)
    else if p["iss"].text != s.issuer then Err(WrongIssuer)
    else if !p["aud"].Str? then Err(Thrown)
    else if p["aud"].text != s.audience then Err(WrongAudience)
    else
      var exp := s.lib.asInt(p["exp"]);
      if exp.None? then Err(Thrown)
      else if now >= exp.value then Err(Expired)
      else
        var nbf := if "nbf" in p then s.lib.asInt(p["nbf"]) else Some(0);
        if nbf.None? then Err(Thrown)
        else if now < nbf.value then Err(NotYetValid)
        else
          var iat := if "iat" in p then s.lib.asInt(p["iat"]) else Some(0);
          var role := if "role" in p then p["role"] else Str("user");
          if iat.None? || !(p["sub"].Str? && p["jti"].Str? && p["sid"].Str? && role.Str?) then Err(Thrown)
          else Ok(Claims(p["iss"].text, p["sub"].text, p["aud"].text, iat.value, nbf.value, exp.value,
                         p["jti"].text, p["sid"].text, role.text, kid))
  }

  // ----- Splitting -----

  lemma {:induction false} FindDotSkips(token: string, from: nat, to: nat)
    requires from <= to <= |token| && '.' !in token[from..to]
    ensures FindDot(token, from) == FindDot(token, to)
    decreases |token| - from
  {
    if from < to {
      assert token[from] in token[from..to];
      assert token[from..to] == [token[from]] + token[from + 1..to];
      FindDotSkips(token, from + 1, to);
    }
  }

  /** Splitting a join of three dot-free segments is exact. */
  lemma SegmentsExact(a: string, b: string, c: string)
    requires '.' !in a && '.' !in b && '.' !in c
    ensures Segments(a + "." + b + "." + c) == Some((a, b, c))
  {
    var token := a + "." + b + "." + c;
    var m, n := |a|, |a| + 1 + |b|;
    assert token[0..m] == a && token[m + 1..n] == b && token[n + 1..|token|] == c;
    FindDotSkips(token, 0, m);
    FindDotSkips(token, m + 1, n);
    FindDotSkips(token, n + 1, |token|);
    assert token[n + 1..] == c;
  }

  lemma {:induction false} FindDotNone(token: string, from: nat)
    requires from <= |token|
    ensures match FindDot(token, from)
            case None => '.' !in token[from..]
            case Some(at) => '.' !in token[from..at]
    decreases |token| - from
  {
    if from < |token| && token[from] != '.' {
      FindDotNone(token, from + 1);
      assert token[from..] == [token[from]] + token[from + 1..];
      if FindDot(token, from).Some? {
        var at := FindDot(token, from).value;
        assert token[from..at] == [token[from]] + token[from + 1..at];
      }
    }
  }

  /** Whatever splits is the join of its three dot-free segments. */
  lemma SegmentsJoin(token: string)
    requires Segments(token).Some?
    ensures var (a, b, c) := Segments(token).value;
            token == a + "." + b + "." + c && '.' !in a && '.' !in b && '.' !in c
  {
    var m := FindDot(token, 0).value;
    var n := FindDot(token, m + 1).value;
    FindDotNone(token, 0);
    FindDotNone(token, m + 1);
    FindDotNone(token, n + 1);
    assert token[0..m] == token[..m];
  }

  // ----- The end-to-end law -----

  lemma IssuedClaimsPass(s: Service, c: Claims, now: int)
    requires JsonContract(s.lib) && c.iss == s.issuer && c.aud == s.audience
    ensures CheckClaims(s, PayloadObject(c), c.kid, now) ==
            if now >= c.exp then Err(Expired) else if now < c.nbf then Err(NotYetValid) else Ok(c)
  {
    var p := PayloadObject(c);
    assert {"iss", "sub", "aud", "exp", "jti", "sid"} <= p.Keys;
  }

  /** What validation says of an issued token under any ring, in terms of the key lookup alone. */
  lemma IssuedTokenValidates(
    s: Service, key: SigningKey, ring: KeyRing,
    userId: string, role: string, sid: string, jti: string, iat: int64, ttl: int, now: int)
    requires Fits64(iat + ttl) && JsonContract(s.lib) && PairContract(s.lib, key)
    requires CreateAccessToken(s, key, userId, role, sid, jti, iat, ttl) != ""
    requires Lookup(ring, key.kid) in {None, Some(key.publicPem)}
    ensures ValidateAccessToken(s, ring, CreateAccessToken(s, key, userId, role, sid, jti, iat, ttl), now) ==
            if Lookup(ring, key.kid).None? then Err(UnknownKey)
            else if now >= iat + ttl then Err(Expired)
            else if now < iat then Err(NotYetValid)
            else Ok(Claims(s.issuer, userId, s.audience, iat, iat, iat + ttl, jti, sid, role, key.kid))
  {
    hide CheckClaims, PayloadObject;
    var c := IssuedClaims(s, key, userId, role, sid, jti, iat, ttl);
    var header, payload := s.lib.dump(HeaderObject(c.kid)), s.lib.dump(PayloadObject(c));
    var signature := s.lib.sign(key.privatePem, SigningInput(s, c)).value;
    var a, b, g := Base64Url.EncodeText(header), Base64Url.EncodeText(payload), Base64Url.EncodeText(signature);
    Base64Url.EncodedShape(header);
    Base64Url.EncodedShape(payload);
    Base64Url.EncodedShape(signature);
    SegmentsExact(a, b, g);
    Base64Url.RoundTrip(header);
    Base64Url.RoundTrip(payload);
    Base64Url.RoundTrip(signature);
    IssuedClaimsPass(s, c, now);
  }

  /**
   A token signed with the key that was active after `before`, looked at when the keys
   `later` have been rotated in as well: up to five rotations it validates to its own claims
   at every second from iat up to but excluding exp; after the sixth its key is unknown.
   */
  lemma TokenLifetime(
    s: Service, first: SigningKey, before: seq<SigningKey>, later: seq<SigningKey>,
    userId: string, role: string, sid: string, jti: string, iat: int64, ttl: int, now: int)
    requires Fits64(iat + ttl) && JsonContract(s.lib)
    requires DistinctKids([first] + before + later)
    requires var key := RotateAll(KeyRing(first, []), before).active;
             PairContract(s.lib, key) && CreateAccessToken(s, key, userId, role, sid, jti, iat, ttl) != ""
    ensures var ring := RotateAll(KeyRing(first, []), before);
            var token := CreateAccessToken(s, ring.active, userId, role, sid, jti, iat, ttl);
            ValidateAccessToken(s, RotateAll(ring, later), token, now) ==
            if |later| > RETIRED then Err(UnknownKey)
            else if now >= iat + ttl then Err(Expired)
            else if now < iat then Err(NotYetValid)
            else Ok(Claims(s.issuer, userId, s.audience, iat, iat, iat + ttl, jti, sid, role, ring.active.kid))
  {
    hide ValidateAccessToken, CreateAccessToken;
    var start := KeyRing(first, []);
    assert Holds(start, [first]) by { assert [] + [first] == Newest([first]); }
    RotationsKeepNewest(start, [first], before);
    var ring := RotateAll(start, before);
    var history := [first] + before;
    assert ring.active == history[|before|] by {
      var window := ring.previous + [ring.active];
      assert window[|window| - 1] == ring.active;
    }
    RotationsKeepNewest(ring, history, later);
    assert (history + later)[|before|] == ring.active;
    LookupAnswersWindow(RotateAll(ring, later), history + later, |before|);
    IssuedTokenValidates(s, ring.active, RotateAll(ring, later), userId, role, sid, jti, iat, ttl, now);
  }

  /**
   Conversely, whatever validates is three dot-free segments whose last one is a signature of
   the other two under a key the ring still answers for, within its own time bounds.
   */
  lemma ValidatedTokenIsSigned(s: Service, ring: KeyRing, token: string, now: int)
    requires ValidateAccessToken(s, ring, token, now).Ok?
    ensures var c := ValidateAccessToken(s, ring, token, now).value;
            && c.iss == s.issuer && c.aud == s.audience && c.nbf <= now < c.exp
            && exists a: string, b: string, g: string ::
              && token == a + "." + b + "." + g
              && '.' !in a && '.' !in b && '.' !in g
              && Base64Url.DecodeText(g).Some?
              && (exists key :: key in ring.previous + [ring.active] && key.kid == c.kid
                    && s.lib.verify(key.publicPem, a + "." + b, Base64Url.DecodeText(g).value))
  {
    var c := ValidateAccessToken(s, ring, token, now).value;
    hide Segments, HeaderObject;
    var (a, b, g) := Segments(token).value;
    SegmentsJoin(token);
    LookupIsOfAKey(ring, c.kid);
  }

  lemma LookupIsOfAKey(ring: KeyRing, kid: string)
    requires Lookup(ring, kid).Some?
    ensures exists key ::
              key in ring.previous + [ring.active] && key.kid == kid && Some(key.publicPem) == Lookup(ring, kid)
  {
    if ring.active.kid == kid {
      assert ring.active in ring.previous + [ring.active];
    } else {
      LookupInIsOfAKey(ring.previous, kid);
      var key :| key in ring.previous && key.kid == kid && Some(key.publicPem) == LookupIn(ring.previous, kid);
      assert key in ring.previous + [ring.active];
    }
  }

  lemma {:induction false} LookupInIsOfAKey(keys: seq<SigningKey>, kid: string)
    requires LookupIn(keys, kid).Some?
    ensures exists key :: key in keys && key.kid == kid && Some(key.publicPem) == LookupIn(keys, kid)
  {
    if keys[0].kid != kid {
      LookupInIsOfAKey(keys[1..], kid);
    }
  }

  // ----- Exactly which tokens are accepted -----

  predicate HasSegments(token: string, a: string, b: string, g: string) {
    token == a + "." + b + "." + g && '.' !in a && '.' !in b && '.' !in g
  }

  /** The segment is an object in base64url. */
  predicate Carries(lib: Foreign, segment: string, j: JsonObject) {
    Base64Url.DecodeText(segment).Some? && lib.load(Base64Url.DecodeText(segment).value) == Some(j)
  }

  predicate SaysText(j: JsonObject, name: string, text: string) {
    name in j && j[name] == Str(text)
  }

  predicate SaysNumber(lib: Foreign, j: JsonObject, name: string, number: int64) {
    name in j && lib.asInt(j[name]) == Some(number)
  }

  /** What the payload says; three of its claims may be left out. */
  predicate SaysClaims(lib: Foreign, p: JsonObject, c: Claims) {
    && SaysText(p, "iss", c.iss) && SaysText(p, "sub", c.sub) && SaysText(p, "aud", c.aud)
    && SaysText(p, "jti", c.jti) && SaysText(p, "sid", c.sid) && SaysNumber(lib, p, "exp", c.exp)
    && (if "nbf" in p then SaysNumber(lib, p, "nbf", c.nbf) else c.nbf == 0)
    && (if "iat" in p then SaysNumber(lib, p, "iat", c.iat) else c.iat == 0)
    && (if "role" in p then SaysText(p, "role", c.role) else c.role == "user")
  }

  /** Three segments: an RS256 header that names a known key, the claims, and a signature of both under that key. */
  predicate SignedBy(lib: Foreign, ring: KeyRing, a: string, b: string, g: string, h: JsonObject, kid: string) {
    && Carries(lib, a, h) && SaysText(h, "alg", "RS256") && SaysText(h, "kid", kid)
    && Lookup(ring, kid).Some? && Base64Url.DecodeText(g).Some?
    && lib.verify(Lookup(ring, kid).value, a + "." + b, Base64Url.DecodeText(g).value)
  }

  ghost predicate Acceptable(s: Service, ring: KeyRing, token: string, c: Claims, now: int) {
    exists a, b, g, h, p ::
      && HasSegments(token, a, b, g) && SignedBy(s.lib, ring, a, b, g, h, c.kid)
      && Carries(s.lib, b, p) && SaysClaims(s.lib, p, c)
      && c.iss == s.issuer && c.aud == s.audience && c.nbf <= now < c.exp
  }

  lemma ClaimsExactlyWhen(s: Service, p: JsonObject, kid: string, now: int, c: Claims)
    ensures CheckClaims(s, p, kid, now) == Ok(c) <==>
            && SaysClaims(s.lib, p, c) && c.kid == kid
            && c.iss == s.issuer && c.aud == s.audience && c.nbf <= now < c.exp
  {
  }

  lemma SegmentsExactlyWhen(token: string, a: string, b: string, g: string)
    ensures Segments(token) == Some((a, b, g)) <==> HasSegments(token, a, b, g)
  {
    if Segments(token).Some? {
      SegmentsJoin(token);
    }
    if HasSegments(token, a, b, g) {
      SegmentsExact(a, b, g);
    }
    hide Segments;
  }

  /** Whatever the token: it is accepted with these claims exactly when it is signed, in time, and says them. */
  lemma AcceptedExactlyWhen(s: Service, ring: KeyRing, token: string, c: Claims, now: int)
    ensures ValidateAccessToken(s, ring, token, now) == Ok(c) <==> Acceptable(s, ring, token, c, now)
  {
    hide Segments, CheckClaims, SaysClaims, HasSegments, Lookup;
    if ValidateAccessToken(s, ring, token, now) == Ok(c) {
      var (a, b, g) := Segments(token).value;
      SegmentsExactlyWhen(token, a, b, g);
      var h := s.lib.load(Base64Url.DecodeText(a).value).value;
      var p := s.lib.load(Base64Url.DecodeText(b).value).value;
      KidOfClaims(s, p, h["kid"].text, now);
      ClaimsExactlyWhen(s, p, h["kid"].text, now, c);
      assert SignedBy(s.lib, ring, a, b, g, h, c.kid) && Carries(s.lib, b, p);
    }
    if a, b, g, h, p :|
      && HasSegments(token, a, b, g) && SignedBy(s.lib, ring, a, b, g, h, c.kid)
      && Carries(s.lib, b, p) && SaysClaims(s.lib, p, c)
      && c.iss == s.issuer && c.aud == s.audience && c.nbf <= now < c.exp {
      SegmentsExactlyWhen(token, a, b, g);
      ClaimsExactlyWhen(s, p, c.kid, now, c);
    }
  }

  lemma KidOfClaims(s: Service, p: JsonObject, kid: string, now: int)
    ensures CheckClaims(s, p, kid, now).Ok? ==> CheckClaims(s, p, kid, now).value.kid == kid
  {
  }

  /** What a refusal of the claims says of the payload. */
  ghost predicate ClaimsFail(s: Service, p: JsonObject, refusal: Refusal, now: int) {
    match refusal
    case MissingClaims => !({"iss", "sub", "aud", "exp", "jti", "sid"} <= p.Keys)
    case WrongIssuer => "iss" in p && !SaysText(p, "iss", s.issuer)
    case WrongAudience => "aud" in p && !SaysText(p, "aud", s.audience)
    case Expired => exists exp: int64 :: SaysNumber(s.lib, p, "exp", exp) && exp <= now
    case NotYetValid =>
      if "nbf" in p then exists nbf: int64 :: SaysNumber(s.lib, p, "nbf", nbf) && now < nbf else now < 0
    case Thrown => true
    case _ => false
  }

  lemma ClaimsFailForTheirReason(s: Service, p: JsonObject, kid: string, now: int)
    ensures var r := CheckClaims(s, p, kid, now); r.Err? ==> ClaimsFail(s, p, r.error, now)
  {
    var r := CheckClaims(s, p, kid, now);
    if r == Err(Expired) {
      assert SaysNumber(s.lib, p, "exp", s.lib.asInt(p["exp"]).value);
    } else if r == Err(NotYetValid) && "nbf" in p {
      assert SaysNumber(s.lib, p, "nbf", s.lib.asInt(p["nbf"]).value);
    }
  }

  /** What a refusal says of a token in three segments with this header. */
  ghost predicate HeaderFails(
    s: Service, ring: KeyRing, a: string, b: string, g: string, h: JsonObject, refusal: Refusal, now: int)
  {
    match refusal
    case UnsupportedAlgorithm => !SaysText(h, "alg", "RS256")
    case MissingKid => SaysText(h, "alg", "RS256") && forall kid :: !SaysText(h, "kid", kid)
    case UnknownKey => exists kid :: SaysText(h, "kid", kid) && Lookup(ring, kid) == None
    case InvalidSignature =>
      exists kid :: SaysText(h, "kid", kid) && Lookup(ring, kid).Some? && !SignedBy(s.lib, ring, a, b, g, h, kid)
    case BadPayload => (exists kid :: SignedBy(s.lib, ring, a, b, g, h, kid)) && Base64Url.DecodeText(b).None?
    case BadPayloadJson => (exists kid :: SignedBy(s.lib, ring, a, b, g, h, kid)) && forall p :: !Carries(s.lib, b, p)
    case _ =>
      || (refusal == Thrown && "alg" in h && !h["alg"].Str?)
      || ((exists kid :: SignedBy(s.lib, ring, a, b, g, h, kid))
          && exists p :: Carries(s.lib, b, p) && ClaimsFail(s, p, refusal, now))
  }

  /** Every refusal is true of the token, and none about the payload comes before its signature has verified. */
  lemma RefusedForItsReason(s: Service, ring: KeyRing, token: string, now: int)
    requires ValidateAccessToken(s, ring, token, now).Err?
    ensures var refusal := ValidateAccessToken(s, ring, token, now).error;
            if refusal == Malformed then forall a, b, g :: !HasSegments(token, a, b, g)
            else
              exists a, b, g ::
                && HasSegments(token, a, b, g)
                && if refusal == BadHeader then Base64Url.DecodeText(a).None?
                   else if refusal == BadHeaderJson then forall j :: !Carries(s.lib, a, j)
                   else exists h :: Carries(s.lib, a, h) && HeaderFails(s, ring, a, b, g, h, refusal, now)
  {
    forall a, b, g
      ensures Segments(token) == Some((a, b, g)) <==> HasSegments(token, a, b, g)
    {
      SegmentsExactlyWhen(token, a, b, g);
    }
    hide Segments, CheckClaims, ClaimsFail, HasSegments, Lookup;
    if Segments(token).Some? {
      var (a, b, g) := Segments(token).value;
      var refusal := ValidateAccessToken(s, ring, token, now).error;
      if Base64Url.DecodeText(a).Some? && s.lib.load(Base64Url.DecodeText(a).value).Some? {
        var h := s.lib.load(Base64Url.DecodeText(a).value).value;
        HeaderRefusal(s, ring, a, b, g, h, now);
        assert Carries(s.lib, a, h);
      }
    }
  }

  /** The checks that follow the header's reading. */
  lemma HeaderRefusal(
    s: Service, ring: KeyRing, a: string, b: string, g: string, h: JsonObject, now: int)
    requires Carries(s.lib, a, h)
    ensures forall token :: Segments(token) == Some((a, b, g)) && ValidateAccessToken(s, ring, token, now).Err? ==>
              HeaderFails(s, ring, a, b, g, h, ValidateAccessToken(s, ring, token, now).error, now)
  {
    hide Segments, CheckClaims, ClaimsFail, HasSegments, Lookup;
    if "kid" in h && h["kid"].Str? {
      var kid := h["kid"].text;
      assert SaysText(h, "kid", kid);
      if Base64Url.DecodeText(b).Some? && s.lib.load(Base64Url.DecodeText(b).value).Some? {
        var p := s.lib.load(Base64Url.DecodeText(b).value).value;
        assert Carries(s.lib, b, p);
        ClaimsFailForTheirReason(s, p, kid, now);
      }
      assert SignedBy(s.lib, ring, a, b, g, h, kid) || !SignedBy(s.lib, ring, a, b, g, h, kid);
    }
  }

  /** The header names the algorithm and the key, the payload says the claims, the signature is of both. */
  predicate SignedClaims(lib: Foreign, key: SigningKey, a: string, b: string, g: string, h: JsonObject, p: JsonObject,
                         c: Claims)
  {
    && Carries(lib, a, h) && Carries(lib, b, p)
    && SaysText(h, "alg", "RS256") && SaysText(h, "typ", "JWT") && SaysText(h, "kid", key.kid) && SaysClaims(lib, p, c)
    && lib.sign(key.privatePem, a + "." + b) == Base64Url.DecodeText(g)
  }

  lemma HeaderSays(kid: string)
    ensures var h := HeaderObject(kid);
            SaysText(h, "alg", "RS256") && SaysText(h, "typ", "JWT") && SaysText(h, "kid", kid)
  {
  }

  lemma PayloadSays(lib: Foreign, c: Claims)
    requires JsonContract(lib)
    ensures SaysClaims(lib, PayloadObject(c), c)
  {
  }

  /** An issued token says the claims as given under the key's signature, or there is none. */
  lemma IssuedTokenIsSigned(
    s: Service, key: SigningKey, userId: string, role: string, sid: string, jti: string, iat: int64, ttl: int)
    requires Fits64(iat + ttl) && JsonContract(s.lib)
    ensures var token := CreateAccessToken(s, key, userId, role, sid, jti, iat, ttl);
            var c := Claims(s.issuer, userId, s.audience, iat, iat, iat + ttl, jti, sid, role, key.kid);
            || (token == "" && s.lib.sign(key.privatePem, SigningInput(s, c)).None?)
            || exists a, b, g, h, p :: HasSegments(token, a, b, g) && SignedClaims(s.lib, key, a, b, g, h, p, c)
  {
    var c := IssuedClaims(s, key, userId, role, sid, jti, iat, ttl);
    var signature := s.lib.sign(key.privatePem, SigningInput(s, c));
    if signature.Some? {
      var h, p := HeaderObject(c.kid), PayloadObject(c);
      var a, b := Base64Url.EncodeText(s.lib.dump(h)), Base64Url.EncodeText(s.lib.dump(p));
      var g := Base64Url.EncodeText(signature.value);
      HeaderSays(c.kid);
      PayloadSays(s.lib, c);
      hide HeaderObject, PayloadObject, SaysClaims, SaysText, Base64Url.EncodeText, Base64Url.DecodeText,
        Base64Url.IsUrlSafe, JsonContract, Carries;
      SegmentCarries(s.lib, h);
      SegmentCarries(s.lib, p);
      Base64Url.EncodedShape(signature.value);
      Base64Url.RoundTrip(signature.value);
      assert HasSegments(a + "." + b + "." + g, a, b, g);
      assert SignedClaims(s.lib, key, a, b, g, h, p, c);
    }
  }

  lemma SegmentCarries(lib: Foreign, j: JsonObject)
    requires JsonContract(lib)
    ensures Carries(lib, Base64Url.EncodeText(lib.dump(j)), j) && '.' !in Base64Url.EncodeText(lib.dump(j))
  {
    Base64Url.EncodedShape(lib.dump(j));
    Base64Url.RoundTrip(lib.dump(j));
  }
}
