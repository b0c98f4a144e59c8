/**
 GoogleAuthService.cpp: percent-encoding (section 2 of RFC 3986), the authorization URL, and the
 PKCE verifier and challenge (sections 4.1 and 4.2 of RFC 7636).
 */
module AuthUrl {
  import opened Wrappers
  import opened Hex
  import Base64Url

  predicate IsUnreserved(c: char) {
    'A' <= c <= 'Z' || 'a' <= c <= 'z' || '0' <= c <= '9' || c in {'-', '_', '.', '~'}
  }

  function EncodeByte(b: byte): string {
    if IsUnreserved(b as char) then [b as char] else "%" + HexByte(b)
  }

  function EncodedText(text: seq<byte>): string {
    if text == [] then "" else EncodeByte(text[0]) + EncodedText(text[1..])
  }

  /** Percent-decoding of text in unreserved characters; hexadecimal of either case. */
  function DecodedText(s: string): (text: Option<seq<byte>>)
    decreases |s|
  {
    if s == "" then Some([])
    else if s[0] == '%' then
      if |s| >= 3 && HexValue(s[1]).Some? && HexValue(s[2]).Some? then
        Prepend(HexValue(s[1]).value * 16 + HexValue(s[2]).value, DecodedText(s[3..]))
      else None
    else if IsUnreserved(s[0]) then Prepend(s[0] as int, DecodedText(s[1..]))
    else None
  }

  function Prepend(b: int, rest: Option<seq<byte>>): Option<seq<byte>>
    requires 0 <= b < 256
  {
    if rest.Some? then Some([b as byte] + rest.value) else None
  }

  lemma {:induction false} EncodedMore(text: seq<byte>, b: byte)
    ensures EncodedText(text + [b]) == EncodedText(text) + EncodeByte(b)
    decreases |text|
  {
    hide EncodeByte;
    if text == [] {
      assert [b][1..] == [];
      assert EncodedText([b]) == EncodeByte(b) + "";
    } else {
      EncodedMore(text[1..], b);
      assert (text + [b])[1..] == text[1..] + [b];
    }
  }

  method UrlEncode(text: seq<byte>) returns (escaped: string)
    ensures escaped == EncodedText(text)
  {
    escaped := "";
    for i := 0 to |text|
      invariant escaped == EncodedText(text[..i])
    {
      EncodedMore(text[..i], text[i]);
      assert text[..i + 1] == text[..i] + [text[i]];
      if IsUnreserved(text[i] as char) {
        escaped := escaped + [text[i] as char];
      } else {
        escaped := escaped + ("%" + HexByte(text[i]));
      }
    }
    assert text[..|text|] == text;
  }

  /** Nothing but unreserved characters and the percent sign, so no '?', '&', '=' or '#'. */
  lemma {:induction false} EncodedAlphabet(text: seq<byte>)
    ensures forall c :: c in EncodedText(text) ==> IsUnreserved(c) || c == '%'
    decreases |text|
  {
    if text != [] {
      EncodedAlphabet(text[1..]);
      assert forall c :: c in EncodeByte(text[0]) ==> IsUnreserved(c) || c == '%';
      hide EncodeByte;
    }
  }

  lemma DecodeOne(b: byte, rest: string)
    ensures DecodedText(EncodeByte(b) + rest) == Prepend(b as int, DecodedText(rest))
  {
    var s := EncodeByte(b) + rest;
    if IsUnreserved(b as char) {
      assert s[1..] == rest;
    } else {
      HexDigitReadsBack(b as int / 16);
      HexDigitReadsBack(b as int % 16);
      assert s[3..] == rest;
    }
  }

  /** Every text comes back, so the encoding is injective. */
  lemma {:induction false} EncodedReadsBack(text: seq<byte>)
    ensures DecodedText(EncodedText(text)) == Some(text)
    decreases |text|
  {
    if text != [] {
      EncodedReadsBack(text[1..]);
      DecodeOne(text[0], EncodedText(text[1..]));
      hide EncodeByte;
      assert [text[0]] + text[1..] == text;
    }
  }

  // ----- The URL -----

  predicate AllOctets(s: string) { forall c :: c in s ==> c as int < 256 }

  /** The octets of a C++ string. */
  function Octets(s: string): (text: seq<byte>)
    requires AllOctets(s)
    ensures |text| == |s|
  {
    if s == "" then [] else
      assert s[0] in s && forall c :: c in s[1..] ==> c in s;
      [s[0] as int as byte] + Octets(s[1..])
  }

  /** Plain words encode as themselves. */
  lemma {:induction false} PlainText(s: string)
    requires forall c :: c in s ==> IsUnreserved(c)
    ensures AllOctets(s) && EncodedText(Octets(s)) == s
    decreases |s|
  {
    if s != "" {
      var rest := s[1..];
      assert s[0] in s && forall c :: c in rest ==> c in s;
      PlainText(rest);
      PlainChar(s[0]);
      hide EncodeByte, IsUnreserved;
      assert Octets(s) == [s[0] as int as byte] + Octets(rest);
      assert Octets(s)[1..] == Octets(rest);
    }
  }

  lemma PlainChar(c: char)
    requires IsUnreserved(c)
    ensures c as int < 256 && EncodeByte(c as int as byte) == [c]
  {
  }

  datatype Name =
    | ClientId | RedirectUri | ResponseType | Scope | AccessType | Prompt | State | Challenge | ChallengeMethod

  function NameText(n: Name): string {
    match n
    case ClientId => "client_id"
    case RedirectUri => "redirect_uri"
    case ResponseType => "response_type"
    case Scope => "scope"
    case AccessType => "access_type"
    case Prompt => "prompt"
    case State => "state"
    case Challenge => "code_challenge"
    case ChallengeMethod => "code_challenge_method"
  }

  /** The values that are the same in every URL. */
  datatype Word = Code | Offline | Consent | Sha256

  function WordText(w: Word): string {
    match w
    case Code => "code"
    case Offline => "offline"
    case Consent => "consent"
    case Sha256 => "S256"
  }

  lemma WordIsPlain(w: Word)
    ensures forall c :: c in WordText(w) ==> IsUnreserved(c)
  {
  }

  function WordBytes(w: Word): seq<byte> {
    assert AllOctets(WordText(w)) by { WordIsPlain(w); }
    Octets(WordText(w))
  }

  lemma WordEncodes(w: Word)
    ensures EncodedText(WordBytes(w)) == WordText(w)
  {
    WordIsPlain(w);
    hide WordText;
    PlainText(WordText(w));
  }

  datatype Parameter = Parameter(name: string, value: seq<byte>)

  function Base(): string { "https://accounts.google.com/o/oauth2/v2/auth" }

  /** "openid email profile" */
  const SCOPE: seq<byte> :=
    [111, 112, 101, 110, 105, 100, 32, 101, 109, 97, 105, 108, 32, 112, 114, 111, 102, 105, 108, 101]

  function Pair(p: Parameter): string { p.name + "=" + EncodedText(p.value) }

  /** The query `a=x&b=y&...` */
  function Query(ps: seq<Parameter>): string
    requires ps != []
  {
    if |ps| == 1 then Pair(ps[0]) else Query(ps[..|ps| - 1]) + "&" + Pair(ps[|ps| - 1])
  }

  /** What is asked of Google: state and challenge only when there is one. */
  function Parameters(clientId: seq<byte>, redirectUri: seq<byte>, state: seq<byte>, challenge: seq<byte>)
    : seq<Parameter>
  {
    Fixed(clientId, redirectUri) + StatePart(state) + ChallengePart(challenge)
  }

  function StatePart(state: seq<byte>): seq<Parameter> {
    if state == [] then [] else [Parameter(NameText(State), state)]
  }

  function ChallengePart(challenge: seq<byte>): seq<Parameter> {
    if challenge == [] then []
    else [Parameter(NameText(Challenge), challenge)] + [Parameter(NameText(ChallengeMethod), WordBytes(Sha256))]
  }

  function Fixed(clientId: seq<byte>, redirectUri: seq<byte>): seq<Parameter> {
    [Parameter(NameText(ClientId), clientId), Parameter(NameText(RedirectUri), redirectUri),
     Parameter(NameText(ResponseType), WordBytes(Code)), Parameter(NameText(Scope), SCOPE),
     Parameter(NameText(AccessType), WordBytes(Offline)), Parameter(NameText(Prompt), WordBytes(Consent))]
  }

  /** The authorization URL as a query of its parameters. */
  function Url(clientId: seq<byte>, redirectUri: seq<byte>, state: seq<byte>, challenge: seq<byte>): string {
    Base() + "?" + Query(Parameters(clientId, redirectUri, state, challenge))
  }

  lemma QueryMore(ps: seq<Parameter>, p: Parameter)
    requires ps != []
    ensures Query(ps + [p]) == Query(ps) + ("&" + Pair(p))
  {
    assert (ps + [p])[..|ps|] == ps;
    hide Pair;
    assert Query(ps) + ("&" + Pair(p)) == Query(ps) + "&" + Pair(p);
  }

  /** One `url += ...`, with the query so far. */
  lemma AppendsPair(url: string, ps: seq<Parameter>, p: Parameter)
    requires ps != [] && url == Base() + "?" + Query(ps)
    ensures url + "&" + Pair(p) == Base() + "?" + Query(ps + [p])
  {
    hide Base, Pair, Query;
    QueryMore(ps, p);
    assert Base() + "?" + (Query(ps) + ("&" + Pair(p))) == Base() + "?" + Query(ps) + "&" + Pair(p);
  }

  method AppendParameter(url: string, name: Name, text: string, ghost ps: seq<Parameter>, ghost value: seq<byte>)
    returns (longer: string)
    requires ps != [] && url == Base() + "?" + Query(ps) && text == EncodedText(value)
    ensures longer == Base() + "?" + Query(ps + [Parameter(NameText(name), value)])
  {
    hide Base, Query, EncodedText, NameText;
    AppendsPair(url, ps, Parameter(NameText(name), value));
    longer := url + "&" + (NameText(name) + "=" + text);
  }

  method FixedPart(clientId: seq<byte>, redirectUri: seq<byte>) returns (url: string)
    ensures url == Base() + "?" + Query(Fixed(clientId, redirectUri))
  {
    hide Base, Query, EncodedText, NameText, WordText, WordBytes, Fixed, SCOPE;
    ghost var p0, p1 := Parameter(NameText(ClientId), clientId), Parameter(NameText(RedirectUri), redirectUri);
    ghost var p2, p3 := Parameter(NameText(ResponseType), WordBytes(Code)), Parameter(NameText(Scope), SCOPE);
    ghost var p4 := Parameter(NameText(AccessType), WordBytes(Offline));
    var client := UrlEncode(clientId);
    url := Base() + "?" + (NameText(ClientId) + "=" + client);
    OneQuery(p0);
    var redirect := UrlEncode(redirectUri);
    url := AppendParameter(url, RedirectUri, redirect, [p0], redirectUri);
    WordEncodes(Code);
    url := AppendParameter(url, ResponseType, WordText(Code), [p0] + [p1], WordBytes(Code));
    var scope := UrlEncode(SCOPE);
    url := AppendParameter(url, Scope, scope, [p0] + [p1] + [p2], SCOPE);
    WordEncodes(Offline);
    url := AppendParameter(url, AccessType, WordText(Offline), [p0] + [p1] + [p2] + [p3], WordBytes(Offline));
    WordEncodes(Consent);
    url := AppendParameter(url, Prompt, WordText(Consent), [p0] + [p1] + [p2] + [p3] + [p4], WordBytes(Consent));
    FixedInSteps(clientId, redirectUri);
  }

  lemma FixedInSteps(clientId: seq<byte>, redirectUri: seq<byte>)
    ensures Fixed(clientId, redirectUri) ==
            [Parameter(NameText(ClientId), clientId)] + [Parameter(NameText(RedirectUri), redirectUri)]
            + [Parameter(NameText(ResponseType), WordBytes(Code))] + [Parameter(NameText(Scope), SCOPE)]
            + [Parameter(NameText(AccessType), WordBytes(Offline))] + [Parameter(NameText(Prompt), WordBytes(Consent))]
  {
    hide NameText, WordBytes, SCOPE;
  }

  method AppendState(url: string, state: seq<byte>, ghost ps: seq<Parameter>) returns (longer: string)
    requires ps != [] && url == Base() + "?" + Query(ps)
    ensures longer == Base() + "?" + Query(ps + StatePart(state))
  {
    hide Base, Query, EncodedText, NameText;
    longer := url;
    if state != [] {
      var encoded := UrlEncode(state);
      longer := AppendParameter(url, State, encoded, ps, state);
    } else {
      assert ps + [] == ps;
    }
  }

  method AppendChallenge(url: string, challenge: seq<byte>, ghost ps: seq<Parameter>) returns (longer: string)
    requires ps != [] && url == Base() + "?" + Query(ps)
    ensures longer == Base() + "?" + Query(ps + ChallengePart(challenge))
  {
    hide Base, Query, EncodedText, NameText, WordText, WordBytes;
    longer := url;
    if challenge != [] {
      ghost var p := Parameter(NameText(Challenge), challenge);
      ghost var m := Parameter(NameText(ChallengeMethod), WordBytes(Sha256));
      var encoded := UrlEncode(challenge);
      longer := AppendParameter(url, Challenge, encoded, ps, challenge);
      WordEncodes(Sha256);
      longer := AppendParameter(longer, ChallengeMethod, WordText(Sha256), ps + [p], WordBytes(Sha256));
      assert ps + [p] + [m] == ps + ([p] + [m]);
    } else {
      assert ps + [] == ps;
    }
  }

  method GetAuthorizationUrl(clientId: seq<byte>, redirectUri: seq<byte>, state: seq<byte>, challenge: seq<byte>)
    returns (url: string)
    ensures url == Url(clientId, redirectUri, state, challenge)
  {
    ghost var ps := Fixed(clientId, redirectUri);
    assert ps != [] by { hide NameText, WordBytes, SCOPE; }
    hide Base, Query, EncodedText, Fixed, StatePart, ChallengePart;
    url := FixedPart(clientId, redirectUri);
    url := AppendState(url, state, ps);
    url := AppendChallenge(url, challenge, ps + StatePart(state));
  }

  lemma OneQuery(p: Parameter)
    ensures Query([p]) == p.name + "=" + EncodedText(p.value)
  {
  }

  // ----- Reading the URL -----

  /** Where c first occurs, or the length. */
  function IndexOf(s: string, c: char): (k: nat)
    ensures k <= |s| && (k < |s| ==> s[k] == c) && forall j :: 0 <= j < k ==> s[j] != c
    decreases |s|
  {
    if s == "" || s[0] == c then 0
    else
      assert forall j :: 0 < j < |s| ==> s[j] == s[1..][j - 1];
      1 + IndexOf(s[1..], c)
  }

  lemma IndexAfter(a: string, c: char, b: string)
    requires c !in a
    ensures IndexOf(a + [c] + b, c) == |a|
    ensures (a + [c] + b)[..|a|] == a && (a + [c] + b)[|a| + 1..] == b
  {
    var s := a + [c] + b;
    assert s[|a|] == c;
    assert forall j :: 0 <= j < |a| ==> s[j] == a[j];
  }

  lemma NoIndex(a: string, c: char)
    requires c !in a
    ensures IndexOf(a, c) == |a|
  {
  }

  /** Split at every '&'. */
  function Split(s: string): (pieces: seq<string>)
    ensures pieces != []
    decreases |s|
  {
    var k := IndexOf(s, '&');
    if k == |s| then [s] else [s[..k]] + Split(s[k + 1..])
  }

  function ReadPair(piece: string): Option<Parameter> {
    var k := IndexOf(piece, '=');
    if k == |piece| then None
    else
      match DecodedText(piece[k + 1..])
      case None => None
      case Some(value) => Some(Parameter(piece[..k], value))
  }

  function ReadPairs(pieces: seq<string>): seq<Option<Parameter>> {
    seq(|pieces|, i requires 0 <= i < |pieces| => ReadPair(pieces[i]))
  }

  /** What stands behind the first '?', parameter by parameter. */
  function ReadUrl(url: string): seq<Option<Parameter>> {
    var k := IndexOf(url, '?');
    if k == |url| then [] else ReadPairs(Split(url[k + 1..]))
  }

  /** A name without the three separators. */
  predicate PlainName(name: string) { '&' !in name && '=' !in name }

  lemma PairReadsBack(p: Parameter)
    requires PlainName(p.name)
    ensures ReadPair(Pair(p)) == Some(p)
  {
    var text := EncodedText(p.value);
    EncodedReadsBack(p.value);
    IndexAfter(p.name, '=', text);
    hide EncodedText, DecodedText, IndexOf, PlainName;
    assert Pair(p) == p.name + ['='] + text;
  }

  lemma PairIsOnePiece(p: Parameter)
    requires PlainName(p.name)
    ensures '&' !in Pair(p)
  {
    EncodedAlphabet(p.value);
    hide EncodedText;
  }

  lemma {:induction false} SplitMore(s: string, piece: string)
    requires '&' !in piece
    ensures Split(s + "&" + piece) == Split(s) + [piece]
    decreases |s|
  {
    var k := IndexOf(s, '&');
    var longer := s + "&" + piece;
    if k == |s| {
      IndexAfter(s, '&', piece);
      NoIndex(piece, '&');
    } else {
      var head, rest := s[..k], s[k + 1..];
      assert s == head + "&" + rest;
      assert longer == head + "&" + (rest + "&" + piece);
      IndexAfter(head, '&', rest + "&" + piece);
      SplitMore(rest, piece);
    }
  }

  function Pairs(ps: seq<Parameter>): seq<string> {
    seq(|ps|, i requires 0 <= i < |ps| => Pair(ps[i]))
  }

  lemma LastPair(ps: seq<Parameter>)
    requires ps != []
    ensures Pairs(ps) == Pairs(ps[..|ps| - 1]) + [Pair(ps[|ps| - 1])]
  {
    hide Pair;
  }

  lemma {:induction false} QuerySplits(ps: seq<Parameter>)
    requires ps != [] && forall p :: p in ps ==> PlainName(p.name)
    ensures Split(Query(ps)) == Pairs(ps)
    decreases |ps|
  {
    var n := |ps|;
    assert ps[n - 1] in ps;
    PairIsOnePiece(ps[n - 1]);
    LastPair(ps);
    hide Pair, PlainName, Split, Pairs;
    if n == 1 {
      SplitNone(Pair(ps[0]));
      assert Pairs([]) == [] by { NoPairs(); }
    } else {
      var init := ps[..n - 1];
      assert forall p :: p in init ==> p in ps;
      QuerySplits(init);
      SplitMore(Query(init), Pair(ps[n - 1]));
    }
  }

  lemma NoPairs()
    ensures Pairs([]) == []
  {
  }

  lemma SplitNone(piece: string)
    requires '&' !in piece
    ensures Split(piece) == [piece]
  {
    NoIndex(piece, '&');
  }

  lemma NameIsPlain(n: Name)
    ensures PlainName(NameText(n))
  {
  }

  lemma NamesArePlain(clientId: seq<byte>, redirectUri: seq<byte>, state: seq<byte>, challenge: seq<byte>)
    ensures forall p :: p in Parameters(clientId, redirectUri, state, challenge) ==> PlainName(p.name)
  {
    hide WordBytes, NameText, PlainName, SCOPE;
    forall n: Name
      ensures PlainName(NameText(n))
    {
      NameIsPlain(n);
    }
  }

  lemma BaseIsPlain()
    ensures '?' !in Base()
  {
  }

  /** Reading the authorization URL gives exactly the parameters that went in, in order. */
  lemma UrlReadsBack(clientId: seq<byte>, redirectUri: seq<byte>, state: seq<byte>, challenge: seq<byte>)
    ensures var ps := Parameters(clientId, redirectUri, state, challenge);
            var read := ReadUrl(Url(clientId, redirectUri, state, challenge));
            |read| == |ps| && forall i :: 0 <= i < |ps| ==> read[i] == Some(ps[i])
  {
    var ps := Parameters(clientId, redirectUri, state, challenge);
    NamesArePlain(clientId, redirectUri, state, challenge);
    assert ps != [] by { hide WordBytes, NameText, SCOPE; }
    hide Parameters, Query, ReadUrl, Base, Split, ReadPair, Pair, PlainName;
    ReadsQuery(Query(ps));
    QuerySplits(ps);
    forall i | 0 <= i < |ps|
      ensures ReadPair(Pair(ps[i])) == Some(ps[i])
    {
      assert ps[i] in ps;
      PairReadsBack(ps[i]);
    }
  }

  lemma ReadsQuery(query: string)
    ensures ReadUrl(Base() + "?" + query) == ReadPairs(Split(query))
  {
    BaseIsPlain();
    hide Base, Split, ReadPairs, IndexOf;
    IndexAfter(Base(), '?', query);
  }

  // ----- In words -----

  lemma {:induction false} OctetsAt(s: string)
    requires AllOctets(s)
    ensures forall i :: 0 <= i < |s| ==> Octets(s)[i] as int == s[i] as int
    decreases |s|
  {
    if s != "" {
      assert s[0] in s && forall c :: c in s[1..] ==> c in s;
      OctetsAt(s[1..]);
      assert forall i :: 1 <= i < |s| ==> s[i] == s[1..][i - 1];
    }
  }

  predicate Reads(read: Option<Parameter>, name: string, value: seq<byte>) {
    read == Some(Parameter(name, value))
  }

  predicate IsWord(value: seq<byte>, word: string) {
    |value| == |word| && forall i :: 0 <= i < |word| ==> value[i] as int == word[i] as int
  }

  predicate ReadsWord(read: Option<Parameter>, name: string, word: string) {
    read.Some? && read.value.name == name && IsWord(read.value.value, word)
  }

  lemma ValuesInWords()
    ensures IsWord(WordBytes(Code), "code") && IsWord(WordBytes(Offline), "offline")
    ensures IsWord(WordBytes(Consent), "consent") && IsWord(WordBytes(Sha256), "S256")
    ensures IsWord(SCOPE, "openid email profile")
  {
    forall w: Word
      ensures IsWord(WordBytes(w), WordText(w))
    {
      WordIsPlain(w);
      OctetsAt(WordText(w));
    }
    hide IsWord, WordBytes;
    assert IsWord(SCOPE, "openid email profile") by { ScopeInWords(); }
  }

  lemma ScopeInWords()
    ensures IsWord(SCOPE, "openid email profile")
  {
  }

  /** What Google reads, literally: six parameters, the state if there is one, and two for a challenge. */
  lemma UrlInWords(clientId: seq<byte>, redirectUri: seq<byte>, state: seq<byte>, challenge: seq<byte>)
    ensures var read := ReadUrl(Url(clientId, redirectUri, state, challenge));
            var k := if state == [] then 6 else 7;
            && |read| == k + (if challenge == [] then 0 else 2)
            && Reads(read[0], "client_id", clientId) && Reads(read[1], "redirect_uri", redirectUri)
            && ReadsWord(read[2], "response_type", "code") && ReadsWord(read[3], "scope", "openid email profile")
            && ReadsWord(read[4], "access_type", "offline") && ReadsWord(read[5], "prompt", "consent")
            && (state != [] ==> Reads(read[6], "state", state))
            && (challenge != [] ==>
                  && Reads(read[k], "code_challenge", challenge)
                  && ReadsWord(read[k + 1], "code_challenge_method", "S256"))
  {
    ValuesInWords();
    hide ReadUrl, Octets, Query, IsUnreserved, SCOPE, IsWord, WordBytes, Url;
    UrlReadsBack(clientId, redirectUri, state, challenge);
  }

  /** It goes to Google's endpoint. */
  lemma UrlGoesToGoogle(clientId: seq<byte>, redirectUri: seq<byte>, state: seq<byte>, challenge: seq<byte>)
    ensures var url := Url(clientId, redirectUri, state, challenge);
            exists query :: url == "https://accounts.google.com/o/oauth2/v2/auth" + "?" + query
  {
    var ps := Parameters(clientId, redirectUri, state, challenge);
    assert ps != [] by { hide WordBytes, NameText, SCOPE; }
    hide Query, Parameters;
    assert Url(clientId, redirectUri, state, challenge)
        == "https://accounts.google.com/o/oauth2/v2/auth" + "?" + Query(ps);
  }

  // ----- PKCE -----

  /** Entry `b % 66` of `A-Z a-z 0-9 - . _ ~`. */
  function VerifierChar(b: byte): (c: char)
    ensures IsUnreserved(c)
  {
    var k := b as int % 66;
    if k < 26 then ('A' as int + k) as char
    else if k < 52 then ('a' as int + k - 26) as char
    else if k < 62 then ('0' as int + k - 52) as char
    else if k == 62 then '-' else if k == 63 then '.' else if k == 64 then '_' else '~'
  }

  function Letters(): string { "ABCDEFGHIJKLMNOPQRSTUVWXYZ" }

  function SmallLetters(): string { "abcdefghijklmnopqrstuvwxyz" }

  function Others(): string { "0123456789-._~" }

  lemma LetterAt(k: nat)
    requires k < 26
    ensures |Letters()| == |SmallLetters()| == 26
    ensures Letters()[k] == VerifierChar(k) && SmallLetters()[k] == VerifierChar(26 + k)
  {
    hide IsUnreserved;
  }

  lemma OtherAt(k: nat)
    requires k < 14
    ensures |Others()| == 14 && Others()[k] == VerifierChar(52 + k)
  {
  }

  lemma CharsetAt(k: nat)
    requires k < 66
    ensures |Letters() + SmallLetters() + Others()| == 66
    ensures VerifierChar(k) == (Letters() + SmallLetters() + Others())[k]
  {
    hide Letters, SmallLetters, Others, VerifierChar;
    LetterAt(if k < 26 then k else if k < 52 then k - 26 else 0);
    OtherAt(if k < 52 then 0 else k - 52);
  }

  /** The characters in the order in which octets draw them. */
  lemma VerifierCharset(b: byte)
    ensures |Letters() + SmallLetters() + Others()| == 66
    ensures VerifierChar(b) == (Letters() + SmallLetters() + Others())[b as int % 66]
  {
    assert VerifierChar(b) == VerifierChar(b as int % 66);
    hide Letters, SmallLetters, Others, VerifierChar;
    CharsetAt(b as int % 66);
  }

  /** Every entry of the set of characters can be drawn. */
  lemma EveryCharCanBeDrawn(c: char)
    requires IsUnreserved(c)
    ensures exists b: byte :: VerifierChar(b) == c
  {
    var k := if 'A' <= c <= 'Z' then c as int - 'A' as int
             else if 'a' <= c <= 'z' then c as int - 'a' as int + 26
             else if '0' <= c <= '9' then c as int - '0' as int + 52
             else if c == '-' then 62 else if c == '.' then 63 else if c == '_' then 64 else 65;
    assert VerifierChar(k) == c;
  }

  /** A verifier of 64 unreserved characters from 64 random octets. */
  method GenerateCodeVerifier(random: seq<byte>) returns (verifier: string)
    requires |random| == 64
    ensures |verifier| == 64
    ensures forall i :: 0 <= i < 64 ==> verifier[i] == VerifierChar(random[i])
  {
    verifier := "";
    for i := 0 to |random|
      invariant |verifier| == i
      invariant forall j :: 0 <= j < i ==> verifier[j] == VerifierChar(random[j])
    {
      verifier := verifier + [VerifierChar(random[i])];
    }
  }

  function CodeChallenge(sha256: string -> seq<byte>, verifier: string): string {
    Base64Url.EncodeText(sha256(verifier))
  }

  /** A challenge is text in octets, as every encoding is. */
  lemma ChallengeIsOctets(sha256: string -> seq<byte>, verifier: string)
    ensures AllOctets(CodeChallenge(sha256, verifier))
  {
    Base64Url.EncodedShape(sha256(verifier));
    hide Base64Url.EncodeText;
  }

  /** 43 URL-safe characters that decode to the digest. */
  lemma ChallengeShape(sha256: string -> seq<byte>, verifier: string)
    requires |sha256(verifier)| == 32
    ensures var challenge := CodeChallenge(sha256, verifier);
            && |challenge| == 43
            && (forall c :: c in challenge ==> Base64Url.IsUrlSafe(c))
            && Base64Url.DecodeText(challenge) == Some(sha256(verifier))
  {
    Base64Url.EncodedShape(sha256(verifier));
    Base64Url.RoundTrip(sha256(verifier));
  }
}
