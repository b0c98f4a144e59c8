/**
 A reader for the JWKS document that knows nothing of how it was written: a JSON lexer
 (whitespace, punctuation, strings without escapes) and a parser for objects of string
 members, arrays of such objects and the enclosing `{"keys": [...]}`.
 */
module Jwks {
  import opened Wrappers
  import opened KeyManager

  datatype Token = Punct(mark: char) | Text(body: string)

  predicate IsSpace(c: char) { c == ' ' || c == '\n' || c == '\r' || c == '\t' }

  predicate IsPunct(c: char) { c in "{}[]:," }

  /** The length of the run of characters before the next quote or backslash. */
  function PlainRun(s: string): (k: nat)
    ensures k <= |s|
  {
    if s == "" || s[0] == '"' || s[0] == '\\' then 0 else 1 + PlainRun(s[1..])
  }

  function Prepend(tokens: seq<Token>, rest: Option<seq<Token>>): Option<seq<Token>> {
    if rest.None? then None else Some(tokens + rest.value)
  }

  function Lex(s: string): Option<seq<Token>>
    decreases |s|
  {
    if s == "" then Some([])
    else if IsSpace(s[0]) then Lex(s[1..])
    else if IsPunct(s[0]) then Prepend([Punct(s[0])], Lex(s[1..]))
    else if s[0] == '"' then
      var k := PlainRun(s[1..]);
      if k + 1 < |s| && s[k + 1] == '"' then Prepend([Text(s[1..k + 1])], Lex(s[k + 2..])) else None
    else None
  }

  /** `"name": "value", ...}`: the members up to the closing brace, and what follows it. */
  function ParseMembers(ts: seq<Token>): (r: Option<(seq<(string, string)>, seq<Token>)>)
    ensures r.Some? ==> |r.value.1| < |ts|
    decreases |ts|
  {
    if |ts| < 4 || !ts[0].Text? || ts[1] != Punct(':') || !ts[2].Text? then None
    else if ts[3] == Punct('}') then Some(([(ts[0].body, ts[2].body)], ts[4..]))
    else if ts[3] == Punct(',') then
      var rest := ParseMembers(ts[4..]);
      if rest.None? then None
      else Some(([(ts[0].body, ts[2].body)] + rest.value.0, rest.value.1))
    else None
  }

  /** `{...}, {...}]`: the objects up to the closing bracket, and what follows it. */
  function ParseObjects(ts: seq<Token>): (r: Option<(seq<seq<(string, string)>>, seq<Token>)>)
    decreases |ts|
  {
    if ts == [] || ts[0] != Punct('{') then None
    else
      var first := ParseMembers(ts[1..]);
      if first.None? || first.value.1 == [] then None
      else
        var (members, after) := first.value;
        if after[0] == Punct(']') then Some(([members], after[1..]))
        else if after[0] == Punct(',') then
          var rest := ParseObjects(after[1..]);
          if rest.None? then None else Some(([members] + rest.value.0, rest.value.1))
        else None
  }

  /** The value of the first member of this name. */
  function Member(members: seq<(string, string)>, name: string): string {
    if members == [] then ""
    else if members[0].0 == name then members[0].1
    else Member(members[1..], name)
  }

  function ToJwk(members: seq<(string, string)>): Jwk {
    Jwk(Member(members, "kty"), Member(members, "use"), Member(members, "alg"),
        Member(members, "kid"), Member(members, "n"), Member(members, "e"))
  }

  function ToJwks(objects: seq<seq<(string, string)>>): seq<Jwk> {
    seq(|objects|, i requires 0 <= i < |objects| => ToJwk(objects[i]))
  }

  function ParseJwks(text: string): Option<seq<Jwk>> {
    var lexed := Lex(text);
    if lexed.None? then None
    else
      var ts := lexed.value;
      if |ts| < 4 || ts[..4] != OPENING_TOKENS then None
      else
        var objects := ParseObjects(ts[4..]);
        if objects.None? || objects.value.1 != [Punct('}')] then None
        else
          Some(ToJwks(objects.value.0))
  }

  // ----- Lexing what the key manager writes -----

  /** Text that may stand between quotes without escapes. */
  predicate Plain(s: string) { '"' !in s && '\\' !in s }

  lemma {:induction false} PlainRunStops(body: string, rest: string)
    requires Plain(body)
    ensures PlainRun(body + "\"" + rest) == |body|
  {
    var s := body + "\"" + rest;
    if body != "" {
      PlainRunStops(body[1..], rest);
      assert s[1..] == body[1..] + "\"" + rest;
    }
  }

  /** Wherever the text s stands, the lexer turns it into the tokens ts and goes on. */
  ghost predicate LexesTo(s: string, ts: seq<Token>) {
    forall rest: string {:trigger Lex(s + rest)} :: Lex(s + rest) == Prepend(ts, Lex(rest))
  }

  lemma Compose(a: string, ta: seq<Token>, b: string, tb: seq<Token>)
    requires LexesTo(a, ta) && LexesTo(b, tb)
    ensures LexesTo(a + b, ta + tb)
  {
    forall rest: string
      ensures Lex(a + b + rest) == Prepend(ta + tb, Lex(rest))
    {
      assert a + b + rest == a + (b + rest);
      assert Lex(b + rest) == Prepend(tb, Lex(rest));
      if Lex(rest).Some? {
        assert ta + (tb + Lex(rest).value) == ta + tb + Lex(rest).value;
      }
    }
  }

  lemma LexQuoted(body: string)
    requires Plain(body)
    ensures LexesTo("\"" + body + "\"", [Text(body)])
  {
    forall rest: string
      ensures Lex("\"" + body + "\"" + rest) == Prepend([Text(body)], Lex(rest))
    {
      var s := "\"" + body + "\"" + rest;
      PlainRunStops(body, rest);
      assert s[1..] == body + "\"" + rest;
      assert s[1..|body| + 1] == body;
      assert s[|body| + 2..] == rest;
    }
  }

  lemma LexMark(c: char)
    requires IsPunct(c)
    ensures LexesTo([c], [Punct(c)])
  {
    forall rest: string
      ensures Lex([c] + rest) == Prepend([Punct(c)], Lex(rest))
    {
      assert ([c] + rest)[1..] == rest;
    }
  }

  lemma {:induction false} LexSpaces(space: string)
    requires forall c :: c in space ==> IsSpace(c)
    ensures LexesTo(space, [])
  {
    if space == "" {
      assert forall rest: string :: space + rest == rest;
    } else {
      LexSpaces(space[1..]);
      assert forall rest: string :: (space + rest)[1..] == space[1..] + rest;
    }
    assert forall rest: seq<Token> :: [] + rest == rest;
  }

  /** The separator after an entry. */
  function SeparatorText(isLast: bool): string { if isLast then "\n" else ",\n" }

  function SeparatorTokens(isLast: bool): seq<Token> { if isLast then [] else [Punct(',')] }

  lemma LexSeparator(isLast: bool)
    ensures LexesTo(SeparatorText(isLast), SeparatorTokens(isLast))
  {
    LexSpaces("\n");
    if !isLast {
      LexMark(',');
      Compose([','], [Punct(',')], "\n", []);
      assert [','] + "\n" == ",\n";
    }
  }

  predicate PlainMember(member: (string, string)) { Plain(member.0) && Plain(member.1) }

  function MemberTokens(member: (string, string), isLast: bool): seq<Token> {
    [Text(member.0), Punct(':'), Text(member.1)] + SeparatorTokens(isLast)
  }

  lemma LexMember(member: (string, string), isLast: bool)
    requires PlainMember(member)
    ensures LexesTo(MemberText(member, isLast), MemberTokens(member, isLast))
  {
    hide LexesTo;
    var name, value := "\"" + member.0 + "\"", "\"" + member.1 + "\"";
    LexSpaces("      ");
    LexQuoted(member.0);
    Compose("      ", [], name, [Text(member.0)]);
    LexMark(':');
    LexSpaces(" ");
    Compose([':'], [Punct(':')], " ", []);
    Compose("      " + name, [] + [Text(member.0)], [':'] + " ", [Punct(':')] + []);
    LexQuoted(member.1);
    LexSeparator(isLast);
    Compose(value, [Text(member.1)], SeparatorText(isLast), SeparatorTokens(isLast));
    var before, after := "      " + name + ([':'] + " "), value + SeparatorText(isLast);
    var tb, ta := [] + [Text(member.0)] + ([Punct(':')] + []), [Text(member.1)] + SeparatorTokens(isLast);
    Compose(before, tb, after, ta);
    assert before + after == MemberText(member, isLast);
    assert tb + ta == MemberTokens(member, isLast);
  }

  function MembersTokens(members: seq<(string, string)>): seq<Token> {
    if members == [] then []
    else MemberTokens(members[0], |members| == 1) + MembersTokens(members[1..])
  }

  lemma {:induction false} LexMembers(members: seq<(string, string)>)
    requires forall m :: m in members ==> PlainMember(m)
    ensures LexesTo(MembersText(members), MembersTokens(members))
  {
    hide LexesTo;
    if members == [] {
      LexSpaces("");
    } else {
      LexMember(members[0], |members| == 1);
      LexMembers(members[1..]);
      Compose(MemberText(members[0], |members| == 1), MemberTokens(members[0], |members| == 1),
              MembersText(members[1..]), MembersTokens(members[1..]));
    }
  }

  function JwkTokens(jwk: Jwk, isLast: bool): seq<Token> {
    [Punct('{')] + MembersTokens(JwkMembers(jwk)) + ([Punct('}')] + SeparatorTokens(isLast))
  }

  predicate PlainJwk(jwk: Jwk) {
    forall m :: m in JwkMembers(jwk) ==> PlainMember(m)
  }

  lemma LexBrace(c: char, before: string, after: string, tokens: seq<Token>)
    requires IsPunct(c) && LexesTo(after, tokens)
    requires forall x :: x in before ==> IsSpace(x)
    ensures LexesTo(before + [c] + after, [Punct(c)] + tokens)
  {
    hide LexesTo;
    LexSpaces(before);
    LexMark(c);
    Compose(before, [], [c], [Punct(c)]);
    assert [] + [Punct(c)] == [Punct(c)];
    Compose(before + [c], [Punct(c)], after, tokens);
  }

  lemma LexJwk(jwk: Jwk, isLast: bool)
    requires PlainJwk(jwk)
    ensures LexesTo(JwkText(jwk, isLast), JwkTokens(jwk, isLast))
  {
    hide LexesTo, JwkMembers;
    var members := JwkMembers(jwk);
    LexMembers(members);
    LexSpaces("\n");
    LexBrace('{', "    ", "\n", []);
    LexSeparator(isLast);
    LexBrace('}', "    ", SeparatorText(isLast), SeparatorTokens(isLast));
    assert "    " + ['{'] + "\n" == "    {\n" && "    " + ['}'] == "    }";
    assert [Punct('{')] + [] == [Punct('{')];
    Compose("    {\n", [Punct('{')], MembersText(members), MembersTokens(members));
    var closing, tokens := "    }" + SeparatorText(isLast), [Punct('}')] + SeparatorTokens(isLast);
    Compose("    {\n" + MembersText(members), [Punct('{')] + MembersTokens(members), closing, tokens);
    assert JwkText(jwk, isLast) == "    {\n" + MembersText(members) + closing;
  }

  function JwkListTokens(jwks: seq<Jwk>): seq<Token> {
    if jwks == [] then [] else JwkTokens(jwks[0], |jwks| == 1) + JwkListTokens(jwks[1..])
  }

  lemma {:induction false} LexJwkList(jwks: seq<Jwk>)
    requires forall jwk :: jwk in jwks ==> PlainJwk(jwk)
    ensures LexesTo(JwkListText(jwks), JwkListTokens(jwks))
  {
    hide LexesTo, JwkText, JwkTokens, PlainJwk;
    if jwks == [] {
      LexSpaces("");
    } else {
      LexJwk(jwks[0], |jwks| == 1);
      LexJwkList(jwks[1..]);
      Compose(JwkText(jwks[0], |jwks| == 1), JwkTokens(jwks[0], |jwks| == 1),
              JwkListText(jwks[1..]), JwkListTokens(jwks[1..]));
    }
  }

  const OPENING_TOKENS: seq<Token> := [Punct('{'), Text("keys"), Punct(':'), Punct('[')]
  const CLOSING_TOKENS: seq<Token> := [Punct(']'), Punct('}')]

  lemma LexOpening()
    ensures LexesTo(OPENING, OPENING_TOKENS)
  {
    hide LexesTo;
    LexSpaces("\n  ");
    LexBrace('{', "", "\n  ", []);
    LexQuoted("keys");
    LexSpaces("\n");
    LexBrace('[', " ", "\n", []);
    LexBrace(':', "", " " + ['['] + "\n", [Punct('[')] + []);
    var quoted := "\"" + "keys" + "\"";
    Compose("" + ['{'] + "\n  ", [Punct('{')] + [], quoted, [Text("keys")]);
    Compose("" + ['{'] + "\n  " + quoted, [Punct('{')] + [] + [Text("keys")],
            "" + [':'] + (" " + ['['] + "\n"), [Punct(':')] + ([Punct('[')] + []));
    assert "" + ['{'] + "\n  " + quoted + ("" + [':'] + (" " + ['['] + "\n")) == OPENING;
    assert [Punct('{')] + [] + [Text("keys")] + ([Punct(':')] + ([Punct('[')] + [])) == OPENING_TOKENS;
  }

  lemma LexClosing()
    ensures Lex(CLOSING) == Some(CLOSING_TOKENS)
  {
    hide LexesTo;
    LexSpaces("");
    LexBrace('}', "\n", "", []);
    LexBrace(']', "  ", "\n" + ['}'] + "", [Punct('}')] + []);
    assert "  " + [']'] + ("\n" + ['}'] + "") == CLOSING;
    assert [Punct(']')] + ([Punct('}')] + []) == CLOSING_TOKENS;
    AtTheEnd(CLOSING, CLOSING_TOKENS);
  }

  lemma AtTheEnd(s: string, ts: seq<Token>)
    requires LexesTo(s, ts)
    ensures Lex(s) == Some(ts)
  {
    assert s + "" == s;
    assert Lex("") == Some([]);
    assert ts + [] == ts;
  }

  lemma LexJwks(jwks: seq<Jwk>)
    requires forall jwk :: jwk in jwks ==> PlainJwk(jwk)
    ensures Lex(JwksText(jwks)) == Some(OPENING_TOKENS + (JwkListTokens(jwks) + CLOSING_TOKENS))
  {
    hide PlainJwk, JwkListTokens, JwkListText;
    LexOpening();
    LexJwkList(jwks);
    LexClosing();
    assert JwksText(jwks) == OPENING + (JwkListText(jwks) + CLOSING);
  }

  // ----- Parsing the tokens -----

  /** One turn of the member parser. */
  lemma ParseOneMember(name: string, value: string, more: seq<Token>)
    ensures var head := [Text(name), Punct(':'), Text(value)];
            && ParseMembers(head + ([Punct('}')] + more)) == Some(([(name, value)], more))
            && ParseMembers(head + ([Punct(',')] + more)) ==
               (if ParseMembers(more).None? then None
                else Some(([(name, value)] + ParseMembers(more).value.0, ParseMembers(more).value.1)))
  {
    FourTokens(name, value, Punct('}'), more);
    FourTokens(name, value, Punct(','), more);
  }

  lemma FourTokens(name: string, value: string, last: Token, more: seq<Token>)
    ensures var s := [Text(name), Punct(':'), Text(value)] + ([last] + more);
            && |s| >= 4 && s[0] == Text(name) && s[1] == Punct(':') && s[2] == Text(value) && s[3] == last
            && s[4..] == more
  {
  }

  lemma Reassociate(a: seq<Token>, mark: Token, b: seq<Token>, c: seq<Token>)
    ensures a + [mark] + b + c == a + ([mark] + (b + c))
  {
  }

  lemma {:induction false} ParseMembersBack(members: seq<(string, string)>, rest: seq<Token>)
    requires members != []
    ensures ParseMembers(MembersTokens(members) + ([Punct('}')] + rest)) == Some((members, rest))
  {
    hide ParseMembers;
    var (name, value) := members[0];
    var head := [Text(name), Punct(':'), Text(value)];
    if |members| == 1 {
      assert MembersTokens(members) == head by { assert MembersTokens(members[1..]) == []; }
      ParseOneMember(name, value, rest);
      assert members == [(name, value)];
    } else {
      var more := MembersTokens(members[1..]) + ([Punct('}')] + rest);
      ParseMembersBack(members[1..], rest);
      assert MembersTokens(members) == head + [Punct(',')] + MembersTokens(members[1..]);
      Reassociate(head, Punct(','), MembersTokens(members[1..]), [Punct('}')] + rest);
      ParseOneMember(name, value, more);
      assert members == [(name, value)] + members[1..];
    }
  }

  function MemberLists(jwks: seq<Jwk>): seq<seq<(string, string)>> {
    seq(|jwks|, i requires 0 <= i < |jwks| => JwkMembers(jwks[i]))
  }

  /** One turn of the array parser. */
  lemma ParseOneObject(members: seq<(string, string)>, more: seq<Token>, isLast: bool)
    requires members != []
    ensures var after := [Punct(if isLast then ']' else ',')] + more;
            var ts := [Punct('{')] + (MembersTokens(members) + ([Punct('}')] + after));
            ParseObjects(ts) ==
            (if isLast then Some(([members], more))
             else if ParseObjects(more).None? then None
             else Some(([members] + ParseObjects(more).value.0, ParseObjects(more).value.1)))
  {
    hide ParseMembers, MembersTokens;
    var after := [Punct(if isLast then ']' else ',')] + more;
    var ts := [Punct('{')] + (MembersTokens(members) + ([Punct('}')] + after));
    assert ts[1..] == MembersTokens(members) + ([Punct('}')] + after);
    ParseMembersBack(members, after);
    assert after[1..] == more;
  }

  // The tokens of a list, as the array parser meets them.

  lemma LastTokens(jwks: seq<Jwk>, rest: seq<Token>)
    requires |jwks| == 1
    ensures JwkListTokens(jwks) + ([Punct(']')] + rest)
            == [Punct('{')] + (MembersTokens(JwkMembers(jwks[0])) + ([Punct('}')] + ([Punct(']')] + rest)))
  {
    hide JwkMembers, MembersTokens;
    var ms := MembersTokens(JwkMembers(jwks[0]));
    assert JwkListTokens(jwks[1..]) == [];
    Unnest([Punct('{')], ms, [Punct('}')], [], [], [Punct(']')] + rest);
    assert [] + [] + ([Punct(']')] + rest) == [Punct(']')] + rest;
  }

  lemma MoreTokens(jwks: seq<Jwk>, rest: seq<Token>)
    requires |jwks| > 1
    ensures JwkListTokens(jwks) + ([Punct(']')] + rest)
            == [Punct('{')] + (MembersTokens(JwkMembers(jwks[0]))
                               + ([Punct('}')] + ([Punct(',')] + (JwkListTokens(jwks[1..]) + ([Punct(']')] + rest)))))
  {
    hide JwkMembers, MembersTokens, JwkListTokens;
    var ms, tail := MembersTokens(JwkMembers(jwks[0])), JwkListTokens(jwks[1..]);
    var closing := [Punct(']')] + rest;
    FirstTokens(jwks);
    Unnest([Punct('{')], ms, [Punct('}')], [Punct(',')], tail, closing);
    assert [Punct(',')] + tail + closing == [Punct(',')] + (tail + closing) by { Nest([Punct(',')], tail, closing); }
  }

  lemma FirstTokens(jwks: seq<Jwk>)
    requires |jwks| > 1
    ensures JwkListTokens(jwks) == [Punct('{')] + MembersTokens(JwkMembers(jwks[0]))
                                   + ([Punct('}')] + [Punct(',')]) + JwkListTokens(jwks[1..])
  {
    hide JwkMembers, MembersTokens;
  }

  lemma Nest(a: seq<Token>, b: seq<Token>, c: seq<Token>)
    ensures a + b + c == a + (b + c)
  {
  }

  lemma Unnest(a: seq<Token>, b: seq<Token>, c: seq<Token>, d: seq<Token>, e: seq<Token>, f: seq<Token>)
    ensures a + b + (c + d) + e + f == a + (b + (c + (d + e + f)))
  {
    assert c + d + (e + f) == c + (d + e + f);
    assert a + b + (c + d) + e + f == a + b + (c + d + (e + f));
  }

  lemma {:induction false} ParseObjectsBack(jwks: seq<Jwk>, rest: seq<Token>)
    requires jwks != []
    ensures ParseObjects(JwkListTokens(jwks) + ([Punct(']')] + rest)) == Some((MemberLists(jwks), rest))
  {
    hide JwkMembers, MembersTokens, ParseObjects, JwkListTokens, JwkTokens;
    var members := JwkMembers(jwks[0]);
    assert members != [] by { MembersPresent(jwks[0]); }
    if |jwks| == 1 {
      LastTokens(jwks, rest);
      ParseOneObject(members, rest, true);
      assert MemberLists(jwks) == [members];
    } else {
      MoreTokens(jwks, rest);
      ParseObjectsBack(jwks[1..], rest);
      ParseOneObject(members, JwkListTokens(jwks[1..]) + ([Punct(']')] + rest), false);
      assert MemberLists(jwks) == [members] + MemberLists(jwks[1..]);
    }
  }

  lemma MembersPresent(jwk: Jwk)
    ensures JwkMembers(jwk) != []
  {
  }

  lemma {:induction false} MemberFound(members: seq<(string, string)>, k: nat)
    requires k < |members| && forall i :: 0 <= i < k ==> members[i].0 != members[k].0
    ensures Member(members, members[k].0) == members[k].1
  {
    if k > 0 {
      assert members[0].0 != members[k].0;
      MemberFound(members[1..], k - 1);
    }
  }

  lemma ToJwkBack(jwk: Jwk)
    ensures ToJwk(JwkMembers(jwk)) == jwk
  {
    var members := JwkMembers(jwk);
    MemberFound(members, 0);
    MemberFound(members, 1);
    MemberFound(members, 2);
    MemberFound(members, 3);
    MemberFound(members, 4);
    MemberFound(members, 5);
  }

  /** The cached document reads back as the keys it was written from, in their order. */
  lemma JwksRoundTrip(jwks: seq<Jwk>)
    requires jwks != [] && forall jwk :: jwk in jwks ==> PlainJwk(jwk)
    ensures ParseJwks(JwksText(jwks)) == Some(jwks)
  {
    hide PlainJwk, JwkListTokens, ToJwk, JwkMembers, JwksText;
    LexJwks(jwks);
    var ts := Lex(JwksText(jwks)).value;
    assert ts[..4] == OPENING_TOKENS;
    assert ts[4..] == JwkListTokens(jwks) + CLOSING_TOKENS;
    assert CLOSING_TOKENS == [Punct(']')] + [Punct('}')];
    ParseObjectsBack(jwks, [Punct('}')]);
    forall i | 0 <= i < |jwks|
      ensures ToJwk(MemberLists(jwks)[i]) == jwks[i]
    {
      ToJwkBack(jwks[i]);
    }
    assert ToJwks(MemberLists(jwks)) == jwks;
  }

  /** The kids in the published document are exactly those the key manager answers for. */
  lemma PublishedKidsAnswer(ring: KeyRing, kid: string)
    requires forall key :: key in ring.previous + [ring.active] ==> key.jwk.kid == key.kid && PlainJwk(key.jwk)
    ensures var published := ParseJwks(JwksText(Listed(ring)));
            && published.Some?
            && (Lookup(ring, kid).Some? <==> exists i :: 0 <= i < |published.value| && published.value[i].kid == kid)
  {
    hide PlainJwk, JwksText, ParseJwks;
    var listed := Listed(ring);
    var window := ring.previous + [ring.active];
    assert listed[0] == ring.active.jwk && window[|ring.previous|] == ring.active;
    assert forall i :: 0 <= i < |ring.previous| ==>
        listed[i + 1] == ring.previous[i].jwk && ring.previous[i] == window[i];
    forall jwk | jwk in listed
      ensures PlainJwk(jwk)
    {
      var i :| 0 <= i < |listed| && listed[i] == jwk;
      assert jwk == (if i == 0 then ring.active else ring.previous[i - 1]).jwk;
    }
    JwksRoundTrip(listed);
    LookupRefusesOthers(ring, kid);
    if Lookup(ring, kid).Some? {
      var key :| key in window && key.kid == kid;
      var i :| 0 <= i < |window| && window[i] == key;
      assert listed[if i == |ring.previous| then 0 else i + 1].kid == kid;
    } else {
      forall i | 0 <= i < |listed|
        ensures listed[i].kid != kid
      {
        assert listed[i] == (if i == 0 then ring.active else ring.previous[i - 1]).jwk;
      }
    }
  }

  /** The members of a key as a relying party needs them. */
  predicate Publishes(jwk: Jwk, key: SigningKey, rsaParams: string -> (string, string)) {
    && jwk.kty == "RSA" && jwk.use == "sig" && jwk.alg == "RS256" && jwk.kid == key.kid
    && jwk.n == rsaParams(key.publicPem).0 && jwk.e == rsaParams(key.publicPem).1
  }

  /** The document of a ring of described keys reads as these keys, the active one first. */
  lemma RingReadsBack(ring: KeyRing, rsaParams: string -> (string, string))
    requires forall key :: key in ring.previous + [ring.active] ==> Describes(key, rsaParams) && PlainJwk(key.jwk)
    ensures var read := ParseJwks(JwksText(Listed(ring)));
            && read.Some? && |read.value| == |ring.previous| + 1
            && Publishes(read.value[0], ring.active, rsaParams)
            && forall i :: 0 <= i < |ring.previous| ==> Publishes(read.value[i + 1], ring.previous[i], rsaParams)
  {
    hide PlainJwk, JwksText, ParseJwks;
    var listed, window := Listed(ring), ring.previous + [ring.active];
    assert listed[0] == ring.active.jwk && window[|ring.previous|] == ring.active;
    assert forall i :: 0 <= i < |ring.previous| ==>
        listed[i + 1] == ring.previous[i].jwk && ring.previous[i] == window[i];
    forall jwk | jwk in listed
      ensures PlainJwk(jwk)
    {
      var i :| 0 <= i < |listed| && listed[i] == jwk;
      assert jwk == (if i == 0 then ring.active else ring.previous[i - 1]).jwk;
    }
    JwksRoundTrip(listed);
  }

  /** The records of generated pairs under their kids. */
  function Records(pairs: seq<(string, KeyPair)>, rsaParams: string -> (string, string)): (keys: seq<SigningKey>)
    ensures |keys| == |pairs|
  {
    seq(|pairs|, i requires 0 <= i < |pairs| => KeyRecord(pairs[i].0, pairs[i].1, rsaParams))
  }

  predicate PublishesPair(jwk: Jwk, pair: (string, KeyPair), rsaParams: string -> (string, string)) {
    && jwk.kty == "RSA" && jwk.use == "sig" && jwk.alg == "RS256" && jwk.kid == pair.0
    && (jwk.n, jwk.e) == rsaParams(pair.1.publicPem)
  }

  lemma RecordPublishes(jwk: Jwk, pair: (string, KeyPair), rsaParams: string -> (string, string))
    ensures Describes(KeyRecord(pair.0, pair.1, rsaParams), rsaParams)
    ensures Publishes(jwk, KeyRecord(pair.0, pair.1, rsaParams), rsaParams) ==> PublishesPair(jwk, pair, rsaParams)
  {
  }

  /**
   After any rotations the published set reads as the newest six generated pairs: the active one first,
   then the others oldest first, each with modulus and exponent of its own public half under its kid.
   */
  lemma PublishedAfterRotations(pairs: seq<(string, KeyPair)>, rsaParams: string -> (string, string))
    requires pairs != [] && forall key :: key in Records(pairs, rsaParams) ==> PlainJwk(key.jwk)
    ensures var keys, n := Records(pairs, rsaParams), |pairs| - 1;
            var retired := if n < 5 then n else 5;
            var read := ParseJwks(JwksText(Listed(RotateAll(KeyRing(keys[0], []), keys[1..]))));
            && read.Some? && |read.value| == retired + 1
            && PublishesPair(read.value[0], pairs[n], rsaParams)
            && forall j :: 0 < j <= retired ==> PublishesPair(read.value[j], pairs[n - retired + j - 1], rsaParams)
  {
    hide RotateAll, Records, PlainJwk, JwksText, ParseJwks, Listed, PublishesPair;
    var keys, n := Records(pairs, rsaParams), |pairs| - 1;
    var ring := RotateAll(KeyRing(keys[0], []), keys[1..]);
    RingHoldsSix(keys[0], keys[1..]);
    assert forall i :: 0 <= i <= n ==> ([keys[0]] + keys[1..])[i] == keys[i];
    PublishedRing(pairs, ring, if n < 5 then n else 5, rsaParams);
  }

  lemma PublishedRing(pairs: seq<(string, KeyPair)>, ring: KeyRing, retired: nat, rsaParams: string -> (string, string))
    requires forall key :: key in Records(pairs, rsaParams) ==> PlainJwk(key.jwk)
    requires |ring.previous| == retired < |pairs| && ring.active == Records(pairs, rsaParams)[|pairs| - 1]
    requires forall i :: 0 <= i < retired ==> ring.previous[i] == Records(pairs, rsaParams)[|pairs| - 1 - retired + i]
    ensures var read := ParseJwks(JwksText(Listed(ring)));
            && read.Some? && |read.value| == retired + 1
            && PublishesPair(read.value[0], pairs[|pairs| - 1], rsaParams)
            && forall j :: 0 < j <= retired ==>
                 PublishesPair(read.value[j], pairs[|pairs| - 1 - retired + j - 1], rsaParams)
  {
    var keys, n := Records(pairs, rsaParams), |pairs| - 1;
    hide PlainJwk, JwksText, ParseJwks, Listed, KeyRecord, Describes, Publishes, PublishesPair;
    forall key | key in ring.previous + [ring.active]
      ensures Describes(key, rsaParams) && PlainJwk(key.jwk)
    {
      var k :| 0 <= k < |ring.previous + [ring.active]| && (ring.previous + [ring.active])[k] == key;
      var at := n - retired + k;
      assert key == keys[at] && keys[at] == KeyRecord(pairs[at].0, pairs[at].1, rsaParams);
      RecordPublishes(key.jwk, pairs[at], rsaParams);
    }
    RingReadsBack(ring, rsaParams);
    var read := ParseJwks(JwksText(Listed(ring))).value;
    RecordPublishes(read[0], pairs[n], rsaParams);
    forall j | 0 < j <= retired
      ensures PublishesPair(read[j], pairs[n - retired + j - 1], rsaParams)
    {
      assert Publishes(read[(j - 1) + 1], ring.previous[j - 1], rsaParams);
      RecordPublishes(read[j], pairs[n - retired + j - 1], rsaParams);
    }
  }
}
