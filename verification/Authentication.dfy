/**
 extractAuthenticatedUser (HttpResponseHelper.cpp) as one step, from the header to the user:
 the keys, the token, the session tables and the account together.
 */
module Authentication {
  import opened Wrappers
  import opened KeyManager
  import opened SessionTables
  import Jwt
  import P = RevocationProtocol
  import SessionRepository

  datatype Account = Account(role: string, active: bool)

  /** The role is the account's, whatever the token says. */
  datatype AuthenticatedUser = AuthenticatedUser(id: string, role: string, sessionId: string, jti: string)

  datatype Denial = MissingHeader | BadToken(refusal: Jwt.Refusal) | TokenRevoked | SessionTerminated | AccountDisabled

  const BEARER := "Bearer "

  ghost function ExtractAuthenticatedUser(
    s: Jwt.Service, ring: KeyRing, t: Tables, users: map<string, Account>, header: string, now: int
  ): Result<AuthenticatedUser, Denial>
  {
    if !(BEARER <= header) then Err(MissingHeader)
    else
      match Jwt.ValidateAccessToken(s, ring, header[|BEARER|..], now)
      case Err(refusal) => Err(BadToken(refusal))
      case Ok(c) => CheckSession(t, users, c, now)
  }

  ghost function CheckSession(t: Tables, users: map<string, Account>, c: Jwt.Claims, now: int)
    : Result<AuthenticatedUser, Denial>
  {
    if IsTokenRevoked(t, c.jti) then Err(TokenRevoked)
    else
      var found := Find(t, c.sid);
      if found.None? || !t.sessions[found.value].IsActive(now) then Err(SessionTerminated)
      else if c.sub !in users || !users[c.sub].active then Err(AccountDisabled)
      else Ok(AuthenticatedUser(c.sub, users[c.sub].role, c.sid, c.jti))
  }

  /**
   The token's own jti is the session's current one, or belongs to no session any more. A login
   whose row was lost at the commit has issued a token whose session id names nothing.
   */
  ghost predicate IssuedFor(t: Tables, sid: string, jti: string) {
    && (forall id :: id in t.sessions && t.sessions[id].jti == jti ==> id == sid)
    && (sid !in t.sessions ==> !JtiTaken(t, sid))
  }

  /** What the session row of an issued token says, or its absence. */
  function RowAnswer(t: Tables, users: map<string, Account>, sid: string, jti: string, userId: string, now: int)
    : Result<AuthenticatedUser, Denial>
  {
    if sid !in t.sessions then Err(SessionTerminated)
    else if t.sessions[sid].jti == jti && t.sessions[sid].IsRevoked() then Err(TokenRevoked)
    else if !t.sessions[sid].IsActive(now) then Err(SessionTerminated)
    else if userId !in users || !users[userId].active then Err(AccountDisabled)
    else Ok(AuthenticatedUser(userId, users[userId].role, sid, jti))
  }

  /**
   The two revocation checks together say what the session row alone says: whichever rotation
   the token is from, it passes exactly while its session is stored and live and its account active.
   */
  lemma ChecksFollowTheSession(t: Tables, users: map<string, Account>, c: Jwt.Claims, now: int)
    requires WellFormed(t) && IssuedFor(t, c.sid, c.jti)
    ensures CheckSession(t, users, c, now) == RowAnswer(t, users, c.sid, c.jti, c.sub, now)
  {
    ListedExactlyWhenRevoked(t, c.jti);
    if c.sid in t.sessions {
      FindIsUnique(t, c.sid, c.sid);
    }
    hide FindIn;
  }

  lemma HeaderCarriesToken(token: string)
    ensures BEARER <= BEARER + token && (BEARER + token)[|BEARER|..] == token
  {
  }

  /**
   End to end: what a request with an issued token meets, at any time, after any number of key
   rotations, in any well-formed tables.
   */
  lemma IssuedTokenAuthenticates(
    s: Jwt.Service, first: SigningKey, before: seq<SigningKey>, later: seq<SigningKey>,
    userId: string, role: string, sid: string, jti: string, iat: Jwt.int64, ttl: int,
    t: Tables, users: map<string, Account>, now: int)
    requires Jwt.Fits64(iat + ttl) && Jwt.JsonContract(s.lib) && DistinctKids([first] + before + later)
    requires var key := RotateAll(KeyRing(first, []), before).active;
             && Jwt.PairContract(s.lib, key)
             && Jwt.CreateAccessToken(s, key, userId, role, sid, jti, iat, ttl) != ""
    requires WellFormed(t) && IssuedFor(t, sid, jti)
    ensures var ring := RotateAll(KeyRing(first, []), before);
            var token := Jwt.CreateAccessToken(s, ring.active, userId, role, sid, jti, iat, ttl);
            ExtractAuthenticatedUser(s, RotateAll(ring, later), t, users, BEARER + token, now) ==
            if |later| > RETIRED then Err(BadToken(Jwt.UnknownKey))
            else if now >= iat + ttl then Err(BadToken(Jwt.Expired))
            else if now < iat then Err(BadToken(Jwt.NotYetValid))
            else RowAnswer(t, users, sid, jti, userId, now)
  {
    Jwt.TokenLifetime(s, first, before, later, userId, role, sid, jti, iat, ttl, now);
    var ring := RotateAll(KeyRing(first, []), before);
    var token := Jwt.CreateAccessToken(s, ring.active, userId, role, sid, jti, iat, ttl);
    HeaderCarriesToken(token);
    ChecksFollowTheSession(t, users, Jwt.IssuedClaims(s, ring.active, userId, role, sid, jti, iat, ttl), now);
    hide Jwt.ValidateAccessToken, Jwt.CreateAccessToken, CheckSession, RowAnswer, RotateAll, BEARER;
  }

  // ----- Any header -----

  /** The claims name a stored session that is neither revoked nor expired. */
  ghost predicate SessionLives(t: Tables, sid: string, now: int) {
    exists id :: id in t.sessions && (id == sid || t.sessions[id].jti == sid)
                 && t.sessions[id].revokedAt == None && now < t.sessions[id].expiresAt
  }

  ghost predicate JtiRevoked(t: Tables, jti: string) {
    exists id :: id in t.sessions && t.sessions[id].jti == jti && t.sessions[id].revokedAt != None
  }

  predicate Bears(header: string, token: string) { header == "Bearer " + token }

  lemma BearsOne(header: string, token: string)
    ensures Bears(header, token) <==> BEARER <= header && header[|BEARER|..] == token
  {
    if BEARER <= header && header[|BEARER|..] == token {
      assert header == header[..|BEARER|] + token;
    }
  }

  ghost function TokenAnswer(
    s: Jwt.Service, ring: KeyRing, t: Tables, users: map<string, Account>, token: string, now: int
  ): Result<AuthenticatedUser, Denial>
  {
    match Jwt.ValidateAccessToken(s, ring, token, now)
    case Err(refusal) => Err(BadToken(refusal))
    case Ok(c) => CheckSession(t, users, c, now)
  }

  /** A header bears one token at most, and the answer is about that token. */
  lemma OneToken(s: Jwt.Service, ring: KeyRing, t: Tables, users: map<string, Account>, header: string, now: int)
    ensures var answer := ExtractAuthenticatedUser(s, ring, t, users, header, now);
            || (answer == Err(MissingHeader) && forall token :: !Bears(header, token))
            || exists token :: OnlyBears(header, token) && answer == TokenAnswer(s, ring, t, users, token, now)
  {
    forall token
      ensures Bears(header, token) <==> BEARER <= header && header[|BEARER|..] == token
    {
      BearsOne(header, token);
    }
    hide Bears, BEARER, CheckSession, Jwt.ValidateAccessToken;
    if BEARER <= header {
      assert OnlyBears(header, header[|BEARER|..]);
    }
  }

  ghost predicate OnlyBears(header: string, token: string) {
    forall other :: Bears(header, other) <==> other == token
  }

  /** What stands behind the session and account checks. */
  lemma SessionChecks(t: Tables, users: map<string, Account>, c: Jwt.Claims, now: int)
    requires WellFormed(t)
    ensures match CheckSession(t, users, c, now)
            case Ok(u) => Stands(t, users, c, now, u)
            case Err(denial) => Denied(t, users, c, now, denial)
  {
    ListedExactlyWhenRevoked(t, c.jti);
    forall id | id in t.sessions && (id == c.sid || t.sessions[id].jti == c.sid)
      ensures Find(t, c.sid) == Some(id)
    {
      FindIsUnique(t, c.sid, id);
    }
    hide FindIn, WellFormed, IsTokenRevoked;
  }

  /** No revoked session has the token's jti, its session lives, and the user is its subject's active account. */
  ghost predicate Stands(t: Tables, users: map<string, Account>, c: Jwt.Claims, now: int, u: AuthenticatedUser) {
    && !JtiRevoked(t, c.jti) && SessionLives(t, c.sid, now) && c.sub in users && users[c.sub].active
    && u == AuthenticatedUser(c.sub, users[c.sub].role, c.sid, c.jti)
  }

  ghost predicate Denied(t: Tables, users: map<string, Account>, c: Jwt.Claims, now: int, denial: Denial) {
    match denial
    case TokenRevoked => JtiRevoked(t, c.jti)
    case SessionTerminated => !JtiRevoked(t, c.jti) && !SessionLives(t, c.sid, now)
    case AccountDisabled =>
      !JtiRevoked(t, c.jti) && SessionLives(t, c.sid, now) && (c.sub !in users || !users[c.sub].active)
    case _ => false
  }

  lemma TokenAnswers(
    s: Jwt.Service, ring: KeyRing, t: Tables, users: map<string, Account>, token: string, now: int)
    requires WellFormed(t)
    ensures match TokenAnswer(s, ring, t, users, token, now)
            case Ok(u) => exists c :: Jwt.Acceptable(s, ring, token, c, now) && Stands(t, users, c, now, u)
            case Err(BadToken(refusal)) =>
              Jwt.ValidateAccessToken(s, ring, token, now) == Err(refusal)
              && forall c :: !Jwt.Acceptable(s, ring, token, c, now)
            case Err(denial) => exists c :: Jwt.Acceptable(s, ring, token, c, now) && Denied(t, users, c, now, denial)
    ensures forall c, d ::
              Jwt.Acceptable(s, ring, token, c, now) && Jwt.Acceptable(s, ring, token, d, now) ==> c == d
  {
    forall c
      ensures Jwt.ValidateAccessToken(s, ring, token, now) == Ok(c) <==> Jwt.Acceptable(s, ring, token, c, now)
    {
      Jwt.AcceptedExactlyWhen(s, ring, token, c, now);
    }
    if Jwt.ValidateAccessToken(s, ring, token, now).Ok? {
      SessionChecks(t, users, Jwt.ValidateAccessToken(s, ring, token, now).value, now);
    }
    hide CheckSession, WellFormed, Jwt.ValidateAccessToken, Jwt.Acceptable, JtiRevoked, SessionLives;
  }

  /**
   Whatever the header and the well-formed tables: a request is answered with this user exactly when
   its header bears an acceptable token whose jti is not revoked, whose session lives, and whose
   subject is this user's active account.
   */
  lemma AuthenticatedExactlyWhen(
    s: Jwt.Service, ring: KeyRing, t: Tables, users: map<string, Account>, header: string, now: int,
    u: AuthenticatedUser)
    requires WellFormed(t)
    ensures ExtractAuthenticatedUser(s, ring, t, users, header, now) == Ok(u) <==>
            exists token, c ::
              Bears(header, token) && Jwt.Acceptable(s, ring, token, c, now) && Stands(t, users, c, now, u)
  {
    OneToken(s, ring, t, users, header, now);
    hide Bears, ExtractAuthenticatedUser, TokenAnswer, WellFormed, Jwt.ValidateAccessToken, Jwt.Acceptable,
      JtiRevoked, SessionLives;
    if token :| OnlyBears(header, token)
                && ExtractAuthenticatedUser(s, ring, t, users, header, now)
                   == TokenAnswer(s, ring, t, users, token, now) {
      TokenAnswers(s, ring, t, users, token, now);
      assert Bears(header, token);
    }
  }

  /** Each denial is true of the request, and a refused token is answered with that very refusal. */
  lemma DeniedForItsReason(
    s: Jwt.Service, ring: KeyRing, t: Tables, users: map<string, Account>, header: string, now: int)
    requires WellFormed(t)
    ensures match ExtractAuthenticatedUser(s, ring, t, users, header, now)
            case Ok(_) => true
            case Err(MissingHeader) => forall token :: !Bears(header, token)
            case Err(BadToken(refusal)) =>
              exists token :: Bears(header, token) && Jwt.ValidateAccessToken(s, ring, token, now) == Err(refusal)
            case Err(denial) =>
              exists token, c ::
                Bears(header, token) && Jwt.Acceptable(s, ring, token, c, now) && Denied(t, users, c, now, denial)
    ensures forall token, refusal ::
              Bears(header, token) && Jwt.ValidateAccessToken(s, ring, token, now) == Err(refusal) ==>
              ExtractAuthenticatedUser(s, ring, t, users, header, now) == Err(BadToken(refusal))
  {
    OneToken(s, ring, t, users, header, now);
    hide Bears, ExtractAuthenticatedUser, CheckSession, WellFormed, Jwt.ValidateAccessToken, Jwt.Acceptable,
      JtiRevoked, SessionLives;
    if token :| OnlyBears(header, token)
                && ExtractAuthenticatedUser(s, ring, t, users, header, now)
                   == TokenAnswer(s, ring, t, users, token, now) {
      TokenAnswers(s, ring, t, users, token, now);
      assert Bears(header, token);
    }
  }

  // ----- Tokens issued in runs of interleaved requests -----

  /** A row with the jti of an issued token is the session of that token. */
  ghost predicate TokensOwn(w: P.World) {
    forall token, id :: token in w.issued && id in w.tables.sessions && w.tables.sessions[id].jti == token.jti ==>
      id == token.sid
  }

  /** The token a step may issue, whether or not its call succeeds. */
  function NewToken(w: P.World, op: P.Op): Option<P.AccessToken> {
    if op.Login? then Some(P.AccessToken(op.id, op.jti))
    else if op.RefreshUpdate? && op.request in w.flights && w.flights[op.request].RefreshReady?
    then Some(P.AccessToken(w.flights[op.request].sid, op.newJti))
    else None
  }

  /** Every row has the jti it had, or that of the new token; every token is old, or the new one. */
  ghost predicate OnlyNewToken(w: P.World, op: P.Op, next: P.World) {
    && (forall id :: id in next.tables.sessions ==>
          || (id in w.tables.sessions && next.tables.sessions[id].jti == w.tables.sessions[id].jti)
          || NewToken(w, op) == Some(P.AccessToken(id, next.tables.sessions[id].jti)))
    && (forall token :: token in next.issued ==> token in w.issued || NewToken(w, op) == Some(token))
  }

  lemma StepIssues(w: P.World, op: P.Op)
    requires P.Inv(w) && P.Enabled(w, op)
    ensures OnlyNewToken(w, op, P.Apply(w, op))
  {
    hide P.Inv, P.Apply, P.Enabled, OnlyNewToken;
    match op {
      case Login(_, _, _, _, _, _, _) => LoginIssues(w, op);
      case RefreshUpdate(_, _, _, _, _, _) => UpdateIssues(w, op);
      case RevokeOneSession(_, _, _, _) => RevocationIssues(w, op);
      case RevokeAllOfUser(_, _, _, _) => RevocationIssues(w, op);
      case CleanupRevocations(_, _) => RevocationIssues(w, op);
      case _ => ReadIssues(w, op);
    }
  }

  lemma LoginIssues(w: P.World, op: P.Op)
    requires op.Login? && P.Enabled(w, op)
    ensures OnlyNewToken(w, op, P.Apply(w, op))
  {
    hide JtiTaken;
  }

  lemma UpdateIssues(w: P.World, op: P.Op)
    requires P.Inv(w) && op.RefreshUpdate? && P.Enabled(w, op)
    ensures OnlyNewToken(w, op, P.Apply(w, op))
  {
    P.UpdateRotates(w, op);
    hide P.Inv, SessionRepository.UpdateCall, WellFormed;
  }

  lemma RevocationIssues(w: P.World, op: P.Op)
    requires P.Inv(w) && P.Enabled(w, op)
    requires op.RevokeOneSession? || op.RevokeAllOfUser? || op.CleanupRevocations?
    ensures OnlyNewToken(w, op, P.Apply(w, op))
  {
    P.RevocationTables(w, op);
    hide P.Inv, SessionRepository.RevokeCall, SessionRepository.RevokeAllCall, Cleanup, WellFormed;
  }

  lemma ReadIssues(w: P.World, op: P.Op)
    requires P.Enabled(w, op)
    requires !op.Login? && !op.RefreshUpdate? && !op.RevokeOneSession? && !op.RevokeAllOfUser?
    requires !op.CleanupRevocations?
    ensures OnlyNewToken(w, op, P.Apply(w, op))
  {
    hide P.UserInactive, IsTokenRevoked, P.SessionIsLive, P.LiveHolder;
  }

  lemma TokensOwnStep(w: P.World, op: P.Op)
    requires P.Inv(w) && P.Enabled(w, op) && TokensOwn(w)
    ensures TokensOwn(P.Apply(w, op))
  {
    StepIssues(w, op);
    hide P.Apply, WellFormed, P.FlightsKnown;
  }

  lemma {:induction false} TokensOwnRun(w: P.World, ops: seq<P.Op>)
    requires P.Inv(w) && P.Legal(w, ops) && TokensOwn(w)
    ensures TokensOwn(P.Run(w, ops))
    decreases |ops|
  {
    hide P.Inv, P.Apply, P.Enabled, TokensOwn;
    if ops != [] {
      P.InvStep(w, ops[0]);
      TokensOwnStep(w, ops[0]);
      TokensOwnRun(P.Apply(w, ops[0]), ops[1..]);
    }
  }

  /**
   In every state that interleaved, failing requests can reach, the tables are well-formed and every
   token issued so far, by a login whose row was lost, too, is issued for its session.
   */
  lemma IssuedTokensOwnTheirSession(w: P.World, token: P.AccessToken)
    requires P.Reachable(w) && token in w.issued
    ensures WellFormed(w.tables) && IssuedFor(w.tables, token.sid, token.jti)
  {
    var ops :| P.Legal(P.START, ops) && P.Run(P.START, ops) == w;
    P.InvStart();
    TokensOwnRun(P.START, ops);
    P.ReachableInv(w);
    hide P.Legal, P.Run, WellFormed, P.FlightsKnown;
  }

  /**
   So whatever interleaved and failing requests have done to the tables, an issued token meets what
   its keys, its time and its session row say, or the absence of that row.
   */
  lemma ReachableTokenAuthenticates(
    s: Jwt.Service, first: SigningKey, before: seq<SigningKey>, later: seq<SigningKey>,
    userId: string, role: string, issued: P.AccessToken, iat: Jwt.int64, ttl: int,
    w: P.World, users: map<string, Account>, now: int)
    requires Jwt.Fits64(iat + ttl) && Jwt.JsonContract(s.lib) && DistinctKids([first] + before + later)
    requires var key := RotateAll(KeyRing(first, []), before).active;
             && Jwt.PairContract(s.lib, key)
             && Jwt.CreateAccessToken(s, key, userId, role, issued.sid, issued.jti, iat, ttl) != ""
    requires P.Reachable(w) && issued in w.issued
    ensures var ring := RotateAll(KeyRing(first, []), before);
            var token := Jwt.CreateAccessToken(s, ring.active, userId, role, issued.sid, issued.jti, iat, ttl);
            ExtractAuthenticatedUser(s, RotateAll(ring, later), w.tables, users, BEARER + token, now) ==
            if |later| > RETIRED then Err(BadToken(Jwt.UnknownKey))
            else if now >= iat + ttl then Err(BadToken(Jwt.Expired))
            else if now < iat then Err(BadToken(Jwt.NotYetValid))
            else RowAnswer(w.tables, users, issued.sid, issued.jti, userId, now)
  {
    hide P.Reachable, WellFormed, IssuedFor, ExtractAuthenticatedUser, RowAnswer, Jwt.CreateAccessToken, RotateAll,
      Jwt.JsonContract, Jwt.PairContract, DistinctKids, BEARER;
    IssuedTokensOwnTheirSession(w, issued);
    IssuedTokenAuthenticates(s, first, before, later, userId, role, issued.sid, issued.jti, iat, ttl,
                             w.tables, users, now);
  }
}
