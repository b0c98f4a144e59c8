/**
 The session use cases of AuthUseCases.cpp and SessionUseCases.cpp when no two of them overlap:
 each is one function on the sessions and the audit log, its writes free to fail, and each method
 of the two classes runs its repository calls in order and arrives where its function says.
 */
module UseCases {
  import opened Wrappers
  import opened SessionTables
  import opened SessionRepository
  import opened Transactions

  const LOGIN_LIFETIME := 7 * 24 * 3600
  const GOOGLE_LIFETIME := 30 * 24 * 3600
  const ACCESS_TTL := 900

  /** The event types written by the use cases modelled here. */
  datatype AuditEvent =
    | LOGIN_FAILURE | ACCOUNT_LOCKED | LOGIN_SUCCESS | AUTH_GOOGLE_SUCCESS | REFRESH_SUCCESS
    | REFRESH_REUSE_DETECTED | LOGOUT | ALL_SESSIONS_REVOKED | SESSION_REVOKED | SESSION_REVOKED_BY_ADMIN

  /** The empty string stands for a column left out. */
  datatype AuditEntry = AuditEntry(event: AuditEvent, userId: string, sessionId: string)

  datatype Desk = Desk(tables: Tables, audit: seq<AuditEntry>)

  datatype Reply =
    | Rejected(status: int)
    | Tokens(sid: string, jti: string, refresh: string, expiresIn: int)
    | Done
    | AlreadyRevoked
    | Ended(count: nat)

  /** UUIDs and tokens drawn for one request, with the time it runs at. */
  datatype Drawn = Drawn(id: string, jti: string, refresh: string, now: int)

  /**
   What a request says of its client, and what becomes of its write to the sessions and of its
   audit inserts. An address too long for its column makes an audit insert fail.
   */
  datatype Io = Io(client: Client, write: Fault, audit: Fault)
  {
    function InsertFault(): Fault { Guarded(client.Fits(), write) }
    function AuditFault(): Fault { Guarded(FitsColumn(client.ip, ADDRESS_WIDTH), audit) }
    predicate Stores() { Applied(InsertFault()) }
    predicate Records() { Applied(AuditFault()) }
  }

  /** A failed audit insert is only logged, so the use case goes on without its entry. */
  function Logged(d: Desk, event: AuditEvent, userId: string, sessionId: string, io: Io): Desk {
    d.(audit := Settle(d.audit, d.audit + [AuditEntry(event, userId, sessionId)], io.AuditFault()))
  }

  predicate AllWhitespace(s: string) {
    forall i :: 0 <= i < |s| ==> s[i] in {' ', '\t', '\n', '\r'}
  }

  // ----- Hashes in the table -----

  predicate HashTaken(t: Tables, hash: string) {
    exists id :: id in t.sessions && (t.sessions[id].hash == hash || t.sessions[id].previousHash == Some(hash))
  }

  /** All current and previous hashes are different. */
  ghost predicate DistinctHashes(t: Tables) {
    forall a, b :: a in t.sessions && b in t.sessions ==>
      && (t.sessions[a].hash == t.sessions[b].hash ==> a == b)
      && (t.sessions[a].previousHash.Some? && t.sessions[a].previousHash == t.sessions[b].previousHash ==> a == b)
      && t.sessions[a].previousHash != Some(t.sessions[b].hash)
  }

  /** What `findByRefreshTokenHash` answers. */
  ghost function Lookup(sessions: map<string, Session>, hash: string, now: int): (found: Option<Found>)
    ensures found.Some? ==>
              found.value.id in sessions && found.value.session.userId == sessions[found.value.id].userId
  {
    if exists id :: id in sessions && sessions[id].hash == hash then
      var id :| id in sessions && sessions[id].hash == hash;
      Some(Found(id, sessions[id]))
    else if exists id :: id in sessions && sessions[id].previousHash == Some(hash) then
      var id :| id in sessions && sessions[id].previousHash == Some(hash);
      Some(Found(id, Mark(sessions[id], "TOKEN_REUSE_DETECTED", now)))
    else None
  }

  lemma LookupIsUnique(t: Tables, hash: string, now: int, id: string)
    requires DistinctHashes(t) && id in t.sessions
    ensures t.sessions[id].hash == hash ==> Lookup(t.sessions, hash, now) == Some(Found(id, t.sessions[id]))
    ensures t.sessions[id].previousHash == Some(hash) ==>
              Lookup(t.sessions, hash, now) == Some(Found(id, Mark(t.sessions[id], "TOKEN_REUSE_DETECTED", now)))
  {
  }

  // ----- The use cases -----

  /** Both sign-ins end by storing a session for what they drew. */
  ghost function StartSession(
    d: Desk, event: AuditEvent, userId: string, lifetime: int, sha: string -> string, x: Drawn, io: Io
  ): (Desk, Reply)
  {
    var s := NewSession(userId, x.jti, sha(x.refresh), x.now, x.now + lifetime);
    var (tables, id) := CreateCall(d.tables, s, x.id, io.InsertFault());
    if id == "" then (d.(tables := tables), Rejected(500))
    else (Logged(d.(tables := tables), event, userId, id, io), Tokens(id, x.jti, x.refresh, ACCESS_TTL))
  }

  /** `users` says who is active; `check` is None for a user without a password. */
  ghost function LoginStep(
    d: Desk, users: map<string, bool>, userId: string, check: Option<bool>, failures: nat,
    sha: string -> string, x: Drawn, io: Io
  ): (Desk, Reply)
  {
    if userId !in users then (Logged(d, LOGIN_FAILURE, "", "", io), Rejected(401))
    else if !users[userId] then (d, Rejected(403))
    else if check.None? then (d, Rejected(400))
    else if !check.value then
      var d := if failures + 1 >= 5 then Logged(d, ACCOUNT_LOCKED, userId, "", io) else d;
      (Logged(d, LOGIN_FAILURE, userId, "", io), Rejected(401))
    else StartSession(d, LOGIN_SUCCESS, userId, LOGIN_LIFETIME, sha, x, io)
  }

  /** From the point where the account is known. */
  ghost function GoogleStep(d: Desk, users: map<string, bool>, userId: string, sha: string -> string, x: Drawn, io: Io)
    : (Desk, Reply)
  {
    if userId !in users || !users[userId] then (d, Rejected(403))
    else StartSession(d, AUTH_GOOGLE_SUCCESS, userId, GOOGLE_LIFETIME, sha, x, io)
  }

  const REUSED := "Security: Refresh token reuse detected"

  ghost function RefreshStep(d: Desk, users: map<string, bool>, raw: string, sha: string -> string, x: Drawn, io: Io)
    : (Desk, Reply)
  {
    if AllWhitespace(raw) then (d, Rejected(400))
    else
      match Lookup(d.tables.sessions, sha(raw), x.now)
      case None => (d, Rejected(401))
      case Some(Found(id, s)) =>
        if s.IsRevoked() then
          (Logged(d.(tables := RevokeAllCall(d.tables, s.userId, REUSED, x.now, io.write).0),
                  REFRESH_REUSE_DETECTED, s.userId, id, io), Rejected(401))
        else if s.IsExpired(x.now) then (d, Rejected(401))
        else if s.userId !in users || !users[s.userId] then (d, Rejected(401))
        else RotateFor(d, id, s.userId, sha, x, io)
  }

  ghost function RotateFor(d: Desk, id: string, userId: string, sha: string -> string, x: Drawn, io: Io)
    : (Desk, Reply)
  {
    var (tables, updated) :=
      UpdateCall(d.tables, id, sha(x.refresh), x.jti, x.now + LOGIN_LIFETIME, x.now, io.write);
    if !updated then (d.(tables := tables), Rejected(409))
    else (Logged(d.(tables := tables), REFRESH_SUCCESS, userId, id, io), Tokens(id, x.jti, x.refresh, ACCESS_TTL))
  }

  const LOGGED_OUT := "User logout"

  ghost function LogoutStep(d: Desk, key: string, userId: string, now: int, io: Io): (Desk, Reply) {
    var (tables, revoked) := RevokeCall(d.tables, key, LOGGED_OUT, now, io.write);
    if !revoked then (d.(tables := tables), Rejected(404))
    else (Logged(d.(tables := tables), LOGOUT, userId, key, io), Done)
  }

  const LOGGED_OUT_EVERYWHERE := "User initiated logout-all"

  ghost function LogoutAllStep(d: Desk, userId: string, now: int, io: Io): (Desk, Reply) {
    var (tables, count) := RevokeAllCall(d.tables, userId, LOGGED_OUT_EVERYWHERE, now, io.write);
    (Logged(d.(tables := tables), ALL_SESSIONS_REVOKED, userId, "", io), Ended(count))
  }

  const TERMINATED := "User terminated session"

  /** Whether the revocation took effect is not asked. */
  ghost function RevokeUserStep(d: Desk, userId: string, key: string, now: int, io: Io): (Desk, Reply) {
    match Find(d.tables, key)
    case None => (d, Rejected(404))
    case Some(id) =>
      if d.tables.sessions[id].userId != userId then (d, Rejected(403))
      else if d.tables.sessions[id].IsRevoked() then (d, AlreadyRevoked)
      else (Logged(d.(tables := RevokeCall(d.tables, id, TERMINATED, now, io.write).0),
                   SESSION_REVOKED, userId, id, io), Done)
  }

  function Reason(given: string, default: string): string { if given == "" then default else given }

  function AdminReason(given: string): string { Reason(given, "Revoked by administrator") }

  function AdminAllReason(given: string): string { Reason(given, "All sessions revoked by administrator") }

  /** Writes its entry for a session that was already revoked, too, and for one that could not be. */
  ghost function RevokeAdminStep(d: Desk, permitted: bool, key: string, reason: string, now: int, io: Io)
    : (Desk, Reply)
  {
    if !permitted then (d, Rejected(403))
    else
      match Find(d.tables, key)
      case None => (d, Rejected(404))
      case Some(id) =>
        var tables := RevokeCall(d.tables, id, AdminReason(reason), now, io.write).0;
        (Logged(d.(tables := tables), SESSION_REVOKED_BY_ADMIN, d.tables.sessions[id].userId, id, io), Done)
  }

  ghost function RevokeAllAdminStep(d: Desk, permitted: bool, userId: string, reason: string, now: int, io: Io)
    : (Desk, Reply)
  {
    if !permitted then (d, Rejected(403))
    else
      var (tables, count) := RevokeAllCall(d.tables, userId, AdminAllReason(reason), now, io.write);
      (Logged(d.(tables := tables), ALL_SESSIONS_REVOKED, userId, "", io), Ended(count))
  }

  // ----- What the tables keep -----

  ghost predicate Sound(t: Tables) {
    WellFormed(t) && DistinctHashes(t)
  }

  /** Nothing drawn is in the tables yet. */
  ghost predicate Fresh(t: Tables, sha: string -> string, x: Drawn) {
    && x.id != "" && x.id != x.jti
    && x.id !in t.sessions && !JtiTaken(t, x.id)
    && x.jti !in t.sessions && !JtiTaken(t, x.jti)
    && !HashTaken(t, sha(x.refresh))
  }

  lemma InsertKeepsHashes(t: Tables, id: string, s: Session)
    requires DistinctHashes(t) && !HashTaken(t, s.hash) && s.previousHash.None?
    ensures DistinctHashes(Insert(t, id, s))
  {
  }

  lemma RotateKeepsHashes(t: Tables, id: string, newHash: string, newJti: string, expiresAt: int, now: int)
    requires DistinctHashes(t) && id in t.sessions && !HashTaken(t, newHash)
    ensures DistinctHashes(Rotate(t, id, newHash, newJti, expiresAt, now))
  {
    var next := Rotate(t, id, newHash, newJti, expiresAt, now);
    forall a, b | a in next.sessions && b in next.sessions
      ensures next.sessions[a].hash == next.sessions[b].hash ==> a == b
      ensures next.sessions[a].previousHash.Some? && next.sessions[a].previousHash == next.sessions[b].previousHash
              ==> a == b
      ensures next.sessions[a].previousHash != Some(next.sessions[b].hash)
    {
      var x, y := t.sessions[a], t.sessions[b];
      assert x.hash != newHash && y.hash != newHash;
      assert x.previousHash != Some(newHash) && y.previousHash != Some(newHash);
      assert t.sessions[a].previousHash != Some(t.sessions[id].hash);
      assert t.sessions[b].previousHash != Some(t.sessions[id].hash);
    }
  }

  lemma RevokeKeepsSound(t: Tables, ids: set<string>, reason: string, now: int)
    requires Sound(t) && ids <= t.sessions.Keys
    ensures Sound(Revoke(t, ids, reason, now))
  {
    RevokeKeeps(t, ids, reason, now);
    hide WellFormed, WithListed;
  }

  /** A sign-in whose insert fails early opens nothing; otherwise it answers, stored or not. */
  lemma StartKeepsSound(
    d: Desk, event: AuditEvent, userId: string, lifetime: int, sha: string -> string, x: Drawn, io: Io
  )
    requires Sound(d.tables) && Fresh(d.tables, sha, x)
    ensures var s := NewSession(userId, x.jti, sha(x.refresh), x.now, x.now + lifetime);
            var stored := Settle(d.tables, Insert(d.tables, x.id, s), io.InsertFault());
            && Sound(stored)
            && StartSession(d, event, userId, lifetime, sha, x, io)
               == if io.InsertFault().EarlyFault? then (d, Rejected(500))
                  else (Logged(d.(tables := stored), event, userId, x.id, io),
                        Tokens(x.id, x.jti, x.refresh, ACCESS_TTL))
  {
    var s := NewSession(userId, x.jti, sha(x.refresh), x.now, x.now + lifetime);
    FreshInsert(d.tables, sha, x, s);
    Created(d.tables, s, x.id, io.InsertFault());
    hide Sound, Fresh, JtiTaken, Insert, CreateCall, NewSession, Logged, Guarded;
  }

  lemma Created(t: Tables, s: Session, id: string, fault: Fault)
    requires !JtiTaken(t, s.jti)
    ensures CreateCall(t, s, id, fault)
            == if fault.EarlyFault? then (t, "") else (Settle(t, Insert(t, id, s), fault), id)
  {
  }

  lemma FreshInsert(t: Tables, sha: string -> string, x: Drawn, s: Session)
    requires Sound(t) && Fresh(t, sha, x) && s.jti == x.jti && s.hash == sha(x.refresh) && s.previousHash.None?
    ensures Sound(Insert(t, x.id, s)) && x.id != "" && !JtiTaken(t, s.jti)
  {
    hide WellFormed, DistinctHashes, JtiTaken;
    InsertKeeps(t, x.id, s);
    InsertKeepsHashes(t, x.id, s);
  }

  /** A live session is rotated, if the update is applied, and nothing else happens. */
  lemma RotateKeepsSound(d: Desk, id: string, userId: string, sha: string -> string, x: Drawn, io: Io)
    requires Sound(d.tables) && Fresh(d.tables, sha, x) && id in d.tables.sessions && !d.tables.sessions[id].IsRevoked()
    ensures RotateFor(d, id, userId, sha, x, io).0.tables
         == Settle(d.tables, Rotate(d.tables, id, sha(x.refresh), x.jti, x.now + LOGIN_LIFETIME, x.now), io.write)
    ensures RotateFor(d, id, userId, sha, x, io).1
         == if io.write.NoFault? then Tokens(id, x.jti, x.refresh, ACCESS_TTL) else Rejected(409)
    ensures Sound(RotateFor(d, id, userId, sha, x, io).0.tables)
  {
    FreshRotation(d.tables, id, sha, x);
    hide Sound, Fresh, Rotate, Find, FindIn, JtiTakenByOther, Logged, Guarded;
    Updated(d.tables, id, sha(x.refresh), x.jti, x.now + LOGIN_LIFETIME, x.now, io.write);
    hide UpdateCall;
  }

  lemma FreshRotation(t: Tables, id: string, sha: string -> string, x: Drawn)
    requires Sound(t) && Fresh(t, sha, x) && id in t.sessions && !t.sessions[id].IsRevoked()
    ensures Sound(Rotate(t, id, sha(x.refresh), x.jti, x.now + LOGIN_LIFETIME, x.now))
    ensures Find(t, id) == Some(id) && !JtiTakenByOther(t, id, x.jti)
  {
    FindIsUnique(t, id, id);
    RotateKeeps(t, id, sha(x.refresh), x.jti, x.now + LOGIN_LIFETIME, x.now);
    RotateKeepsHashes(t, id, sha(x.refresh), x.jti, x.now + LOGIN_LIFETIME, x.now);
    hide WellFormed, DistinctHashes, FindIn;
  }

  lemma Updated(t: Tables, id: string, newHash: string, newJti: string, expiresAt: int, now: int, fault: Fault)
    requires id in t.sessions && !t.sessions[id].IsRevoked()
    requires Find(t, id) == Some(id) && !JtiTakenByOther(t, id, newJti)
    ensures UpdateCall(t, id, newHash, newJti, expiresAt, now, fault)
         == (Settle(t, Rotate(t, id, newHash, newJti, expiresAt, now), fault), fault.NoFault?)
  {
    hide FindIn, Rotate, JtiTakenByOther;
  }

  // ----- The classes -----

  class PostgresAuditLogRepository {
    var entries: seq<AuditEntry>

    constructor ()
      ensures entries == []
    {
      entries := [];
    }

    /** A failed insert is only logged, so the caller goes on without its entry. */
    method Record(event: AuditEvent, userId: string, sessionId: string, fault: Fault)
      modifies this
      ensures entries == Settle(old(entries), old(entries) + [AuditEntry(event, userId, sessionId)], fault)
    {
      if Applied(fault) {
        entries := entries + [AuditEntry(event, userId, sessionId)];
      }
    }
  }

  class AuthUseCases {
    const sessionRepo: PostgresSessionRepository
    const auditRepo: PostgresAuditLogRepository
    const sha: string -> string

    constructor (sessionRepo: PostgresSessionRepository, auditRepo: PostgresAuditLogRepository, sha: string -> string)
      ensures this.sessionRepo == sessionRepo && this.auditRepo == auditRepo && this.sha == sha
    {
      this.sessionRepo, this.auditRepo, this.sha := sessionRepo, auditRepo, sha;
    }

    function State(): Desk
      reads sessionRepo, auditRepo
    {
      Desk(sessionRepo.State(), auditRepo.entries)
    }

    ghost predicate Valid()
      reads sessionRepo
    {
      Sound(sessionRepo.State())
    }

    method Begin(event: AuditEvent, userId: string, lifetime: int, x: Drawn, io: Io) returns (reply: Reply)
      requires Valid() && Fresh(sessionRepo.State(), sha, x)
      modifies sessionRepo, auditRepo
      ensures Valid() && (State(), reply) == StartSession(old(State()), event, userId, lifetime, sha, x, io)
    {
      StartKeepsSound(State(), event, userId, lifetime, sha, x, io);
      hide WellFormed, DistinctHashes;
      var s := NewSession(userId, x.jti, sha(x.refresh), x.now, x.now + lifetime);
      var id := sessionRepo.CreateSession(s, io.client, x.id, io.write);
      if id == "" { return Rejected(500); }
      auditRepo.Record(event, userId, id, io.AuditFault());
      reply := Tokens(id, x.jti, x.refresh, ACCESS_TTL);
    }

    method Login(users: map<string, bool>, userId: string, check: Option<bool>, failures: nat, x: Drawn, io: Io)
      returns (reply: Reply)
      requires Valid() && Fresh(sessionRepo.State(), sha, x)
      modifies sessionRepo, auditRepo
      ensures Valid() && (State(), reply) == LoginStep(old(State()), users, userId, check, failures, sha, x, io)
    {
      hide Sound, StartSession;
      if userId !in users {
        auditRepo.Record(LOGIN_FAILURE, "", "", io.AuditFault());
        return Rejected(401);
      }
      if !users[userId] { return Rejected(403); }
      if check.None? { return Rejected(400); }
      if !check.value {
        if failures + 1 >= 5 {
          auditRepo.Record(ACCOUNT_LOCKED, userId, "", io.AuditFault());
        }
        auditRepo.Record(LOGIN_FAILURE, userId, "", io.AuditFault());
        return Rejected(401);
      }
      reply := Begin(LOGIN_SUCCESS, userId, LOGIN_LIFETIME, x, io);
    }

    method LoginWithGoogle(users: map<string, bool>, userId: string, x: Drawn, io: Io) returns (reply: Reply)
      requires Valid() && Fresh(sessionRepo.State(), sha, x)
      modifies sessionRepo, auditRepo
      ensures Valid() && (State(), reply) == GoogleStep(old(State()), users, userId, sha, x, io)
    {
      hide Sound, StartSession;
      if userId !in users || !users[userId] { return Rejected(403); }
      reply := Begin(AUTH_GOOGLE_SUCCESS, userId, GOOGLE_LIFETIME, x, io);
    }

    method Refresh(users: map<string, bool>, raw: string, x: Drawn, io: Io) returns (reply: Reply)
      requires Valid() && Fresh(sessionRepo.State(), sha, x)
      modifies sessionRepo, auditRepo
      ensures Valid() && (State(), reply) == RefreshStep(old(State()), users, raw, sha, x, io)
    {
      hide RotateFor, AllWhitespace;
      if AllWhitespace(raw) { return Rejected(400); }
      var found := sessionRepo.FindByRefreshTokenHash(sha(raw), x.now, false);
      if found.Some? {
        LookupIsUnique(sessionRepo.State(), sha(raw), x.now, found.value.id);
      }
      assert found == Lookup(sessionRepo.State().sessions, sha(raw), x.now);
      hide WellFormed, DistinctHashes, Lookup, Fresh;
      if found.None? { return Rejected(401); }
      var s := found.value.session;
      if s.IsRevoked() {
        RevokeAllKeepsSound(sessionRepo.State(), s.userId, REUSED, x.now, io.write);
        hide Revoke;
        var count := sessionRepo.RevokeAllUserSessions(s.userId, REUSED, x.now, io.write);
        auditRepo.Record(REFRESH_REUSE_DETECTED, s.userId, found.value.id, io.AuditFault());
        return Rejected(401);
      }
      if s.IsExpired(x.now) { return Rejected(401); }
      if s.userId !in users || !users[s.userId] { return Rejected(401); }
      assert sessionRepo.State().sessions[found.value.id] == s by {
        CurrentFound(sessionRepo.State(), sha(raw), x.now);
      }
      reply := RotateSession(found.value.id, s.userId, x, io);
    }

    method RotateSession(id: string, userId: string, x: Drawn, io: Io) returns (reply: Reply)
      requires Valid() && Fresh(sessionRepo.State(), sha, x)
      requires id in sessionRepo.sessions && !sessionRepo.sessions[id].IsRevoked()
      modifies sessionRepo, auditRepo
      ensures Valid() && (State(), reply) == RotateFor(old(State()), id, userId, sha, x, io)
    {
      RotateKeepsSound(State(), id, userId, sha, x, io);
      assert x.jti !in sessionRepo.sessions;
      hide WellFormed, DistinctHashes, Fresh, UpdateRefreshToken, Rotate;
      var updated := sessionRepo.UpdateRefreshToken(id, sha(x.refresh), x.jti, x.now + LOGIN_LIFETIME, x.now, io.write);
      if !updated { return Rejected(409); }
      auditRepo.Record(REFRESH_SUCCESS, userId, id, io.AuditFault());
      reply := Tokens(id, x.jti, x.refresh, ACCESS_TTL);
    }

    method Logout(key: string, userId: string, now: int, io: Io) returns (reply: Reply)
      requires Valid()
      modifies sessionRepo, auditRepo
      ensures Valid() && (State(), reply) == LogoutStep(old(State()), key, userId, now, io)
    {
      RevokeOneKeepsSound(sessionRepo.State(), key, LOGGED_OUT, now, io.write);
      hide WellFormed, DistinctHashes, RevokeSession;
      var revoked := sessionRepo.RevokeSession(key, LOGGED_OUT, now, io.write);
      if !revoked { return Rejected(404); }
      auditRepo.Record(LOGOUT, userId, key, io.AuditFault());
      reply := Done;
    }

    method LogoutAll(userId: string, now: int, io: Io) returns (reply: Reply)
      requires Valid()
      modifies sessionRepo, auditRepo
      ensures Valid() && (State(), reply) == LogoutAllStep(old(State()), userId, now, io)
    {
      RevokeAllKeepsSound(sessionRepo.State(), userId, LOGGED_OUT_EVERYWHERE, now, io.write);
      hide WellFormed, DistinctHashes, Revoke;
      var count := sessionRepo.RevokeAllUserSessions(userId, LOGGED_OUT_EVERYWHERE, now, io.write);
      auditRepo.Record(ALL_SESSIONS_REVOKED, userId, "", io.AuditFault());
      reply := Ended(count);
    }
  }

  lemma CurrentFound(t: Tables, hash: string, now: int)
    ensures var found := Lookup(t.sessions, hash, now);
            found.Some? && !found.value.session.IsRevoked() ==>
              t.sessions[found.value.id] == found.value.session && found.value.session.hash == hash
  {
  }

  lemma RevokeOneKeepsSound(t: Tables, key: string, reason: string, now: int, fault: Fault)
    requires Sound(t)
    ensures Sound(RevokeCall(t, key, reason, now, fault).0)
  {
    if Find(t, key).Some? {
      RevokeKeepsSound(t, {Find(t, key).value}, reason, now);
    }
    hide Sound, Revoke, FindIn;
  }

  lemma RevokeAllKeepsSound(t: Tables, userId: string, reason: string, now: int, fault: Fault)
    requires Sound(t)
    ensures Sound(RevokeAllCall(t, userId, reason, now, fault).0)
  {
    RevokeKeepsSound(t, LiveOf(t, userId), reason, now);
    hide Sound, Revoke, LiveOf;
  }

  class SessionUseCases {
    const sessionRepo: PostgresSessionRepository
    const auditRepo: PostgresAuditLogRepository

    constructor (sessionRepo: PostgresSessionRepository, auditRepo: PostgresAuditLogRepository)
      ensures this.sessionRepo == sessionRepo && this.auditRepo == auditRepo
    {
      this.sessionRepo, this.auditRepo := sessionRepo, auditRepo;
    }

    function State(): Desk
      reads sessionRepo, auditRepo
    {
      Desk(sessionRepo.State(), auditRepo.entries)
    }

    ghost predicate Valid()
      reads sessionRepo
    {
      Sound(sessionRepo.State())
    }

    method RevokeUserSession(userId: string, key: string, now: int, io: Io) returns (reply: Reply)
      requires Valid()
      modifies sessionRepo, auditRepo
      ensures Valid() && (State(), reply) == RevokeUserStep(old(State()), userId, key, now, io)
    {
      var found := sessionRepo.FindById(key, false);
      if found.None? { return Rejected(404); }
      var id := found.value.id;
      FindIsUnique(sessionRepo.State(), id, id);
      RevokeOneKeepsSound(sessionRepo.State(), id, TERMINATED, now, io.write);
      hide WellFormed, DistinctHashes, Revoke, FindIn;
      if found.value.session.userId != userId { return Rejected(403); }
      if found.value.session.IsRevoked() { return AlreadyRevoked; }
      var revoked := sessionRepo.RevokeSession(id, TERMINATED, now, io.write);
      auditRepo.Record(SESSION_REVOKED, userId, id, io.AuditFault());
      reply := Done;
    }

    method RevokeAdminSession(permitted: bool, key: string, reason: string, now: int, io: Io) returns (reply: Reply)
      requires Valid()
      modifies sessionRepo, auditRepo
      ensures Valid() && (State(), reply) == RevokeAdminStep(old(State()), permitted, key, reason, now, io)
    {
      if !permitted { return Rejected(403); }
      var found := sessionRepo.FindById(key, false);
      if found.None? { return Rejected(404); }
      var id := found.value.id;
      var why := AdminReason(reason);
      RevokeOneKeepsSound(sessionRepo.State(), id, why, now, io.write);
      hide WellFormed, DistinctHashes, Revoke, FindIn, RevokeSession;
      var revoked := sessionRepo.RevokeSession(id, why, now, io.write);
      auditRepo.Record(SESSION_REVOKED_BY_ADMIN, found.value.session.userId, id, io.AuditFault());
      reply := Done;
    }

    method RevokeAllUserSessionsAdmin(permitted: bool, userId: string, reason: string, now: int, io: Io)
      returns (reply: Reply)
      requires Valid()
      modifies sessionRepo, auditRepo
      ensures Valid()
      ensures (State(), reply) == RevokeAllAdminStep(old(State()), permitted, userId, reason, now, io)
    {
      if !permitted { return Rejected(403); }
      var why := AdminAllReason(reason);
      RevokeAllKeepsSound(sessionRepo.State(), userId, why, now, io.write);
      hide WellFormed, DistinctHashes, Revoke;
      var count := sessionRepo.RevokeAllUserSessions(userId, why, now, io.write);
      auditRepo.Record(ALL_SESSIONS_REVOKED, userId, "", io.AuditFault());
      reply := Ended(count);
    }
  }
}
