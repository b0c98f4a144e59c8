/**
 Runs of whole use cases, one after the other, every write of theirs free to fail. Every generated
 UUID is new, and the hash of every generated token is new (SHA-256 is injective on the tokens drawn).
 */
module DeskRuns {
  import opened Wrappers
  import opened SessionTables
  import opened SessionRepository
  import opened Transactions
  import opened UseCases

  datatype Op =
    | SignIn(userId: string, check: Option<bool>, failures: nat, x: Drawn, io: Io)
    | GoogleSignIn(userId: string, x: Drawn, io: Io)
    | RefreshWith(raw: string, x: Drawn, io: Io)
    | LogoutOf(key: string, userId: string, now: int, io: Io)
    | LogoutEverywhere(userId: string, now: int, io: Io)
    | RevokeOwn(userId: string, key: string, now: int, io: Io)
    | AdminRevoke(permitted: bool, key: string, reason: string, now: int, io: Io)
    | AdminRevokeAll(permitted: bool, userId: string, reason: string, now: int, io: Io)
    | CleanUp(now: int)
    | SetUser(userId: string, active: bool)
  {
    predicate Draws() { SignIn? || GoogleSignIn? || RefreshWith? }

    /** The write to the sessions fits its columns and is applied. */
    predicate Takes() {
      match this
      case SignIn(_, _, _, _, io) => io.Stores()
      case GoogleSignIn(_, _, io) => io.Stores()
      case AdminRevoke(_, _, reason, _, io) => Applied(ReasonFault(AdminReason(reason), io.write))
      case AdminRevokeAll(_, _, reason, _, io) => Applied(ReasonFault(AdminAllReason(reason), io.write))
      case CleanUp(_) => true
      case SetUser(_, _) => true
      case _ => Applied(io.write)
    }

    /** The use case gets to its audit entry, and the entry is stored. Only some ask what became of the write. */
    predicate Tells() {
      match this
      case SignIn(_, _, _, _, io) => !io.InsertFault().EarlyFault? && io.Records()
      case GoogleSignIn(_, _, io) => !io.InsertFault().EarlyFault? && io.Records()
      case LogoutOf(_, _, _, io) => io.write.NoFault? && io.Records()
      case CleanUp(_) => true
      case SetUser(_, _) => true
      case _ => io.Records()
    }
  }

  /** `uuids` and `hashes` hold everything drawn so far. */
  datatype State = State(desk: Desk, users: map<string, bool>, uuids: set<string>, hashes: set<string>)

  const START := State(Desk(EMPTY, []), map[], {}, {})

  ghost predicate Enabled(s: State, op: Op, sha: string -> string) {
    op.Draws() ==>
      && op.x.id != "" && op.x.id != op.x.jti
      && op.x.id !in s.uuids && op.x.jti !in s.uuids
      && sha(op.x.refresh) !in s.hashes
  }

  ghost function DeskStep(s: State, op: Op, sha: string -> string): (Desk, Reply) {
    match op
    case SignIn(userId, check, failures, x, io) => LoginStep(s.desk, s.users, userId, check, failures, sha, x, io)
    case GoogleSignIn(userId, x, io) => GoogleStep(s.desk, s.users, userId, sha, x, io)
    case RefreshWith(raw, x, io) => RefreshStep(s.desk, s.users, raw, sha, x, io)
    case LogoutOf(key, userId, now, io) => LogoutStep(s.desk, key, userId, now, io)
    case LogoutEverywhere(userId, now, io) => LogoutAllStep(s.desk, userId, now, io)
    case RevokeOwn(userId, key, now, io) => RevokeUserStep(s.desk, userId, key, now, io)
    case AdminRevoke(permitted, key, reason, now, io) => RevokeAdminStep(s.desk, permitted, key, reason, now, io)
    case AdminRevokeAll(permitted, userId, reason, now, io) =>
      RevokeAllAdminStep(s.desk, permitted, userId, reason, now, io)
    case CleanUp(now) => (s.desk.(tables := Cleanup(s.desk.tables, now)), Done)
    case SetUser(_, _) => (s.desk, Done)
  }

  ghost function Step(s: State, op: Op, sha: string -> string): State {
    State(DeskStep(s, op, sha).0,
          if op.SetUser? then s.users[op.userId := op.active] else s.users,
          if op.Draws() then s.uuids + {op.x.id, op.x.jti} else s.uuids,
          if op.Draws() then s.hashes + {sha(op.x.refresh)} else s.hashes)
  }

  ghost predicate Known(s: State) {
    forall id :: id in s.desk.tables.sessions ==>
      var row := s.desk.tables.sessions[id];
      && id in s.uuids && row.jti in s.uuids && row.hash in s.hashes
      && (row.previousHash.Some? ==> row.previousHash.value in s.hashes)
  }

  ghost predicate Inv(s: State) {
    Sound(s.desk.tables) && Known(s)
  }

  // ----- The five things a use case can do -----

  const SIGN_INS := {LOGIN_SUCCESS, AUTH_GOOGLE_SUCCESS}
  const NAMED := {LOGOUT, SESSION_REVOKED, SESSION_REVOKED_BY_ADMIN}
  const BULK := {ALL_SESSIONS_REVOKED, REFRESH_REUSE_DETECTED}
  const CLOSING := NAMED + BULK

  /** `takes`: the sessions are changed; `tells`: the audit entry is there. */
  datatype Shape =
    | Idle
    | Open(id: string, row: Session, takes: bool, tells: bool)
    | Turn(id: string, hash: string, jti: string, expiresAt: int, now: int)
    | Close(id: string, key: string, takes: bool, tells: bool)
    | CloseAll(userId: string, takes: bool, tells: bool)

  /** b is a after its revocation, or already was. */
  predicate RevokedFrom(a: Session, b: Session) {
    b.IsRevoked() && if a.IsRevoked() then b == a else b == a.(revokedAt := b.revokedAt, reason := b.reason)
  }

  predicate Appends(d: Desk, e: Desk, events: set<AuditEvent>, userId: string, sessionId: string) {
    && |e.audit| == |d.audit| + 1 && e.audit[..|d.audit|] == d.audit
    && e.audit[|d.audit|].event in events
    && e.audit[|d.audit|].userId == userId && e.audit[|d.audit|].sessionId == sessionId
  }

  /** Nothing but entries that neither open nor close a session. */
  predicate AppendsOther(d: Desk, e: Desk) {
    && d.audit <= e.audit
    && forall k :: |d.audit| <= k < |e.audit| ==> e.audit[k].event !in SIGN_INS + CLOSING
  }

  ghost predicate Shaped(d: Desk, e: Desk, shape: Shape) {
    var before, after := d.tables.sessions, e.tables.sessions;
    match shape
    case Idle => after == before && AppendsOther(d, e)
    case Open(id, row, takes, tells) =>
      && id !in before && !row.IsRevoked() && row.previousHash.None?
      && after == (if takes then before[id := row] else before)
      && if tells then Appends(d, e, SIGN_INS, row.userId, id) else e.audit == d.audit
    case Turn(id, hash, jti, expiresAt, now) =>
      id in before && !before[id].IsRevoked()
      && after == Rotate(d.tables, id, hash, jti, expiresAt, now).sessions && AppendsOther(d, e)
    case Close(id, key, takes, tells) =>
      id in before && (id == key || before[id].jti == key) && after.Keys == before.Keys
      && (if takes then RevokedFrom(before[id], after[id]) else after[id] == before[id])
      && (forall other :: other in before && other != id ==> after[other] == before[other])
      && if tells then |d.audit| < |e.audit| && Appends(d, e, NAMED, e.audit[|d.audit|].userId, key)
         else e.audit == d.audit
    case CloseAll(userId, takes, tells) =>
      after.Keys == before.Keys
      && (forall id :: id in before ==>
            if takes && before[id].userId == userId then RevokedFrom(before[id], after[id])
            else after[id] == before[id])
      && if tells then |d.audit| < |e.audit| && Appends(d, e, BULK, userId, e.audit[|d.audit|].sessionId)
         else e.audit == d.audit
  }

  predicate SignsIn(s: State, op: Op)
    requires op.SignIn? || op.GoogleSignIn?
  {
    op.userId in s.users && s.users[op.userId] && (op.SignIn? ==> op.check == Some(true))
  }

  function NewRow(op: Op, sha: string -> string): Session
    requires op.SignIn? || op.GoogleSignIn?
  {
    NewSession(op.userId, op.x.jti, sha(op.x.refresh), op.x.now,
               op.x.now + if op.SignIn? then LOGIN_LIFETIME else GOOGLE_LIFETIME)
  }

  ghost function SignInEffect(s: State, op: Op, sha: string -> string): Shape
    requires op.SignIn? || op.GoogleSignIn?
  {
    if SignsIn(s, op) then Open(op.x.id, NewRow(op, sha), op.Takes(), op.Tells()) else Idle
  }

  /** Which of the three a refresh does, from what the lookup answers. */
  ghost function RefreshEffect(s: State, op: Op, sha: string -> string): Shape
    requires op.RefreshWith?
  {
    if AllWhitespace(op.raw) then Idle
    else
      match Lookup(s.desk.tables.sessions, sha(op.raw), op.x.now)
      case None => Idle
      case Some(found) =>
        var userId := found.session.userId;
        if found.session.IsRevoked() then CloseAll(userId, op.Takes(), op.Tells())
        else if found.session.IsExpired(op.x.now) || userId !in s.users || !s.users[userId] then Idle
        else if !op.Takes() then Idle
        else Turn(found.id, sha(op.x.refresh), op.x.jti, op.x.now + LOGIN_LIFETIME, op.x.now)
  }

  /** What a named revocation does. Only an administrator's does not ask whether the session is live. */
  ghost function NamedEffect(s: State, op: Op): Shape
    requires op.LogoutOf? || op.RevokeOwn? || op.AdminRevoke?
  {
    match Find(s.desk.tables, op.key)
    case None => Idle
    case Some(id) =>
      var row := s.desk.tables.sessions[id];
      if op.AdminRevoke? && !op.permitted then Idle
      else if op.RevokeOwn? && row.userId != op.userId then Idle
      else if !op.AdminRevoke? && row.IsRevoked() then Idle
      else Close(id, if op.LogoutOf? then op.key else id, op.Takes(), op.Tells())
  }

  /** Which of the five things a use case does, from the state before it and its arguments. */
  ghost function Effect(s: State, op: Op, sha: string -> string): Shape {
    match op
    case SignIn(_, _, _, _, _) => SignInEffect(s, op, sha)
    case GoogleSignIn(_, _, _) => SignInEffect(s, op, sha)
    case RefreshWith(_, _, _) => RefreshEffect(s, op, sha)
    case LogoutEverywhere(userId, _, _) => CloseAll(userId, op.Takes(), op.Tells())
    case AdminRevokeAll(permitted, userId, _, _, _) =>
      if permitted then CloseAll(userId, op.Takes(), op.Tells()) else Idle
    case CleanUp(_) => Idle
    case SetUser(_, _) => Idle
    case _ => NamedEffect(s, op)
  }

  lemma OpenShape(
    s: State, event: AuditEvent, userId: string, lifetime: int, sha: string -> string, x: Drawn, io: Io
  ) returns (shape: Shape)
    requires Inv(s) && event in SIGN_INS
    requires x.id != "" && x.id != x.jti && x.id !in s.uuids && x.jti !in s.uuids && sha(x.refresh) !in s.hashes
    ensures var next := StartSession(s.desk, event, userId, lifetime, sha, x, io).0;
            Shaped(s.desk, next, shape) && Sound(next.tables)
    ensures shape == Open(x.id, NewSession(userId, x.jti, sha(x.refresh), x.now, x.now + lifetime),
                          io.Stores(), !io.InsertFault().EarlyFault? && io.Records())
  {
    var row := NewSession(userId, x.jti, sha(x.refresh), x.now, x.now + lifetime);
    assert Fresh(s.desk.tables, sha, x);
    StartKeepsSound(s.desk, event, userId, lifetime, sha, x, io);
    shape := Open(x.id, row, io.Stores(), !io.InsertFault().EarlyFault? && io.Records());
    hide Sound, Fresh, StartSession, Guarded;
  }

  lemma TurnShape(s: State, id: string, userId: string, sha: string -> string, x: Drawn, io: Io)
    returns (shape: Shape)
    requires Inv(s) && id in s.desk.tables.sessions && !s.desk.tables.sessions[id].IsRevoked()
    requires x.id != "" && x.id != x.jti && x.id !in s.uuids && x.jti !in s.uuids && sha(x.refresh) !in s.hashes
    ensures var next := RotateFor(s.desk, id, userId, sha, x, io).0;
            Shaped(s.desk, next, shape) && Sound(next.tables)
    ensures shape == if Applied(io.write) then Turn(id, sha(x.refresh), x.jti, x.now + LOGIN_LIFETIME, x.now) else Idle
    ensures RotateFor(s.desk, id, userId, sha, x, io).1
         == if io.write.NoFault? then Tokens(id, x.jti, x.refresh, ACCESS_TTL) else Rejected(409)
  {
    assert Fresh(s.desk.tables, sha, x);
    RotateKeepsSound(s.desk, id, userId, sha, x, io);
    shape := if Applied(io.write) then Turn(id, sha(x.refresh), x.jti, x.now + LOGIN_LIFETIME, x.now) else Idle;
    hide Sound, Fresh, Rotate, UpdateCall, Guarded;
  }

  lemma CloseShape(
    d: Desk, e: Desk, key: string, reason: string, now: int, write: Fault,
    event: AuditEvent, userId: string, tells: bool
  ) returns (shape: Shape)
    requires Sound(d.tables) && Find(d.tables, key).Some? && event in NAMED
    requires e.tables == RevokeCall(d.tables, key, reason, now, write).0
    requires e.audit == if tells then d.audit + [AuditEntry(event, userId, key)] else d.audit
    ensures Shaped(d, e, shape) && Sound(e.tables)
    ensures shape == Close(Find(d.tables, key).value, key, Applied(ReasonFault(reason, write)), tells)
  {
    hide Sound, RevokedFrom, FindIn;
    RevokeOneKeepsSound(d.tables, key, reason, now, write);
    NamedRows(d.tables, key, reason, now, write);
    shape := Close(Find(d.tables, key).value, key, Applied(ReasonFault(reason, write)), tells);
    hide RevokeCall, ReasonFault;
  }

  lemma NamedRows(t: Tables, key: string, reason: string, now: int, write: Fault)
    requires Find(t, key).Some?
    ensures var id, next := Find(t, key).value, RevokeCall(t, key, reason, now, write).0;
            && id in t.sessions && next.sessions.Keys == t.sessions.Keys
            && (if Applied(ReasonFault(reason, write)) then RevokedFrom(t.sessions[id], next.sessions[id])
                else next == t)
            && forall other :: other in t.sessions && other != id ==> next.sessions[other] == t.sessions[other]
  {
    hide FindIn, WithListed, ReasonFault;
  }

  lemma CloseAllShape(
    d: Desk, e: Desk, userId: string, reason: string, now: int, write: Fault,
    event: AuditEvent, sid: string, tells: bool
  ) returns (shape: Shape)
    requires Sound(d.tables) && event in BULK
    requires e.tables == RevokeAllCall(d.tables, userId, reason, now, write).0
    requires e.audit == if tells then d.audit + [AuditEntry(event, userId, sid)] else d.audit
    ensures Shaped(d, e, shape) && Sound(e.tables)
    ensures shape == CloseAll(userId, Applied(ReasonFault(reason, write)), tells)
  {
    hide Sound, RevokedFrom, Revoke;
    RevokeAllKeepsSound(d.tables, userId, reason, now, write);
    BulkRows(d.tables, userId, reason, now, write);
    shape := CloseAll(userId, Applied(ReasonFault(reason, write)), tells);
    hide RevokeAllCall, LiveOf, ReasonFault;
  }

  lemma BulkRows(t: Tables, userId: string, reason: string, now: int, write: Fault)
    ensures var next := RevokeAllCall(t, userId, reason, now, write).0;
            && next.sessions.Keys == t.sessions.Keys
            && forall id :: id in t.sessions ==>
                 if Applied(ReasonFault(reason, write)) && t.sessions[id].userId == userId
                 then RevokedFrom(t.sessions[id], next.sessions[id])
                 else next.sessions[id] == t.sessions[id]
  {
    hide WithListed, ReasonFault;
  }

  /** The reasons that are not text of a request fit their column. */
  lemma OwnReasonsFit(write: Fault)
    ensures ReasonFault(REUSED, write) == ReasonFault(LOGGED_OUT, write) == write
    ensures ReasonFault(LOGGED_OUT_EVERYWHERE, write) == ReasonFault(TERMINATED, write) == write
  {
  }

  lemma IdleShape(d: Desk)
    ensures Shaped(d, d, Idle)
  {
  }

  lemma QuietShape(s: State, op: Op, sha: string -> string) returns (shape: Shape)
    requires Inv(s) && (op.CleanUp? || op.SetUser?)
    ensures shape == Idle && Shaped(s.desk, DeskStep(s, op, sha).0, shape) && Sound(DeskStep(s, op, sha).0.tables)
  {
    shape := Idle;
    if op.CleanUp? {
      CleanupKeeps(s.desk.tables, op.now);
      hide WellFormed;
    }
  }

  lemma SignInShape(s: State, op: Op, sha: string -> string) returns (shape: Shape)
    requires Inv(s) && Enabled(s, op, sha) && (op.SignIn? || op.GoogleSignIn?)
    ensures Shaped(s.desk, DeskStep(s, op, sha).0, shape) && Sound(DeskStep(s, op, sha).0.tables)
    ensures shape == SignInEffect(s, op, sha)
  {
    hide Guarded;
    if op.SignIn? && SignsIn(s, op) {
      shape := OpenShape(s, LOGIN_SUCCESS, op.userId, LOGIN_LIFETIME, sha, op.x, op.io);
      hide Sound, Shaped, StartSession;
    } else if SignsIn(s, op) {
      shape := OpenShape(s, AUTH_GOOGLE_SUCCESS, op.userId, GOOGLE_LIFETIME, sha, op.x, op.io);
      hide Sound, Shaped, StartSession;
    } else {
      shape := Idle;
      hide Sound;
    }
  }

  lemma RefreshTurns(s: State, op: Op, sha: string -> string)
    requires op.RefreshWith?
    ensures var shape := RefreshEffect(s, op, sha);
            && !shape.Open? && (shape.Turn? ==> shape.jti == op.x.jti && shape.hash == sha(op.x.refresh))
  {
  }

  lemma RefreshShape(s: State, op: Op, sha: string -> string) returns (shape: Shape)
    requires Inv(s) && Enabled(s, op, sha) && op.RefreshWith?
    ensures Shaped(s.desk, DeskStep(s, op, sha).0, shape) && Sound(DeskStep(s, op, sha).0.tables)
    ensures shape == RefreshEffect(s, op, sha)
  {
    var d, e := s.desk, DeskStep(s, op, sha).0;
    var found := Lookup(d.tables.sessions, sha(op.raw), op.x.now);
    CurrentFound(d.tables, sha(op.raw), op.x.now);
    OwnReasonsFit(op.io.write);
    hide Shaped, RotateFor, RevokeAllCall, Lookup, Known, Sound, AllWhitespace, Guarded, ReasonFault;
    if AllWhitespace(op.raw) || found.None? {
      shape := Idle;
      IdleShape(d);
    } else if found.value.session.IsRevoked() {
      shape := CloseAllShape(d, e, found.value.session.userId, REUSED, op.x.now, op.io.write,
                             REFRESH_REUSE_DETECTED, found.value.id, op.io.Records());
    } else if found.value.session.IsExpired(op.x.now) || found.value.session.userId !in s.users
              || !s.users[found.value.session.userId] {
      shape := Idle;
      IdleShape(d);
    } else {
      shape := TurnShape(s, found.value.id, found.value.session.userId, sha, op.x, op.io);
    }
  }

  lemma BulkShape(s: State, op: Op, sha: string -> string) returns (shape: Shape)
    requires Inv(s) && (op.LogoutEverywhere? || op.AdminRevokeAll?)
    ensures Shaped(s.desk, DeskStep(s, op, sha).0, shape) && Sound(DeskStep(s, op, sha).0.tables)
    ensures shape == if op.AdminRevokeAll? && !op.permitted then Idle else CloseAll(op.userId, op.Takes(), op.Tells())
  {
    var e := DeskStep(s, op, sha).0;
    OwnReasonsFit(op.io.write);
    hide Shaped, RevokeAllCall, Sound, Guarded, ReasonFault;
    if op.LogoutEverywhere? {
      shape := CloseAllShape(s.desk, e, op.userId, LOGGED_OUT_EVERYWHERE, op.now, op.io.write,
                             ALL_SESSIONS_REVOKED, "", op.io.Records());
    } else if op.permitted {
      shape := CloseAllShape(s.desk, e, op.userId, AdminAllReason(op.reason), op.now, op.io.write,
                             ALL_SESSIONS_REVOKED, "", op.io.Records());
    } else {
      shape := Idle;
      IdleShape(s.desk);
    }
  }

  lemma NamedCloses(s: State, op: Op)
    requires op.LogoutOf? || op.RevokeOwn? || op.AdminRevoke?
    ensures NamedEffect(s, op).Idle? || NamedEffect(s, op).Close?
  {
  }

  lemma NamedShape(s: State, op: Op, sha: string -> string) returns (shape: Shape)
    requires Inv(s) && (op.LogoutOf? || op.RevokeOwn? || op.AdminRevoke?)
    ensures Shaped(s.desk, DeskStep(s, op, sha).0, shape) && Sound(DeskStep(s, op, sha).0.tables)
    ensures shape == NamedEffect(s, op)
  {
    hide Shaped, Sound, FindIn, DeskStep, Known, NamedEffect;
    match op {
      case LogoutOf(_, _, _, _) => shape := LogoutShape(s, op, sha);
      case RevokeOwn(_, _, _, _) => shape := RevokeOwnShape(s, op, sha);
      case AdminRevoke(_, _, _, _, _) => shape := AdminRevokeShape(s, op, sha);
    }
  }

  lemma LogoutShape(s: State, op: Op, sha: string -> string) returns (shape: Shape)
    requires Sound(s.desk.tables) && op.LogoutOf?
    ensures Shaped(s.desk, DeskStep(s, op, sha).0, shape) && Sound(DeskStep(s, op, sha).0.tables)
    ensures shape == NamedEffect(s, op)
  {
    var d, e := s.desk, DeskStep(s, op, sha).0;
    OwnReasonsFit(op.io.write);
    hide Shaped, FindIn, Sound, Revoke, Guarded, ReasonFault;
    if Find(d.tables, op.key).Some? && !d.tables.sessions[Find(d.tables, op.key).value].IsRevoked() {
      shape := CloseShape(d, e, op.key, LOGGED_OUT, op.now, op.io.write, LOGOUT, op.userId, op.Tells());
    } else {
      shape := Idle;
      IdleShape(d);
    }
  }

  lemma RevokeOwnShape(s: State, op: Op, sha: string -> string) returns (shape: Shape)
    requires Sound(s.desk.tables) && op.RevokeOwn?
    ensures Shaped(s.desk, DeskStep(s, op, sha).0, shape) && Sound(DeskStep(s, op, sha).0.tables)
    ensures shape == NamedEffect(s, op)
  {
    var d, e := s.desk, DeskStep(s, op, sha).0;
    var found := Find(d.tables, op.key);
    if found.Some? {
      FindIsUnique(d.tables, found.value, found.value);
    }
    OwnReasonsFit(op.io.write);
    hide Shaped, FindIn, Sound, RevokeCall, Guarded, ReasonFault;
    if found.Some? && d.tables.sessions[found.value].userId == op.userId
       && !d.tables.sessions[found.value].IsRevoked() {
      shape := CloseShape(d, e, found.value, TERMINATED, op.now, op.io.write, SESSION_REVOKED, op.userId, op.Tells());
    } else {
      shape := Idle;
      IdleShape(d);
    }
  }

  lemma AdminRevokeShape(s: State, op: Op, sha: string -> string) returns (shape: Shape)
    requires Sound(s.desk.tables) && op.AdminRevoke?
    ensures Shaped(s.desk, DeskStep(s, op, sha).0, shape) && Sound(DeskStep(s, op, sha).0.tables)
    ensures shape == NamedEffect(s, op)
  {
    var d, e := s.desk, DeskStep(s, op, sha).0;
    var found := Find(d.tables, op.key);
    if found.Some? {
      FindIsUnique(d.tables, found.value, found.value);
    }
    hide Shaped, FindIn, Sound, RevokeCall, Guarded, ReasonFault;
    if found.Some? && op.permitted {
      shape := CloseShape(d, e, found.value, AdminReason(op.reason), op.now, op.io.write,
                          SESSION_REVOKED_BY_ADMIN, d.tables.sessions[found.value].userId, op.Tells());
    } else {
      shape := Idle;
      IdleShape(d);
    }
  }

  /** Every use case does exactly one of the five things. */
  lemma StepShape(s: State, op: Op, sha: string -> string) returns (shape: Shape)
    requires Inv(s) && Enabled(s, op, sha)
    ensures Shaped(s.desk, DeskStep(s, op, sha).0, shape) && Sound(DeskStep(s, op, sha).0.tables)
    ensures shape == Effect(s, op, sha)
    ensures shape.Open? ==> op.Draws() && shape.id == op.x.id && shape.row.jti == op.x.jti
                            && shape.row.hash == sha(op.x.refresh)
    ensures shape.Turn? ==> op.RefreshWith? && shape.jti == op.x.jti && shape.hash == sha(op.x.refresh)
  {
    hide Inv, Shaped, Sound, DeskStep, RefreshEffect, NamedEffect;
    match op {
      case SignIn(_, _, _, _, _) => shape := SignInShape(s, op, sha);
      case GoogleSignIn(_, _, _) => shape := SignInShape(s, op, sha);
      case RefreshWith(_, _, _) => shape := RefreshShape(s, op, sha); RefreshTurns(s, op, sha);
      case LogoutEverywhere(_, _, _) => shape := BulkShape(s, op, sha);
      case AdminRevokeAll(_, _, _, _, _) => shape := BulkShape(s, op, sha);
      case CleanUp(_) => shape := QuietShape(s, op, sha);
      case SetUser(_, _) => shape := QuietShape(s, op, sha);
      case _ => shape := NamedShape(s, op, sha); NamedCloses(s, op);
    }
  }

  // ----- The invariant of every run -----

  lemma KnownStep(s: State, op: Op, sha: string -> string, shape: Shape)
    requires Inv(s) && Shaped(s.desk, DeskStep(s, op, sha).0, shape)
    requires shape.Open? ==> op.Draws() && shape.id == op.x.id && shape.row.jti == op.x.jti
                             && shape.row.hash == sha(op.x.refresh)
    requires shape.Turn? ==> op.RefreshWith? && shape.jti == op.x.jti && shape.hash == sha(op.x.refresh)
    ensures Known(Step(s, op, sha))
  {
    hide DeskStep, Sound, Appends, AppendsOther;
    assert s.uuids <= Step(s, op, sha).uuids && s.hashes <= Step(s, op, sha).hashes;
  }

  lemma InvStep(s: State, op: Op, sha: string -> string)
    requires Inv(s) && Enabled(s, op, sha)
    ensures Inv(Step(s, op, sha))
  {
    var shape := StepShape(s, op, sha);
    KnownStep(s, op, sha, shape);
    hide DeskStep, Sound, Known;
  }

  ghost predicate Legal(s: State, ops: seq<Op>, sha: string -> string)
    decreases |ops|
  {
    ops == [] || (Enabled(s, ops[0], sha) && Legal(Step(s, ops[0], sha), ops[1..], sha))
  }

  ghost function Run(s: State, ops: seq<Op>, sha: string -> string): State
    decreases |ops|
  {
    if ops == [] then s else Run(Step(s, ops[0], sha), ops[1..], sha)
  }

  lemma {:induction false} InvRun(s: State, ops: seq<Op>, sha: string -> string)
    requires Inv(s) && Legal(s, ops, sha)
    ensures Inv(Run(s, ops, sha))
    decreases |ops|
  {
    hide Inv, Enabled, Step;
    if ops != [] {
      InvStep(s, ops[0], sha);
      InvRun(Step(s, ops[0], sha), ops[1..], sha);
    }
  }

  /** Over every run all current and previous hashes stay pairwise different, and so do the jtis. */
  lemma HashesStayDistinct(ops: seq<Op>, sha: string -> string)
    requires Legal(START, ops, sha)
    ensures DistinctHashes(Run(START, ops, sha).desk.tables) && DistinctJtis(Run(START, ops, sha).desk.tables)
  {
    InvRun(START, ops, sha);
  }

  // ----- The first requests of a run -----

  lemma RunOne(s: State, op: Op, rest: seq<Op>, sha: string -> string)
    requires Enabled(s, op, sha) && Legal(Step(s, op, sha), rest, sha)
    ensures Legal(s, [op] + rest, sha) && Run(s, [op] + rest, sha) == Run(Step(s, op, sha), rest, sha)
  {
    assert ([op] + rest)[1..] == rest;
  }

  /** A request whose columns fit and whose writes go through. */
  const SMOOTH := Io(Client("", "", ""), NoFault, NoFault)

  function FirstSignIn(userId: string, x: Drawn): Op { SignIn(userId, Some(true), 0, x, SMOOTH) }

  /** A user's first session. */
  lemma SignedIn(userId: string, x: Drawn, sha: string -> string)
    requires x.id != "" && x.id != x.jti
    ensures var s1 := Step(START, SetUser(userId, true), sha);
            var s := Step(s1, FirstSignIn(userId, x), sha);
            && Enabled(START, SetUser(userId, true), sha) && Enabled(s1, FirstSignIn(userId, x), sha) && Inv(s)
            && s.desk.tables.sessions == map[x.id := NewRow(FirstSignIn(userId, x), sha)]
            && s.desk.audit == [AuditEntry(LOGIN_SUCCESS, userId, x.id)]
            && s.users == map[userId := true] && s.uuids == {x.id, x.jti} && s.hashes == {sha(x.refresh)}
  {
    var s1 := Step(START, SetUser(userId, true), sha);
    assert s1 == State(Desk(EMPTY, []), map[userId := true], {}, {});
    assert Inv(s1);
    InvStep(s1, FirstSignIn(userId, x), sha);
    hide Inv, Step;
    FirstStep(s1, userId, x, sha);
  }

  lemma FirstStep(s: State, userId: string, x: Drawn, sha: string -> string)
    requires s == State(Desk(EMPTY, []), map[userId := true], {}, {}) && x.id != ""
    ensures var row := NewRow(FirstSignIn(userId, x), sha);
            Step(s, FirstSignIn(userId, x), sha)
            == State(Desk(Insert(EMPTY, x.id, row), [AuditEntry(LOGIN_SUCCESS, userId, x.id)]),
                     map[userId := true], {x.id, x.jti}, {sha(x.refresh)})
  {
    assert {} + {x.id, x.jti} == {x.id, x.jti};
  }
}
