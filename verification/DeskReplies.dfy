/**
 What each use case answers, writes to the audit log and leaves in the tables, for every state of a
 run and every failure of its writes.
 */
module DeskReplies {
  import opened Wrappers
  import opened SessionTables
  import opened SessionRepository
  import opened Transactions
  import opened UseCases
  import opened DeskRuns

  /** The log with these entries, if the request's audit inserts are stored. */
  predicate Wrote(d: Desk, e: Desk, io: Io, entries: seq<AuditEntry>) {
    e.audit == if io.Records() then d.audit + entries else d.audit
  }

  /** The columns that the audit insert and the sign-in insert must fit. */
  lemma Fitting(io: Io)
    ensures io.Records() <==>
            && (forall i :: 100 <= i < |io.client.ip| ==> io.client.ip[i] == ' ')
            && io.audit in {NoFault, LateFault(true)}
    ensures io.InsertFault() == EarlyFault <==>
            || io.write == EarlyFault
            || (exists i :: 100 <= i < |io.client.ip| && io.client.ip[i] != ' ')
            || (exists i :: 150 <= i < |io.client.device| && io.client.device[i] != ' ')
            || (exists i :: 50 <= i < |io.client.kind| && io.client.kind[i] != ' ')
    ensures io.Stores() <==> io.InsertFault() != EarlyFault && io.write in {NoFault, LateFault(true)}
  {
  }

  // ----- Sign-ins -----

  /** A known, active user, and for a password sign-in a password that matched. */
  predicate Welcome(s: State, op: Op)
    requires op.SignIn? || op.GoogleSignIn?
  {
    op.userId in s.users && s.users[op.userId] == true && (op.SignIn? ==> op.check == Some(true))
  }

  /** What the log is to say of a sign-in. */
  function SignInEntries(s: State, op: Op): seq<AuditEntry>
    requires op.SignIn? || op.GoogleSignIn?
  {
    if Welcome(s, op) then
      if op.io.InsertFault() == EarlyFault then []
      else [AuditEntry(if op.SignIn? then LOGIN_SUCCESS else AUTH_GOOGLE_SUCCESS, op.userId, op.x.id)]
    else if op.SignIn? && op.userId !in s.users then [AuditEntry(LOGIN_FAILURE, "", "")]
    else if op.SignIn? && s.users[op.userId] && op.check == Some(false) then
      (if op.failures >= 4 then [AuditEntry(ACCOUNT_LOCKED, op.userId, "")] else [])
      + [AuditEntry(LOGIN_FAILURE, op.userId, "")]
    else []
  }

  /** The refusals: unknown user or wrong password, disabled account, no password, failed insert. */
  function SignInStatus(s: State, op: Op): int
    requires op.SignIn? || op.GoogleSignIn?
  {
    if Welcome(s, op) then 500
    else if op.GoogleSignIn? then 403
    else if op.userId !in s.users then 401
    else if !s.users[op.userId] then 403
    else if op.check == None then 400
    else 401
  }

  /** Seven days from now, or thirty with Google. */
  function StoredRow(op: Op, sha: string -> string): Session
    requires op.SignIn? || op.GoogleSignIn?
  {
    Session(op.userId, op.x.jti, sha(op.x.refresh), None, op.x.now, op.x.now,
            op.x.now + (if op.SignIn? then 604800 else 2592000), None, None)
  }

  predicate SignInAnswered(s: State, op: Op, sha: string -> string, e: Desk, reply: Reply)
    requires op.SignIn? || op.GoogleSignIn?
  {
    && (reply.Tokens? <==> Welcome(s, op) && op.io.InsertFault() != EarlyFault)
    && (reply.Tokens? ==> reply == Tokens(op.x.id, op.x.jti, op.x.refresh, 900))
    && (!reply.Tokens? ==> reply == Rejected(SignInStatus(s, op)))
    && Wrote(s.desk, e, op.io, SignInEntries(s, op))
    && e.tables.revocations == s.desk.tables.revocations
    && e.tables.sessions == (if reply.Tokens? && op.io.Stores()
                             then s.desk.tables.sessions[op.x.id := StoredRow(op, sha)]
                             else s.desk.tables.sessions)
  }

  /**
   A sign-in answers with tokens exactly for a known, active user whose password matched, if its insert
   has no early fault; then with what was drawn, for 900 seconds. The log gets the entries of its cause,
   and the tables its session exactly if the insert is applied.
   */
  lemma SignInAnswers(s: State, op: Op, sha: string -> string)
    requires Inv(s) && Enabled(s, op, sha) && (op.SignIn? || op.GoogleSignIn?)
    ensures SignInAnswered(s, op, sha, DeskStep(s, op, sha).0, DeskStep(s, op, sha).1)
  {
    hide Sound, StartSession, Guarded, DeskStep;
    if Welcome(s, op) {
      SessionStarts(s, op, sha);
    } else if op.SignIn? {
      PasswordRefused(s, op, sha);
    } else {
      GoogleRefused(s, op, sha);
    }
  }

  lemma WelcomeStep(s: State, op: Op, sha: string -> string)
    requires (op.SignIn? || op.GoogleSignIn?) && Welcome(s, op)
    ensures var event := if op.SignIn? then LOGIN_SUCCESS else AUTH_GOOGLE_SUCCESS;
            DeskStep(s, op, sha)
            == StartSession(s.desk, event, op.userId, StoredRow(op, sha).expiresAt - op.x.now, sha, op.x, op.io)
  {
    hide StartSession;
  }

  lemma DrawnIsFresh(s: State, op: Op, sha: string -> string)
    requires Inv(s) && Enabled(s, op, sha) && op.Draws()
    ensures Sound(s.desk.tables) && Fresh(s.desk.tables, sha, op.x)
  {
    hide Sound;
  }

  lemma SessionStarts(s: State, op: Op, sha: string -> string)
    requires Inv(s) && Enabled(s, op, sha) && (op.SignIn? || op.GoogleSignIn?) && Welcome(s, op)
    ensures SignInAnswered(s, op, sha, DeskStep(s, op, sha).0, DeskStep(s, op, sha).1)
  {
    hide Inv, Sound, Fresh, StartSession, DeskStep, Enabled, Guarded, Welcome;
    DrawnIsFresh(s, op, sha);
    WelcomeStep(s, op, sha);
    var event := if op.SignIn? then LOGIN_SUCCESS else AUTH_GOOGLE_SUCCESS;
    StartKeepsSound(s.desk, event, op.userId, StoredRow(op, sha).expiresAt - op.x.now, sha, op.x, op.io);
  }

  lemma PasswordRefused(s: State, op: Op, sha: string -> string)
    requires op.SignIn? && !Welcome(s, op)
    ensures SignInAnswered(s, op, sha, DeskStep(s, op, sha).0, DeskStep(s, op, sha).1)
  {
    hide StartSession, Guarded;
    assert [AuditEntry(ACCOUNT_LOCKED, op.userId, "")] + [AuditEntry(LOGIN_FAILURE, op.userId, "")]
        == [AuditEntry(ACCOUNT_LOCKED, op.userId, ""), AuditEntry(LOGIN_FAILURE, op.userId, "")];
  }

  lemma GoogleRefused(s: State, op: Op, sha: string -> string)
    requires op.GoogleSignIn? && !Welcome(s, op)
    ensures SignInAnswered(s, op, sha, DeskStep(s, op, sha).0, DeskStep(s, op, sha).1)
  {
    hide StartSession, Guarded;
  }

  // ----- Refreshes -----

  /**
   A refresh by what its lookup answers: refused, the alarm and all of the user's sessions revoked, or one
   rotation of 7 days. Only a rotation that is reported answers with tokens and leaves its entry.
   */
  lemma RefreshAnswers(s: State, op: Op, sha: string -> string)
    requires Inv(s) && Enabled(s, op, sha) && op.RefreshWith?
    ensures var (e, reply) := DeskStep(s, op, sha);
            var d := s.desk;
            if forall i :: 0 <= i < |op.raw| ==> op.raw[i] in " \t\n\r" then e == d && reply == Rejected(400)
            else
              match Lookup(d.tables.sessions, sha(op.raw), op.x.now)
              case None => e == d && reply == Rejected(401)
              case Some(found) =>
                var userId := found.session.userId;
                if found.session.revokedAt != None then
                  && reply == Rejected(401)
                  && Wrote(d, e, op.io, [AuditEntry(REFRESH_REUSE_DETECTED, userId, found.id)])
                  && e.tables == RevokeAllCall(d.tables, userId, "Security: Refresh token reuse detected", op.x.now,
                                               op.io.write).0
                else if op.x.now >= found.session.expiresAt || userId !in s.users || !s.users[userId] then
                  e == d && reply == Rejected(401)
                else Rotated(d, e, op, found.id, sha, reply)
  {
    var found := Lookup(s.desk.tables.sessions, sha(op.raw), op.x.now);
    assert AllWhitespace(op.raw) <==> forall i :: 0 <= i < |op.raw| ==> op.raw[i] in " \t\n\r";
    CurrentFound(s.desk.tables, sha(op.raw), op.x.now);
    if found.Some? && !found.value.session.IsRevoked() {
      RotationAnswers(s, found.value.id, found.value.session.userId, op, sha);
    }
    hide Lookup, AllWhitespace, RevokeAllCall, RotateFor, Inv, Enabled, Guarded;
  }

  /** The one row that a rotation touches, its reply and its entry. */
  predicate Rotated(d: Desk, e: Desk, op: Op, id: string, sha: string -> string, reply: Reply)
    requires op.RefreshWith?
  {
    && id in d.tables.sessions && e.tables.revocations == d.tables.revocations
    && e.tables.sessions == (if op.io.write in {NoFault, LateFault(true)}
                             then d.tables.sessions[id := RotatedRow(d.tables.sessions[id], op, sha)]
                             else d.tables.sessions)
    && (if op.io.write == NoFault
        then && reply == Tokens(id, op.x.jti, op.x.refresh, 900)
             && Wrote(d, e, op.io, [AuditEntry(REFRESH_SUCCESS, d.tables.sessions[id].userId, id)])
        else reply == Rejected(409) && e.audit == d.audit)
  }

  /** The presented hash becomes the previous one, and the session gets 7 days from now. */
  function RotatedRow(row: Session, op: Op, sha: string -> string): Session
    requires op.RefreshWith?
  {
    Session(row.userId, op.x.jti, sha(op.x.refresh), Some(row.hash), row.createdAt, op.x.now, op.x.now + 604800,
            row.revokedAt, row.reason)
  }

  lemma RotationAnswers(s: State, id: string, userId: string, op: Op, sha: string -> string)
    requires Inv(s) && Enabled(s, op, sha) && op.RefreshWith?
    requires id in s.desk.tables.sessions && !s.desk.tables.sessions[id].IsRevoked()
    requires s.desk.tables.sessions[id].userId == userId
    ensures var (e, reply) := RotateFor(s.desk, id, userId, sha, op.x, op.io);
            Rotated(s.desk, e, op, id, sha, reply)
  {
    hide Inv, Enabled, Sound, Fresh, Find, FindIn, JtiTakenByOther, Guarded, UpdateCall, Rotate;
    DrawnIsFresh(s, op, sha);
    FreshRotation(s.desk.tables, id, sha, op.x);
    Updated(s.desk.tables, id, sha(op.x.refresh), op.x.jti, op.x.now + LOGIN_LIFETIME, op.x.now, op.io.write);
    RotatesRow(s.desk.tables, id, op, sha);
  }

  lemma RotatesRow(t: Tables, id: string, op: Op, sha: string -> string)
    requires id in t.sessions && op.RefreshWith?
    ensures Rotate(t, id, sha(op.x.refresh), op.x.jti, op.x.now + LOGIN_LIFETIME, op.x.now)
         == Tables(t.sessions[id := RotatedRow(t.sessions[id], op, sha)], t.revocations)
  {
  }

  // ----- Revocations of one session -----

  ghost predicate Names(t: Tables, key: string, id: string) {
    id in t.sessions && (id == key || t.sessions[id].jti == key)
  }

  /** The tables after an attempt to revoke this live session. */
  predicate Revoked(d: Desk, e: Desk, id: string, reason: string, now: int, takes: bool)
    requires id in d.tables.sessions
  {
    var row := d.tables.sessions[id];
    if takes && row.revokedAt == None then
      && e.tables.sessions.Keys == d.tables.sessions.Keys
      && MarkedAt(row, e.tables.sessions[id], reason, now)
      && (forall other :: other in d.tables.sessions && other != id ==>
            e.tables.sessions[other] == d.tables.sessions[other])
      && e.tables.revocations == d.tables.revocations[row.jti := Revocation(id, row.expiresAt, now)]
    else e.tables == d.tables
  }

  /** A reason that does not fit its column makes the revocation fail, whatever else happens. */
  lemma ReasonFits(reason: string, write: Fault)
    ensures Applied(ReasonFault(reason, write)) <==>
            (forall i :: 255 <= i < |reason| ==> reason[i] == ' ') && write in {NoFault, LateFault(true)}
    ensures ReasonFault(reason, write).NoFault? <==>
            (forall i :: 255 <= i < |reason| ==> reason[i] == ' ') && write == NoFault
  {
  }

  lemma CallAnswers(d: Desk, e: Desk, key: string, id: string, reason: string, now: int, write: Fault)
    requires Sound(d.tables) && Names(d.tables, key, id) && e.tables == RevokeCall(d.tables, key, reason, now, write).0
    ensures Revoked(d, e, id, reason, now, Applied(ReasonFault(reason, write)))
    ensures RevokeCall(d.tables, key, reason, now, write).1 <==>
            d.tables.sessions[id].revokedAt == None && ReasonFault(reason, write) == NoFault
  {
    OneRevocationIsExact(d.tables, key, reason, now);
    hide Sound, ReasonFault, RevokeSession;
  }

  lemma NoSession(t: Tables, key: string, reason: string, now: int, write: Fault)
    requires forall id :: !Names(t, key, id)
    ensures RevokeCall(t, key, reason, now, write) == (t, false) && Find(t, key) == None
  {
    assert Find(t, key).Some? ==> Names(t, key, Find(t, key).value);
    hide FindIn;
  }

  /** A logout is done exactly when it revokes a live session and says so; otherwise there is nothing to find. */
  lemma LogoutAnswers(s: State, op: Op, sha: string -> string, id: string)
    requires Inv(s) && op.LogoutOf?
    ensures var (e, reply) := DeskStep(s, op, sha);
            && (Names(s.desk.tables, op.key, id) ==>
                  && Revoked(s.desk, e, id, "User logout", op.now, op.io.write in {NoFault, LateFault(true)})
                  && if s.desk.tables.sessions[id].revokedAt == None && op.io.write == NoFault
                     then reply == Done && Wrote(s.desk, e, op.io, [AuditEntry(LOGOUT, op.userId, op.key)])
                     else reply == Rejected(404) && e.audit == s.desk.audit)
            && ((forall other :: !Names(s.desk.tables, op.key, other)) ==> e == s.desk && reply == Rejected(404))
  {
    var d, e := s.desk, DeskStep(s, op, sha).0;
    OwnReasonsFit(op.io.write);
    hide Sound, ReasonFault, RevokeCall, Find, Known, Revoked;
    if Names(d.tables, op.key, id) {
      CallAnswers(d, e, op.key, id, LOGGED_OUT, op.now, op.io.write);
    }
    if forall other :: !Names(d.tables, op.key, other) {
      NoSession(d.tables, op.key, LOGGED_OUT, op.now, op.io.write);
    }
  }

  /** A user ends an own session; whether the revocation took effect is not asked. */
  lemma RevokeOwnAnswers(s: State, op: Op, sha: string -> string, id: string)
    requires Inv(s) && op.RevokeOwn?
    ensures var (e, reply) := DeskStep(s, op, sha);
            && (Names(s.desk.tables, op.key, id) ==>
                  var row := s.desk.tables.sessions[id];
                  if row.userId != op.userId then e == s.desk && reply == Rejected(403)
                  else if row.revokedAt != None then e == s.desk && reply == AlreadyRevoked
                  else
                    && reply == Done && Wrote(s.desk, e, op.io, [AuditEntry(SESSION_REVOKED, op.userId, id)])
                    && Revoked(s.desk, e, id, "User terminated session", op.now,
                               op.io.write in {NoFault, LateFault(true)}))
            && ((forall other :: !Names(s.desk.tables, op.key, other)) ==> e == s.desk && reply == Rejected(404))
  {
    var d, e := s.desk, DeskStep(s, op, sha).0;
    OwnReasonsFit(op.io.write);
    if Names(d.tables, op.key, id) {
      FindIsUnique(d.tables, op.key, id);
    }
    hide Sound, ReasonFault, RevokeCall, FindIn, Known, Revoked;
    if Names(d.tables, op.key, id) {
      if d.tables.sessions[id].userId == op.userId && d.tables.sessions[id].revokedAt == None {
        CallAnswers(d, e, id, id, TERMINATED, op.now, op.io.write);
      }
    }
    if forall other :: !Names(d.tables, op.key, other) {
      NoSession(d.tables, op.key, TERMINATED, op.now, op.io.write);
    }
  }

  /** An administrator's revocation is answered and recorded as done for whatever session it finds. */
  lemma AdminRevokeAnswers(s: State, op: Op, sha: string -> string, id: string)
    requires Inv(s) && op.AdminRevoke?
    ensures var (e, reply) := DeskStep(s, op, sha);
            var reason := if op.reason == "" then "Revoked by administrator" else op.reason;
            && (!op.permitted ==> e == s.desk && reply == Rejected(403))
            && (op.permitted && Names(s.desk.tables, op.key, id) ==>
                  && reply == Done
                  && Wrote(s.desk, e, op.io,
                           [AuditEntry(SESSION_REVOKED_BY_ADMIN, s.desk.tables.sessions[id].userId, id)])
                  && Revoked(s.desk, e, id, reason, op.now, Applied(ReasonFault(reason, op.io.write))))
            && (op.permitted && (forall other :: !Names(s.desk.tables, op.key, other)) ==>
                  e == s.desk && reply == Rejected(404))
  {
    var d, e := s.desk, DeskStep(s, op, sha).0;
    if Names(d.tables, op.key, id) {
      FindIsUnique(d.tables, op.key, id);
    }
    hide Sound, ReasonFault, RevokeCall, FindIn, Known, Revoked;
    if op.permitted && Names(d.tables, op.key, id) {
      CallAnswers(d, e, id, id, AdminReason(op.reason), op.now, op.io.write);
    }
    if forall other :: !Names(d.tables, op.key, other) {
      NoSession(d.tables, op.key, AdminReason(op.reason), op.now, op.io.write);
    }
  }

  // ----- The others -----

  /** The entry of a bulk revocation, its reason and the refusal of an administrator who may not. */
  lemma BulkAnswers(s: State, op: Op, sha: string -> string)
    requires op.LogoutEverywhere? || op.AdminRevokeAll?
    ensures var (e, reply) := DeskStep(s, op, sha);
            if op.AdminRevokeAll? && !op.permitted then e == s.desk && reply == Rejected(403)
            else
              var reason := if op.LogoutEverywhere? then "User initiated logout-all"
                            else if op.reason == "" then "All sessions revoked by administrator" else op.reason;
              var (tables, count) := RevokeAllCall(s.desk.tables, op.userId, reason, op.now, op.io.write);
              && e.tables == tables && reply == Ended(count)
              && Wrote(s.desk, e, op.io, [AuditEntry(ALL_SESSIONS_REVOKED, op.userId, "")])
  {
    hide RevokeAllCall, Guarded;
  }

  /** A clean-up touches the fast table only, and what an administrator sets of a user only that user. */
  lemma QuietAnswers(s: State, op: Op, sha: string -> string)
    requires op.CleanUp? || op.SetUser?
    ensures var (e, reply) := DeskStep(s, op, sha);
            && reply == Done && e.audit == s.desk.audit && e.tables.sessions == s.desk.tables.sessions
            && (op.SetUser? ==> e == s.desk)
            && (op.CleanUp? ==> e.tables == Cleanup(s.desk.tables, op.now))
  {
  }

  lemma UsersAfter(s: State, op: Op, sha: string -> string)
    ensures Step(s, op, sha).users == if op.SetUser? then s.users[op.userId := op.active] else s.users
  {
    hide DeskStep;
  }

  // ----- Deactivated users -----

  predicate Inactive(s: State, userId: string) { userId in s.users && s.users[userId] == false }

  /** The tokens of a reply are for somebody else's session. */
  ghost predicate ForOthers(s: State, op: Op, sha: string -> string, userId: string) {
    var reply := DeskStep(s, op, sha).1;
    reply.Tokens? ==>
      if op.RefreshWith? then
        reply.sid in s.desk.tables.sessions && s.desk.tables.sessions[reply.sid].userId != userId
      else (op.SignIn? || op.GoogleSignIn?) && op.userId != userId
  }

  ghost predicate AlwaysForOthers(s: State, ops: seq<Op>, sha: string -> string, userId: string)
    decreases |ops|
  {
    ops != [] ==> ForOthers(s, ops[0], sha, userId) && AlwaysForOthers(Step(s, ops[0], sha), ops[1..], sha, userId)
  }

  lemma ForOthersStep(s: State, op: Op, sha: string -> string, userId: string)
    requires Inv(s) && Enabled(s, op, sha) && Inactive(s, userId)
    ensures ForOthers(s, op, sha, userId)
  {
    hide Inv, Enabled, DeskStep, Wrote, RevokeAllCall, RotatedRow, Lookup;
    match op {
      case SignIn(_, _, _, _, _) => SignInAnswers(s, op, sha);
      case GoogleSignIn(_, _, _) => SignInAnswers(s, op, sha);
      case RefreshWith(_, _, _) =>
        RefreshAnswers(s, op, sha);
        LookupKeepsUser(s.desk.tables.sessions, sha(op.raw), op.x.now);
      case _ => NoTokens(s, op, sha);
    }
  }

  lemma LookupKeepsUser(sessions: map<string, Session>, hash: string, now: int)
    ensures var found := Lookup(sessions, hash, now);
            found.Some? ==>
              found.value.id in sessions && sessions[found.value.id].userId == found.value.session.userId
  {
  }

  lemma NoTokens(s: State, op: Op, sha: string -> string)
    requires !op.Draws()
    ensures !DeskStep(s, op, sha).1.Tokens?
  {
    hide RevokeCall, RevokeAllCall, Find, FindIn;
  }

  /** Over every run: a deactivated user gets no tokens until somebody activates the account again. */
  lemma {:induction false} InactiveGetsNoTokens(s: State, ops: seq<Op>, sha: string -> string, userId: string)
    requires Inv(s) && Legal(s, ops, sha) && Inactive(s, userId)
    requires forall k :: 0 <= k < |ops| ==> ops[k] != SetUser(userId, true)
    ensures AlwaysForOthers(s, ops, sha, userId)
    decreases |ops|
  {
    hide Inv, Enabled, Step, ForOthers;
    if ops != [] {
      ForOthersStep(s, ops[0], sha, userId);
      UsersAfter(s, ops[0], sha);
      InvStep(s, ops[0], sha);
      assert forall k :: 0 <= k < |ops[1..]| ==> ops[1..][k] == ops[k + 1];
      InactiveGetsNoTokens(Step(s, ops[0], sha), ops[1..], sha, userId);
    }
  }
}
