/** PostgresSessionRepository.cpp: every method runs one transaction inside a catch-all. */
module SessionRepository {
  import opened Wrappers
  import opened SessionTables
  import opened Transactions

  /** The id is read before the commit, so a late fault still answers with it. */
  function CreateCall(t: Tables, s: Session, newId: string, fault: Fault): (Tables, string) {
    if fault.EarlyFault? || JtiTaken(t, s.jti) then (t, "")
    else (Settle(t, Insert(t, newId, s), fault), newId)
  }

  /** A session is created exactly when its insert is applied and no session has its jti; its id is answered before. */
  lemma CreateIsExact(t: Tables, s: Session, newId: string, fault: Fault)
    requires newId != ""
    ensures var (next, id) := CreateCall(t, s, newId, fault);
            && (id == "" <==>
                fault == EarlyFault || exists other :: other in t.sessions && t.sessions[other].jti == s.jti)
            && (id != "" ==> id == newId)
            && next.revocations == t.revocations
            && next.sessions == if id != "" && fault in {NoFault, LateFault(true)} then t.sessions[newId := s]
                                else t.sessions
  {
  }

  ghost function UpdateCall(
    t: Tables, key: string, newHash: string, newJti: string, expiresAt: int, now: int, fault: Fault
  ): (Tables, bool)
  {
    var (next, ok) := UpdateRefreshToken(t, key, newHash, newJti, expiresAt, now);
    (Settle(t, next, fault), ok && fault.NoFault?)
  }

  /** The reason is text of the request and may be longer than its column. */
  function ReasonFault(reason: string, fault: Fault): Fault { Guarded(FitsColumn(reason, REASON_WIDTH), fault) }

  ghost function RevokeCall(t: Tables, key: string, reason: string, now: int, fault: Fault): (Tables, bool) {
    var (next, ok) := RevokeSession(t, key, reason, now);
    (Settle(t, next, ReasonFault(reason, fault)), ok && ReasonFault(reason, fault).NoFault?)
  }

  /** The count is taken before the commit, so a late fault reports it whether or not it was applied. */
  ghost function RevokeAllCall(t: Tables, userId: string, reason: string, now: int, fault: Fault): (Tables, nat) {
    var (next, count) := RevokeAll(t, userId, reason, now);
    (Settle(t, next, ReasonFault(reason, fault)), if ReasonFault(reason, fault).EarlyFault? then 0 else count)
  }

  /** The reported count is wrong exactly when the commit was lost with live sessions at hand. */
  lemma CountIsTrueUnlessCommitLost(t: Tables, userId: string, reason: string, now: int, fault: Fault)
    requires WellFormed(t)
    ensures var (next, count) := RevokeAllCall(t, userId, reason, now, fault);
            count == |set id | id in t.sessions && !t.sessions[id].IsRevoked() && next.sessions[id].IsRevoked()|
            <==> !(FitsColumn(reason, REASON_WIDTH) && fault == LateFault(false) && LiveOf(t, userId) != {})
  {
    var (next, count) := RevokeAllCall(t, userId, reason, now, fault);
    BulkRevocationIsExact(t, userId, reason, now);
    if next == t {
      assert (set id | id in t.sessions && !t.sessions[id].IsRevoked() && next.sessions[id].IsRevoked()) == {};
    }
    if LiveOf(t, userId) == {} {
      assert forall id :: id in t.sessions && t.sessions[id].userId == userId && !t.sessions[id].IsRevoked() ==>
          id in LiveOf(t, userId);
    }
  }

  /** A session as a lookup returns it. */
  datatype Found = Found(id: string, session: Session)

  class PostgresSessionRepository {
    var sessions: map<string, Session>
    var revocations: map<string, Revocation>

    function State(): Tables
      reads this
    {
      Tables(sessions, revocations)
    }

    ghost predicate Valid()
      reads this
    {
      WellFormed(State())
    }

    constructor ()
      ensures Valid() && State() == EMPTY
    {
      sessions, revocations := map[], map[];
    }

    method CreateSession(session: Session, client: Client, newId: string, fault: Fault) returns (id: string)
      requires Valid()
      requires newId !in sessions && !JtiTaken(State(), newId) && session.jti != newId && session.jti !in sessions
      modifies this
      ensures Valid()
      ensures (State(), id) == CreateCall(old(State()), session, newId, Guarded(client.Fits(), fault))
    {
      id := "";
      if fault.EarlyFault? || !client.Fits() { return; }
      if other :| other in sessions && sessions[other].jti == session.jti { return; }
      InsertKeeps(State(), newId, session);
      id := newId;
      if fault.NoFault? || fault.applied {
        sessions := sessions[newId := session];
      }
    }

    method FindById(sessionId: string, fails: bool) returns (found: Option<Found>)
      requires Valid()
      ensures fails ==> found.None?
      ensures !fails ==>
                found == match Find(State(), sessionId)
                         case None => None
                         case Some(id) => Some(Found(id, sessions[id]))
    {
      if fails { return None; }
      if id :| id in sessions && (id == sessionId || sessions[id].jti == sessionId) {
        FindIsUnique(State(), sessionId, id);
        return Some(Found(id, sessions[id]));
      }
      found := None;
    }

    /** A current hash is answered as stored; a previous one as a session revoked for reuse. */
    method FindByRefreshTokenHash(hash: string, now: int, fails: bool) returns (found: Option<Found>)
      ensures found.Some? ==>
                var (id, s) := (found.value.id, found.value.session);
                && !fails && id in sessions
                && (if exists other :: other in sessions && sessions[other].hash == hash
                    then s == sessions[id] && s.hash == hash
                    else sessions[id].previousHash == Some(hash)
                         && s == Mark(sessions[id], "TOKEN_REUSE_DETECTED", now))
      ensures found.None? && !fails ==>
                forall id :: id in sessions ==> sessions[id].hash != hash && sessions[id].previousHash != Some(hash)
    {
      if fails { return None; }
      if id :| id in sessions && sessions[id].hash == hash {
        return Some(Found(id, sessions[id]));
      }
      if id :| id in sessions && sessions[id].previousHash == Some(hash) {
        return Some(Found(id, Mark(sessions[id], "TOKEN_REUSE_DETECTED", now)));
      }
      found := None;
    }

    method UpdateRefreshToken(key: string, newHash: string, newJti: string, expiresAt: int, now: int, fault: Fault)
      returns (updated: bool)
      requires Valid() && newJti !in sessions
      modifies this
      ensures Valid()
      ensures (State(), updated) == UpdateCall(old(State()), key, newHash, newJti, expiresAt, now, fault)
    {
      updated := false;
      if fault.EarlyFault? { return; }
      if id :| id in sessions && (id == key || sessions[id].jti == key) {
        FindIsUnique(State(), key, id);
        if !sessions[id].IsRevoked() {
          if JtiTakenByOther(State(), id, newJti) { return; }
          RotateKeeps(State(), id, newHash, newJti, expiresAt, now);
          updated := fault.NoFault?;
          if fault.NoFault? || fault.applied {
            var s := sessions[id];
            sessions := sessions[id := s.(previousHash := Some(s.hash), hash := newHash, jti := newJti,
            expiresAt := expiresAt, lastSeenAt := now)];
          }
        }
      }
    }

    method RevokeSession(key: string, reason: string, now: int, fault: Fault) returns (revoked: bool)
      requires Valid()
      modifies this
      ensures Valid()
      ensures (State(), revoked) == RevokeCall(old(State()), key, reason, now, fault)
    {
      revoked := false;
      if fault.EarlyFault? || !FitsColumn(reason, REASON_WIDTH) { return; }
      if id :| id in sessions && (id == key || sessions[id].jti == key) {
        FindIsUnique(State(), key, id);
        if !sessions[id].IsRevoked() {
          RevokeKeeps(State(), {id}, reason, now);
          RevokeOne(State(), id, reason, now);
          revoked := fault.NoFault?;
          if fault.NoFault? || fault.applied {
            var s := sessions[id];
            sessions := sessions[id := Mark(s, reason, now)];
            if s.jti !in revocations {
              revocations := revocations[s.jti := Revocation(id, s.expiresAt, now)];
            }
          }
        }
      }
    }

    method RevokeAllUserSessions(userId: string, reason: string, now: int, fault: Fault) returns (count: nat)
      requires Valid()
      modifies this
      ensures Valid()
      ensures (State(), count) == RevokeAllCall(old(State()), userId, reason, now, fault)
    {
      hide WithListed;
      if fault.EarlyFault? || !FitsColumn(reason, REASON_WIDTH) { return 0; }
      var rows := set id | id in sessions && sessions[id].userId == userId && !sessions[id].IsRevoked();
      RevokeKeeps(State(), rows, reason, now);
      var marked := map id | id in sessions :: if id in rows then Mark(sessions[id], reason, now) else sessions[id];
      count := |rows|;
      var listed := ListRevocations(rows, now);
      if fault.NoFault? || fault.applied {
        sessions, revocations := marked, listed;
      }
    }

    /** The loop over the returned rows: one insertion each, in any order. */
    method ListRevocations(rows: set<string>, now: int) returns (listed: map<string, Revocation>)
      requires Valid() && rows <= sessions.Keys && forall id :: id in rows ==> !sessions[id].IsRevoked()
      ensures listed == WithListed(State(), rows, now)
    {
      hide WithListed, WellFormed;
      var rest := rows;
      listed := revocations;
      assert rows - rows == {};
      NothingListed(State(), now);
      while rest != {}
        invariant rest <= rows
        invariant listed == WithListed(State(), rows - rest, now)
        decreases rest
      {
        var id :| id in rest;
        var s := sessions[id];
        ListOneMore(State(), rows - rest, id, now);
        assert rows - (rest - {id}) == rows - rest + {id};
        if s.jti !in listed {
          listed := listed[s.jti := Revocation(id, s.expiresAt, now)];
        }
        rest := rest - {id};
      }
      assert rows - {} == rows;
    }

    method IsTokenRevoked(jti: string, fails: bool) returns (listed: bool)
      ensures listed == (!fails && SessionTables.IsTokenRevoked(State(), jti))
    {
      if fails { return false; }
      if jti in revocations { return true; }
      listed := exists id :: id in sessions && sessions[id].jti == jti && sessions[id].IsRevoked();
    }

    method CleanupExpiredRevocations(now: int, fault: Fault) returns (count: nat)
      requires Valid()
      modifies this`revocations
      ensures Valid()
      ensures State() == Settle(old(State()), Cleanup(old(State()), now), fault)
      ensures count == if fault.NoFault? then |set j | j in old(revocations) && j !in revocations| else 0
    {
      CleanupKeeps(State(), now);
      var gone := set j | j in revocations && revocations[j].expiresAt <= now;
      count := if fault.NoFault? then |gone| else 0;
      ghost var before := revocations;
      if fault.NoFault? || (fault.LateFault? && fault.applied) {
        revocations := map j | j in revocations && revocations[j].expiresAt > now :: revocations[j];
        assert gone == set j | j in before && j !in revocations;
      }
    }
  }
}
