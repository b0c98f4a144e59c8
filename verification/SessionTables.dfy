/**
 The `sessions` and `token_revocations` tables of migrations/002_auth_sessions_schema.sql and
 what each statement of PostgresSessionRepository.cpp does to them. A transaction is one atomic
 change; `clock_timestamp()` and the generated UUIDs are arguments.
 */
module SessionTables {
  import opened Wrappers

  /** One row of `sessions`, without the columns that only describe the client. */
  datatype Session = Session(
    userId: string, jti: string, hash: string, previousHash: Option<string>,
    createdAt: int, lastSeenAt: int, expiresAt: int, revokedAt: Option<int>, reason: Option<string>)
  {
    predicate IsRevoked() { revokedAt.Some? }
    predicate IsExpired(now: int) { now >= expiresAt }
    predicate IsActive(now: int) { !IsRevoked() && !IsExpired(now) }
  }

  /** A text longer than its column is stored only if what is too much are blanks, and without them. */
  predicate FitsColumn(text: string, width: nat) {
    forall i :: width <= i < |text| ==> text[i] == ' '
  }

  function Clipped(text: string, width: nat): string {
    if |text| > width then text[..width] else text
  }

  const ADDRESS_WIDTH := 100

  /** The columns of a session that only describe the client, and their widths. */
  datatype Client = Client(ip: string, device: string, kind: string)
  {
    predicate Fits() { FitsColumn(ip, ADDRESS_WIDTH) && FitsColumn(device, 150) && FitsColumn(kind, 50) }
  }

  const REASON_WIDTH := 255

  datatype Revocation = Revocation(sessionId: string, expiresAt: int, revokedAt: int)

  /** Rows by their primary keys: session id and jti. */
  datatype Tables = Tables(sessions: map<string, Session>, revocations: map<string, Revocation>)

  const EMPTY := Tables(map[], map[])

  /** A new row: nothing revoked or rotated yet. */
  function NewSession(userId: string, jti: string, hash: string, now: int, expiresAt: int): Session {
    Session(userId, jti, hash, None, now, now, expiresAt, None, None)
  }

  predicate JtiTaken(t: Tables, jti: string) {
    exists id :: id in t.sessions && t.sessions[id].jti == jti
  }

  predicate JtiTakenByOther(t: Tables, id: string, jti: string) {
    exists other :: other in t.sessions && other != id && t.sessions[other].jti == jti
  }

  ghost predicate DistinctJtis(t: Tables) {
    forall a, b :: a in t.sessions && b in t.sessions && t.sessions[a].jti == t.sessions[b].jti ==> a == b
  }

  /**
   The unique index on jti, generated ids and jtis that never meet, and the fast table as a
   shadow of the revoked sessions.
   */
  ghost predicate WellFormed(t: Tables) {
    && DistinctJtis(t)
    && (forall a, b :: a in t.sessions && b in t.sessions ==> t.sessions[a].jti != b)
    && (forall j :: j in t.revocations ==>
          var id := t.revocations[j].sessionId;
          id in t.sessions && t.sessions[id].jti == j && t.sessions[id].IsRevoked())
  }

  /** `WHERE id::text = $1 OR jti = $1` */
  ghost function Find(t: Tables, key: string): (found: Option<string>)
    ensures found.Some? ==> found.value in t.sessions && (found.value == key || t.sessions[found.value].jti == key)
    ensures found.None? ==> key !in t.sessions && !JtiTaken(t, key)
  {
    FindIn(t.sessions, key)
  }

  ghost function FindIn(sessions: map<string, Session>, key: string): (found: Option<string>)
    ensures found.Some? ==> found.value in sessions && (found.value == key || sessions[found.value].jti == key)
    ensures found.None? ==> key !in sessions && forall id :: id in sessions ==> sessions[id].jti != key
  {
    if key in sessions then Some(key)
    else if exists id :: id in sessions && sessions[id].jti == key then
      var id :| id in sessions && sessions[id].jti == key;
      Some(id)
    else None
  }

  /** In well-formed tables a key names at most one row. */
  lemma FindIsUnique(t: Tables, key: string, id: string)
    requires WellFormed(t) && id in t.sessions && (id == key || t.sessions[id].jti == key)
    ensures Find(t, key) == Some(id)
  {
  }

  // ----- Changes -----

  function Insert(t: Tables, id: string, s: Session): Tables {
    t.(sessions := t.sessions[id := s])
  }

  function Rotate(t: Tables, id: string, newHash: string, newJti: string, expiresAt: int, now: int): Tables
    requires id in t.sessions
  {
    var s := t.sessions[id];
    t.(sessions := t.sessions[id := s.(previousHash := Some(s.hash), hash := newHash, jti := newJti,
                                       expiresAt := expiresAt, lastSeenAt := now)])
  }

  function Mark(s: Session, reason: string, now: int): Session {
    s.(revokedAt := Some(now), reason := Some(Clipped(reason, REASON_WIDTH)))
  }

  /** Mark the sessions and list their jtis, `ON CONFLICT (jti) DO NOTHING`. */
  ghost function Revoke(t: Tables, ids: set<string>, reason: string, now: int): Tables
    requires ids <= t.sessions.Keys
  {
    Tables(map id | id in t.sessions :: if id in ids then Mark(t.sessions[id], reason, now) else t.sessions[id],
           WithListed(t, ids, now))
  }

  ghost function WithListed(t: Tables, ids: set<string>, now: int): map<string, Revocation>
    requires ids <= t.sessions.Keys
  {
    Entries(t, ids, now) + t.revocations
  }

  ghost function OwnerOf(t: Tables, jti: string): (id: string)
    requires JtiTaken(t, jti)
    ensures id in t.sessions && t.sessions[id].jti == jti
  {
    var id :| id in t.sessions && t.sessions[id].jti == jti;
    id
  }

  ghost function Jtis(t: Tables, ids: set<string>): (jtis: set<string>)
    requires ids <= t.sessions.Keys
    ensures forall j :: j in jtis ==> JtiTaken(t, j)
  {
    set id | id in ids :: t.sessions[id].jti
  }

  ghost function Entries(t: Tables, ids: set<string>, now: int): map<string, Revocation>
    requires ids <= t.sessions.Keys
  {
    map j | j in Jtis(t, ids) :: Revocation(OwnerOf(t, j), t.sessions[OwnerOf(t, j)].expiresAt, now)
  }

  lemma JtisGrow(t: Tables, ids: set<string>, id: string)
    requires WellFormed(t) && ids <= t.sessions.Keys && id in t.sessions
    ensures Jtis(t, ids + {id}) == Jtis(t, ids) + {t.sessions[id].jti}
    ensures t.sessions[id].jti in Jtis(t, ids) <==> id in ids
    ensures OwnerOf(t, t.sessions[id].jti) == id
  {
    assert Jtis(t, {id}) == {t.sessions[id].jti};
    assert forall a :: a in ids + {id} ==> a in ids || a in {id};
  }

  lemma EntryKeys(t: Tables, ids: set<string>, now: int)
    requires ids <= t.sessions.Keys
    ensures Entries(t, ids, now).Keys == Jtis(t, ids)
  {
  }

  lemma LiveIsNotListed(t: Tables, id: string)
    requires WellFormed(t) && id in t.sessions && !t.sessions[id].IsRevoked()
    ensures t.sessions[id].jti !in t.revocations
  {
  }

  lemma EntriesGrow(t: Tables, ids: set<string>, id: string, now: int)
    requires WellFormed(t) && ids <= t.sessions.Keys && id in t.sessions
    ensures Entries(t, ids + {id}, now) ==
            Entries(t, ids, now)[t.sessions[id].jti := Revocation(id, t.sessions[id].expiresAt, now)]
  {
    JtisGrow(t, ids, id);
    hide Jtis, WellFormed;
  }

  lemma UpdateThenUnion<K, V>(e: map<K, V>, r: map<K, V>, k: K, v: V)
    requires k !in r
    ensures e[k := v] + r == (e + r)[k := v]
  {
  }

  /** Listing one more live session is one more insertion, which never meets a conflict. */
  lemma ListOneMore(t: Tables, ids: set<string>, id: string, now: int)
    requires WellFormed(t) && ids <= t.sessions.Keys && id in t.sessions && id !in ids && !t.sessions[id].IsRevoked()
    ensures var s := t.sessions[id];
            && s.jti !in WithListed(t, ids, now)
            && WithListed(t, ids + {id}, now) == WithListed(t, ids, now)[s.jti := Revocation(id, s.expiresAt, now)]
  {
    hide Entries, Jtis;
    var s := t.sessions[id];
    LiveIsNotListed(t, id);
    JtisGrow(t, ids, id);
    EntriesGrow(t, ids, id, now);
    UpdateThenUnion(Entries(t, ids, now), t.revocations, s.jti, Revocation(id, s.expiresAt, now));
    assert s.jti !in Entries(t, ids, now) by { EntryKeys(t, ids, now); }
  }

  lemma NothingListed(t: Tables, now: int)
    ensures WithListed(t, {}, now) == t.revocations
  {
    assert Jtis(t, {}) == {};
  }

  /** The same for the two tables when one session is revoked. */
  lemma RevokeOne(t: Tables, id: string, reason: string, now: int)
    requires WellFormed(t) && id in t.sessions && !t.sessions[id].IsRevoked()
    ensures var s := t.sessions[id];
            && s.jti !in t.revocations
            && Revoke(t, {id}, reason, now) ==
               Tables(t.sessions[id := Mark(s, reason, now)],
                      t.revocations[s.jti := Revocation(id, s.expiresAt, now)])
  {
    hide Entries, WellFormed;
    ListOneMore(t, {}, id, now);
    assert {} + {id} == {id};
    NothingListed(t, now);
  }

  function LiveOf(t: Tables, userId: string): set<string> {
    set id | id in t.sessions && t.sessions[id].userId == userId && !t.sessions[id].IsRevoked()
  }

  function Cleanup(t: Tables, now: int): Tables {
    t.(revocations := map j | j in t.revocations && t.revocations[j].expiresAt > now :: t.revocations[j])
  }

  // ----- Whole statements -----

  /** `updateRefreshToken`: no live row, or a jti collision, changes nothing and answers false. */
  ghost function UpdateRefreshToken(
    t: Tables, key: string, newHash: string, newJti: string, expiresAt: int, now: int
  ): (Tables, bool)
  {
    var found := Find(t, key);
    if found.None? || t.sessions[found.value].IsRevoked() then (t, false)
    else if JtiTakenByOther(t, found.value, newJti) then (t, false)
    else (Rotate(t, found.value, newHash, newJti, expiresAt, now), true)
  }

  ghost function RevokeSession(t: Tables, key: string, reason: string, now: int): (Tables, bool) {
    var found := Find(t, key);
    if found.None? || t.sessions[found.value].IsRevoked() then (t, false)
    else (Revoke(t, {found.value}, reason, now), true)
  }

  ghost function RevokeAll(t: Tables, userId: string, reason: string, now: int): (Tables, nat) {
    (Revoke(t, LiveOf(t, userId), reason, now), |LiveOf(t, userId)|)
  }

  /** `isTokenRevoked`: the fast table first, then the sessions table. */
  predicate IsTokenRevoked(t: Tables, jti: string) {
    || jti in t.revocations
    || exists id :: id in t.sessions && t.sessions[id].jti == jti && t.sessions[id].IsRevoked()
  }

  // ----- What every change keeps -----

  lemma InsertKeeps(t: Tables, id: string, s: Session)
    requires WellFormed(t) && id !in t.sessions && !JtiTaken(t, id)
    requires s.jti != id && s.jti !in t.sessions && !JtiTaken(t, s.jti)
    ensures WellFormed(Insert(t, id, s))
  {
  }

  lemma RotateKeeps(t: Tables, id: string, newHash: string, newJti: string, expiresAt: int, now: int)
    requires WellFormed(t) && id in t.sessions && !t.sessions[id].IsRevoked()
    requires newJti !in t.sessions && !JtiTakenByOther(t, id, newJti)
    ensures WellFormed(Rotate(t, id, newHash, newJti, expiresAt, now))
  {
    var next := Rotate(t, id, newHash, newJti, expiresAt, now);
    forall j | j in next.revocations
      ensures next.revocations[j].sessionId in next.sessions
      ensures var a := next.revocations[j].sessionId; next.sessions[a].jti == j && next.sessions[a].IsRevoked()
    {
      assert next.revocations[j].sessionId != id;
    }
  }

  lemma RevokeKeeps(t: Tables, ids: set<string>, reason: string, now: int)
    requires WellFormed(t) && ids <= t.sessions.Keys
    ensures WellFormed(Revoke(t, ids, reason, now))
  {
    var next := Revoke(t, ids, reason, now);
    assert next.sessions.Keys == t.sessions.Keys;
    assert forall id :: id in t.sessions ==> next.sessions[id].jti == t.sessions[id].jti;
    forall j | j in next.revocations
      ensures var id := next.revocations[j].sessionId;
              id in next.sessions && next.sessions[id].jti == j && next.sessions[id].IsRevoked()
    {
      RevokedEntry(t, ids, reason, now, j);
    }
  }

  /** Where an entry of the fast table comes from. */
  lemma RevokedEntry(t: Tables, ids: set<string>, reason: string, now: int, j: string)
    requires WellFormed(t) && ids <= t.sessions.Keys && j in Revoke(t, ids, reason, now).revocations
    ensures var r := Revoke(t, ids, reason, now).revocations[j];
            if j in t.revocations then r == t.revocations[j]
            else r.sessionId in ids && t.sessions[r.sessionId].jti == j
  {
  }

  lemma CleanupKeeps(t: Tables, now: int)
    requires WellFormed(t)
    ensures WellFormed(Cleanup(t, now))
  {
  }

  /** The fast table adds nothing: a jti is reported exactly when its session is revoked. */
  lemma ListedExactlyWhenRevoked(t: Tables, jti: string)
    requires WellFormed(t)
    ensures IsTokenRevoked(t, jti) <==>
            exists id :: id in t.sessions && t.sessions[id].jti == jti && t.sessions[id].IsRevoked()
  {
    if jti in t.revocations {
      var id := t.revocations[jti].sessionId;
      assert t.sessions[id].jti == jti;
    }
  }

  /** In any tables, well-formed or not, either of the two lookups is enough to report a jti. */
  lemma EitherTableReports(t: Tables, jti: string)
    ensures jti in t.revocations ==> IsTokenRevoked(t, jti)
    ensures forall id :: id in t.sessions && t.sessions[id].jti == jti && t.sessions[id].revokedAt != None ==>
              IsTokenRevoked(t, jti)
    ensures jti !in t.revocations && !JtiTaken(t, jti) ==> !IsTokenRevoked(t, jti)
  {
  }

  /** Cleaning up at any time changes no answer. */
  lemma CleanupChangesNoAnswer(t: Tables, now: int, jti: string)
    requires WellFormed(t)
    ensures IsTokenRevoked(Cleanup(t, now), jti) == IsTokenRevoked(t, jti)
  {
    CleanupKeeps(t, now);
    ListedExactlyWhenRevoked(t, jti);
    ListedExactlyWhenRevoked(Cleanup(t, now), jti);
  }

  /** Cleaning up keeps exactly the entries that have not expired. */
  lemma CleanupIsExact(t: Tables, now: int, jti: string)
    ensures Cleanup(t, now).sessions == t.sessions
    ensures jti in Cleanup(t, now).revocations <==> jti in t.revocations && now < t.revocations[jti].expiresAt
    ensures jti in Cleanup(t, now).revocations ==> Cleanup(t, now).revocations[jti] == t.revocations[jti]
  {
  }

  /** A revoked row: the moment, the reason as its column takes it, and nothing else. */
  predicate MarkedAt(before: Session, after: Session, reason: string, now: int) {
    after == before.(revokedAt := Some(now), reason := Some(if |reason| > 255 then reason[..255] else reason))
  }

  /** Revoking one session marks a live row and lists its jti until its expiry; any other key changes nothing. */
  lemma OneRevocationIsExact(t: Tables, key: string, reason: string, now: int)
    requires WellFormed(t)
    ensures var (next, ok) := RevokeSession(t, key, reason, now);
            && (ok <==> exists id :: id in t.sessions && (id == key || t.sessions[id].jti == key)
                                     && t.sessions[id].revokedAt == None)
            && (!ok ==> next == t)
            && forall id :: id in t.sessions && (id == key || t.sessions[id].jti == key) && ok ==>
                 && next.sessions.Keys == t.sessions.Keys && MarkedAt(t.sessions[id], next.sessions[id], reason, now)
                 && (forall other :: other in t.sessions && other != id ==> next.sessions[other] == t.sessions[other])
                 && next.revocations
                    == t.revocations[t.sessions[id].jti := Revocation(id, t.sessions[id].expiresAt, now)]
  {
    forall id | id in t.sessions && (id == key || t.sessions[id].jti == key)
      ensures Find(t, key) == Some(id)
    {
      FindIsUnique(t, key, id);
    }
    if Find(t, key).Some? && !t.sessions[Find(t, key).value].IsRevoked() {
      RevokeOne(t, Find(t, key).value, reason, now);
    }
    hide FindIn, WellFormed, Revoke;
  }

  /** A bulk revocation marks and lists exactly the user's live sessions, counts them, and touches no others. */
  lemma BulkRevocationIsExact(t: Tables, userId: string, reason: string, now: int)
    requires WellFormed(t)
    ensures var (next, count) := RevokeAll(t, userId, reason, now);
            && next.sessions.Keys == t.sessions.Keys
            && count == |set id | id in t.sessions && !t.sessions[id].IsRevoked() && next.sessions[id].IsRevoked()|
            && (forall id :: id in t.sessions ==>
                  if t.sessions[id].userId == userId && t.sessions[id].revokedAt == None
                  then MarkedAt(t.sessions[id], next.sessions[id], reason, now)
                  else next.sessions[id] == t.sessions[id])
            && (forall id :: id in t.sessions && t.sessions[id].userId == userId ==> next.sessions[id].IsRevoked())
  {
    var (next, count) := RevokeAll(t, userId, reason, now);
    assert (set id | id in t.sessions && !t.sessions[id].IsRevoked() && next.sessions[id].IsRevoked())
        == LiveOf(t, userId);
  }

  /** Of the fast table: each revoked session is listed until its expiry, and what was listed stays as it was. */
  lemma BulkListingIsExact(t: Tables, userId: string, reason: string, now: int, jti: string)
    requires WellFormed(t)
    ensures var next := RevokeAll(t, userId, reason, now).0;
            && (jti in next.revocations <==>
                || jti in t.revocations
                || exists id :: id in t.sessions && t.sessions[id].jti == jti && t.sessions[id].userId == userId
                                && t.sessions[id].revokedAt == None)
            && (jti in t.revocations ==> next.revocations[jti] == t.revocations[jti])
            && (jti in next.revocations && jti !in t.revocations ==>
                  exists id :: id in t.sessions && t.sessions[id].jti == jti
                               && next.revocations[jti] == Revocation(id, t.sessions[id].expiresAt, now))
  {
    var ids := LiveOf(t, userId);
    EntryKeys(t, ids, now);
    if id :| id in ids && t.sessions[id].jti == jti {
      assert jti in Jtis(t, ids);
    }
    hide WellFormed;
  }
}
