/**
 Requests that interleave one repository call at a time, any of which may fail: logins,
 refreshes, revocations, clean-ups and the checks of extractAuthenticatedUser
 (HttpResponseHelper.cpp). The row lock of `findByRefreshTokenHash` ends with that call, so
 nothing here makes a refresh one step. Clocks are arbitrary.
 */
module RevocationProtocol {
  import opened Wrappers
  import opened SessionTables
  import opened SessionRepository
  import opened Transactions

  /** What a validated access token says; only issued tokens validate (module Jwt). */
  datatype AccessToken = AccessToken(sid: string, jti: string)

  /** A request between two of its repository calls. */
  datatype Flight =
    | RefreshFound(hash: string, sid: string)   // the lookup answered a live, unexpired session
    | RefreshReady(hash: string, sid: string)   // its user is active
    | AuthBegun(token: AccessToken)             // the token validated
    | AuthNotListed(token: AccessToken)         // isTokenRevoked answered false
    | AuthSessionLive(token: AccessToken)       // findById answered a live, unexpired session

  datatype Event =
    | Authenticated(request: nat, token: AccessToken)
    | Refreshed(request: nat, sid: string, hash: string)

  /**
   `owners` maps every refresh hash ever stored to its session; `ids` and `jtis` are the
   generated UUIDs of the two kinds. `spent` are the presented hashes that made a refresh
   rotate its session; `twice` records whether some hash did so twice, and `stale` whether some
   refresh rotated a session whose hash was no longer the one it had looked up.
   */
  datatype World = World(
    tables: Tables, inactive: set<string>, flights: map<nat, Flight>, requests: set<nat>,
    ids: set<string>, jtis: set<string>, owners: map<string, string>, issued: set<AccessToken>,
    spent: set<string>, stale: bool, twice: bool, log: seq<Event>)

  datatype Op =
    | Login(userId: string, id: string, jti: string, hash: string, now: int, expiresAt: int, fault: Fault)
    | RefreshLookup(request: nat, hash: string, now: int, fails: bool)
    | RefreshUser(request: nat, fails: bool)
    | RefreshUpdate(request: nat, newHash: string, newJti: string, now: int, expiresAt: int, fault: Fault)
    | RevokeOneSession(key: string, reason: string, now: int, fault: Fault)
    | RevokeAllOfUser(userId: string, reason: string, now: int, fault: Fault)
    | CleanupRevocations(now: int, fault: Fault)
    | AuthBegin(request: nat, token: AccessToken)
    | AuthListed(request: nat, fails: bool)
    | AuthSession(request: nat, now: int, fails: bool)
    | AuthUser(request: nat, fails: bool)
    | SetActive(userId: string, active: bool)

  const START := World(EMPTY, {}, map[], {}, {}, {}, map[], {}, {}, false, false, [])

  /** Generated values are fresh, request numbers are not reused, and steps follow their request. */
  ghost predicate Enabled(w: World, op: Op) {
    match op
    case Login(_, id, jti, hash, _, _, _) =>
      id !in w.ids + w.jtis && jti !in w.ids + w.jtis && id != jti && id != "" && hash !in w.owners
    case RefreshLookup(r, _, _, _) => r !in w.requests
    case RefreshUser(r, _) => r in w.flights && w.flights[r].RefreshFound?
    case RefreshUpdate(r, newHash, newJti, _, _, _) =>
      r in w.flights && w.flights[r].RefreshReady? && newHash !in w.owners && newJti !in w.ids + w.jtis
    case AuthBegin(r, token) => r !in w.requests && token in w.issued
    case AuthListed(r, _) => r in w.flights && w.flights[r].AuthBegun?
    case AuthSession(r, _, _) => r in w.flights && w.flights[r].AuthNotListed?
    case AuthUser(r, _) => r in w.flights && w.flights[r].AuthSessionLive?
    case _ => true
  }

  function Without(flights: map<nat, Flight>, r: nat): map<nat, Flight> { flights - {r} }

  /** The live session a refresh lookup goes on with: the current holder of the hash. */
  ghost function LiveHolder(sessions: map<string, Session>, hash: string, now: int): (found: Option<string>)
    ensures found.Some? ==> found.value in sessions && sessions[found.value].hash == hash
                            && sessions[found.value].IsActive(now)
  {
    if exists id :: id in sessions && sessions[id].hash == hash && sessions[id].IsActive(now) then
      var id :| id in sessions && sessions[id].hash == hash && sessions[id].IsActive(now);
      Some(id)
    else None
  }

  ghost predicate SessionIsLive(t: Tables, key: string, now: int) {
    Find(t, key).Some? && t.sessions[Find(t, key).value].IsActive(now)
  }

  ghost function Apply(w: World, op: Op): World
    requires Enabled(w, op)
  {
    match op
    case Login(userId, id, jti, hash, now, expiresAt, fault) => ApplyLogin(w, op)
    case RefreshLookup(r, hash, now, fails) =>
      var w := w.(requests := w.requests + {r});
      var found := LiveHolder(w.tables.sessions, hash, now);
      if fails || found.None? then w else w.(flights := w.flights[r := RefreshFound(hash, found.value)])
    case RefreshUser(r, fails) =>
      var f := w.flights[r];
      if fails || UserInactive(w, f.sid) then w.(flights := Without(w.flights, r))
      else w.(flights := w.flights[r := RefreshReady(f.hash, f.sid)])
    case RefreshUpdate(r, newHash, newJti, now, expiresAt, fault) => ApplyUpdate(w, op)
    case RevokeOneSession(key, reason, now, fault) =>
      w.(tables := RevokeCall(w.tables, key, reason, now, fault).0)
    case RevokeAllOfUser(userId, reason, now, fault) =>
      w.(tables := RevokeAllCall(w.tables, userId, reason, now, fault).0)
    case CleanupRevocations(now, fault) =>
      w.(tables := Settle(w.tables, Cleanup(w.tables, now), fault))
    case AuthBegin(r, token) =>
      w.(requests := w.requests + {r}, flights := w.flights[r := AuthBegun(token)])
    case AuthListed(r, fails) =>
      var token := w.flights[r].token;
      if !fails && IsTokenRevoked(w.tables, token.jti) then w.(flights := Without(w.flights, r))
      else w.(flights := w.flights[r := AuthNotListed(token)])
    case AuthSession(r, now, fails) =>
      var token := w.flights[r].token;
      if fails || !SessionIsLive(w.tables, token.sid, now) then w.(flights := Without(w.flights, r))
      else w.(flights := w.flights[r := AuthSessionLive(token)])
    case AuthUser(r, fails) =>
      var token := w.flights[r].token;
      var w := w.(flights := Without(w.flights, r));
      if fails || UserInactive(w, token.sid) then w else w.(log := w.log + [Authenticated(r, token)])
    case SetActive(userId, active) =>
      w.(inactive := if active then w.inactive - {userId} else w.inactive + {userId})
  }

  predicate UserInactive(w: World, sid: string) {
    sid in w.tables.sessions && w.tables.sessions[sid].userId in w.inactive
  }

  /** An answered id, even of a lost row, makes the use case issue a token. */
  ghost function ApplyLogin(w: World, op: Op): World
    requires op.Login? && Enabled(w, op)
  {
    var (tables, id) :=
      CreateCall(w.tables, NewSession(op.userId, op.jti, op.hash, op.now, op.expiresAt), op.id, op.fault);
    w.(tables := tables, ids := w.ids + {op.id}, jtis := w.jtis + {op.jti}, owners := w.owners[op.hash := op.id],
       issued := if id == "" then w.issued else w.issued + {AccessToken(id, op.jti)})
  }

  predicate HoldsHash(t: Tables, sid: string, hash: string) {
    sid in t.sessions && t.sessions[sid].hash == hash
  }

  ghost function ApplyUpdate(w: World, op: Op): World
    requires op.RefreshUpdate? && Enabled(w, op)
  {
    var (tables, updated) :=
      UpdateCall(w.tables, w.flights[op.request].sid, op.newHash, op.newJti, op.expiresAt, op.now, op.fault);
    if tables == w.tables then Unmoved(w, op) else Moved(w, op, tables, updated)
  }

  function Unmoved(w: World, op: Op): World
    requires op.RefreshUpdate? && op.request in w.flights && w.flights[op.request].RefreshReady?
  {
    w.(flights := Without(w.flights, op.request), jtis := w.jtis + {op.newJti},
       owners := w.owners[op.newHash := w.flights[op.request].sid])
  }

  /** The session was rotated; the token is issued and the success reported unless the call failed. */
  function Moved(w: World, op: Op, tables: Tables, updated: bool): World
    requires op.RefreshUpdate? && op.request in w.flights && w.flights[op.request].RefreshReady?
  {
    var f := w.flights[op.request];
    Unmoved(w, op).(
      tables := tables,
      spent := w.spent + {f.hash},
      twice := w.twice || f.hash in w.spent,
      stale := w.stale || !HoldsHash(w.tables, f.sid, f.hash),
      issued := if updated then w.issued + {AccessToken(f.sid, op.newJti)} else w.issued,
      log := if updated then w.log + [Refreshed(op.request, f.sid, f.hash)] else w.log)
  }

  // ----- The invariant of every run -----

  ghost predicate RowsKnown(w: World) {
    forall id :: id in w.tables.sessions ==>
      && id in w.ids
      && w.tables.sessions[id].jti in w.jtis
      && w.tables.sessions[id].hash in w.owners
      && w.owners[w.tables.sessions[id].hash] == id
      && w.tables.sessions[id].hash !in w.spent
  }

  ghost predicate FlightKnown(w: World, f: Flight) {
    match f
    case RefreshFound(hash, sid) => RefreshKnown(w, hash, sid)
    case RefreshReady(hash, sid) => RefreshKnown(w, hash, sid)
    case AuthBegun(token) => token in w.issued
    case AuthNotListed(token) => token in w.issued
    case AuthSessionLive(token) => token in w.issued
  }

  /** While nothing stale was written, a waiting hash is spent exactly when its session moved on. */
  ghost predicate RefreshKnown(w: World, hash: string, sid: string) {
    && sid in w.tables.sessions
    && hash in w.owners && w.owners[hash] == sid
    && (!w.stale ==> (hash in w.spent <==> w.tables.sessions[sid].hash != hash))
  }

  ghost predicate TokensKnown(w: World) {
    forall token :: token in w.issued ==> token.sid in w.ids && token.jti in w.jtis
  }

  ghost predicate FlightsKnown(w: World) {
    forall r :: r in w.flights ==> r in w.requests && FlightKnown(w, w.flights[r])
  }

  ghost predicate Inv(w: World) {
    && WellFormed(w.tables)
    && w.ids !! w.jtis
    && RowsKnown(w)
    && TokensKnown(w)
    && FlightsKnown(w)
    && w.spent <= w.owners.Keys
    && w.stale == w.twice
  }

  lemma InvLogin(w: World, op: Op)
    requires Inv(w) && op.Login? && Enabled(w, op)
    ensures Inv(ApplyLogin(w, op))
  {
    var next := ApplyLogin(w, op);
    LoginRows(w, op);
    FlightsSurvive(w, next);
    hide WellFormed, RowsKnown, FlightsKnown, CreateCall;
  }

  lemma LoginRows(w: World, op: Op)
    requires Inv(w) && op.Login? && Enabled(w, op)
    ensures var next := ApplyLogin(w, op);
            && WellFormed(next.tables) && RowsKnown(next)
            && forall id :: id in w.tables.sessions ==>
                 id in next.tables.sessions && next.tables.sessions[id] == w.tables.sessions[id]
  {
    var s := NewSession(op.userId, op.jti, op.hash, op.now, op.expiresAt);
    assert op.id !in w.tables.sessions && !JtiTaken(w.tables, op.id);
    assert op.jti !in w.tables.sessions && !JtiTaken(w.tables, op.jti);
    InsertKeeps(w.tables, op.id, s);
    hide FlightsKnown, TokensKnown, WellFormed;
    NewRowKnown(w, op);
    hide RowsKnown, Inv, JtiTaken;
  }

  lemma NewRowKnown(w: World, op: Op)
    requires RowsKnown(w) && w.spent <= w.owners.Keys && op.Login? && Enabled(w, op)
    ensures RowsKnown(ApplyLogin(w, op))
  {
  }

  /** Flights stay known when sessions, owners and tokens only grow and no known hash changes. */
  lemma FlightsSurvive(w: World, next: World)
    requires FlightsKnown(w) && w.requests <= next.requests
    requires forall r :: r in next.flights ==> r in w.flights && next.flights[r] == w.flights[r]
    requires forall id :: id in w.tables.sessions ==>
               id in next.tables.sessions && next.tables.sessions[id].hash == w.tables.sessions[id].hash
    requires forall h :: h in w.owners ==> h in next.owners && next.owners[h] == w.owners[h]
    requires w.issued <= next.issued && next.spent == w.spent && next.stale == w.stale
    ensures FlightsKnown(next)
  {
    forall r | r in next.flights
      ensures FlightKnown(next, next.flights[r])
    {
      assert FlightKnown(w, w.flights[r]);
    }
  }

  /** An update rotates the session of its flight, or changes no table. */
  lemma UpdateRotates(w: World, op: Op)
    requires Inv(w) && op.RefreshUpdate? && Enabled(w, op)
    ensures var f := w.flights[op.request];
            var (tables, updated) :=
              UpdateCall(w.tables, f.sid, op.newHash, op.newJti, op.expiresAt, op.now, op.fault);
            && f.sid in w.tables.sessions
            && (tables == w.tables
                || (!w.tables.sessions[f.sid].IsRevoked()
                    && tables == Rotate(w.tables, f.sid, op.newHash, op.newJti, op.expiresAt, op.now)))
            && (updated ==> tables != w.tables)
            && WellFormed(tables)
  {
    var f := w.flights[op.request];
    assert FlightKnown(w, f);
    FindIsUnique(w.tables, f.sid, f.sid);
    assert !JtiTaken(w.tables, op.newJti) && op.newJti !in w.tables.sessions;
    if !w.tables.sessions[f.sid].IsRevoked() {
      RotateKeeps(w.tables, f.sid, op.newHash, op.newJti, op.expiresAt, op.now);
      var rotated := Rotate(w.tables, f.sid, op.newHash, op.newJti, op.expiresAt, op.now);
      assert rotated.sessions[f.sid].hash == op.newHash;
    }
  }

  lemma InvUpdate(w: World, op: Op)
    requires Inv(w) && op.RefreshUpdate? && Enabled(w, op)
    ensures Inv(ApplyUpdate(w, op))
  {
    hide WellFormed, RowsKnown, FlightsKnown, TokensKnown, UpdateCall;
    UpdateRotates(w, op);
    var (tables, updated) :=
      UpdateCall(w.tables, w.flights[op.request].sid, op.newHash, op.newJti, op.expiresAt, op.now, op.fault);
    ReadyFlight(w, op.request);
    if tables == w.tables {
      UnmovedRows(w, op);
      FlightsSurvive(w, Unmoved(w, op));
      TokensGrow(w, Unmoved(w, op));
    } else {
      MovedRows(w, op, updated);
      MovedFlights(w, op, updated);
      TokensGrow(w, Moved(w, op, tables, updated));
      MovedFlags(w, op, tables, updated);
    }
  }

  lemma ReadyFlight(w: World, r: nat)
    requires FlightsKnown(w) && r in w.flights && w.flights[r].RefreshReady?
    ensures RefreshKnown(w, w.flights[r].hash, w.flights[r].sid)
  {
    assert FlightKnown(w, w.flights[r]);
  }

  lemma UnmovedRows(w: World, op: Op)
    requires RowsKnown(w) && op.RefreshUpdate? && Enabled(w, op)
    ensures RowsKnown(Unmoved(w, op))
  {
  }

  lemma TokensGrow(w: World, next: World)
    requires TokensKnown(w) && w.ids <= next.ids && w.jtis <= next.jtis
    requires forall token :: token in next.issued - w.issued ==> token.sid in w.ids && token.jti in next.jtis
    ensures TokensKnown(next)
  {
    forall token | token in next.issued
      ensures token.sid in next.ids && token.jti in next.jtis
    {
      assert token in w.issued || token in next.issued - w.issued;
    }
  }

  lemma MovedFlags(w: World, op: Op, tables: Tables, updated: bool)
    requires op.RefreshUpdate? && op.request in w.flights && w.flights[op.request].RefreshReady?
    requires RefreshKnown(w, w.flights[op.request].hash, w.flights[op.request].sid) && w.stale == w.twice
    ensures Moved(w, op, tables, updated).stale == Moved(w, op, tables, updated).twice
  {
  }

  lemma MovedRows(w: World, op: Op, updated: bool)
    requires RowsKnown(w) && w.spent <= w.owners.Keys && op.RefreshUpdate? && Enabled(w, op)
    requires RefreshKnown(w, w.flights[op.request].hash, w.flights[op.request].sid)
    ensures var tables := Rotate(w.tables, w.flights[op.request].sid, op.newHash, op.newJti, op.expiresAt, op.now);
            RowsKnown(Moved(w, op, tables, updated))
  {
    var f := w.flights[op.request];
    var next := Moved(w, op, Rotate(w.tables, f.sid, op.newHash, op.newJti, op.expiresAt, op.now), updated);
    forall id | id in next.tables.sessions
      ensures var s := next.tables.sessions[id];
              id in next.ids && s.jti in next.jtis && s.hash in next.owners && next.owners[s.hash] == id
              && s.hash !in next.spent
    {
      assert w.owners[w.tables.sessions[id].hash] == id;
    }
  }

  lemma MovedFlights(w: World, op: Op, updated: bool)
    requires FlightsKnown(w) && w.spent <= w.owners.Keys && op.RefreshUpdate? && Enabled(w, op)
    requires RefreshKnown(w, w.flights[op.request].hash, w.flights[op.request].sid)
    ensures var tables := Rotate(w.tables, w.flights[op.request].sid, op.newHash, op.newJti, op.expiresAt, op.now);
            FlightsKnown(Moved(w, op, tables, updated))
  {
    var f := w.flights[op.request];
    var next := Moved(w, op, Rotate(w.tables, f.sid, op.newHash, op.newJti, op.expiresAt, op.now), updated);
    forall r | r in next.flights
      ensures r in next.requests && FlightKnown(next, next.flights[r])
    {
      assert FlightKnown(w, w.flights[r]);
    }
  }

  /** Revocations and clean-ups touch neither hashes nor jtis nor which sessions exist. */
  ghost predicate SameIdentity(a: Tables, b: Tables) {
    && a.sessions.Keys == b.sessions.Keys
    && forall id :: id in a.sessions ==>
         a.sessions[id].jti == b.sessions[id].jti && a.sessions[id].hash == b.sessions[id].hash
  }

  lemma InvSameIdentity(w: World, tables: Tables)
    requires Inv(w) && WellFormed(tables) && SameIdentity(w.tables, tables)
    ensures Inv(w.(tables := tables))
  {
    var next := w.(tables := tables);
    forall r | r in next.flights
      ensures FlightKnown(next, next.flights[r])
    {
      assert FlightKnown(w, w.flights[r]);
    }
  }

  lemma RevocationKeepsIdentity(t: Tables, ids: set<string>, reason: string, now: int, fault: Fault)
    requires WellFormed(t) && ids <= t.sessions.Keys
    ensures var next := Settle(t, Revoke(t, ids, reason, now), fault);
            WellFormed(next) && SameIdentity(t, next)
  {
    RevokeKeeps(t, ids, reason, now);
  }

  lemma InvLookup(w: World, op: Op)
    requires Inv(w) && op.RefreshLookup? && Enabled(w, op)
    ensures Inv(Apply(w, op))
  {
    var next := Apply(w, op);
    forall r | r in next.flights
      ensures r in next.requests && FlightKnown(next, next.flights[r])
    {
      if r in w.flights {
        assert FlightKnown(w, w.flights[r]);
      }
    }
  }

  /** Steps that only move flights keep the invariant. */
  lemma InvFlights(w: World, next: World)
    requires Inv(w)
    requires next == w.(flights := next.flights, requests := next.requests, log := next.log, inactive := next.inactive)
    requires forall r :: r in next.flights ==> r in next.requests && FlightKnown(w, next.flights[r])
    ensures Inv(next)
  {
    forall r | r in next.flights
      ensures FlightKnown(next, next.flights[r])
    {
      assert FlightKnown(w, next.flights[r]);
    }
  }

  lemma InvStep(w: World, op: Op)
    requires Inv(w) && Enabled(w, op)
    ensures Inv(Apply(w, op))
  {
    hide Inv, Apply, Enabled;
    match op {
      case Login(_, _, _, _, _, _, _) =>
        InvLogin(w, op);
        WritesApply(w, op);
      case RefreshLookup(_, _, _, _) => InvLookup(w, op);
      case RefreshUpdate(_, _, _, _, _, _) =>
        InvUpdate(w, op);
        WritesApply(w, op);
      case RevokeOneSession(_, _, _, _) => InvRevocations(w, op);
      case RevokeAllOfUser(_, _, _, _) => InvRevocations(w, op);
      case CleanupRevocations(_, _) => InvRevocations(w, op);
      case _ => InvReads(w, op);
    }
  }

  lemma WritesApply(w: World, op: Op)
    requires Enabled(w, op)
    ensures op.Login? ==> Apply(w, op) == ApplyLogin(w, op)
    ensures op.RefreshUpdate? ==> Apply(w, op) == ApplyUpdate(w, op)
  {
  }

  lemma InvRevocations(w: World, op: Op)
    requires Inv(w) && Enabled(w, op)
    requires op.RevokeOneSession? || op.RevokeAllOfUser? || op.CleanupRevocations?
    ensures Inv(Apply(w, op))
  {
    RevocationTables(w, op);
    hide Inv, Revoke, WellFormed, SameIdentity, RevokeCall, RevokeAllCall, Cleanup;
    InvSameIdentity(w, Apply(w, op).tables);
  }

  lemma RevocationTables(w: World, op: Op)
    requires Inv(w) && Enabled(w, op)
    requires op.RevokeOneSession? || op.RevokeAllOfUser? || op.CleanupRevocations?
    ensures WellFormed(Apply(w, op).tables) && SameIdentity(w.tables, Apply(w, op).tables)
  {
    hide RowsKnown, TokensKnown, FlightsKnown, WellFormed, SameIdentity, RevokeCall, RevokeAllCall, Cleanup;
    match op {
      case RevokeOneSession(key, reason, now, fault) => OneRevoked(w.tables, key, reason, now, fault);
      case RevokeAllOfUser(userId, reason, now, fault) => AllRevoked(w.tables, userId, reason, now, fault);
      case CleanupRevocations(now, fault) => Cleaned(w.tables, now, fault);
    }
  }

  lemma OneRevoked(t: Tables, key: string, reason: string, now: int, fault: Fault)
    requires WellFormed(t)
    ensures var next := RevokeCall(t, key, reason, now, fault).0; WellFormed(next) && SameIdentity(t, next)
  {
    if Find(t, key).Some? {
      RevocationKeepsIdentity(t, {Find(t, key).value}, reason, now, ReasonFault(reason, fault));
    }
    SameAsItself(t);
    hide WellFormed, Revoke, FindIn, SameIdentity;
  }

  lemma AllRevoked(t: Tables, userId: string, reason: string, now: int, fault: Fault)
    requires WellFormed(t)
    ensures var next := RevokeAllCall(t, userId, reason, now, fault).0; WellFormed(next) && SameIdentity(t, next)
  {
    RevocationKeepsIdentity(t, LiveOf(t, userId), reason, now, ReasonFault(reason, fault));
    hide WellFormed, Revoke, SameIdentity;
  }

  lemma Cleaned(t: Tables, now: int, fault: Fault)
    requires WellFormed(t)
    ensures var next := Settle(t, Cleanup(t, now), fault); WellFormed(next) && SameIdentity(t, next)
  {
    CleanupKeeps(t, now);
    SameAsItself(t);
    SameAsCleaned(t, now);
    hide WellFormed, Cleanup, SameIdentity;
  }

  lemma SameAsItself(t: Tables)
    ensures SameIdentity(t, t)
  {
  }

  lemma SameAsCleaned(t: Tables, now: int)
    ensures SameIdentity(t, Cleanup(t, now))
  {
  }

  lemma InvReads(w: World, op: Op)
    requires Inv(w) && Enabled(w, op)
    requires op.RefreshUser? || op.AuthBegin? || op.AuthListed? || op.AuthSession? || op.AuthUser? || op.SetActive?
    ensures Inv(Apply(w, op))
  {
    hide WellFormed, RowsKnown, TokensKnown, UserInactive, IsTokenRevoked, SessionIsLive;
    forall r | r in Apply(w, op).flights
      ensures r in Apply(w, op).requests && FlightKnown(w, Apply(w, op).flights[r])
    {
      if r in w.flights {
        assert FlightKnown(w, w.flights[r]);
      }
    }
    hide Inv;
    InvFlights(w, Apply(w, op));
  }

  // ----- Runs -----

  ghost predicate Legal(w: World, ops: seq<Op>)
    decreases |ops|
  {
    ops == [] || (Enabled(w, ops[0]) && Legal(Apply(w, ops[0]), ops[1..]))
  }

  ghost function Run(w: World, ops: seq<Op>): World
    requires Legal(w, ops)
    decreases |ops|
  {
    if ops == [] then w else Run(Apply(w, ops[0]), ops[1..])
  }

  /** Every state of every run satisfies the invariant. */
  lemma {:induction false} InvRun(w: World, ops: seq<Op>)
    requires Inv(w) && Legal(w, ops)
    ensures Inv(Run(w, ops))
    decreases |ops|
  {
    if ops != [] {
      InvStep(w, ops[0]);
      InvRun(Apply(w, ops[0]), ops[1..]);
    }
  }

  lemma InvStart()
    ensures Inv(START)
  {
  }

  ghost predicate Reachable(w: World) {
    exists ops :: Legal(START, ops) && Run(START, ops) == w
  }

  lemma ReachableInv(w: World)
    requires Reachable(w)
    ensures Inv(w)
  {
    var ops :| Legal(START, ops) && Run(START, ops) == w;
    InvStart();
    InvRun(START, ops);
  }

  // ----- The fast table never matters -----

  /** In every reachable state a jti is reported revoked exactly when its session is. */
  lemma ReportedExactlyWhenRevoked(w: World, jti: string)
    requires Reachable(w)
    ensures IsTokenRevoked(w.tables, jti) <==>
            exists id ::
              id in w.tables.sessions && w.tables.sessions[id].jti == jti && w.tables.sessions[id].IsRevoked()
  {
    ReachableInv(w);
    ListedExactlyWhenRevoked(w.tables, jti);
  }

  function WithoutCleanups(ops: seq<Op>): seq<Op> {
    if ops == [] then []
    else (if ops[0].CleanupRevocations? then [] else [ops[0]]) + WithoutCleanups(ops[1..])
  }

  /** Equal but for the contents of the fast table. */
  ghost predicate SameButListed(a: World, b: World) {
    b == a.(tables := Tables(a.tables.sessions, b.tables.revocations))
  }

  lemma StepIgnoresList(a: World, b: World, op: Op)
    requires Inv(a) && Inv(b) && SameButListed(a, b) && Enabled(a, op)
    ensures Enabled(b, op) && SameButListed(Apply(a, op), Apply(b, op))
    ensures op.CleanupRevocations? ==> SameButListed(Apply(a, op), b)
  {
    hide Inv, SameButListed, Apply, Enabled;
    match op {
      case AuthListed(r, _) => AnswersIgnoreList(a, b, op);
      case Login(_, _, _, _, _, _, _) => LoginIgnoresList(a, b, op);
      case RefreshUpdate(_, _, _, _, _, _) => RefreshIgnoresList(a, b, op);
      case RevokeOneSession(_, _, _, _) => RevocationIgnoresList(a, b, op);
      case RevokeAllOfUser(_, _, _, _) => RevocationIgnoresList(a, b, op);
      case CleanupRevocations(_, _) => RevocationIgnoresList(a, b, op);
      case _ => ReadsIgnoreList(a, b, op);
    }
  }

  lemma AnswersIgnoreList(a: World, b: World, op: Op)
    requires Inv(a) && Inv(b) && SameButListed(a, b) && Enabled(a, op) && op.AuthListed?
    ensures Enabled(b, op) && SameButListed(Apply(a, op), Apply(b, op))
  {
    hide RowsKnown, FlightsKnown, TokensKnown;
    ListedExactlyWhenRevoked(a.tables, a.flights[op.request].token.jti);
    ListedExactlyWhenRevoked(b.tables, a.flights[op.request].token.jti);
  }

  lemma LoginIgnoresList(a: World, b: World, op: Op)
    requires SameButListed(a, b) && Enabled(a, op) && op.Login?
    ensures Enabled(b, op) && SameButListed(Apply(a, op), Apply(b, op))
  {
  }

  lemma RefreshIgnoresList(a: World, b: World, op: Op)
    requires SameButListed(a, b) && Enabled(a, op) && op.RefreshUpdate?
    ensures Enabled(b, op) && SameButListed(Apply(a, op), Apply(b, op))
  {
    UpdateIgnoresList(a.tables, b.tables, a.flights[op.request].sid, op);
    hide UpdateCall;
  }

  lemma RevocationIgnoresList(a: World, b: World, op: Op)
    requires SameButListed(a, b) && Enabled(a, op)
    requires op.RevokeOneSession? || op.RevokeAllOfUser? || op.CleanupRevocations?
    ensures Enabled(b, op) && SameButListed(Apply(a, op), Apply(b, op))
    ensures op.CleanupRevocations? ==> SameButListed(Apply(a, op), b)
  {
    hide FindIn, WithListed;
  }

  lemma ReadsIgnoreList(a: World, b: World, op: Op)
    requires SameButListed(a, b) && Enabled(a, op)
    requires op.RefreshLookup? || op.RefreshUser? || op.AuthBegin? || op.AuthSession? || op.AuthUser? || op.SetActive?
    ensures Enabled(b, op) && SameButListed(Apply(a, op), Apply(b, op))
  {
    hide Apply, Enabled, SameButListed;
    match op {
      case RefreshLookup(_, _, _, _) => LookupIgnoresList(a, b, op);
      case AuthSession(_, _, _) => SessionCheckIgnoresList(a, b, op);
      case _ => FlightsIgnoreList(a, b, op);
    }
  }

  lemma FlightsIgnoreList(a: World, b: World, op: Op)
    requires SameButListed(a, b) && Enabled(a, op)
    requires op.RefreshUser? || op.AuthBegin? || op.AuthUser? || op.SetActive?
    ensures Enabled(b, op) && SameButListed(Apply(a, op), Apply(b, op))
  {
    hide Apply, Enabled, SameButListed;
    match op {
      case RefreshUser(_, _) => RefreshUserIgnoresList(a, b, op);
      case AuthUser(_, _) => AuthUserIgnoresList(a, b, op);
      case _ => OthersIgnoreList(a, b, op);
    }
  }

  lemma RefreshUserIgnoresList(a: World, b: World, op: Op)
    requires SameButListed(a, b) && Enabled(a, op) && op.RefreshUser?
    ensures Enabled(b, op) && SameButListed(Apply(a, op), Apply(b, op))
  {
    InactiveIgnoresList(a, b, a.flights[op.request].sid);
    hide UserInactive;
  }

  lemma AuthUserIgnoresList(a: World, b: World, op: Op)
    requires SameButListed(a, b) && Enabled(a, op) && op.AuthUser?
    ensures Enabled(b, op) && SameButListed(Apply(a, op), Apply(b, op))
  {
    InactiveIgnoresList(a, b, a.flights[op.request].token.sid);
    hide UserInactive;
  }

  lemma OthersIgnoreList(a: World, b: World, op: Op)
    requires SameButListed(a, b) && Enabled(a, op) && (op.AuthBegin? || op.SetActive?)
    ensures Enabled(b, op) && SameButListed(Apply(a, op), Apply(b, op))
  {
  }

  lemma InactiveIgnoresList(a: World, b: World, sid: string)
    requires SameButListed(a, b)
    ensures UserInactive(a, sid) == UserInactive(b, sid)
  {
  }

  lemma LookupIgnoresList(a: World, b: World, op: Op)
    requires SameButListed(a, b) && Enabled(a, op) && op.RefreshLookup?
    ensures Enabled(b, op) && SameButListed(Apply(a, op), Apply(b, op))
  {
    hide LiveHolder;
  }

  lemma SessionCheckIgnoresList(a: World, b: World, op: Op)
    requires SameButListed(a, b) && Enabled(a, op) && op.AuthSession?
    ensures Enabled(b, op) && SameButListed(Apply(a, op), Apply(b, op))
  {
    LiveIgnoresList(a.tables, b.tables, a.flights[op.request].token.sid, op.now);
    hide SessionIsLive;
  }

  lemma LiveIgnoresList(s: Tables, t: Tables, sid: string, now: int)
    requires s.sessions == t.sessions
    ensures SessionIsLive(s, sid, now) == SessionIsLive(t, sid, now)
  {
    hide FindIn;
  }

  lemma UpdateIgnoresList(s: Tables, t: Tables, sid: string, op: Op)
    requires s.sessions == t.sessions && op.RefreshUpdate?
    ensures var (s', x) := UpdateCall(s, sid, op.newHash, op.newJti, op.expiresAt, op.now, op.fault);
            var (t', y) := UpdateCall(t, sid, op.newHash, op.newJti, op.expiresAt, op.now, op.fault);
            x == y && s'.sessions == t'.sessions && s'.revocations == s.revocations && t'.revocations == t.revocations
  {
    hide FindIn;
  }

  /** Removing every clean-up from a run changes no event, no session and no answer. */
  lemma {:induction false} CleanupsAreInvisible(a: World, b: World, ops: seq<Op>)
    requires Inv(a) && Inv(b) && SameButListed(a, b) && Legal(a, ops)
    ensures Legal(b, WithoutCleanups(ops))
    ensures var x, y := Run(a, ops), Run(b, WithoutCleanups(ops));
            && SameButListed(x, y) && x.log == y.log
            && forall jti :: IsTokenRevoked(x.tables, jti) == IsTokenRevoked(y.tables, jti)
    decreases |ops|
  {
    hide Inv, SameButListed, Enabled, Apply;
    var kept := WithoutCleanups(ops);
    if ops == [] {
      SameAnswers(a, b);
    } else {
      StepIgnoresList(a, b, ops[0]);
      InvStep(a, ops[0]);
      if ops[0].CleanupRevocations? {
        assert kept == WithoutCleanups(ops[1..]);
        CleanupsAreInvisible(Apply(a, ops[0]), b, ops[1..]);
      } else {
        InvStep(b, ops[0]);
        assert kept[1..] == WithoutCleanups(ops[1..]);
        CleanupsAreInvisible(Apply(a, ops[0]), Apply(b, ops[0]), ops[1..]);
      }
    }
  }

  lemma SameAnswers(a: World, b: World)
    requires Inv(a) && Inv(b) && SameButListed(a, b)
    ensures a.log == b.log && forall jti :: IsTokenRevoked(a.tables, jti) == IsTokenRevoked(b.tables, jti)
  {
    forall jti
      ensures IsTokenRevoked(a.tables, jti) == IsTokenRevoked(b.tables, jti)
    {
      ListedExactlyWhenRevoked(a.tables, jti);
      ListedExactlyWhenRevoked(b.tables, jti);
    }
  }

  // ----- Revocation is permanent -----

  predicate Revoked(w: World, sid: string) {
    sid in w.tables.sessions && w.tables.sessions[sid].IsRevoked()
  }

  /** The request has already passed its session lookup with a token of this session. */
  predicate PastLookup(w: World, r: nat, sid: string) {
    r in w.flights && w.flights[r].AuthSessionLive? && w.flights[r].token.sid == sid
  }

  /**
   From w on the session is frozen: its row never changes, no token is issued for it, no
   refresh of it succeeds, and its tokens authenticate only requests that were already past
   their session lookup in w.
   */
  ghost predicate Sealed(w: World, next: World, sid: string) {
    && sid in w.tables.sessions && sid in next.tables.sessions
    && next.tables.sessions[sid] == w.tables.sessions[sid]
    && w.log <= next.log
    && (forall token :: token in next.issued && token !in w.issued ==> token.sid != sid)
    && (forall r :: PastLookup(next, r, sid) ==> PastLookup(w, r, sid))
    && (forall k :: |w.log| <= k < |next.log| ==>
          match next.log[k]
          case Refreshed(_, s, _) => s != sid
          case Authenticated(r, token) => token.sid == sid ==> PastLookup(w, r, sid))
  }

  lemma StepSealed(w: World, op: Op, sid: string)
    requires Inv(w) && Enabled(w, op) && Revoked(w, sid)
    ensures Sealed(w, Apply(w, op), sid)
  {
    hide Inv, Enabled, Apply, Sealed, Revoked;
    match op {
      case Login(_, _, _, _, _, _, _) => LoginSealed(w, op, sid);
      case RefreshUpdate(_, _, _, _, _, _) => UpdateSealed(w, op, sid);
      case RevokeOneSession(_, _, _, _) => RevocationSealed(w, op, sid);
      case RevokeAllOfUser(_, _, _, _) => RevocationSealed(w, op, sid);
      case CleanupRevocations(_, _) => RevocationSealed(w, op, sid);
      case _ => ReadsSealed(w, op, sid);
    }
  }

  lemma LoginSealed(w: World, op: Op, sid: string)
    requires Inv(w) && op.Login? && Enabled(w, op) && Revoked(w, sid)
    ensures Sealed(w, Apply(w, op), sid)
  {
    assert sid in w.ids;
    LoginRows(w, op);
    hide Inv, CreateCall, WellFormed, RowsKnown;
    LoginAnswers(w, op);
  }

  lemma LoginAnswers(w: World, op: Op)
    requires op.Login?
    ensures CreateCall(w.tables, NewSession(op.userId, op.jti, op.hash, op.now, op.expiresAt), op.id, op.fault).1
              in {"", op.id}
  {
  }

  lemma UpdateSealed(w: World, op: Op, sid: string)
    requires Inv(w) && op.RefreshUpdate? && Enabled(w, op) && Revoked(w, sid)
    ensures Sealed(w, Apply(w, op), sid)
  {
    hide WellFormed, RowsKnown, TokensKnown, FlightsKnown, UpdateCall;
    UpdateRotates(w, op);
    hide Inv;
    var f := w.flights[op.request];
    var (tables, updated) := UpdateCall(w.tables, f.sid, op.newHash, op.newJti, op.expiresAt, op.now, op.fault);
    if tables == w.tables {
      TablesAndFlightsSealed(w, Unmoved(w, op), sid);
    } else {
      assert f.sid != sid;
    }
  }

  lemma TablesAndFlightsSealed(w: World, next: World, sid: string)
    requires next.log == w.log && next.issued == w.issued && next.tables == w.tables && sid in w.tables.sessions
    requires forall r :: r in next.flights ==> r in w.flights && next.flights[r] == w.flights[r]
    ensures Sealed(w, next, sid)
  {
  }

  lemma RevocationSealed(w: World, op: Op, sid: string)
    requires Enabled(w, op) && Revoked(w, sid)
    requires op.RevokeOneSession? || op.RevokeAllOfUser? || op.CleanupRevocations?
    ensures Sealed(w, Apply(w, op), sid)
  {
    hide FindIn, WithListed;
    TablesSealed(w, Apply(w, op), sid);
  }

  lemma ReadsSealed(w: World, op: Op, sid: string)
    requires Enabled(w, op) && Revoked(w, sid)
    requires !op.Login? && !op.RefreshUpdate?
    requires !op.RevokeOneSession? && !op.RevokeAllOfUser? && !op.CleanupRevocations?
    ensures Sealed(w, Apply(w, op), sid)
  {
    hide Apply, Enabled, Sealed, Revoked;
    match op {
      case AuthSession(_, _, _) => AuthSessionSealed(w, op, sid);
      case AuthUser(_, _) => AuthUserSealed(w, op, sid);
      case _ => EarlierSealed(w, op, sid);
    }
  }

  lemma AuthSessionSealed(w: World, op: Op, sid: string)
    requires Enabled(w, op) && Revoked(w, sid) && op.AuthSession?
    ensures Sealed(w, Apply(w, op), sid)
  {
    assert Find(w.tables, sid) == Some(sid);
    assert !SessionIsLive(w.tables, sid, op.now);
    hide SessionIsLive, FindIn;
    FlightsSealed(w, Apply(w, op), sid);
  }

  lemma AuthUserSealed(w: World, op: Op, sid: string)
    requires Enabled(w, op) && Revoked(w, sid) && op.AuthUser?
    ensures Sealed(w, Apply(w, op), sid)
  {
    hide UserInactive;
  }

  lemma EarlierSealed(w: World, op: Op, sid: string)
    requires Enabled(w, op) && Revoked(w, sid)
    requires op.RefreshLookup? || op.RefreshUser? || op.AuthBegin? || op.AuthListed? || op.SetActive?
    ensures Sealed(w, Apply(w, op), sid)
  {
    hide LiveHolder, IsTokenRevoked, UserInactive;
    FlightsSealed(w, Apply(w, op), sid);
  }

  /** A step that moves flights but brings none of the session past its lookup. */
  lemma FlightsSealed(w: World, next: World, sid: string)
    requires next.tables == w.tables && next.log == w.log && next.issued == w.issued && sid in w.tables.sessions
    requires forall r :: r in next.flights && (r !in w.flights || next.flights[r] != w.flights[r]) ==>
               !next.flights[r].AuthSessionLive? || next.flights[r].token.sid != sid
    ensures Sealed(w, next, sid)
  {
  }

  /** A step that changes only the tables seals what it does not touch. */
  lemma TablesSealed(w: World, next: World, sid: string)
    requires next == w.(tables := next.tables)
    requires sid in w.tables.sessions && sid in next.tables.sessions
    requires next.tables.sessions[sid] == w.tables.sessions[sid]
    ensures Sealed(w, next, sid)
  {
  }

  /** For every run: once a session is revoked it stays exactly as it is, and lets nobody in again. */
  lemma {:induction false} RevocationIsForever(w: World, ops: seq<Op>, sid: string)
    requires Inv(w) && Legal(w, ops) && Revoked(w, sid)
    ensures Sealed(w, Run(w, ops), sid)
    decreases |ops|
  {
    hide Inv, Enabled, Apply;
    if ops == [] {
    } else {
      var mid := Apply(w, ops[0]);
      StepSealed(w, ops[0], sid);
      InvStep(w, ops[0]);
      RevocationIsForever(mid, ops[1..], sid);
      SealedTwice(w, mid, Run(mid, ops[1..]), sid);
    }
  }

  lemma SealedTwice(a: World, b: World, c: World, sid: string)
    requires Sealed(a, b, sid) && Sealed(b, c, sid)
    ensures Sealed(a, c, sid)
  {
    assert forall k :: |a.log| <= k < |b.log| ==> c.log[k] == b.log[k];
  }
}
