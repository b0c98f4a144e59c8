/**
 The requests of the interleaved protocol one by one: what each of their reads decides, that a request
 with nothing in between is the use case it stands for, and what deactivating a user does to all of them.
 */
module ProtocolRequests {
  import opened Wrappers
  import opened SessionTables
  import opened SessionRepository
  import opened Transactions
  import opened RevocationProtocol
  import Authentication
  import Jwt
  import UseCases

  // ----- What each read decides -----

  predicate UserIsActive(w: World, sid: string) {
    sid in w.tables.sessions ==> w.tables.sessions[sid].userId !in w.inactive
  }

  ghost predicate SessionStands(t: Tables, key: string, now: int) {
    exists id :: id in t.sessions && (id == key || t.sessions[id].jti == key)
                 && t.sessions[id].revokedAt == None && now < t.sessions[id].expiresAt
  }

  lemma StandsWhenLive(t: Tables, key: string, now: int)
    requires WellFormed(t)
    ensures SessionIsLive(t, key, now) <==> SessionStands(t, key, now)
  {
    forall id | id in t.sessions && (id == key || t.sessions[id].jti == key)
      ensures Find(t, key) == Some(id)
    {
      FindIsUnique(t, key, id);
    }
    hide WellFormed, FindIn;
  }

  /** The three reads of an authentication: a failed one refuses, except that of the revoked tokens. */
  lemma AuthReads(w: World, op: Op)
    requires WellFormed(w.tables) && Enabled(w, op) && (op.AuthListed? || op.AuthSession? || op.AuthUser?)
    ensures var next, r, token := Apply(w, op), op.request, w.flights[op.request].token;
            match op
            case AuthListed(_, fails) =>
              next == w.(flights := if fails || !Authentication.JtiRevoked(w.tables, token.jti)
                                    then w.flights[r := AuthNotListed(token)] else w.flights - {r})
            case AuthSession(_, now, fails) =>
              next == w.(flights := if !fails && SessionStands(w.tables, token.sid, now)
                                    then w.flights[r := AuthSessionLive(token)] else w.flights - {r})
            case AuthUser(_, fails) =>
              next == w.(flights := w.flights - {r},
                         log := if !fails && UserIsActive(w, token.sid) then w.log + [Authenticated(r, token)]
                                else w.log)
  {
    if op.AuthListed? {
      ListedExactlyWhenRevoked(w.tables, w.flights[op.request].token.jti);
    } else if op.AuthSession? {
      StandsWhenLive(w.tables, w.flights[op.request].token.sid, op.now);
    }
    hide WellFormed, IsTokenRevoked, SessionIsLive, SessionStands;
  }

  predicate HoldsLive(t: Tables, hash: string, now: int, id: string) {
    && id in t.sessions && t.sessions[id].hash == hash
    && t.sessions[id].revokedAt == None && now < t.sessions[id].expiresAt
  }

  /** A refresh goes on from its lookup with a live holder of the hash, if there is one and the read succeeds. */
  lemma RefreshLookupReads(w: World, r: nat, hash: string, now: int, fails: bool)
    requires Enabled(w, RefreshLookup(r, hash, now, fails))
    ensures var next, asked := Apply(w, RefreshLookup(r, hash, now, fails)), w.(requests := w.requests + {r});
            || (next == asked && (fails || forall id :: !HoldsLive(w.tables, hash, now, id)))
            || exists id :: !fails && HoldsLive(w.tables, hash, now, id)
                            && next == asked.(flights := w.flights[r := RefreshFound(hash, id)])
  {
    var found := LiveHolder(w.tables.sessions, hash, now);
    assert found.Some? ==> HoldsLive(w.tables, hash, now, found.value);
  }

  /** And from there exactly if the session's user is active. */
  lemma RefreshUserReads(w: World, r: nat, fails: bool)
    requires Enabled(w, RefreshUser(r, fails))
    ensures var f := w.flights[r];
            Apply(w, RefreshUser(r, fails))
            == w.(flights := if !fails && UserIsActive(w, f.sid) then w.flights[r := RefreshReady(f.hash, f.sid)]
                             else w.flights - {r})
  {
  }

  lemma SetActiveIsExact(w: World, userId: string, active: bool)
    ensures var next := Apply(w, SetActive(userId, active));
            && next == w.(inactive := next.inactive) && (userId in next.inactive <==> !active)
            && forall other :: other != userId ==> (other in next.inactive <==> other in w.inactive)
  {
  }

  // ----- Requests alone -----

  /**
   An authentication with nothing in between passes its three checks exactly as the function that makes
   them in one step says, and changes no table.
   */
  lemma AuthAlone(w: World, r: nat, token: AccessToken, users: map<string, Authentication.Account>, c: Jwt.Claims,
                  now: int)
    requires WellFormed(w.tables) && Enabled(w, AuthBegin(r, token)) && r !in w.flights
    requires c.sid == token.sid && c.jti == token.jti
    requires (c.sub in users && users[c.sub].active) <==> UserIsActive(w, token.sid)
    ensures var answer := Authentication.CheckSession(w.tables, users, c, now);
            var w2 := Apply(Apply(w, AuthBegin(r, token)), AuthListed(r, false));
            if answer == Err(Authentication.TokenRevoked) then w2 == w.(requests := w.requests + {r})
            else
              Enabled(w2, AuthSession(r, now, false)) &&
              var w3 := Apply(w2, AuthSession(r, now, false));
              if answer == Err(Authentication.SessionTerminated) then w3 == w.(requests := w.requests + {r})
              else
                Enabled(w3, AuthUser(r, false)) &&
                Apply(w3, AuthUser(r, false))
                == w.(requests := w.requests + {r},
                      log := if answer.Ok? then w.log + [Authenticated(r, token)] else w.log)
  {
    hide Apply, Enabled, UserIsActive, WellFormed, Authentication.CheckSession, SessionStands,
      Authentication.JtiRevoked;
    Authentication.SessionChecks(w.tables, users, c, now);
    ListedAlone(w, r, token);
    if !Authentication.JtiRevoked(w.tables, token.jti) {
      SessionAlone(w, r, token, now);
      SameStands(w.tables, token.sid, now);
      UserAlone(w, r, token);
    }
  }

  /** The world with this request under way. */
  function Underway(w: World, r: nat, f: Flight): World {
    w.(requests := w.requests + {r}, flights := w.flights[r := f])
  }

  lemma ListedAlone(w: World, r: nat, token: AccessToken)
    requires WellFormed(w.tables) && Enabled(w, AuthBegin(r, token)) && r !in w.flights
    ensures var w1 := Apply(w, AuthBegin(r, token));
            && Enabled(w1, AuthListed(r, false))
            && Apply(w1, AuthListed(r, false))
               == if Authentication.JtiRevoked(w.tables, token.jti) then w.(requests := w.requests + {r})
                  else Underway(w, r, AuthNotListed(token))
  {
    var w1 := Apply(w, AuthBegin(r, token));
    assert w1 == Underway(w, r, AuthBegun(token));
    hide Apply, WellFormed, Authentication.JtiRevoked;
    AuthReads(w1, AuthListed(r, false));
    BackOut(w.flights, r, AuthBegun(token), AuthNotListed(token));
  }

  lemma SessionAlone(w: World, r: nat, token: AccessToken, now: int)
    requires WellFormed(w.tables) && r !in w.flights
    ensures var w2 := Underway(w, r, AuthNotListed(token));
            && Enabled(w2, AuthSession(r, now, false))
            && Apply(w2, AuthSession(r, now, false))
               == if SessionStands(w.tables, token.sid, now) then Underway(w, r, AuthSessionLive(token))
                  else w.(requests := w.requests + {r})
  {
    hide Apply, WellFormed, SessionStands;
    AuthReads(Underway(w, r, AuthNotListed(token)), AuthSession(r, now, false));
    BackOut(w.flights, r, AuthNotListed(token), AuthSessionLive(token));
  }

  lemma UserAlone(w: World, r: nat, token: AccessToken)
    requires WellFormed(w.tables) && r !in w.flights
    ensures var w3 := Underway(w, r, AuthSessionLive(token));
            && Enabled(w3, AuthUser(r, false))
            && Apply(w3, AuthUser(r, false))
               == w.(requests := w.requests + {r},
                     log := if UserIsActive(w, token.sid) then w.log + [Authenticated(r, token)] else w.log)
  {
    hide Apply, WellFormed, UserIsActive;
    var w3 := Underway(w, r, AuthSessionLive(token));
    AuthReads(w3, AuthUser(r, false));
    BackOut(w.flights, r, AuthSessionLive(token), AuthSessionLive(token));
    SameUser(w, w3, token.sid);
  }

  lemma BackOut(flights: map<nat, Flight>, r: nat, f: Flight, g: Flight)
    requires r !in flights
    ensures flights[r := f] - {r} == flights && flights[r := f][r := g] == flights[r := g]
  {
  }

  lemma SameStands(t: Tables, sid: string, now: int)
    ensures SessionStands(t, sid, now) == Authentication.SessionLives(t, sid, now)
  {
  }

  lemma SameUser(w: World, v: World, sid: string)
    requires v.tables == w.tables && v.inactive == w.inactive
    ensures UserIsActive(v, sid) == UserIsActive(w, sid)
  {
  }

  /**
   A refresh with nothing in between leaves the tables that the use case leaves, and reports a success
   exactly when the use case answers with tokens.
   */
  lemma RefreshAlone(w: World, d: UseCases.Desk, users: map<string, bool>, raw: string, sha: string -> string,
                     x: UseCases.Drawn, io: UseCases.Io, r: nat)
    requires Inv(w) && d.tables == w.tables && UseCases.DistinctHashes(d.tables) && !UseCases.AllWhitespace(raw)
    requires r !in w.requests && r !in w.flights && sha(x.refresh) !in w.owners && x.jti !in w.ids + w.jtis
    requires forall id :: id in w.tables.sessions ==>
               var u := w.tables.sessions[id].userId; (u in users && users[u]) <==> u !in w.inactive
    ensures var (e, reply) := UseCases.RefreshStep(d, users, raw, sha, x, io);
            var w1 := Apply(w, RefreshLookup(r, sha(raw), x.now, false));
            if r !in w1.flights then !reply.Tokens?
            else
              Enabled(w1, RefreshUser(r, false)) &&
              var w2 := Apply(w1, RefreshUser(r, false));
              if r !in w2.flights then !reply.Tokens? && e.tables == w.tables
              else
                var op := RefreshUpdate(r, sha(x.refresh), x.jti, x.now, x.now + 604800, io.write);
                && Enabled(w2, op) && Apply(w2, op).tables == e.tables
                && Apply(w2, op).log == if reply.Tokens? then w.log + [Refreshed(r, w2.flights[r].sid, sha(raw))]
                                        else w.log
  {
    hide Inv, Apply, UseCases.AllWhitespace, UseCases.DistinctHashes, UseCases.RefreshStep, UseCases.RotateFor,
      UseCases.Lookup;
    RefreshLookupReads(w, r, sha(raw), x.now, false);
    var w1 := Apply(w, RefreshLookup(r, sha(raw), x.now, false));
    if r in w1.flights {
      var id := w1.flights[r].sid;
      UseCases.LookupIsUnique(d.tables, sha(raw), x.now, id);
      InvStep(w, RefreshLookup(r, sha(raw), x.now, false));
      RefreshUserReads(w1, r, false);
      InvStep(w1, RefreshUser(r, false));
      LiveStep(d, users, raw, sha, x, io, id);
      var w2 := Apply(w1, RefreshUser(r, false));
      if r in w2.flights {
        UpdateAlone(w2, r, id, sha(raw), d, d.tables.sessions[id].userId, sha, x, io);
      }
    } else {
      NoLiveHolder(d.tables, sha(raw), x.now);
      DeadStep(d, users, raw, sha, x, io);
    }
  }

  /** The use case when its lookup answers a live session. */
  lemma LiveStep(d: UseCases.Desk, users: map<string, bool>, raw: string, sha: string -> string, x: UseCases.Drawn,
                 io: UseCases.Io, id: string)
    requires !UseCases.AllWhitespace(raw) && HoldsLive(d.tables, sha(raw), x.now, id)
    requires UseCases.Lookup(d.tables.sessions, sha(raw), x.now) == Some(Found(id, d.tables.sessions[id]))
    ensures var userId := d.tables.sessions[id].userId;
            UseCases.RefreshStep(d, users, raw, sha, x, io)
            == if userId in users && users[userId] then UseCases.RotateFor(d, id, userId, sha, x, io)
               else (d, UseCases.Rejected(401))
  {
    hide UseCases.AllWhitespace, UseCases.Lookup, UseCases.RotateFor;
  }

  lemma DeadStep(d: UseCases.Desk, users: map<string, bool>, raw: string, sha: string -> string, x: UseCases.Drawn,
                 io: UseCases.Io)
    requires var found := UseCases.Lookup(d.tables.sessions, sha(raw), x.now);
             found.Some? ==> found.value.session.revokedAt != None || found.value.session.IsExpired(x.now)
    ensures !UseCases.RefreshStep(d, users, raw, sha, x, io).1.Tokens?
  {
    hide UseCases.AllWhitespace, UseCases.Lookup, UseCases.RotateFor, RevokeAllCall;
  }

  /** The update of the protocol is the rotation of the use case. */
  lemma UpdateAlone(w: World, r: nat, id: string, hash: string, d: UseCases.Desk, userId: string,
                    sha: string -> string, x: UseCases.Drawn, io: UseCases.Io)
    requires Inv(w) && d.tables == w.tables && r in w.flights && w.flights[r] == RefreshReady(hash, id)
    requires Enabled(w, RefreshUpdate(r, sha(x.refresh), x.jti, x.now, x.now + 604800, io.write))
    ensures var (e, reply) := UseCases.RotateFor(d, id, userId, sha, x, io);
            var next := Apply(w, RefreshUpdate(r, sha(x.refresh), x.jti, x.now, x.now + 604800, io.write));
            && next.tables == e.tables
            && next.log == (if reply.Tokens? then w.log + [Refreshed(r, id, hash)] else w.log)
            && next.issued == (if reply.Tokens? then w.issued + {AccessToken(reply.sid, reply.jti)} else w.issued)
            && (reply.Tokens? ==> reply.sid == id && reply.jti == x.jti)
  {
    var op := RefreshUpdate(r, sha(x.refresh), x.jti, x.now, x.now + 604800, io.write);
    UpdateRotates(w, op);
    assert Apply(w, op) == ApplyUpdate(w, op);
    hide Inv, UpdateCall, WellFormed, Enabled, Apply;
  }

  lemma NoLiveHolder(t: Tables, hash: string, now: int)
    requires forall id :: !HoldsLive(t, hash, now, id)
    ensures var found := UseCases.Lookup(t.sessions, hash, now);
            found.Some? ==> found.value.session.revokedAt != None || found.value.session.IsExpired(now)
  {
    var found := UseCases.Lookup(t.sessions, hash, now);
    assert found.Some? ==> !HoldsLive(t, hash, now, found.value.id);
  }

  /** A sign-in is one step: its tables are those of the use case, and its token is issued if it answers with one. */
  lemma LoginAlone(w: World, d: UseCases.Desk, event: UseCases.AuditEvent, userId: string, lifetime: int,
                   sha: string -> string, x: UseCases.Drawn, io: UseCases.Io)
    requires d.tables == w.tables && x.id != ""
    requires Enabled(w, Login(userId, x.id, x.jti, sha(x.refresh), x.now, x.now + lifetime, io.InsertFault()))
    ensures var (e, reply) := UseCases.StartSession(d, event, userId, lifetime, sha, x, io);
            var next := Apply(w, Login(userId, x.id, x.jti, sha(x.refresh), x.now, x.now + lifetime, io.InsertFault()));
            && next.tables == e.tables && next.log == w.log && next.flights == w.flights
            && next.issued == (if reply.Tokens? then w.issued + {AccessToken(reply.sid, reply.jti)} else w.issued)
            && (reply.Tokens? ==> reply.sid == x.id && reply.jti == x.jti)
  {
    hide CreateCall, Guarded;
    CreateIsExact(d.tables, NewSession(userId, x.jti, sha(x.refresh), x.now, x.now + lifetime), x.id, io.InsertFault());
  }

  /** Revocations and clean-ups are one call on the tables each. */
  lemma CallsAlone(w: World, key: string, userId: string, reason: string, now: int, fault: Fault)
    ensures Apply(w, RevokeOneSession(key, reason, now, fault))
         == w.(tables := RevokeCall(w.tables, key, reason, now, fault).0)
    ensures Apply(w, RevokeAllOfUser(userId, reason, now, fault))
         == w.(tables := RevokeAllCall(w.tables, userId, reason, now, fault).0)
    ensures Apply(w, CleanupRevocations(now, fault))
         == w.(tables := if fault in {NoFault, LateFault(true)} then Cleanup(w.tables, now) else w.tables)
  {
    hide RevokeCall, RevokeAllCall, Cleanup;
  }

  // ----- Deactivation -----

  ghost predicate NotReactivated(ops: seq<Op>, userId: string) {
    forall k :: 0 <= k < |ops| ==> ops[k] != SetActive(userId, true)
  }

  ghost predicate OwnersStay(a: Tables, b: Tables) {
    forall id :: id in a.sessions ==> id in b.sessions && b.sessions[id].userId == a.sessions[id].userId
  }

  /** Rows stay and keep their user. */
  lemma OwnersStayStep(w: World, op: Op)
    requires Inv(w) && Enabled(w, op)
    ensures OwnersStay(w.tables, Apply(w, op).tables)
  {
    hide Inv, WellFormed;
    match op {
      case Login(_, _, _, _, _, _, _) => LoginRows(w, op);
      case RefreshUpdate(_, _, _, _, _, _) => UpdateRotates(w, op);
      case _ =>
    }
    hide Find, FindIn, WithListed, IsTokenRevoked, SessionIsLive, LiveHolder, UserInactive;
  }

  /** No session of this user is authenticated from here on. */
  ghost predicate OthersOnly(log: seq<Event>, from: nat, t: Tables, userId: string) {
    forall k :: from <= k < |log| && log[k].Authenticated? && log[k].token.sid in t.sessions ==>
      t.sessions[log[k].token.sid].userId != userId
  }

  lemma InactiveStep(w: World, op: Op, userId: string)
    requires Inv(w) && Enabled(w, op) && userId in w.inactive && op != SetActive(userId, true)
    ensures userId in Apply(w, op).inactive
    ensures w.log <= Apply(w, op).log && OthersOnly(Apply(w, op).log, |w.log|, w.tables, userId)
  {
    hide Inv, LiveHolder, SessionIsLive, IsTokenRevoked, CreateCall, UpdateCall, RevokeCall, RevokeAllCall;
  }

  lemma OthersJoin(log: seq<Event>, mid: nat, from: nat, a: Tables, b: Tables, userId: string)
    requires from <= mid <= |log| && OwnersStay(a, b)
    requires OthersOnly(log[..mid], from, a, userId) && OthersOnly(log, mid, b, userId)
    ensures OthersOnly(log, from, a, userId)
  {
    assert forall k :: 0 <= k < mid ==> log[..mid][k] == log[k];
  }

  /**
   Once a user is deactivated, and until somebody activates the account again, no request is
   authenticated for any session the user has: whatever was under way, interleaved or failing.
   */
  lemma {:induction false} InactiveIsRefused(w: World, ops: seq<Op>, userId: string)
    requires Inv(w) && Legal(w, ops) && userId in w.inactive && NotReactivated(ops, userId)
    ensures w.log <= Run(w, ops).log && OthersOnly(Run(w, ops).log, |w.log|, w.tables, userId)
    decreases |ops|
  {
    hide Inv, Enabled, Apply, OthersOnly, OwnersStay;
    if ops == [] {
      NobodySince(w.log, w.tables, userId);
    } else {
      var next := Apply(w, ops[0]);
      InactiveStep(w, ops[0], userId);
      OwnersStayStep(w, ops[0]);
      InvStep(w, ops[0]);
      assert forall k :: 0 <= k < |ops[1..]| ==> ops[1..][k] == ops[k + 1];
      InactiveIsRefused(next, ops[1..], userId);
      var log := Run(w, ops).log;
      assert log[..|next.log|] == next.log;
      OthersJoin(log, |next.log|, |w.log|, w.tables, next.tables, userId);
    }
  }

  lemma NobodySince(log: seq<Event>, t: Tables, userId: string)
    ensures OthersOnly(log, |log|, t, userId)
  {
  }
}
