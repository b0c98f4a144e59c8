/**
 PostgresCacheRepository.cpp and the PKCE state that AuthUseCases.cpp keeps in it (section 4 of
 RFC 7636). One clock; every call is one step.
 */
module PkceCache {
  import opened Wrappers
  import opened Transactions
  import AuthUrl

  /** One row of `cache_store` under its key. */
  datatype Entry = Entry(value: string, ttl: int, expiresAt: int)

  type Cache = map<string, Entry>

  const MAX_KEY := 255
  const PREFIX := "pkce:state:"
  const STATE_TTL := 600

  predicate IsLive(c: Cache, key: string, now: int) { key in c && c[key].expiresAt > now }

  /** The answer's own expiry is counted from now, not from the row. */
  function Get(c: Cache, key: string, now: int): Option<Entry> {
    if IsLive(c, key, now) then Some(c[key].(expiresAt := now + c[key].ttl)) else None
  }

  /** A key longer than its column is an error that only gets logged. */
  function Set(c: Cache, key: string, value: string, ttl: int, now: int): Cache {
    if |key| > MAX_KEY then c else c[key := Entry(value, ttl, now + ttl)]
  }

  function CleanupExpired(c: Cache, now: int): Cache {
    map key | key in c && c[key].expiresAt > now :: c[key]
  }

  class PostgresCacheRepository {
    var store: Cache

    constructor ()
      ensures store == map[]
    {
      store := map[];
    }

    method Lookup(key: string, now: int, fails: bool) returns (entry: Option<Entry>)
      ensures entry == if fails then None else Get(store, key, now)
    {
      if fails || key !in store || store[key].expiresAt <= now { return None; }
      entry := Some(Entry(store[key].value, store[key].ttl, now + store[key].ttl));
    }

    method Store(key: string, value: string, ttl: int, now: int, fault: Fault)
      modifies this
      ensures store == Settle(old(store), Set(old(store), key, value, ttl, now), fault)
    {
      if fault.EarlyFault? || |key| > MAX_KEY { return; }
      if fault.NoFault? || fault.applied {
        store := store[key := Entry(value, ttl, now + ttl)];
      }
    }

    method Remove(key: string, fault: Fault) returns (removed: bool)
      modifies this
      ensures store == Settle(old(store), old(store) - {key}, fault)
      ensures removed == (fault.NoFault? && key in old(store))
    {
      removed := false;
      if fault.EarlyFault? { return; }
      removed := fault.NoFault? && key in store;
      if fault.NoFault? || fault.applied {
        store := store - {key};
      }
    }

    method Cleanup(now: int, fault: Fault) returns (count: nat)
      modifies this
      ensures store == Settle(old(store), CleanupExpired(old(store), now), fault)
      ensures count == if fault.NoFault? then |set key | key in old(store) && key !in store| else 0
    {
      count := 0;
      if fault.EarlyFault? { return; }
      var gone := set key | key in store && store[key].expiresAt <= now;
      if fault.NoFault? {
        count := |gone|;
      }
      ghost var before := store;
      if fault.NoFault? || fault.applied {
        store := map key | key in store && store[key].expiresAt > now :: store[key];
        assert gone == set key | key in before && key !in store;
      }
    }
  }

  datatype Answer = Exchange(verifier: string) | InvalidState

  /** The lookup. The check `isExpired` looks at an expiry that was just counted from now. */
  function LookUp(c: Cache, state: string, now: int, fails: bool): Option<string> {
    var cached := if fails then None else Get(c, PREFIX + state, now);
    if cached.None? || now > cached.value.expiresAt then None else Some(cached.value.value)
  }

  /** The removal deletes whatever is under the key by then. */
  function Removed(c: Cache, state: string, fault: Fault): Cache { Settle(c, c - {PREFIX + state}, fault) }

  function Resolve(c: Cache, state: string, now: int, getFails: bool, removal: Fault): (Cache, Answer) {
    match LookUp(c, state, now, getFails)
    case None => (c, InvalidState)
    case Some(verifier) => (Removed(c, state, removal), Exchange(verifier))
  }

  // ----- What the cache and a callback do -----

  /** A row is found while it is live, as it was stored; its answer's expiry is counted anew. */
  lemma GetIsExact(c: Cache, key: string, now: int)
    ensures Get(c, key, now).Some? <==> key in c && now < c[key].expiresAt
    ensures Get(c, key, now).Some? ==> Get(c, key, now).value == Entry(c[key].value, c[key].ttl, now + c[key].ttl)
  {
  }

  /** Storing writes one row that lives for its ttl, or nothing if the key is longer than 255. */
  lemma SetIsExact(c: Cache, key: string, value: string, ttl: int, now: int)
    ensures var next := Set(c, key, value, ttl, now);
            if |key| > 255 then next == c
            else
              && next.Keys == c.Keys + {key} && next[key] == Entry(value, ttl, now + ttl)
              && forall other :: other in c && other != key ==> next[other] == c[other]
  {
  }

  lemma CleanupIsExact(c: Cache, now: int, key: string)
    ensures key in CleanupExpired(c, now) <==> key in c && now < c[key].expiresAt
    ensures key in CleanupExpired(c, now) ==> CleanupExpired(c, now)[key] == c[key]
  {
  }

  /** A verifier stored for a state is found under that state for 600 seconds, and under no other because of it. */
  lemma FoundForTenMinutes(c: Cache, state: string, verifier: string, at: int, other: string, now: int, fails: bool)
    requires |state| <= 244
    ensures var stored := Set(c, PREFIX + state, verifier, STATE_TTL, at);
            && LookUp(stored, state, now, false) == (if now < at + 600 then Some(verifier) else None)
            && (other != state ==> LookUp(stored, other, now, fails) == LookUp(c, other, now, fails))
            && LookUp(stored, state, now, true) == None
  {
    PrefixIsInjective(state, other);
  }

  /**
   A callback exchanges what is stored and live under its state, and takes exactly that row out if its
   removal is applied; otherwise, and on an invalid state, nothing changes.
   */
  lemma ResolveIsExact(c: Cache, state: string, now: int, getFails: bool, removal: Fault)
    ensures var (next, answer) := Resolve(c, state, now, getFails, removal);
            var key := "pkce:state:" + state;
            && (answer.Exchange? <==> !getFails && key in c && now < c[key].expiresAt && c[key].ttl >= 0)
            && (answer.Exchange? ==> answer.verifier == c[key].value)
            && (if answer.Exchange? && removal in {NoFault, LateFault(true)}
                then && next.Keys == c.Keys - {key}
                     && forall other :: other in c && other != key ==> next[other] == c[other]
                else next == c)
  {
  }

  /** After a callback whose removal was applied, the state is invalid for every other callback. */
  lemma SecondCallbackIsRefused(
    c: Cache, state: string, now: int, removal: Fault, later: int, getFails: bool, again: Fault)
    requires Resolve(c, state, now, false, removal).1.Exchange? && removal in {NoFault, LateFault(true)}
    ensures var next := Resolve(c, state, now, false, removal).0;
            Resolve(next, state, later, getFails, again) == (next, InvalidState)
  {
  }

  datatype GoogleAuthUrl = GoogleAuthUrl(url: string, state: string, verifier: string, challenge: string)

  class GoogleStates {
    const cacheRepo: PostgresCacheRepository
    const clientId: seq<byte>
    const redirectUri: seq<byte>
    const sha256: string -> seq<byte>

    constructor (cacheRepo: PostgresCacheRepository, clientId: seq<byte>, redirectUri: seq<byte>,
                 sha256: string -> seq<byte>)
      ensures this.cacheRepo == cacheRepo && this.clientId == clientId && this.redirectUri == redirectUri
      ensures this.sha256 == sha256
    {
      this.cacheRepo, this.clientId, this.redirectUri, this.sha256 := cacheRepo, clientId, redirectUri, sha256;
    }

    /** An empty state is replaced by a generated one; the verifier is cached whatever becomes of it. */
    method GetGoogleAuthUrl(state: string, generated: string, random: seq<byte>, now: int, fault: Fault)
      returns (answer: GoogleAuthUrl)
      requires AuthUrl.AllOctets(state) && AuthUrl.AllOctets(generated) && |random| == 64
      modifies cacheRepo
      ensures answer.state == if state == "" then generated else state
      ensures |answer.verifier| == 64
      ensures forall i :: 0 <= i < 64 ==> answer.verifier[i] == AuthUrl.VerifierChar(random[i])
      ensures answer.challenge == AuthUrl.CodeChallenge(sha256, answer.verifier) && AuthUrl.AllOctets(answer.challenge)
      ensures answer.url ==
              AuthUrl.Url(clientId, redirectUri, AuthUrl.Octets(answer.state), AuthUrl.Octets(answer.challenge))
      ensures var before := old(cacheRepo.store);
              cacheRepo.store ==
              Settle(before, Set(before, PREFIX + answer.state, answer.verifier, STATE_TTL, now), fault)
    {
      hide AuthUrl.Url, AuthUrl.Octets, AuthUrl.AllOctets, AuthUrl.CodeChallenge, AuthUrl.VerifierChar;
      var finalState := if state == "" then generated else state;
      var verifier := AuthUrl.GenerateCodeVerifier(random);
      var challenge := AuthUrl.CodeChallenge(sha256, verifier);
      AuthUrl.ChallengeIsOctets(sha256, verifier);
      cacheRepo.Store(PREFIX + finalState, verifier, STATE_TTL, now, fault);
      var stateText, challengeText := AuthUrl.Octets(finalState), AuthUrl.Octets(challenge);
      var url := AuthUrl.GetAuthorizationUrl(clientId, redirectUri, stateText, challengeText);
      answer := GoogleAuthUrl(url, finalState, verifier, challenge);
    }

    /** The part of `loginWithGoogle` that finds the verifier of a code sent without one. */
    method ResolveVerifier(state: string, now: int, getFails: bool, removal: Fault) returns (answer: Answer)
      modifies cacheRepo
      ensures (cacheRepo.store, answer) == Resolve(old(cacheRepo.store), state, now, getFails, removal)
    {
      var cached := cacheRepo.Lookup(PREFIX + state, now, getFails);
      if cached.Some? && !(now > cached.value.expiresAt) {
        answer := Exchange(cached.value.value);
        var removed := cacheRepo.Remove(PREFIX + state, removal);
      } else {
        answer := InvalidState;
      }
    }
  }

  // ----- Runs -----

  /**
   A callback is two transactions, a lookup and a removal; the exchange follows the removal
   whatever that answers. `Taken` is the lookup that found a verifier.
   */
  datatype Event =
    | Issued(state: string, verifier: string, at: int)
    | Taken(request: nat, state: string, verifier: string, at: int)
    | Exchanged(request: nat, state: string, verifier: string)

  /** A callback between its lookup and its removal. */
  datatype Flight = Flight(state: string, verifier: string)

  datatype World = World(cache: Cache, now: int, requests: set<nat>, flights: map<nat, Flight>, log: seq<Event>)

  function Start(now: int): World { World(map[], now, {}, map[], []) }

  datatype Op =
    | IssueUrl(state: string, verifier: string, now: int, fault: Fault)
    | CallbackLookup(request: nat, state: string, now: int, fails: bool)
    | CallbackRemoval(request: nat, now: int, fault: Fault)
    | Cleanup(now: int, fault: Fault)
    | OtherWrite(key: string, value: Option<string>, ttl: int, now: int)   // None removes

  predicate WasIssued(log: seq<Event>, verifier: string) {
    exists k :: 0 <= k < |log| && log[k].Issued? && log[k].verifier == verifier
  }

  /** Time does not run back, verifiers are new, and nobody else writes under the prefix. */
  predicate Enabled(w: World, op: Op) {
    && w.now <= op.now
    && (op.IssueUrl? ==> !WasIssued(w.log, op.verifier))
    && (op.CallbackLookup? ==> op.request !in w.requests)
    && (op.CallbackRemoval? ==> op.request in w.flights)
    && (op.OtherWrite? ==> !(PREFIX <= op.key))
  }

  function Apply(w: World, op: Op): World
    requires Enabled(w, op)
  {
    var w := w.(now := op.now);
    match op
    case IssueUrl(state, verifier, now, fault) =>
      w.(cache := Settle(w.cache, Set(w.cache, PREFIX + state, verifier, STATE_TTL, now), fault),
         log := w.log + [Issued(state, verifier, now)])
    case CallbackLookup(request, state, now, fails) =>
      var w := w.(requests := w.requests + {request});
      match LookUp(w.cache, state, now, fails) {
        case None => w
        case Some(verifier) =>
          w.(flights := w.flights[request := Flight(state, verifier)],
             log := w.log + [Taken(request, state, verifier, now)])
      }
    case CallbackRemoval(request, now, fault) =>
      var f := w.flights[request];
      w.(cache := Removed(w.cache, f.state, fault), flights := w.flights - {request},
         log := w.log + [Exchanged(request, f.state, f.verifier)])
    case Cleanup(now, fault) => w.(cache := Settle(w.cache, CleanupExpired(w.cache, now), fault))
    case OtherWrite(key, value, ttl, now) =>
      w.(cache := if value.Some? then Set(w.cache, key, value.value, ttl, now) else w.cache - {key})
  }

  predicate Legal(w: World, ops: seq<Op>)
    decreases |ops|
  {
    ops == [] || (Enabled(w, ops[0]) && Legal(Apply(w, ops[0]), ops[1..]))
  }

  function Run(w: World, ops: seq<Op>): World
    requires Legal(w, ops)
    decreases |ops|
  {
    if ops == [] then w else Run(Apply(w, ops[0]), ops[1..])
  }

  /** A callback of one request without others in between is the two steps of a run. */
  lemma ResolveIsTheTwoSteps(w: World, request: nat, state: string, now: int, getFails: bool, removal: Fault)
    requires Enabled(w, CallbackLookup(request, state, now, getFails)) && request !in w.flights
    ensures var mid := Apply(w, CallbackLookup(request, state, now, getFails));
            match Resolve(w.cache, state, now, getFails, removal).1
            case InvalidState => mid == w.(now := now, requests := w.requests + {request})
            case Exchange(verifier) =>
              && Enabled(mid, CallbackRemoval(request, now, removal))
              && Apply(mid, CallbackRemoval(request, now, removal))
                 == w.(now := now, requests := w.requests + {request},
                       cache := Resolve(w.cache, state, now, getFails, removal).0,
                       log := w.log + [Taken(request, state, verifier, now), Exchanged(request, state, verifier)])
  {
    if LookUp(w.cache, state, now, getFails).Some? {
      var verifier := LookUp(w.cache, state, now, getFails).value;
      assert w.log + [Taken(request, state, verifier, now)] + [Exchanged(request, state, verifier)]
          == w.log + [Taken(request, state, verifier, now), Exchanged(request, state, verifier)];
      assert w.flights[request := Flight(state, verifier)] - {request} == w.flights;
    }
    hide LookUp, Removed;
  }

  /** What the steps other than a callback's do to the cache, row by row. */
  lemma OtherSteps(w: World, op: Op, key: string)
    requires Enabled(w, op) && !op.CallbackLookup? && !op.CallbackRemoval?
    ensures var next := Apply(w, op).cache;
            match op
            case IssueUrl(state, verifier, now, fault) =>
              if key == "pkce:state:" + state && |key| <= 255 && fault in {NoFault, LateFault(true)}
              then key in next && next[key] == Entry(verifier, 600, now + 600)
              else SameRow(w.cache, next, key)
            case Cleanup(now, fault) =>
              if fault in {NoFault, LateFault(true)} && key in w.cache && w.cache[key].expiresAt <= now
              then key !in next else SameRow(w.cache, next, key)
            case OtherWrite(written, value, ttl, now) =>
              if key != written || (value.Some? && |key| > 255) then SameRow(w.cache, next, key)
              else if value.Some? then key in next && next[key] == Entry(value.value, ttl, now + ttl)
              else key !in next
            case _ => true
  {
  }

  predicate SameRow(a: Cache, b: Cache, key: string) {
    (key in a <==> key in b) && (key in a && key in b ==> a[key] == b[key])
  }

  /** A state that is out of the cache stays invalid over every run that issues no URL for it. */
  lemma {:induction false} InvalidUntilIssued(w: World, ops: seq<Op>, state: string)
    requires Legal(w, ops) && PREFIX + state !in w.cache
    requires forall k :: 0 <= k < |ops| ==> !(ops[k].IssueUrl? && ops[k].state == state)
    ensures forall now, fails, removal ::
              Resolve(Run(w, ops).cache, state, now, fails, removal) == (Run(w, ops).cache, InvalidState)
    ensures PREFIX + state !in Run(w, ops).cache
    decreases |ops|
  {
    hide Apply, Enabled, Resolve, PREFIX;
    if ops != [] {
      StaysOut(w, ops[0], state);
      assert forall k :: 0 <= k < |ops[1..]| ==> ops[1..][k] == ops[k + 1];
      InvalidUntilIssued(Apply(w, ops[0]), ops[1..], state);
    } else {
      forall now, fails, removal
        ensures Resolve(w.cache, state, now, fails, removal) == (w.cache, InvalidState)
      {
        OutIsInvalid(w.cache, state, now, fails, removal);
      }
    }
  }

  lemma OutIsInvalid(c: Cache, state: string, now: int, fails: bool, removal: Fault)
    requires PREFIX + state !in c
    ensures Resolve(c, state, now, fails, removal) == (c, InvalidState)
  {
  }

  lemma StaysOut(w: World, op: Op, state: string)
    requires Enabled(w, op) && PREFIX + state !in w.cache && !(op.IssueUrl? && op.state == state)
    ensures PREFIX + state !in Apply(w, op).cache
  {
    if PREFIX + state in Apply(w, op).cache {
      RowsUnderPrefix(w, op, state);
    }
  }

  // ----- Only for its state, and in time -----

  /** Issued for this state at a moment that fits the row. */
  ghost predicate IssuedFor(log: seq<Event>, state: string, e: Entry) {
    exists at :: Issued(state, e.value, at) in log && e.expiresAt == at + STATE_TTL && e.ttl == STATE_TTL
  }

  ghost predicate CacheKnown(w: World) {
    forall state: string :: PREFIX + state in w.cache ==> IssuedFor(w.log, state, w.cache[PREFIX + state])
  }

  /** A verifier is issued once, and nothing happened later than now. */
  ghost predicate IssuedOnce(w: World) {
    && (forall j, k :: 0 <= j < k < |w.log| && w.log[j].Issued? && w.log[k].Issued? ==>
          w.log[j].verifier != w.log[k].verifier)
    && (forall k :: 0 <= k < |w.log| && w.log[k].Issued? ==> w.log[k].at <= w.now)
  }

  ghost predicate InTime(log: seq<Event>, state: string, verifier: string, now: int) {
    exists at :: Issued(state, verifier, at) in log && at <= now < at + STATE_TTL
  }

  /** Every verifier taken was issued for that very state, less than ten minutes before. */
  ghost predicate AllInTime(log: seq<Event>) {
    forall k :: 0 <= k < |log| && log[k].Taken? ==> InTime(log, log[k].state, log[k].verifier, log[k].at)
  }

  ghost predicate WasTaken(log: seq<Event>, request: nat, state: string, verifier: string) {
    exists k :: 0 <= k < |log| && log[k].Taken? && log[k].request == request && log[k].state == state
                && log[k].verifier == verifier
  }

  /** What is in flight or exchanged was taken by the same request. */
  ghost predicate TakenFirst(w: World) {
    && (forall r :: r in w.flights ==> WasTaken(w.log, r, w.flights[r].state, w.flights[r].verifier))
    && (forall k :: 0 <= k < |w.log| && w.log[k].Exchanged? ==>
          WasTaken(w.log, w.log[k].request, w.log[k].state, w.log[k].verifier))
  }

  ghost predicate Inv(w: World) {
    CacheKnown(w) && IssuedOnce(w) && AllInTime(w.log) && TakenFirst(w)
  }

  lemma PrefixIsInjective(a: string, b: string)
    ensures PREFIX + a == PREFIX + b ==> a == b
  {
    assert (PREFIX + a)[|PREFIX|..] == a && (PREFIX + b)[|PREFIX|..] == b;
  }

  lemma LogGrows(w: World, op: Op)
    requires Enabled(w, op)
    ensures w.log <= Apply(w, op).log && |Apply(w, op).log| <= |w.log| + 1
  {
  }

  lemma StillInTime(log: seq<Event>, more: seq<Event>)
    requires log <= more && AllInTime(log)
    requires forall k :: |log| <= k < |more| && more[k].Taken? ==>
               InTime(log, more[k].state, more[k].verifier, more[k].at)
    ensures AllInTime(more)
  {
    forall k | 0 <= k < |more| && more[k].Taken?
      ensures InTime(more, more[k].state, more[k].verifier, more[k].at)
    {
      assert k < |log| ==> more[k] == log[k];
      assert InTime(log, more[k].state, more[k].verifier, more[k].at);
      var at :| Issued(more[k].state, more[k].verifier, at) in log && at <= more[k].at < at + STATE_TTL;
      assert Issued(more[k].state, more[k].verifier, at) in more;
    }
  }

  lemma StillIssued(log: seq<Event>, more: seq<Event>, state: string, e: Entry)
    requires log <= more && IssuedFor(log, state, e)
    ensures IssuedFor(more, state, e)
  {
    var at :| Issued(state, e.value, at) in log && e.expiresAt == at + STATE_TTL && e.ttl == STATE_TTL;
    assert Issued(state, e.value, at) in more;
  }

  lemma StillTaken(log: seq<Event>, more: seq<Event>, request: nat, state: string, verifier: string)
    requires log <= more && WasTaken(log, request, state, verifier)
    ensures WasTaken(more, request, state, verifier)
  {
    var k :| 0 <= k < |log| && log[k].Taken? && log[k].request == request && log[k].state == state
             && log[k].verifier == verifier;
    assert more[k] == log[k];
  }

  /** What a step leaves under a state's key: the row as it was, or the one just issued. */
  lemma RowsUnderPrefix(w: World, op: Op, state: string)
    requires Enabled(w, op) && PREFIX + state in Apply(w, op).cache
    ensures var key := PREFIX + state;
            || (key in w.cache && Apply(w, op).cache[key] == w.cache[key])
            || (op.IssueUrl? && op.state == state
                && Apply(w, op).cache[key] == Entry(op.verifier, STATE_TTL, op.now + STATE_TTL))
  {
    if op.IssueUrl? {
      PrefixIsInjective(state, op.state);
    }
    assert op.OtherWrite? ==> PREFIX + state != op.key;
  }

  lemma CacheKnownStep(w: World, op: Op)
    requires CacheKnown(w) && Enabled(w, op)
    ensures CacheKnown(Apply(w, op))
  {
    var next := Apply(w, op);
    LogGrows(w, op);
    forall state: string | PREFIX + state in next.cache
      ensures IssuedFor(next.log, state, next.cache[PREFIX + state])
    {
      RowsUnderPrefix(w, op, state);
      if PREFIX + state in w.cache && next.cache[PREFIX + state] == w.cache[PREFIX + state] {
        StillIssued(w.log, next.log, state, w.cache[PREFIX + state]);
      } else {
        assert next.log[|w.log|] == Issued(state, op.verifier, op.now);
      }
    }
  }

  /** A lookup finds a verifier exactly when its row is live. */
  lemma LookUpFinds(c: Cache, state: string, now: int, fails: bool)
    requires PREFIX + state in c ==> c[PREFIX + state].ttl == STATE_TTL
    ensures LookUp(c, state, now, fails) ==
            if !fails && IsLive(c, PREFIX + state, now) then Some(c[PREFIX + state].value) else None
  {
  }

  lemma TakesInTime(w: World, op: Op)
    requires Inv(w) && Enabled(w, op) && op.CallbackLookup? && LookUp(w.cache, op.state, op.now, op.fails).Some?
    ensures InTime(w.log, op.state, LookUp(w.cache, op.state, op.now, op.fails).value, op.now)
  {
    var e := w.cache[PREFIX + op.state];
    assert IssuedFor(w.log, op.state, e);
    var at :| Issued(op.state, e.value, at) in w.log && e.expiresAt == at + STATE_TTL;
    var k :| 0 <= k < |w.log| && w.log[k] == Issued(op.state, e.value, at);
    assert w.log[k].at <= w.now;
  }

  lemma TakenFirstStep(w: World, op: Op)
    requires TakenFirst(w) && Enabled(w, op)
    ensures TakenFirst(Apply(w, op))
  {
    var next := Apply(w, op);
    LogGrows(w, op);
    forall r, state, verifier | WasTaken(w.log, r, state, verifier)
      ensures WasTaken(next.log, r, state, verifier)
    {
      StillTaken(w.log, next.log, r, state, verifier);
    }
    forall r | r in next.flights
      ensures WasTaken(next.log, r, next.flights[r].state, next.flights[r].verifier)
    {
      if r !in w.flights || next.flights[r] != w.flights[r] {
        assert next.log[|w.log|].Taken?;
      }
    }
    forall k | 0 <= k < |next.log| && next.log[k].Exchanged?
      ensures WasTaken(next.log, next.log[k].request, next.log[k].state, next.log[k].verifier)
    {
      assert k < |w.log| ==> next.log[k] == w.log[k];
    }
  }

  lemma IssuedOnceStep(w: World, op: Op)
    requires IssuedOnce(w) && Enabled(w, op)
    ensures IssuedOnce(Apply(w, op))
  {
    LogGrows(w, op);
    hide Settle, Set, LookUp, Removed;
  }

  lemma InTimeStep(w: World, op: Op)
    requires Inv(w) && Enabled(w, op)
    ensures AllInTime(Apply(w, op).log)
  {
    LogGrows(w, op);
    if op.CallbackLookup? && LookUp(w.cache, op.state, op.now, op.fails).Some? {
      TakesInTime(w, op);
    }
    StillInTime(w.log, Apply(w, op).log);
  }

  lemma InvStep(w: World, op: Op)
    requires Inv(w) && Enabled(w, op)
    ensures Inv(Apply(w, op))
  {
    CacheKnownStep(w, op);
    IssuedOnceStep(w, op);
    InTimeStep(w, op);
    TakenFirstStep(w, op);
    hide CacheKnown, IssuedOnce, AllInTime, TakenFirst, Apply, Enabled;
  }

  lemma {:induction false} InvRun(w: World, ops: seq<Op>)
    requires Inv(w) && Legal(w, ops)
    ensures Inv(Run(w, ops))
    decreases |ops|
  {
    hide Inv, Enabled, Apply;
    if ops != [] {
      InvStep(w, ops[0]);
      InvRun(Apply(w, ops[0]), ops[1..]);
    }
  }

  /**
   Over every run, interleaved and failing: a verifier reaches its exchange only with the state it
   was issued for, and only if the lookup came within 600 seconds.
   */
  lemma VerifierReachesItsStateInTime(now: int, ops: seq<Op>)
    requires Legal(Start(now), ops)
    ensures var log := Run(Start(now), ops).log;
            forall k :: 0 <= k < |log| && log[k].Exchanged? ==>
              exists at, issued ::
                && Taken(log[k].request, log[k].state, log[k].verifier, at) in log
                && Issued(log[k].state, log[k].verifier, issued) in log && issued <= at < issued + 600
  {
    InvRun(Start(now), ops);
    var log := Run(Start(now), ops).log;
    forall k | 0 <= k < |log| && log[k].Exchanged?
      ensures exists at, issued ::
                && Taken(log[k].request, log[k].state, log[k].verifier, at) in log
                && Issued(log[k].state, log[k].verifier, issued) in log && issued <= at < issued + 600
    {
      assert WasTaken(log, log[k].request, log[k].state, log[k].verifier);
      var j :| 0 <= j < |log| && log[j].Taken? && log[j].request == log[k].request && log[j].state == log[k].state
               && log[j].verifier == log[k].verifier;
      assert InTime(log, log[j].state, log[j].verifier, log[j].at);
      var issued :| Issued(log[j].state, log[j].verifier, issued) in log && issued <= log[j].at < issued + STATE_TTL;
      assert log[j] == Taken(log[k].request, log[k].state, log[k].verifier, log[j].at);
    }
  }
}
