/**
 PostgresUserRepository.cpp and the account part of AuthUseCases.cpp: registration, sign-in with
 Google, and adding a password. `lower` is the database's LOWER, `hashPassword` never answers "".
 */
module Accounts {
  import opened Wrappers
  import opened Transactions

  datatype User = User(
    email: string, password: Option<string>, googleId: Option<string>, provider: string,
    avatar: Option<string>, active: bool)

  type Users = map<string, User>

  /** `x IS NOT NULL AND x != ''` */
  predicate Given(x: Option<string>) { x.Some? && x.value != "" }

  function NonEmpty(s: string): Option<string> { if s == "" then None else Some(s) }

  /** What `auth_provider` should say. */
  function ProviderOf(hasPassword: bool, hasGoogle: bool): string {
    if hasPassword && hasGoogle then "local+google" else if hasGoogle then "google" else "local"
  }

  // ----- The statements -----

  ghost function EmailHolder(t: Users, email: string): (found: Option<string>)
    ensures found.Some? ==> found.value in t && t[found.value].email == email
    ensures found.None? ==> forall id :: id in t ==> t[id].email != email
  {
    if id :| id in t && t[id].email == email then Some(id) else None
  }

  ghost function GoogleIdHolder(t: Users, googleId: string): (found: Option<string>)
    ensures found.Some? ==> found.value in t && t[found.value].googleId == Some(googleId)
    ensures found.None? ==> forall id :: id in t ==> t[id].googleId != Some(googleId)
  {
    if id :| id in t && t[id].googleId == Some(googleId) then Some(id) else None
  }

  /** The unique indexes on LOWER(email) and google_id. */
  predicate Conflicts(t: Users, lower: string -> string, user: User) {
    exists id :: id in t && (lower(t[id].email) == lower(user.email)
                             || (user.googleId.Some? && t[id].googleId == user.googleId))
  }

  function Create(t: Users, lower: string -> string, user: User, newId: string): (Users, string) {
    if Conflicts(t, lower, user) then (t, "")
    else (t[newId := user.(provider := if user.provider == "" then "local" else user.provider)], newId)
  }

  predicate TakenByOther(t: Users, userId: string, googleId: string) {
    exists id :: id in t && id != userId && t[id].googleId == Some(googleId)
  }

  function LinkGoogleAccount(t: Users, userId: string, googleId: string, avatar: string): (Users, bool) {
    if userId !in t || TakenByOther(t, userId, googleId) then (t, false)
    else
      var u := t[userId];
      (t[userId := u.(googleId := Some(googleId),
                      provider := if Given(u.password) then "local+google" else "google",
                      avatar := if avatar == "" then u.avatar else Some(avatar))], true)
  }

  function SetPassword(t: Users, userId: string, hash: string): (Users, bool) {
    if userId !in t then (t, false)
    else
      var u := t[userId];
      (t[userId := u.(password := Some(hash),
                      provider := if Given(u.googleId) then "local+google" else "local")], true)
  }

  // ----- The use cases, when nothing fails -----

  datatype Profile = Profile(googleId: string, email: string, picture: string)

  datatype Outcome = Rejected(status: int) | SignedIn(id: string)

  function LocalUser(email: string, hash: string): User {
    User(email, Some(hash), None, "", None, true)
  }

  function GoogleUser(p: Profile): User {
    User(p.email, None, Some(p.googleId), "google", NonEmpty(p.picture), true)
  }

  ghost function RegisterStep(
    t: Users, lower: string -> string, valid: bool, email: string, hash: string, newId: string
  ): (Users, Outcome)
  {
    if !valid then (t, Rejected(400))
    else if EmailHolder(t, email).Some? then (t, Rejected(409))
    else
      var (next, id) := Create(t, lower, LocalUser(email, hash), newId);
      (next, if id == "" then Rejected(500) else SignedIn(id))
  }

  ghost function GoogleStep(t: Users, lower: string -> string, p: Profile, newId: string): (Users, Outcome) {
    match GoogleIdHolder(t, p.googleId)
    case Some(id) => (t, Admit(t, id))
    case None =>
      match EmailHolder(t, p.email)
      case Some(id) =>
        var next := LinkGoogleAccount(t, id, p.googleId, p.picture).0;
        (next, Admit(next, id))
      case None =>
        var (next, id) := Create(t, lower, GoogleUser(p), newId);
        (next, if id == "" then Rejected(500) else Admit(next, id))
  }

  function Admit(t: Users, id: string): Outcome {
    if id in t && t[id].active then SignedIn(id) else Rejected(403)
  }

  function PasswordStep(t: Users, userId: string, password: string, hashPassword: string -> string): (Users, Outcome) {
    if |password| < 8 then (t, Rejected(400))
    else if userId !in t then (t, Rejected(404))
    else
      var (next, ok) := SetPassword(t, userId, hashPassword(password));
      (next, if ok then SignedIn(userId) else Rejected(500))
  }

  // ----- The classes -----

  class PostgresUserRepository {
    var users: Users
    const lower: string -> string

    constructor (lower: string -> string)
      ensures users == map[] && this.lower == lower
    {
      users := map[];
      this.lower := lower;
    }

    method FindByEmail(email: string, fails: bool) returns (found: Option<string>)
      requires DistinctUsers(users)
      ensures found == if fails then None else EmailHolder(users, email)
    {
      if fails { return None; }
      if id :| id in users && users[id].email == email { return Some(id); }
      found := None;
    }

    method FindByGoogleId(googleId: string, fails: bool) returns (found: Option<string>)
      requires DistinctUsers(users)
      ensures found == if fails then None else GoogleIdHolder(users, googleId)
    {
      if fails { return None; }
      if id :| id in users && users[id].googleId == Some(googleId) { return Some(id); }
      found := None;
    }

    /** The id is read before the commit, so a late fault still answers with it. */
    method CreateUser(user: User, newId: string, fault: Fault) returns (id: string)
      modifies this`users
      ensures users == Settle(old(users), Create(old(users), lower, user, newId).0, fault)
      ensures id == if fault.EarlyFault? then "" else Create(old(users), lower, user, newId).1
    {
      id := "";
      if fault.EarlyFault? || Conflicts(users, lower, user) { return; }
      id := newId;
      if fault.NoFault? || fault.applied {
        users := users[newId := user.(provider := if user.provider == "" then "local" else user.provider)];
      }
    }

    method LinkAccount(userId: string, googleId: string, avatar: string, fault: Fault) returns (ok: bool)
      modifies this`users
      ensures users == Settle(old(users), LinkGoogleAccount(old(users), userId, googleId, avatar).0, fault)
      ensures ok == (fault.NoFault? && LinkGoogleAccount(old(users), userId, googleId, avatar).1)
    {
      if fault.EarlyFault? || userId !in users || TakenByOther(users, userId, googleId) { return false; }
      if fault.NoFault? || fault.applied {
        var u := users[userId];
        users := users[userId := u.(googleId := Some(googleId),
        provider := if Given(u.password) then "local+google" else "google",
        avatar := if avatar == "" then u.avatar else Some(avatar))];
      }
      ok := fault.NoFault?;
    }

    method StorePassword(userId: string, hash: string, fault: Fault) returns (ok: bool)
      modifies this`users
      ensures users == Settle(old(users), SetPassword(old(users), userId, hash).0, fault)
      ensures ok == (fault.NoFault? && SetPassword(old(users), userId, hash).1)
    {
      if fault.EarlyFault? || userId !in users { return false; }
      if fault.NoFault? || fault.applied {
        var u := users[userId];
        users := users[userId := u.(password := Some(hash),
        provider := if Given(u.googleId) then "local+google" else "local")];
      }
      ok := fault.NoFault?;
    }
  }

  class AccountUseCases {
    const userRepo: PostgresUserRepository
    const hashPassword: string -> string

    constructor (userRepo: PostgresUserRepository, hashPassword: string -> string)
      ensures this.userRepo == userRepo && this.hashPassword == hashPassword
    {
      this.userRepo, this.hashPassword := userRepo, hashPassword;
    }

    method RegisterUser(valid: bool, email: string, password: string, newId: string) returns (outcome: Outcome)
      requires DistinctUsers(userRepo.users)
      modifies userRepo
      ensures (userRepo.users, outcome) ==
              RegisterStep(old(userRepo.users), userRepo.lower, valid, email, hashPassword(password), newId)
    {
      if !valid { return Rejected(400); }
      var existing := userRepo.FindByEmail(email, false);
      if existing.Some? { return Rejected(409); }
      var id := userRepo.CreateUser(LocalUser(email, hashPassword(password)), newId, NoFault);
      outcome := if id == "" then Rejected(500) else SignedIn(id);
    }

    method LoginWithGoogle(p: Profile, newId: string) returns (outcome: Outcome)
      requires DistinctUsers(userRepo.users)
      modifies userRepo
      ensures (userRepo.users, outcome) == GoogleStep(old(userRepo.users), userRepo.lower, p, newId)
    {
      hide Create, LinkGoogleAccount, DistinctUsers;
      var target := userRepo.FindByGoogleId(p.googleId, false);
      if target.None? {
        var byEmail := userRepo.FindByEmail(p.email, false);
        if byEmail.Some? {
          var linked := userRepo.LinkAccount(byEmail.value, p.googleId, p.picture, NoFault);
          target := byEmail;
        } else {
          var id := userRepo.CreateUser(GoogleUser(p), newId, NoFault);
          if id == "" { return Rejected(500); }
          target := Some(id);
        }
      }
      outcome := Admit(userRepo.users, target.value);
    }

    method SetUserPassword(userId: string, password: string) returns (outcome: Outcome)
      modifies userRepo
      ensures (userRepo.users, outcome) == PasswordStep(old(userRepo.users), userId, password, hashPassword)
    {
      if |password| < 8 { return Rejected(400); }
      if userId !in userRepo.users { return Rejected(404); }
      var ok := userRepo.StorePassword(userId, hashPassword(password), NoFault);
      outcome := if ok then SignedIn(userId) else Rejected(500);
    }
  }

  // ----- Laws -----

  /** Emails and Google ids are each unique. */
  ghost predicate DistinctUsers(t: Users) {
    forall a, b :: a in t && b in t && a != b ==>
      t[a].email != t[b].email && (t[a].googleId.Some? ==> t[a].googleId != t[b].googleId)
  }

  ghost predicate DistinctLower(t: Users, lower: string -> string) {
    forall a, b :: a in t && b in t && a != b ==> lower(t[a].email) != lower(t[b].email)
  }

  /** The provider names the credentials, and there is at least one. */
  predicate Lawful(u: User) {
    && u.provider == ProviderOf(Given(u.password), Given(u.googleId))
    && (Given(u.password) || Given(u.googleId))
  }

  ghost predicate AllLawful(t: Users) {
    forall id :: id in t ==> Lawful(t[id])
  }

  ghost predicate Unique(t: Users, lower: string -> string) {
    DistinctUsers(t) && DistinctLower(t, lower)
  }

  lemma CreateKeepsUnique(t: Users, lower: string -> string, user: User, newId: string)
    requires Unique(t, lower) && newId !in t
    ensures Unique(Create(t, lower, user, newId).0, lower)
  {
    if !Conflicts(t, lower, user) {
      assert forall id :: id in t ==> lower(t[id].email) != lower(user.email);
      assert forall id :: id in t ==> t[id].email != user.email;
      assert user.googleId.Some? ==> forall id :: id in t ==> t[id].googleId != user.googleId;
    }
  }

  lemma RegisterKeeps(t: Users, lower: string -> string, valid: bool, email: string, hash: string, newId: string)
    requires Unique(t, lower) && newId !in t && hash != ""
    ensures var next := RegisterStep(t, lower, valid, email, hash, newId).0;
            Unique(next, lower) && (AllLawful(t) ==> AllLawful(next))
  {
    CreateKeepsUnique(t, lower, LocalUser(email, hash), newId);
    assert Lawful(LocalUser(email, hash).(provider := "local"));
    hide DistinctUsers, DistinctLower;
  }

  lemma PasswordKeeps(
    t: Users, lower: string -> string, userId: string, password: string, hashPassword: string -> string)
    requires Unique(t, lower) && hashPassword(password) != ""
    ensures var next := PasswordStep(t, userId, password, hashPassword).0;
            Unique(next, lower) && (AllLawful(t) ==> AllLawful(next))
  {
  }

  lemma SetActiveKeeps(t: Users, lower: string -> string, userId: string, active: bool)
    requires Unique(t, lower) && userId in t
    ensures var next := t[userId := t[userId].(active := active)];
            Unique(next, lower) && (AllLawful(t) ==> AllLawful(next))
  {
  }

  lemma GoogleKeepsUnique(t: Users, lower: string -> string, p: Profile, newId: string)
    requires Unique(t, lower) && newId !in t
    ensures Unique(GoogleStep(t, lower, p, newId).0, lower)
  {
    CreateKeepsUnique(t, lower, GoogleUser(p), newId);
    hide Create;
  }

  /**
   The guard: an empty Google id that no user holds yet, and a profile whose email belongs to a
   user or is free. An empty `sub` is not rejected anywhere.
   */
  ghost predicate WritesEmptyId(t: Users, lower: string -> string, p: Profile) {
    && p.googleId == ""
    && (forall id :: id in t ==> t[id].googleId != Some(""))
    && (|| (exists id :: id in t && t[id].email == p.email)
        || (forall id :: id in t ==> lower(t[id].email) != lower(p.email)))
  }

  /** A Google sign-in breaks the provider law exactly when it writes an empty Google id. */
  lemma GoogleKeepsLawExactlyWhen(t: Users, lower: string -> string, p: Profile, newId: string)
    requires Unique(t, lower) && AllLawful(t) && newId !in t
    ensures AllLawful(GoogleStep(t, lower, p, newId).0) <==> !WritesEmptyId(t, lower, p)
  {
    var next := GoogleStep(t, lower, p, newId).0;
    if GoogleIdHolder(t, p.googleId).None? {
      var byEmail := EmailHolder(t, p.email);
      if byEmail.Some? {
        var id := byEmail.value;
        assert next[id].googleId == Some(p.googleId);
        assert p.googleId == "" ==> !Lawful(next[id]);
      } else if !Conflicts(t, lower, GoogleUser(p)) {
        assert next[newId] == GoogleUser(p);
        assert p.googleId == "" ==> !Lawful(next[newId]);
      }
    }
  }

  // ----- Runs -----

  datatype Op =
    | Register(valid: bool, email: string, hash: string, newId: string)
    | Google(profile: Profile, newId: string)
    | AddPassword(userId: string, password: string)
    | SetActive(userId: string, active: bool)

  /** `log` has the Google id and the user of every successful Google sign-in. */
  datatype State = State(users: Users, log: seq<(string, string)>)

  const START := State(map[], [])

  /** What the code outside takes for granted: new ids, and hashes that are not empty. */
  predicate Enabled(s: State, op: Op, hashPassword: string -> string) {
    match op
    case Register(_, _, hash, newId) => newId !in s.users && newId != "" && hash != ""
    case Google(_, newId) => newId !in s.users && newId != ""
    case AddPassword(_, password) => hashPassword(password) != ""
    case SetActive(_, _) => true
  }

  ghost function Step(s: State, op: Op, lower: string -> string, hashPassword: string -> string): State {
    match op
    case Register(valid, email, hash, newId) => s.(users := RegisterStep(s.users, lower, valid, email, hash, newId).0)
    case Google(p, newId) =>
      var (next, outcome) := GoogleStep(s.users, lower, p, newId);
      State(next, if outcome.SignedIn? then s.log + [(p.googleId, outcome.id)] else s.log)
    case AddPassword(userId, password) => s.(users := PasswordStep(s.users, userId, password, hashPassword).0)
    case SetActive(userId, active) =>
      if userId in s.users then s.(users := s.users[userId := s.users[userId].(active := active)]) else s
  }

  lemma StepKeeps(s: State, op: Op, lower: string -> string, hashPassword: string -> string)
    requires Unique(s.users, lower) && Enabled(s, op, hashPassword)
    ensures Unique(Step(s, op, lower, hashPassword).users, lower)
    ensures AllLawful(s.users) && (op.Google? ==> op.profile.googleId != "") ==>
              AllLawful(Step(s, op, lower, hashPassword).users)
  {
    hide Unique, AllLawful, RegisterStep, GoogleStep, PasswordStep;
    match op {
      case Register(valid, email, hash, newId) => RegisterKeeps(s.users, lower, valid, email, hash, newId);
      case Google(p, newId) =>
        GoogleKeepsUnique(s.users, lower, p, newId);
        if AllLawful(s.users) { GoogleKeepsLawExactlyWhen(s.users, lower, p, newId); }
      case AddPassword(userId, password) => PasswordKeeps(s.users, lower, userId, password, hashPassword);
      case SetActive(userId, active) =>
        if userId in s.users { SetActiveKeeps(s.users, lower, userId, active); }
    }
  }

  ghost predicate Legal(s: State, ops: seq<Op>, lower: string -> string, hashPassword: string -> string)
    decreases |ops|
  {
    ops != [] ==>
      Enabled(s, ops[0], hashPassword) && Legal(Step(s, ops[0], lower, hashPassword), ops[1..], lower, hashPassword)
  }

  ghost function Run(s: State, ops: seq<Op>, lower: string -> string, hashPassword: string -> string): State
    decreases |ops|
  {
    if ops == [] then s else Run(Step(s, ops[0], lower, hashPassword), ops[1..], lower, hashPassword)
  }

  ghost predicate BreaksLaw(s: State, op: Op, lower: string -> string) {
    op.Google? && WritesEmptyId(s.users, lower, op.profile)
  }

  lemma LawStep(s: State, op: Op, lower: string -> string, hashPassword: string -> string)
    requires Unique(s.users, lower) && AllLawful(s.users) && Enabled(s, op, hashPassword)
    ensures AllLawful(Step(s, op, lower, hashPassword).users) <==> !BreaksLaw(s, op, lower)
  {
    StepKeeps(s, op, lower, hashPassword);
    hide Unique, AllLawful, RegisterStep, GoogleStep, PasswordStep, WritesEmptyId;
    if op.Google? {
      GoogleKeepsLawExactlyWhen(s.users, lower, op.profile, op.newId);
    }
  }

  ghost predicate AlwaysLawful(s: State, ops: seq<Op>, lower: string -> string, hashPassword: string -> string)
    decreases |ops|
  {
    && AllLawful(s.users)
    && (ops != [] ==> AlwaysLawful(Step(s, ops[0], lower, hashPassword), ops[1..], lower, hashPassword))
  }

  ghost predicate NeverBreaksLaw(s: State, ops: seq<Op>, lower: string -> string, hashPassword: string -> string)
    decreases |ops|
  {
    ops != [] ==>
      && !BreaksLaw(s, ops[0], lower)
      && NeverBreaksLaw(Step(s, ops[0], lower, hashPassword), ops[1..], lower, hashPassword)
  }

  /** For every run: all providers are right all along exactly unless some sign-in writes an empty Google id. */
  lemma {:induction false} LawfulExactlyUnlessBroken(
    s: State, ops: seq<Op>, lower: string -> string, hashPassword: string -> string)
    requires Unique(s.users, lower) && AllLawful(s.users) && Legal(s, ops, lower, hashPassword)
    ensures AlwaysLawful(s, ops, lower, hashPassword) <==> NeverBreaksLaw(s, ops, lower, hashPassword)
    decreases |ops|
  {
    hide Unique, AllLawful, Enabled, Step, BreaksLaw;
    if ops != [] {
      StepKeeps(s, ops[0], lower, hashPassword);
      LawStep(s, ops[0], lower, hashPassword);
      if !BreaksLaw(s, ops[0], lower) {
        LawfulExactlyUnlessBroken(Step(s, ops[0], lower, hashPassword), ops[1..], lower, hashPassword);
      } else {
        NotLawful(Step(s, ops[0], lower, hashPassword), ops[1..], lower, hashPassword);
      }
    }
  }

  lemma NotLawful(s: State, ops: seq<Op>, lower: string -> string, hashPassword: string -> string)
    requires !AllLawful(s.users)
    ensures !AlwaysLawful(s, ops, lower, hashPassword)
  {
  }

  /** A first sign-in with an empty Google id does it: a Google account without a credential. */
  lemma EmptyGoogleIdBreaksLaw(email: string, newId: string, lower: string -> string, hashPassword: string -> string)
    requires newId != ""
    ensures var ops := [Google(Profile("", email, ""), newId)];
            && Legal(START, ops, lower, hashPassword)
            && !AlwaysLawful(START, ops, lower, hashPassword)
            && !AllLawful(Run(START, ops, lower, hashPassword).users)
  {
    var op := Google(Profile("", email, ""), newId);
    LawStep(START, op, lower, hashPassword);
    assert [op][1..] == [];
    hide Step, AllLawful;
  }

  predicate NoEmptyGoogleId(ops: seq<Op>) {
    forall k :: 0 <= k < |ops| && ops[k].Google? ==> ops[k].profile.googleId != ""
  }

  /** Over every run: emails and Google ids stay unique, and without empty Google ids providers tell the truth. */
  lemma {:induction false} RunKeeps(s: State, ops: seq<Op>, lower: string -> string, hashPassword: string -> string)
    requires Unique(s.users, lower) && Legal(s, ops, lower, hashPassword)
    ensures Unique(Run(s, ops, lower, hashPassword).users, lower)
    ensures AllLawful(s.users) && NoEmptyGoogleId(ops) ==> AllLawful(Run(s, ops, lower, hashPassword).users)
    decreases |ops|
  {
    hide Unique, AllLawful, Enabled, Step;
    if ops != [] {
      StepKeeps(s, ops[0], lower, hashPassword);
      RunKeeps(Step(s, ops[0], lower, hashPassword), ops[1..], lower, hashPassword);
      assert NoEmptyGoogleId(ops) ==> NoEmptyGoogleId(ops[1..]);
    }
  }

  // ----- One Google id, one user -----

  /** All successful sign-ins with one Google id reached one user. */
  ghost predicate OneUserPerId(log: seq<(string, string)>) {
    forall i, j :: 0 <= i < |log| && 0 <= j < |log| && log[i].0 == log[j].0 ==> log[i].1 == log[j].1
  }

  /** Some earlier sign-in with this Google id reached somebody else. */
  ghost predicate ReachedOther(log: seq<(string, string)>, googleId: string, id: string) {
    exists k :: 0 <= k < |log| && log[k].0 == googleId && log[k].1 != id
  }

  /**
   The guard: the Google id has reached somebody else before, and now it is held by an active
   user, or by nobody and the email leads to an active user or is free.
   */
  ghost predicate Strays(s: State, op: Op, lower: string -> string) {
    op.Google? &&
    match GoogleIdHolder(s.users, op.profile.googleId)
    case Some(id) => s.users[id].active && ReachedOther(s.log, op.profile.googleId, id)
    case None =>
      match EmailHolder(s.users, op.profile.email)
      case Some(id) => s.users[id].active && ReachedOther(s.log, op.profile.googleId, id)
      case None =>
        !Conflicts(s.users, lower, GoogleUser(op.profile)) && ReachedOther(s.log, op.profile.googleId, op.newId)
  }

  lemma OneMoreSignIn(log: seq<(string, string)>, googleId: string, id: string)
    ensures OneUserPerId(log + [(googleId, id)]) <==> OneUserPerId(log) && !ReachedOther(log, googleId, id)
  {
    var more := log + [(googleId, id)];
    assert more[|log|] == (googleId, id);
    assert forall k :: 0 <= k < |log| ==> more[k] == log[k];
  }

  /** What a Google sign-in adds to the log. */
  lemma SignInReaches(s: State, op: Op, lower: string -> string, hashPassword: string -> string)
    requires op.Google? && Enabled(s, op, hashPassword)
    ensures var p := op.profile;
            var target := if GoogleIdHolder(s.users, p.googleId).Some? then GoogleIdHolder(s.users, p.googleId)
                          else if EmailHolder(s.users, p.email).Some? then EmailHolder(s.users, p.email)
                          else if Conflicts(s.users, lower, GoogleUser(p)) then None else Some(op.newId);
            Step(s, op, lower, hashPassword).log ==
            if target.Some? && (target.value in s.users ==> s.users[target.value].active)
            then s.log + [(p.googleId, target.value)] else s.log
  {
    hide Conflicts, TakenByOther;
  }

  /** One step keeps one user per Google id exactly unless it strays. */
  lemma StrayStep(s: State, op: Op, lower: string -> string, hashPassword: string -> string)
    requires Enabled(s, op, hashPassword)
    ensures OneUserPerId(Step(s, op, lower, hashPassword).log) <==> OneUserPerId(s.log) && !Strays(s, op, lower)
  {
    if op.Google? {
      SignInReaches(s, op, lower, hashPassword);
      forall id
        ensures OneUserPerId(s.log + [(op.profile.googleId, id)]) <==>
                OneUserPerId(s.log) && !ReachedOther(s.log, op.profile.googleId, id)
      {
        OneMoreSignIn(s.log, op.profile.googleId, id);
      }
      hide OneUserPerId, ReachedOther, Conflicts, GoogleStep, Step;
    }
  }

  ghost predicate AnyStrays(s: State, ops: seq<Op>, lower: string -> string, hashPassword: string -> string)
    decreases |ops|
  {
    && ops != []
    && (Strays(s, ops[0], lower) || AnyStrays(Step(s, ops[0], lower, hashPassword), ops[1..], lower, hashPassword))
  }

  /** For every run: each Google id has reached one user exactly unless some sign-in strays. */
  lemma {:induction false} OneUserExactlyUnlessStray(
    s: State, ops: seq<Op>, lower: string -> string, hashPassword: string -> string)
    requires Legal(s, ops, lower, hashPassword)
    ensures OneUserPerId(Run(s, ops, lower, hashPassword).log) <==>
            OneUserPerId(s.log) && !AnyStrays(s, ops, lower, hashPassword)
    decreases |ops|
  {
    hide OneUserPerId, Strays, Enabled, Step;
    if ops != [] {
      StrayStep(s, ops[0], lower, hashPassword);
      OneUserExactlyUnlessStray(Step(s, ops[0], lower, hashPassword), ops[1..], lower, hashPassword);
    }
  }

  // ----- A guard on the user table alone -----

  /** A link gives a user who has a Google id another one. */
  ghost predicate Overwrites(s: State, op: Op) {
    op.Google? && GoogleIdHolder(s.users, op.profile.googleId).None? &&
    match EmailHolder(s.users, op.profile.email)
    case None => false
    case Some(id) => s.users[id].googleId.Some?
  }

  ghost predicate NeverOverwrites(s: State, ops: seq<Op>, lower: string -> string, hashPassword: string -> string)
    decreases |ops|
  {
    ops != [] ==>
      && !Overwrites(s, ops[0])
      && NeverOverwrites(Step(s, ops[0], lower, hashPassword), ops[1..], lower, hashPassword)
  }

  /** Whoever a Google id has reached still holds it. */
  ghost predicate StillHeld(s: State) {
    forall k :: 0 <= k < |s.log| ==> s.log[k].1 in s.users && s.users[s.log[k].1].googleId == Some(s.log[k].0)
  }

  lemma StillHeldStep(s: State, op: Op, lower: string -> string, hashPassword: string -> string)
    requires StillHeld(s) && Enabled(s, op, hashPassword) && !Overwrites(s, op)
    ensures StillHeld(Step(s, op, lower, hashPassword))
  {
    hide Conflicts;
    if op.Google? && GoogleIdHolder(s.users, op.profile.googleId).None? {
      assert forall id :: !TakenByOther(s.users, id, op.profile.googleId);
    }
    hide TakenByOther;
  }

  lemma {:induction false} StillHeldRun(
    s: State, ops: seq<Op>, lower: string -> string, hashPassword: string -> string)
    requires StillHeld(s) && Legal(s, ops, lower, hashPassword) && NeverOverwrites(s, ops, lower, hashPassword)
    ensures StillHeld(Run(s, ops, lower, hashPassword))
    decreases |ops|
  {
    hide StillHeld, Enabled, Step, Overwrites;
    if ops != [] {
      StillHeldStep(s, ops[0], lower, hashPassword);
      StillHeldRun(Step(s, ops[0], lower, hashPassword), ops[1..], lower, hashPassword);
    }
  }

  /** For every run in which no link overwrites a Google id, each Google id has reached one user. */
  lemma OneUserUnlessOverwritten(ops: seq<Op>, lower: string -> string, hashPassword: string -> string)
    requires Legal(START, ops, lower, hashPassword) && NeverOverwrites(START, ops, lower, hashPassword)
    ensures OneUserPerId(Run(START, ops, lower, hashPassword).log)
  {
    StillHeldRun(START, ops, lower, hashPassword);
    RunKeeps(START, ops, lower, hashPassword);
    hide Run, Legal, NeverOverwrites;
  }

  // ----- A premise on the callers -----

  /** Every Google id of the run comes with one email. */
  predicate OneEmail(ops: seq<Op>, mail: string -> string) {
    forall k :: 0 <= k < |ops| && ops[k].Google? ==> ops[k].profile.email == mail(ops[k].profile.googleId)
  }

  ghost predicate ByMail(s: State, mail: string -> string) {
    && (forall id :: id in s.users && s.users[id].googleId.Some? ==>
          s.users[id].email == mail(s.users[id].googleId.value))
    && (forall k :: 0 <= k < |s.log| ==> s.log[k].1 in s.users && s.users[s.log[k].1].email == mail(s.log[k].0))
  }

  lemma ByMailStep(s: State, op: Op, lower: string -> string, hashPassword: string -> string, mail: string -> string)
    requires ByMail(s, mail) && Enabled(s, op, hashPassword)
    requires op.Google? ==> op.profile.email == mail(op.profile.googleId)
    ensures ByMail(Step(s, op, lower, hashPassword), mail)
  {
    hide Conflicts, TakenByOther;
  }

  lemma {:induction false} ByMailRun(
    s: State, ops: seq<Op>, lower: string -> string, hashPassword: string -> string, mail: string -> string)
    requires ByMail(s, mail) && Legal(s, ops, lower, hashPassword) && OneEmail(ops, mail)
    ensures ByMail(Run(s, ops, lower, hashPassword), mail)
    decreases |ops|
  {
    hide ByMail, Enabled, Step;
    if ops != [] {
      ByMailStep(s, ops[0], lower, hashPassword, mail);
      ByMailRun(Step(s, ops[0], lower, hashPassword), ops[1..], lower, hashPassword, mail);
    }
  }

  /** Then all sign-ins with one Google id reach the same user, links and overwritten links included. */
  lemma SameGoogleIdSameUser(
    ops: seq<Op>, lower: string -> string, hashPassword: string -> string, mail: string -> string)
    requires Legal(START, ops, lower, hashPassword) && OneEmail(ops, mail)
    ensures OneUserPerId(Run(START, ops, lower, hashPassword).log)
  {
    RunKeeps(START, ops, lower, hashPassword);
    ByMailRun(START, ops, lower, hashPassword, mail);
  }

  /** Without that premise it fails: g moves to another email after another Google id took its account. */
  lemma MovedEmailReachesAnotherUser(
    g: string, h: string, email: string, moved: string, first: string, second: string, unused: string,
    lower: string -> string, hashPassword: string -> string)
    requires g != h && lower(email) != lower(moved)
    requires "" !in {first, second, unused} && first !in {second, unused}
    ensures var ops := [Google(Profile(g, email, ""), first)]
                       + ([Google(Profile(h, email, ""), unused)] + ([Google(Profile(g, moved, ""), second)] + []));
            && Legal(START, ops, lower, hashPassword)
            && Run(START, ops, lower, hashPassword).log == [(g, first), (h, first), (g, second)]
  {
    var o0, o1 := Google(Profile(g, email, ""), first), Google(Profile(h, email, ""), unused);
    var o2 := Google(Profile(g, moved, ""), second);
    var s1 := Step(START, o0, lower, hashPassword);
    assert s1.users.Keys == {first} && s1.users[first] == User(email, None, Some(g), "google", None, true);
    var s2 := Step(s1, o1, lower, hashPassword);
    assert s2.users.Keys == {first} && s2.users[first] == User(email, None, Some(h), "google", None, true);
    var s3 := Step(s2, o2, lower, hashPassword);
    assert s3.log == [(g, first), (h, first), (g, second)];
    hide Step, Enabled;
    RunOne(s2, o2, [], lower, hashPassword);
    RunOne(s1, o1, [o2] + [], lower, hashPassword);
    RunOne(START, o0, [o1] + ([o2] + []), lower, hashPassword);
  }

  lemma RunOne(s: State, op: Op, rest: seq<Op>, lower: string -> string, hashPassword: string -> string)
    requires Enabled(s, op, hashPassword) && Legal(Step(s, op, lower, hashPassword), rest, lower, hashPassword)
    ensures Legal(s, [op] + rest, lower, hashPassword)
    ensures Run(s, [op] + rest, lower, hashPassword)
         == Run(Step(s, op, lower, hashPassword), rest, lower, hashPassword)
  {
    assert ([op] + rest)[1..] == rest;
  }
}
