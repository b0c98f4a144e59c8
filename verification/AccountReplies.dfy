/** What registration, a Google sign-in and a new password answer, and the user each of them leaves. */
module AccountReplies {
  import opened Wrappers
  import opened Accounts

  predicate HasEmail(t: Users, id: string, email: string) { id in t && t[id].email == email }

  predicate HasGoogleId(t: Users, id: string, googleId: string) { id in t && t[id].googleId == Some(googleId) }

  /** Some user's email is the same but for case. */
  predicate EmailTaken(t: Users, lower: string -> string, email: string) {
    exists id :: id in t && lower(t[id].email) == lower(email)
  }

  /**
   A valid registration makes an active local user with the given hash exactly if nobody has the email in
   any case. The same email is a conflict, one in another case a failure, and neither changes anything.
   */
  lemma RegisterAnswers(
    t: Users, lower: string -> string, valid: bool, email: string, hash: string, newId: string)
    requires Unique(t, lower) && newId !in t && newId != ""
    ensures var (next, outcome) := RegisterStep(t, lower, valid, email, hash, newId);
            if valid && !EmailTaken(t, lower, email)
            then next == t[newId := User(email, Some(hash), None, "local", None, true)] && outcome == SignedIn(newId)
            else
              && next == t
              && outcome == Rejected(if !valid then 400 else if exists id :: HasEmail(t, id, email) then 409 else 500)
  {
    assert EmailHolder(t, email).Some? ==> HasEmail(t, EmailHolder(t, email).value, email);
    assert forall id :: HasEmail(t, id, email) ==> EmailTaken(t, lower, email);
    assert Conflicts(t, lower, LocalUser(email, hash)) == EmailTaken(t, lower, email);
    hide Unique;
  }

  /** The linked user: Google id, provider and picture as the profile has them, the rest as it was. */
  function Linked(u: User, p: Profile): User {
    User(u.email, u.password, Some(p.googleId),
         if u.password.Some? && u.password.value != "" then "local+google" else "google",
         if p.picture == "" then u.avatar else Some(p.picture), u.active)
  }

  function Admitted(u: User, id: string): Outcome { if u.active then SignedIn(id) else Rejected(403) }

  /** A Google sign-in reaches the holder of its Google id, else links the holder of its email, else makes a user. */
  lemma GoogleAnswers(t: Users, lower: string -> string, p: Profile, newId: string, id: string)
    requires Unique(t, lower) && newId !in t && newId != ""
    ensures var (next, outcome) := GoogleStep(t, lower, p, newId);
            && (HasGoogleId(t, id, p.googleId) ==> next == t && outcome == Admitted(t[id], id))
            && ((forall other :: !HasGoogleId(t, other, p.googleId)) ==>
                  && (HasEmail(t, id, p.email) ==> next == t[id := Linked(t[id], p)] && outcome == Admitted(t[id], id))
                  && ((forall other :: !HasEmail(t, other, p.email)) ==>
                        if EmailTaken(t, lower, p.email) then next == t && outcome == Rejected(500)
                        else
                          && outcome == SignedIn(newId)
                          && next == t[newId := User(p.email, None, Some(p.googleId), "google",
                                                     if p.picture == "" then None else Some(p.picture), true)]))
  {
    if HasGoogleId(t, id, p.googleId) {
      assert GoogleIdHolder(t, p.googleId) == Some(id);
    } else if HasEmail(t, id, p.email) {
      assert EmailHolder(t, p.email) == Some(id);
    }
    assert GoogleIdHolder(t, p.googleId).Some? ==>
        HasGoogleId(t, GoogleIdHolder(t, p.googleId).value, p.googleId);
    assert EmailHolder(t, p.email).Some? ==> HasEmail(t, EmailHolder(t, p.email).value, p.email);
    hide DistinctLower;
  }

  /** A password of at least 8 characters of a known user is stored hashed, and the provider says so. */
  lemma PasswordAnswers(t: Users, userId: string, password: string, hashPassword: string -> string)
    ensures var (next, outcome) := PasswordStep(t, userId, password, hashPassword);
            if |password| >= 8 && userId in t then
              var u := t[userId];
              var provider := if u.googleId.Some? && u.googleId.value != "" then "local+google" else "local";
              && outcome == SignedIn(userId)
              && next == t[userId := User(u.email, Some(hashPassword(password)), u.googleId, provider, u.avatar,
                                          u.active)]
            else next == t && outcome == Rejected(if |password| < 8 then 400 else 404)
  {
  }

  /** A step of a run is its use case, and a sign-in with Google that succeeds is logged with the user it reached. */
  lemma StepsAreUseCases(s: State, op: Op, lower: string -> string, hashPassword: string -> string)
    ensures var next := Step(s, op, lower, hashPassword);
            match op
            case Register(valid, email, hash, newId) =>
              next == s.(users := RegisterStep(s.users, lower, valid, email, hash, newId).0)
            case Google(p, newId) =>
              var (users, outcome) := GoogleStep(s.users, lower, p, newId);
              next == State(users, s.log + if outcome.SignedIn? then [(p.googleId, outcome.id)] else [])
            case AddPassword(userId, password) =>
              next == s.(users := PasswordStep(s.users, userId, password, hashPassword).0)
            case SetActive(userId, active) =>
              && next.log == s.log && next.users.Keys == s.users.Keys
              && forall id :: id in s.users ==>
                   next.users[id] == if id == userId then s.users[id].(active := active) else s.users[id]
  {
    hide RegisterStep, GoogleStep, PasswordStep;
    assert s.log + [] == s.log;
  }
}
