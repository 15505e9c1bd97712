/** The user endpoints (app/api/users.py): registration, login, the caller's
    own profile and the user listing. The password hash and its check
    (app/utils/security is not part of this model) are function parameters;
    the access token is the pair (subject, lifetime) that the JWT encodes. */
module Users {
  import opened Models

  /** Lifetime the login handler asks for, in minutes. */
  const AccessTokenMinutes: int := 30

  datatype Token = Token(subject: UserId, expiresInMinutes: int)

  /** The body get_me answers with. */
  datatype Profile = Profile(id: UserId, name: string, email: string)

  /** register_user: refuse an email already on file, otherwise append a row
      holding the hash of the password and answer with its id. */
  function RegisterUser(t: Tables, name: string, email: string, password: string,
                        hash: string -> string): (s: Step<UserId>)
    ensures s.result.Err? <==> exists i :: 0 <= i < |t.users| && t.users[i].email == email
    ensures s.result.Err? ==> s.result.failure == BadRequest && s.after == t
    ensures s.result.Ok? ==>
      && s.result.value == |t.users| + 1
      && s.after.users == t.users + [User(name, hash(password), email, None)]
      && s.after == t.(users := s.after.users)
  {
    if UserByEmail(t.users, email).Some? then Step(t, Err(BadRequest))
    else Step(t.(users := t.users + [User(name, hash(password), email, None)]), Ok(|t.users| + 1))
  }

  /** get_users: every user row, in full (the stored hash included, as no
      response model filters it). */
  function GetUsers(t: Tables): (r: seq<User>)
    ensures |r| == |t.users|
    ensures forall u :: IsUser(t, u) ==> r[u - 1] == UserRow(t, u)
  {
    t.users
  }

  /** login_user: the first row with the email must exist and the password
      must verify against its stored hash; the token names that row's id. */
  function LoginUser(t: Tables, email: string, password: string,
                     verify: (string, string) -> bool): (r: Result<Token>)
    ensures r.Err? ==> r == Err(BadRequest)
    ensures r.Ok? <==>
      UserByEmail(t.users, email).Some? &&
      verify(password, t.users[UserByEmail(t.users, email).value - 1].password)
    ensures r.Ok? ==>
      && r.value.subject == UserByEmail(t.users, email).value
      && IsUser(t, r.value.subject)
      && UserRow(t, r.value.subject).email == email
      && r.value.expiresInMinutes == AccessTokenMinutes
  {
    match UserByEmail(t.users, email)
    case None => Err(BadRequest)
    case Some(u) =>
      if !verify(password, t.users[u - 1].password) then Err(BadRequest)
      else Ok(Token(u, AccessTokenMinutes))
  }

  /** get_me: the caller's own id, name and email (UserRead has no
      password field). */
  function GetMe(t: Tables, actor: UserId): (p: Profile)
    requires IsUser(t, actor)
    ensures p.id == actor
    ensures p.name == UserRow(t, actor).name && p.email == UserRow(t, actor).email
  {
    var u := UserRow(t, actor);
    Profile(actor, u.name, u.email)
  }

  // ---------------------------------------------------------------------
  // Properties
  // ---------------------------------------------------------------------

  /** Registration keeps the email column unique. */
  lemma RegisterKeepsConsistent(t: Tables, name: string, email: string, password: string,
                                hash: string -> string)
    requires Consistent(t)
    ensures Consistent(RegisterUser(t, name, email, password, hash).after)
    ensures Grows(t, RegisterUser(t, name, email, password, hash).after)
  {
  }

  /** An unknown email and a wrong password are answered alike. */
  lemma LoginFailuresIndistinguishable(t: Tables, email: string, password: string,
                                       verify: (string, string) -> bool)
    requires (forall i :: 0 <= i < |t.users| ==> t.users[i].email != email)
             || (exists i :: 0 <= i < |t.users| && t.users[i].email == email
                             && !verify(password, t.users[i].password))
    requires EmailsUnique(t.users)
    ensures LoginUser(t, email, password, verify) == Err(BadRequest)
  {
    if i :| 0 <= i < |t.users| && t.users[i].email == email && !verify(password, t.users[i].password) {
      UserByEmailUnique(t.users, email, i + 1);
    }
  }

  /** Round trip: right after registering, logging in with the same
      password yields a token for the new id exactly when the password
      verifies against its own hash. */
  lemma RegisterThenLogin(t: Tables, name: string, email: string, password: string,
                          hash: string -> string, verify: (string, string) -> bool)
    requires RegisterUser(t, name, email, password, hash).result.Ok?
    ensures var s := RegisterUser(t, name, email, password, hash);
      LoginUser(s.after, email, password, verify) ==
        if verify(password, hash(password)) then Ok(Token(s.result.value, AccessTokenMinutes))
        else Err(BadRequest)
  {
    var s := RegisterUser(t, name, email, password, hash);
    var r := UserByEmail(s.after.users, email);
    assert s.after.users[|t.users|].email == email;
    assert r == Some(|t.users| + 1);
  }

  /** get_me answers with the caller's id, name and email, and nothing it
      says depends on the stored password. */
  lemma GetMeHidesPassword(t: Tables, actor: UserId, other: string)
    requires IsUser(t, actor)
    ensures GetMe(t.(users := t.users[actor - 1 := UserRow(t, actor).(password := other)]), actor)
            == GetMe(t, actor)
  {
  }
}
