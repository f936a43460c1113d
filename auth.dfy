/** The account endpoints over the user collection: register, log in, the demonstration social
    login (find-or-create on a name derived from the provider) and the partial profile update.
    Each endpoint's effect is a function of the collection and the request, and each endpoint is a
    method of the collection that performs it; the session user it sets is part of its outcome. */
module Auth {
  import opened Wrappers
  import opened Text
  import opened Search
  import opened UserModel

  /** `req.session.user`; `provider` is set by the social login, which also marks the session as
      social. */
  datatype SessionUser = SessionUser(
    id: nat,
    username: string,
    provider: Option<string>,
    displayName: Option<string>,
    email: Option<string>)

  /** Why `User.create` failed: a validation error, or a clash on the unique username index. */
  datatype CreateError = Invalid(errors: UserErrors) | DuplicateUsername(username: string)

  datatype UserWrite = UserCreated(users: seq<User>, user: User) | UserRejected(error: CreateError)

  const UsernameExists := "Username already exists"
  const InvalidCredentials := "Invalid username or password"
  const MockPassword := "dummy_password_for_social_login"
  const SocialLoginFailed := "/auth/login?error=Social+Login+Failed"
  const Unauthorized := "Unauthorized: No session found"
  const UserNotFound := "User not found"

  /** The first user whose stored username is exactly `name`. `User.findOne({ username })` casts
      its filter through the username path's trim setter first, so every lookup of the endpoints
      below is `UsernameIndex(users, Trim(username))`. */
  function UsernameIndex(users: seq<User>, name: string): Option<nat>
  {
    FirstWhere(users, (x: User) => x.username == name)
  }

  /** `User.findById(id)` */
  function UserIdIndex(users: seq<User>, id: nat): Option<nat>
  {
    FirstWhere(users, (x: User) => x.id == id)
  }

  /** No stored password is a non-empty plain text. */
  predicate NoPlainPassword(p: Option<Secret>)
  {
    p.Some? && p.value.Plain? ==> p.value.text == []
  }

  /** The collection invariant the schema and its unique index maintain. */
  ghost predicate RegistryInvariant(users: seq<User>)
  {
    && (forall k :: 0 <= k < |users| ==>
         users[k].username != [] && IsTrimmed(users[k].username) && NoPlainPassword(users[k].password))
    && (forall a, b :: 0 <= a < b < |users| ==> users[a].username != users[b].username)
    && (forall a, b :: 0 <= a < b < |users| ==> users[a].id != users[b].id)
  }

  ghost predicate IdsBelow(users: seq<User>, n: nat)
  {
    forall k :: 0 <= k < |users| ==> users[k].id < n
  }

  /** `User.create({ username, password })` with identifier `id` at time `now`: the setters, the
      validators, the pre-save hook, then the unique index. */
  function CreateUser(users: seq<User>, username: string, password: string, id: nat, now: int): UserWrite
  {
    var c := CastUser(User(id, username, None, None, Some(Plain(password)), None, None, None, now));
    var e := Validate(c);
    if !NoErrors(e) then UserRejected(Invalid(e))
    else if UsernameIndex(users, c.username).Some? then UserRejected(DuplicateUsername(c.username))
    else
      var u := c.(password := SavedPassword(c.password, true));
      UserCreated(users + [u], u)
  }

  /** The fields `updateProfile` passes to `findByIdAndUpdate`: only the truthy ones. */
  datatype ProfileUpdate = ProfileUpdate(displayName: Option<string>, email: Option<string>)

  function UpdateData(displayName: Option<string>, email: Option<string>): ProfileUpdate
  {
    ProfileUpdate(if Truthy(displayName) then displayName else None, if Truthy(email) then email else None)
  }

  /** `findByIdAndUpdate(id, update, { new: true })` applied to one user: the setters of the
      updated paths run, the other fields stay. */
  function ApplyUpdate(u: User, update: ProfileUpdate): User
  {
    u.(displayName := if update.displayName.Some? then SetTrimmed(update.displayName) else u.displayName,
       email := if update.email.Some? then SetEmail(update.email) else u.email)
  }

  // ---------------------------------------------------------------------------------------------
  // The endpoints as functions of the collection

  datatype RegisterError = UsernameTaken | CreateFailed(error: CreateError)

  /** `register`'s answer: a redirect with the new session user, or the page again with an error. */
  datatype RegisterOutcome = Registered(session: SessionUser) | RegisterFailed(error: RegisterError)

  datatype LoginOutcome = LoggedIn(session: SessionUser) | LoginFailed(message: string)

  /** `mockSocialLogin`'s answer: a redirect with the social session user, or a redirect to the
      login page with an error. */
  datatype SocialOutcome = SocialSession(session: SessionUser) | SocialFailed(redirect: string)

  datatype ProfileOutcome = ProfileUpdated(user: User) | NoSession(message: string) | ProfileNotFound(message: string)

  function ProfileStatus(r: ProfileOutcome): int
  {
    match r
    case ProfileUpdated(_) => 200
    case NoSession(_) => 401
    case ProfileNotFound(_) => 404
  }

  function SessionOf(u: User, provider: Option<string>): SessionUser
  {
    SessionUser(u.id, u.username, provider, None, None)
  }

  /** The effect of `register`: the lookup and the stored name are both the trimmed name. */
  function RegisterEffect(users: seq<User>, username: string, password: string, id: nat, now: int): (seq<User>, RegisterOutcome)
  {
    if UsernameIndex(users, Trim(username)).Some? then (users, RegisterFailed(UsernameTaken))
    else
      match CreateUser(users, username, password, id, now)
      case UserCreated(t, u) => (t, Registered(SessionOf(u, None)))
      case UserRejected(e) => (users, RegisterFailed(CreateFailed(e)))
  }

  /** `login`; the collection is not changed. */
  function LoginResult(users: seq<User>, username: string, password: string): LoginOutcome
  {
    match UsernameIndex(users, Trim(username))
    case None => LoginFailed(InvalidCredentials)
    case Some(i) =>
      if !MatchPassword(users[i], password) then LoginFailed(InvalidCredentials)
      else LoggedIn(SessionOf(users[i], None))
  }

  /** `${capitalizedProvider}User` */
  function MockUsername(provider: string): string
  {
    Capitalize(provider) + "User"
  }

  /** The effect of `mockSocialLogin`: find the mock user, or create it with the fixed password. */
  function SocialEffect(users: seq<User>, provider: string, id: nat, now: int): (seq<User>, SocialOutcome)
  {
    var name := MockUsername(provider);
    match UsernameIndex(users, Trim(name))
    case Some(i) => (users, SocialSession(SessionOf(users[i], Some(provider))))
    case None =>
      match CreateUser(users, name, MockPassword, id, now)
      case UserCreated(t, u) => (t, SocialSession(SessionOf(u, Some(provider))))
      case UserRejected(_) => (users, SocialFailed(SocialLoginFailed))
  }

  /** The user `updateProfile` acts for: the session user's id, or else the id of the user that
      the authentication middleware attached to the request. */
  function RequestUserId(session: Option<SessionUser>, passportId: Option<nat>): Option<nat>
  {
    if session.Some? then Some(session.value.id) else passportId
  }

  /** The session user after a successful update: first the stored display name and email, then
      the submitted values of the fields that were updated, as submitted. */
  function UpdatedSession(s: SessionUser, updated: User, update: ProfileUpdate): SessionUser
  {
    s.(displayName := if update.displayName.Some? then update.displayName else updated.displayName,
       email := if update.email.Some? then update.email else updated.email)
  }

  /** The effect of `updateProfile`: the new collection, the new session user and the answer. */
  function ProfileEffect(users: seq<User>, session: Option<SessionUser>, passportId: Option<nat>,
                         displayName: Option<string>, email: Option<string>): (seq<User>, Option<SessionUser>, ProfileOutcome)
  {
    match RequestUserId(session, passportId)
    case None => (users, session, NoSession(Unauthorized))
    case Some(id) =>
      match UserIdIndex(users, id)
      case None => (users, session, ProfileNotFound(UserNotFound))
      case Some(i) =>
        var update := UpdateData(displayName, email);
        var u := ApplyUpdate(users[i], update);
        var s := if session.Some? then Some(UpdatedSession(session.value, u, update)) else None;
        (users[i := u], s, ProfileUpdated(u))
  }

  // ---------------------------------------------------------------------------------------------
  // The collection

  class UserRegistry {
    var users: seq<User>
    var nextId: nat

    ghost predicate Valid()
      reads this
    {
      RegistryInvariant(users) && IdsBelow(users, nextId)
    }

    constructor ()
      ensures Valid() && users == [] && nextId == 0
    {
      users := [];
      nextId := 0;
    }

    /** `User.findOne({ username })`: the filter value is trimmed by the path's setter, then
        matched against the stored usernames. */
    method FindOne(username: string) returns (r: Option<nat>)
      ensures r == UsernameIndex(users, Trim(username))
      ensures r.Some? ==> r.value < |users| && users[r.value].username == Trim(username)
      ensures r.None? ==> forall k :: 0 <= k < |users| ==> users[k].username != Trim(username)
    {
      r := UsernameIndex(users, Trim(username));
    }

    /** `User.create({ username, password })`: each call takes a fresh identifier. */
    method Create(username: string, password: string, now: int) returns (w: UserWrite)
      requires Valid()
      modifies this
      ensures Valid()
      ensures w == CreateUser(old(users), username, password, old(nextId), now)
      ensures users == if w.UserCreated? then w.users else old(users)
      ensures nextId == old(nextId) + 1
    {
      var c := CastUser(User(nextId, username, None, None, Some(Plain(password)), None, None, None, now));
      var e := Validate(c);
      if !NoErrors(e) {
        w := UserRejected(Invalid(e));
      } else {
        var clash := UsernameIndex(users, c.username);
        if clash.Some? {
          w := UserRejected(DuplicateUsername(c.username));
        } else {
          var d := new UserDocument(c, true);
          d.PreSave();
          CreateKeepsInvariant(users, username, password, nextId, now);
          users := users + [d.doc];
          w := UserCreated(users, d.doc);
        }
      }
      nextId := nextId + 1;
    }

    /** `User.findByIdAndUpdate(id, update, { new: true })` */
    method FindByIdAndUpdate(id: nat, update: ProfileUpdate) returns (r: Option<User>)
      requires Valid()
      modifies this
      ensures Valid() && nextId == old(nextId)
      ensures UserIdIndex(old(users), id).None? ==> r.None? && users == old(users)
      ensures UserIdIndex(old(users), id).Some? ==>
        var i := UserIdIndex(old(users), id).value;
        r == Some(ApplyUpdate(old(users)[i], update)) && users == old(users)[i := r.value]
    {
      var found := UserIdIndex(users, id);
      if found.None? {
        return None;
      }
      var u := ApplyUpdate(users[found.value], update);
      UpdateKeepsInvariant(users, found.value, update);
      users := users[found.value := u];
      r := Some(u);
    }

    /** POST /register */
    method Register(username: string, password: string, now: int) returns (r: RegisterOutcome)
      requires Valid()
      modifies this
      ensures Valid()
      ensures (users, r) == RegisterEffect(old(users), username, password, old(nextId), now)
    {
      var taken := FindOne(username);
      if taken.Some? {
        return RegisterFailed(UsernameTaken);
      }
      var w := Create(username, password, now);
      if w.UserRejected? {
        return RegisterFailed(CreateFailed(w.error));
      }
      r := Registered(SessionOf(w.user, None));
    }

    /** POST /login */
    method Login(username: string, password: string) returns (r: LoginOutcome)
      ensures r == LoginResult(users, username, password)
    {
      var found := FindOne(username);
      if found.None? || !MatchPassword(users[found.value], password) {
        return LoginFailed(InvalidCredentials);
      }
      r := LoggedIn(SessionOf(users[found.value], None));
    }

    /** GET /auth/social/:provider */
    method MockSocialLogin(provider: string, now: int) returns (r: SocialOutcome)
      requires Valid()
      modifies this
      ensures Valid()
      ensures (users, r) == SocialEffect(old(users), provider, old(nextId), now)
    {
      var name := Capitalize(provider) + "User";
      var found := FindOne(name);
      if found.Some? {
        return SocialSession(SessionOf(users[found.value], Some(provider)));
      }
      var w := Create(name, MockPassword, now);
      if w.UserRejected? {
        return SocialFailed(SocialLoginFailed);
      }
      r := SocialSession(SessionOf(w.user, Some(provider)));
    }

    /** POST /auth/update-profile: returns the answer and the new session user. */
    method UpdateProfile(session: Option<SessionUser>, passportId: Option<nat>,
                         displayName: Option<string>, email: Option<string>)
      returns (r: ProfileOutcome, newSession: Option<SessionUser>)
      requires Valid()
      modifies this
      ensures Valid()
      ensures (users, newSession, r) == ProfileEffect(old(users), session, passportId, displayName, email)
    {
      var userId := RequestUserId(session, passportId);
      if userId.None? {
        return NoSession(Unauthorized), session;
      }
      var update := UpdateData(displayName, email);
      var updated := FindByIdAndUpdate(userId.value, update);
      if updated.None? {
        return ProfileNotFound(UserNotFound), session;
      }
      newSession := if session.Some? then Some(UpdatedSession(session.value, updated.value, update)) else None;
      r := ProfileUpdated(updated.value);
    }
  }

  // ---------------------------------------------------------------------------------------------
  // Lemmas about the collection invariant

  /** A created user keeps the invariant: its name is trimmed and not empty, no stored user has
      it, its identifier is fresh, and its password is stored hashed. */
  lemma CreateKeepsInvariant(users: seq<User>, username: string, password: string, id: nat, now: int)
    requires RegistryInvariant(users) && IdsBelow(users, id)
    ensures var w := CreateUser(users, username, password, id, now);
      w.UserCreated? ==>
        && w.users == users + [w.user] && w.user.id == id
        && RegistryInvariant(w.users) && IdsBelow(w.users, id + 1)
  {
    var w := CreateUser(users, username, password, id, now);
    if w.UserCreated? {
      var u := w.user;
      var t := users + [u];
      TrimIdempotent(username);
      assert u.password == Some(Hashed(password));
      forall k | 0 <= k < |users| ensures users[k].username != u.username {
        var p := (x: User) => x.username == u.username;
        assert !p(users[k]);
      }
      forall a, b | 0 <= a < b < |t| ensures t[a].username != t[b].username && t[a].id != t[b].id {
        assert t[a] == users[a];
        if b < |users| { assert t[b] == users[b]; }
      }
      forall k | 0 <= k < |t|
        ensures t[k].username != [] && IsTrimmed(t[k].username) && NoPlainPassword(t[k].password) && t[k].id < id + 1
      {
        if k < |users| { assert t[k] == users[k]; }
      }
    }
  }

  /** A profile update touches neither usernames, identifiers nor passwords. */
  lemma UpdateKeepsInvariant(users: seq<User>, i: nat, update: ProfileUpdate)
    requires RegistryInvariant(users) && i < |users|
    ensures RegistryInvariant(users[i := ApplyUpdate(users[i], update)])
    ensures forall n: nat :: IdsBelow(users, n) ==> IdsBelow(users[i := ApplyUpdate(users[i], update)], n)
  {
    var t := users[i := ApplyUpdate(users[i], update)];
    assert forall k :: 0 <= k < |t| ==>
      t[k].username == users[k].username && t[k].id == users[k].id && t[k].password == users[k].password;
  }

  // ---------------------------------------------------------------------------------------------
  // Lemmas about `register` and `login`

  /** A name whose trimmed form is already stored is answered "Username already exists" and
      nothing is created. */
  lemma RegisterRejectsExisting(users: seq<User>, username: string, password: string, id: nat, now: int)
    requires UsernameIndex(users, Trim(username)).Some?
    ensures RegisterEffect(users, username, password, id, now) == (users, RegisterFailed(UsernameTaken))
  {
  }

  /** Registration succeeds exactly when no user has the trimmed name, the trimmed name is not
      empty and the password has at least six characters; it then appends exactly one user, with
      the trimmed name and the hashed password, and the session user is that user. */
  lemma RegisterSucceedsIff(users: seq<User>, username: string, password: string, id: nat, now: int)
    ensures var (t, r) := RegisterEffect(users, username, password, id, now);
      && (r.Registered? <==>
           UsernameIndex(users, Trim(username)).None? && Trim(username) != [] && |password| >= MinPasswordLength)
      && (r.Registered? ==>
           && |t| == |users| + 1 && t[..|users|] == users
           && t[|users|] == User(id, Trim(username), None, None, Some(Hashed(password)), None, None, None, now)
           && r.session == SessionUser(id, Trim(username), None, None, None))
      && (!r.Registered? ==> t == users)
  {
    var (t, r) := RegisterEffect(users, username, password, id, now);
    if r.Registered? {
      assert t == users + [t[|users|]];
      assert t[..|users|] == users;
    }
  }

  /** A failed login gives the same answer whether the name is unknown or the password is wrong. */
  lemma LoginFailureIsUniform(users: seq<User>, username: string, password: string)
    ensures LoginResult(users, username, password).LoginFailed? ==>
      LoginResult(users, username, password) == LoginFailed(InvalidCredentials)
    ensures UsernameIndex(users, Trim(username)).None? ==>
      LoginResult(users, username, password) == LoginFailed(InvalidCredentials)
    ensures (UsernameIndex(users, Trim(username)).Some? &&
             !MatchPassword(users[UsernameIndex(users, Trim(username)).value], password)) ==>
      LoginResult(users, username, password) == LoginFailed(InvalidCredentials)
  {
  }

  /** Under the invariant, a login succeeds exactly when some user has the trimmed name typed and
      a stored hash of the password typed; the session user is then that user. */
  lemma LoginSucceedsIff(users: seq<User>, username: string, password: string)
    requires RegistryInvariant(users)
    ensures LoginResult(users, username, password).LoggedIn? <==>
      exists k :: 0 <= k < |users| && users[k].username == Trim(username) && users[k].password == Some(Hashed(password))
    ensures LoginResult(users, username, password).LoggedIn? ==>
      exists k :: 0 <= k < |users| && users[k].username == Trim(username) &&
        LoginResult(users, username, password).session == SessionUser(users[k].id, Trim(username), None, None, None)
  {
    var name := Trim(username);
    var p := (x: User) => x.username == name;
    if exists k :: 0 <= k < |users| && users[k].username == name && users[k].password == Some(Hashed(password)) {
      var k :| 0 <= k < |users| && users[k].username == name && users[k].password == Some(Hashed(password));
      assert p(users[k]);
      var i := UsernameIndex(users, name).value;
      assert p(users[i]);
      assert i == k;
    }
  }

  /** Whoever registers can log in with the same name and password, and gets the same session
      user. */
  lemma RegisterThenLogin(users: seq<User>, username: string, password: string, id: nat, now: int)
    requires RegisterEffect(users, username, password, id, now).1.Registered?
    ensures var (t, r) := RegisterEffect(users, username, password, id, now);
      LoginResult(t, username, password) == LoggedIn(r.session)
  {
    var (t, r) := RegisterEffect(users, username, password, id, now);
    RegisterSucceedsIff(users, username, password, id, now);
    var p := (x: User) => x.username == Trim(username);
    assert t == users + [t[|users|]];
    FirstWhereAppend(users, t[|users|], p);
  }

  /** White space around the name changes neither a registration nor a login: both endpoints act
      as if the trimmed name had been typed. */
  lemma SurroundingSpaceIgnored(users: seq<User>, username: string, password: string, id: nat, now: int)
    ensures RegisterEffect(users, username, password, id, now) == RegisterEffect(users, Trim(username), password, id, now)
    ensures LoginResult(users, username, password) == LoginResult(users, Trim(username), password)
  {
    TrimIdempotent(username);
  }

  // ---------------------------------------------------------------------------------------------
  // Lemmas about `mockSocialLogin`

  /** The mock name is the provider with its first letter upper-cased, then "User". */
  lemma MockUsernameShape(provider: string)
    requires provider != []
    ensures MockUsername(provider) == [UpperChar(provider[0])] + provider[1..] + "User"
  {
  }

  lemma GoogleUser()
    ensures MockUsername("google") == "GoogleUser"
  {
    var c := Capitalize("google");
    assert c == [UpperChar('g')] + "oogle";
    assert UpperChar('g') == 'G';
  }

  /** Find-or-create: the collection grows by at most one user, and a second call with the same
      provider finds the user the first one found or created, and creates nothing. */
  lemma SocialLoginFindsOrCreates(users: seq<User>, provider: string, id: nat, now: int, id2: nat, later: int)
    ensures var (t, r) := SocialEffect(users, provider, id, now);
      && |users| <= |t| <= |users| + 1
      && (r.SocialSession? ==>
           var (t2, r2) := SocialEffect(t, provider, id2, later);
           t2 == t && r2.SocialSession? && r2.session.id == r.session.id)
  {
    var name := MockUsername(provider);
    var (t, r) := SocialEffect(users, provider, id, now);
    var p := (x: User) => x.username == Trim(name);
    if UsernameIndex(users, Trim(name)).None? && r.SocialSession? {
      var u := CreateUser(users, name, MockPassword, id, now).user;
      assert t == users + [u] && u.username == Trim(name);
      FirstWhereAppend(users, u, p);
    }
  }

  // ---------------------------------------------------------------------------------------------
  // Lemmas about `updateProfile`

  /** Without a session user and without an authenticated request user the answer is 401 and
      nothing changes; with either, the answer is never 401. */
  lemma ProfileUnauthorizedIff(users: seq<User>, session: Option<SessionUser>, passportId: Option<nat>,
                               displayName: Option<string>, email: Option<string>)
    ensures var (t, s, r) := ProfileEffect(users, session, passportId, displayName, email);
      && (ProfileStatus(r) == 401 <==> session.None? && passportId.None?)
      && (ProfileStatus(r) == 401 ==> t == users && s == session && r == NoSession(Unauthorized))
  {
  }

  /** An unknown user id is answered 404 "User not found" and nothing changes. */
  lemma ProfileUnknownUser(users: seq<User>, session: Option<SessionUser>, passportId: Option<nat>,
                           displayName: Option<string>, email: Option<string>)
    requires RequestUserId(session, passportId).Some?
    requires forall k :: 0 <= k < |users| ==> users[k].id != RequestUserId(session, passportId).value
    ensures ProfileEffect(users, session, passportId, displayName, email) ==
      (users, session, ProfileNotFound(UserNotFound))
  {
    var id := RequestUserId(session, passportId).value;
    var p := (x: User) => x.id == id;
    assert forall k :: 0 <= k < |users| ==> !p(users[k]);
  }

  /** A successful update changes only the user it acts for, and of that user only the display
      name and email, each only when submitted truthy, and then to its set value; every other
      field, and every other user, is kept. */
  lemma ProfileUpdatesTruthyFieldsOnly(users: seq<User>, session: Option<SessionUser>, passportId: Option<nat>,
                                       displayName: Option<string>, email: Option<string>)
    requires ProfileEffect(users, session, passportId, displayName, email).2.ProfileUpdated?
    ensures var (t, _, r) := ProfileEffect(users, session, passportId, displayName, email);
      var i := UserIdIndex(users, RequestUserId(session, passportId).value).value;
      && |t| == |users| && i < |users|
      && (forall k :: 0 <= k < |users| && k != i ==> t[k] == users[k])
      && t[i] == r.user
      && r.user.(displayName := users[i].displayName, email := users[i].email) == users[i]
      && r.user.displayName == (if Truthy(displayName) then Some(Trim(displayName.value)) else users[i].displayName)
      && r.user.email == (if Truthy(email) then Some(Lower(Trim(email.value))) else users[i].email)
  {
  }

  /** After an update, the session user shows each submitted truthy field as submitted (neither
      trimmed nor lower-cased), while the stored user holds its set value. */
  lemma ProfileSessionShowsSubmitted(users: seq<User>, s0: SessionUser, passportId: Option<nat>,
                                     displayName: Option<string>, email: Option<string>)
    requires ProfileEffect(users, Some(s0), passportId, displayName, email).2.ProfileUpdated?
    ensures var (_, s, r) := ProfileEffect(users, Some(s0), passportId, displayName, email);
      && s.Some? && s.value.id == s0.id && s.value.username == s0.username && s.value.provider == s0.provider
      && s.value.displayName == (if Truthy(displayName) then displayName else r.user.displayName)
      && s.value.email == (if Truthy(email) then email else r.user.email)
  {
  }
}
