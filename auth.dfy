/** The authentication controller: registration inserts into the user table,
    login and "who am I" are decisions over a read of it. Password hashing,
    hash comparison and token signing are passed in as functions; nothing is
    assumed about them except where a lemma says so. */
module Auth {
  import opened Common
  import opened Schemas

  datatype User = User(
    id: UserId, email: string, passwordHash: string,
    firstName: string, lastName: string, role: Role, active: bool)

  /** What registration and login answer with: the user without the hash. */
  datatype UserView = UserView(id: UserId, email: string, firstName: string, lastName: string, role: Role)

  /** What "who am I" answers with: the view plus the active flag. */
  datatype Profile = Profile(id: UserId, email: string, firstName: string, lastName: string, role: Role, active: bool)

  datatype Session = Session(token: string, user: UserView)

  function View(u: User): (v: UserView)
    ensures v.id == u.id && v.email == u.email && v.role == u.role
    ensures v.firstName == u.firstName && v.lastName == u.lastName
  {
    UserView(u.id, u.email, u.firstName, u.lastName, u.role)
  }

  const EmailTaken: Failure := AppError(409, "User with this email already exists")
  const BadCredentials: Failure := AppError(401, "Invalid email or password")
  const Deactivated: Failure := AppError(403, "Account has been deactivated")
  const NotAuthenticated: Failure := AppError(401, "Not authenticated")
  const UserNotFound: Failure := AppError(404, "User not found")

  /** The table's unique constraint on email. */
  ghost predicate EmailsUnique(users: map<UserId, User>) {
    forall a, b :: a in users && b in users && users[a].email == users[b].email ==> a == b
  }

  predicate Registered(users: map<UserId, User>, email: string) {
    exists id :: id in users && users[id].email == email
  }

  /** `findUnique({ where: { email } })`. */
  function FindByEmail(users: map<UserId, User>, email: string): (r: Option<User>)
    requires EmailsUnique(users)
    ensures r.Some? <==> Registered(users, email)
    ensures r.Some? ==> exists id :: id in users && users[id] == r.value && r.value.email == email
  {
    if Registered(users, email) then
      var id :| id in users && users[id].email == email;
      Some(users[id])
    else None
  }

  /** POST /auth/login. */
  function Login(users: map<UserId, User>, raw: RawLogin, isEmail: string -> bool,
                 compare: (string, string) -> bool, sign: Payload -> string): (r: Result<Session, Failure>)
    requires EmailsUnique(users)
    ensures ParseLogin(raw, isEmail).Err? ==> r == Err(ValidationFailed)
    ensures ParseLogin(raw, isEmail).Ok? && !Registered(users, raw.email.value) ==> r == Err(BadCredentials)
    ensures forall id :: id in users && ParseLogin(raw, isEmail).Ok? && users[id].email == raw.email.value ==>
      var u := users[id];
      && (!u.active ==> r == Err(Deactivated))
      && (u.active && !compare(raw.password.value, u.passwordHash) ==> r == Err(BadCredentials))
      && (u.active && compare(raw.password.value, u.passwordHash) ==>
            r == Ok(Session(sign(Payload(u.id, u.email, RoleName(u.role))), View(u))))
  {
    match ParseLogin(raw, isEmail)
    case Err(e) => Err(e)
    case Ok(creds) =>
      match FindByEmail(users, creds.email)
      case None => Err(BadCredentials)
      case Some(u) =>
        if !u.active then Err(Deactivated)
        else if !compare(creds.password, u.passwordHash) then Err(BadCredentials)
        else Ok(Session(sign(Payload(u.id, u.email, RoleName(u.role))), View(u)))
  }

  /** A caller cannot tell an unknown email from a wrong password. */
  lemma UnknownEmailLooksLikeWrongPassword(
    users: map<UserId, User>, raw: RawLogin, isEmail: string -> bool,
    compare: (string, string) -> bool, sign: Payload -> string,
    others: map<UserId, User>, id: UserId)
    requires EmailsUnique(users) && EmailsUnique(others)
    requires ParseLogin(raw, isEmail).Ok?
    requires !Registered(users, raw.email.value)
    requires id in others && others[id].email == raw.email.value && others[id].active
    requires !compare(raw.password.value, others[id].passwordHash)
    ensures Login(users, raw, isEmail, compare, sign) == Login(others, raw, isEmail, compare, sign)
  {
  }

  /** A deactivated account is refused before the password is looked at. */
  lemma DeactivatedIgnoresPassword(
    users: map<UserId, User>, raw: RawLogin, isEmail: string -> bool,
    compare: (string, string) -> bool, compare': (string, string) -> bool, sign: Payload -> string, id: UserId)
    requires EmailsUnique(users)
    requires ParseLogin(raw, isEmail).Ok?
    requires id in users && users[id].email == raw.email.value && !users[id].active
    ensures Login(users, raw, isEmail, compare, sign) == Err(Deactivated)
    ensures Login(users, raw, isEmail, compare, sign) == Login(users, raw, isEmail, compare', sign)
  {
  }

  /** GET /auth/me: the signed-in user's profile, active or not. */
  function GetMe(users: map<UserId, User>, user: Option<Payload>): (r: Result<Profile, Failure>)
    ensures user.None? ==> r == Err(NotAuthenticated)
    ensures user.Some? && user.value.userId !in users ==> r == Err(UserNotFound)
    ensures r.Ok? <==> user.Some? && user.value.userId in users
    ensures r.Ok? ==>
      var u := users[user.value.userId];
      r.value == Profile(u.id, u.email, u.firstName, u.lastName, u.role, u.active)
  {
    if user.None? then Err(NotAuthenticated)
    else if user.value.userId !in users then Err(UserNotFound)
    else
      var u := users[user.value.userId];
      Ok(Profile(u.id, u.email, u.firstName, u.lastName, u.role, u.active))
  }

  /** Deactivating an account does not stop its token from reading the profile. */
  lemma GetMeIgnoresActive(users: map<UserId, User>, p: Payload)
    requires p.userId in users
    ensures GetMe(users[p.userId := users[p.userId].(active := false)], Some(p)).Ok?
    ensures GetMe(users[p.userId := users[p.userId].(active := false)], Some(p)).value.active == false
  {
  }

  class UserDirectory {
    var users: map<UserId, User>
    var nextId: UserId

    ghost predicate Valid()
      reads this
    {
      && (forall k :: k in users ==> k < nextId && users[k].id == k)
      && EmailsUnique(users)
    }

    constructor ()
      ensures Valid() && users == map[] && nextId == 0
    {
      users := map[];
      nextId := 0;
    }

    /** POST /auth/register. A new user has role STAFF unless one is given,
        and is active. */
    method Register(raw: RawRegistration, isEmail: string -> bool, hash: string -> string)
      returns (r: Result<UserView, Failure>)
      requires Valid()
      modifies this
      ensures Valid()
      ensures ParseRegistration(raw, isEmail).Err? ==> r == Err(ValidationFailed)
      ensures ParseRegistration(raw, isEmail).Ok? && old(Registered(users, raw.email.value)) ==> r == Err(EmailTaken)
      ensures r.Ok? <==> ParseRegistration(raw, isEmail).Ok? && !old(Registered(users, raw.email.value))
      ensures r.Err? ==> users == old(users) && nextId == old(nextId)
      ensures r.Ok? ==>
        var reg := ParseRegistration(raw, isEmail).value;
        var u := User(old(nextId), reg.email, hash(reg.password), reg.firstName, reg.lastName,
                      reg.role.GetOr(Staff), true);
        && users == old(users)[old(nextId) := u]
        && nextId == old(nextId) + 1
        && r.value == View(u)
    {
      var parsed := ParseRegistration(raw, isEmail);
      if parsed.Err? {
        return Err(ValidationFailed);
      }
      var reg := parsed.value;
      var existing := FindByEmail(users, reg.email);
      if existing.Some? {
        return Err(EmailTaken);
      }
      var hashed := hash(reg.password);
      var u := User(nextId, reg.email, hashed, reg.firstName, reg.lastName, reg.role.GetOr(Staff), true);
      users := users[nextId := u];
      nextId := nextId + 1;
      r := Ok(View(u));
    }
  }

  /** With a comparison that accepts a password against its own hash, a
      freshly registered user can log in with the same email and password,
      and the token names that user. */
  method RegisterThenLogin(dir: UserDirectory, raw: RawRegistration, isEmail: string -> bool,
                           hash: string -> string, compare: (string, string) -> bool, sign: Payload -> string)
    returns (reg: Result<UserView, Failure>, login: Result<Session, Failure>)
    requires dir.Valid()
    requires forall p :: compare(p, hash(p))
    modifies dir
    ensures dir.Valid()
    ensures reg.Ok? ==> login.Ok? && login.value.user == reg.value
    ensures reg.Ok? ==> login.value.token == sign(Payload(reg.value.id, reg.value.email, RoleName(reg.value.role)))
  {
    reg := dir.Register(raw, isEmail, hash);
    login := Login(dir.users, RawLogin(raw.email, raw.password), isEmail, compare, sign);
    if reg.Ok? {
      RegistrationBodyIsLoginBody(raw, isEmail);
      var id := dir.nextId - 1;
      assert id in dir.users && dir.users[id].email == raw.email.value;
    }
  }
}
