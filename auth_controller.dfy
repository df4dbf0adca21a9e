/** `register` and `login` of backend/src/controllers/authController.js.
    Hashing is `HashPassword`/`PasswordMatches`; a signed token is
    represented by the claims it carries (signing and expiry are not part
    of this model). */
module AuthController {
  import opened Common
  import opened UserModel

  /** The role every registration issues. */
  const EmployeeRole: string := "Calisan"

  datatype RegisterBody = RegisterBody(
    email: Option<string>,
    password: Option<string>,
    firstName: Option<string>,
    lastName: Option<string>,
    role: Option<string>)

  datatype LoginBody = LoginBody(email: Option<string>, password: Option<string>)

  /** A successful register or login: the token (by its claims) and the
      user fields sent back beside it. */
  datatype Session = Session(token: Claims, user: Claims)

  /** The claims a registration signs and echoes: id, email, role and names. */
  function RegisterClaims(u: User): Claims
  {
    Claims(u.id, u.email, u.role, Some(u.firstName), Some(u.lastName))
  }

  /** The claims a login signs and echoes: id, email and role only. */
  function LoginClaims(u: User): Claims
  {
    Claims(u.id, u.email, u.role, None, None)
  }

  /** Some stored user has this email and a hash this password matches. */
  predicate CanLogIn(users: map<nat, User>, email: string, password: string)
  {
    exists id :: id in users && users[id].email == email && PasswordMatches(password, users[id].passwordHash)
  }

  /** All four fields present and non-empty. */
  predicate RegisterComplete(body: RegisterBody)
  {
    Truthy(body.email) && Truthy(body.password) && Truthy(body.firstName) && Truthy(body.lastName)
  }

  /** `register`: a missing field, then a taken email, each give 400 and
      add nobody; otherwise exactly one user is added, with role "Calisan"
      whatever the body says and the hash of the password, never the
      password itself. */
  method Register(db: UserTable, body: RegisterBody, salt: nat) returns (resp: Response<Session>)
    requires db.Valid()
    modifies db
    ensures db.Valid()
    ensures !RegisterComplete(body) ==>
      && resp == Failure(400, "All fields are required")
      && db.users == old(db.users) && db.nextId == old(db.nextId)
    ensures RegisterComplete(body) && EmailTaken(old(db.users), body.email.value) ==>
      && resp == Failure(400, "Email already registered")
      && db.users == old(db.users) && db.nextId == old(db.nextId)
    ensures RegisterComplete(body) && !EmailTaken(old(db.users), body.email.value) ==>
      var u := User(old(db.nextId), body.email.value, HashPassword(body.password.value, salt),
                    EmployeeRole, body.firstName.value, body.lastName.value);
      && old(db.nextId) !in old(db.users)
      && db.users == old(db.users)[old(db.nextId) := u]
      && db.nextId == old(db.nextId) + 1
      && resp == Success(201, Session(RegisterClaims(u), RegisterClaims(u)))
  {
    if !Truthy(body.email) || !Truthy(body.password) || !Truthy(body.firstName) || !Truthy(body.lastName) {
      return Failure(400, "All fields are required");
    }
    var email := body.email.value;
    if exists id :: id in db.users && db.users[id].email == email {
      return Failure(400, "Email already registered");
    }
    var role := "Calisan";
    var passwordHash := HashPassword(body.password.value, salt);
    var user := User(db.nextId, email, passwordHash, role, body.firstName.value, body.lastName.value);
    db.users := db.users[db.nextId := user];
    db.nextId := db.nextId + 1;
    var claims := Claims(user.id, user.email, user.role, Some(user.firstName), Some(user.lastName));
    resp := Success(201, Session(claims, claims));
  }

  /** `login`: a missing email or password gives 400; an unknown email
      and a wrong password give the same 401; it succeeds exactly when a
      user with that email exists and the password matches its hash. */
  method Login(db: UserTable, body: LoginBody) returns (resp: Response<Session>)
    requires db.Valid()
    ensures !Truthy(body.email) || !Truthy(body.password) ==>
      resp == Failure(400, "Email and password required")
    ensures Truthy(body.email) && Truthy(body.password) ==>
      (resp.Success? <==> CanLogIn(db.users, body.email.value, body.password.value))
    ensures Truthy(body.email) && Truthy(body.password) && !CanLogIn(db.users, body.email.value, body.password.value) ==>
      resp == Failure(401, "Invalid credentials.")
    ensures resp.Success? ==>
      exists id :: id in db.users && db.users[id].email == body.email.value
        && resp == Success(200, Session(LoginClaims(db.users[id]), LoginClaims(db.users[id])))
  {
    if !Truthy(body.email) || !Truthy(body.password) {
      return Failure(400, "Email and password required");
    }
    var email := body.email.value;
    if !exists id :: id in db.users && db.users[id].email == email {
      return Failure(401, "Invalid credentials.");
    }
    var id :| id in db.users && db.users[id].email == email;
    var user := db.users[id];
    var matches := PasswordMatches(body.password.value, user.passwordHash);
    if !matches {
      return Failure(401, "Invalid credentials.");
    }
    var claims := Claims(user.id, user.email, user.role, None, None);
    resp := Success(200, Session(claims, claims));
  }

  /** Registering with a fresh email keeps emails unique and makes a
      login with that email succeed with the registered password, and fail
      with any password whose first 72 characters differ from it. */
  lemma RegisterThenLogin(users: map<nat, User>, n: nat, email: string, password: string,
                          salt: nat, firstName: string, lastName: string, other: string)
    requires UniqueEmails(users) && !EmailTaken(users, email) && n !in users
    requires BcryptKey(other) != BcryptKey(password)
    ensures var after := users[n := User(n, email, HashPassword(password, salt), EmployeeRole, firstName, lastName)];
            && UniqueEmails(after)
            && CanLogIn(after, email, password)
            && !CanLogIn(after, email, other)
  {
    var after := users[n := User(n, email, HashPassword(password, salt), EmployeeRole, firstName, lastName)];
    assert after[n].email == email && PasswordMatches(password, after[n].passwordHash);
    assert forall id :: id in after && id != n ==> after[id].email != email;
  }

  /** The other side of truncation: after the same registration, a login
      with a longer password that shares the first 72 characters of the
      registered one succeeds too. */
  lemma RegisteredPrefixLogsIn(users: map<nat, User>, n: nat, email: string, password: string,
                               salt: nat, firstName: string, lastName: string, other: string)
    requires |password| >= BcryptInputLimit && |other| >= BcryptInputLimit
    requires password[..BcryptInputLimit] == other[..BcryptInputLimit]
    ensures var after := users[n := User(n, email, HashPassword(password, salt), EmployeeRole, firstName, lastName)];
            CanLogIn(after, email, other)
  {
    CompareIgnoresTail(password, other, salt);
    var after := users[n := User(n, email, HashPassword(password, salt), EmployeeRole, firstName, lastName)];
    assert after[n].email == email && PasswordMatches(other, after[n].passwordHash);
  }
}
