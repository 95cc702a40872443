/**
 * Registration and login of staff accounts (backend/src/service/auth.service.ts).
 * Password hashing and token signing are foreign libraries (bcrypt, JSON Web
 * Tokens); they appear as functions carried in parameters, about which the
 * model assumes nothing.
 */
module AuthService {
  import opened Wrappers
  import opened Seqs
  import opened Records

  /** The body of a registration request; `role` may be left out. */
  datatype RegisterRequest = RegisterRequest(
    username: string,
    password: string,
    fullName: string,
    email: string,
    role: Option<Role>)

  datatype LoginRequest = LoginRequest(email: string, password: string)

  /**
   * bcrypt: `hash(password, costFactor, salt)` and `compare(password, storedHash)`.
   * The salt is drawn at random by the library, so callers supply it.
   */
  datatype PasswordHasher = PasswordHasher(
    hash: (string, nat, nat) -> string,
    compare: (string, string) -> bool)

  /** The claims signed into a bearer token. */
  datatype TokenPayload = TokenPayload(email: string, id: Id, role: Role)

  /**
   * `jwt.sign(payload, secret, { expiresIn })`, the secret fixed by the
   * environment. The library stamps the token with the current time (`iat`)
   * and with that time plus `expiresIn` (`exp`), so the clock is an argument.
   */
  datatype TokenSigner = TokenSigner(sign: (TokenPayload, nat, Instant) -> string)

  /** The bcrypt cost factor passed to `hash`. */
  const SaltRounds: nat := 10

  /** `expiresIn: '1h'`, in seconds. */
  const OneHour: nat := 3600

  /** The role stored when the request names none (the schema default). */
  const DefaultRole: Role := Doctor

  const DuplicateEmail := "A user with this username already exists."
  const Registered := "User Registered Successfully"
  const UserNotFound := "User not found"
  const InvalidPassword := "Invalid Password"

  /** The `email` column is a unique key. */
  ghost predicate EmailsUnique(users: seq<User>) {
    forall i, j :: 0 <= i < j < |users| ==> users[i].email != users[j].email
  }

  /** `findUnique({ where: { email } })`. */
  function FindUserByEmail(users: seq<User>, email: string): (r: Option<User>)
    ensures r.Some? ==> r.value in users && r.value.email == email
    ensures r.None? <==> forall i :: 0 <= i < |users| ==> users[i].email != email
  {
    FindWhere(users, (u: User) => u.email == email)
  }

  /** `findUnique({ where: { id } })`. */
  function FindUserById(users: seq<User>, id: Id): (r: Option<User>)
    ensures r.Some? ==> r.value in users && r.value.id == id
    ensures r.None? <==> forall i :: 0 <= i < |users| ==> users[i].id != id
  {
    FindWhere(users, (u: User) => u.id == id)
  }

  /** What `register` returns: the created row as stored, with a message. */
  datatype Registration = Registration(user: User, message: string)

  /** The user table. */
  class UserTable {
    var users: seq<User>
    var nextId: Id

    /** Ids and emails are unique; every id was issued before `nextId`. */
    ghost predicate Valid()
      reads this
    {
      && UniqueBy(users, UserId)
      && EmailsUnique(users)
      && forall i :: 0 <= i < |users| ==> users[i].id < nextId
    }

    constructor ()
      ensures Valid() && users == []
    {
      users := [];
      nextId := 0;
    }

    /**
     * `register`: refuse an email that is already taken, otherwise store the
     * user with the hash of the password and return the stored row.
     */
    method Register(req: RegisterRequest, hasher: PasswordHasher, salt: nat, now: Instant)
      returns (r: Result<Registration, string>)
      requires Valid()
      modifies this
      ensures Valid()
      ensures r.Failure? <==> exists i :: 0 <= i < |old(users)| && old(users)[i].email == req.email
      ensures r.Failure? ==> r.error == DuplicateEmail && users == old(users)
      ensures r.Success? ==> users == old(users) + [r.value.user] && r.value.message == Registered
      ensures r.Success? ==> forall i :: 0 <= i < |old(users)| ==> old(users)[i].id != r.value.user.id
      ensures r.Success? ==>
        && r.value.user.email == req.email
        && r.value.user.fullName == req.fullName
        && r.value.user.role == req.role.GetOr(DefaultRole)
        && r.value.user.password == hasher.hash(req.password, SaltRounds, salt)
        && r.value.user.createdAt == now
    {
      var existing := FindUserByEmail(users, req.email);
      if existing.Some? {
        r := Failure(DuplicateEmail);
      } else {
        var hashed := hasher.hash(req.password, SaltRounds, salt);
        var user := User(nextId, req.email, hashed, req.fullName, req.role.GetOr(DefaultRole), now);
        users := users + [user];
        nextId := nextId + 1;
        r := Success(Registration(user, Registered));
      }
    }
  }

  /** The user part of a login answer: no password field. */
  datatype UserSummary = UserSummary(id: Id, email: string, role: Role, fullName: string)

  datatype LoginDetails = LoginDetails(token: string, user: UserSummary)

  /**
   * `login`: find the user by email, check the password against the stored
   * hash, then sign {email, id, role} for one hour.
   */
  function Login(users: seq<User>, req: LoginRequest, hasher: PasswordHasher, signer: TokenSigner, now: Instant)
    : (r: Result<LoginDetails, string>)
    requires EmailsUnique(users)
    ensures (forall i :: 0 <= i < |users| ==> users[i].email != req.email) ==> r == Failure(UserNotFound)
    ensures forall i :: 0 <= i < |users| && users[i].email == req.email ==>
      if hasher.compare(req.password, users[i].password) then
        r == Success(LoginDetails(
          signer.sign(TokenPayload(users[i].email, users[i].id, users[i].role), OneHour, now),
          UserSummary(users[i].id, users[i].email, users[i].role, users[i].fullName)))
      else r == Failure(InvalidPassword)
  {
    match FindUserByEmail(users, req.email)
    case None => Failure(UserNotFound)
    case Some(user) =>
      if !hasher.compare(req.password, user.password) then Failure(InvalidPassword)
      else
        var token := signer.sign(TokenPayload(user.email, user.id, user.role), OneHour, now);
        Success(LoginDetails(token, UserSummary(user.id, user.email, user.role, user.fullName)))
  }

  /** A failed login never yields a token: wrong password means failure whatever was signed. */
  lemma WrongPasswordNoToken(users: seq<User>, req: LoginRequest, hasher: PasswordHasher, signer: TokenSigner, now: Instant, u: User)
    requires EmailsUnique(users)
    requires u in users && u.email == req.email && !hasher.compare(req.password, u.password)
    ensures Login(users, req, hasher, signer, now) == Failure(InvalidPassword)
  {
    var i :| 0 <= i < |users| && users[i] == u;
  }
}
