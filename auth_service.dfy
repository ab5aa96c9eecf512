/** Registration and login over the user table. Password hashing (the user model's save hook),
    password comparison (`comparePassword`) and token issuing (`generateToken`) are functions
    the service is given and whose internals are not modelled. */
module AuthService {
  import opened Wrappers

  type UserId = nat

  /** A stored user; the password is kept only as its hash. */
  datatype User = User(id: UserId, email: string, passwordHash: string, name: string)

  /** The user part of an authentication response: id, email and name, never the hash. */
  datatype PublicUser = PublicUser(id: UserId, email: string, name: string)

  datatype AuthResponse = AuthResponse(token: string, user: PublicUser)

  datatype AuthError = AuthError(message: string)

  const UserExistsMessage: string := "User already exists"
  const InvalidCredentialsMessage: string := "Invalid credentials"

  /** `User.findOne({ email })`: the first user whose email is exactly `email`. */
  function FindByEmail(users: seq<User>, email: string): (r: Option<User>)
    ensures r.Some? ==> r.value in users && r.value.email == email
    ensures r.None? <==> forall u :: u in users ==> u.email != email
  {
    if users == [] then None
    else if users[0].email == email then Some(users[0])
    else FindByEmail(users[1..], email)
  }

  /** The response for an authenticated user: its public fields and a token issued for (id, email). */
  function ResponseFor(u: User, issue: (UserId, string) -> string): AuthResponse {
    AuthResponse(issue(u.id, u.email), PublicUser(u.id, u.email, u.name))
  }

  /** `loginUser`: an unknown email and a wrong password fail with one and the same message. */
  function Login(users: seq<User>, email: string, password: string,
                 compare: (string, string) -> bool, issue: (UserId, string) -> string)
    : (r: Result<AuthResponse, AuthError>)
    ensures r.Failure? ==> r.error == AuthError(InvalidCredentialsMessage)
    ensures r.Failure? <==>
      (FindByEmail(users, email).None? || !compare(password, FindByEmail(users, email).value.passwordHash))
    ensures r.Success? ==>
      (exists u :: u in users && u.email == email && compare(password, u.passwordHash) && r.value == ResponseFor(u, issue))
  {
    match FindByEmail(users, email)
    case None => Failure(AuthError(InvalidCredentialsMessage))
    case Some(user) =>
      if !compare(password, user.passwordHash) then Failure(AuthError(InvalidCredentialsMessage))
      else Success(ResponseFor(user, issue))
  }

  /** No two users share an email, and every id is below the next one to hand out. */
  predicate UsersValid(users: seq<User>, nextId: UserId) {
    && (forall i, j :: 0 <= i < j < |users| ==> users[i].email != users[j].email)
    && (forall i :: 0 <= i < |users| ==> users[i].id < nextId)
  }

  /** The outcome of a registration: the result, and the table and id counter afterwards. */
  datatype Registration = Registration(result: Result<AuthResponse, AuthError>, users: seq<User>, nextId: UserId)

  /** `registerUser`: refused, with the table unchanged, when a user with exactly this email
      exists; otherwise exactly one user, with a fresh id and the hashed password, is added and
      its response is returned. */
  function Register(users: seq<User>, nextId: UserId, email: string, password: string, name: string,
                    hash: string -> string, issue: (UserId, string) -> string): (g: Registration)
    ensures g.result.Failure? <==> exists u :: u in users && u.email == email
    ensures g.result.Failure? ==>
      g.result.error == AuthError(UserExistsMessage) && g.users == users && g.nextId == nextId
    ensures g.result.Success? ==>
      var u := User(nextId, email, hash(password), name);
      && g.users == users + [u] && g.nextId == nextId + 1
      && g.result.value == ResponseFor(u, issue)
  {
    if FindByEmail(users, email).Some? then Registration(Failure(AuthError(UserExistsMessage)), users, nextId)
    else
      var u := User(nextId, email, hash(password), name);
      Registration(Success(ResponseFor(u, issue)), users + [u], nextId + 1)
  }

  /** Registration keeps emails unique and ids fresh. */
  lemma RegisterKeepsValid(users: seq<User>, nextId: UserId, email: string, password: string, name: string,
                           hash: string -> string, issue: (UserId, string) -> string)
    requires UsersValid(users, nextId)
    ensures var g := Register(users, nextId, email, password, name, hash, issue); UsersValid(g.users, g.nextId)
  {
    var g := Register(users, nextId, email, password, name, hash, issue);
    if g.result.Success? {
      var u := User(nextId, email, hash(password), name);
      forall i | 0 <= i < |users| ensures users[i].email != email {
        assert users[i] in users;
      }
      assert forall i :: 0 <= i < |users| ==> g.users[i] == users[i];
      assert g.users[|users|] == u;
    }
  }

  /** A user appended with a new email is the one a lookup by that email finds. */
  lemma {:induction false} FindAppended(users: seq<User>, u: User, email: string)
    requires forall x :: x in users ==> x.email != u.email
    ensures FindByEmail(users + [u], email) ==
      if email == u.email then Some(u) else FindByEmail(users, email)
  {
    if users == [] {
      assert [] + [u] == [u];
    } else {
      assert (users + [u])[0] == users[0] && (users + [u])[1..] == users[1..] + [u];
      FindAppended(users[1..], u, email);
    }
  }

  /** After a successful registration the new user can log in with the same password (as long as
      comparison accepts a password against its own hash) and gets the response registration
      gave; logins under every other email behave as before. */
  lemma LoginAfterRegister(users: seq<User>, nextId: UserId, email: string, password: string, name: string,
                           other: string, otherPassword: string,
                           hash: string -> string, compare: (string, string) -> bool, issue: (UserId, string) -> string)
    requires compare(password, hash(password))
    requires other != email
    ensures var g := Register(users, nextId, email, password, name, hash, issue);
      g.result.Success? ==>
        && Login(g.users, email, password, compare, issue) == g.result
        && Login(g.users, other, otherPassword, compare, issue) == Login(users, other, otherPassword, compare, issue)
  {
    var g := Register(users, nextId, email, password, name, hash, issue);
    if g.result.Success? {
      var u := User(nextId, email, hash(password), name);
      FindAppended(users, u, email);
      FindAppended(users, u, other);
    }
  }

  /** The user table and the functions registration and login are given. */
  class AuthStore {
    var users: seq<User>
    var nextId: UserId
    const hash: string -> string
    const compare: (string, string) -> bool
    const issue: (UserId, string) -> string

    ghost predicate Valid()
      reads this
    {
      UsersValid(users, nextId)
    }

    constructor (hash: string -> string, compare: (string, string) -> bool, issue: (UserId, string) -> string)
      ensures Valid() && users == [] && nextId == 0
      ensures this.hash == hash && this.compare == compare && this.issue == issue
    {
      users := [];
      nextId := 0;
      this.hash := hash;
      this.compare := compare;
      this.issue := issue;
    }

    /** `registerUser` on the stored table (`User.findOne`, then `User.create`). */
    method RegisterUser(email: string, password: string, name: string) returns (r: Result<AuthResponse, AuthError>)
      requires Valid()
      modifies this`users, this`nextId
      ensures Valid()
      ensures Registration(r, users, nextId) == Register(old(users), old(nextId), email, password, name, hash, issue)
    {
      RegisterKeepsValid(users, nextId, email, password, name, hash, issue);
      var existingUser := FindByEmail(users, email);
      if existingUser.Some? {
        return Failure(AuthError(UserExistsMessage));
      }
      var user := User(nextId, email, hash(password), name);
      users := users + [user];
      nextId := nextId + 1;
      r := Success(ResponseFor(user, issue));
    }
  }
}
