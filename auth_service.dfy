/** The authentication service: registration delegated to the user
    service, and login as a decision over the username lookup, with token
    signing passed in as a function. */
module AuthService {
  import opened Common
  import opened Entities
  import opened UserService

  /** The payload signed into a token. */
  datatype Claims = Claims(username: string, sub: string)

  datatype AccessToken = AccessToken(accessToken: string)

  /** What login answers, and the message of the error it caught and logged
      instead of raising, if any. */
  datatype LoginResult = LoginResult(response: Option<AccessToken>, logged: Option<string>)

  const UserNotFound := "User Not Found"
  const InvalidCredentials := "Invalid Credentials"

  /** login: `lookup` is what `findByUsername` produced (a user, null, or an
      error it raised) and `sign` the token signer (a token, or the error it
      raised). A token is issued exactly when the user exists, its stored
      `pwdHash` equals the password and signing succeeds; every failure,
      a signing failure included, is caught, logged and answered with no
      token. */
  function Login(lookup: Result<Option<User>, string>, password: string,
                 sign: Claims -> Result<string, string>): (r: LoginResult)
    ensures r.response.Some? <==>
      && lookup.Success? && lookup.value.Some? && lookup.value.value.pwdHash == password
      && sign(Claims(lookup.value.value.username, lookup.value.value.id)).Success?
    ensures r.response.Some? ==>
      r.response.value == AccessToken(sign(Claims(lookup.value.value.username, lookup.value.value.id)).value)
      && r.logged.None?
    ensures r.response.None? ==> r.logged.Some?
    ensures lookup == Success(None) ==> r.logged == Some(UserNotFound)
    ensures lookup.Success? && lookup.value.Some? && lookup.value.value.pwdHash != password ==>
      r.logged == Some(InvalidCredentials)
    ensures lookup.Success? && lookup.value.Some? && lookup.value.value.pwdHash == password
            && sign(Claims(lookup.value.value.username, lookup.value.value.id)).Failure? ==>
      r == LoginResult(None, Some(sign(Claims(lookup.value.value.username, lookup.value.value.id)).error))
    ensures lookup.Failure? ==> r == LoginResult(None, Some(lookup.error))
  {
    match lookup
    case Failure(e) => LoginResult(None, Some(e))
    case Success(found) =>
      match found
      case None => LoginResult(None, Some(UserNotFound))
      case Some(user) =>
        if user.pwdHash != password then LoginResult(None, Some(InvalidCredentials))
        else
          match sign(Claims(user.username, user.id))
          case Failure(e) => LoginResult(None, Some(e))
          case Success(token) => LoginResult(Some(AccessToken(token)), None)
  }

  /** register: the user service's result, its conflict error included, is
      passed through unchanged. */
  method Register(users: UserStore, username: string, password: string, id: string) returns (r: Result<User, string>)
    requires users.Valid()
    requires FindById(users.users, id).None?
    modifies users
    ensures users.Valid()
    ensures FindByUsername(old(users.users), username).Some? ==>
              r == Failure(UsernameTaken) && users.users == old(users.users)
    ensures FindByUsername(old(users.users), username).None? ==>
              r == Success(User(id, username, password)) && users.users == old(users.users) + [r.value]
  {
    r := users.Register(username, password, id);
  }

  /** Against a table with unique usernames, logging in as a stored user
      yields a token exactly when the password is the stored one and the
      signer signs that user's claims. */
  lemma LoginStoredUser(users: seq<User>, k: nat, password: string, sign: Claims -> Result<string, string>)
    requires UniqueUsernames(users)
    requires k < |users|
    ensures var r := Login(Success(FindByUsername(users, users[k].username)), password, sign);
            var signed := sign(Claims(users[k].username, users[k].id));
            && (r.response.Some? <==> password == users[k].pwdHash && signed.Success?)
            && (r.response.Some? ==> r.response.value == AccessToken(signed.value))
  {
    FindStoredUser(users, k);
  }

  /** After a successful registration, logging in with the same password
      yields a token for the new user whenever the signer signs its claims,
      and with any other password none. */
  lemma LoginAfterRegister(users: seq<User>, username: string, password: string, id: string,
                           other: string, sign: Claims -> Result<string, string>)
    requires FindByUsername(users, username).None?
    ensures var after := users + [User(id, username, password)];
            var signed := sign(Claims(username, id));
            && (signed.Success? ==>
                 Login(Success(FindByUsername(after, username)), password, sign).response
                   == Some(AccessToken(signed.value)))
            && (signed.Failure? ==>
                 Login(Success(FindByUsername(after, username)), password, sign)
                   == LoginResult(None, Some(signed.error)))
            && (other != password ==>
                 Login(Success(FindByUsername(after, username)), other, sign).response.None?)
  {
    FindAfterAppend(users, User(id, username, password), username);
  }

  /** The three outcomes of the login examples. */
  lemma LoginExamples(sign: Claims -> Result<string, string>)
    requires sign(Claims("alice", "user-123")) == Success("signed.jwt.token")
    ensures Login(Success(Some(User("user-123", "alice", "pass"))), "pass", sign).response
              == Some(AccessToken("signed.jwt.token"))
    ensures Login(Success(None), "whatever", sign) == LoginResult(None, Some(UserNotFound))
    ensures Login(Success(Some(User("user-123", "alice", "correct"))), "wrongPassword", sign)
              == LoginResult(None, Some(InvalidCredentials))
  {
  }

  /** A signer that raises (a missing secret, say) is caught like every
      other failure: no token, and its message is logged. */
  lemma LoginSignerFails(sign: Claims -> Result<string, string>)
    requires sign(Claims("alice", "user-123")) == Failure("secretOrPrivateKey must have a value")
    ensures Login(Success(Some(User("user-123", "alice", "pass"))), "pass", sign)
              == LoginResult(None, Some("secretOrPrivateKey must have a value"))
  {
  }
}
