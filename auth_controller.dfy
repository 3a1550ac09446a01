/**
 * The authentication controller: `signup`, `login` and the `protect`
 * middleware. Token signing and verification (jsonwebtoken) and bcrypt are
 * parameters; the users collection is the one of UserModel.
 */
module AuthController {
  import opened Wrappers
  import opened Js
  import opened Http
  import opened UserModel

  /**
   * `signToken(id)`: a token for the user id, or the message `jwt.sign`
   * throws (with no secret configured, say); secret, expiry and clock live
   * inside the issuer.
   */
  type Signer = string -> Result<string, string>

  /** The claims a verified token carries: the user id and `iat`, its issue time in seconds. */
  datatype Claims = Claims(id: string, iat: int)

  /** `jwt.verify(token, secret)`: the claims, or the library's error message. */
  type Verifier = string -> Result<Claims, string>

  const BearerScheme := "Bearer"
  const NotLoggedIn := "You are not logged in. Please log in to get access"
  const UserNoLongerExists := "The user no longer exists!"
  const PasswordChangedSinceToken := "User recently changed password. Please log in again"
  const MissingCredentials := "Please provide email and password!"
  const IncorrectCredentials := "Incorrect email or password"
  /** What bcrypt rejects `compare(plain, undefined)` with. */
  const HashMissing := "Illegal arguments: string, undefined"

  /** The part of a request `protect` reads and writes. */
  class Request {
    const authorization: Option<string>   // req.headers.authorization
    var userID: Option<string>            // req.userID
    var user: Option<User>                // req.user

    constructor (authorization: Option<string>)
      ensures this.authorization == authorization && userID == None && user == None
    {
      this.authorization := authorization;
      userID := None;
      user := None;
    }
  }

  /**
   * The token `protect` takes from the Authorization header: when the header
   * is truthy and starts with "Bearer" (no space required), the second
   * space-separated piece, which may be empty; otherwise `undefined`.
   */
  function HeaderToken(authorization: Option<string>): Option<string>
  {
    if Truthy(authorization) && StartsWith(authorization.value, BearerScheme) then
      var pieces := Split(authorization.value, ' ');
      if |pieces| > 1 then Some(pieces[1]) else None
    else None
  }

  /**
   * The token is the text between the first and the second space of a header
   * that starts with "Bearer", and there is none unless both hold.
   */
  lemma {:induction false} HeaderTokenIsSecondPiece(authorization: Option<string>)
    ensures HeaderToken(authorization) ==
      if authorization.Some? && StartsWith(authorization.value, BearerScheme)
      then SecondPiece(authorization.value, ' ')
      else None
    ensures HeaderToken(authorization).Some? ==> ' ' !in HeaderToken(authorization).value
  {
    if authorization.Some? {
      SplitSecondPiece(authorization.value, ' ');
    }
  }

  /**
   * A header made of a word that starts with "Bearer", one space and a token
   * free of spaces yields exactly that token. The prefix test is loose:
   * "BearerXYZ abc" yields "abc" as well.
   */
  lemma {:induction false} SchemeAndTokenYieldToken(scheme: string, token: string)
    requires StartsWith(scheme, BearerScheme) && ' ' !in scheme && ' ' !in token
    ensures HeaderToken(Some(scheme + " " + token)) == Some(token)
  {
    var h := scheme + " " + token;
    assert h == scheme + [' '] + token;
    assert StartsWith(h, BearerScheme) by {
      assert h[..|BearerScheme|] == scheme[..|BearerScheme|];
    }
    SplitAtSeparator(scheme, token, ' ');
    SplitNoSeparator(token, ' ');
  }

  /** Two spaces after the scheme leave an empty, and so falsy, token. */
  lemma {:induction false} DoubleSpaceEmptyToken(rest: string)
    ensures HeaderToken(Some("Bearer  " + rest)) == Some("")
  {
    var h := "Bearer  " + rest;
    assert h == "Bearer" + [' '] + ([' '] + rest);
    SplitAtSeparator("Bearer", [' '] + rest, ' ');
    assert [' '] + rest == [] + [' '] + rest;
    SplitAtSeparator([], rest, ' ');
  }

  /** The claims `protect` obtains: there is a truthy token and the verifier accepts it. */
  function VerifiedClaims(authorization: Option<string>, verify: Verifier): Option<Claims>
  {
    var token := HeaderToken(authorization);
    if !Truthy(token) then None
    else
      match verify(token.value)
      case Success(claims) => Some(claims)
      case Failure(_) => None
  }

  /** What `protect` decides for a request. */
  datatype Decision = Admit(user: User) | Reject(error: Error)

  /**
   * The four ordered checks of `protect`: a token, a verified token, a user
   * that still exists, a token not older than the last password change.
   */
  function Gate(authorization: Option<string>, verify: Verifier, users: seq<User>): (d: Decision)
    ensures d.Admit? <==>
      && VerifiedClaims(authorization, verify).Some?
      && FindById(users, VerifiedClaims(authorization, verify).value.id).Some?
      && !ChangedPasswordAfter(FindById(users, VerifiedClaims(authorization, verify).value.id).value,
                               VerifiedClaims(authorization, verify).value.iat)
    ensures d.Admit? ==>
      && d.user == FindById(users, VerifiedClaims(authorization, verify).value.id).value
      && d.user.id == VerifiedClaims(authorization, verify).value.id
      && d.user.password.None?
  {
    var token := HeaderToken(authorization);
    if !Truthy(token) then Reject(Message(NotLoggedIn))
    else
      match verify(token.value)
      case Failure(message) => Reject(Message(message))
      case Success(claims) =>
        match FindById(users, claims.id)
        case None => Reject(Message(UserNoLongerExists))
        case Some(user) =>
          if ChangedPasswordAfter(user, claims.iat) then Reject(Message(PasswordChangedSinceToken))
          else Admit(user)
  }

  /** Without a truthy token the request is refused before the verifier or the users are consulted. */
  lemma NoTokenRejected(authorization: Option<string>, verify: Verifier, users: seq<User>, verify': Verifier, users': seq<User>)
    requires !Truthy(HeaderToken(authorization))
    ensures Gate(authorization, verify, users) == Reject(Message(NotLoggedIn))
    ensures Gate(authorization, verify, users) == Gate(authorization, verify', users')
  {
  }

  /** A token the verifier refuses is refused with the verifier's message, whatever the users are. */
  lemma VerificationFailureRejected(authorization: Option<string>, verify: Verifier, users: seq<User>, users': seq<User>)
    requires Truthy(HeaderToken(authorization))
    requires verify(HeaderToken(authorization).value).Failure?
    ensures Gate(authorization, verify, users) == Reject(Message(verify(HeaderToken(authorization).value).error))
    ensures Gate(authorization, verify, users) == Gate(authorization, verify, users')
  {
  }

  /** A verified token whose user is gone is refused with "The user no longer exists!". */
  lemma UserGoneRejected(authorization: Option<string>, verify: Verifier, users: seq<User>)
    requires VerifiedClaims(authorization, verify).Some?
    requires FindById(users, VerifiedClaims(authorization, verify).value.id).None?
    ensures Gate(authorization, verify, users) == Reject(Message(UserNoLongerExists))
  {
  }

  /**
   * A token issued for a user, presented as "Bearer <token>", admits that
   * user unless the password was changed in a later second than the token's
   * issue time.
   */
  lemma {:induction false} IssuedTokenAdmitted(token: string, verify: Verifier, users: seq<User>, u: User)
    requires token != [] && ' ' !in token
    requires verify(token).Success?
    requires FindById(users, verify(token).value.id) == Some(u)
    ensures Gate(Some(BearerScheme + " " + token), verify, users) ==
      if ChangedPasswordAfter(u, verify(token).value.iat) then Reject(Message(PasswordChangedSinceToken))
      else Admit(u)
  {
    SchemeAndTokenYieldToken(BearerScheme, token);
  }

  /** For a change at ms >= 0, a verified token is refused as stale exactly when the change is in a later second. */
  lemma {:induction false} StaleTokenRejected(authorization: Option<string>, verify: Verifier, users: seq<User>, u: User, ms: int)
    requires VerifiedClaims(authorization, verify).Some?
    requires FindById(users, VerifiedClaims(authorization, verify).value.id) == Some(u)
    requires u.passwordChangedAt == Some(ms) && ms >= 0
    ensures Gate(authorization, verify, users) == Reject(Message(PasswordChangedSinceToken))
        <==> (VerifiedClaims(authorization, verify).value.iat + 1) * 1000 <= ms
    ensures Gate(authorization, verify, users).Admit?
        <==> ms < (VerifiedClaims(authorization, verify).value.iat + 1) * 1000
  {
    ChangedAfterExactly(u, VerifiedClaims(authorization, verify).value.iat, ms);
  }

  /** `protect`: runs the four checks in order, stopping at the first that fails. */
  method Protect(req: Request, verify: Verifier, users: UserCollection) returns (next: Next)
    modifies req
    ensures next == match Gate(req.authorization, verify, users.users)
                    case Admit(_) => Proceed
                    case Reject(e) => NextWithError(e)
    ensures req.userID == match VerifiedClaims(req.authorization, verify)
                          case Some(claims) => Some(claims.id)
                          case None => old(req.userID)
    ensures req.user == match Gate(req.authorization, verify, users.users)
                        case Admit(u) => Some(u)
                        case Reject(_) => old(req.user)
  {
    var token: Option<string> := None;
    var auth := req.authorization;
    if Truthy(auth) && StartsWith(auth.value, BearerScheme) {
      var pieces := Split(auth.value, ' ');
      token := if |pieces| > 1 then Some(pieces[1]) else None;
    }
    if !Truthy(token) {
      return NextWithError(Message(NotLoggedIn));
    }
    var decoded := verify(token.value);
    if decoded.Failure? {
      return NextWithError(Message(decoded.error));
    }
    req.userID := Some(decoded.value.id);
    var freshUser := FindById(users.users, decoded.value.id);
    if freshUser.None? {
      return NextWithError(Message(UserNoLongerExists));
    }
    if ChangedPasswordAfter(freshUser.value, decoded.value.iat) {
      return NextWithError(Message(PasswordChangedSinceToken));
    }
    req.user := freshUser;
    next := Proceed;
  }

  /** What `signup` and `login` send on success. */
  datatype AuthPayload = SignedUp(token: string, user: User) | LoggedIn(token: string)

  /** The first user with this email has a stored hash that matches the password. */
  predicate Authenticates(users: seq<User>, email: string, password: string, compare: Comparer)
  {
    var found := FindByEmailWithPassword(users, email);
    found.Some? && found.value.password.Some? && compare(password, found.value.password.value)
  }

  /** `login`: both fields present, then one message for an unknown email and for a wrong password. */
  method Login(body: Body, users: UserCollection, compare: Comparer, sign: Signer) returns (r: Outcome<AuthPayload>)
    ensures !Truthy(Field(body, "email")) || !Truthy(Field(body, "password")) ==>
      r == NextError(Message(MissingCredentials))
    ensures r.Sent? <==>
      && Truthy(Field(body, "email")) && Truthy(Field(body, "password"))
      && Authenticates(users.users, Field(body, "email").value, Field(body, "password").value, compare)
      && sign(FindByEmailWithPassword(users.users, Field(body, "email").value).value.id).Success?
    ensures r.Sent? ==>
      r == Sent(200, LoggedIn(sign(FindByEmailWithPassword(users.users, Field(body, "email").value).value.id).value))
    ensures (&& Truthy(Field(body, "email")) && Truthy(Field(body, "password"))
             && Authenticates(users.users, Field(body, "email").value, Field(body, "password").value, compare)
             && sign(FindByEmailWithPassword(users.users, Field(body, "email").value).value.id).Failure?) ==>
      r == NextError(Message(sign(FindByEmailWithPassword(users.users, Field(body, "email").value).value.id).error))
    ensures Truthy(Field(body, "email")) && Truthy(Field(body, "password")) ==>
      var found := FindByEmailWithPassword(users.users, Field(body, "email").value);
      && (found.None? ==> r == NextError(Message(IncorrectCredentials)))
      && (found.Some? && found.value.password.Some?
          && !compare(Field(body, "password").value, found.value.password.value)
          ==> r == NextError(Message(IncorrectCredentials)))
      && (found.Some? && found.value.password.None? ==> r == NextError(Message(HashMissing)))
  {
    var email := Field(body, "email");
    var password := Field(body, "password");
    if !Truthy(email) || !Truthy(password) {
      return NextError(Message(MissingCredentials));
    }
    var user := FindByEmailWithPassword(users.users, email.value);
    if user.None? {
      return NextError(Message(IncorrectCredentials));
    }
    if user.value.password.None? {
      return NextError(Message(HashMissing));
    }
    if !compare(password.value, user.value.password.value) {
      return NextError(Message(IncorrectCredentials));
    }
    var token := sign(user.value.id);
    if token.Failure? {
      return NextError(Message(token.error));
    }
    r := Sent(200, LoggedIn(token.value));
  }

  /** A stored user with a hash logs in with a password that matches it, and gets a token for its own id. */
  lemma {:induction false} StoredUserLogsIn(users: UserCollection, u: User, password: string, compare: Comparer)
    requires users.Valid() && u in users.users
    requires u.email.Some? && u.password.Some? && compare(password, u.password.value)
    ensures Authenticates(users.users, u.email.value, password, compare)
    ensures FindByEmailWithPassword(users.users, u.email.value).value.id == u.id
  {
    FindByEmailOfUnique(users.users, u);
  }

  /**
   * The document `signup` hands to `User.create`: the name, email, password
   * and passwordConfirm of the body, and the id the database assigns.
   */
  function SignupFields(body: Body, newId: string): User
  {
    User(newId, Field(body, "name"), Field(body, "email"), None,
         Field(body, "password"), Field(body, "passwordConfirm"), None, None, None)
  }

  /** Body fields other than the four are ignored: a `role` or `passwordChangedAt` in the body changes nothing. */
  lemma SignupIgnoresOtherFields(body: Body, body': Body, newId: string)
    requires forall k :: k in {"name", "email", "password", "passwordConfirm"} ==> Field(body, k) == Field(body', k)
    ensures SignupFields(body, newId) == SignupFields(body', newId)
    ensures SignupFields(body, newId).passwordChangedAt.None? && SignupFields(body, newId).photo.None?
  {
    assert Field(body, "name") == Field(body', "name");
    assert Field(body, "email") == Field(body', "email");
    assert Field(body, "password") == Field(body', "password");
    assert Field(body, "passwordConfirm") == Field(body', "passwordConfirm");
  }

  /**
   * `signup`: create the user from the four fields; on success send 201 with
   * a token for the new id and the created user, hashed password included.
   * When signing throws, the user is already stored and the error goes to `next`.
   */
  method Signup(body: Body, newId: string, users: UserCollection, isEmail: EmailCheck, hash: Hasher, sign: Signer)
    returns (r: Outcome<AuthPayload>)
    requires users.Valid()
    modifies users
    ensures users.Valid()
    ensures r == match Creation(old(users.users), SignupFields(body, newId), isEmail, hash)
                 case Success(u) =>
                   (match sign(u.id)
                    case Success(token) => Sent(201, SignedUp(token, u))
                    case Failure(message) => NextError(Message(message)))
                 case Failure(e) => NextError(e)
    ensures users.users == match Creation(old(users.users), SignupFields(body, newId), isEmail, hash)
                           case Success(u) => old(users.users) + [u]
                           case Failure(_) => old(users.users)
  {
    var created := users.Create(SignupFields(body, newId), isEmail, hash);
    if created.Failure? {
      return NextError(created.error);
    }
    var token := sign(created.value.id);
    if token.Failure? {
      return NextError(Message(token.error));
    }
    r := Sent(201, SignedUp(token.value, created.value));
  }

  /** A signup that succeeds returns the new id's token and the stored user, whose password is the bcrypt hash. */
  lemma SignupReplyCarriesHash(body: Body, newId: string, users: seq<User>, isEmail: EmailCheck, hash: Hasher)
    requires Creation(users, SignupFields(body, newId), isEmail, hash).Success?
    ensures var u := Creation(users, SignupFields(body, newId), isEmail, hash).value;
      && u.id == newId
      && u.password == Some(hash(Field(body, "password").value, HashCost))
      && u.passwordConfirm.None?
      && u.email == MapOption(Field(body, "email"), Trim)
  {
  }
}
