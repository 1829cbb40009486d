/**
 * Access tokens, password hashing and the bearer-token check of
 * backend/server.py.
 *
 * The JWT library and bcrypt are not modelled; each is a pair of functions
 * that the backend is given, together with the one law the backend relies on:
 * a token decodes to the claims it was made from, and a password verifies
 * against its own hash.
 */
module Auth {
  import opened Wrappers
  import opened Models

  /** `ACCESS_TOKEN_EXPIRE_MINUTES`: the lifetime register and login ask for. */
  const AccessTokenExpireMinutes := 30
  /** The lifetime `create_access_token` falls back to. */
  const DefaultExpireMinutes := 15

  const SubjectClaim := "sub"
  const ExpiryClaim := "exp"

  /** A claim value: a string, or an instant in minutes (the `exp` datetime). */
  datatype ClaimValue = Text(text: string) | Instant(minutes: int)

  /** The payload of a token, a dictionary of claims. */
  type Claims = map<string, ClaimValue>

  /** A signed-token scheme: `jwt.encode` and `jwt.decode` under the server key. */
  datatype TokenCodec = TokenCodec(encode: Claims -> string, decode: string -> Option<Claims>)
  {
    /** Every token the server issues decodes to the claims it was issued with. */
    ghost predicate Invertible()
    {
      forall c :: decode(encode(c)) == Some(c)
    }
  }

  /** A password scheme: `get_password_hash` and `verify_password`. */
  datatype PasswordScheme = PasswordScheme(hash: string -> string, verify: (string, string) -> bool)
  {
    /** A password always verifies against its own hash. */
    ghost predicate Sound()
    {
      forall p :: verify(p, hash(p))
    }
  }

  /**
   * The claims `create_access_token` signs: a copy of `data` with `exp`
   * set to the expiry. A delta that is absent or zero (a zero `timedelta`
   * is false in Python) gives the default lifetime.
   */
  function AccessClaims(data: Claims, expiresDelta: Option<int>, now: int): (c: Claims)
    ensures c.Keys == data.Keys + {ExpiryClaim}
    ensures forall k :: k in data && k != ExpiryClaim ==> c[k] == data[k]
    ensures expiresDelta.Some? && expiresDelta.value != 0 ==> c[ExpiryClaim] == Instant(now + expiresDelta.value)
    ensures expiresDelta.None? || expiresDelta.value == 0 ==> c[ExpiryClaim] == Instant(now + DefaultExpireMinutes)
  {
    var expire := if expiresDelta.Some? && expiresDelta.value != 0
                  then now + expiresDelta.value
                  else now + DefaultExpireMinutes;
    data[ExpiryClaim := Instant(expire)]
  }

  /** The claims register and login sign for `email`. */
  function LoginClaims(email: string, now: int): Claims
  {
    AccessClaims(map[SubjectClaim := Text(email)], Some(AccessTokenExpireMinutes), now)
  }

  /** The tokens register and login hand out carry the email as `sub` and expire 30 minutes later. */
  lemma LoginClaimsContents(email: string, now: int)
    ensures LoginClaims(email, now).Keys == {SubjectClaim, ExpiryClaim}
    ensures LoginClaims(email, now)[SubjectClaim] == Text(email)
    ensures LoginClaims(email, now)[ExpiryClaim] == Instant(now + 30)
  {
  }

  /** The email a token's claims name, when `sub` is present and a string. */
  function Subject(claims: Claims): Option<string>
  {
    if SubjectClaim in claims && claims[SubjectClaim].Text? then Some(claims[SubjectClaim].text) else None
  }

  /**
   * `get_current_user`: the stored user that a bearer token names. A token
   * that does not decode, that has no `sub`, or whose `sub` names no stored
   * user is refused with the same 401.
   */
  function Authenticate(users: map<string, User>, codec: TokenCodec, token: string): (r: Result<User, HttpError>)
    ensures r.Err? ==> r.error == BadCredentials
    ensures r.Err? <==> (|| codec.decode(token).None?
                         || Subject(codec.decode(token).value).None?
                         || Subject(codec.decode(token).value).value !in users)
    ensures r.Ok? ==> exists e :: e in users && r.value == users[e] && codec.decode(token) != None && Subject(codec.decode(token).value) == Some(e)
  {
    match codec.decode(token)
    case None => Err(BadCredentials)
    case Some(payload) =>
      match Subject(payload)
      case None => Err(BadCredentials)
      case Some(email) =>
        if email in users then Ok(users[email]) else Err(BadCredentials)
  }

  /** A token carrying the login claims of a stored email authenticates as that email's user. */
  lemma IssuedTokenAuthenticates(users: map<string, User>, codec: TokenCodec, token: string, email: string, now: int)
    requires codec.decode(token) == Some(LoginClaims(email, now))
    requires email in users
    ensures Authenticate(users, codec, token) == Ok(users[email])
  {
    LoginClaimsContents(email, now);
  }

  /** A token carrying the login claims of an email that is not stored is refused. */
  lemma TokenForUnknownEmailRefused(users: map<string, User>, codec: TokenCodec, token: string, email: string, now: int)
    requires codec.decode(token) == Some(LoginClaims(email, now))
    requires email !in users
    ensures Authenticate(users, codec, token) == Err(BadCredentials)
  {
    LoginClaimsContents(email, now);
  }

  /**
   * The credential check of `login`: an unknown email and a wrong password
   * give the same 401.
   */
  function CheckPassword(users: map<string, User>, passwords: PasswordScheme, email: string, password: string): (r: Result<User, HttpError>)
    ensures r.Ok? <==> email in users && passwords.verify(password, users[email].hashedPassword)
    ensures r.Ok? ==> r.value == users[email]
    ensures r.Err? ==> r.error == BadLogin
  {
    if email !in users || !passwords.verify(password, users[email].hashedPassword)
    then Err(BadLogin)
    else Ok(users[email])
  }

  /** A user stored with the hash of a password can log in with that password. */
  lemma StoredHashAcceptsPassword(users: map<string, User>, passwords: PasswordScheme, email: string, password: string)
    requires passwords.Sound()
    requires email in users && users[email].hashedPassword == passwords.hash(password)
    ensures CheckPassword(users, passwords, email, password) == Ok(users[email])
  {
    assert passwords.verify(password, passwords.hash(password));
  }

  /** The body `get_current_user_info` builds from a stored user. */
  function UserInfoOf(u: User): UserInfo
  {
    UserInfo(u.id, u.email, u.phone, u.createdAt)
  }
}
