/** `UserService`: registration with unique emails, login and the user lookups. Password
    hashing, password checking and token signing are parameters: `hash`, `verify`, `sign`. */
module UserService {
  import opened Wrappers
  import opened PyJson
  import opened PyStr
  import opened Documents
  import opened Http
  import opened UserRepository

  /** The reply of a successful login. */
  datatype Token = Token(accessToken: string, tokenType: string)

  const EmailTaken := HttpError(BadRequest, "Email already registered")
  const BadCredentials := HttpError(Unauthorized, "Invalid credentials")
  const NoUser := HttpError(NotFound, "User not found")

  /** `register(email, password, role)`: 400 and no change when the email is taken;
      otherwise the user is created with the hash of the password, never the password, and
      emails that were unique stay unique. */
  method Register(users: Collection, email: string, password: string, role: string, hash: string -> string)
    returns (r: Result<Doc, HttpError>)
    modifies users
    ensures GetByEmail(old(users.docs), email).Some? ==> r == Failure(EmailTaken) && users.docs == old(users.docs)
    ensures GetByEmail(old(users.docs), email).None? ==>
      (r == Success(UserDoc(NextId(old(users.docs), IdKey), email, hash(password), role))
       && users.docs == old(users.docs) + [r.value])
    ensures Unique(old(users.docs), EmailKey) ==> Unique(users.docs, EmailKey)
  {
    if GetByEmail(users.docs, email).Some? {
      return Failure(EmailTaken);
    }
    ghost var before := users.docs;
    var user := UserRepository.Create(users, email, hash(password), role);
    if Unique(before, EmailKey) {
      InsertFreshKeepsUnique(before, EmailKey, user);
    }
    r := Success(user);
  }

  /** A text field of a stored user. */
  function Text(d: Doc, key: string): string {
    if key in d && d[key].JStr? then d[key].s else ""
  }

  /** `login(email, password)`: 401 when no user has the email or the password does not
      check against the stored hash; otherwise a bearer token whose subject is the user's id
      in decimal. */
  function Login(docs: seq<Doc>, email: string, password: string, verify: (string, string) -> bool,
                 sign: string -> string): (r: Result<Token, HttpError>)
    ensures r.Failure? <==> GetByEmail(docs, email).None? || !verify(password, Text(GetByEmail(docs, email).value, HashKey))
    ensures r.Failure? ==> r.error == BadCredentials
    ensures r.Success? ==> (r.value.tokenType == "bearer"
      && r.value.accessToken == sign(IntToDecimal(IdOf(GetByEmail(docs, email).value, IdKey))))
  {
    match GetByEmail(docs, email)
    case None => Failure(BadCredentials)
    case Some(user) =>
      if !verify(password, Text(user, HashKey)) then Failure(BadCredentials)
      else Success(Token(sign(IntToDecimal(IdOf(user, IdKey))), "bearer"))
  }

  /** Registering and then logging in with the same password succeeds whenever the password
      checks against its own hash, and the token names the new user's id. */
  lemma LoginAfterRegister(docs: seq<Doc>, email: string, password: string, role: string, hash: string -> string,
                           verify: (string, string) -> bool, sign: string -> string)
    requires GetByEmail(docs, email).None?
    requires verify(password, hash(password))
    ensures var user := UserDoc(NextId(docs, IdKey), email, hash(password), role);
      Login(docs + [user], email, password, verify, sign) == Success(Token(sign(IntToDecimal(NextId(docs, IdKey))), "bearer"))
  {
    var user := UserDoc(NextId(docs, IdKey), email, hash(password), role);
    InsertedIsFound(docs, By(EmailKey, JStr(email)), user);
  }

  /** Distinct user ids give distinct token subjects. */
  lemma SubjectsDistinct(a: int, b: int)
    requires a != b
    ensures IntToDecimal(a) != IntToDecimal(b)
  {
    if a >= 0 && b >= 0 {
      DecimalRoundTrip(a);
      DecimalRoundTrip(b);
    } else if a < 0 && b < 0 {
      DecimalRoundTrip(-a);
      DecimalRoundTrip(-b);
      assert IntToDecimal(a)[1..] == NatToDecimal(-a) && IntToDecimal(b)[1..] == NatToDecimal(-b);
    } else {
      var n := if a < 0 then a else b;
      assert IntToDecimal(n)[0] == '-';
      assert IsDigit(NatToDecimal(if a < 0 then b else a)[0]);
    }
  }

  /** `get_user(user_id)`: the user with that id, or 404 exactly when there is none. */
  function GetUser(docs: seq<Doc>, userId: int): (r: Result<Doc, HttpError>)
    ensures r.Failure? <==> forall j | 0 <= j < |docs| :: !Matches(docs[j], By(IdKey, JInt(userId)))
    ensures r.Failure? ==> r.error == NoUser
    ensures r.Success? ==> r.value in docs && IdKey in r.value && r.value[IdKey] == JInt(userId)
  {
    match FindOne(docs, By(IdKey, JInt(userId)))
    case None => Failure(NoUser)
    case Some(user) => Success(user)
  }

  /** `delete_user(user_id)`: True with the user removed, or 404 with no change exactly when
      there was no such user. */
  method DeleteUser(users: Collection, userId: int) returns (r: Result<bool, HttpError>)
    modifies users
    ensures r.Failure? <==> GetUser(old(users.docs), userId).Failure?
    ensures r.Failure? ==> r.error == NoUser && users.docs == old(users.docs)
    ensures r.Success? ==> r.value
    ensures users.docs == RemoveFirst(old(users.docs), By(IdKey, JInt(userId)))
  {
    var deleted := UserRepository.Delete(users, userId);
    if !deleted {
      return Failure(NoUser);
    }
    r := Success(true);
  }
}
