/**
 * Registration and login: the request body is checked against a schema,
 * the user store is consulted and, for registration, extended; a signed
 * access token is returned on success.
 *
 * The user store is the users collection keyed by phone. Hashing, token
 * signing and the database's id generation enter as parameters.
 */
module AuthController {
  import opened Wrappers
  import opened Text
  import opened Json
  import opened UserModel

  // ---------------------------------------------------------------------
  // request schemas

  /** Why a body fails its schema; the first failing key in schema order is reported. */
  datatype BodyError =
    | NotAnObject
    | Required(key: string)
    | NotAString(key: string)
    | Empty(key: string)
    | PatternMismatch(key: string)
    | TooShort(key: string)
    | NotOneOf(key: string)
    | NotAllowed(keys: set<string>)

  datatype RegisterInput = RegisterInput(name: string, phone: string, password: string, role: Option<Role>)

  datatype LoginInput = LoginInput(phone: string, password: string)

  /** A required text key, trimmed first when `trim` is set; the empty text is refused. */
  function RequiredText(m: map<string, Json>, key: string, trim: bool): (r: Result<string, BodyError>)
    ensures r.Ok? <==> key in m && m[key].JStr? && (if trim then Trim(m[key].s) else m[key].s) != ""
    ensures r.Ok? ==> r.value == if trim then Trim(m[key].s) else m[key].s
  {
    if key !in m then Err(Required(key))
    else match m[key]
      case JStr(s) =>
        var t := if trim then Trim(s) else s;
        if t == "" then Err(Empty(key)) else Ok(t)
      case _ => Err(NotAString(key))
  }

  /** The optional role: absent, or exactly one of the two role names. */
  function OptionalRole(m: map<string, Json>): Result<Option<Role>, BodyError>
  {
    if "role" !in m then Ok(None)
    else match m["role"]
      case JStr(s) => if ParseRole(s).Some? then Ok(ParseRole(s)) else Err(NotOneOf("role"))
      case _ => Err(NotOneOf("role"))
  }

  const RegisterKeys: set<string> := {"name", "phone", "password", "role"}

  const LoginKeys: set<string> := {"phone", "password"}

  /**
   * The registration schema: name a non-empty trimmed text, phone a
   * trimmed text matching the phone pattern, password a text of at least 8
   * code units, role optional but a known role, and no other keys.
   */
  function ValidateRegister(body: Json): Result<RegisterInput, BodyError>
  {
    if !body.JObj? then Err(NotAnObject)
    else
      var m := body.fields;
      var name := RequiredText(m, "name", true);
      var phone := RequiredText(m, "phone", true);
      var password := RequiredText(m, "password", false);
      var role := OptionalRole(m);
      if name.Err? then Err(name.error)
      else if phone.Err? then Err(phone.error)
      else if !PhonePattern(phone.value) then Err(PatternMismatch("phone"))
      else if password.Err? then Err(password.error)
      else if Utf16Length(password.value) < 8 then Err(TooShort("password"))
      else if role.Err? then Err(role.error)
      else if m.Keys - RegisterKeys != {} then Err(NotAllowed(m.Keys - RegisterKeys))
      else Ok(RegisterInput(name.value, phone.value, password.value, role.value))
  }

  /** The login schema: phone a non-empty trimmed text, password a non-empty text, no other keys. */
  function ValidateLogin(body: Json): Result<LoginInput, BodyError>
  {
    if !body.JObj? then Err(NotAnObject)
    else
      var m := body.fields;
      var phone := RequiredText(m, "phone", true);
      var password := RequiredText(m, "password", false);
      if phone.Err? then Err(phone.error)
      else if password.Err? then Err(password.error)
      else if m.Keys - LoginKeys != {} then Err(NotAllowed(m.Keys - LoginKeys))
      else Ok(LoginInput(phone.value, password.value))
  }

  /**
   * What the registration schema lets through already satisfies the user
   * model's validators, and its texts are already trimmed.
   */
  lemma RegisterSchemaImpliesModel(body: Json)
    requires ValidateRegister(body).Ok?
    ensures var v := ValidateRegister(body).value;
            Trim(v.name) == v.name && Trim(v.phone) == v.phone
            && Validates(v.name, v.phone, v.password)
  {
    var m := body.fields;
    TrimIdempotent(m["name"].s);
    TrimIdempotent(m["phone"].s);
  }

  // ---------------------------------------------------------------------
  // tokens and replies

  datatype StoredUser = StoredUser(id: string, name: string, phone: string, passwordHash: string, role: Role)

  /** The token payload. */
  datatype Claims = Claims(userId: string, role: Role)

  datatype SignOptions = SignOptions(algorithm: string, expiresIn: string)

  const TokenOptions: SignOptions := SignOptions("HS256", "1h")

  /**
   * `signToken`: a missing or empty secret throws (`None`); otherwise the
   * user's id and role are signed with HS256 and a one-hour expiry.
   */
  function SignToken(u: StoredUser, secret: Option<string>, sign: (Claims, string, SignOptions) -> string): (t: Option<string>)
    ensures t.None? <==> secret.None? || secret.value == ""
    ensures t.Some? ==> t.value == sign(Claims(u.id, u.role), secret.value, SignOptions("HS256", "1h"))
  {
    if secret.None? || secret.value == "" then None
    else Some(sign(Claims(u.id, u.role), secret.value, TokenOptions))
  }

  /** A reply: success with a token (200), a schema failure (400), or an error status with its message. */
  datatype Reply = Success(accessToken: string) | Rejected(error: BodyError) | Failure(status: nat, message: string)

  function StatusCode(r: Reply): nat
  {
    match r
    case Success(_) => 200
    case Rejected(_) => 400
    case Failure(s, _) => s
  }

  const PhoneTaken: Reply := Failure(409, "Phone already registered")

  const InvalidCredentials: Reply := Failure(401, "Invalid credentials")

  const ServerError: Reply := Failure(500, "Server error")

  // ---------------------------------------------------------------------
  // register and login

  datatype Step = Step(reply: Reply, users: map<string, StoredUser>)

  /**
   * `register`: schema, then the phone lookup, then the save (validation
   * and hashing), then the token. The user is already stored when token
   * signing fails.
   */
  function RegisterStep(users: map<string, StoredUser>, body: Json, newId: string, secret: Option<string>,
                        hasher: Hasher, sign: (Claims, string, SignOptions) -> string): Step
  {
    match ValidateRegister(body)
    case Err(e) => Step(Rejected(e), users)
    case Ok(v) =>
      if v.phone in users then Step(PhoneTaken, users)
      else if !Validates(Trim(v.name), Trim(v.phone), v.password) then Step(ServerError, users)
      else
        match hasher.hash(v.password)
        case None => Step(ServerError, users)
        case Some(h) =>
          var u := StoredUser(newId, Trim(v.name), Trim(v.phone), h, v.role.GetOr(DefaultRole));
          var stored := users[u.phone := u];
          match SignToken(u, secret, sign)
          case None => Step(ServerError, stored)
          case Some(t) => Step(Success(t), stored)
  }

  /** `login`: schema, lookup, password check, token; unknown phone and wrong password look the same. */
  function LoginReply(users: map<string, StoredUser>, body: Json, secret: Option<string>,
                      hasher: Hasher, sign: (Claims, string, SignOptions) -> string): Reply
  {
    match ValidateLogin(body)
    case Err(e) => Rejected(e)
    case Ok(v) =>
      if v.phone !in users then InvalidCredentials
      else if !hasher.matches(v.password, users[v.phone].passwordHash) then InvalidCredentials
      else
        match SignToken(users[v.phone], secret, sign)
        case None => ServerError
        case Some(t) => Success(t)
  }

  /** Every stored user is filed under its own phone, and that phone is valid. */
  predicate WellKeyed(users: map<string, StoredUser>)
  {
    forall p :: p in users ==> users[p].phone == p && ValidPhone(p)
  }

  /** A body failing the schema gets 400 before any lookup: the store is unchanged. */
  lemma RegisterRejectsFirst(users: map<string, StoredUser>, body: Json, newId: string, secret: Option<string>,
                             hasher: Hasher, sign: (Claims, string, SignOptions) -> string)
    ensures var step := RegisterStep(users, body, newId, secret, hasher, sign);
            (StatusCode(step.reply) == 400 <==> ValidateRegister(body).Err?)
            && (ValidateRegister(body).Err? ==> step.users == users)
  {
  }

  /** A phone already stored gets 409 and the store is unchanged. */
  lemma RegisterDuplicate(users: map<string, StoredUser>, body: Json, newId: string, secret: Option<string>,
                          hasher: Hasher, sign: (Claims, string, SignOptions) -> string)
    requires ValidateRegister(body).Ok? && ValidateRegister(body).value.phone in users
    ensures RegisterStep(users, body, newId, secret, hasher, sign) == Step(PhoneTaken, users)
  {
  }

  /**
   * A successful registration stores exactly one new user, under the new
   * phone, with the hashed password and the given or default role, and
   * keeps the store well keyed.
   */
  lemma RegisterAddsOne(users: map<string, StoredUser>, body: Json, newId: string, secret: Option<string>,
                        hasher: Hasher, sign: (Claims, string, SignOptions) -> string)
    requires WellKeyed(users)
    requires RegisterStep(users, body, newId, secret, hasher, sign).reply.Success?
    ensures var v := ValidateRegister(body).value;
            var step := RegisterStep(users, body, newId, secret, hasher, sign);
            && v.phone !in users
            && step.users.Keys == users.Keys + {v.phone}
            && |step.users.Keys| == |users.Keys| + 1
            && step.users[v.phone] == StoredUser(newId, v.name, v.phone, hasher.hash(v.password).value, v.role.GetOr(DefaultRole))
            && (forall p :: p in users ==> step.users[p] == users[p])
            && WellKeyed(step.users)
  {
    RegisterStores(users, body, newId, secret, hasher, sign);
    var v := ValidateRegister(body).value;
    RegisterSchemaImpliesModel(body);
    assert ValidPhone(v.phone);
  }

  /** After a successful registration the store is the old one with the new user filed under its phone. */
  lemma RegisterStores(users: map<string, StoredUser>, body: Json, newId: string, secret: Option<string>,
                       hasher: Hasher, sign: (Claims, string, SignOptions) -> string)
    requires RegisterStep(users, body, newId, secret, hasher, sign).reply.Success?
    ensures ValidateRegister(body).Ok?
    ensures var v := ValidateRegister(body).value;
            && v.phone !in users && hasher.hash(v.password).Some?
            && RegisterStep(users, body, newId, secret, hasher, sign).users
                 == users[v.phone := StoredUser(newId, v.name, v.phone, hasher.hash(v.password).value, v.role.GetOr(DefaultRole))]
  {
    RegisterSchemaImpliesModel(body);
  }

  /**
   * A body that passes the schema, for a phone not yet stored, registers
   * successfully whenever hashing succeeds and a secret is set; the token
   * carries the new id and the role.
   */
  lemma RegisterSucceeds(users: map<string, StoredUser>, body: Json, newId: string, secret: string,
                         hasher: Hasher, sign: (Claims, string, SignOptions) -> string)
    requires ValidateRegister(body).Ok? && ValidateRegister(body).value.phone !in users
    requires hasher.hash(ValidateRegister(body).value.password).Some? && secret != ""
    ensures var v := ValidateRegister(body).value;
            RegisterStep(users, body, newId, Some(secret), hasher, sign).reply
              == Success(sign(Claims(newId, v.role.GetOr(DefaultRole)), secret, TokenOptions))
  {
    RegisterSchemaImpliesModel(body);
  }

  /** The token of a successful registration is signed over the new id and the given or default role. */
  lemma RegisterSuccessToken(users: map<string, StoredUser>, body: Json, newId: string, secret: string,
                             hasher: Hasher, sign: (Claims, string, SignOptions) -> string)
    requires RegisterStep(users, body, newId, Some(secret), hasher, sign).reply.Success?
    ensures ValidateRegister(body).Ok?
    ensures var v := ValidateRegister(body).value;
            RegisterStep(users, body, newId, Some(secret), hasher, sign).reply
              == Success(sign(Claims(newId, v.role.GetOr(DefaultRole)), secret, TokenOptions))
  {
  }

  /**
   * Without a signing secret a new registration answers 500 although the
   * user has been stored: a retry then gets 409.
   */
  lemma RegisterWithoutSecretStillStores(users: map<string, StoredUser>, body: Json, newId: string,
                                         hasher: Hasher, sign: (Claims, string, SignOptions) -> string)
    requires ValidateRegister(body).Ok? && ValidateRegister(body).value.phone !in users
    requires hasher.hash(ValidateRegister(body).value.password).Some?
    ensures var step := RegisterStep(users, body, newId, None, hasher, sign);
            step.reply == ServerError && ValidateRegister(body).value.phone in step.users
            && RegisterStep(step.users, body, newId, None, hasher, sign).reply == PhoneTaken
  {
    RegisterSchemaImpliesModel(body);
  }

  /** An unknown phone and a wrong password get the same reply. */
  lemma LoginHidesWhichFailed(users: map<string, StoredUser>, body: Json, secret: Option<string>,
                              hasher: Hasher, sign: (Claims, string, SignOptions) -> string)
    requires ValidateLogin(body).Ok?
    ensures var v := ValidateLogin(body).value;
            (v.phone !in users || !hasher.matches(v.password, users[v.phone].passwordHash)) <==>
              LoginReply(users, body, secret, hasher, sign) == InvalidCredentials
    ensures StatusCode(LoginReply(users, body, secret, hasher, sign)) == 400 <==> ValidateLogin(body).Err?
  {
  }

  /** The body the client sends to log in. */
  function LoginBody(phone: string, password: string): Json
  {
    JObj(map["phone" := JStr(phone), "password" := JStr(password)])
  }

  /** The body the client sends to register, without a role. */
  function RegisterBody(name: string, phone: string, password: string): Json
  {
    JObj(map["name" := JStr(name), "phone" := JStr(phone), "password" := JStr(password)])
  }

  /**
   * After registering, logging in with the same phone and password
   * succeeds, given a hasher that recognises what it hashed and a secret.
   */
  lemma LoginAfterRegister(users: map<string, StoredUser>, name: string, phone: string, password: string,
                           newId: string, secret: string, hasher: Hasher, sign: (Claims, string, SignOptions) -> string)
    requires Sound(hasher) && secret != ""
    requires RegisterStep(users, RegisterBody(name, phone, password), newId, Some(secret), hasher, sign).reply.Success?
    ensures var after := RegisterStep(users, RegisterBody(name, phone, password), newId, Some(secret), hasher, sign).users;
            LoginReply(after, LoginBody(phone, password), Some(secret), hasher, sign)
              == Success(sign(Claims(newId, DefaultRole), secret, TokenOptions))
  {
    var body := RegisterBody(name, phone, password);
    RegisterBodyShape(name, phone, password);
    RegisterSchemaImpliesModel(body);
    RegisterStores(users, body, newId, Some(secret), hasher, sign);
    LoginBodyValid(phone, password);
    var u := StoredUser(newId, Trim(name), Trim(phone), hasher.hash(password).value, DefaultRole);
    LoginFindsUser(users[Trim(phone) := u], LoginBody(phone, password), secret, hasher, sign);
  }

  /** A login whose phone is stored and whose password matches the stored hash gets a token for that user. */
  lemma LoginFindsUser(users: map<string, StoredUser>, body: Json, secret: string,
                       hasher: Hasher, sign: (Claims, string, SignOptions) -> string)
    requires ValidateLogin(body).Ok? && secret != ""
    requires var v := ValidateLogin(body).value;
             v.phone in users && hasher.matches(v.password, users[v.phone].passwordHash)
    ensures var u := users[ValidateLogin(body).value.phone];
            LoginReply(users, body, Some(secret), hasher, sign) == Success(sign(Claims(u.id, u.role), secret, TokenOptions))
  {
  }

  /** What the schema makes of a register body without a role: trimmed name and phone, no role. */
  lemma RegisterBodyShape(name: string, phone: string, password: string)
    requires ValidateRegister(RegisterBody(name, phone, password)).Ok?
    ensures ValidateRegister(RegisterBody(name, phone, password))
              == Ok(RegisterInput(Trim(name), Trim(phone), password, None))
  {
  }

  /** A login body with a non-blank phone and a non-empty password passes its schema, the phone trimmed. */
  lemma LoginBodyValid(phone: string, password: string)
    requires Trim(phone) != "" && password != ""
    ensures ValidateLogin(LoginBody(phone, password)) == Ok(LoginInput(Trim(phone), password))
  {
    var m := LoginBody(phone, password).fields;
    assert m.Keys == {"phone", "password"};
  }

  /** A register body of trimmed texts that satisfy the model's validators passes the schema unchanged. */
  lemma RegisterBodyValid(name: string, phone: string, password: string)
    requires name != "" && Trim(name) == name && Trim(phone) == phone
    requires ValidPhone(phone) && ValidPassword(password)
    ensures ValidateRegister(RegisterBody(name, phone, password)) == Ok(RegisterInput(name, phone, password, None))
  {
    var m := RegisterBody(name, phone, password).fields;
    assert m.Keys == {"name", "phone", "password"};
  }

  /** The registration test: a new user with a valid phone and password gets a token. */
  lemma RegisterTestExample(secret: string, hasher: Hasher, sign: (Claims, string, SignOptions) -> string, newId: string)
    requires secret != "" && hasher.hash("password123").Some?
    ensures RegisterStep(map[], RegisterBody("Alice", "+12345678901", "password123"), newId, Some(secret), hasher, sign).reply.Success?
  {
    TestUserIsValid();
    RegisterBodyValid("Alice", "+12345678901", "password123");
    RegisterSucceeds(map[], RegisterBody("Alice", "+12345678901", "password123"), newId, secret, hasher, sign);
  }

  lemma TestUserIsValid()
    ensures Trim("Alice") == "Alice" && Trim("+12345678901") == "+12345678901"
    ensures ValidPhone("+12345678901") && ValidPassword("password123")
  {
    TrimUnchanged("Alice");
    TrimUnchanged("+12345678901");
    PhoneExamples();
    PasswordLength("password123");
  }

  /** The invalid-credentials test: logging in to an empty store gets 401. */
  lemma LoginTestExample(secret: Option<string>, hasher: Hasher, sign: (Claims, string, SignOptions) -> string)
    ensures LoginReply(map[], LoginBody("+00000000000", "nope"), secret, hasher, sign) == InvalidCredentials
  {
    var body := LoginBody("+00000000000", "nope");
    TrimUnchanged("+00000000000");
    assert body.fields.Keys == {"phone", "password"};
  }

  // ---------------------------------------------------------------------
  // the store

  class UserStore {
    var users: map<string, StoredUser>

    ghost predicate Valid()
      reads this
    {
      WellKeyed(users)
    }

    constructor ()
      ensures users == map[] && Valid()
    {
      users := map[];
    }

    /** `POST /register`: builds the user document, saves it, stores it and signs its token. */
    method Register(body: Json, newId: string, secret: Option<string>, hasher: Hasher,
                    sign: (Claims, string, SignOptions) -> string) returns (reply: Reply)
      requires Valid()
      modifies this
      ensures Step(reply, users) == RegisterStep(old(users), body, newId, secret, hasher, sign)
      ensures Valid()
    {
      var input := ValidateRegister(body);
      if input.Err? {
        return Rejected(input.error);
      }
      var v := input.value;
      if v.phone in users {
        return PhoneTaken;
      }
      var doc := new UserDocument(v.name, v.phone, v.password, v.role);
      var saved := doc.Save(hasher.hash);
      if saved.Err? {
        return ServerError;
      }
      var u := StoredUser(newId, doc.name, doc.phone, doc.password, doc.role);
      RegisterSchemaImpliesModel(body);
      users := users[u.phone := u];
      var token := SignToken(u, secret, sign);
      if token.None? {
        return ServerError;
      }
      reply := Success(token.value);
    }

    /** `POST /login`: reads the store and never changes it. */
    method Login(body: Json, secret: Option<string>, hasher: Hasher,
                 sign: (Claims, string, SignOptions) -> string) returns (reply: Reply)
      ensures reply == LoginReply(users, body, secret, hasher, sign)
    {
      var input := ValidateLogin(body);
      if input.Err? {
        return Rejected(input.error);
      }
      var v := input.value;
      if v.phone !in users || !hasher.matches(v.password, users[v.phone].passwordHash) {
        return InvalidCredentials;
      }
      var token := SignToken(users[v.phone], secret, sign);
      if token.None? {
        return ServerError;
      }
      reply := Success(token.value);
    }
  }
}
