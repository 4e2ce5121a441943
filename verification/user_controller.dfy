/** The registration and login handlers of backend/controllers/user.controller.js,
    run one request at a time against the users table. bcrypt and JWT are
    abstract: `hash` is bcrypt.hash with the salt it drew for this request,
    `matches` is bcrypt.compare, `sign` is the token generateJWT produces. */
module UserController {
  import opened JsValues
  import opened UserModel

  /** The JSON request body; a field the client left out is None. */
  datatype RequestBody = RequestBody(name: Option<string>, email: Option<string>, password: Option<string>)

  /** The user object of a successful login: id, name, email and token only. */
  datatype SessionUser = SessionUser(id: UserId, name: string, email: string, token: string)

  datatype ResponseBody =
    | Message(message: string)
    | Created(message: string, user: CreatedUser)
    | LoggedIn(message: string, session: SessionUser)

  datatype Response = Response(status: int, body: ResponseBody)

  const UserExists := Response(400, Message("User already exists"))
  const InvalidCredentials := Response(401, Message("Invalid email or password"))
  /** Whatever a handler throws is answered with this. */
  const InternalError := Response(500, Message("Internal server error"))

  /** registerUser: hash the password, refuse an email that is already
      registered, otherwise insert the user with the hashed password. */
  method RegisterUser(store: UserStore, body: RequestBody, newId: UserId, now: string, hash: string -> string)
    returns (res: Response)
    requires store.Valid()
    modifies store
    ensures store.Valid()
    // bcrypt.hash throws on a missing password, before anything else
    ensures body.password.None? ==> res == InternalError
    // an email already in the table: 400, and nothing is inserted
    ensures (body.password.Some? && body.email.Some? &&
             EmailTaken(old(store.rows), store.collate, body.email.value)) ==> res == UserExists
    ensures res.status == 201 <==>
              body.password.Some? &&
              InsertRejection(old(store.rows), store.collate, newId, body.name, body.email,
                              Some(hash(body.password.value)), None).None?
    // success inserts exactly one row, holding the hash and never the plaintext
    ensures res.status == 201 ==>
              newId !in old(store.rows) && |store.rows| == |old(store.rows)| + 1 &&
              store.rows == old(store.rows)[newId := NewRow(newId, body.name.value, body.email.value,
                                                            hash(body.password.value), None, None, now)]
    ensures res.status == 201 ==>
              res.body == Created("User created successfully",
                                  CreatedUser(newId, body.name.value, body.email.value, false, None, None))
    ensures res.status != 201 ==> store.rows == old(store.rows) && (res == UserExists || res == InternalError)
    // 400 exactly for a taken email; every other refusal is a thrown error, 500
    ensures res == UserExists <==>
              body.password.Some? && body.email.Some? && EmailTaken(old(store.rows), store.collate, body.email.value)
  {
    if body.password.None? {
      return InternalError;
    }
    var hashedPassword := hash(body.password.value);
    if body.email.Some? && EmailTaken(store.rows, store.collate, body.email.value) {
      return UserExists;
    }
    var created := store.CreateUser(newId, body.name, body.email, Some(hashedPassword), None, None, now);
    if created.Err? {
      return InternalError;
    }
    res := Response(201, Created("User created successfully", created.value));
  }

  /** loginUser: look the email up, compare the password, answer with the
      user and a token. An unknown email and a wrong password get the very
      same 401 response. */
  method LoginUser(store: UserStore, body: RequestBody, matches: (string, string) -> bool, sign: UserId -> string)
    returns (res: Response)
    requires store.Valid()
    ensures body.email.None? || !EmailTaken(store.rows, store.collate, body.email.value) ==> res == InvalidCredentials
    ensures forall id :: id in store.rows && body.email.Some? &&
                         store.collate(store.rows[id].email) == store.collate(body.email.value) ==>
              // bcrypt.compare throws on a missing password
              (body.password.None? ==> res == InternalError) &&
              (body.password.Some? && !matches(body.password.value, store.rows[id].password) ==>
                 res == InvalidCredentials) &&
              (body.password.Some? && matches(body.password.value, store.rows[id].password) ==>
                 res == Response(200, LoggedIn("Login successful",
                                               SessionUser(id, store.rows[id].name, store.rows[id].email, sign(id)))))
  {
    var user := store.GetUserByEmail(body.email);
    if user.None? {
      return InvalidCredentials;
    }
    if body.password.None? {
      return InternalError;
    }
    var isMatched := matches(body.password.value, user.value.password);
    if !isMatched {
      return InvalidCredentials;
    }
    var token := sign(user.value.id);
    res := Response(200, LoggedIn("Login successful",
                                  SessionUser(user.value.id, user.value.name, user.value.email, token)));
  }
}
