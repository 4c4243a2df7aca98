/** `controllers/user.js`: availability checks, registration, login, and the
    profile, password and admin updates. Handlers that only read the
    collection are functions of its contents; handlers that write it are
    methods on the `UserStore`. */
module UserController {
  import opened Js
  import opened Db
  import opened Http
  import opened UserModel
  import Auth

  /** The password hashing library: `hash(password)` and `compare(password, hash)`. */
  datatype Hasher = Hasher(hash: string -> string, compare: (string, string) -> bool)

  /** A password matches its own hash. */
  ghost predicate Matches(h: Hasher) {
    forall p :: h.compare(p, h.hash(p))
  }

  /** No other password matches a hash. */
  ghost predicate Binding(h: Hasher) {
    forall p, q :: h.compare(q, h.hash(p)) ==> q == p
  }

  /** `String(req.body[k] || "")` */
  function StrField(body: Body, k: string): string {
    ToStr(Or(Field(body, k), Str("")))
  }

  /** `typeof req.body[k] === "string" ? req.body[k].trim() : (absent)` */
  function TextField(body: Body, k: string): (t: Option<string>)
    ensures t.Some? <==> Field(body, k).Str?
    ensures t.Some? ==> Trimmed(t.value)
  {
    if Field(body, k).Str? then Some(Trim(Field(body, k).s)) else None
  }

  function EmailIs(e: string): User -> bool {
    (u: User) => u.email == e
  }

  /** The username query under the case-insensitive collation. */
  function UserNameLike(n: string): User -> bool {
    (u: User) => SameIgnoringCase(u.userName, n)
  }

  // ---- checkEmailExists ----

  /** The email `checkEmailExists` asks about: trimmed and lower-cased. */
  function RequestedEmail(body: Body): string {
    NormalizeKey(StrField(body, "email"))
  }

  /** 400 when the email has no `@`; otherwise 200 with `available` true
      exactly when no stored user has that email. */
  function CheckEmailExists(users: seq<User>, body: Body): (r: Response)
    ensures r.status == 400 <==> '@' !in StrField(body, "email")
    ensures r.status == 400 ==> r.body == Message("Invalid email format")
    ensures r.status != 400 ==>
      r == Response(200, EmailAvailability(RequestedEmail(body),
                                           forall i :: 0 <= i < |users| ==> users[i].email != RequestedEmail(body)))
  {
    var email := RequestedEmail(body);
    if '@' !in email then Response(400, Message("Invalid email format"))
    else
      var existing := FindFirst(users, EmailIs(email));
      Response(200, EmailAvailability(email, existing.None?))
  }

  // ---- checkUsernameExists ----

  function RequestedUserName(body: Body): string {
    Trim(StrField(body, "userName"))
  }

  /** 400 when the trimmed userName is empty; otherwise 200 with `available`
      true exactly when no stored userName equals it ignoring case. */
  function CheckUsernameExists(users: seq<User>, body: Body): (r: Response)
    ensures r.status == 400 <==> Blank(StrField(body, "userName"))
    ensures r.status == 400 ==> r.body == Message("userName is required")
    ensures r.status != 400 ==>
      r == Response(200, UserNameAvailability(RequestedUserName(body),
        forall i :: 0 <= i < |users| ==> !SameIgnoringCase(users[i].userName, RequestedUserName(body))))
  {
    var candidate := RequestedUserName(body);
    if candidate == "" then Response(400, Message("userName is required"))
    else
      var existing := FindFirst(users, UserNameLike(candidate));
      Response(200, UserNameAvailability(candidate, existing.None?))
  }

  // ---- registerUser ----

  /** `[firstName, lastName, email, userName, mobileNo, password].every(Boolean)` */
  predicate AllPresent(body: Body) {
    && Truthy(Field(body, "firstName")) && Truthy(Field(body, "lastName"))
    && Truthy(Field(body, "email")) && Truthy(Field(body, "userName"))
    && Truthy(Field(body, "mobileNo")) && Truthy(Field(body, "password"))
  }

  /** The 400 answers of `registerUser`, checked in this order: a required
      field missing, then an email without `@`, then a password shorter than
      8. A body that passes carries its email as a string. */
  function RegistrationError(body: Body): (r: Option<Response>)
    ensures r.None? <==>
      AllPresent(body) && '@' in ToStr(Field(body, "email"))
      && Utf16Length(ToStr(Field(body, "password"))) >= 8
    ensures !AllPresent(body) ==> r == Some(Response(400, Message("All fields are required")))
    ensures AllPresent(body) && '@' !in ToStr(Field(body, "email")) ==>
      r == Some(Response(400, Message("Invalid email format")))
    ensures AllPresent(body) && '@' in ToStr(Field(body, "email"))
            && Utf16Length(ToStr(Field(body, "password"))) < 8 ==>
      r == Some(Response(400, Message("Password must be at least 8 characters")))
    ensures r.None? ==> Field(body, "email").Str?
  {
    if !AllPresent(body) then Some(Response(400, Message("All fields are required")))
    else if '@' !in ToStr(Field(body, "email")) then Some(Response(400, Message("Invalid email format")))
    else if Utf16Length(ToStr(Field(body, "password"))) < 8 then
      Some(Response(400, Message("Password must be at least 8 characters")))
    else None
  }

  /** `normEmail` */
  function RegEmail(body: Body): string {
    NormalizeKey(ToStr(Field(body, "email")))
  }

  /** `normUser`: trimmed, not lower-cased. */
  function RegUserName(body: Body): string {
    Trim(ToStr(Field(body, "userName")))
  }

  /** What `registerUser` hands to `User.create`: trimmed fields, the
      normalised email and userName, and only the hash of the password. */
  function RegistrationInput(body: Body, hasher: Hasher): UserInput {
    UserInput(Trim(ToStr(Field(body, "firstName"))), Trim(ToStr(Field(body, "lastName"))),
              RegEmail(body), RegUserName(body), hasher.hash(ToStr(Field(body, "password"))),
              None, Trim(ToStr(Field(body, "mobileNo"))))
  }

  /** The document a successful registration stores. */
  function Registrant(body: Body, hasher: Hasher, id: ObjectId): (u: User)
    ensures u.id == id && !u.isAdmin
    ensures u.password == hasher.hash(ToStr(Field(body, "password")))
  {
    ApplySchema(RegistrationInput(body, hasher), id)
  }

  predicate EmailTaken(users: seq<User>, e: string) {
    exists i :: 0 <= i < |users| && users[i].email == e
  }

  predicate UserNameTaken(users: seq<User>, n: string) {
    exists i :: 0 <= i < |users| && SameIgnoringCase(users[i].userName, n)
  }

  /** The stored email and userName are the pre-check's keys, lower-cased:
      `Registrant`'s email is `RegEmail` and its userName folds to `RegUserName`. */
  lemma RegistrantKeys(body: Body, hasher: Hasher, id: ObjectId)
    ensures Registrant(body, hasher, id).email == RegEmail(body)
    ensures Registrant(body, hasher, id).userName == Lower(RegUserName(body))
  {
    var e := RegEmail(body);
    TrimTrimmed(e);
    assert NormalizeKey(e) == Lower(e) == e;
    var n := RegUserName(body);
    TrimTrimmed(n);
    assert NormalizeKey(n) == Lower(n);
  }

  /** With no concurrent writer (the pre-check saw the collection as it is),
      a body that passes the pre-check clashes with a stored document only
      through its id: the email and userName indexes agree with the
      pre-check. */
  lemma {:induction false} PreCheckAgreesWithIndexes(users: seq<User>, body: Body, hasher: Hasher, id: ObjectId)
    requires WellFormed(users)
    requires !EmailTaken(users, RegEmail(body)) && !UserNameTaken(users, RegUserName(body))
    ensures Collides(users, Registrant(body, hasher, id)) <==>
      exists i :: 0 <= i < |users| && users[i].id == id
  {
    var u := Registrant(body, hasher, id);
    RegistrantKeys(body, hasher, id);
    LowerFacts(RegUserName(body));
    forall i | 0 <= i < |users| ensures users[i].email != u.email && users[i].userName != u.userName {
      assert !SameIgnoringCase(users[i].userName, RegUserName(body));
    }
  }

  /** Once a userName is stored, any later registration whose userName
      differs from it only in case fails the pre-check. */
  lemma CaseVariantIsTaken(users: seq<User>, first: Body, hasher: Hasher, id: ObjectId, second: Body)
    requires SameIgnoringCase(RegUserName(first), RegUserName(second))
    ensures UserNameTaken(users + [Registrant(first, hasher, id)], RegUserName(second))
  {
    var s := users + [Registrant(first, hasher, id)];
    RegistrantKeys(first, hasher, id);
    LowerFacts(RegUserName(first));
    assert SameIgnoringCase(s[|users|].userName, RegUserName(second));
  }

  /** The advisory uniqueness check of `registerUser`: the email query is
      answered first, then the case-insensitive userName query. */
  function PreCheck(seen: seq<User>, body: Body): (r: Option<Response>)
    ensures EmailTaken(seen, RegEmail(body)) ==> r == Some(Response(409, Message("Email already in use")))
    ensures !EmailTaken(seen, RegEmail(body)) && UserNameTaken(seen, RegUserName(body)) ==>
      r == Some(Response(409, Message("Username already in use")))
    ensures !EmailTaken(seen, RegEmail(body)) && !UserNameTaken(seen, RegUserName(body)) ==> r.None?
  {
    var emailHit := FindFirst(seen, EmailIs(RegEmail(body)));
    var userHit := FindFirst(seen, UserNameLike(RegUserName(body)));
    if emailHit.Some? then Some(Response(409, Message("Email already in use")))
    else if userHit.Some? then Some(Response(409, Message("Username already in use")))
    else None
  }

  /** `registerUser`. `seen` is the collection as the two concurrent
      pre-check queries observed it; `newId` is the id the driver generates. */
  method RegisterUser(store: UserStore, body: Body, seen: seq<User>, hasher: Hasher, newId: ObjectId)
    returns (r: Response)
    requires store.Valid()
    modifies store
    ensures store.Valid()
    ensures RegistrationError(body).Some? ==>
      r == RegistrationError(body).value && store.users == old(store.users)
    ensures RegistrationError(body).None? && EmailTaken(seen, RegEmail(body)) ==>
      r == Response(409, Message("Email already in use")) && store.users == old(store.users)
    ensures RegistrationError(body).None? && !EmailTaken(seen, RegEmail(body))
            && UserNameTaken(seen, RegUserName(body)) ==>
      r == Response(409, Message("Username already in use")) && store.users == old(store.users)
    ensures RegistrationError(body).None? && !EmailTaken(seen, RegEmail(body))
            && !UserNameTaken(seen, RegUserName(body)) ==>
      var u := Registrant(body, hasher, newId);
      && (!Conforms(u) ==>
            r == Auth.ErrorHandler(ValidationError("User validation")) && store.users == old(store.users))
      && (Conforms(u) && Collides(old(store.users), u) ==>
            r == Response(409, Message("Email or username already in use")) && store.users == old(store.users))
      && (Conforms(u) && !Collides(old(store.users), u) ==>
            r == Response(201, UserReply("User registered successfully", ToJson(u)))
            && store.users == old(store.users) + [u])
  {
    var invalid := RegistrationError(body);
    if invalid.Some? {
      return invalid.value;
    }
    var taken := PreCheck(seen, body);
    if taken.Some? {
      return taken.value;
    }
    var created := store.Create(RegistrationInput(body, hasher), newId);
    match created
    case Threw(err) =>
      if IsDuplicateKey(err) {
        r := Response(409, Message("Email or username already in use"));
      } else {
        r := Auth.ErrorHandler(err);
      }
    case Done(u) =>
      r := Response(201, UserReply("User registered successfully", ToJson(u)));
  }

  // ---- loginUser ----

  /** `String(req.body.identifier || req.body.email || "").trim()` */
  function LoginIdentifier(body: Body): string {
    Trim(ToStr(Or(Or(Field(body, "identifier"), Field(body, "email")), Str(""))))
  }

  /** `String(req.body.password || "")` */
  function LoginPassword(body: Body): string {
    StrField(body, "password")
  }

  /** An identifier with an `@` names the user with that email, lower-cased;
      any other names the user with that userName, ignoring case. */
  predicate Identifies(u: User, identifier: string) {
    if '@' in identifier then u.email == Lower(identifier) else SameIgnoringCase(u.userName, identifier)
  }

  const IncorrectCredentials := Response(401, Message("Incorrect credentials"))

  /** The `findOne` of `loginUser`: by email when the identifier holds an
      `@`, by userName under the case-insensitive collation otherwise. */
  function LoginLookup(users: seq<User>, identifier: string): (k: Option<nat>)
    ensures k.Some? ==> k.value < |users| && Identifies(users[k.value], identifier)
    ensures k.None? <==> forall i :: 0 <= i < |users| ==> !Identifies(users[i], identifier)
  {
    if '@' in identifier then FindFirst(users, EmailIs(Lower(identifier)))
    else FindFirst(users, UserNameLike(identifier))
  }

  /** The answer of `loginUser` once both the identifier and the password
      are present: the one "Incorrect credentials" both when no user is
      identified and when the password does not match, otherwise 200 with an
      access token for the identified user. */
  function LoginAnswer(users: seq<User>, identifier: string, password: string, hasher: Hasher,
                       codec: Auth.Codec, key: string, iat: int): (r: Response)
    ensures r.status == 200 || r == IncorrectCredentials
    ensures (forall i :: 0 <= i < |users| ==> !Identifies(users[i], identifier)) ==> r == IncorrectCredentials
    ensures r.status == 200 ==>
      exists i :: 0 <= i < |users| && Identifies(users[i], identifier)
        && hasher.compare(password, users[i].password)
        && r.body == AccessReply("User logged in successfully", Auth.CreateAccessToken(users[i], codec, key, iat))
  {
    match LoginLookup(users, identifier)
    case None => IncorrectCredentials
    case Some(k) =>
      if !hasher.compare(password, users[k].password) then IncorrectCredentials
      else Response(200, AccessReply("User logged in successfully", Auth.CreateAccessToken(users[k], codec, key, iat)))
  }

  /** `loginUser`: 400 without an identifier or a password, otherwise
      `LoginAnswer`. */
  function LoginUser(users: seq<User>, body: Body, hasher: Hasher, codec: Auth.Codec, key: string, iat: int)
    : (r: Response)
    ensures r.status == 400 <==> LoginIdentifier(body) == "" || LoginPassword(body) == ""
    ensures r.status == 400 ==> r.body == Message("Identifier and password are required")
    ensures r.status != 400 ==> r == LoginAnswer(users, LoginIdentifier(body), LoginPassword(body), hasher, codec, key, iat)
  {
    var identifier := LoginIdentifier(body);
    var password := LoginPassword(body);
    if identifier == "" || password == "" then
      Response(400, Message("Identifier and password are required"))
    else
      LoginAnswer(users, identifier, password, hasher, codec, key, iat)
  }

  /** In a well-formed collection an identifier names at most one user. */
  lemma IdentifiesAtMostOne(users: seq<User>, identifier: string, i: nat, j: nat)
    requires WellFormed(users) && i < |users| && j < |users|
    ensures Identifies(users[i], identifier) && Identifies(users[j], identifier) ==> i == j
  {
    if i < j {
      assert DistinctKeys(users[i], users[j]);
    } else if j < i {
      assert DistinctKeys(users[j], users[i]);
    }
  }

  /** The user an identifier names is the one `loginUser` looks up. */
  lemma LookupFinds(users: seq<User>, k: nat, identifier: string)
    requires WellFormed(users) && k < |users| && Identifies(users[k], identifier)
    ensures LoginLookup(users, identifier) == Some(k)
  {
    var found := LoginLookup(users, identifier);
    IdentifiesAtMostOne(users, identifier, found.value, k);
  }

  /** The user an identifier names, given the password whose hash is stored,
      gets a token for exactly that user. */
  lemma LoginSucceeds(users: seq<User>, k: nat, body: Body, hasher: Hasher, codec: Auth.Codec, key: string, iat: int)
    requires WellFormed(users) && k < |users| && Matches(hasher)
    requires LoginIdentifier(body) != "" && Identifies(users[k], LoginIdentifier(body))
    requires LoginPassword(body) != "" && users[k].password == hasher.hash(LoginPassword(body))
    ensures LoginUser(users, body, hasher, codec, key, iat) ==
      Response(200, AccessReply("User logged in successfully", Auth.CreateAccessToken(users[k], codec, key, iat)))
  {
    LookupFinds(users, k, LoginIdentifier(body));
    assert hasher.compare(LoginPassword(body), hasher.hash(LoginPassword(body)));
  }

  /** With a binding hash, any password other than the one whose hash is
      stored gets "Incorrect credentials", the same answer as an unknown user. */
  lemma WrongPasswordRejected(users: seq<User>, k: nat, body: Body, hasher: Hasher, p: string,
                              codec: Auth.Codec, key: string, iat: int)
    requires WellFormed(users) && k < |users| && Binding(hasher)
    requires LoginIdentifier(body) != "" && Identifies(users[k], LoginIdentifier(body))
    requires users[k].password == hasher.hash(p)
    requires LoginPassword(body) != "" && LoginPassword(body) != p
    ensures LoginUser(users, body, hasher, codec, key, iat) == IncorrectCredentials
  {
    LookupFinds(users, k, LoginIdentifier(body));
    assert !hasher.compare(LoginPassword(body), hasher.hash(p));
  }

  /** A login body carrying a truthy identifier and a truthy password. */
  lemma LoginBodyFields(identifier: Value, password: Value)
    requires Truthy(identifier) && Truthy(password)
    ensures var login := map["identifier" := identifier, "password" := password];
      && LoginIdentifier(login) == Trim(ToStr(identifier))
      && LoginPassword(login) == ToStr(password) && LoginPassword(login) != ""
  {
    var login := map["identifier" := identifier, "password" := password];
    assert Field(login, "identifier") == identifier;
    assert Field(login, "password") == password;
    assert Or(Or(identifier, Field(login, "email")), Str("")) == identifier;
  }

  /** After a registration, logging in with the email and password sent at
      registration succeeds and yields a token for the new user. */
  lemma RegisterThenLoginByEmail(users: seq<User>, body: Body, hasher: Hasher, id: ObjectId,
                                 codec: Auth.Codec, key: string, iat: int)
    requires RegistrationError(body).None? && Matches(hasher)
    requires WellFormed(users + [Registrant(body, hasher, id)])
    ensures var login := map["identifier" := Field(body, "email"), "password" := Field(body, "password")];
      LoginUser(users + [Registrant(body, hasher, id)], login, hasher, codec, key, iat) ==
        Response(200, AccessReply("User logged in successfully",
                                  Auth.CreateAccessToken(Registrant(body, hasher, id), codec, key, iat)))
  {
    var u := Registrant(body, hasher, id);
    var s := users + [u];
    var login := map["identifier" := Field(body, "email"), "password" := Field(body, "password")];
    var raw := ToStr(Field(body, "email"));
    LoginBodyFields(Field(body, "email"), Field(body, "password"));
    TrimKeepsAt(raw);
    RegistrantKeys(body, hasher, id);
    assert s[|users|] == u;
    assert Identifies(u, Trim(raw));
    LoginSucceeds(s, |users|, login, hasher, codec, key, iat);
  }

  /** After a registration, logging in with the userName in any case and the
      password sent at registration succeeds, provided the identifier holds
      no `@` (one that does is read as an email). */
  lemma RegisterThenLoginByUserName(users: seq<User>, body: Body, hasher: Hasher, id: ObjectId,
                                    name: string, codec: Auth.Codec, key: string, iat: int)
    requires RegistrationError(body).None? && Matches(hasher)
    requires WellFormed(users + [Registrant(body, hasher, id)])
    requires '@' !in name && SameIgnoringCase(Trim(name), RegUserName(body))
    ensures var login := map["identifier" := Str(name), "password" := Field(body, "password")];
      LoginUser(users + [Registrant(body, hasher, id)], login, hasher, codec, key, iat) ==
        Response(200, AccessReply("User logged in successfully",
                                  Auth.CreateAccessToken(Registrant(body, hasher, id), codec, key, iat)))
  {
    var u := Registrant(body, hasher, id);
    var s := users + [u];
    var login := map["identifier" := Str(name), "password" := Field(body, "password")];
    RegistrantKeys(body, hasher, id);
    assert s[|users|] == u;
    assert Trim(name) != "" by {
      assert FieldsConform(s[|users|]);
      assert |Lower(Trim(name))| == |Lower(RegUserName(body))|;
    }
    assert Identifies(u, Trim(name)) by {
      TrimKeepsAt(name);
      LowerFacts(RegUserName(body));
    }
    LoginBodyFields(Str(name), Field(body, "password"));
    LoginSucceeds(s, |users|, login, hasher, codec, key, iat);
  }

  // ---- getProfile ----

  /** `getProfile`: the caller's own document without its password, or 404. */
  function GetProfile(users: seq<User>, user: Auth.Claims): (r: Response)
    ensures CastObjectId(Str(user.id)).None? ==> r == Auth.ErrorHandler(CastError)
    ensures CastObjectId(Str(user.id)).Some? ==>
      var id := CastObjectId(Str(user.id)).value;
      && (r.status == 404 <==> forall i :: 0 <= i < |users| ==> users[i].id != id)
      && (r.status == 404 ==> r.body == Message("User not found"))
      && (r.status != 404 ==> exists i :: 0 <= i < |users| && users[i].id == id
                                            && r == Response(200, ProfileReply(ToJson(users[i]))))
  {
    match CastObjectId(Str(user.id))
    case None => Auth.ErrorHandler(CastError)
    case Some(id) =>
      match FindFirst(users, IdMatches(id))
      case None => Response(404, Message("User not found"))
      case Some(k) => Response(200, ProfileReply(ToJson(users[k])))
  }

  // ---- resetPassword ----

  /** `!newPassword || String(newPassword).length < 8` */
  predicate NewPasswordRejected(body: Body) {
    !Truthy(Field(body, "newPassword")) || Utf16Length(ToStr(Field(body, "newPassword"))) < 8
  }

  /** `resetPassword`: 400 for a missing or short password; otherwise only
      the password of the caller's document becomes the new hash, and the
      answer is 200 even when there is no such document. */
  method ResetPassword(store: UserStore, user: Auth.Claims, body: Body, hasher: Hasher) returns (r: Response)
    requires store.Valid()
    modifies store
    ensures store.Valid()
    ensures NewPasswordRejected(body) ==>
      r == Response(400, Message("New password must be at least 8 characters")) && store.users == old(store.users)
    ensures !NewPasswordRejected(body) && CastObjectId(Str(user.id)).None? ==>
      r == Auth.ErrorHandler(CastError) && store.users == old(store.users)
    ensures !NewPasswordRejected(body) && CastObjectId(Str(user.id)).Some? ==>
      var k := FindFirst(old(store.users), IdMatches(CastObjectId(Str(user.id)).value));
      && r == Response(200, Message("Password reset successfully"))
      && (k.None? ==> store.users == old(store.users))
      && (k.Some? ==> store.users == old(store.users)[k.value :=
            old(store.users)[k.value].(password := hasher.hash(ToStr(Field(body, "newPassword"))))])
  {
    if NewPasswordRejected(body) {
      return Response(400, Message("New password must be at least 8 characters"));
    }
    var hashed := hasher.hash(ToStr(Field(body, "newPassword")));
    var res := store.SetPassword(Str(user.id), hashed);
    match res
    case Threw(err) => r := Auth.ErrorHandler(err);
    case Done(_) => r := Response(200, Message("Password reset successfully"));
  }

  // ---- updateProfile ----

  /** The `$set` `updateProfile` builds: each of firstName, lastName and
      mobileNo given as a string, trimmed; nothing else. */
  function ProfileFields(body: Body): Update {
    Update(TextField(body, "firstName"), TextField(body, "lastName"), TextField(body, "mobileNo"), None, None)
  }

  /** The `forEach` over `["firstName", "lastName", "mobileNo"]` that fills `update`. */
  method BuildProfileUpdate(body: Body) returns (update: Update)
    ensures update == ProfileFields(body)
  {
    update := NoUpdate;
    var keys := ["firstName", "lastName", "mobileNo"];
    for i := 0 to |keys|
      invariant update.email.None? && update.isAdmin.None?
      invariant update.firstName == if i > 0 then TextField(body, "firstName") else None
      invariant update.lastName == if i > 1 then TextField(body, "lastName") else None
      invariant update.mobileNo == if i > 2 then TextField(body, "mobileNo") else None
    {
      var v := Field(body, keys[i]);
      if v.Str? {
        var t := Trim(v.s);
        if i == 0 {
          update := update.(firstName := Some(t));
        } else if i == 1 {
          update := update.(lastName := Some(t));
        } else {
          update := update.(mobileNo := Some(t));
        }
      }
    }
  }

  /** `updateProfile`: 400 when no field is given; otherwise the caller's
      document gets the given names and mobile number and keeps everything
      else, or 404 when it does not exist. */
  method UpdateProfile(store: UserStore, user: Auth.Claims, body: Body) returns (r: Response)
    requires store.Valid()
    modifies store
    ensures store.Valid()
    ensures ProfileFields(body).IsEmpty() ==>
      r == Response(400, Message("No fields provided to update")) && store.users == old(store.users)
    ensures !ProfileFields(body).IsEmpty() && CastObjectId(Str(user.id)).None? ==>
      r == Auth.ErrorHandler(CastError) && store.users == old(store.users)
    ensures !ProfileFields(body).IsEmpty() && CastObjectId(Str(user.id)).Some? && !UpdateValidates(ProfileFields(body)) ==>
      r == Auth.ErrorHandler(ValidationError("Validation")) && store.users == old(store.users)
    ensures !ProfileFields(body).IsEmpty() && CastObjectId(Str(user.id)).Some? && UpdateValidates(ProfileFields(body)) ==>
      var k := FindFirst(old(store.users), IdMatches(CastObjectId(Str(user.id)).value));
      && (k.None? ==> r == Response(404, Message("User not found")) && store.users == old(store.users))
      && (k.Some? ==>
            var u := ApplyUpdate(old(store.users)[k.value], ProfileFields(body));
            && u.email == old(store.users)[k.value].email
            && u.isAdmin == old(store.users)[k.value].isAdmin
            && r == Response(200, UserReply("Profile updated successfully", ToJson(u)))
            && store.users == old(store.users)[k.value := u])
  {
    var update := BuildProfileUpdate(body);
    if update.IsEmpty() {
      return Response(400, Message("No fields provided to update"));
    }
    ghost var before := store.users;
    ghost var id := CastObjectId(Str(user.id));
    if id.Some? && UpdateValidates(update) {
      var k := FindFirst(before, IdMatches(id.value));
      if k.Some? {
        SameKeysNoCollision(before, k.value, ApplyUpdate(before[k.value], update));
      }
    }
    var res := store.FindByIdAndUpdate(Str(user.id), update);
    match res
    case Threw(err) => r := Auth.ErrorHandler(err);
    case Done(None) => r := Response(404, Message("User not found"));
    case Done(Some(u)) => r := Response(200, UserReply("Profile updated successfully", ToJson(u)));
  }

  // ---- updateUserByAdmin ----

  /** The `$set` `updateUserByAdmin` builds: string names and mobile number
      trimmed, a string email trimmed and lower-cased, a boolean isAdmin;
      never the userName or the password. */
  function AdminFields(body: Body): (p: Update)
    ensures p.firstName == TextField(body, "firstName") && p.lastName == TextField(body, "lastName")
    ensures p.mobileNo == TextField(body, "mobileNo")
    ensures p.email.Some? <==> Field(body, "email").Str?
    ensures p.email.Some? ==> p.email.value == NormalizeKey(Field(body, "email").s)
    ensures p.isAdmin.Some? <==> Field(body, "isAdmin").Bool?
    ensures p.isAdmin.Some? ==> p.isAdmin.value == Field(body, "isAdmin").b
  {
    var email := Field(body, "email");
    var isAdmin := Field(body, "isAdmin");
    Update(TextField(body, "firstName"), TextField(body, "lastName"), TextField(body, "mobileNo"),
           if email.Str? then Some(Lower(Trim(email.s))) else None,
           if isAdmin.Bool? then Some(isAdmin.b) else None)
  }

  /** `updateUserByAdmin`: 400 without a userId or without any accepted
      field; 404 when the target does not exist; 409 when the new email
      belongs to another user; otherwise the target's document is updated
      and its userName and password stay as they were. */
  method UpdateUserByAdmin(store: UserStore, body: Body) returns (r: Response)
    requires store.Valid()
    modifies store
    ensures store.Valid()
    ensures !Truthy(Field(body, "userId")) ==>
      r == Response(400, Message("userId is required")) && store.users == old(store.users)
    ensures Truthy(Field(body, "userId")) && AdminFields(body).IsEmpty() ==>
      r == Response(400, Message("No valid fields to update")) && store.users == old(store.users)
    ensures Truthy(Field(body, "userId")) && !AdminFields(body).IsEmpty() ==>
      var id := CastObjectId(Field(body, "userId"));
      && (id.None? ==> r == Auth.ErrorHandler(CastError) && store.users == old(store.users))
      && (id.Some? && !UpdateValidates(AdminFields(body)) ==>
            r == Auth.ErrorHandler(ValidationError("Validation")) && store.users == old(store.users))
      && (id.Some? && UpdateValidates(AdminFields(body)) ==>
            var k := FindFirst(old(store.users), IdMatches(id.value));
            && (k.None? ==> r == Response(404, Message("Target user not found")) && store.users == old(store.users))
            && (k.Some? ==>
                  var u := ApplyUpdate(old(store.users)[k.value], AdminFields(body));
                  && u.userName == old(store.users)[k.value].userName
                  && u.password == old(store.users)[k.value].password
                  && (CollidesExcept(old(store.users), k.value, u) ==>
                        r == Response(409, Message("Email already in use")) && store.users == old(store.users))
                  && (!CollidesExcept(old(store.users), k.value, u) ==>
                        r == Response(200, UserReply("User updated successfully", ToJson(u)))
                        && store.users == old(store.users)[k.value := u])))
  {
    var userId := Field(body, "userId");
    if !Truthy(userId) {
      return Response(400, Message("userId is required"));
    }
    var update := AdminFields(body);
    if update.IsEmpty() {
      return Response(400, Message("No valid fields to update"));
    }
    var res := store.FindByIdAndUpdate(userId, update);
    match res
    case Threw(err) =>
      if IsDuplicateKey(err) {
        r := Response(409, Message("Email already in use"));
      } else {
        r := Auth.ErrorHandler(err);
      }
    case Done(None) => r := Response(404, Message("Target user not found"));
    case Done(Some(u)) => r := Response(200, UserReply("User updated successfully", ToJson(u)));
  }
}
