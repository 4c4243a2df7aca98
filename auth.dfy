/** `auth.js`: access-token issuance, the bearer-token gate, the admin gate,
    the session gate and the shared error handler. */
module Auth {
  import opened Js
  import opened Db
  import opened Http
  import UserModel

  /** `process.env.JWT_SECRET_KEY || "In-ClassPrototypingAPI"`: the
      configured secret, or the built-in fallback when it is unset or empty. */
  function SecretKey(env: Option<string>): (key: string)
    ensures key != ""
    ensures env.Some? && env.value != "" ==> key == env.value
    ensures env.None? || env.value == "" ==> key == "In-ClassPrototypingAPI"
  {
    match env
    case Some(k) => if k != "" then k else "In-ClassPrototypingAPI"
    case None => "In-ClassPrototypingAPI"
  }

  /** The object handed to `jwt.sign`. */
  datatype Payload = Payload(id: string, email: string, isAdmin: bool)

  /** A decoded token: the payload plus the `iat` and optional `exp` claims
      the signer adds. */
  datatype Claims = Claims(id: string, email: string, isAdmin: bool, iat: int, exp: Option<int>)

  /** The token library, as two functions: `sign(payload, key, iat)` and
      `verify(token, key, now)`, which gives the claims or an error message. */
  datatype Codec = Codec(
    sign: (Payload, string, int) -> string,
    verify: (string, string, int) -> Result<Claims>)

  /** The claims of a token signed at `iat` with no expiry option. */
  function Issued(p: Payload, iat: int): Claims {
    Claims(p.id, p.email, p.isAdmin, iat, None)
  }

  /** What the token library promises and this model takes as a hypothesis:
      a token contains no space, and verifying it with the key it was signed
      with gives back its payload, at any time when no expiry was set. */
  ghost predicate Sound(c: Codec) {
    && (forall p, key, iat :: ' ' !in c.sign(p, key, iat))
    && (forall p, key, iat, now :: c.verify(c.sign(p, key, iat), key, now) == Ok(Issued(p, iat)))
  }

  /** `createAccessToken(user)`: signs `{ id, email, isAdmin }` copied from
      the user, with no expiry. Under a sound codec the token verifies, at
      every time, to exactly those three fields and no `exp`. */
  function CreateAccessToken(u: UserModel.User, codec: Codec, key: string, iat: int): (token: string)
    ensures Sound(codec) ==> ' ' !in token
    ensures Sound(codec) ==> forall now ::
      codec.verify(token, key, now) == Ok(Claims(u.id, u.email, u.isAdmin, iat, None))
  {
    codec.sign(Payload(u.id, u.email, u.isAdmin), key, iat)
  }

  /** The request as the gates see it. */
  datatype Request = Request(verb: string, baseUrl: string, path: string, authorization: Option<string>)

  /** A gate either calls `next()` with `req.user` set, or ends the request
      with a response. */
  datatype Gate = Next(user: Claims) | Halt(response: Response)

  /** `authHeader.split(" ")` has exactly two parts and the first is
      `Bearer`: exactly when the header is `Bearer ` followed by a token with
      no space in it (possibly empty). */
  function ParseBearer(h: string): (token: Option<string>)
    ensures token.Some? <==> |h| >= 7 && h[..7] == "Bearer " && ' ' !in h[7..]
    ensures token.Some? ==> token.value == h[7..]
  {
    var parts := Split(h, ' ');
    if |parts| != 2 || parts[0] != "Bearer" then
      assert |h| >= 7 && h[..7] == "Bearer " && ' ' !in h[7..] ==> false by {
        if |h| >= 7 && h[..7] == "Bearer " && ' ' !in h[7..] {
          assert h == Join(["Bearer", h[7..]], ' ');
          SplitJoin(["Bearer", h[7..]], ' ');
        }
      }
      None
    else
      assert h == Join(parts, ' ') == parts[0] + [' '] + Join(parts[1..], ' ');
      assert parts[1..] == [parts[1]];
      assert h == "Bearer" + [' '] + parts[1];
      Some(parts[1])
  }

  const ProductsAllForbidden := Halt(Response(403, AuthFailed("Action Forbidden")))

  predicate IsProductsAll(req: Request) {
    req.verb == "GET" && req.baseUrl == "/products" && req.path == "/all"
  }

  /** The `verify` middleware. */
  function Verify(req: Request, codec: Codec, key: string, now: int): (g: Gate)
    ensures req.authorization.None? || req.authorization.value == "" ==>
      g == Halt(Response(401, AuthFailed("No token provided")))
    ensures req.authorization.Some? && req.authorization.value != ""
            && ParseBearer(req.authorization.value).None? ==>
      g == Halt(Response(401, AuthFailed("Invalid token format")))
    ensures req.authorization.Some? && ParseBearer(req.authorization.value).Some? ==>
      var check := codec.verify(req.authorization.value[7..], key, now);
      && (check.Ok? ==> g == Next(check.value))
      && (check.Err? && IsProductsAll(req) ==> g == Halt(Response(403, AuthFailed("Action Forbidden"))))
      && (check.Err? && !IsProductsAll(req) ==>
            g == Halt(Response(404, AuthNotFound("User not found", check.message))))
  {
    match req.authorization
    case None => Halt(Response(401, AuthFailed("No token provided")))
    case Some(header) =>
      if header == "" then Halt(Response(401, AuthFailed("No token provided")))
      else match ParseBearer(header)
        case None => Halt(Response(401, AuthFailed("Invalid token format")))
        case Some(token) =>
          match codec.verify(token, key, now)
          case Err(message) =>
            if IsProductsAll(req) then Halt(Response(403, AuthFailed("Action Forbidden")))
            else Halt(Response(404, AuthNotFound("User not found", message)))
          case Ok(decoded) => Next(decoded)
  }

  /** The `verifyAdmin` middleware: continues with the same user exactly
      when there is one and it is an admin. */
  function VerifyAdmin(user: Option<Claims>): (g: Gate)
    ensures g.Next? <==> user.Some? && user.value.isAdmin
    ensures g.Next? ==> g.user == user.value
    ensures g.Halt? ==> g.response == Response(403, AuthFailed("Action Forbidden"))
  {
    if user.Some? && user.value.isAdmin then Next(user.value)
    else Halt(Response(403, AuthFailed("Action Forbidden")))
  }

  /** The `isLoggedIn` middleware. */
  function IsLoggedIn(user: Option<Claims>): (g: Gate)
    ensures g.Next? <==> user.Some?
    ensures g.Next? ==> g.user == user.value
    ensures g.Halt? ==> g.response == Response(401, StatusText("Unauthorized"))
  {
    match user
    case Some(c) => Next(c)
    case None => Halt(Response(401, StatusText("Unauthorized")))
  }

  /** The admin routes mount `verify, verifyAdmin`: the admin gate runs only
      after `verify` has set `req.user`. */
  function AdminRoute(req: Request, codec: Codec, key: string, now: int): (g: Gate)
    ensures Verify(req, codec, key, now).Halt? ==> g == Verify(req, codec, key, now)
    ensures g.Next? ==> g.user.isAdmin && Verify(req, codec, key, now) == Next(g.user)
    ensures Verify(req, codec, key, now).Next? && !Verify(req, codec, key, now).user.isAdmin ==>
      g == Halt(Response(403, AuthFailed("Action Forbidden")))
  {
    match Verify(req, codec, key, now)
    case Next(c) => VerifyAdmin(Some(c))
    case Halt(r) => Halt(r)
  }

  /** The bearer header carrying `token`. */
  function BearerHeader(token: string): string {
    "Bearer " + token
  }

  /** A token this service issued, sent back as `Bearer <token>`, passes
      `verify` on any route and at any later time, and `req.user` becomes
      the id, email and admin flag the user had at issuance. */
  lemma IssuedTokenPassesVerify(u: UserModel.User, codec: Codec, key: string, iat: int,
                                verb: string, baseUrl: string, path: string, now: int)
    requires Sound(codec)
    ensures var req := Request(verb, baseUrl, path, Some(BearerHeader(CreateAccessToken(u, codec, key, iat))));
      Verify(req, codec, key, now) == Next(Claims(u.id, u.email, u.isAdmin, iat, None))
  {
    var token := CreateAccessToken(u, codec, key, iat);
    var h := BearerHeader(token);
    assert h[..7] == "Bearer " && h[7..] == token;
  }

  /** On an admin route, a token this service issued gets through exactly
      when the user was an admin at issuance; otherwise the answer is 403. */
  lemma IssuedTokenAtAdminRoute(u: UserModel.User, codec: Codec, key: string, iat: int,
                                verb: string, baseUrl: string, path: string, now: int)
    requires Sound(codec)
    ensures var req := Request(verb, baseUrl, path, Some(BearerHeader(CreateAccessToken(u, codec, key, iat))));
      var g := AdminRoute(req, codec, key, now);
      && (g.Next? <==> u.isAdmin)
      && (!u.isAdmin ==> g == Halt(Response(403, AuthFailed("Action Forbidden"))))
  {
    IssuedTokenPassesVerify(u, codec, key, iat, verb, baseUrl, path, now);
  }

  /** The admin routes let a request through exactly when its bearer token
      verifies to claims with the admin flag set. */
  lemma AdminRouteAdmitsOnlyAdmins(req: Request, codec: Codec, key: string, now: int)
    ensures AdminRoute(req, codec, key, now).Next? <==>
      && req.authorization.Some?
      && ParseBearer(req.authorization.value).Some?
      && codec.verify(req.authorization.value[7..], key, now).Ok?
      && codec.verify(req.authorization.value[7..], key, now).value.isAdmin
  {
  }

  /** The `errorHandler`: `err.status` or 500, `err.message` or
      "Internal Server Error", `err.code` or "SERVER_ERROR", `err.details` as is. */
  function ErrorHandler(err: Fault): (r: Response)
    ensures r.body.ErrorReply? && r.body.details == err.details
    ensures err.status.Some? && err.status.value != 0 ==> r.status == err.status.value
    ensures err.status.None? || err.status == Some(0) ==> r.status == 500
    ensures err.message != "" ==> r.body.message == err.message
    ensures err.message == "" ==> r.body.message == "Internal Server Error"
    ensures Truthy(err.code) ==> r.body.errorCode == err.code
    ensures !Truthy(err.code) ==> r.body.errorCode == Str("SERVER_ERROR")
  {
    var status := match err.status case Some(s) => if s != 0 then s else 500 case None => 500;
    var message := if err.message != "" then err.message else "Internal Server Error";
    Response(status, ErrorReply(message, Or(err.code, Str("SERVER_ERROR")), err.details))
  }
}
