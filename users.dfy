/**
 * The account handlers (src/controllers/user.controller.js): registration, the credential
 * lifecycle (login, refresh, logout, password change), profile details, and the two
 * aggregation reads (channel profile, watch history).
 *
 * Password hashing and comparison and the signing and verification of tokens are not
 * modelled: a `Crypto` value stands for them, and the tokens a handler issues are inputs.
 */
module Users {
  import opened Wrappers
  import opened Primitives
  import opened Text
  import opened Errors
  import opened Schemas
  import opened VideoModel
  import opened Database
  import opened Subscriptions

  /**
   * `user.isPasswordCorrect(candidate)` as a relation between the candidate and the stored
   * credential, and `jwt.verify` of a refresh token: the `_id` it carries, or nothing when it
   * does not verify (the library then throws).
   */
  datatype Crypto = Crypto(passwordMatches: (Option<string>, Option<string>) -> bool, verifyRefresh: string -> Option<Id>)

  /** The pair `generateAccessAndRefreshTokens` returns. */
  datatype Tokens = Tokens(accessToken: string, refreshToken: string)

  /** The login reply's data: the user without credentials, and both tokens. */
  datatype Session = Session(user: User, accessToken: string, refreshToken: string)

  /** The JSON value `{}`. */
  datatype EmptyObject = EmptyObject

  /**
   * A cookie's value as `res.cookie` writes it: a token, or an options object passed where
   * the value belongs (Express serialises it as JSON and cookie-parser reads it back as an
   * object).
   */
  datatype CookieValue = TokenValue(token: string) | OptionsObject

  datatype Cookie = SetCookie(name: string, value: CookieValue) | ClearCookie(name: string)

  /** The cookies a client holds after applying, in order, the ones a reply set or cleared. */
  function ApplyCookies(jar: map<string, CookieValue>, cookies: seq<Cookie>): (r: map<string, CookieValue>)
    decreases |cookies|
  {
    if cookies == [] then jar
    else
      var c := cookies[0];
      var next := match c
        case SetCookie(name, value) => jar[name := value]
        case ClearCookie(name) => jar - {name};
      ApplyCookies(next, cookies[1..])
  }

  /** The user as read back with `.select("-password -refreshToken")`. */
  function Public(u: User): (r: User)
    ensures r.password.None? && r.refreshToken.None?
    ensures r.(password := u.password, refreshToken := u.refreshToken) == u
  {
    u.(password := None, refreshToken := None)
  }

  // ---------------------------------------------------------------------------------------
  // registerUser

  /** `findOne({ $or: [{ email }, { username }] })` matches: an absent field matches no user. */
  function SameEmailOrUsername(email: Option<string>, username: Option<string>): User -> bool {
    (u: User) => (email.Some? && u.email == email.value) || (username.Some? && u.username == username.value)
  }

  /** The required user fields that are absent, in schema order. */
  function MissingUserFields(fullname: Option<string>, email: Option<string>, password: Option<string>): (r: seq<string>)
    ensures r == [] <==> fullname.Some? && email.Some? && password.Some?
    ensures "fullname" in r <==> fullname.None?
    ensures "email" in r <==> email.None?
    ensures "password" in r <==> password.None?
  {
    (if fullname.None? then ["fullname"] else []) + (if email.None? then ["email"] else [])
    + (if password.None? then ["password"] else [])
  }

  /** The cover image stored for the outcome of `uploadOnCloudinary(coverImageLocalPath)`. */
  function CoverImage(coverPath: Option<string>, upload: Upload): (r: Option<MediaRef>)
    ensures r.Some? <==> Truthy(coverPath) && upload.Uploaded?
    ensures r.Some? ==> r.value == upload.media
  {
    if Truthy(coverPath) && upload.Uploaded? then Some(upload.media) else None
  }

  /** `field?.trim() === ""`: the field is supplied and nothing but white space. */
  predicate Blank(field: Option<string>)
    ensures Blank(field) <==> field.Some? && AllSpace(field.value)
  {
    field.Some? && Trim(field.value) == ""
  }

  /**
   * Why `registerUser` fails, in the source's order, or nothing when it creates the user: 400
   * when a supplied field trims to nothing; 400 without an avatar file; 409 when a user has
   * the email or the username as given; a failed avatar upload surfaces as a TypeError (the
   * helper returns `undefined`) and an upload without a URL as 400; an absent username fails
   * at `toLowerCase` (TypeError), and absent fullname, email or password fail the user
   * schema's `required` validators.
   */
  function RegistrationFailure(users: seq<User>, fullname: Option<string>, username: Option<string>,
                               email: Option<string>, password: Option<string>, avatarPath: Option<string>,
                               avatarUpload: Upload)
    : (f: Option<Response<User>>)
    ensures f.Some? ==> !f.value.Ok?
    ensures Blank(fullname) || Blank(username) || Blank(email) || Blank(password) ==>
      f == Some(Throw(400, "All fields are required"))
    ensures f.None? <==>
      !Blank(fullname) && !Blank(username) && !Blank(email) && !Blank(password) && Truthy(avatarPath)
      && NoneMatch(users, SameEmailOrUsername(email, username))
      && avatarUpload.Uploaded? && avatarUpload.media.url != ""
      && username.Some? && fullname.Some? && email.Some? && password.Some?
    ensures !(Blank(fullname) || Blank(username) || Blank(email) || Blank(password)) && Truthy(avatarPath)
         && !NoneMatch(users, SameEmailOrUsername(email, username))
         ==> f == Some(Throw(409, "User with this email or username already exists!"))
    ensures f.Some? && f.value.Crashed? ==>
      (avatarUpload.UploadFailed? || username.None? || fullname.None? || email.None? || password.None?)
    ensures !(Blank(fullname) || Blank(username) || Blank(email) || Blank(password)) && !Truthy(avatarPath) ==>
      f == Some(Throw(400, "Avatar is required"))
    ensures (!(Blank(fullname) || Blank(username) || Blank(email) || Blank(password)) && Truthy(avatarPath)
             && NoneMatch(users, SameEmailOrUsername(email, username))) ==> (
      (avatarUpload.UploadFailed? ==> f == Some(Crashed(TypeError)))
      && (avatarUpload.Uploaded? && avatarUpload.media.url == "" ==>
            f == Some(Throw(400, "Failed to upload image on Cloudinary!")))
      && (avatarUpload.Uploaded? && avatarUpload.media.url != "" && username.None? ==> f == Some(Crashed(TypeError)))
      && (avatarUpload.Uploaded? && avatarUpload.media.url != "" && username.Some?
          && MissingUserFields(fullname, email, password) != [] ==>
            f == Some(Crashed(ValidationError(MissingUserFields(fullname, email, password))))))
  {
    if Blank(fullname) || Blank(username) || Blank(email) || Blank(password) then
      Some(Throw(400, "All fields are required"))
    else if !Truthy(avatarPath) then Some(Throw(400, "Avatar is required"))
    else if FindFirst(users, SameEmailOrUsername(email, username)).Some? then
      Some(Throw(409, "User with this email or username already exists!"))
    else if avatarUpload.UploadFailed? then Some(Crashed(TypeError))
    else if avatarUpload.media.url == "" then Some(Throw(400, "Failed to upload image on Cloudinary!"))
    else if username.None? then Some(Crashed(TypeError))
    else if MissingUserFields(fullname, email, password) != [] then
      Some(Crashed(ValidationError(MissingUserFields(fullname, email, password))))
    else None
  }

  /** The record `registerUser` creates: the username in lower case, no refresh token, no history. */
  function NewUser(id: Id, fullname: string, username: string, email: string, password: Option<string>,
                   avatar: MediaRef, cover: Option<MediaRef>)
    : (u: User)
    ensures u.id == id && u.refreshToken.None? && u.watchHistory == []
    ensures |u.username| == |username| && forall i :: 0 <= i < |username| ==> u.username[i] == LowerChar(username[i])
  {
    User(id, ToLower(username), email, fullname, password, avatar, cover, None, [])
  }

  /**
   * `registerUser`: fails as `RegistrationFailure` says, changing nothing; otherwise the
   * new user is appended and returned without its credentials, with HTTP status 201.
   */
  method RegisterUser(db: Db, fullname: Option<string>, username: Option<string>, email: Option<string>,
                      password: Option<string>, avatarPath: Option<string>, coverPath: Option<string>,
                      avatarUpload: Upload, coverUpload: Upload, newId: Id)
    returns (r: Response<User>)
    requires db.Valid() && !HasId(db.users, UserId, newId)
    modifies db
    ensures db.Valid()
    ensures var f := RegistrationFailure(old(db.users), fullname, username, email, password, avatarPath, avatarUpload);
      (f.Some? ==> r == f.value && db.Snapshot() == old(db.Snapshot()))
      && (f.None? ==>
        var u := NewUser(newId, fullname.value, username.value, email.value, password,
                         avatarUpload.media, CoverImage(coverPath, coverUpload));
        r == Ok(201, Public(u), "User registered successfully!")
        && db.Snapshot() == old(db.Snapshot()).(users := old(db.users) + [u]))
  {
    var failure := RegistrationFailure(db.users, fullname, username, email, password, avatarPath, avatarUpload);
    if failure.Some? {
      return failure.value;
    }
    var u := NewUser(newId, fullname.value, username.value, email.value, password,
                     avatarUpload.media, CoverImage(coverPath, coverUpload));
    UniqueAppend(db.users, UserId, u);
    db.SetUsers(db.users + [u]);
    r := Ok(201, Public(u), "User registered successfully!");
  }

  // ---------------------------------------------------------------------------------------
  // The refresh-token lifecycle

  /** `findOne({ $or: [{ username }, { email }] })` matches: an absent field matches no user. */
  function SameUsernameOrEmail(username: Option<string>, email: Option<string>): User -> bool {
    (u: User) => (username.Some? && u.username == username.value) || (email.Some? && u.email == email.value)
  }

  /** The stored state after `generateAccessAndRefreshTokens`: the user's refresh token replaced. */
  function WithRefreshToken(users: seq<User>, i: nat, token: Option<string>): (r: seq<User>)
    requires i < |users|
    ensures |r| == |users| && r[i].refreshToken == token
    ensures r[i].(refreshToken := users[i].refreshToken) == users[i]
    ensures forall k :: 0 <= k < |users| && k != i ==> r[k] == users[k]
  {
    users[i := users[i].(refreshToken := token)]
  }

  function LoginCookies(t: Tokens): seq<Cookie> {
    [SetCookie("accessToken", TokenValue(t.accessToken)), SetCookie("refreshToken", TokenValue(t.refreshToken))]
  }

  /**
   * Why `loginUser` fails, or nothing when it signs a user in: 404 unless a username or an
   * email is given; 403 when no user has either; 403 when the password does not match the
   * first such user's.
   */
  function LoginFailure(users: seq<User>, crypto: Crypto, username: Option<string>, email: Option<string>,
                        password: Option<string>)
    : (f: Option<Response<Session>>)
    ensures f.Some? ==> f.value.Thrown? && f.value.error.status in {403, 404}
    ensures !Truthy(username) && !Truthy(email) ==> f == Some(Throw(404, "Username or email is required"))
    ensures (Truthy(username) || Truthy(email)) && NoneMatch(users, SameUsernameOrEmail(username, email)) ==>
      f == Some(Throw(403, "User with this username or email does not exists"))
    ensures f.None? <==>
      (Truthy(username) || Truthy(email))
      && exists i: nat :: FirstMatchAt(users, SameUsernameOrEmail(username, email), i)
           && crypto.passwordMatches(password, users[i].password)
    ensures forall i: nat ::
      ((Truthy(username) || Truthy(email))
       && FirstMatchAt(users, SameUsernameOrEmail(username, email), i)
       && !crypto.passwordMatches(password, users[i].password))
      ==> f == Some(Throw(403, "Wrong Password!"))
  {
    if !Truthy(username) && !Truthy(email) then Some(Throw(404, "Username or email is required"))
    else match FindFirst(users, SameUsernameOrEmail(username, email))
      case None => Some(Throw(403, "User with this username or email does not exists"))
      case Some(i) =>
        assert forall j: nat :: FirstMatchAt(users, SameUsernameOrEmail(username, email), j) ==> j == i by {
          forall j: nat | FirstMatchAt(users, SameUsernameOrEmail(username, email), j)
            ensures j == i
          {
            FirstMatchUnique(users, SameUsernameOrEmail(username, email), i, j);
          }
        }
        if !crypto.passwordMatches(password, users[i].password) then Some(Throw(403, "Wrong Password!"))
        else None
  }

  /**
   * `loginUser`: fails as `LoginFailure` says, changing nothing; otherwise the first matching
   * user's refresh token becomes the issued one, and both tokens are set as cookies and
   * returned with the user.
   */
  method LoginUser(db: Db, crypto: Crypto, username: Option<string>, email: Option<string>,
                   password: Option<string>, issued: Tokens)
    returns (r: Response<Session>, cookies: seq<Cookie>)
    requires db.Valid()
    modifies db
    ensures db.Valid()
    ensures var f := LoginFailure(old(db.users), crypto, username, email, password);
      (f.Some? ==> r == f.value && cookies == [] && db.Snapshot() == old(db.Snapshot()))
      && (f.None? ==>
        var i := FindFirst(old(db.users), SameUsernameOrEmail(username, email)).value;
        db.Snapshot() == old(db.Snapshot()).(users := WithRefreshToken(old(db.users), i, Some(issued.refreshToken)))
        && r == Ok(200, Session(Public(old(db.users)[i]), issued.accessToken, issued.refreshToken), "User logged in successfully")
        && cookies == LoginCookies(issued))
  {
    cookies := [];
    var failure := LoginFailure(db.users, crypto, username, email, password);
    if failure.Some? {
      return failure.value, cookies;
    }
    var i := FindFirst(db.users, SameUsernameOrEmail(username, email)).value;
    var user := db.users[i];
    UniqueReplace(db.users, UserId, i, user.(refreshToken := Some(issued.refreshToken)));
    db.SetUsers(WithRefreshToken(db.users, i, Some(issued.refreshToken)));
    r := Ok(200, Session(Public(user), issued.accessToken, issued.refreshToken), "User logged in successfully");
    cookies := LoginCookies(issued);
  }

  function ClearRefreshToken(): User -> User {
    (u: User) => u.(refreshToken := None)
  }

  /**
   * `logoutUser`: the caller's stored refresh token is cleared and both cookies are cleared;
   * the reply is `{}` whether or not the caller's record still exists.
   */
  method LogoutUser(db: Db, env: Env) returns (r: Response<EmptyObject>, cookies: seq<Cookie>)
    requires db.Valid()
    modifies db
    ensures db.Valid()
    ensures r == Ok(200, EmptyObject, "Logged out successfully")
    ensures cookies == [ClearCookie("accessToken"), ClearCookie("refreshToken")]
    ensures db.Snapshot() == old(db.Snapshot()).(users := UpdateById(old(db.users), UserId, env.principal, ClearRefreshToken()).0)
    ensures forall k :: 0 <= k < |db.users| && db.users[k].id == env.principal ==> db.users[k].refreshToken.None?
  {
    UpdateByIdKeepsUnique(db.users, UserId, env.principal, ClearRefreshToken());
    var (users, _) := UpdateById(db.users, UserId, env.principal, ClearRefreshToken());
    db.SetUsers(users);
    r := Ok(200, EmptyObject, "Logged out successfully");
    cookies := [ClearCookie("accessToken"), ClearCookie("refreshToken")];
  }

  /** What `req.cookies?.refreshToken || req.body?.refreshToken` evaluates to. */
  datatype Presented = NoToken | TokenString(token: string) | NonString

  function IncomingRefreshToken(cookie: Option<CookieValue>, body: Option<string>): (p: Presented)
    ensures cookie == Some(OptionsObject) ==> p == NonString
    ensures p.TokenString? ==> p.token != ""
    ensures p.TokenString? ==>
      cookie == Some(TokenValue(p.token)) || (body == Some(p.token) && !(cookie.Some? && cookie.value.OptionsObject?))
    ensures p == NoToken <==> !(cookie.Some? && (cookie.value.OptionsObject? || cookie.value.token != "")) && !Truthy(body)
  {
    if cookie == Some(OptionsObject) then NonString
    else if cookie.Some? && cookie.value.token != "" then TokenString(cookie.value.token)
    else if Truthy(body) then TokenString(body.value)
    else NoToken
  }

  /** `token` verifies to the `_id` of `users[i]`, whose stored refresh token it is. */
  predicate AcceptsRefresh(users: seq<User>, crypto: Crypto, token: string, i: nat) {
    i < |users| && crypto.verifyRefresh(token) == Some(users[i].id) && users[i].refreshToken == Some(token)
  }

  /**
   * Why `refreshAccessToken` fails, or nothing when it rotates: 401 when no token is
   * presented; a token that is not a string or does not verify throws; 401 when its user is
   * gone, and when it is not that user's stored refresh token (expired or already used).
   */
  function RefreshFailure(users: seq<User>, crypto: Crypto, cookie: Option<CookieValue>, body: Option<string>)
    : (f: Option<Response<Tokens>>)
    requires UniqueIds(users, UserId)
    ensures f.Some? ==> !f.value.Ok?
    ensures IncomingRefreshToken(cookie, body) == NoToken ==> f == Some(Throw(401, "Invalid refresh token"))
    ensures IncomingRefreshToken(cookie, body) == NonString ==> f == Some(Crashed(TokenError))
    ensures f.None? <==>
      IncomingRefreshToken(cookie, body).TokenString?
      && exists i: nat :: AcceptsRefresh(users, crypto, IncomingRefreshToken(cookie, body).token, i)
    ensures forall i: nat ::
      (i < |users| && IncomingRefreshToken(cookie, body).TokenString?
       && crypto.verifyRefresh(IncomingRefreshToken(cookie, body).token) == Some(users[i].id)
       && users[i].refreshToken != Some(IncomingRefreshToken(cookie, body).token))
      ==> f == Some(Throw(401, "Refresh token is expired or used"))
    ensures var presented := IncomingRefreshToken(cookie, body);
      presented.TokenString? && crypto.verifyRefresh(presented.token).None? ==> f == Some(Crashed(TokenError))
    ensures var presented := IncomingRefreshToken(cookie, body);
      presented.TokenString? && crypto.verifyRefresh(presented.token).Some?
      && !HasId(users, UserId, crypto.verifyRefresh(presented.token).value) ==>
        f == Some(Throw(401, "Invalid refresh token"))
  {
    var presented := IncomingRefreshToken(cookie, body);
    if presented == NoToken then Some(Throw(401, "Invalid refresh token"))
    else if presented == NonString then Some(Crashed(TokenError))
    else match crypto.verifyRefresh(presented.token)
      case None => Some(Crashed(TokenError))
      case Some(id) =>
        match FindById(users, UserId, id)
        case None => Some(Throw(401, "Invalid refresh token"))
        case Some(i) =>
          assert forall j: nat :: j < |users| && users[j].id == id ==> j == i;
          if users[i].refreshToken != Some(presented.token) then Some(Throw(401, "Refresh token is expired or used"))
          else
            assert AcceptsRefresh(users, crypto, presented.token, i);
            None
  }

  /** The user whose refresh token a successful refresh rotates. */
  function RefreshedIndex(users: seq<User>, crypto: Crypto, cookie: Option<CookieValue>, body: Option<string>): (i: nat)
    requires UniqueIds(users, UserId) && RefreshFailure(users, crypto, cookie, body).None?
    ensures AcceptsRefresh(users, crypto, IncomingRefreshToken(cookie, body).token, i)
  {
    FindById(users, UserId, crypto.verifyRefresh(IncomingRefreshToken(cookie, body).token).value).value
  }

  /**
   * The state-changing part of `refreshAccessToken`: fails as `RefreshFailure` says,
   * changing nothing; otherwise the stored refresh token is rotated to the issued one.
   */
  method RotateRefreshToken(db: Db, crypto: Crypto, cookie: Option<CookieValue>, body: Option<string>, issued: Tokens)
    returns (r: Response<Tokens>)
    requires db.Valid()
    modifies db
    ensures db.Valid()
    ensures var f := RefreshFailure(old(db.users), crypto, cookie, body);
      (f.Some? ==> r == f.value && db.Snapshot() == old(db.Snapshot()))
      && (f.None? ==>
        r == Ok(200, issued, "Access token refreshed")
        && db.Snapshot() == old(db.Snapshot()).(users := WithRefreshToken(old(db.users),
             RefreshedIndex(old(db.users), crypto, cookie, body), Some(issued.refreshToken))))
  {
    var failure := RefreshFailure(db.users, crypto, cookie, body);
    if failure.Some? {
      return failure.value;
    }
    var i := RefreshedIndex(db.users, crypto, cookie, body);
    UniqueReplace(db.users, UserId, i, db.users[i].(refreshToken := Some(issued.refreshToken)));
    db.SetUsers(WithRefreshToken(db.users, i, Some(issued.refreshToken)));
    r := Ok(200, issued, "Access token refreshed");
  }

  /** The cookies `refreshAccessToken` sets: `res.cookie(name, options)`, the token left out. */
  function RefreshCookiesAsWritten(): seq<Cookie> {
    [SetCookie("accessToken", OptionsObject), SetCookie("refreshToken", OptionsObject)]
  }

  /**
   * `refreshAccessToken` as written: the tokens are returned in the body, and the cookies
   * are set to the options object instead of the new tokens.
   */
  method RefreshAccessToken(db: Db, crypto: Crypto, cookie: Option<CookieValue>, body: Option<string>, issued: Tokens)
    returns (r: Response<Tokens>, cookies: seq<Cookie>)
    requires db.Valid()
    modifies db
    ensures db.Valid()
    ensures var f := RefreshFailure(old(db.users), crypto, cookie, body);
      (f.Some? ==> r == f.value && cookies == [] && db.Snapshot() == old(db.Snapshot()))
      && (f.None? ==>
        r == Ok(200, issued, "Access token refreshed") && cookies == RefreshCookiesAsWritten()
        && db.Snapshot() == old(db.Snapshot()).(users := WithRefreshToken(old(db.users),
             RefreshedIndex(old(db.users), crypto, cookie, body), Some(issued.refreshToken))))
  {
    r := RotateRefreshToken(db, crypto, cookie, body, issued);
    cookies := if r.Ok? then RefreshCookiesAsWritten() else [];
  }

  /** The cookies `refreshAccessToken` evidently means to set, as `loginUser` does. */
  function RefreshCookies(t: Tokens): seq<Cookie> {
    LoginCookies(t)
  }

  /** `refreshAccessToken` with the new tokens set as cookies. */
  method RefreshAccessTokenCorrected(db: Db, crypto: Crypto, cookie: Option<CookieValue>, body: Option<string>, issued: Tokens)
    returns (r: Response<Tokens>, cookies: seq<Cookie>)
    requires db.Valid()
    modifies db
    ensures db.Valid()
    ensures var f := RefreshFailure(old(db.users), crypto, cookie, body);
      (f.Some? ==> r == f.value && cookies == [] && db.Snapshot() == old(db.Snapshot()))
      && (f.None? ==>
        r == Ok(200, issued, "Access token refreshed") && cookies == RefreshCookies(issued)
        && db.Snapshot() == old(db.Snapshot()).(users := WithRefreshToken(old(db.users),
             RefreshedIndex(old(db.users), crypto, cookie, body), Some(issued.refreshToken))))
  {
    r := RotateRefreshToken(db, crypto, cookie, body, issued);
    cookies := if r.Ok? then RefreshCookies(issued) else [];
  }

  /**
   * After the as-written refresh, the client's `refreshToken` cookie no longer holds a token:
   * the next refresh that relies on the cookie presents an object, which `jwt.verify`
   * rejects, even when the body carries the valid token.
   */
  lemma RefreshCookieLosesToken(jar: map<string, CookieValue>, body: Option<string>)
    ensures var after := ApplyCookies(jar, RefreshCookiesAsWritten());
      "refreshToken" in after && after["refreshToken"] == OptionsObject
      && IncomingRefreshToken(Some(after["refreshToken"]), body) == NonString
  {
    var step := jar["accessToken" := OptionsObject];
    assert ApplyCookies(jar, RefreshCookiesAsWritten()) == ApplyCookies(step, RefreshCookiesAsWritten()[1..]);
    assert RefreshCookiesAsWritten()[1..][1..] == [];
  }

  /** After the corrected refresh, the client's cookie presents exactly the newly issued token. */
  lemma RefreshCookieCarriesToken(jar: map<string, CookieValue>, issued: Tokens, body: Option<string>)
    requires issued.refreshToken != ""
    ensures var after := ApplyCookies(jar, RefreshCookies(issued));
      "refreshToken" in after && after["refreshToken"] == TokenValue(issued.refreshToken)
      && IncomingRefreshToken(Some(after["refreshToken"]), body) == TokenString(issued.refreshToken)
  {
    var step := jar["accessToken" := TokenValue(issued.accessToken)];
    assert ApplyCookies(jar, RefreshCookies(issued)) == ApplyCookies(step, RefreshCookies(issued)[1..]);
    assert RefreshCookies(issued)[1..][1..] == [];
  }

  /** A login by a username whose first matching user's password matches signs that user in. */
  lemma LoginAccepts(users: seq<User>, crypto: Crypto, username: string, password: Option<string>, i: nat)
    requires username != "" && FirstMatchAt(users, SameUsernameOrEmail(Some(username), None), i)
    requires crypto.passwordMatches(password, users[i].password)
    ensures LoginFailure(users, crypto, Some(username), None, password).None?
    ensures FindFirst(users, SameUsernameOrEmail(Some(username), None)) == Some(i)
  {
    var found := FindFirst(users, SameUsernameOrEmail(Some(username), None));
    FirstMatchUnique(users, SameUsernameOrEmail(Some(username), None), found.value, i);
  }

  /** A presented token that is some user's stored refresh token is accepted, for that user. */
  lemma RefreshAccepts(users: seq<User>, crypto: Crypto, cookie: Option<CookieValue>, body: Option<string>, i: nat)
    requires UniqueIds(users, UserId) && IncomingRefreshToken(cookie, body).TokenString?
    requires AcceptsRefresh(users, crypto, IncomingRefreshToken(cookie, body).token, i)
    ensures RefreshFailure(users, crypto, cookie, body).None?
    ensures RefreshedIndex(users, crypto, cookie, body) == i
  {
    FindByIdUnique(users, UserId, i);
  }

  /** Once a user's refresh token is rotated away from `token`, presenting `token` again is refused. */
  lemma RotatedTokenRefused(users: seq<User>, crypto: Crypto, token: string, next: string, i: nat)
    requires UniqueIds(users, UserId) && i < |users| && token != "" && token != next
    requires crypto.verifyRefresh(token) == Some(users[i].id)
    ensures RefreshFailure(WithRefreshToken(users, i, Some(next)), crypto, None, Some(token))
         == Some(Throw(401, "Refresh token is expired or used"))
  {
    var after := WithRefreshToken(users, i, Some(next));
    assert after[i].id == users[i].id;
  }

  /**
   * A login issues a refresh token that the next refresh accepts and rotates; presenting the
   * first token again is then refused as already used.
   */
  method LoginThenRefresh(db: Db, crypto: Crypto, username: string, password: Option<string>,
                          i: nat, first: Tokens, second: Tokens, third: Tokens)
    returns (login: Response<Session>, refresh: Response<Tokens>, replay: Response<Tokens>)
    requires db.Valid() && username != ""
    requires first.refreshToken != "" && first.refreshToken != second.refreshToken
    requires FirstMatchAt(db.users, SameUsernameOrEmail(Some(username), None), i)
    requires crypto.passwordMatches(password, db.users[i].password)
    requires crypto.verifyRefresh(first.refreshToken) == Some(db.users[i].id)
    modifies db
    ensures login.Ok? && login.data.refreshToken == first.refreshToken
    ensures refresh == Ok(200, second, "Access token refreshed")
    ensures replay == Throw(401, "Refresh token is expired or used")
  {
    var users0 := db.users;
    LoginAccepts(users0, crypto, username, password, i);
    var cookies;
    login, cookies := LoginUser(db, crypto, Some(username), None, password, first);
    var users1 := db.users;
    assert users1 == WithRefreshToken(users0, i, Some(first.refreshToken));
    RefreshAccepts(users1, crypto, None, Some(first.refreshToken), i);
    refresh, cookies := RefreshAccessToken(db, crypto, None, Some(first.refreshToken), second);
    assert db.users == WithRefreshToken(users1, i, Some(second.refreshToken));
    RotatedTokenRefused(users1, crypto, first.refreshToken, second.refreshToken, i);
    replay, cookies := RefreshAccessToken(db, crypto, None, Some(first.refreshToken), third);
  }

  /**
   * A client that keeps its tokens in cookies: after a login, a first refresh through the
   * cookie succeeds, and with the as-written reply the second one fails, since the cookie now
   * holds the options object.
   */
  method CookieClientAsWritten(db: Db, crypto: Crypto, username: string, password: Option<string>,
                               i: nat, first: Tokens, second: Tokens, third: Tokens)
    returns (refresh: Response<Tokens>, again: Response<Tokens>)
    requires db.Valid() && username != ""
    requires first.refreshToken != "" && first.refreshToken != second.refreshToken
    requires FirstMatchAt(db.users, SameUsernameOrEmail(Some(username), None), i)
    requires crypto.passwordMatches(password, db.users[i].password)
    requires crypto.verifyRefresh(first.refreshToken) == Some(db.users[i].id)
    modifies db
    ensures refresh == Ok(200, second, "Access token refreshed")
    ensures again == Crashed(TokenError)
  {
    var users0 := db.users;
    LoginAccepts(users0, crypto, username, password, i);
    var login, cookies := LoginUser(db, crypto, Some(username), None, password, first);
    var users1 := db.users;
    var jar := ApplyCookies(map[], cookies);
    RefreshCookieCarriesToken(map[], first, None);
    RefreshAccepts(users1, crypto, Some(jar["refreshToken"]), None, i);
    refresh, cookies := RefreshAccessToken(db, crypto, Some(jar["refreshToken"]), None, second);
    RefreshCookieLosesToken(jar, None);
    jar := ApplyCookies(jar, cookies);
    again, cookies := RefreshAccessToken(db, crypto, Some(jar["refreshToken"]), None, third);
  }

  /** The same client with the corrected reply: the second refresh through the cookie succeeds too. */
  method CookieClientCorrected(db: Db, crypto: Crypto, username: string, password: Option<string>,
                               i: nat, first: Tokens, second: Tokens, third: Tokens)
    returns (refresh: Response<Tokens>, again: Response<Tokens>)
    requires db.Valid() && username != ""
    requires first.refreshToken != "" && second.refreshToken != "" && first.refreshToken != second.refreshToken
    requires FirstMatchAt(db.users, SameUsernameOrEmail(Some(username), None), i)
    requires crypto.passwordMatches(password, db.users[i].password)
    requires crypto.verifyRefresh(first.refreshToken) == Some(db.users[i].id)
    requires crypto.verifyRefresh(second.refreshToken) == Some(db.users[i].id)
    modifies db
    ensures refresh == Ok(200, second, "Access token refreshed")
    ensures again == Ok(200, third, "Access token refreshed")
  {
    var users0 := db.users;
    LoginAccepts(users0, crypto, username, password, i);
    var login, cookies := LoginUser(db, crypto, Some(username), None, password, first);
    var users1 := db.users;
    var jar := ApplyCookies(map[], cookies);
    RefreshCookieCarriesToken(map[], first, None);
    RefreshAccepts(users1, crypto, Some(jar["refreshToken"]), None, i);
    refresh, cookies := RefreshAccessTokenCorrected(db, crypto, Some(jar["refreshToken"]), None, second);
    var users2 := db.users;
    assert users2 == WithRefreshToken(users1, i, Some(second.refreshToken));
    RefreshCookieCarriesToken(jar, second, None);
    jar := ApplyCookies(jar, cookies);
    RefreshAccepts(users2, crypto, Some(jar["refreshToken"]), None, i);
    again, cookies := RefreshAccessTokenCorrected(db, crypto, Some(jar["refreshToken"]), None, third);
  }

  /** After a logout, no refresh token of the caller is accepted any more. */
  method LogoutRevokes(db: Db, env: Env, crypto: Crypto, token: string, issued: Tokens)
    returns (r: Response<Tokens>)
    requires db.Valid() && token != ""
    requires HasId(db.users, UserId, env.principal) && crypto.verifyRefresh(token) == Some(env.principal)
    modifies db
    ensures r == Throw(401, "Refresh token is expired or used")
  {
    var i := FindById(db.users, UserId, env.principal).value;
    var _, _ := LogoutUser(db, env);
    assert db.users[i].refreshToken.None? && db.users[i].id == env.principal;
    var cookies;
    r, cookies := RefreshAccessToken(db, crypto, None, Some(token), issued);
  }

  // ---------------------------------------------------------------------------------------
  // changeCurrentPassword, updateUserDetails

  /**
   * `changeCurrentPassword`: 400 when the new password and its confirmation differ, before
   * any lookup; a caller whose record is gone fails on `null` (TypeError); 401 when the
   * current password does not match; otherwise the stored credential becomes the new one.
   */
  method ChangeCurrentPassword(db: Db, env: Env, crypto: Crypto, currentPassword: Option<string>,
                               newPassword: Option<string>, confirmNewPassword: Option<string>)
    returns (r: Response<EmptyObject>)
    requires db.Valid()
    modifies db
    ensures db.Valid()
    ensures newPassword != confirmNewPassword ==> r == Throw(400, "Passwords do not match")
    ensures newPassword == confirmNewPassword && !HasId(old(db.users), UserId, env.principal) ==> r == Crashed(TypeError)
    ensures !r.Ok? ==> db.Snapshot() == old(db.Snapshot())
    ensures newPassword == confirmNewPassword && HasId(old(db.users), UserId, env.principal) ==>
      var i := FindById(old(db.users), UserId, env.principal).value;
      if !crypto.passwordMatches(currentPassword, old(db.users)[i].password) then
        r == Throw(401, "Incorrect password")
      else
        r == Ok(200, EmptyObject, "Password changed successfully")
        && db.Snapshot() == old(db.Snapshot()).(users := old(db.users)[i := old(db.users)[i].(password := newPassword)])
  {
    if newPassword != confirmNewPassword {
      return Throw(400, "Passwords do not match");
    }
    var found := FindById(db.users, UserId, env.principal);
    if found.None? {
      return Crashed(TypeError);
    }
    var i := found.value;
    if !crypto.passwordMatches(currentPassword, db.users[i].password) {
      return Throw(401, "Incorrect password");
    }
    UniqueReplace(db.users, UserId, i, db.users[i].(password := newPassword));
    db.SetUsers(db.users[i := db.users[i].(password := newPassword)]);
    r := Ok(200, EmptyObject, "Password changed successfully");
  }

  function SetDetails(email: string, fullname: string): User -> User {
    (u: User) => u.(email := email, fullname := fullname)
  }

  /**
   * `updateUserDetails`: 400 unless both email and fullname are given; 400 when the caller's
   * record is gone; otherwise both fields are set and the user returned without credentials.
   */
  method UpdateUserDetails(db: Db, env: Env, email: Option<string>, fullname: Option<string>)
    returns (r: Response<User>)
    requires db.Valid()
    modifies db
    ensures db.Valid()
    ensures !Truthy(email) || !Truthy(fullname) ==> r == Throw(400, "Email or fullname is missing")
    ensures !r.Ok? ==> db.Snapshot() == old(db.Snapshot())
    ensures r.Ok? ==>
      r.data.id == env.principal && r.data.email == email.value && r.data.fullname == fullname.value
      && r.data.password.None? && r.data.refreshToken.None?
    ensures Truthy(email) && Truthy(fullname) ==>
      var (users, updated) := UpdateById(old(db.users), UserId, env.principal, SetDetails(email.value, fullname.value));
      db.Snapshot() == old(db.Snapshot()).(users := users)
      && r == if updated.None? then Throw(400, "No such user found!")
              else Ok(200, Public(updated.value), "User details updated successfully")
  {
    if !Truthy(email) || !Truthy(fullname) {
      return Throw(400, "Email or fullname is missing");
    }
    var f := SetDetails(email.value, fullname.value);
    UpdateByIdKeepsUnique(db.users, UserId, env.principal, f);
    var (users, updated) := UpdateById(db.users, UserId, env.principal, f);
    if updated.None? {
      return Throw(400, "No such user found!");
    }
    db.SetUsers(users);
    r := Ok(200, Public(updated.value), "User details updated successfully");
  }

  // ---------------------------------------------------------------------------------------
  // getUserChannelProfile

  /** The profile document: the user's public fields and the computed subscription fields. */
  datatype ChannelProfile = ChannelProfile(
    id: Id,
    fullname: string,
    username: string,
    email: string,
    avatar: MediaRef,
    coverImage: Option<MediaRef>,
    subscribersCount: nat,
    channelSubscribedToCount: nat,
    isSubscribed: bool)

  function HasUsername(username: string): User -> bool {
    (u: User) => u.username == username
  }

  function ProfileOf(c: Collections, viewer: Id, u: User): ChannelProfile {
    ChannelProfile(u.id, u.fullname, u.username, u.email, u.avatar, u.coverImage,
      SubscriberCount(c.subscriptions, u.id), Count(c.subscriptions, BySubscriber(u.id)),
      IsSubscribed(c.subscriptions, u.id, viewer))
  }

  /**
   * `getUserChannelProfile`: 400 when the username trims to nothing; 404 when no user has
   * its lower-case form; otherwise the first such user's profile, with how many subscribe to
   * the channel, how many channels it subscribes to, and whether the caller subscribes.
   */
  function GetUserChannelProfile(c: Collections, env: Env, username: string): (r: Response<ChannelProfile>)
    ensures AllSpace(username) ==> r == Throw(400, "Username is missing")
    ensures !AllSpace(username) ==>
      (r.Ok? <==> exists k :: 0 <= k < |c.users| && c.users[k].username == ToLower(username))
      && (!r.Ok? ==> r == Throw(404, "Channel does not exists"))
    ensures r.Ok? ==>
      r.statusCode == 200 && r.data.username == ToLower(username)
      && (exists u :: u in c.users && u.id == r.data.id && u.username == r.data.username)
      && r.data.subscribersCount == SubscriberCount(c.subscriptions, r.data.id)
      && r.data.channelSubscribedToCount == Count(c.subscriptions, BySubscriber(r.data.id))
      && (r.data.isSubscribed <==>
          exists k :: 0 <= k < |c.subscriptions| && PairOf(c.subscriptions[k]) == (r.data.id, env.principal))
  {
    if Trim(username) == "" then Throw(400, "Username is missing")
    else match FindFirst(c.users, HasUsername(ToLower(username)))
      case None => Throw(404, "Channel does not exists")
      case Some(i) =>
        var u := c.users[i];
        assert u in c.users && u.username == ToLower(username);
        assert IsSubscribed(c.subscriptions, u.id, env.principal)
           <==> env.principal in SubscriberIds(c.subscriptions, u.id);
        Ok(200, ProfileOf(c, env.principal, u), "User channel fetched successfully")
  }

  /**
   * Toggling a subscription is seen by the channel's profile: subscribing sets the viewer's
   * `isSubscribed` and adds one subscriber; toggling again clears it and takes the one away.
   */
  lemma ProfileSeesSubscriptionToggle(c: Collections, viewer: Id, u: User, newId: Id)
    requires SubscriptionsWellFormed(c.subscriptions)
    requires !HasId(c.subscriptions, SubscriptionId, newId)
    requires forall k :: 0 <= k < |c.subscriptions| ==> PairOf(c.subscriptions[k]) != (u.id, viewer)
    ensures var subscribed := c.(subscriptions := ToggleSubscriptions(c.subscriptions, u.id, viewer, newId).0);
      !ProfileOf(c, viewer, u).isSubscribed && ProfileOf(subscribed, viewer, u).isSubscribed
      && ProfileOf(subscribed, viewer, u).subscribersCount == ProfileOf(c, viewer, u).subscribersCount + 1
    ensures var subscribed := c.(subscriptions := ToggleSubscriptions(c.subscriptions, u.id, viewer, newId).0);
      var unsubscribed := subscribed.(subscriptions := ToggleSubscriptions(subscribed.subscriptions, u.id, viewer, newId).0);
      !ProfileOf(unsubscribed, viewer, u).isSubscribed
      && ProfileOf(unsubscribed, viewer, u).subscribersCount == ProfileOf(c, viewer, u).subscribersCount
  {
    var subs := c.subscriptions;
    SubscribeCountsOne(subs, u.id, viewer, newId);
    var after := ToggleSubscriptions(subs, u.id, viewer, newId).0;
    ToggleSubscriptionsKeepsWellFormed(subs, u.id, viewer, newId);
    assert PairOf(after[|subs|]) == (u.id, viewer);
    UnsubscribeCountsOne(after, u.id, viewer, newId, |subs|);
  }

  // ---------------------------------------------------------------------------------------
  // getWatchHistory

  /** A watched video with `owner` replaced by the array of matching user cards. */
  datatype WatchedVideo = WatchedVideo(video: Video, owner: seq<UserCard>)

  function InHistory(history: seq<Id>): Video -> bool {
    (v: Video) => v.id in history
  }

  function WithOwner(users: seq<User>, v: Video): (w: WatchedVideo)
    ensures w.video == v
    ensures forall j :: 0 <= j < |w.owner| ==> Some(w.owner[j].id) == v.owner
  {
    WatchedVideo(v, if v.owner.Some? then OwnerCards(users, v.owner.value) else [])
  }

  /**
   * The `$lookup` of videos by an array of ids: the videos whose id is in `history`, each
   * once and in the videos collection's order, each with its owner's card as an array.
   */
  function WatchedVideos(c: Collections, history: seq<Id>): (r: seq<WatchedVideo>)
    ensures |r| == Count(c.videos, InHistory(history))
    ensures forall k :: 0 <= k < |r| ==> r[k].video in c.videos && r[k].video.id in history
    ensures forall k :: 0 <= k < |c.videos| && c.videos[k].id in history ==>
      exists j :: 0 <= j < |r| && r[j].video == c.videos[k]
    ensures forall k :: 0 <= k < |r| ==>
      forall j :: 0 <= j < |r[k].owner| ==> Some(r[k].owner[j].id) == r[k].video.owner
    ensures forall k :: 0 <= k < |r| ==> r[k] == WithOwner(c.users, Select(c.videos, InHistory(history))[k])
  {
    var watched := Select(c.videos, InHistory(history));
    var data := seq(|watched|, k requires 0 <= k < |watched| => WithOwner(c.users, watched[k]));
    forall k | 0 <= k < |c.videos| && c.videos[k].id in history
      ensures exists j :: 0 <= j < |data| && data[j].video == c.videos[k]
    {
      assert InHistory(history)(c.videos[k]);
      SelectPosition(c.videos, InHistory(history), k);
      var j := Count(c.videos[..k], InHistory(history));
      assert data[j].video == c.videos[k];
    }
    data
  }

  /**
   * `getWatchHistory`: the caller's watched videos; a caller whose record is gone fails on
   * `user[0]` (TypeError).
   */
  function GetWatchHistory(c: Collections, env: Env): (r: Response<seq<WatchedVideo>>)
    ensures r.Crashed? <==> !HasId(c.users, UserId, env.principal)
    ensures r.Crashed? ==> r.fault == TypeError
    ensures r.Ok? ==>
      r.statusCode == 200
      && exists u :: u in c.users && u.id == env.principal && r.data == WatchedVideos(c, u.watchHistory)
  {
    match FindById(c.users, UserId, env.principal)
    case None => Crashed(TypeError)
    case Some(i) => Ok(200, WatchedVideos(c, c.users[i].watchHistory), "User's watch history fetched successfully")
  }
}
