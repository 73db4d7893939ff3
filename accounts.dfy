/** The account service: registration with an e-mailed one-time code,
    verification of that code, login and logout through a `jwt` cookie, the
    password-reset request and the current-user lookup. The user collection,
    the e-mails sent and the last cookie set are the state of one
    AccountService object; password hashing, token signing and randomness are
    inputs. */
module Accounts {

  import opened Wrappers
  import opened Seqs
  import opened Js
  import opened Encoding
  import EmailPattern

  /** The output of the password hasher. */
  type Digest = string

  /** `Math.floor(Math.random() * 900000)`: the random part of a one-time code. */
  type Draw = d: nat | d < 900000

  /** A stored user record. A new record starts unverified (the schema default). */
  datatype User = User(
    id: nat,
    username: string,
    email: string,
    password: Digest,
    isVerified: bool,
    otp: Option<string>,
    resetPasswordToken: Option<string>,
    resetPasswordExpire: Option<int>)

  /** The claims a signed identity token carries. */
  datatype Claims = Claims(id: nat, username: string, email: Option<string>)

  /** A signed identity token: its claims and its validity in days. */
  datatype Jwt = Jwt(claims: Claims, expiresInDays: nat)

  datatype CookieValue = Token(jwt: Jwt) | Blank

  /** A cookie set on the response; `maxAge` is in milliseconds. */
  datatype Cookie = Cookie(
    name: string,
    value: CookieValue,
    httpOnly: bool,
    secure: bool,
    sameSite: string,
    maxAge: nat)

  /** An e-mail handed to the mail transport. */
  datatype Email = Email(to: string, subject: string, text: string)

  /** The status code and the JSON envelope of a response. */
  datatype Reply = Reply(status: nat, success: bool, message: Option<string>, data: Option<User>)

  /** The outcome of a handler's guards: all passed, or the first that failed. */
  datatype Check = Pass | Fail(status: nat, message: string)

  const MissingFields: string := "All fields are required"
  const ShortPassword: string := "Password must be at least 6 characters"
  const BadEmail: string := "Invalid email format"
  const Taken: string := "Email or username already exists"
  const Registered: string := "User registered. Check your email for OTP."
  const MissingCredentials: string := "Email and password are required"
  const UserNotFound: string := "User not found"
  const InvalidCredentials: string := "Invalid credentials"
  const NotVerified: string := "User not verified"
  const LoggedIn: string := "Login successful"
  const InvalidOtp: string := "Invalid OTP"
  const AccountVerified: string := "Account verified"
  const LoggedOut: string := "Logout successful"
  const ResetSent: string := "Password reset email sent"
  const VerifySubject: string := "Verify your account"
  const ResetSubject: string := "Reset Password"

  /** Tokens are signed with a 30-day lifetime. */
  const TokenLifetimeDays: nat := 30
  /** The registration cookie lives 5 days ... */
  const RegisterCookieMaxAge: nat := 1000 * 60 * 60 * 24 * 5
  /** ... the login cookie 30 days. */
  const LoginCookieMaxAge: nat := 30 * 24 * 60 * 60 * 1000
  /** A reset token expires one hour after it is issued (milliseconds). */
  const ResetLifetime: int := 3600000
  const ResetUrlPrefix: string := "http://localhost:5173/reset-password/"
  const ResetText: string := "You have requested to reset your password. Please click the following link to reset your password:\n\n"

  /** The one-time code as a number: `Math.floor(100000 + Math.random() * 900000)`. */
  function OtpValue(d: Draw): (n: nat)
    ensures 100000 <= n <= 999999
  {
    100000 + d
  }

  /** The one-time code as stored and e-mailed: its decimal string. */
  function OtpString(d: Draw): string {
    DecimalString(OtpValue(d))
  }

  /** Six decimal digits, the first not zero. */
  predicate IsOtpString(s: string) {
    |s| == 6 && s[0] != '0' && forall k :: 0 <= k < |s| ==> IsDigit(s[k])
  }

  /** Every drawn code is a six-digit string that reads back as the number drawn. */
  lemma OtpStringShape(d: Draw)
    ensures IsOtpString(OtpString(d))
    ensures ParseDecimal(OtpString(d)) == OtpValue(d)
  {
    assert Pow10(5) == 100000 by {
      assert Pow10(1) == 10 && Pow10(2) == 100 && Pow10(3) == 1000 && Pow10(4) == 10000;
    }
    assert Pow10(6) == 1000000;
    DecimalLength(OtpValue(d), 6);
    ParseDecimalString(OtpValue(d));
  }

  /** 64 lowercase hexadecimal characters: the encoding of 32 random bytes. */
  predicate IsResetToken(s: string) {
    |s| == 64 && forall k :: 0 <= k < |s| ==> IsLowerHex(s[k])
  }

  /** The reset e-mail's text: an explanation, a blank line and the reset URL. */
  function ResetMessage(token: string): (text: string)
    ensures |text| >= |ResetUrlPrefix + token|
    ensures text[|text| - |ResetUrlPrefix + token|..] == ResetUrlPrefix + token
  {
    ResetText + ResetUrlPrefix + token
  }

  /** The facts every stored record keeps. */
  predicate WellFormed(u: User) {
    && (u.isVerified ==> u.otp.None?)
    && (u.otp.Some? ==> IsOtpString(u.otp.value))
    && (u.resetPasswordToken.Some? <==> u.resetPasswordExpire.Some?)
    && (u.resetPasswordToken.Some? ==> IsResetToken(u.resetPasswordToken.value))
    && u.username != ""
    && EmailPattern.IsEmail(u.email)
  }

  /** The store invariant: well-formed records with distinct ids, e-mails and
      usernames, every id below the next one to hand out. */
  ghost predicate StoreInvariant(users: seq<User>, nextId: nat) {
    && (forall i :: 0 <= i < |users| ==> WellFormed(users[i]) && users[i].id < nextId)
    && (forall i, j :: 0 <= i < j < |users| ==>
          users[i].id != users[j].id && users[i].email != users[j].email
          && users[i].username != users[j].username)
  }

  /** `User.findOne({ $or: [{ email }, { username }] })`'s condition. */
  function Clashes(username: string, email: string): User -> bool {
    (u: User) => u.email == email || u.username == username
  }

  /** `User.findOne({ email })`'s condition. */
  function EmailIs(email: string): User -> bool {
    (u: User) => u.email == email
  }

  /** `User.findOne({ otp })`'s condition. */
  function OtpIs(code: string): User -> bool {
    (u: User) => u.otp == Some(code)
  }

  /** Registration's guards, in the order they run. */
  function RegisterCheck(users: seq<User>, username: Option<string>, email: Option<string>,
                         password: Option<string>): (r: Check)
    ensures r.Fail? ==> r.status == 400
    ensures !Present(username) || !Present(email) || !Present(password) ==>
      r == Fail(400, MissingFields)
    ensures Present(username) && Present(email) && Present(password) && |password.value| < 6 ==>
      r == Fail(400, ShortPassword)
    ensures Present(username) && Present(email) && Present(password) && |password.value| >= 6
            && !EmailPattern.IsEmail(email.value) ==>
      r == Fail(400, BadEmail)
    ensures Present(username) && Present(email) && Present(password) && |password.value| >= 6
            && EmailPattern.IsEmail(email.value)
            && (exists i :: 0 <= i < |users| &&
                  (users[i].email == email.value || users[i].username == username.value)) ==>
      r == Fail(400, Taken)
    ensures r.Pass? <==>
      && Present(username) && Present(email) && Present(password)
      && |password.value| >= 6
      && EmailPattern.IsEmail(email.value)
      && forall i :: 0 <= i < |users| ==>
           users[i].email != email.value && users[i].username != username.value
  {
    if !Present(username) || !Present(email) || !Present(password) then Fail(400, MissingFields)
    else if |password.value| < 6 then Fail(400, ShortPassword)
    else if !EmailPattern.IsEmail(email.value) then Fail(400, BadEmail)
    else if Find(users, Clashes(username.value, email.value)).Some? then Fail(400, Taken)
    else Pass
  }

  /** The record registration creates. */
  function PendingUser(id: nat, username: string, email: string, digest: Digest, code: string): User {
    User(id, username, email, digest, false, Some(code), None, None)
  }

  /** The `jwt` cookie carrying a freshly signed token. */
  function SessionCookie(claims: Claims, maxAge: nat, secure: bool): Cookie {
    Cookie("jwt", Token(Jwt(claims, TokenLifetimeDays)), true, secure, "strict", maxAge)
  }

  /** The `jwt` cookie logout sets: empty and already expired. */
  function ClearedCookie(secure: bool): Cookie {
    Cookie("jwt", Blank, true, secure, "strict", 0)
  }

  /** A record after its code was accepted. */
  function Verified(u: User): User {
    u.(isVerified := true, otp := None)
  }

  /** A record after a password reset was requested. */
  function WithResetToken(u: User, token: string, expire: int): User {
    u.(resetPasswordToken := Some(token), resetPasswordExpire := Some(expire))
  }

  /** Login's guards, in the order they run. */
  function LoginCheck(users: seq<User>, email: Option<string>, password: Option<string>,
                      compare: (string, Digest) -> bool): (r: Check)
    ensures !Present(email) || !Present(password) ==> r == Fail(400, MissingCredentials)
    ensures Present(email) && Present(password) && Find(users, EmailIs(email.value)).None? ==>
      r == Fail(404, UserNotFound)
    ensures r.Fail? ==> r.status in {400, 401, 404}
    ensures r.Pass? <==>
      && Present(email) && Present(password)
      && Find(users, EmailIs(email.value)).Some?
      && var u := users[Find(users, EmailIs(email.value)).value];
         compare(password.value, u.password) && u.isVerified
  {
    if !Present(email) || !Present(password) then Fail(400, MissingCredentials)
    else match Find(users, EmailIs(email.value))
      case None => Fail(404, UserNotFound)
      case Some(i) =>
        if !compare(password.value, users[i].password) then Fail(401, InvalidCredentials)
        else if !users[i].isVerified then Fail(401, NotVerified)
        else Pass
  }

  /** The current-user lookup behind the authentication gate. */
  function GetMe(requestUser: Option<User>): (r: Reply)
    ensures r.status == 404 <==> requestUser.None?
    ensures r.success <==> r.status == 200
    ensures r.success ==> r.data == requestUser && r.message.None?
  {
    match requestUser
    case None => Reply(404, false, Some(UserNotFound), None)
    case Some(u) => Reply(200, true, None, Some(u))
  }

  /** A registration that passes its guards keeps the store invariant: the new
      record is well formed and shares no id, e-mail or username with another. */
  lemma RegisterKeepsInvariant(users: seq<User>, nextId: nat, username: Option<string>,
                               email: Option<string>, password: Option<string>,
                               digest: Digest, draw: Draw)
    requires StoreInvariant(users, nextId)
    requires RegisterCheck(users, username, email, password).Pass?
    ensures StoreInvariant(users + [PendingUser(nextId, username.value, email.value, digest, OtpString(draw))], nextId + 1)
  {
    OtpStringShape(draw);
  }

  /** A password shorter than six characters is rejected before anything is stored. */
  lemma ShortPasswordRejected(users: seq<User>, username: Option<string>, email: Option<string>,
                              password: Option<string>)
    requires password.Some? && |password.value| < 6
    ensures RegisterCheck(users, username, email, password).Fail?
  {
  }

  /** An e-mail or username already in the store is always rejected. */
  lemma DuplicateRejected(users: seq<User>, username: Option<string>, email: Option<string>,
                          password: Option<string>, i: nat)
    requires i < |users| && username.Some? && email.Some?
    requires users[i].email == email.value || users[i].username == username.value
    ensures RegisterCheck(users, username, email, password).Fail?
  {
  }

  /** A wrong password is reported as such even for an unverified account. */
  lemma WrongPasswordReportedFirst(users: seq<User>, email: string, password: string,
                                   compare: (string, Digest) -> bool, i: nat)
    requires email != "" && password != ""
    requires Find(users, EmailIs(email)) == Some(i)
    requires !compare(password, users[i].password)
    ensures LoginCheck(users, Some(email), Some(password), compare) == Fail(401, InvalidCredentials)
  {
  }

  /** Right credentials of an unverified account are still refused. */
  lemma UnverifiedRefused(users: seq<User>, email: string, password: string,
                          compare: (string, Digest) -> bool, i: nat)
    requires email != "" && password != ""
    requires Find(users, EmailIs(email)) == Some(i)
    requires compare(password, users[i].password) && !users[i].isVerified
    ensures LoginCheck(users, Some(email), Some(password), compare) == Fail(401, NotVerified)
  {
  }

  /** After a code is accepted, the same code is accepted again only if another
      record still holds it. */
  lemma ResubmittedCode(users: seq<User>, code: string, i: nat)
    requires Find(users, OtpIs(code)) == Some(i)
    ensures Find(users[i := Verified(users[i])], OtpIs(code)).Some? <==>
            exists j :: 0 <= j < |users| && j != i && users[j].otp == Some(code)
  {
    var after := users[i := Verified(users[i])];
    if j :| 0 <= j < |users| && j != i && users[j].otp == Some(code) {
      assert OtpIs(code)(after[j]);
    }
  }

  /** Codes are looked up across all accounts, and the model's lookup scans the
      records in the order they were stored: when two records hold the same
      code, the one the lookup picks is never the later of the two. */
  lemma SharedCodeGoesToEarlier(users: seq<User>, code: string, i: nat, j: nat)
    requires i < j < |users|
    requires users[i].otp == Some(code) && users[j].otp == Some(code)
    ensures Find(users, OtpIs(code)).Some? && Find(users, OtpIs(code)).value <= i
  {
  }

  class AccountService {
    /** `process.env.NODE_ENV === "production"`: the cookie's `secure` flag. */
    const secure: bool
    /** bcrypt's hash of a password under a salt. */
    const hash: (string, string) -> Digest
    /** bcrypt's check of a password against a stored hash. */
    const compare: (string, Digest) -> bool

    var users: seq<User>
    var outbox: seq<Email>
    var cookie: Option<Cookie>
    var nextId: nat

    ghost predicate Valid()
      reads this
    {
      StoreInvariant(users, nextId)
    }

    constructor (secure: bool, hash: (string, string) -> Digest, compare: (string, Digest) -> bool)
      ensures Valid()
      ensures this.secure == secure && this.hash == hash && this.compare == compare
      ensures users == [] && outbox == [] && cookie == None && nextId == 0
    {
      this.secure, this.hash, this.compare := secure, hash, compare;
      users, outbox, cookie, nextId := [], [], None, 0;
    }

    /** POST /register. A rejection changes nothing; success stores one pending
        record, sets the session cookie and e-mails the code. */
    method Register(username: Option<string>, email: Option<string>, password: Option<string>,
                    salt: string, draw: Draw) returns (r: Reply)
      requires Valid()
      modifies this
      ensures Valid()
      ensures var check := RegisterCheck(old(users), username, email, password);
        && (check.Fail? ==>
              && r == Reply(400, false, Some(check.message), None)
              && users == old(users) && outbox == old(outbox)
              && cookie == old(cookie) && nextId == old(nextId))
        && (check.Pass? ==>
              && r == Reply(201, true, Some(Registered), None)
              && users == old(users) + [PendingUser(old(nextId), username.value, email.value,
                                                    hash(password.value, salt), OtpString(draw))]
              && outbox == old(outbox) + [Email(email.value, VerifySubject, "Your OTP is " + OtpString(draw))]
              && cookie == Some(SessionCookie(Claims(old(nextId), username.value, Some(email.value)),
                                              RegisterCookieMaxAge, secure))
              && nextId == old(nextId) + 1)
    {
      var check := RegisterCheck(users, username, email, password);
      if check.Fail? {
        return Reply(400, false, Some(check.message), None);
      }
      var digest := hash(password.value, salt);
      var code := OtpString(draw);
      RegisterKeepsInvariant(users, nextId, username, email, password, digest, draw);
      var user := PendingUser(nextId, username.value, email.value, digest, code);
      users := users + [user];
      nextId := nextId + 1;
      cookie := Some(SessionCookie(Claims(user.id, user.username, Some(user.email)), RegisterCookieMaxAge, secure));
      outbox := outbox + [Email(user.email, VerifySubject, "Your OTP is " + code)];
      r := Reply(201, true, Some(Registered), None);
    }

    /** POST /login. Only the cookie can change, and only when every guard passes. */
    method Login(email: Option<string>, password: Option<string>) returns (r: Reply)
      modifies this`cookie
      ensures match LoginCheck(users, email, password, compare)
        case Fail(status, message) =>
          r == Reply(status, false, Some(message), None) && cookie == old(cookie)
        case Pass =>
          var u := users[Find(users, EmailIs(email.value)).value];
          && r == Reply(200, true, Some(LoggedIn), None)
          && cookie == Some(SessionCookie(Claims(u.id, u.username, None), LoginCookieMaxAge, secure))
    {
      var check := LoginCheck(users, email, password, compare);
      if check.Fail? {
        return Reply(check.status, false, Some(check.message), None);
      }
      var u := users[Find(users, EmailIs(email.value)).value];
      cookie := Some(SessionCookie(Claims(u.id, u.username, None), LoginCookieMaxAge, secure));
      r := Reply(200, true, Some(LoggedIn), None);
    }

    /** POST /verify-otp. The first record holding the code becomes verified and
        loses its code; any other code is refused. */
    method VerifyOtp(code: string) returns (r: Reply)
      requires Valid()
      modifies this`users
      ensures Valid()
      ensures match Find(old(users), OtpIs(code))
        case None =>
          r == Reply(400, false, Some(InvalidOtp), None) && users == old(users)
        case Some(i) =>
          && users == old(users)[i := Verified(old(users)[i])]
          && r == Reply(200, true, Some(AccountVerified), Some(users[i]))
    {
      var found := Find(users, OtpIs(code));
      if found.None? {
        return Reply(400, false, Some(InvalidOtp), None);
      }
      var i := found.value;
      var user := users[i];
      user := user.(isVerified := true);
      user := user.(otp := None);
      users := users[i := user];
      r := Reply(200, true, Some(AccountVerified), Some(user));
    }

    /** POST /logout: whatever the state, clears the cookie and succeeds. */
    method Logout() returns (r: Reply)
      modifies this`cookie
      ensures cookie == Some(ClearedCookie(secure))
      ensures r == Reply(200, true, Some(LoggedOut), None)
    {
      cookie := Some(ClearedCookie(secure));
      r := Reply(200, true, Some(LoggedOut), None);
    }

    /** POST /forgot-password. `bytes` are the 32 random bytes of the token and
        `now` the current time in milliseconds. */
    method ForgotPassword(email: string, bytes: seq<byte>, now: int) returns (r: Reply)
      requires Valid()
      requires |bytes| == 32
      modifies this`users, this`outbox
      ensures Valid()
      ensures match Find(old(users), EmailIs(email))
        case None =>
          && r == Reply(404, false, Some(UserNotFound), None)
          && users == old(users) && outbox == old(outbox)
        case Some(i) =>
          && users == old(users)[i := WithResetToken(old(users)[i], HexEncode(bytes), now + ResetLifetime)]
          && outbox == old(outbox) + [Email(old(users)[i].email, ResetSubject, ResetMessage(HexEncode(bytes)))]
          && r == Reply(200, true, Some(ResetSent), None)
    {
      var found := Find(users, EmailIs(email));
      if found.None? {
        return Reply(404, false, Some(UserNotFound), None);
      }
      var i := found.value;
      var token := HexEncode(bytes);
      var user := users[i];
      user := user.(resetPasswordToken := Some(token));
      user := user.(resetPasswordExpire := Some(now + ResetLifetime));
      users := users[i := user];
      outbox := outbox + [Email(user.email, ResetSubject, ResetMessage(token))];
      r := Reply(200, true, Some(ResetSent), None);
    }
  }

  /** "ana@x.com" passes the registration e-mail check. */
  lemma ExampleEmailValid()
    ensures EmailPattern.IsEmail("ana@x.com")
  {
    var s := "ana@x.com";
    assert s[3] == '@' && s[5] == '.';
    assert s[..3] == "ana" && s[4..5] == "x" && s[6..] == "com";
    assert EmailPattern.MatchesPattern(s);
    EmailPattern.EmailCheckIsPattern(s);
  }

  /** A fresh service walked through the life of one account: registering
      gives 201, submitting the e-mailed code 200, logging in with the password
      200 and with a wrong password 401. With "ana", "ana@x.com" and "secret1"
      (see ExampleEmailValid) this is the documented example. */
  method SignUpWalkthrough(hash: (string, string) -> Digest, compare: (string, Digest) -> bool,
                           username: string, email: string, password: string, wrong: string,
                           salt: string, draw: Draw)
    returns (registered: nat, verified: nat, loggedIn: nat, refused: nat)
    requires username != "" && |password| >= 6 && wrong != ""
    requires EmailPattern.IsEmail(email)
    requires compare(password, hash(password, salt))
    requires !compare(wrong, hash(password, salt))
    ensures registered == 201 && verified == 200 && loggedIn == 200 && refused == 401
  {
    var service := new AccountService(false, hash, compare);
    var r := service.Register(Some(username), Some(email), Some(password), salt, draw);
    registered := r.status;
    var code := OtpString(draw);
    var pending := PendingUser(0, username, email, hash(password, salt), code);
    assert service.users == [pending];
    FindUnique(service.users, OtpIs(code), 0);
    r := service.VerifyOtp(code);
    verified := r.status;
    assert service.users == [Verified(pending)];
    FindUnique(service.users, EmailIs(email), 0);
    r := service.Login(Some(email), Some(password));
    loggedIn := r.status;
    r := service.Login(Some(email), Some(wrong));
    refused := r.status;
  }
}
