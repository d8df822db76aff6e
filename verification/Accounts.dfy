/** The account protocol of accounts/api/v1: users, one-time codes, tokens and passwords over one shared state.
    Each request is one atomic step, given here as a function from world to world. */
module Accounts {
  import opened Text
  import opened TtlCache
  import opened OtpKeys
  import opened OtpHistory
  import opened OtpService
  import opened Usernames

  const ACCESS_LIFETIME := 300
  const RESET_LIFETIME := 600
  const REFRESH_LIFETIME := 31536000

  /** A stored password; the salt is drawn anew by every set_password, so no two hashes are ever equal. */
  datatype PasswordHash = Hashed(raw: string, salt: nat) | Unusable(salt: nat)

  datatype User = User(phone: Option<string>, email: string, username: string, password: PasswordHash,
                       active: bool, verified: bool)

  /** _password_signature: an HMAC of the user's key and password hash, taken to be injective. */
  datatype Signature = Signature(uid: nat, hash: PasswordHash)

  datatype TokenKind = Access | Refresh | Reset

  datatype Token = Token(kind: TokenKind, jti: nat, uid: nat, sig: Signature, exp: int)

  datatype Origin = ByPassword(password: string) | ByRegistrationCode | ByResetCode | From(parent: Token)

  datatype Cause = Registration | Change(access: Token, oldPassword: string) | ResetWith(token: Token)

  /** What the log of a run records. */
  datatype Event =
    | Called(call: Call)
    | Minted(at: real, token: Token, origin: Origin)
    | PasswordSet(at: real, uid: nat, hash: PasswordHash, cause: Cause)
    | LoggedOut(at: real, token: Token)
    | Deactivated(at: real, uid: nat)

  /** signed holds every token the server has signed: a presented token verifies iff it is one of them. The log
      is a history variable; no step reads it. */
  datatype World = World(now: real, store: Store, users: seq<User>, signed: set<Token>, next: nat, log: seq<Event>)

  // ---- Queries on the user table ----

  datatype Query =
    | HasUsername(username: string)
    | HasPhone(phone: string)
    | HasVerifiedPhone(phone: string)
    | HasVerifiedEmail(email: string)
    | Identifies(identifier: string)

  predicate Matches(u: User, q: Query) {
    match q
    case HasUsername(name) => u.username == name
    case HasPhone(p) => u.phone == Some(p)
    case HasVerifiedPhone(p) => u.phone == Some(p) && u.verified
    case HasVerifiedEmail(e) => u.email == e && u.verified
    case Identifies(i) => u.phone == Some(i) || u.email == i
  }

  predicate Exists(users: seq<User>, q: Query) {
    exists i :: 0 <= i < |users| && Matches(users[i], q)
  }

  /** filter(q).first() */
  function First(users: seq<User>, q: Query): (r: Option<nat>)
    ensures r.Some? ==> r.value < |users| && Matches(users[r.value], q)
    ensures r.None? <==> !Exists(users, q)
  {
    if users == [] then None
    else if Matches(users[0], q) then Some(0)
    else
      var rest := First(users[1..], q);
      assert forall i | 0 < i < |users| :: users[i] == users[1..][i - 1];
      if rest.Some? then Some(rest.value + 1) else None
  }

  // ---- Field validators ----

  /** phone_regex: 09 and nine digits. Every character but ':' and '@' is let pass for a digit, so that whatever
      follows holds for any class of digits. */
  predicate PhoneShape(p: string) {
    |p| == 11 && p[0] == '0' && p[1] == '9' && ':' !in p && '@' !in p
  }

  /** What is used of EmailField. */
  predicate EmailShape(e: string) {
    '@' in e
  }

  const CODE_MAX_LENGTH := 6

  // ---- Tokens ----

  function SignatureOf(w: World, uid: nat): Signature
    requires uid < |w.users|
  {
    Signature(uid, w.users[uid].password)
  }

  function Lifetime(kind: TokenKind): int {
    match kind
    case Access => ACCESS_LIFETIME
    case Refresh => REFRESH_LIFETIME
    case Reset => RESET_LIFETIME
  }

  /** exp is a whole number of seconds: the fraction of the minting time is dropped. */
  function ExpiryFrom(now: real, kind: TokenKind): int {
    now.Floor + Lifetime(kind)
  }

  function NewToken(w: World, kind: TokenKind, uid: nat, sig: Signature): Token {
    Token(kind, w.next, uid, sig, ExpiryFrom(w.now, kind))
  }

  /** Token(value): signature, expiry and token_type. */
  predicate Decodes(w: World, t: Token, kind: TokenKind) {
    t in w.signed && t.kind == kind && w.now < t.exp as real
  }

  predicate SignatureCurrent(w: World, t: Token) {
    t.uid < |w.users| && t.sig == SignatureOf(w, t.uid)
  }

  predicate ActiveUser(w: World, t: Token) {
    t.uid < |w.users| && w.users[t.uid].active
  }

  function RevokedKey(jti: nat): string {
    "revoked_refresh_jti:" + Decimal(jti)
  }

  predicate IsRevoked(w: World, t: Token) {
    Lookup(w.store, w.now, RevokedKey(t.jti)).Some?
  }

  /** AppJWTAuthentication.get_user returns the user. */
  predicate AccessAccepted(w: World, t: Token) {
    Decodes(w, t, Access) && ActiveUser(w, t) && SignatureCurrent(w, t)
  }

  /** AppTokenRefreshSerializer.validate returns. */
  predicate RefreshAccepted(w: World, t: Token) {
    Decodes(w, t, Refresh) && !IsRevoked(w, t) && SignatureCurrent(w, t) && ActiveUser(w, t)
  }

  /** ForgotPasswordConfirmSerializer.validate_reset_token returns. */
  predicate ResetAccepted(w: World, t: Token) {
    Decodes(w, t, Reset) && SignatureCurrent(w, t)
  }

  /** Python's int() on a float. */
  function Truncate(x: real): int {
    if x >= 0.0 then x.Floor else -(-x).Floor
  }

  function RevocationTtl(exp: int, now: real): int {
    var left := Truncate(exp as real - now);
    if left > 1 then left else 1
  }

  // ---- Parts of steps ----

  function AskCode(w: World, phone: string, q: Purpose, code: string): World {
    w.(store := AfterRequest(w.store, w.now, phone, q, code),
       log := w.log + [Called(RequestCall(w.store, w.now, phone, q, code))])
  }

  function TryCode(w: World, phone: string, q: Purpose, code: string): World {
    w.(store := AfterVerify(w.store, w.now, phone, q, code),
       log := w.log + [Called(VerifyCall(w.store, w.now, phone, q, code))])
  }

  function SetPassword(w: World, uid: nat, raw: string, cause: Cause): World
    requires uid < |w.users|
  {
    var hash := Hashed(raw, w.next);
    w.(users := w.users[uid := w.users[uid].(password := hash)],
       next := w.next + 1,
       log := w.log + [PasswordSet(w.now, uid, hash, cause)])
  }

  /** The row of a registration that awaits its code: a new one, or a pending one overwritten. */
  function PutPending(w: World, uid: nat, phone: string, email: string, username: string, raw: string): World
    requires uid <= |w.users|
  {
    var hash := Hashed(raw, w.next);
    var row := User(Some(phone), email, username, hash, false, false);
    w.(users := if uid < |w.users| then w.users[uid := row] else w.users + [row],
       next := w.next + 1,
       log := w.log + [PasswordSet(w.now, uid, hash, Registration)])
  }

  function Activate(w: World, uid: nat): World
    requires uid < |w.users|
  {
    w.(users := w.users[uid := w.users[uid].(verified := true, active := true)])
  }

  function Mint(w: World, kind: TokenKind, uid: nat, sig: Signature, origin: Origin): World {
    var t := NewToken(w, kind, uid, sig);
    w.(signed := w.signed + {t}, next := w.next + 1, log := w.log + [Minted(w.now, t, origin)])
  }

  function Revoke(w: World, t: Token): World {
    w.(store := w.store[RevokedKey(t.jti) := Entry(Flag, w.now + RevocationTtl(t.exp, w.now) as real)],
       log := w.log + [LoggedOut(w.now, t)])
  }

  datatype Failure = Unauthorized | BadRequest | IntegrityError

  datatype Response = Done | Session(access: Token, refresh: Token) | ResetGranted(token: Token) | Failed(why: Failure)

  datatype Outcome = Outcome(world: World, response: Response)

  function Fail(w: World, why: Failure): Outcome {
    Outcome(w, Failed(why))
  }

  /** AppRefreshToken.for_user, then its access_token. */
  function OpenSession(w: World, uid: nat, origin: Origin): Outcome
    requires uid < |w.users|
  {
    var sig := SignatureOf(w, uid);
    var refresh := NewToken(w, Refresh, uid, sig);
    var w1 := Mint(w, Refresh, uid, sig, origin);
    Outcome(Mint(w1, Access, uid, sig, From(refresh)), Session(NewToken(w1, Access, uid, sig), refresh))
  }

  // ---- The requests ----

  /** policyOk is the verdict of Django's password validators. */
  datatype Request =
    | Wait(dt: real)
    | Register(phone: string, username: string, email: string, password: string, password2: string, policyOk: bool, draw: Draw)
    | VerifyCode(phone: string, code: string)
    | Login(identifier: string, password: string)
    | Renew(refresh: Option<Token>)
    | Logout(access: Token, refresh: Option<Token>)
    | ForgotRequest(identifier: string, draw: Draw)
    | ForgotVerify(identifier: string, code: string)
    | ForgotConfirm(token: Token, password: string, password2: string, policyOk: bool)
    | ChangePassword(access: Token, oldPassword: string, password: string, password2: string, policyOk: bool)
    | Deactivate(uid: nat)

  predicate RegistrationValid(w: World, r: Request)
    requires r.Register?
  {
    && UsernameRegex(r.username) && !Exists(w.users, HasUsername(r.username))
    && PhoneShape(r.phone) && !Exists(w.users, HasVerifiedPhone(r.phone)) && !IsThrottled(w.store, w.now, r.phone)
    && EmailShape(r.email) && !Exists(w.users, HasVerifiedEmail(r.email))
    && r.policyOk && r.password == r.password2
  }

  /** The row update_or_create writes: the one with this phone, or the next. */
  function RegistrationRow(w: World, phone: string): (uid: nat)
    ensures uid <= |w.users|
  {
    var found := First(w.users, HasPhone(phone));
    if found.Some? then found.value else |w.users|
  }

  /** Another row, necessarily an unverified one, has the address. */
  predicate EmailTaken(users: seq<User>, uid: nat, email: string) {
    exists i :: 0 <= i < |users| && i != uid && users[i].email == email
  }

  function DoRegister(w: World, r: Request): Outcome
    requires r.Register?
  {
    var uid := RegistrationRow(w, r.phone);
    if !RegistrationValid(w, r) then Fail(w, BadRequest)
    else if EmailTaken(w.users, uid, r.email) then Fail(w, IntegrityError)
    else Outcome(AskCode(PutPending(w, uid, r.phone, r.email, r.username, r.password), r.phone, Purpose.Register, CodeText(r.draw)), Done)
  }

  function DoVerifyCode(w: World, phone: string, code: string): Outcome {
    var found := First(w.users, HasPhone(phone));
    if |code| > CODE_MAX_LENGTH || found.None? then Fail(w, BadRequest) else
      var w1 := TryCode(w, phone, Purpose.Register, code);
      if !VerifyAccepts(w.store, w.now, phone, Purpose.Register, code) then Fail(w1, BadRequest)
      else OpenSession(Activate(w1, found.value), found.value, ByRegistrationCode)
  }

  predicate CheckPassword(u: User, raw: string) {
    u.password.Hashed? && u.password.raw == raw
  }

  function DoLogin(w: World, identifier: string, password: string): Outcome {
    var found := First(w.users, Identifies(identifier));
    if found.None? || !CheckPassword(w.users[found.value], password) || !w.users[found.value].active then Fail(w, Unauthorized)
    else OpenSession(w, found.value, ByPassword(password))
  }

  /** A new access token and the rotated refresh token, with the claims of the one presented. */
  function DoRenew(w: World, refresh: Option<Token>): Outcome {
    if refresh.None? || !RefreshAccepted(w, refresh.value) then Fail(w, Unauthorized) else
      var t := refresh.value;
      var w1 := Mint(w, Access, t.uid, t.sig, From(t));
      Outcome(Mint(w1, Refresh, t.uid, t.sig, From(t)),
              Session(NewToken(w, Access, t.uid, t.sig), NewToken(w1, Refresh, t.uid, t.sig)))
  }

  function DoLogout(w: World, access: Token, refresh: Option<Token>): Outcome {
    if !AccessAccepted(w, access) then Fail(w, Unauthorized)
    else if refresh.None? || !Decodes(w, refresh.value, Refresh) then Fail(w, BadRequest)
    else Outcome(Revoke(w, refresh.value), Done)
  }

  function DoForgotRequest(w: World, identifier: string, draw: Draw): Outcome {
    var found := First(w.users, Identifies(identifier));
    if found.None? then Outcome(w, Done) else
      var u := w.users[found.value];
      if u.phone.None? || !u.active || !u.verified then Outcome(w, Done)
      else Outcome(AskCode(w, u.phone.value, PasswordReset, CodeText(draw)), Done)
  }

  function DoForgotVerify(w: World, identifier: string, code: string): Outcome {
    var found := First(w.users, Identifies(identifier));
    if |code| > CODE_MAX_LENGTH || found.None? || w.users[found.value].phone.None? then Fail(w, BadRequest) else
      var uid, phone := found.value, w.users[found.value].phone.value;
      var w1 := TryCode(w, phone, PasswordReset, code);
      if !VerifyAccepts(w.store, w.now, phone, PasswordReset, code) then Fail(w1, BadRequest)
      else Outcome(Mint(w1, Reset, uid, SignatureOf(w1, uid), ByResetCode), ResetGranted(NewToken(w1, Reset, uid, SignatureOf(w1, uid))))
  }

  function DoForgotConfirm(w: World, t: Token, password: string, password2: string, policyOk: bool): Outcome {
    if !ResetAccepted(w, t) || password != password2 || !policyOk then Fail(w, BadRequest)
    else Outcome(SetPassword(w, t.uid, password, ResetWith(t)), Done)
  }

  function DoChangePassword(w: World, access: Token, oldPassword: string, password: string, password2: string, policyOk: bool): Outcome {
    if !AccessAccepted(w, access) then Fail(w, Unauthorized)
    else if !CheckPassword(w.users[access.uid], oldPassword) || password != password2 || oldPassword == password || !policyOk then
      Fail(w, BadRequest)
    else Outcome(SetPassword(w, access.uid, password, Change(access, oldPassword)), Done)
  }

  /** The admin switches an account off. */
  function DoDeactivate(w: World, uid: nat): Outcome {
    if uid >= |w.users| then Fail(w, BadRequest)
    else Outcome(w.(users := w.users[uid := w.users[uid].(active := false)], log := w.log + [Deactivated(w.now, uid)]), Done)
  }

  function DoWait(w: World, dt: real): Outcome {
    if dt >= 0.0 then Outcome(w.(now := w.now + dt), Done) else Fail(w, BadRequest)
  }

  function Step(w: World, r: Request): Outcome {
    match r
    case Wait(dt) => DoWait(w, dt)
    case Register(_, _, _, _, _, _, _) => DoRegister(w, r)
    case VerifyCode(phone, code) => DoVerifyCode(w, phone, code)
    case Login(identifier, password) => DoLogin(w, identifier, password)
    case Renew(refresh) => DoRenew(w, refresh)
    case Logout(access, refresh) => DoLogout(w, access, refresh)
    case ForgotRequest(identifier, draw) => DoForgotRequest(w, identifier, draw)
    case ForgotVerify(identifier, code) => DoForgotVerify(w, identifier, code)
    case ForgotConfirm(t, p, p2, ok) => DoForgotConfirm(w, t, p, p2, ok)
    case ChangePassword(access, old_, p, p2, ok) => DoChangePassword(w, access, old_, p, p2, ok)
    case Deactivate(uid) => DoDeactivate(w, uid)
  }

  function Run(w: World, rs: seq<Request>): World {
    if rs == [] then w else Step(Run(w, rs[..|rs| - 1]), rs[|rs| - 1]).world
  }
}
