/** The endpoints as they run: one object whose fields the requests update in place, each proved to do what its
    step function says. */
module Server {
  import opened Text
  import opened TtlCache
  import opened OtpKeys
  import opened OtpService
  import opened Usernames
  import opened Accounts
  import opened AccountInvariant
  import opened AccountSteps

  class Api {
    const cache: Cache
    var users: seq<User>
    var signed: set<Token>
    var next: nat
    ghost var log: seq<Event>

    ghost function View(): World
      reads this, cache
    {
      World(cache.now, cache.store, users, signed, next, log)
    }

    ghost predicate Valid()
      reads this, cache
    {
      Inv(View())
    }

    constructor (cache: Cache, users: seq<User>, next: nat)
      requires cache.store == map[] && UsersOk(World(cache.now, map[], users, {}, next, []))
      ensures this.cache == cache && Init(View()) && Valid()
    {
      this.cache := cache;
      this.users, this.next, this.signed, this.log := users, next, {}, [];
      new;
      InitInv(View());
    }

    // ---- accounts/services/tokens.py ----

    function CurrentSignature(uid: nat): Signature
      requires uid < |users|
      reads this
    {
      Signature(uid, users[uid].password)
    }

    method Sign(kind: TokenKind, uid: nat, sig: Signature, origin: Origin) returns (t: Token)
      modifies this
      ensures View() == Mint(old(View()), kind, uid, sig, origin) && t == NewToken(old(View()), kind, uid, sig)
    {
      t := Token(kind, next, uid, sig, ExpiryFrom(cache.now, kind));
      signed := signed + {t};
      next := next + 1;
      log := log + [Minted(cache.now, t, origin)];
    }

    method ForUser(uid: nat, origin: Origin) returns (access: Token, refresh: Token)
      requires uid < |users|
      modifies this
      ensures View() == OpenSession(old(View()), uid, origin).world
      ensures Session(access, refresh) == OpenSession(old(View()), uid, origin).response
    {
      var sig := CurrentSignature(uid);
      refresh := Sign(Refresh, uid, sig, origin);
      access := Sign(Access, uid, sig, From(refresh));
    }

    method Verifies(t: Token, kind: TokenKind) returns (b: bool)
      ensures b == Decodes(View(), t, kind)
    {
      b := t in signed && t.kind == kind && cache.now < t.exp as real;
    }

    method RevokeRefreshToken(t: Token)
      modifies this, cache`store
      ensures View() == Revoke(old(View()), t)
    {
      var ttl := Truncate(t.exp as real - cache.now);
      if ttl < 1 {
        ttl := 1;
      }
      cache.Set(RevokedKey(t.jti), Flag, ttl as real);
      log := log + [LoggedOut(cache.now, t)];
    }

    /** AppJWTAuthentication.get_user: the user's row, or an AuthenticationFailed. */
    method Authenticate(t: Token) returns (uid: Option<nat>)
      ensures uid == if AccessAccepted(View(), t) then Some(t.uid) else None
    {
      var ok := Verifies(t, Access);
      if !ok || t.uid >= |users| || !users[t.uid].active {
        return None;
      }
      if t.sig != CurrentSignature(t.uid) {
        return None;
      }
      uid := Some(t.uid);
    }

    // ---- Parts of the endpoints ----

    method StorePassword(uid: nat, raw: string, cause: Cause)
      requires uid < |users|
      modifies this
      ensures View() == SetPassword(old(View()), uid, raw, cause)
    {
      var hash := Hashed(raw, next);
      users := users[uid := users[uid].(password := hash)];
      next := next + 1;
      log := log + [PasswordSet(cache.now, uid, hash, cause)];
    }

    method SendCode(phone: string, q: Purpose, draw: Draw)
      modifies this, cache`store
      ensures View() == AskCode(old(View()), phone, q, CodeText(draw))
    {
      ghost var call := RequestCall(cache.store, cache.now, phone, q, CodeText(draw));
      var sent := RequestOtp(cache, phone, q, draw);
      log := log + [Called(call)];
    }

    method CheckCode(phone: string, q: Purpose, code: string) returns (ok: bool)
      modifies this, cache`store
      ensures View() == TryCode(old(View()), phone, q, code)
      ensures ok == VerifyAccepts(old(cache.store), cache.now, phone, q, code)
    {
      ghost var call := VerifyCall(cache.store, cache.now, phone, q, code);
      ok := VerifyOtp(cache, phone, q, code);
      log := log + [Called(call)];
    }

    // ---- accounts/api/v1/serializers.py and views.py ----

    method Register(phone: string, username: string, email: string, password: string, password2: string, policyOk: bool, draw: Draw)
        returns (r: Response)
      modifies this, cache`store
      ensures var o := DoRegister(old(View()), Request.Register(phone, username, email, password, password2, policyOk, draw));
              View() == o.world && r == o.response
    {
      var throttled := Throttled(cache, phone);
      if !UsernameRegex(username) || Exists(users, HasUsername(username)) {
        return Failed(BadRequest);
      }
      if !EmailShape(email) || Exists(users, HasVerifiedEmail(email)) {
        return Failed(BadRequest);
      }
      if !PhoneShape(phone) || Exists(users, HasVerifiedPhone(phone)) || throttled {
        return Failed(BadRequest);
      }
      if !policyOk || password != password2 {
        return Failed(BadRequest);
      }
      ghost var w := View();
      var found := First(users, HasPhone(phone));
      var uid := if found.Some? then found.value else |users|;
      if EmailTaken(users, uid, email) {
        return Failed(IntegrityError);
      }
      var row := User(Some(phone), email, username, Hashed(password, next), false, false);
      users := if found.Some? then users[uid := row] else users + [row];
      log := log + [PasswordSet(cache.now, uid, Hashed(password, next), Registration)];
      next := next + 1;
      assert View() == PutPending(w, uid, phone, email, username, password);
      SendCode(phone, Purpose.Register, draw);
      r := Done;
    }

    method VerifyCode(phone: string, code: string) returns (r: Response)
      modifies this, cache`store
      ensures var o := DoVerifyCode(old(View()), phone, code); View() == o.world && r == o.response
    {
      var found := First(users, HasPhone(phone));
      if |code| > CODE_MAX_LENGTH || found.None? {
        return Failed(BadRequest);
      }
      var ok := CheckCode(phone, Purpose.Register, code);
      if !ok {
        return Failed(BadRequest);
      }
      var uid := found.value;
      users := users[uid := users[uid].(verified := true, active := true)];
      var access, refresh := ForUser(uid, ByRegistrationCode);
      r := Session(access, refresh);
    }

    method Login(identifier: string, password: string) returns (r: Response)
      modifies this
      ensures var o := DoLogin(old(View()), identifier, password); View() == o.world && r == o.response
    {
      var found := First(users, Identifies(identifier));
      if found.None? || !CheckPassword(users[found.value], password) {
        return Failed(Unauthorized);
      }
      if !users[found.value].active {
        return Failed(Unauthorized);
      }
      var access, refresh := ForUser(found.value, ByPassword(password));
      r := Session(access, refresh);
    }

    method Renew(cookie: Option<Token>) returns (r: Response)
      modifies this
      ensures var o := DoRenew(old(View()), cookie); View() == o.world && r == o.response
    {
      if cookie.None? {
        return Failed(Unauthorized);
      }
      var t := cookie.value;
      var ok := Verifies(t, Refresh);
      if !ok {
        return Failed(Unauthorized);
      }
      var revoked := cache.Get(RevokedKey(t.jti));
      if revoked.Some? || t.uid >= |users| {
        return Failed(Unauthorized);
      }
      if t.sig != CurrentSignature(t.uid) || !users[t.uid].active {
        return Failed(Unauthorized);
      }
      var access := Sign(Access, t.uid, t.sig, From(t));
      var refresh := Sign(Refresh, t.uid, t.sig, From(t));
      r := Session(access, refresh);
    }

    method Logout(access: Token, cookie: Option<Token>) returns (r: Response)
      modifies this, cache`store
      ensures var o := DoLogout(old(View()), access, cookie); View() == o.world && r == o.response
    {
      var uid := Authenticate(access);
      if uid.None? {
        return Failed(Unauthorized);
      }
      if cookie.None? {
        return Failed(BadRequest);
      }
      var ok := Verifies(cookie.value, Refresh);
      if !ok {
        return Failed(BadRequest);
      }
      RevokeRefreshToken(cookie.value);
      r := Done;
    }

    method ForgotRequest(identifier: string, draw: Draw) returns (r: Response)
      modifies this, cache`store
      ensures var o := DoForgotRequest(old(View()), identifier, draw); View() == o.world && r == o.response
    {
      var found := First(users, Identifies(identifier));
      if found.None? {
        return Done;
      }
      var user := users[found.value];
      if user.phone.None? || !user.active || !user.verified {
        return Done;
      }
      SendCode(user.phone.value, PasswordReset, draw);
      r := Done;
    }

    method ForgotVerify(identifier: string, code: string) returns (r: Response)
      modifies this, cache`store
      ensures var o := DoForgotVerify(old(View()), identifier, code); View() == o.world && r == o.response
    {
      var found := First(users, Identifies(identifier));
      if |code| > CODE_MAX_LENGTH || found.None? || users[found.value].phone.None? {
        return Failed(BadRequest);
      }
      var uid := found.value;
      var ok := CheckCode(users[uid].phone.value, PasswordReset, code);
      if !ok {
        return Failed(BadRequest);
      }
      var t := Sign(Reset, uid, CurrentSignature(uid), ByResetCode);
      r := ResetGranted(t);
    }

    method ForgotConfirm(t: Token, password: string, password2: string, policyOk: bool) returns (r: Response)
      modifies this
      ensures var o := DoForgotConfirm(old(View()), t, password, password2, policyOk); View() == o.world && r == o.response
    {
      var ok := Verifies(t, Reset);
      if !ok || t.uid >= |users| {
        return Failed(BadRequest);
      }
      if t.sig != CurrentSignature(t.uid) || password != password2 || !policyOk {
        return Failed(BadRequest);
      }
      StorePassword(t.uid, password, ResetWith(t));
      r := Done;
    }

    method ChangePassword(access: Token, oldPassword: string, password: string, password2: string, policyOk: bool) returns (r: Response)
      modifies this
      ensures var o := DoChangePassword(old(View()), access, oldPassword, password, password2, policyOk);
              View() == o.world && r == o.response
    {
      var uid := Authenticate(access);
      if uid.None? {
        return Failed(Unauthorized);
      }
      if !CheckPassword(users[uid.value], oldPassword) {
        return Failed(BadRequest);
      }
      if password != password2 || oldPassword == password || !policyOk {
        return Failed(BadRequest);
      }
      StorePassword(uid.value, password, Change(access, oldPassword));
      r := Done;
    }

    method Deactivate(uid: nat) returns (r: Response)
      modifies this
      ensures var o := DoDeactivate(old(View()), uid); View() == o.world && r == o.response
    {
      if uid >= |users| {
        return Failed(BadRequest);
      }
      users := users[uid := users[uid].(active := false)];
      log := log + [Deactivated(cache.now, uid)];
      r := Done;
    }

    method Wait(dt: real) returns (r: Response)
      modifies this, cache
      ensures var o := DoWait(old(View()), dt); View() == o.world && r == o.response
    {
      if dt < 0.0 {
        return Failed(BadRequest);
      }
      cache.Wait(dt);
      r := Done;
    }

    /** One request, dispatched. */
    method Serve(q: Request) returns (r: Response)
      modifies this, cache
      ensures Outcome(View(), r) == Step(old(View()), q)
    {
      match q
      case Wait(dt) => r := Wait(dt);
      case Register(phone, username, email, password, password2, ok, draw) =>
        r := Register(phone, username, email, password, password2, ok, draw);
      case VerifyCode(phone, code) => r := VerifyCode(phone, code);
      case Login(identifier, password) => r := Login(identifier, password);
      case Renew(cookie) => r := Renew(cookie);
      case Logout(access, cookie) => r := Logout(access, cookie);
      case ForgotRequest(identifier, draw) => r := ForgotRequest(identifier, draw);
      case ForgotVerify(identifier, code) => r := ForgotVerify(identifier, code);
      case ForgotConfirm(t, password, password2, ok) => r := ForgotConfirm(t, password, password2, ok);
      case ChangePassword(access, oldPassword, password, password2, ok) =>
        r := ChangePassword(access, oldPassword, password, password2, ok);
      case Deactivate(uid) => r := Deactivate(uid);
    }

    /** Serving any request takes the step of the model and keeps the invariant. */
    method Handle(q: Request) returns (r: Response)
      requires Valid()
      modifies this, cache
      ensures Valid() && Outcome(View(), r) == Step(old(View()), q)
    {
      ghost var w := View();
      r := Serve(q);
      StepKeeps(w, q);
    }
  }
}
