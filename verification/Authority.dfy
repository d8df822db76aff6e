/** What a request must show before it changes a user's row, mints a token or sends a code, and what it hands out. */
module Authority {
  import opened Text
  import opened OtpKeys
  import opened OtpHistory
  import opened OtpService
  import opened Accounts
  import opened AccountInvariant

  /** Request r may turn row u of user uid into u'. */
  ghost predicate MayChangeRow(w: World, r: Request, uid: nat, u: User, u': User) {
    match r
    case Register(phone, username, email, password, password2, _, _) =>
      u.phone == Some(phone) && !u.verified && u' == User(Some(phone), email, username, Hashed(password, w.next), false, false) && password == password2
    case VerifyCode(phone, code) =>
      u.phone == Some(phone) && VerifyAccepts(w.store, w.now, phone, Purpose.Register, code) && u' == u.(active := true, verified := true)
    case ForgotConfirm(t, password, password2, _) =>
      ResetAccepted(w, t) && t.uid == uid && password == password2 && u' == u.(password := Hashed(password, w.next))
    case ChangePassword(access, oldPassword, password, password2, _) =>
      AccessAccepted(w, access) && access.uid == uid && CheckPassword(u, oldPassword) && oldPassword != password && password == password2
      && u' == u.(password := Hashed(password, w.next))
    case Deactivate(v) => v == uid && u' == u.(active := false)
    case _ => false
  }

  /** A user's row changes only at the hands of: a registration of its unverified phone, its register code, an
      accepted reset token of the user, an accepted access token of the user with the old password, the admin. */
  lemma RowChangeAuthorised(w: World, r: Request, uid: nat)
    requires UsersOk(w) && uid < |w.users|
    ensures var w' := Step(w, r).world;
            uid < |w'.users| && (w'.users[uid] == w.users[uid] || MayChangeRow(w, r, uid, w.users[uid], w'.users[uid]))
  {
  }

  /** Request r may mint t with this origin: always for the password the user has. */
  ghost predicate MayGrant(w: World, r: Request, t: Token, origin: Origin) {
    t.uid < |w.users| && t.sig == SignatureOf(w, t.uid) &&
    match origin
    case ByPassword(password) =>
      r.Login? && r.password == password && Matches(w.users[t.uid], Identifies(r.identifier)) && CheckPassword(w.users[t.uid], password) && w.users[t.uid].active
    case ByRegistrationCode =>
      r.VerifyCode? && w.users[t.uid].phone == Some(r.phone) && VerifyAccepts(w.store, w.now, r.phone, Purpose.Register, r.code)
    case ByResetCode =>
      r.ForgotVerify? && w.users[t.uid].phone.Some? && VerifyAccepts(w.store, w.now, w.users[t.uid].phone.value, PasswordReset, r.code)
    case From(p) =>
      (r.Renew? && r.refresh == Some(p) && RefreshAccepted(w, p)) || ((r.Login? || r.VerifyCode?) && p !in w.signed)
  }

  /** Every event of the step that mints a token is covered. */
  ghost predicate GrantsCovered(w: World, r: Request, w': World) {
    forall m | |w.log| <= m < |w'.log| && w'.log[m].Minted? :: MayGrant(w, r, w'.log[m].token, w'.log[m].origin)
  }

  lemma LoginCovered(w: World, identifier: string, password: string)
    requires MintsOk(w)
    ensures GrantsCovered(w, Login(identifier, password), DoLogin(w, identifier, password).world)
  {
  }

  lemma VerifyCodeCovered(w: World, phone: string, code: string)
    requires MintsOk(w)
    ensures GrantsCovered(w, VerifyCode(phone, code), DoVerifyCode(w, phone, code).world)
  {
  }

  lemma OthersCovered(w: World, r: Request)
    requires !r.Login? && !r.VerifyCode?
    ensures GrantsCovered(w, r, Step(w, r).world)
  {
  }

  /** Tokens are minted only for a login with the right password of an active user, for an accepted code of the
      user's phone, or for an accepted refresh token. */
  lemma MintAuthorised(w: World, r: Request)
    requires MintsOk(w)
    ensures GrantsCovered(w, r, Step(w, r).world)
  {
    match r
    case Login(identifier, password) => LoginCovered(w, identifier, password);
    case VerifyCode(phone, code) => VerifyCodeCovered(w, phone, code);
    case _ => OthersCovered(w, r);
  }

  /** Request r may have a code sent by call c. */
  ghost predicate MaySend(w: World, r: Request, c: Call)
    requires c.Request?
  {
    match c.purpose
    case Register => r.Register? && r.phone == c.phone && c.code == CodeText(r.draw)
    case PasswordReset =>
      && r.ForgotRequest? && c.code == CodeText(r.draw)
      && (exists uid :: 0 <= uid < |w.users| && w.users[uid].phone == Some(c.phone)
            && Matches(w.users[uid], Identifies(r.identifier)) && w.users[uid].active && w.users[uid].verified)
  }

  ghost predicate SendsCovered(w: World, r: Request, w': World) {
    forall m | |w.log| <= m < |w'.log| && w'.log[m].Called? && w'.log[m].call.Request? :: MaySend(w, r, w'.log[m].call)
  }

  lemma ForgotRequestCovered(w: World, identifier: string, draw: Draw)
    ensures SendsCovered(w, ForgotRequest(identifier, draw), DoForgotRequest(w, identifier, draw).world)
  {
  }

  lemma NoSends(w: World, r: Request)
    requires !r.ForgotRequest? && !r.Register?
    ensures SendsCovered(w, r, Step(w, r).world)
  {
  }

  /** Codes are asked for only by a registration, for its own phone, and by a forgotten-password request, for an
      active and verified user it identifies. */
  lemma SendAuthorised(w: World, r: Request)
    ensures SendsCovered(w, r, Step(w, r).world)
  {
    if r.ForgotRequest? {
      ForgotRequestCovered(w, r.identifier, r.draw);
    } else if r.Register? {
      assert SendsCovered(w, r, DoRegister(w, r).world);
    } else {
      NoSends(w, r);
    }
  }

  predicate Works(o: Outcome) {
    o.response.Session? ==>
      && AccessAccepted(o.world, o.response.access) && RefreshAccepted(o.world, o.response.refresh)
      && o.response.access.uid == o.response.refresh.uid
  }

  /** What a session hands out works: both tokens are accepted at once. */
  lemma SessionsWork(w: World, r: Request)
    requires Inv(w)
    ensures Works(Step(w, r))
  {
    match r
    case Login(identifier, password) => LoginWorks(w, identifier, password);
    case VerifyCode(phone, code) => VerifyCodeWorks(w, phone, code);
    case Renew(refresh) => RenewWorks(w, refresh);
    case _ =>
  }

  /** So does a granted reset token. */
  lemma ResetGrantWorks(w: World, identifier: string, code: string)
    ensures var o := DoForgotVerify(w, identifier, code); o.response.ResetGranted? ==> ResetAccepted(o.world, o.response.token)
  {
  }

  lemma LoginWorks(w: World, identifier: string, password: string)
    requires MintsOk(w) && LogoutsOk(w)
    ensures Works(DoLogin(w, identifier, password))
  {
  }

  lemma RenewWorks(w: World, refresh: Option<Token>)
    requires MintsOk(w) && LogoutsOk(w)
    ensures Works(DoRenew(w, refresh))
  {
  }

  lemma OpenSessionWorks(w: World, uid: nat, origin: Origin)
    requires MintsOk(w) && LogoutsOk(w) && uid < |w.users| && w.users[uid].active
    ensures Works(OpenSession(w, uid, origin))
  {
  }

  lemma VerifyCodeWorks(w: World, phone: string, code: string)
    requires Inv(w)
    ensures Works(DoVerifyCode(w, phone, code))
  {
    var found := First(w.users, HasPhone(phone));
    if |code| <= CODE_MAX_LENGTH && found.Some? && VerifyAccepts(w.store, w.now, phone, Purpose.Register, code) {
      assert RowOk(w.users[found.value], w.next);
      var w1 := TryCode(w, phone, Purpose.Register, code);
      TryKeeps(w, phone, Purpose.Register, code);
      ActivateKeeps(w1, found.value);
      OpenSessionWorks(Activate(w1, found.value), found.value, ByRegistrationCode);
    }
  }
}
