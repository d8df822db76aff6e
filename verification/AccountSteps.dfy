/** Every step of the account protocol keeps the invariant, so every run does. */
module AccountSteps {
  import opened Text
  import opened TtlCache
  import opened OtpKeys
  import opened OtpService
  import opened Accounts
  import opened AccountInvariant

  /** A phone or address identifies one user, so the order in which rows are searched does not matter. */
  lemma IdentifierUnique(w: World, i: int, j: int, identifier: string)
    requires UsersOk(w) && 0 <= i < |w.users| && 0 <= j < |w.users|
    requires Matches(w.users[i], Identifies(identifier)) && Matches(w.users[j], Identifies(identifier))
    ensures i == j
  {
  }

  // ---- Registration ----

  /** The row of a registration is a fresh one or the pending one with the same phone, and no other row clashes with it. */
  lemma RegistrationRowOk(w: World, r: Request)
    requires UsersOk(w) && r.Register? && RegistrationValid(w, r) && !EmailTaken(w.users, RegistrationRow(w, r.phone), r.email)
    ensures var uid := RegistrationRow(w, r.phone);
            && (uid < |w.users| ==> w.users[uid].phone == Some(r.phone) && !w.users[uid].verified)
            && (forall i | 0 <= i < |w.users| && i != uid ::
                  w.users[i].phone != Some(r.phone) && w.users[i].email != r.email && w.users[i].username != r.username)
  {
  }

  lemma PutPendingRows(w: World, r: Request)
    requires UsersOk(w) && r.Register? && RegistrationValid(w, r) && !EmailTaken(w.users, RegistrationRow(w, r.phone), r.email)
    ensures var w' := PutPending(w, RegistrationRow(w, r.phone), r.phone, r.email, r.username, r.password);
            UsersOk(w') && UsersExtend(w.users, w'.users)
  {
    var uid := RegistrationRow(w, r.phone);
    var w' := PutPending(w, uid, r.phone, r.email, r.username, r.password);
    RegistrationRowOk(w, r);
    forall i | 0 <= i < |w.users| ensures RowExtends(w.users[i], w'.users[i]) {
      assert RowOk(w.users[i], w.next);
    }
    forall i | 0 <= i < |w'.users| ensures RowOk(w'.users[i], w'.next) {
      if i != uid {
        assert RowOk(w.users[i], w.next);
      }
    }
  }

  lemma PutPendingKeeps(w: World, r: Request)
    requires Base(w) && r.Register? && RegistrationValid(w, r) && !EmailTaken(w.users, RegistrationRow(w, r.phone), r.email)
    ensures var w' := PutPending(w, RegistrationRow(w, r.phone), r.phone, r.email, r.username, r.password);
            Base(w') && UsersExtend(w.users, w'.users)
  {
    var uid := RegistrationRow(w, r.phone);
    var w' := PutPending(w, uid, r.phone, r.email, r.username, r.password);
    var e := PasswordSet(w.now, uid, Hashed(r.password, w.next), Registration);
    PutPendingRows(w, r);
    TableStep(w, w', [e]);
    SetStep(w, w', e);
  }

  // ---- Coupling ----

  /** A step that writes no code and changes no pending account keeps the coupling. */
  lemma CoupledFrame(w: World, w': World, es: seq<Event>, p: string)
    requires CoupledAt(w, p) && UsersExtend(w.users, w'.users) && w'.log == w.log + es
    requires forall q :: OtpKey(p, q) in w'.store ==> OtpKey(p, q) in w.store
    requires forall j | 0 <= j < |es| :: !IssuesRegisterCode(es[j], p)
    requires OtpKey(p, Purpose.Register) in w'.store ==> forall uid | 0 <= uid < |w.users| && w.users[uid].phone == Some(p) && !w.users[uid].verified && !w.users[uid].active ::
               w'.users[uid].password == w.users[uid].password && !w'.users[uid].verified && !w'.users[uid].active
    ensures CoupledAt(w', p)
  {
    if OtpKey(p, Purpose.Register) in w'.store {
      var uid, i :| Link(w, p, uid, i);
      assert RowExtends(w.users[uid], w'.users[uid]);
      assert Link(w', p, uid, i);
    }
    if OtpKey(p, PasswordReset) in w'.store {
      var uid :| 0 <= uid < |w.users| && w.users[uid].phone == Some(p) && w.users[uid].verified;
      assert RowExtends(w.users[uid], w'.users[uid]);
    }
  }

  lemma RegisterKeeps(w: World, r: Request)
    requires Inv(w) && r.Register?
    ensures Inv(DoRegister(w, r).world) && UsersExtend(w.users, DoRegister(w, r).world.users)
  {
    var uid := RegistrationRow(w, r.phone);
    if RegistrationValid(w, r) && !EmailTaken(w.users, uid, r.email) {
      var w1 := PutPending(w, uid, r.phone, r.email, r.username, r.password);
      var w2 := AskCode(w1, r.phone, Purpose.Register, CodeText(r.draw));
      PutPendingKeeps(w, r);
      AskKeeps(w1, r.phone, Purpose.Register, CodeText(r.draw));
      forall p | ColonFree(p) ensures CoupledAt(w2, p) {
        RegisterCouples(w, r, p);
      }
    } else {
      UsersSame(w.users);
    }
  }

  /** A registration writes no code but its own. */
  lemma RegisterWrites(w: World, r: Request, p: string)
    requires r.Register? && RegistrationValid(w, r) && !EmailTaken(w.users, RegistrationRow(w, r.phone), r.email)
    requires ColonFree(p)
    ensures forall q | !(p == r.phone && q == Purpose.Register) ::
              OtpKey(p, q) in DoRegister(w, r).world.store ==> OtpKey(p, q) in w.store
  {
    forall q | !(p == r.phone && q == Purpose.Register)
      ensures OtpKey(p, q) in DoRegister(w, r).world.store ==> OtpKey(p, q) in w.store
    {
      KeysInjective(p, q, r.phone, Purpose.Register);
      KeysDisjoint(p, q, r.phone, Purpose.Register);
      KeyCollisions(r.phone, Purpose.Register, p, q);
    }
  }

  function RegisterEvents(w: World, r: Request): seq<Event>
    requires r.Register?
  {
    [PasswordSet(w.now, RegistrationRow(w, r.phone), Hashed(r.password, w.next), Registration),
     Called(RequestCall(w.store, w.now, r.phone, Purpose.Register, CodeText(r.draw)))]
  }

  lemma RegisterCouples(w: World, r: Request, p: string)
    requires UsersOk(w) && Coupled(w) && r.Register? && RegistrationValid(w, r)
    requires !EmailTaken(w.users, RegistrationRow(w, r.phone), r.email)
    requires UsersExtend(w.users, DoRegister(w, r).world.users) && ColonFree(p)
    ensures CoupledAt(DoRegister(w, r).world, p)
  {
    var uid := RegistrationRow(w, r.phone);
    var w' := DoRegister(w, r).world;
    var es := RegisterEvents(w, r);
    assert CoupledAt(w, p);
    RegistrationRowOk(w, r);
    RegisterWrites(w, r, p);
    assert w'.log == w.log + es;
    if p == r.phone {
      assert Link(w', p, uid, |w.log| + 1);
      assert forall v | 0 <= v < |w.users| :: !Matches(w.users[v], HasVerifiedPhone(p));
      assert OtpKey(p, PasswordReset) !in w.store;
    } else {
      CoupledFrame(w, w', es, p);
    }
  }

  // ---- The other requests ----

  lemma TryCouples(w: World, phone: string, q: Purpose, code: string)
    requires Coupled(w) && ColonFree(phone)
    ensures Coupled(TryCode(w, phone, q, code))
  {
    forall p | ColonFree(p) ensures CoupledAt(TryCode(w, phone, q, code), p) {
      TryKeepsCodes(w.store, w.now, phone, q, code, p);
      UsersSame(w.users);
      CoupledFrame(w, TryCode(w, phone, q, code), [Called(VerifyCall(w.store, w.now, phone, q, code))], p);
    }
  }

  lemma TryKeepsCodes(s: Store, now: real, phone: string, q: Purpose, code: string, p: string)
    requires ColonFree(phone) && ColonFree(p)
    ensures forall r :: OtpKey(p, r) in AfterVerify(s, now, phone, q, code) ==> OtpKey(p, r) in s
  {
    forall r ensures OtpKey(p, r) != AttemptsKey(phone, q) {
      KeysDisjoint(p, r, phone, q);
    }
  }

  /** Minting, revoking, switching off and waiting leave the coupling alone. */
  lemma CoupledStays(w: World, w': World, es: seq<Event>)
    requires Coupled(w) && UsersExtend(w.users, w'.users) && w'.log == w.log + es
    requires forall p, q :: OtpKey(p, q) in w'.store ==> OtpKey(p, q) in w.store
    requires forall j | 0 <= j < |es| :: !es[j].Called?
    requires forall uid | 0 <= uid < |w.users| && !w.users[uid].verified && !w.users[uid].active ::
               w'.users[uid].password == w.users[uid].password && !w'.users[uid].verified && !w'.users[uid].active
    ensures Coupled(w')
  {
    forall p | ColonFree(p) ensures CoupledAt(w', p) {
      CoupledFrame(w, w', es, p);
    }
  }

  lemma FirstIsOwner(w: World, phone: string, uid: int)
    requires UsersOk(w) && 0 <= uid < |w.users| && w.users[uid].phone == Some(phone)
    ensures First(w.users, HasPhone(phone)) == Some(uid)
  {
  }

  lemma FreshNotLoggedOut(w: World, t: Token, e: Event)
    requires MintsOk(w) && LogoutsOk(w) && t.jti == w.next && e.Minted?
    ensures MintAllowed(w.log + [e], |w.log| + 1, w.now, t)
  {
  }

  /** The record of the last logout of an accepted refresh token, if there was one, has run out. */
  lemma RefreshNotLoggedOut(w: World, t: Token)
    requires MintsOk(w) && LogoutsOk(w) && RefreshAccepted(w, t)
    ensures MintAllowed(w.log, |w.log|, w.now, t)
  {
  }

  lemma MintInv(w: World, kind: TokenKind, uid: nat, sig: Signature, origin: Origin)
    requires Inv(w) && MayMint(w, kind, uid, sig, origin)
    ensures Inv(Mint(w, kind, uid, sig, origin))
  {
    MintKeeps(w, kind, uid, sig, origin);
    UsersSame(w.users);
    CoupledStays(w, Mint(w, kind, uid, sig, origin), [Minted(w.now, NewToken(w, kind, uid, sig), origin)]);
  }

  lemma OpenSessionKeeps(w: World, uid: nat, origin: Origin)
    requires Inv(w) && uid < |w.users| && (origin.ByPassword? || origin.ByRegistrationCode?)
    ensures Inv(OpenSession(w, uid, origin).world)
    ensures UsersExtend(w.users, OpenSession(w, uid, origin).world.users)
  {
    var sig := SignatureOf(w, uid);
    var refresh := NewToken(w, Refresh, uid, sig);
    assert RowOk(w.users[uid], w.next);
    MintInv(w, Refresh, uid, sig, origin);
    FreshNotLoggedOut(w, refresh, Minted(w.now, refresh, origin));
    MintInv(Mint(w, Refresh, uid, sig, origin), Access, uid, sig, From(refresh));
    UsersSame(w.users);
  }

  lemma ActivateCouples(w: World, uid: nat, phone: string)
    requires Coupled(w) && UsersOk(w) && uid < |w.users| && w.users[uid].phone == Some(phone)
    requires OtpKey(phone, Purpose.Register) !in w.store && UsersExtend(w.users, Activate(w, uid).users)
    ensures Coupled(Activate(w, uid))
  {
    forall p | ColonFree(p) ensures CoupledAt(Activate(w, uid), p) {
      CoupledFrame(w, Activate(w, uid), [], p);
    }
  }

  lemma VerifyCodeKeeps(w: World, phone: string, code: string)
    requires Inv(w)
    ensures Inv(DoVerifyCode(w, phone, code).world) && UsersExtend(w.users, DoVerifyCode(w, phone, code).world.users)
  {
    UsersSame(w.users);
    var found := First(w.users, HasPhone(phone));
    if |code| <= CODE_MAX_LENGTH && found.Some? {
      assert RowOk(w.users[found.value], w.next);
      var w1 := TryCode(w, phone, Purpose.Register, code);
      TryKeeps(w, phone, Purpose.Register, code);
      TryCouples(w, phone, Purpose.Register, code);
      if VerifyAccepts(w.store, w.now, phone, Purpose.Register, code) {
        ActivateKeeps(w1, found.value);
        ActivateCouples(w1, found.value, phone);
        OpenSessionKeeps(Activate(w1, found.value), found.value, ByRegistrationCode);
      }
    }
  }

  lemma MintAllowedAfter(w: World, e: Event, t: Token)
    requires MintAllowed(w.log, |w.log|, w.now, t) && e.Minted?
    ensures MintAllowed(w.log + [e], |w.log| + 1, w.now, t)
  {
    forall i | LastLogout(w.log + [e], |w.log| + 1, i, t.jti) ensures w.now >= RecordEnd((w.log + [e])[i]) {
      assert forall k | k < |w.log| :: IsLogout(w.log, k, t.jti) <==> IsLogout(w.log + [e], k, t.jti);
      assert LastLogout(w.log, |w.log|, i, t.jti);
    }
  }

  lemma RenewKeeps(w: World, refresh: Option<Token>)
    requires Inv(w)
    ensures Inv(DoRenew(w, refresh).world) && UsersExtend(w.users, DoRenew(w, refresh).world.users)
  {
    UsersSame(w.users);
    if refresh.Some? && RefreshAccepted(w, refresh.value) {
      RenewInv(w, refresh.value);
    }
  }

  lemma RenewInv(w: World, t: Token)
    requires Inv(w) && RefreshAccepted(w, t)
    ensures Inv(Mint(Mint(w, Access, t.uid, t.sig, From(t)), Refresh, t.uid, t.sig, From(t)))
  {
    assert RowOk(w.users[t.uid], w.next);
    RefreshNotLoggedOut(w, t);
    MintInv(w, Access, t.uid, t.sig, From(t));
    MintAllowedAfter(w, Minted(w.now, NewToken(w, Access, t.uid, t.sig), From(t)), t);
    MintInv(Mint(w, Access, t.uid, t.sig, From(t)), Refresh, t.uid, t.sig, From(t));
  }

  lemma LogoutKeeps(w: World, access: Token, refresh: Option<Token>)
    requires Inv(w)
    ensures Inv(DoLogout(w, access, refresh).world) && UsersExtend(w.users, DoLogout(w, access, refresh).world.users)
  {
    UsersSame(w.users);
    if AccessAccepted(w, access) && refresh.Some? && Decodes(w, refresh.value, Refresh) {
      RevokeKeeps(w, refresh.value);
      RevokeCouples(w, refresh.value);
    }
  }

  lemma RevokeCouples(w: World, t: Token)
    requires Coupled(w)
    ensures Coupled(Revoke(w, t))
  {
    UsersSame(w.users);
    forall p, q ensures OtpKey(p, q) != RevokedKey(t.jti) {
      RevokedKeyApart(t.jti, p, q);
    }
    CoupledStays(w, Revoke(w, t), [LoggedOut(w.now, t)]);
  }

  lemma ForgotRequestKeeps(w: World, identifier: string, draw: Draw)
    requires Inv(w)
    ensures Inv(DoForgotRequest(w, identifier, draw).world)
    ensures UsersExtend(w.users, DoForgotRequest(w, identifier, draw).world.users)
  {
    UsersSame(w.users);
    var w' := DoForgotRequest(w, identifier, draw).world;
    if w' != w {
      var uid := First(w.users, Identifies(identifier)).value;
      var phone := w.users[uid].phone.value;
      assert RowOk(w.users[uid], w.next);
      AskKeeps(w, phone, PasswordReset, CodeText(draw));
      forall p | ColonFree(p) ensures CoupledAt(w', p) {
        assert CoupledAt(w, p);
        AskResetCouples(w, uid, CodeText(draw), p);
      }
    }
  }

  lemma AskResetCouples(w: World, uid: nat, code: string, p: string)
    requires uid < |w.users| && w.users[uid].phone.Some? && w.users[uid].verified
    requires ColonFree(w.users[uid].phone.value) && ColonFree(p) && CoupledAt(w, p)
    ensures CoupledAt(AskCode(w, w.users[uid].phone.value, PasswordReset, code), p)
  {
    var phone := w.users[uid].phone.value;
    var w' := AskCode(w, phone, PasswordReset, code);
    KeysInjective(p, Purpose.Register, phone, PasswordReset);
    KeysInjective(p, PasswordReset, phone, PasswordReset);
    KeyCollisions(phone, PasswordReset, p, Purpose.Register);
    KeyCollisions(phone, PasswordReset, p, PasswordReset);
    if OtpKey(p, Purpose.Register) in w'.store {
      var v, i :| Link(w, p, v, i);
      assert Link(w', p, v, i);
    }
    if OtpKey(p, PasswordReset) in w'.store && p == phone {
      assert w'.users[uid].phone == Some(p) && w'.users[uid].verified;
    }
  }

  lemma ForgotVerifyKeeps(w: World, identifier: string, code: string)
    requires Inv(w)
    ensures Inv(DoForgotVerify(w, identifier, code).world)
    ensures UsersExtend(w.users, DoForgotVerify(w, identifier, code).world.users)
  {
    UsersSame(w.users);
    var found := First(w.users, Identifies(identifier));
    if |code| <= CODE_MAX_LENGTH && found.Some? && w.users[found.value].phone.Some? {
      var uid, phone := found.value, w.users[found.value].phone.value;
      assert RowOk(w.users[uid], w.next);
      var w1 := TryCode(w, phone, PasswordReset, code);
      TryKeeps(w, phone, PasswordReset, code);
      TryCouples(w, phone, PasswordReset, code);
      if VerifyAccepts(w.store, w.now, phone, PasswordReset, code) {
        ResetCodeOwner(w, uid, phone);
        MintInv(w1, Reset, uid, SignatureOf(w1, uid), ByResetCode);
      }
    }
  }

  lemma ResetCodeOwner(w: World, uid: nat, phone: string)
    requires UsersOk(w) && Coupled(w) && uid < |w.users| && w.users[uid].phone == Some(phone) && ColonFree(phone)
    requires OtpKey(phone, PasswordReset) in w.store
    ensures w.users[uid].verified
  {
  }

  /** The user of an accepted reset token is verified. */
  lemma ResetTokenOwner(w: World, t: Token)
    requires MintsOk(w) && ResetAccepted(w, t)
    ensures w.users[t.uid].verified
  {
  }

  lemma SetPasswordCouples(w: World, uid: nat, raw: string, cause: Cause)
    requires Inv(w) && uid < |w.users| && (w.users[uid].verified || w.users[uid].active)
    requires cause.ResetWith? ==> ResetAccepted(w, cause.token) && cause.token.uid == uid
    ensures Inv(SetPassword(w, uid, raw, cause)) && UsersExtend(w.users, SetPassword(w, uid, raw, cause).users)
  {
    SetPasswordKeeps(w, uid, raw, cause);
    CoupledStays(w, SetPassword(w, uid, raw, cause), [PasswordSet(w.now, uid, Hashed(raw, w.next), cause)]);
  }

  lemma WaitCouples(w: World, dt: real)
    requires Coupled(w) && dt >= 0.0
    ensures Coupled(w.(now := w.now + dt))
  {
    UsersSame(w.users);
    CoupledStays(w, w.(now := w.now + dt), []);
  }

  lemma WaitStepKeeps(w: World, dt: real)
    requires Inv(w)
    ensures var w' := DoWait(w, dt).world; Inv(w') && UsersExtend(w.users, w'.users)
  {
    UsersSame(w.users);
    if dt >= 0.0 {
      WaitKeeps(w, dt);
      WaitCouples(w, dt);
      var w' := w.(now := w.now + dt);
      assert Base(w') && Coupled(w');
      assert Inv(w');
      assert DoWait(w, dt).world == w';
    }
  }

  lemma LoginKeeps(w: World, identifier: string, password: string)
    requires Inv(w)
    ensures var w' := DoLogin(w, identifier, password).world; Inv(w') && UsersExtend(w.users, w'.users)
  {
    UsersSame(w.users);
    var found := First(w.users, Identifies(identifier));
    if found.Some? {
      OpenSessionKeeps(w, found.value, ByPassword(password));
    }
  }

  lemma ForgotConfirmKeeps(w: World, t: Token, password: string, password2: string, policyOk: bool)
    requires Inv(w)
    ensures var w' := DoForgotConfirm(w, t, password, password2, policyOk).world; Inv(w') && UsersExtend(w.users, w'.users)
  {
    UsersSame(w.users);
    if ResetAccepted(w, t) {
      ResetTokenOwner(w, t);
      SetPasswordCouples(w, t.uid, password, ResetWith(t));
    }
  }

  lemma ChangePasswordKeeps(w: World, access: Token, oldPassword: string, password: string, password2: string, policyOk: bool)
    requires Inv(w)
    ensures var w' := DoChangePassword(w, access, oldPassword, password, password2, policyOk).world;
            Inv(w') && UsersExtend(w.users, w'.users)
  {
    UsersSame(w.users);
    if AccessAccepted(w, access) {
      SetPasswordCouples(w, access.uid, password, Change(access, oldPassword));
    }
  }

  lemma DeactivateCouples(w: World, uid: nat)
    requires Coupled(w) && uid < |w.users| && UsersExtend(w.users, DoDeactivate(w, uid).world.users)
    ensures Coupled(DoDeactivate(w, uid).world)
  {
    CoupledStays(w, DoDeactivate(w, uid).world, [Deactivated(w.now, uid)]);
  }

  lemma DeactivateStepKeeps(w: World, uid: nat)
    requires Inv(w)
    ensures var w' := DoDeactivate(w, uid).world; Inv(w') && UsersExtend(w.users, w'.users)
  {
    UsersSame(w.users);
    if uid < |w.users| {
      DeactivateKeeps(w, uid);
      DeactivateCouples(w, uid);
    }
  }

  /** The invariant is kept by every request. */
  lemma StepKeeps(w: World, r: Request)
    requires Inv(w)
    ensures Inv(Step(w, r).world) && UsersExtend(w.users, Step(w, r).world.users)
  {
    match r
    case Wait(dt) => WaitStepKeeps(w, dt);
    case Register(_, _, _, _, _, _, _) => RegisterKeeps(w, r);
    case VerifyCode(phone, code) => VerifyCodeKeeps(w, phone, code);
    case Login(identifier, password) => LoginKeeps(w, identifier, password);
    case Renew(refresh) => RenewKeeps(w, refresh);
    case Logout(access, refresh) => LogoutKeeps(w, access, refresh);
    case ForgotRequest(identifier, draw) => ForgotRequestKeeps(w, identifier, draw);
    case ForgotVerify(identifier, code) => ForgotVerifyKeeps(w, identifier, code);
    case ForgotConfirm(t, p, p2, ok) => ForgotConfirmKeeps(w, t, p, p2, ok);
    case ChangePassword(access, old_, p, p2, ok) => ChangePasswordKeeps(w, access, old_, p, p2, ok);
    case Deactivate(uid) => DeactivateStepKeeps(w, uid);
  }

  /** Every world a server can reach meets the invariant. */
  lemma {:induction false} RunKeeps(w0: World, rs: seq<Request>)
    requires Init(w0)
    ensures Inv(Run(w0, rs))
  {
    if rs == [] {
      InitInv(w0);
    } else {
      RunKeeps(w0, rs[..|rs| - 1]);
      StepKeeps(Run(w0, rs[..|rs| - 1]), rs[|rs| - 1]);
    }
  }
}
