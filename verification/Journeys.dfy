/** What the requests achieve together: a login answers by the last password set, a registration ends in a working
    account, a forgotten password is replaced, whatever other requests come in between. */
module Journeys {
  import opened Text
  import opened OtpKeys
  import opened OtpHistory
  import opened OtpService
  import opened Accounts
  import opened AccountInvariant
  import opened AccountSteps
  import opened Sessions
  import opened Authority

  // ---- The password a user has is the last one that was set ----

  predicate SetsPassword(e: Event, uid: nat) {
    e.PasswordSet? && e.uid == uid
  }

  ghost predicate NoneSets(log: seq<Event>, n: nat, uid: nat) {
    forall j | n <= j < |log| :: !SetsPassword(log[j], uid)
  }

  /** Position j of the log holds the latest password set for the user. */
  ghost predicate IsLatestSet(log: seq<Event>, j: int, uid: nat) {
    0 <= j < |log| && SetsPassword(log[j], uid) && NoneSets(log, j + 1, uid)
  }

  /** From w to w' the user's password was set at most once, as the first event. */
  ghost predicate SetsOnce(w: World, w': World, uid: nat)
    requires uid < |w'.users|
  {
    w.log <= w'.log &&
    if NoneSets(w'.log, |w.log|, uid) then uid < |w.users| && w'.users[uid].password == w.users[uid].password
    else IsLatestSet(w'.log, |w.log|, uid) && w'.log[|w.log|].hash == w'.users[uid].password
  }

  lemma RegisterSetsOnce(w: World, r: Request, uid: nat)
    requires r.Register? && uid < |DoRegister(w, r).world.users|
    ensures SetsOnce(w, DoRegister(w, r).world, uid)
  {
    var w' := DoRegister(w, r).world;
    assert w' == w || SetsPassword(w'.log[|w.log|], RegistrationRow(w, r.phone));
  }

  lemma VerifyCodeSetsOnce(w: World, phone: string, code: string, uid: nat)
    requires uid < |DoVerifyCode(w, phone, code).world.users|
    ensures SetsOnce(w, DoVerifyCode(w, phone, code).world, uid)
  {
  }

  lemma SetPasswordSetsOnce(w: World, uid: nat, raw: string, cause: Cause, v: nat)
    requires uid < |w.users| && v < |w.users|
    ensures SetsOnce(w, SetPassword(w, uid, raw, cause), v)
  {
    assert SetsPassword(SetPassword(w, uid, raw, cause).log[|w.log|], uid);
  }

  lemma QuietStep(w: World, r: Request, uid: nat)
    requires r.Login? || r.Renew? || r.ForgotVerify?
    requires uid < |Step(w, r).world.users|
    ensures SetsOnce(w, Step(w, r).world, uid)
  {
  }

  lemma PasswordStep(w: World, r: Request, uid: nat)
    requires uid < |Step(w, r).world.users|
    ensures SetsOnce(w, Step(w, r).world, uid)
  {
    match r
    case ForgotConfirm(t, password, _, _) =>
      if ResetAccepted(w, t) {
        SetPasswordSetsOnce(w, t.uid, password, ResetWith(t), uid);
      }
    case ChangePassword(access, oldPassword, password, _, _) =>
      if AccessAccepted(w, access) {
        SetPasswordSetsOnce(w, access.uid, password, Change(access, oldPassword), uid);
      }
    case Login(_, _) => QuietStep(w, r, uid);
    case Renew(_) => QuietStep(w, r, uid);
    case ForgotVerify(_, _) => QuietStep(w, r, uid);
    case Register(_, _, _, _, _, _, _) => RegisterSetsOnce(w, r, uid);
    case VerifyCode(phone, code) => VerifyCodeSetsOnce(w, phone, code, uid);
    case _ =>
  }

  lemma {:induction false} PasswordStays(w: World, rs: seq<Request>, uid: nat)
    requires Inv(w) && uid < |w.users| && NoneSets(Run(w, rs).log, |w.log|, uid)
    ensures uid < |Run(w, rs).users| && Run(w, rs).users[uid].password == w.users[uid].password
  {
    if rs != [] {
      var before := rs[..|rs| - 1];
      var w1 := Run(w, before);
      RunContinues(w, before);
      RunContinues(w, rs);
      PasswordStep(w1, rs[|rs| - 1], uid);
      PasswordStays(w, before, uid);
    }
  }

  /** The password of a user after a history of events, given the table the server started with. */
  ghost predicate HasPassword(w0: World, log: seq<Event>, uid: nat, hash: PasswordHash) {
    if NoneSets(log, 0, uid) then uid < |w0.users| && w0.users[uid].password == hash
    else exists j :: IsLatestSet(log, j, uid) && log[j].hash == hash
  }

  lemma {:induction false} PasswordFromLog(w0: World, rs: seq<Request>, uid: nat)
    requires Init(w0) && uid < |Run(w0, rs).users|
    ensures HasPassword(w0, Run(w0, rs).log, uid, Run(w0, rs).users[uid].password)
  {
    if rs != [] {
      var before := rs[..|rs| - 1];
      var w, w' := Run(w0, before), Run(w0, rs);
      PasswordStep(w, rs[|rs| - 1], uid);
      if NoneSets(w'.log, |w.log|, uid) {
        PasswordFromLog(w0, before, uid);
        if j :| IsLatestSet(w.log, j, uid) && w.log[j].hash == w.users[uid].password {
          assert IsLatestSet(w'.log, j, uid);
        }
      }
    }
  }

  /** A login names one user and answers by that user's row. */
  lemma LoginOf(w: World, uid: nat, identifier: string, password: string)
    requires UsersOk(w) && uid < |w.users| && Matches(w.users[uid], Identifies(identifier))
    ensures DoLogin(w, identifier, password).response.Session? <==> w.users[uid].active && CheckPassword(w.users[uid], password)
  {
    IdentifierUnique(w, uid, First(w.users, Identifies(identifier)).value, identifier);
  }

  /** In every run a login is granted iff the identifier names an active user whose last set password, by the log,
      is the one given. */
  lemma LoginExact(w0: World, rs: seq<Request>, identifier: string, password: string)
    requires Init(w0)
    ensures var w := Run(w0, rs);
            DoLogin(w, identifier, password).response.Session? <==>
            exists uid, salt :: 0 <= uid < |w.users| && Matches(w.users[uid], Identifies(identifier)) && w.users[uid].active
              && HasPassword(w0, w.log, uid, Hashed(password, salt))
  {
    var w := Run(w0, rs);
    RunKeeps(w0, rs);
    forall uid, salt | 0 <= uid < |w.users| && Matches(w.users[uid], Identifies(identifier)) && w.users[uid].active
                       && HasPassword(w0, w.log, uid, Hashed(password, salt))
      ensures DoLogin(w, identifier, password).response.Session?
    {
      LoginOf(w, uid, identifier, password);
      PasswordFromLog(w0, rs, uid);
    }
    if DoLogin(w, identifier, password).response.Session? {
      var uid := First(w.users, Identifies(identifier)).value;
      PasswordFromLog(w0, rs, uid);
      assert w.users[uid].password == Hashed(password, w.users[uid].password.salt);
    }
  }

  /** User uid, once active, logs in with this password and no other, by phone or by address. */
  ghost predicate LogsInWith(w: World, uid: nat, password: string) {
    uid < |w.users| && forall identifier, given | Matches(w.users[uid], Identifies(identifier)) ::
      DoLogin(w, identifier, given).response.Session? <==> w.users[uid].active && given == password
  }

  lemma LogsIn(w: World, uid: nat, password: string)
    requires UsersOk(w) && uid < |w.users| && w.users[uid].password.Hashed? && w.users[uid].password.raw == password
    ensures LogsInWith(w, uid, password)
  {
    forall identifier, given | Matches(w.users[uid], Identifies(identifier))
      ensures DoLogin(w, identifier, given).response.Session? <==> w.users[uid].active && given == password
    {
      LoginOf(w, uid, identifier, given);
    }
  }

  // ---- Codes ----

  /** The code issued at position i has not been replaced, redeemed or tried wrongly five times. */
  ghost predicate CodeStands(log: seq<Event>, i: int, phone: string, q: Purpose) {
    && IsCurrent(Calls(log), i, phone, q)
    && WrongGuesses(Calls(log)[i + 1..], phone, q, Calls(log)[i].code) < MAX_VERIFY_ATTEMPTS
  }

  lemma NewCodeStands(log: seq<Event>, phone: string, q: Purpose)
    requires log != [] && log[|log| - 1].Called? && Issues(log[|log| - 1].call, phone, q)
    ensures CodeStands(log, |log| - 1, phone, q)
  {
  }

  lemma CodeRedeems(w: World, i: int, phone: string, q: Purpose)
    requires OtpOk(w) && ColonFree(phone) && CodeStands(w.log, i, phone, q)
    requires w.now < w.log[i].call.at + OTP_TTL_SECONDS
    ensures VerifyAccepts(w.store, w.now, phone, q, w.log[i].call.code)
  {
    var h := Calls(w.log);
    VerifyExact(w.store, w.now, h, phone, q, h[i].code);
    assert RedeemsIssue(h, i, w.now, phone, q, h[i].code);
  }

  // ---- Registration ----

  predicate CodeEvent(e: Event, phone: string) {
    e.Called? && (Issues(e.call, phone, Purpose.Register) || Redeems(e.call, phone, Purpose.Register))
  }

  ghost predicate NoCodeEvent(log: seq<Event>, n: nat, phone: string) {
    forall j | n <= j < |log| :: !CodeEvent(log[j], phone)
  }

  ghost predicate Pending(w: World, uid: nat, phone: string) {
    uid < |w.users| && w.users[uid].phone == Some(phone) && !w.users[uid].active && !w.users[uid].verified
  }

  lemma RegisterEmits(w: World, r: Request)
    requires r.Register?
    ensures var w' := DoRegister(w, r).world; w' == w || (|w'.log| == |w.log| + 2 && CodeEvent(w'.log[|w.log| + 1], r.phone))
  {
  }

  lemma VerifyCodeEmits(w: World, phone: string, code: string)
    ensures var w' := DoVerifyCode(w, phone, code).world;
            w'.users == w.users || (w.log < w'.log && CodeEvent(w'.log[|w.log|], phone))
  {
  }

  /** A pending row changes only with a new register code for its phone or by redeeming the one it has. */
  lemma PendingStep(w: World, r: Request, uid: nat, phone: string)
    requires UsersOk(w) && MintsOk(w) && Pending(w, uid, phone)
    ensures var w' := Step(w, r).world;
            uid < |w'.users| && (NoCodeEvent(w'.log, |w.log|, phone) ==> w'.users[uid] == w.users[uid])
  {
    RowChangeAuthorised(w, r, uid);
    if r.ForgotConfirm? && ResetAccepted(w, r.token) {
      ResetTokenOwner(w, r.token);
    } else if r.Register? {
      RegisterEmits(w, r);
    } else if r.VerifyCode? {
      VerifyCodeEmits(w, r.phone, r.code);
    }
  }

  lemma {:induction false} PendingStays(w: World, rs: seq<Request>, uid: nat, phone: string)
    requires Inv(w) && Pending(w, uid, phone) && NoCodeEvent(Run(w, rs).log, |w.log|, phone)
    ensures uid < |Run(w, rs).users| && Run(w, rs).users[uid] == w.users[uid]
  {
    if rs != [] {
      var before := rs[..|rs| - 1];
      var w1 := Run(w, before);
      RunContinues(w, before);
      StepKeeps(w1, rs[|rs| - 1]);
      StepContinues(w1, rs[|rs| - 1]);
      PendingStays(w, before, uid, phone);
      PendingStep(w1, rs[|rs| - 1], uid, phone);
    }
  }

  /** What a successful registration leaves behind. */
  lemma Registered(w: World, r: Request)
    requires Inv(w) && r.Register? && DoRegister(w, r).response.Done?
    ensures var w1 := DoRegister(w, r).world;
            var uid := RegistrationRow(w, r.phone);
            && Inv(w1) && Pending(w1, uid, r.phone)
            && w1.users[uid] == User(Some(r.phone), r.email, r.username, Hashed(r.password, w.next), false, false)
            && |w1.log| == |w.log| + 2
            && w1.log[|w.log| + 1] == Called(Call.Request(w.now, r.phone, Purpose.Register, CodeText(r.draw), true))
  {
    RegisterKeeps(w, r);
  }

  /** Between the registration r at w and w2, its code neither ran out, nor was replaced, redeemed or tried wrongly
      five times. */
  ghost predicate RegistrationOpen(w: World, r: Request, w2: World)
    requires r.Register?
  {
    && DoRegister(w, r).response.Done?
    && w2.now < w.now + OTP_TTL_SECONDS
    && CodeStands(w2.log, |w.log| + 1, r.phone, Purpose.Register)
  }

  /** The code redeemed at w2 opens an active account with the row and the password that r asked for at w. */
  ghost predicate OpensAccount(w: World, r: Request, w2: World)
    requires r.Register?
  {
    var o := DoVerifyCode(w2, r.phone, CodeText(r.draw));
    var uid := RegistrationRow(w, r.phone);
    && o.response.Session? && o.response.access.uid == uid && uid < |o.world.users|
    && o.world.users[uid] == User(Some(r.phone), r.email, r.username, Hashed(r.password, w.next), true, true)
    && LogsInWith(o.world, uid, r.password)
  }

  lemma OpenRegistration(w: World, r: Request, gap: seq<Request>)
    requires Inv(w) && r.Register?
    ensures var w2 := Run(DoRegister(w, r).world, gap); RegistrationOpen(w, r, w2) ==> OpensAccount(w, r, w2)
  {
    var w1 := DoRegister(w, r).world;
    var w2 := Run(w1, gap);
    if RegistrationOpen(w, r, w2) {
      Registered(w, r);
      var uid := RegistrationRow(w, r.phone);
      RunContinues(w1, gap);
      assert w2.log[|w.log| + 1] == w1.log[|w.log| + 1];
      assert NoCodeEvent(w2.log, |w1.log|, r.phone);
      PendingStays(w1, gap, uid, r.phone);
      CodeRedeems(w2, |w.log| + 1, r.phone, Purpose.Register);
      FirstIsOwner(w2, r.phone, uid);
      VerifyCodeKeeps(w2, r.phone, CodeText(r.draw));
      LogsIn(DoVerifyCode(w2, r.phone, CodeText(r.draw)).world, uid, r.password);
    }
  }

  /** A registration works, whatever other requests come before its code. */
  lemma RegistrationCompletes(w0: World, rs: seq<Request>, r: Request, gap: seq<Request>)
    requires Init(w0) && r.Register?
    ensures var w := Run(w0, rs);
            var w2 := Run(DoRegister(w, r).world, gap);
            RegistrationOpen(w, r, w2) ==> OpensAccount(w, r, w2)
  {
    RunKeeps(w0, rs);
    OpenRegistration(Run(w0, rs), r, gap);
  }

  /** The code stands as soon as it is sent. */
  lemma RegistrationOpens(w0: World, rs: seq<Request>, r: Request)
    requires Init(w0) && r.Register?
    ensures var w := Run(w0, rs); var o := DoRegister(w, r); o.response.Done? ==> RegistrationOpen(w, r, o.world)
  {
    var w := Run(w0, rs);
    RunKeeps(w0, rs);
    if DoRegister(w, r).response.Done? {
      Registered(w, r);
      NewCodeStands(DoRegister(w, r).world.log, r.phone, Purpose.Register);
    }
  }

  // ---- A forgotten password ----

  lemma Forgotten(w: World, uid: nat, identifier: string, draw: Draw)
    requires UsersOk(w) && uid < |w.users| && w.users[uid].phone.Some? && w.users[uid].active && w.users[uid].verified
    requires Matches(w.users[uid], Identifies(identifier)) && !IsThrottled(w.store, w.now, w.users[uid].phone.value)
    ensures var w1 := DoForgotRequest(w, identifier, draw).world;
            w1.users == w.users && w1.log == w.log + [Called(Call.Request(w.now, w.users[uid].phone.value, PasswordReset, CodeText(draw), true))]
  {
    IdentifierUnique(w, uid, First(w.users, Identifies(identifier)).value, identifier);
  }

  lemma CodeGrants(w: World, uid: nat, i: int, identifier: string)
    requires UsersOk(w) && OtpOk(w) && uid < |w.users| && w.users[uid].phone.Some? && Matches(w.users[uid], Identifies(identifier))
    requires CodeStands(w.log, i, w.users[uid].phone.value, PasswordReset) && w.now < w.log[i].call.at + OTP_TTL_SECONDS
    requires |w.log[i].call.code| <= CODE_MAX_LENGTH
    ensures var o := DoForgotVerify(w, identifier, w.log[i].call.code);
            o.response.ResetGranted? && o.response.token.uid == uid && ResetAccepted(o.world, o.response.token)
  {
    assert RowOk(w.users[uid], w.next);
    CodeRedeems(w, i, w.users[uid].phone.value, PasswordReset);
    IdentifierUnique(w, uid, First(w.users, Identifies(identifier)).value, identifier);
    ResetGrantWorks(w, identifier, w.log[i].call.code);
  }

  /** The code of a forgotten-password request is exchanged, under the same conditions, for an accepted reset token
      of the user. */
  lemma RecoveryGrants(w0: World, rs: seq<Request>, uid: nat, first: string, draw: Draw, gap: seq<Request>, second: string)
    requires Init(w0)
    requires var w := Run(w0, rs);
             && uid < |w.users| && w.users[uid].phone.Some? && w.users[uid].active && w.users[uid].verified
             && Matches(w.users[uid], Identifies(first)) && !IsThrottled(w.store, w.now, w.users[uid].phone.value)
    requires var w := Run(w0, rs);
             var w2 := Run(DoForgotRequest(w, first, draw).world, gap);
             && w2.now < w.now + OTP_TTL_SECONDS && CodeStands(w2.log, |w.log|, w.users[uid].phone.value, PasswordReset)
             && uid < |w2.users| && Matches(w2.users[uid], Identifies(second))
    ensures var o := DoForgotVerify(Run(DoForgotRequest(Run(w0, rs), first, draw).world, gap), second, CodeText(draw));
            o.response.ResetGranted? && o.response.token.uid == uid && ResetAccepted(o.world, o.response.token)
  {
    var w := Run(w0, rs);
    RunKeeps(w0, rs);
    Forgotten(w, uid, first, draw);
    ForgotRequestKeeps(w, first, draw);
    var w1 := DoForgotRequest(w, first, draw).world;
    var w2 := Run(w1, gap);
    RunContinues(w1, gap);
    assert RowExtends(w1.users[uid], w2.users[uid]);
    assert w2.log[|w.log|] == w1.log[|w.log|];
    CodeGrants(w2, uid, |w.log|, second);
  }

  lemma ResetStays(w: World, rs: seq<Request>, t: Token)
    requires Inv(w) && ResetAccepted(w, t) && Run(w, rs).now < t.exp as real && NoneSets(Run(w, rs).log, |w.log|, t.uid)
    ensures ResetAccepted(Run(w, rs), t)
  {
    RunContinues(w, rs);
    PasswordStays(w, rs, t.uid);
  }

  lemma ResetLogsIn(w: World, t: Token, password: string)
    requires Inv(w) && ResetAccepted(w, t)
    ensures var o := DoForgotConfirm(w, t, password, password, true); o.response.Done? && LogsInWith(o.world, t.uid, password)
  {
    ForgotConfirmKeeps(w, t, password, password, true);
    LogsIn(DoForgotConfirm(w, t, password, password, true).world, t.uid, password);
  }

  /** An accepted reset token, of any reachable state, sets the password at any moment of its life, unless the user's
      password was set in between; from then on the user logs in with the new password and no other. */
  lemma RecoveryCompletes(w0: World, rs: seq<Request>, t: Token, gap: seq<Request>, password: string)
    requires Init(w0) && ResetAccepted(Run(w0, rs), t)
    requires var w1 := Run(Run(w0, rs), gap); w1.now < t.exp as real && NoneSets(w1.log, |Run(w0, rs).log|, t.uid)
    ensures var w1 := Run(Run(w0, rs), gap);
            var o := DoForgotConfirm(w1, t, password, password, true);
            && o.response.Done? && t.uid < |w1.users|
            && o.world.users == w1.users[t.uid := w1.users[t.uid].(password := Hashed(password, w1.next))]
            && LogsInWith(o.world, t.uid, password)
  {
    var w := Run(w0, rs);
    RunKeeps(w0, rs);
    var w1 := Run(w, gap);
    RunContinues(w, gap);
    ResetStays(w, gap, t);
    ResetLogsIn(w1, t, password);
  }

  /** A password change needs the old password and a different new one, and from then on only the new one logs in. */
  lemma ChangeCompletes(w0: World, rs: seq<Request>, access: Token, oldPassword: string, password: string)
    requires Init(w0) && AccessAccepted(Run(w0, rs), access)
    ensures var o := DoChangePassword(Run(w0, rs), access, oldPassword, password, password, true);
            && (o.response.Done? <==> oldPassword != password && LogsInWith(Run(w0, rs), access.uid, oldPassword))
            && (o.response.Done? ==> LogsInWith(o.world, access.uid, password))
  {
    var w := Run(w0, rs);
    RunKeeps(w0, rs);
    var u := w.users[access.uid];
    if u.password.Hashed? {
      LogsIn(w, access.uid, u.password.raw);
    }
    ChangePasswordKeeps(w, access, oldPassword, password, password, true);
    var o := DoChangePassword(w, access, oldPassword, password, password, true);
    if o.response.Done? {
      LogsIn(o.world, access.uid, password);
    } else {
      assert Matches(u, Identifies(u.email));
      LoginOf(w, access.uid, u.email, oldPassword);
    }
  }

  // ---- Logout ----

  lemma RevokeLeaves(w: World, t: Token, u: Token)
    requires MintsOk(w) && t in w.signed && u in w.signed && u != t
    ensures RefreshAccepted(Revoke(w, t), u) == RefreshAccepted(w, u)
  {
    if RevokedKey(u.jti) == RevokedKey(t.jti) {
      RevokedKeyInjective(u.jti, t.jti);
      SameJti(w, t, u);
    }
  }

  /** The session of t ends, and of no other token; access tokens stay as they were. */
  ghost predicate EndsOnly(w: World, w': World, t: Token) {
    && !RefreshAccepted(w', t)
    && (forall u | u in w.signed && u != t :: RefreshAccepted(w', u) == RefreshAccepted(w, u))
    && (forall u :: AccessAccepted(w', u) == AccessAccepted(w, u))
  }

  lemma RevokeEndsOnly(w: World, t: Token)
    requires MintsOk(w) && t in w.signed
    ensures EndsOnly(w, Revoke(w, t), t)
  {
    forall u | u in w.signed && u != t ensures RefreshAccepted(Revoke(w, t), u) == RefreshAccepted(w, u) {
      RevokeLeaves(w, t, u);
    }
  }

  /** A logout needs an accepted access token and a live refresh token, whoever's, and ends that token's session. */
  lemma LogoutTakesHold(w0: World, rs: seq<Request>, access: Token, t: Token)
    requires Init(w0)
    ensures var w := Run(w0, rs);
            var o := DoLogout(w, access, Some(t));
            && (o.response.Done? <==> AccessAccepted(w, access) && Decodes(w, t, Refresh))
            && (if o.response.Done? then EndsOnly(w, o.world, t) else o.world == w)
  {
    var w := Run(w0, rs);
    RunKeeps(w0, rs);
    if t in w.signed {
      RevokeEndsOnly(w, t);
    }
  }
}
