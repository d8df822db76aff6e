/** What is owed to each request in every reachable state: when it succeeds and all it changes, told from the user table
    and the log, with the limits as numbers. No cache, no signature and no set of signed tokens is looked at. */
module Contract {
  import opened Text
  import opened OtpKeys
  import opened OtpHistory
  import opened OtpService
  import opened Usernames
  import opened Accounts
  import opened AccountInvariant
  import opened AccountSteps
  import opened Sessions
  import opened Authority
  import opened Journeys
  import opened Histories
  import Recovery

  // ---- Tokens, told from the log ----

  /** Position m minted t, less than life seconds ago by whole seconds, and no password of its user was set since. */
  ghost predicate LiveMint(w: World, m: int, t: Token, kind: TokenKind, life: int) {
    && IsMint(w.log, m, t) && t.kind == kind && w.now < (w.log[m].at.Floor + life) as real
    && t.uid < |w.users| && NoneSets(w.log, m + 1, t.uid)
  }

  ghost predicate LiveAccess(w: World, t: Token) {
    exists m :: LiveMint(w, m, t, Access, 300) && w.users[t.uid].active
  }

  ghost predicate LiveReset(w: World, t: Token) {
    exists m :: LiveMint(w, m, t, Reset, 600)
  }

  /** When a logout at this moment stops counting: after the whole seconds left of the token, and one at least. */
  function LogoutEnd(at: real, exp: int): real {
    var left := (exp as real - at).Floor;
    at + (if left > 1 then left else 1) as real
  }

  /** As an access token, for 365 days, and its last logout does not count any more. */
  ghost predicate LiveRefresh(w: World, t: Token) {
    && (exists m :: LiveMint(w, m, t, Refresh, 31536000) && w.users[t.uid].active)
    && forall i {:trigger LastLogout(w.log, |w.log|, i, t.jti)} | LastLogout(w.log, |w.log|, i, t.jti) ::
         w.now >= LogoutEnd(w.log[i].at, t.exp)
  }

  /** What a logout asks of a refresh token: minted less than 365 days ago. */
  ghost predicate UnexpiredRefresh(w: World, t: Token) {
    exists m :: IsMint(w.log, m, t) && t.kind.Refresh? && w.now < (w.log[m].at.Floor + 31536000) as real
  }

  lemma PasswordUnique(w0: World, log: seq<Event>, uid: nat, a: PasswordHash, b: PasswordHash)
    requires HasPassword(w0, log, uid, a) && HasPassword(w0, log, uid, b)
    ensures a == b
  {
  }

  /** A token carries its user's present password exactly when none was set since it was minted. */
  lemma SignatureIff(w0: World, rs: seq<Request>, m: int, t: Token)
    requires Init(w0) && IsMint(Run(w0, rs).log, m, t)
    ensures var w := Run(w0, rs);
            && t.uid < |w.users| && t.exp == ExpiryFrom(w.log[m].at, t.kind) && t in w.signed
            && (SignatureCurrent(w, t) <==> NoneSets(w.log, m + 1, t.uid))
  {
    var w := Run(w0, rs);
    MintsTraced(w0, rs, m);
    MintedFacts(w0, rs, m);
    PasswordFromLog(w0, rs, t.uid);
    if NoneSets(w.log, m + 1, t.uid) {
      assert NoneSets(w.log, |w.log[..m]|, t.uid);
      PasswordUntil(w0, w.log[..m], w.log, t.uid, t.sig.hash);
      PasswordUnique(w0, w.log, t.uid, t.sig.hash, w.users[t.uid].password);
    }
  }

  lemma MintedFacts(w0: World, rs: seq<Request>, m: int)
    requires Init(w0) && 0 <= m < |Run(w0, rs).log| && Run(w0, rs).log[m].Minted?
    ensures var w := Run(w0, rs);
            var t := w.log[m].token;
            && t.uid < |w.users| && t.sig.uid == t.uid && t.exp == ExpiryFrom(w.log[m].at, t.kind) && t in w.signed
            && forall j | m < j < |w.log| && SetsPassword(w.log[j], t.uid) :: t.sig.hash.salt < w.users[t.uid].password.salt
  {
    var w := Run(w0, rs);
    RunKeeps(w0, rs);
    assert MintOk(w, m);
    forall j | m < j < |w.log| && SetsPassword(w.log[j], w.log[m].token.uid)
      ensures w.log[m].token.sig.hash.salt < w.users[w.log[m].token.uid].password.salt
    {
      assert SetOk(w, j);
    }
  }

  lemma MintOf(w0: World, rs: seq<Request>, t: Token) returns (m: int)
    requires Init(w0) && t in Run(w0, rs).signed
    ensures IsMint(Run(w0, rs).log, m, t)
  {
    RunKeeps(w0, rs);
    m :| m < |Run(w0, rs).log| && IsMint(Run(w0, rs).log, m, t);
  }

  /** In every run, an access token is accepted for 300 s by whole seconds from its minting, as long as its user is
      active and no password of theirs is set, and not otherwise. */
  lemma AccessIff(w0: World, rs: seq<Request>, t: Token)
    requires Init(w0)
    ensures AccessAccepted(Run(w0, rs), t) <==> LiveAccess(Run(w0, rs), t)
  {
    var w := Run(w0, rs);
    if AccessAccepted(w, t) {
      var m := MintOf(w0, rs, t);
      SignatureIff(w0, rs, m, t);
      assert LiveMint(w, m, t, Access, 300);
    }
    if m :| LiveMint(w, m, t, Access, 300) && w.users[t.uid].active {
      SignatureIff(w0, rs, m, t);
    }
  }

  /** The same for a reset token and 600 s, whether or not the user is active. */
  lemma ResetIff(w0: World, rs: seq<Request>, t: Token)
    requires Init(w0)
    ensures ResetAccepted(Run(w0, rs), t) <==> LiveReset(Run(w0, rs), t)
  {
    var w := Run(w0, rs);
    if ResetAccepted(w, t) {
      var m := MintOf(w0, rs, t);
      SignatureIff(w0, rs, m, t);
      assert LiveMint(w, m, t, Reset, 600);
    }
    if m :| LiveMint(w, m, t, Reset, 600) {
      SignatureIff(w0, rs, m, t);
    }
  }

  lemma LogoutEndsAt(w: World, t: Token, i: int)
    requires MintsOk(w) && LogoutsOk(w) && t in w.signed && IsLogout(w.log, i, t.jti)
    ensures RecordEnd(w.log[i]) == LogoutEnd(w.log[i].at, t.exp)
  {
    assert LogoutOk(w, i);
    SameJti(w, t, w.log[i].token);
  }

  lemma LogoutEnds(w0: World, rs: seq<Request>, t: Token)
    requires Init(w0) && t in Run(w0, rs).signed
    ensures var w := Run(w0, rs);
            forall i {:trigger LastLogout(w.log, |w.log|, i, t.jti)} | LastLogout(w.log, |w.log|, i, t.jti) ::
              RecordEnd(w.log[i]) == LogoutEnd(w.log[i].at, t.exp)
  {
    var w := Run(w0, rs);
    RunKeeps(w0, rs);
    forall i | LastLogout(w.log, |w.log|, i, t.jti) ensures RecordEnd(w.log[i]) == LogoutEnd(w.log[i].at, t.exp) {
      LogoutEndsAt(w, t, i);
    }
  }

  /** The same for a refresh token and 365 days, unless the record of its last logout still runs. */
  lemma RefreshLiveIff(w0: World, rs: seq<Request>, t: Token)
    requires Init(w0)
    ensures RefreshAccepted(Run(w0, rs), t) <==> LiveRefresh(Run(w0, rs), t)
  {
    var w := Run(w0, rs);
    RefreshIff(w0, rs, t);
    if t in w.signed {
      LogoutEnds(w0, rs, t);
    }
    if RefreshAccepted(w, t) {
      var m := MintOf(w0, rs, t);
      SignatureIff(w0, rs, m, t);
      assert LiveMint(w, m, t, Refresh, 31536000);
    }
    if m :| LiveMint(w, m, t, Refresh, 31536000) && w.users[t.uid].active {
      SignatureIff(w0, rs, m, t);
      LogoutEnds(w0, rs, t);
    }
  }

  lemma UnexpiredIff(w0: World, rs: seq<Request>, t: Token)
    requires Init(w0)
    ensures Decodes(Run(w0, rs), t, Refresh) <==> UnexpiredRefresh(Run(w0, rs), t)
  {
    var w := Run(w0, rs);
    if Decodes(w, t, Refresh) {
      var m := MintOf(w0, rs, t);
      SignatureIff(w0, rs, m, t);
    }
    if m :| IsMint(w.log, m, t) && t.kind.Refresh? && w.now < (w.log[m].at.Floor + 31536000) as real {
      SignatureIff(w0, rs, m, t);
    }
  }

  // ---- Codes, told from the log ----

  /** The code is the latest one issued for (p, q), not redeemed, under 180 s old and with under five wrong tries. */
  ghost predicate LiveCode(w: World, p: string, q: Purpose, code: string) {
    exists i :: IsCurrent(Calls(w.log), i, p, q) && IsLive(w, i, p, q, code)
  }

  ghost predicate IsLive(w: World, i: int, p: string, q: Purpose, code: string)
    requires 0 <= i < |w.log|
  {
    var h := Calls(w.log);
    h[i].Request? && h[i].code == code && w.now < h[i].at + 180.0 && WrongGuesses(h[i + 1..], p, q, code) < 5
  }

  /** Three codes were sent to p in its window, which was opened less than 600 s ago. */
  ghost predicate WindowFull(w: World, p: string) {
    var v := WindowOf(Calls(w.log), p);
    v.Open? && w.now < v.start + 600.0 && v.count >= 3
  }

  lemma CodeIff(w0: World, rs: seq<Request>, p: string, q: Purpose, code: string)
    requires Init(w0) && ColonFree(p)
    ensures var w := Run(w0, rs); VerifyAccepts(w.store, w.now, p, q, code) <==> LiveCode(w, p, q, code)
    ensures var w := Run(w0, rs); IsThrottled(w.store, w.now, p) <==> WindowFull(w, p)
  {
    var w := Run(w0, rs);
    var h := Calls(w.log);
    Recovery.VerifyAnswers(w0, rs, p, q, code);
    if i :| IsCurrent(h, i, p, q) && RedeemsIssue(h, i, w.now, p, q, code) {
      assert IsLive(w, i, p, q, code);
    }
    if i :| IsCurrent(h, i, p, q) && IsLive(w, i, p, q, code) {
      assert RedeemsIssue(h, i, w.now, p, q, code);
    }
  }

  // ---- What each request does ----

  ghost predicate Unchanged(w: World, o: Outcome, why: Failure) {
    o == Outcome(w, Failed(why))
  }

  /** The clock stands, and the log goes on from before by a session of the user: a new refresh token, and a new
      access token from it, both in the answer. */
  ghost predicate Opens(w: World, before: seq<Event>, o: Outcome, uid: nat, origin: Origin) {
    && o.response.Session? && o.world.now == w.now
    && var Session(access, refresh) := o.response;
       && o.world.log == before + [Minted(w.now, refresh, origin), Minted(w.now, access, From(refresh))]
       && NewFor(w, refresh, Refresh, uid) && NewFor(w, access, Access, uid)
  }

  ghost predicate NewFor(w: World, t: Token, kind: TokenKind, uid: nat) {
    t !in w.signed && t.kind == kind && t.uid == uid
  }

  ghost predicate Known(w: World, uid: nat, p: string) {
    uid < |w.users| && w.users[uid].phone == Some(p)
  }

  ghost predicate Named(w: World, uid: nat, identifier: string) {
    uid < |w.users| && (w.users[uid].phone == Some(identifier) || w.users[uid].email == identifier)
  }

  // ---- Registration ----

  /** The row does not stand in the way: it has another username, it is not a verified one of the phone, and it has
      another address unless it is the pending one of the phone. */
  ghost predicate RowAllows(u: User, r: Request)
    requires r.Register?
  {
    && u.username != r.username
    && (u.phone == Some(r.phone) ==> !u.verified)
    && (u.email == r.email ==> u.phone == Some(r.phone))
  }

  /** The fields have their shapes, the passwords agree, the policy is content, the window is not full, and no row
      stands in the way. */
  ghost predicate MayRegister(w: World, r: Request)
    requires r.Register?
  {
    && UsernameRegex(r.username) && PhoneShape(r.phone) && '@' in r.email
    && r.password == r.password2 && r.policyOk && !WindowFull(w, r.phone)
    && forall i | 0 <= i < |w.users| :: RowAllows(w.users[i], r)
  }

  /** The pending row of the phone is overwritten, or the table grows by one row; the password is set with a salt that
      no row has, and the code of the draw goes out. */
  ghost predicate Registers(w: World, r: Request, w': World, uid: nat, salt: nat)
    requires r.Register?
  {
    var row := User(Some(r.phone), r.email, r.username, Hashed(r.password, salt), false, false);
    && (Known(w, uid, r.phone) || (uid == |w.users| && forall i: nat :: !Known(w, i, r.phone)))
    && w'.users == (if uid < |w.users| then w.users[uid := row] else w.users + [row])
    && (forall i | 0 <= i < |w.users| :: w.users[i].password.salt != salt)
    && w'.now == w.now
    && w'.log == w.log + [PasswordSet(w.now, uid, Hashed(r.password, salt), Registration),
                          Called(Call.Request(w.now, r.phone, Purpose.Register, CodeText(r.draw), true))]
  }

  lemma MayRegisterIff(w0: World, rs: seq<Request>, r: Request)
    requires Init(w0) && r.Register?
    ensures var w := Run(w0, rs); DoRegister(w, r).response.Done? <==> MayRegister(w, r)
  {
    var w := Run(w0, rs);
    if PhoneShape(r.phone) {
      CodeIff(w0, rs, r.phone, Purpose.Register, "");
    }
    RunUsers(w0, rs);
    RegisterGuard(w, r);
  }

  lemma RowsAllow(w: World, r: Request)
    requires UsersOk(w) && r.Register?
    ensures (forall i | 0 <= i < |w.users| :: RowAllows(w.users[i], r)) <==>
            && !Exists(w.users, HasUsername(r.username)) && !Exists(w.users, HasVerifiedPhone(r.phone))
            && !Exists(w.users, HasVerifiedEmail(r.email)) && !EmailTaken(w.users, RegistrationRow(w, r.phone), r.email)
  {
    var uid := RegistrationRow(w, r.phone);
    forall i: nat | i < |w.users|
      ensures RowAllows(w.users[i], r) <==>
              !Matches(w.users[i], HasUsername(r.username)) && !Matches(w.users[i], HasVerifiedPhone(r.phone))
              && !Matches(w.users[i], HasVerifiedEmail(r.email)) && !(i != uid && w.users[i].email == r.email)
    {
      if w.users[i].phone == Some(r.phone) {
        FirstIsOwner(w, r.phone, i);
      }
    }
  }

  /** The guard, given what the throttle answers. */
  lemma RegisterGuard(w: World, r: Request)
    requires UsersOk(w) && r.Register? && (PhoneShape(r.phone) ==> (IsThrottled(w.store, w.now, r.phone) <==> WindowFull(w, r.phone)))
    ensures DoRegister(w, r).response.Done? <==> MayRegister(w, r)
  {
    RowsAllow(w, r);
  }

  lemma RowChoice(w: World, phone: string)
    ensures var uid := RegistrationRow(w, phone);
            Known(w, uid, phone) || (uid == |w.users| && forall i: nat :: !Known(w, i, phone))
  {
    if First(w.users, HasPhone(phone)).None? {
      assert forall i: nat | i < |w.users| :: !Matches(w.users[i], HasPhone(phone));
    }
  }

  lemma NewSalt(w: World)
    requires UsersOk(w)
    ensures forall i | 0 <= i < |w.users| :: w.users[i].password.salt != w.next
  {
    assert forall i | 0 <= i < |w.users| :: RowOk(w.users[i], w.next);
  }

  lemma RegisterDoes(w: World, r: Request)
    requires r.Register? && DoRegister(w, r).response.Done? && !IsThrottled(w.store, w.now, r.phone)
    requires forall i | 0 <= i < |w.users| :: w.users[i].password.salt != w.next
    ensures Registers(w, r, DoRegister(w, r).world, RegistrationRow(w, r.phone), w.next)
  {
    RowChoice(w, r.phone);
  }

  /** In every run a registration is accepted exactly when it may be, and does exactly what it is for. */
  lemma RegisterMeets(w0: World, rs: seq<Request>, r: Request)
    requires Init(w0) && r.Register?
    ensures var w := Run(w0, rs);
            var o := DoRegister(w, r);
            if MayRegister(w, r) then o.response.Done? && exists uid, salt :: Registers(w, r, o.world, uid, salt)
            else o.response.Failed? && o.world == w
  {
    MayRegisterIff(w0, rs, r);
    RunUsers(w0, rs);
    if MayRegister(Run(w0, rs), r) {
      NewSalt(Run(w0, rs));
      RegisterDoes(Run(w0, rs), r);
    }
  }

  // ---- verify-otp and login ----

  /** Too long a text changes nothing. Any other is one try of the code: a wrong one is logged and no more, the right
      one verifies and activates the user and opens a session. */
  ghost predicate VerifyCodeDone(w: World, phone: string, code: string, o: Outcome, uid: nat)
    requires uid < |w.users|
  {
    if |code| > 6 then Unchanged(w, o, BadRequest)
    else
      var ok := LiveCode(w, phone, Purpose.Register, code);
      var tried := w.log + [Called(Call.Verify(w.now, phone, Purpose.Register, code, ok))];
      if ok then
        && Opens(w, tried, o, uid, ByRegistrationCode)
        && o.world.users == w.users[uid := w.users[uid].(verified := true, active := true)]
      else o.response == Failed(BadRequest) && o.world.log == tried && o.world.users == w.users && o.world.now == w.now
  }

  lemma VerifyCodeMeets(w0: World, rs: seq<Request>, phone: string, code: string)
    requires Init(w0)
    ensures var w := Run(w0, rs);
            var o := DoVerifyCode(w, phone, code);
            && (forall uid: nat | Known(w, uid, phone) :: VerifyCodeDone(w, phone, code, o, uid))
            && ((forall uid: nat :: !Known(w, uid, phone)) ==> Unchanged(w, o, BadRequest))
  {
    var w := Run(w0, rs);
    RunKeeps(w0, rs);
    forall uid: nat | Known(w, uid, phone) ensures VerifyCodeDone(w, phone, code, DoVerifyCode(w, phone, code), uid) {
      FirstIsOwner(w, phone, uid);
      assert RowOk(w.users[uid], w.next);
      CodeIff(w0, rs, phone, Purpose.Register, code);
      VerifyCodeDoes(w, phone, code, uid);
    }
    if First(w.users, HasPhone(phone)).Some? {
      assert Known(w, First(w.users, HasPhone(phone)).value, phone);
    }
  }

  lemma VerifyCodeDoes(w: World, phone: string, code: string, uid: nat)
    requires MintsOk(w) && First(w.users, HasPhone(phone)) == Some(uid)
    requires VerifyAccepts(w.store, w.now, phone, Purpose.Register, code) <==> LiveCode(w, phone, Purpose.Register, code)
    ensures Known(w, uid, phone) && VerifyCodeDone(w, phone, code, DoVerifyCode(w, phone, code), uid)
  {
    NewUnsigned(w);
  }

  lemma NewUnsigned(w: World)
    requires MintsOk(w)
    ensures forall t | t in w.signed :: t.jti < w.next
  {
  }

  /** By the log, this is the user's password. */
  ghost predicate LogPassword(w0: World, w: World, uid: nat, raw: string) {
    exists salt :: HasPassword(w0, w.log, uid, Hashed(raw, salt))
  }

  lemma LogPasswordIff(w0: World, rs: seq<Request>, uid: nat, raw: string)
    requires Init(w0) && uid < |Run(w0, rs).users|
    ensures LogPassword(w0, Run(w0, rs), uid, raw) <==> CheckPassword(Run(w0, rs).users[uid], raw)
  {
    var w := Run(w0, rs);
    PasswordFromLog(w0, rs, uid);
    if salt :| HasPassword(w0, w.log, uid, Hashed(raw, salt)) {
      PasswordUnique(w0, w.log, uid, Hashed(raw, salt), w.users[uid].password);
    }
    if CheckPassword(w.users[uid], raw) {
      assert w.users[uid].password == Hashed(raw, w.users[uid].password.salt);
    }
  }

  lemma RunUsers(w0: World, rs: seq<Request>)
    requires Init(w0)
    ensures UsersOk(Run(w0, rs)) && MintsOk(Run(w0, rs))
  {
    RunKeeps(w0, rs);
  }

  lemma NamedIsFirst(w: World, uid: nat, identifier: string)
    requires UsersOk(w) && Named(w, uid, identifier)
    ensures First(w.users, Identifies(identifier)) == Some(uid)
  {
    assert Matches(w.users[uid], Identifies(identifier));
    IdentifierUnique(w, uid, First(w.users, Identifies(identifier)).value, identifier);
  }

  ghost predicate MayLogin(w0: World, w: World, uid: nat, identifier: string, password: string) {
    Named(w, uid, identifier) && w.users[uid].active && LogPassword(w0, w, uid, password)
  }

  ghost predicate LoginDone(w: World, o: Outcome, uid: nat, password: string) {
    Opens(w, w.log, o, uid, ByPassword(password)) && o.world.users == w.users
  }

  /** The right password of an active user, by the log, opens a session and changes no row; anything else nothing. */
  lemma LoginMeets(w0: World, rs: seq<Request>, identifier: string, password: string)
    requires Init(w0)
    ensures var w := Run(w0, rs);
            var o := DoLogin(w, identifier, password);
            && (forall uid | MayLogin(w0, w, uid, identifier, password) :: LoginDone(w, o, uid, password))
            && ((forall uid :: !MayLogin(w0, w, uid, identifier, password)) ==> Unchanged(w, o, Unauthorized))
  {
    var w := Run(w0, rs);
    RunUsers(w0, rs);
    LoginDoes(w, identifier, password);
    forall uid | MayLogin(w0, w, uid, identifier, password) ensures LoginDone(w, DoLogin(w, identifier, password), uid, password) {
      NamedIsFirst(w, uid, identifier);
      LogPasswordIff(w0, rs, uid, password);
    }
    if DoLogin(w, identifier, password).response.Session? {
      var uid := First(w.users, Identifies(identifier)).value;
      LogPasswordIff(w0, rs, uid, password);
      assert MayLogin(w0, w, uid, identifier, password);
    }
  }

  lemma LoginDoes(w: World, identifier: string, password: string)
    requires MintsOk(w)
    ensures var o := DoLogin(w, identifier, password);
            if o.response.Session? then LoginDone(w, o, First(w.users, Identifies(identifier)).value, password) else Unchanged(w, o, Unauthorized)
  {
    NewUnsigned(w);
  }

  // ---- Refresh and logout ----

  /** A refresh hands out a new access and a new refresh token of the same user, both from the one presented. */
  ghost predicate RenewDone(w: World, o: Outcome, t: Token) {
    && o.response.Session? && o.world.now == w.now && o.world.users == w.users
    && var Session(access, refresh) := o.response;
       && o.world.log == w.log + [Minted(w.now, access, From(t)), Minted(w.now, refresh, From(t))]
       && NewFor(w, refresh, Refresh, t.uid) && NewFor(w, access, Access, t.uid)
  }

  lemma RenewMeets(w0: World, rs: seq<Request>, refresh: Option<Token>)
    requires Init(w0)
    ensures var w := Run(w0, rs);
            var o := DoRenew(w, refresh);
            if refresh.Some? && LiveRefresh(w, refresh.value) then RenewDone(w, o, refresh.value) else Unchanged(w, o, Unauthorized)
  {
    if refresh.Some? {
      RefreshLiveIff(w0, rs, refresh.value);
    }
    RunKeeps(w0, rs);
    RenewDoes(Run(w0, rs), refresh);
  }

  lemma RenewDoes(w: World, refresh: Option<Token>)
    requires MintsOk(w)
    ensures var o := DoRenew(w, refresh);
            if refresh.Some? && RefreshAccepted(w, refresh.value) then RenewDone(w, o, refresh.value) else Unchanged(w, o, Unauthorized)
  {
    NewUnsigned(w);
  }

  /** A logout needs a live access token and an unexpired refresh token, and adds the logout of that token to the log. */
  lemma LogoutMeets(w0: World, rs: seq<Request>, access: Token, refresh: Option<Token>)
    requires Init(w0)
    ensures var w := Run(w0, rs);
            var o := DoLogout(w, access, refresh);
            if !LiveAccess(w, access) then Unchanged(w, o, Unauthorized)
            else if refresh.None? || !UnexpiredRefresh(w, refresh.value) then Unchanged(w, o, BadRequest)
            else o.response.Done? && o.world.users == w.users && o.world.now == w.now && o.world.log == w.log + [LoggedOut(w.now, refresh.value)]
  {
    AccessIff(w0, rs, access);
    if refresh.Some? {
      UnexpiredIff(w0, rs, refresh.value);
    }
  }

  // ---- A forgotten password ----

  /** The answer is always the same; a code of the draw is asked for, and sent unless the window is full, for the phone
      of an active and verified user that the identifier names. */
  lemma ForgotRequestMeets(w0: World, rs: seq<Request>, identifier: string, draw: Draw)
    requires Init(w0)
    ensures var w := Run(w0, rs);
            var o := DoForgotRequest(w, identifier, draw);
            && o.response.Done? && o.world.users == w.users && o.world.now == w.now
            && (forall uid: nat, p | Named(w, uid, identifier) && Known(w, uid, p) && w.users[uid].active && w.users[uid].verified ::
                  o.world.log == w.log + [Called(Call.Request(w.now, p, PasswordReset, CodeText(draw), !WindowFull(w, p)))])
            && ((forall uid: nat, p | Named(w, uid, identifier) && Known(w, uid, p) :: !(w.users[uid].active && w.users[uid].verified)) ==>
                  o.world == w)
  {
    var w := Run(w0, rs);
    var found := First(w.users, Identifies(identifier));
    RunUsers(w0, rs);
    forall uid: nat | Named(w, uid, identifier) ensures found == Some(uid) {
      NamedIsFirst(w, uid, identifier);
    }
    if found.Some? && w.users[found.value].phone.Some? {
      assert RowOk(w.users[found.value], w.next) && Known(w, found.value, w.users[found.value].phone.value);
      assert Named(w, found.value, identifier);
      CodeIff(w0, rs, w.users[found.value].phone.value, PasswordReset, "");
    }
  }

  /** A code of at most six characters is one try of the reset code of the phone of the user named: a wrong one is logged
      and no more, the right one hands out a new reset token. Otherwise nothing changes. */
  ghost predicate ForgotVerifyDone(w: World, code: string, o: Outcome, uid: nat, p: string) {
    var ok := LiveCode(w, p, PasswordReset, code);
    var tried := w.log + [Called(Call.Verify(w.now, p, PasswordReset, code, ok))];
    && o.world.users == w.users && o.world.now == w.now
    && if ok then
         o.response.ResetGranted? && NewFor(w, o.response.token, Reset, uid)
         && o.world.log == tried + [Minted(w.now, o.response.token, ByResetCode)]
       else o.response == Failed(BadRequest) && o.world.log == tried
  }

  lemma ForgotVerifyMeets(w0: World, rs: seq<Request>, identifier: string, code: string)
    requires Init(w0)
    ensures var w := Run(w0, rs);
            var o := DoForgotVerify(w, identifier, code);
            && (forall uid: nat, p | Named(w, uid, identifier) && Known(w, uid, p) && |code| <= 6 :: ForgotVerifyDone(w, code, o, uid, p))
            && (|code| > 6 || (forall uid: nat, p :: !(Named(w, uid, identifier) && Known(w, uid, p))) ==> Unchanged(w, o, BadRequest))
  {
    var w := Run(w0, rs);
    var found := First(w.users, Identifies(identifier));
    RunUsers(w0, rs);
    forall uid: nat | Named(w, uid, identifier) ensures found == Some(uid) {
      NamedIsFirst(w, uid, identifier);
    }
    if found.Some? && w.users[found.value].phone.Some? {
      var p := w.users[found.value].phone.value;
      assert RowOk(w.users[found.value], w.next) && Known(w, found.value, p) && Named(w, found.value, identifier);
      CodeIff(w0, rs, p, PasswordReset, code);
      if |code| <= 6 {
        ForgotVerifyDoes(w, identifier, code, found.value, p);
      }
    }
  }

  lemma ForgotVerifyDoes(w: World, identifier: string, code: string, uid: nat, p: string)
    requires MintsOk(w) && First(w.users, Identifies(identifier)) == Some(uid) && Known(w, uid, p) && |code| <= 6
    requires VerifyAccepts(w.store, w.now, p, PasswordReset, code) <==> LiveCode(w, p, PasswordReset, code)
    ensures ForgotVerifyDone(w, code, DoForgotVerify(w, identifier, code), uid, p)
  {
    NewUnsigned(w);
  }

  /** The password of the user is set with a salt that no row has, and nothing else. */
  ghost predicate PasswordDone(w: World, o: Outcome, uid: nat, raw: string, cause: Cause, salt: nat) {
    && uid < |w.users| && o.response.Done? && o.world.now == w.now
    && o.world.users == w.users[uid := w.users[uid].(password := Hashed(raw, salt))]
    && (forall i | 0 <= i < |w.users| :: w.users[i].password.salt != salt)
    && o.world.log == w.log + [PasswordSet(w.now, uid, Hashed(raw, salt), cause)]
  }

  lemma ForgotConfirmMeets(w0: World, rs: seq<Request>, t: Token, password: string, password2: string, policyOk: bool)
    requires Init(w0)
    ensures var w := Run(w0, rs);
            var o := DoForgotConfirm(w, t, password, password2, policyOk);
            if LiveReset(w, t) && password == password2 && policyOk then exists salt :: PasswordDone(w, o, t.uid, password, ResetWith(t), salt)
            else Unchanged(w, o, BadRequest)
  {
    var w := Run(w0, rs);
    ResetIff(w0, rs, t);
    if LiveReset(w, t) && password == password2 && policyOk {
      RunUsers(w0, rs);
      SetDoes(w, t.uid, password, ResetWith(t));
      assert PasswordDone(w, DoForgotConfirm(w, t, password, password2, policyOk), t.uid, password, ResetWith(t), w.next);
    }
  }

  lemma SetDoes(w: World, uid: nat, raw: string, cause: Cause)
    requires UsersOk(w) && uid < |w.users|
    ensures PasswordDone(w, Outcome(SetPassword(w, uid, raw, cause), Done), uid, raw, cause, w.next)
  {
    NewSalt(w);
  }

  lemma ChangePasswordMeets(w0: World, rs: seq<Request>, access: Token, oldPassword: string, password: string, password2: string, policyOk: bool)
    requires Init(w0)
    ensures var w := Run(w0, rs);
            var o := DoChangePassword(w, access, oldPassword, password, password2, policyOk);
            if !LiveAccess(w, access) then Unchanged(w, o, Unauthorized)
            else if LogPassword(w0, w, access.uid, oldPassword) && password == password2 && oldPassword != password && policyOk then
              exists salt :: PasswordDone(w, o, access.uid, password, Change(access, oldPassword), salt)
            else Unchanged(w, o, BadRequest)
  {
    var w := Run(w0, rs);
    AccessIff(w0, rs, access);
    if LiveAccess(w, access) {
      LogPasswordIff(w0, rs, access.uid, oldPassword);
      RunUsers(w0, rs);
      SetDoes(w, access.uid, password, Change(access, oldPassword));
      if LogPassword(w0, w, access.uid, oldPassword) && password == password2 && oldPassword != password && policyOk {
        assert PasswordDone(w, DoChangePassword(w, access, oldPassword, password, password2, policyOk),
                            access.uid, password, Change(access, oldPassword), w.next);
      }
    }
  }

  /** The admin switches one account off; waiting moves the clock alone. */
  lemma OthersMeet(w: World, uid: nat, dt: real)
    ensures var o := DoDeactivate(w, uid);
            if uid < |w.users| then
              o.response.Done? && o.world == w.(users := w.users[uid := w.users[uid].(active := false)], log := w.log + [Deactivated(w.now, uid)])
            else Unchanged(w, o, BadRequest)
    ensures dt >= 0.0 ==> DoWait(w, dt) == Outcome(w.(now := w.now + dt), Done)
  {
  }

  // ---- Five wrong tries lock a code, told from the requests ----

  /** The request presents this code for (p, q): verify-otp for the phone of a row, or the second step of a password
      recovery by a name of the row that has the phone. */
  ghost predicate Presents(w: World, r: Request, p: string, q: Purpose, code: string) {
    && |code| <= 6
    && match q
       case Register => r == VerifyCode(p, code) && exists uid: nat :: Known(w, uid, p)
       case PasswordReset => r.ForgotVerify? && r.code == code && exists uid: nat :: Known(w, uid, p) && Named(w, uid, r.identifier)
  }

  /** The request may have a code sent for (p, q). */
  ghost predicate AsksFor(w: World, r: Request, p: string, q: Purpose) {
    match q
    case Register => r.Register? && r.phone == p
    case PasswordReset => r.ForgotRequest? && exists uid: nat :: Known(w, uid, p) && Named(w, uid, r.identifier)
  }

  ghost predicate PresentsOther(w: World, r: Request, p: string, q: Purpose, code: string) {
    exists given :: given != code && Presents(w, r, p, q, given)
  }

  /** How many requests of the continuation qs present another code than this one. */
  ghost function WrongTries(w: World, qs: seq<Request>, p: string, q: Purpose, code: string): nat {
    if qs == [] then 0 else
      WrongTries(w, qs[..|qs| - 1], p, q, code) + if PresentsOther(Run(w, qs[..|qs| - 1]), qs[|qs| - 1], p, q, code) then 1 else 0
  }

  /** No request of the continuation may have a new code sent. */
  ghost predicate NothingAsked(w: World, qs: seq<Request>, p: string, q: Purpose) {
    qs == [] || (NothingAsked(w, qs[..|qs| - 1], p, q) && !AsksFor(Run(w, qs[..|qs| - 1]), qs[|qs| - 1], p, q))
  }

  /** The step logs one try of the code, answered by whether it is live, and no other call. */
  ghost predicate TriedOnce(w: World, w': World, p: string, q: Purpose, code: string) {
    && |w.log| < |w'.log| && w'.log[|w.log|] == Called(Call.Verify(w.now, p, q, code, LiveCode(w, p, q, code)))
    && forall k | |w.log| < k < |w'.log| :: !w'.log[k].Called?
  }

  lemma VerifyCodeTries(w0: World, rs: seq<Request>, p: string, code: string, uid: nat)
    requires Init(w0) && |code| <= 6 && Known(Run(w0, rs), uid, p)
    ensures TriedOnce(Run(w0, rs), DoVerifyCode(Run(w0, rs), p, code).world, p, Purpose.Register, code)
  {
    VerifyCodeMeets(w0, rs, p, code);
    assert VerifyCodeDone(Run(w0, rs), p, code, DoVerifyCode(Run(w0, rs), p, code), uid);
  }

  lemma ForgotVerifyTries(w0: World, rs: seq<Request>, identifier: string, p: string, code: string, uid: nat)
    requires Init(w0) && |code| <= 6 && Known(Run(w0, rs), uid, p) && Named(Run(w0, rs), uid, identifier)
    ensures TriedOnce(Run(w0, rs), DoForgotVerify(Run(w0, rs), identifier, code).world, p, PasswordReset, code)
  {
    ForgotVerifyMeets(w0, rs, identifier, code);
    assert ForgotVerifyDone(Run(w0, rs), code, DoForgotVerify(Run(w0, rs), identifier, code), uid, p);
  }

  /** Every request that presents a code is one try of it, whatever it answers. */
  lemma PresentedIsTried(w0: World, rs: seq<Request>, r: Request, p: string, q: Purpose, code: string)
    requires Init(w0) && Presents(Run(w0, rs), r, p, q, code)
    ensures TriedOnce(Run(w0, rs), Step(Run(w0, rs), r).world, p, q, code)
  {
    match q
    case Register =>
      var uid: nat :| Known(Run(w0, rs), uid, p);
      VerifyCodeTries(w0, rs, p, code, uid);
    case PasswordReset =>
      var uid: nat :| Known(Run(w0, rs), uid, p) && Named(Run(w0, rs), uid, r.identifier);
      ForgotVerifyTries(w0, rs, r.identifier, p, code, uid);
  }

  lemma UnaskedIsUnsent(w: World, r: Request, p: string, q: Purpose)
    requires !AsksFor(w, r, p, q)
    ensures var log := Step(w, r).world.log; forall k | |w.log| <= k < |log| && log[k].Called? :: !Issues(log[k].call, p, q)
  {
    var log := Step(w, r).world.log;
    SendAuthorised(w, r);
    forall k | |w.log| <= k < |log| && log[k].Called? ensures !Issues(log[k].call, p, q) {
      if Issues(log[k].call, p, q) {
        assert MaySend(w, r, log[k].call);
        if q.PasswordReset? {
          var uid :| 0 <= uid < |w.users| && w.users[uid].phone == Some(p) && Matches(w.users[uid], Identifies(r.identifier)) && w.users[uid].active && w.users[uid].verified;
          assert Known(w, uid, p) && Named(w, uid, r.identifier);
        }
      }
    }
  }

  lemma {:induction false} WrongSplits(a: History, e: History, p: string, q: Purpose, code: string)
    ensures WrongGuesses(a + e, p, q, code) == WrongGuesses(a, p, q, code) + WrongGuesses(e, p, q, code)
  {
    if e == [] {
      assert a + e == a;
    } else {
      assert (a + e)[..|a + e| - 1] == a + e[..|e| - 1];
      WrongSplits(a, e[..|e| - 1], p, q, code);
    }
  }

  lemma WrongSingle(c: Call, e: History, p: string, q: Purpose, code: string)
    requires Misguesses(c, p, q, code)
    ensures WrongGuesses([c] + e, p, q, code) >= 1
  {
    WrongSplits([c], e, p, q, code);
    assert [c][..0] == [];
    assert WrongGuesses([c], p, q, code) == 1;
  }

  /** From h to h', wrong tries since position i only grow, and by one if the first new call is one. */
  lemma WrongGrows(h: History, h': History, i: int, p: string, q: Purpose, code: string)
    requires 0 <= i < |h| && h <= h'
    ensures WrongGuesses(h'[i + 1..], p, q, code) >=
            WrongGuesses(h[i + 1..], p, q, code) + if |h| < |h'| && Misguesses(h'[|h|], p, q, code) then 1 else 0
  {
    var e := h'[|h|..];
    assert h'[i + 1..] == h[i + 1..] + e;
    WrongSplits(h[i + 1..], e, p, q, code);
    if e != [] && Misguesses(e[0], p, q, code) {
      assert e == [e[0]] + e[1..];
      WrongSingle(e[0], e[1..], p, q, code);
    }
  }

  /** What a continuation leaves of a code issued at i. */
  ghost predicate Counted(log: seq<Event>, log': seq<Event>, i: int, p: string, q: Purpose, code: string, tries: nat) {
    && log <= log' && 0 <= i < |log|
    && WrongGuesses(Calls(log')[i + 1..], p, q, code) >= tries
    && forall k | |log| <= k < |log'| && log'[k].Called? :: !Issues(log'[k].call, p, q)
  }

  lemma {:induction false} TriesCounted(w0: World, rs: seq<Request>, qs: seq<Request>, i: int, p: string, q: Purpose, code: string)
    requires Init(w0) && 0 <= i < |Run(w0, rs).log| && NothingAsked(Run(w0, rs), qs, p, q)
    ensures var w := Run(w0, rs); Counted(w.log, Run(w, qs).log, i, p, q, code, WrongTries(w, qs, p, q, code))
  {
    var w := Run(w0, rs);
    if qs != [] {
      var before, r := qs[..|qs| - 1], qs[|qs| - 1];
      TriesCounted(w0, rs, before, i, p, q, code);
      OneTryCounted(w0, rs, before, r, i, p, q, code);
    }
  }

  lemma OneTryCounted(w0: World, rs: seq<Request>, before: seq<Request>, r: Request, i: int, p: string, q: Purpose, code: string)
    requires Init(w0)
    requires var w := Run(w0, rs);
             Counted(w.log, Run(w, before).log, i, p, q, code, WrongTries(w, before, p, q, code)) && !AsksFor(Run(w, before), r, p, q)
    ensures var w := Run(w0, rs);
            var w1 := Run(w, before);
            Counted(w.log, Step(w1, r).world.log, i, p, q, code,
                    WrongTries(w, before, p, q, code) + if PresentsOther(w1, r, p, q, code) then 1 else 0)
  {
    var w := Run(w0, rs);
    var w1 := Run(w, before);
    var w2 := Step(w1, r).world;
    RunConcat(w0, rs, before);
    StepAdds(w1, r);
    UnaskedIsUnsent(w1, r, p, q);
    if PresentsOther(w1, r, p, q, code) {
      var given :| given != code && Presents(w1, r, p, q, given);
      PresentedIsTried(w0, rs + before, r, p, q, given);
    }
    CallsPrefix(w1.log, w2.log);
    WrongGrows(Calls(w1.log), Calls(w2.log), i, p, q, code);
  }

  lemma CallsPrefix(log: seq<Event>, log': seq<Event>)
    requires log <= log'
    ensures Calls(log) <= Calls(log')
  {
  }

  /** The refusal of a code at the endpoint it is for. */
  ghost predicate Refused(w: World, p: string, q: Purpose, code: string) {
    match q
    case Register => DoVerifyCode(w, p, code).response.Failed?
    case PasswordReset => forall uid: nat, identifier | Known(w, uid, p) && Named(w, uid, identifier) :: DoForgotVerify(w, identifier, code).response.Failed?
  }

  /** In the continuation qs, five requests present other codes than the current one, issued at i, and none may have a
      new one sent. */
  ghost predicate Guessed(w: World, i: int, p: string, q: Purpose, code: string, qs: seq<Request>) {
    && IsCurrent(Calls(w.log), i, p, q) && Calls(w.log)[i].code == code
    && NothingAsked(w, qs, p, q) && WrongTries(w, qs, p, q, code) >= 5
  }

  lemma GuessedIsLocked(w0: World, rs: seq<Request>, i: int, p: string, q: Purpose, code: string, qs: seq<Request>)
    requires Init(w0) && Guessed(Run(w0, rs), i, p, q, code, qs)
    ensures Refused(Run(Run(w0, rs), qs), p, q, code)
  {
    var w := Run(w0, rs);
    var w' := Run(w, qs);
    TriesCounted(w0, rs, qs, i, p, q, code);
    StillCurrent(w.log, w'.log, i, p, q, code);
    RunConcat(w0, rs, qs);
    match q
    case Register => VerifyCodeMeets(w0, rs + qs, p, code);
    case PasswordReset =>
      forall uid: nat, identifier | Known(w', uid, p) && Named(w', uid, identifier) ensures DoForgotVerify(w', identifier, code).response.Failed? {
        ForgotVerifyMeets(w0, rs + qs, identifier, code);
      }
  }

  /** Five requests that present other codes lock the code that is current, however they are mixed with anything else
      that has no new code sent. */
  lemma FiveTriesLock(w0: World, rs: seq<Request>, i: int, p: string, q: Purpose, code: string, qs: seq<Request>)
    requires Init(w0)
    ensures Guessed(Run(w0, rs), i, p, q, code, qs) ==> Refused(Run(Run(w0, rs), qs), p, q, code)
  {
    if Guessed(Run(w0, rs), i, p, q, code, qs) {
      GuessedIsLocked(w0, rs, i, p, q, code, qs);
    }
  }

  /** Where nothing new was sent, the code that is current is the old one, with its wrong tries. */
  lemma StillCurrent(log: seq<Event>, log': seq<Event>, i: int, p: string, q: Purpose, code: string)
    requires IsCurrent(Calls(log), i, p, q) && Counted(log, log', i, p, q, code, 5)
    ensures forall k :: IsCurrent(Calls(log'), k, p, q) ==> k == i && WrongGuesses(Calls(log')[k + 1..], p, q, code) >= 5
  {
    CallsPrefix(log, log');
    forall k | IsCurrent(Calls(log'), k, p, q) ensures k == i {
      assert k < |log|;
      assert Issues(Calls(log)[k], p, q);
    }
  }
}
