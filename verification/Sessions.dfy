/** What sessions guarantee over every run: epochs of the password, provenance, logout, sliding lifetimes. */
module Sessions {
  import opened Text
  import opened OtpHistory
  import opened Accounts
  import opened AccountInvariant
  import opened AccountSteps

  // ---- Runs ----

  /** A later world of the same server. */
  ghost predicate Continues(w: World, w': World) {
    w.log <= w'.log && w.signed <= w'.signed && w.now <= w'.now && UsersExtend(w.users, w'.users)
  }

  /** w' adds events of the present moment, and perhaps tokens, to w. */
  ghost predicate Adds(w: World, w': World) {
    && w.log <= w'.log && w.signed <= w'.signed && w.now == w'.now
    && forall i | |w.log| <= i < |w'.log| :: TimeOf(w'.log[i]) == w.now
  }

  lemma OpenSessionAdds(w: World, uid: nat, origin: Origin)
    requires uid < |w.users|
    ensures Adds(w, OpenSession(w, uid, origin).world)
  {
  }

  lemma VerifyCodeAdds(w: World, phone: string, code: string)
    ensures Adds(w, DoVerifyCode(w, phone, code).world)
  {
  }

  lemma RegisterAdds(w: World, r: Request)
    requires r.Register?
    ensures Adds(w, DoRegister(w, r).world)
  {
  }

  lemma RenewAdds(w: World, refresh: Option<Token>)
    ensures Adds(w, DoRenew(w, refresh).world)
  {
  }

  lemma ForgotVerifyAdds(w: World, identifier: string, code: string)
    ensures Adds(w, DoForgotVerify(w, identifier, code).world)
  {
  }

  /** Only waiting moves the clock; every event bears the time of its step. */
  lemma StepAdds(w: World, r: Request)
    ensures var w' := Step(w, r).world;
            if r.Wait? then w' == w.(now := if r.dt >= 0.0 then w.now + r.dt else w.now) else Adds(w, w')
  {
    match r
    case Register(_, _, _, _, _, _, _) => RegisterAdds(w, r);
    case VerifyCode(phone, code) => VerifyCodeAdds(w, phone, code);
    case Login(identifier, password) =>
      var found := First(w.users, Identifies(identifier));
      if found.Some? {
        OpenSessionAdds(w, found.value, ByPassword(password));
      }
    case Renew(refresh) => RenewAdds(w, refresh);
    case ForgotVerify(identifier, code) => ForgotVerifyAdds(w, identifier, code);
    case _ =>
  }

  lemma StepContinues(w: World, r: Request)
    requires UsersExtend(w.users, Step(w, r).world.users)
    ensures Continues(w, Step(w, r).world)
  {
    StepAdds(w, r);
  }

  lemma ContinuesTrans(a: World, b: World, c: World)
    requires Continues(a, b) && Continues(b, c)
    ensures Continues(a, c)
  {
  }

  /** Along every continuation of a run the log and the signed tokens only grow, phones stay, and a verified user
      stays verified. */
  lemma {:induction false} RunContinues(w: World, rs: seq<Request>)
    requires Inv(w)
    ensures Inv(Run(w, rs)) && Continues(w, Run(w, rs))
  {
    if rs == [] {
      UsersSame(w.users);
    } else {
      var w1 := Run(w, rs[..|rs| - 1]);
      RunContinues(w, rs[..|rs| - 1]);
      StepKeeps(w1, rs[|rs| - 1]);
      StepContinues(w1, rs[|rs| - 1]);
      ContinuesTrans(w, w1, Run(w, rs));
    }
  }

  lemma LogOrdered(w: World, m: int, n: int)
    requires OtpOk(w) && 0 <= m < |w.log| && 0 <= n < |w.log|
    ensures m <= n ==> TimeOf(w.log[m]) <= TimeOf(w.log[n])
    ensures TimeOf(w.log[n]) <= w.now
  {
    var h := Calls(w.log);
    ConformsAt(h, n);
    assert h[n].at <= w.now;
    assert m < n ==> h[..n][m] == h[m];
  }

  // ---- Chains of refreshes ----

  /** Position n of the log mints a token from the one that position m minted, within that token's life. */
  ghost predicate Derives(log: seq<Event>, m: int, n: int) {
    && 0 <= m < n < |log|
    && log[m].Minted? && log[n].Minted?
    && log[n].origin == From(log[m].token)
    && log[m].token.kind.Refresh?
    && log[n].at < log[m].token.exp as real
  }

  /** A finite chain of mints, each from the one before. */
  ghost predicate Chain(log: seq<Event>, ms: seq<int>) {
    && ms != []
    && (forall i | 0 <= i < |ms| :: 0 <= ms[i] < |log| && log[ms[i]].Minted?)
    && forall i | 0 <= i < |ms| - 1 :: Derives(log, ms[i], ms[i + 1])
  }

  lemma {:induction false} ChainClaims(w: World, ms: seq<int>)
    requires MintsOk(w) && Chain(w.log, ms)
    ensures var a, b := w.log[ms[0]].token, w.log[ms[|ms| - 1]].token; a.uid == b.uid && a.sig == b.sig
  {
    if |ms| > 1 {
      var n := |ms| - 1;
      assert Chain(w.log, ms[..n]);
      ChainClaims(w, ms[..n]);
      assert Derives(w.log, ms[n - 1], ms[n]) && MintOk(w, ms[n]);
    }
  }

  /** Password epochs: once a user's password was set at position j, neither a token minted before j nor one
      derived from it by any number of refreshes is accepted by authentication, refresh or reset-confirm. */
  lemma PasswordEpochSafety(w0: World, rs: seq<Request>, ms: seq<int>, j: int)
    requires Init(w0)
    requires var w := Run(w0, rs);
             Chain(w.log, ms) && ms[0] < j < |w.log| && w.log[j].PasswordSet? && w.log[j].uid == w.log[ms[0]].token.uid
    ensures var w := Run(w0, rs);
            var t := w.log[ms[|ms| - 1]].token;
            !AccessAccepted(w, t) && !RefreshAccepted(w, t) && !ResetAccepted(w, t)
  {
    var w := Run(w0, rs);
    RunKeeps(w0, rs);
    ChainClaims(w, ms);
    assert SetOk(w, j);
  }

  // ---- Provenance ----

  predicate OpensSession(e: Event) {
    e.Minted? && e.token.kind.Refresh? && (e.origin.ByPassword? || e.origin.ByRegistrationCode?)
  }

  /** Position m goes back, through ms, to one login or verify-otp. */
  ghost predicate TracesBack(log: seq<Event>, ms: seq<int>, m: int) {
    Chain(log, ms) && ms[|ms| - 1] == m && OpensSession(log[ms[0]])
  }

  lemma {:induction false} TraceBack(w: World, m: int) returns (ms: seq<int>)
    requires MintsOk(w) && 0 <= m < |w.log| && w.log[m].Minted? && !w.log[m].token.kind.Reset?
    ensures TracesBack(w.log, ms, m)
    decreases m
  {
    assert MintOk(w, m);
    if w.log[m].origin.From? {
      var p :| p < m && IsMint(w.log, p, w.log[m].origin.parent);
      var before := TraceBack(w, p);
      ms := before + [m];
      assert Derives(w.log, p, m);
      forall i | 0 <= i < |ms| - 1 ensures Derives(w.log, ms[i], ms[i + 1]) {
        if i < |before| - 1 {
          assert Derives(w.log, before[i], before[i + 1]);
        }
      }
    } else {
      ms := [m];
    }
  }

  /** Every access token accepted now was minted less than 300 s ago, from a chain of refreshes that starts at one
      login or verify-otp of the same user; every refresh of the chain fell within the presented token's life, all
      tokens of the chain carry the user's present password, and it has not been set since the chain began. */
  lemma AccessProvenance(w0: World, rs: seq<Request>, t: Token) returns (ms: seq<int>)
    requires Init(w0) && AccessAccepted(Run(w0, rs), t)
    ensures var w := Run(w0, rs);
            && |ms| >= 2 && TracesBack(w.log, ms, ms[|ms| - 1])
            && w.log[ms[|ms| - 1]].token == t
            && w.log[ms[|ms| - 1]].at <= w.now < w.log[ms[|ms| - 1]].at + ACCESS_LIFETIME as real
            && (forall i | 0 <= i < |ms| ::
                  w.log[ms[i]].token.uid == t.uid && w.log[ms[i]].token.sig == SignatureOf(w, t.uid))
            && (forall j | ms[0] < j < |w.log| && w.log[j].PasswordSet? :: w.log[j].uid != t.uid)
  {
    var w := Run(w0, rs);
    RunKeeps(w0, rs);
    var m :| m < |w.log| && IsMint(w.log, m, t);
    ms := TraceBack(w, m);
    assert MintOk(w, m);
    assert Calls(w.log)[m].at <= w.now;
    forall i | 0 <= i < |ms| ensures w.log[ms[i]].token.uid == t.uid && w.log[ms[i]].token.sig == t.sig {
      ChainFrom(w, ms, i);
    }
    forall j | ms[0] < j < |w.log| && w.log[j].PasswordSet? ensures w.log[j].uid != t.uid {
      assert SetOk(w, j);
    }
  }

  lemma ChainFrom(w: World, ms: seq<int>, i: int)
    requires MintsOk(w) && Chain(w.log, ms) && 0 <= i < |ms|
    ensures var a, b := w.log[ms[i]].token, w.log[ms[|ms| - 1]].token; a.uid == b.uid && a.sig == b.sig
  {
    var tail := ms[i..];
    forall k | 0 <= k < |tail| - 1 ensures Derives(w.log, tail[k], tail[k + 1]) {
      assert Derives(w.log, ms[i + k], ms[i + k + 1]);
    }
    assert Chain(w.log, tail);
    ChainClaims(w, tail);
  }

  // ---- Logout ----

  /** A token id is on record as revoked exactly while the record of its last logout lasts. */
  lemma RevokedExact(w: World, t: Token)
    requires LogoutsOk(w)
    ensures IsRevoked(w, t) <==> exists i :: LastLogout(w.log, |w.log|, i, t.jti) && w.now < RecordEnd(w.log[i])
  {
    if i :| LastLogout(w.log, |w.log|, i, t.jti) {
      assert LogoutOk(w, i);
    } else if RevokedKey(t.jti) in w.store {
      var k :| IsLogout(w.log, k, t.jti);
      var l := FindLast(w.log, |w.log|, k, t.jti);
    }
  }

  /** In every run a token id is revoked exactly when it was logged out and the record of the last logout, which
      runs for the truncated rest of the token's life at that moment and at least a second, has not run out. */
  lemma RevokedIff(w0: World, rs: seq<Request>, t: Token)
    requires Init(w0)
    ensures var w := Run(w0, rs);
            IsRevoked(w, t) <==>
            exists i :: LastLogout(w.log, |w.log|, i, t.jti) && w.now < w.log[i].at + RevocationTtl(w.log[i].token.exp, w.log[i].at) as real
  {
    RunKeeps(w0, rs);
    RevokedExact(Run(w0, rs), t);
  }

  /** In every run a refresh token is accepted exactly when it is signed and in its life, the user is active and has
      the password it was minted under, and it was never logged out or the record of its last logout has run out. */
  lemma RefreshIff(w0: World, rs: seq<Request>, t: Token)
    requires Init(w0)
    ensures var w := Run(w0, rs);
            RefreshAccepted(w, t) <==>
            Decodes(w, t, Refresh) && SignatureCurrent(w, t) && ActiveUser(w, t) && MintAllowed(w.log, |w.log|, w.now, t)
  {
    RunKeeps(w0, rs);
    RevokedExact(Run(w0, rs), t);
  }

  /** Of the logouts of one token only the last counts: if it fell on a whole second or within the token's last one,
      the token is refused in its whole life, and if not, from there on until the record runs out and not after. */
  lemma LogoutRefuses(w0: World, rs: seq<Request>, i: int)
    requires Init(w0)
    requires var w := Run(w0, rs);
             0 <= i < |w.log| && w.log[i].LoggedOut? && LastLogout(w.log, |w.log|, i, w.log[i].token.jti)
    ensures var w := Run(w0, rs);
            var t := w.log[i].token;
            && (Whole(w.log[i].at) || w.log[i].at >= t.exp as real - 1.0 ==> !RefreshAccepted(w, t))
            && (SignatureCurrent(w, t) && ActiveUser(w, t) ==>
                  (RefreshAccepted(w, t) <==> RecordEnd(w.log[i]) <= w.now < t.exp as real))
  {
    var w := Run(w0, rs);
    var t := w.log[i].token;
    RunKeeps(w0, rs);
    RefreshIff(w0, rs, t);
    assert LogoutOk(w, i);
    RevocationEnd(t.exp, w.log[i].at);
    assert MintedBefore(w.log, t, i);
  }

  /** No logout of a token id from position n on. */
  ghost predicate NoLogout(log: seq<Event>, n: nat, jti: nat) {
    forall k | n <= k < |log| :: !IsLogout(log, k, jti)
  }

  lemma {:induction false} RunConcat(w: World, a: seq<Request>, b: seq<Request>)
    ensures Run(w, a + b) == Run(Run(w, a), b)
  {
    if b == [] {
      assert a + b == a;
    } else {
      assert (a + b)[..|a + b| - 1] == a + b[..|b| - 1];
      RunConcat(w, a, b[..|b| - 1]);
    }
  }

  lemma RunThree(w: World, a: Request, b: Request, c: Request)
    ensures Run(w, [a, b, c]) == Step(Step(Step(w, a).world, b).world, c).world
  {
    assert [a, b, c][..2] == [a, b] && [a, b][..1] == [a] && [a][..0] == [];
    assert Run(w, [a]) == Step(w, a).world;
    assert Run(w, [a, b]) == Step(Step(w, a).world, b).world;
  }

  lemma Waited(w: World, dt: real)
    requires dt >= 0.0
    ensures Run(w, [Wait(dt)]) == w.(now := w.now + dt)
  {
    assert [Wait(dt)][..0] == [];
  }

  /** A logout of a live session is final, in every continuation without another logout of the token, exactly when
      it falls on a whole second or within the token's last one. */
  lemma LogoutFinalIff(w0: World, rs: seq<Request>, access: Token, t: Token)
    requires Init(w0) && AccessAccepted(Run(w0, rs), access) && RefreshAccepted(Run(w0, rs), t)
    ensures var w := Run(w0, rs);
            var w1 := DoLogout(w, access, Some(t)).world;
            (forall qs | NoLogout(Run(w1, qs).log, |w1.log|, t.jti) :: !RefreshAccepted(Run(w1, qs), t)) <==>
            Whole(w.now) || w.now >= t.exp as real - 1.0
  {
    var w := Run(w0, rs);
    RunKeeps(w0, rs);
    assert DoLogout(w, access, Some(t)).world == Revoke(w, t);
    LogoutKeeps(w, access, Some(t));
    LogoutFinal(w, t);
  }

  lemma LogoutFinal(w: World, t: Token)
    requires Inv(w) && RefreshAccepted(w, t) && Inv(Revoke(w, t))
    ensures var w1 := Revoke(w, t);
            (forall qs | NoLogout(Run(w1, qs).log, |w1.log|, t.jti) :: !RefreshAccepted(Run(w1, qs), t)) <==>
            Whole(w.now) || w.now >= t.exp as real - 1.0
  {
    var w1 := Revoke(w, t);
    var end := RecordEnd(w1.log[|w.log|]);
    RevocationEnd(t.exp, w.now);
    forall qs | NoLogout(Run(w1, qs).log, |w1.log|, t.jti) && RefreshAccepted(Run(w1, qs), t) ensures end < t.exp as real {
      RecordHolds(w1, t, qs);
    }
    if end < t.exp as real {
      Waited(w1, end - w.now);
      assert RefreshAccepted(Run(w1, [Wait(end - w.now)]), t);
    }
  }

  /** As long as no further logout comes, the record of the last event, a logout of t, decides. */
  lemma RecordHolds(w: World, t: Token, qs: seq<Request>)
    requires Inv(w) && w.log != [] && w.log[|w.log| - 1].LoggedOut? && w.log[|w.log| - 1].token == t
    requires NoLogout(Run(w, qs).log, |w.log|, t.jti) && RefreshAccepted(Run(w, qs), t)
    ensures RecordEnd(w.log[|w.log| - 1]) <= Run(w, qs).now < t.exp as real
  {
    var w' := Run(w, qs);
    RunContinues(w, qs);
    RevokedExact(w', t);
    assert w'.log[|w.log| - 1] == w.log[|w.log| - 1];
    assert LastLogout(w'.log, |w'.log|, |w.log| - 1, t.jti);
  }

  /** An access token minted directly from a token that was logged out before, and accepted 300 s or more after that
      logout, was minted when the record of the last logout before it had run out: that logout fell neither on a
      whole second nor within the token's last one. */
  lemma LogoutEndsAccess(w0: World, rs: seq<Request>, i: int, m: int) returns (l: int)
    requires Init(w0)
    requires var w := Run(w0, rs);
             && 0 <= i < |w.log| && w.log[i].LoggedOut?
             && 0 <= m < |w.log| && w.log[m].Minted? && w.log[m].origin == From(w.log[i].token)
             && w.now >= w.log[i].at + ACCESS_LIFETIME as real
             && AccessAccepted(w, w.log[m].token)
    ensures var w := Run(w0, rs);
            && i <= l < m && LastLogout(w.log, m, l, w.log[i].token.jti)
            && RecordEnd(w.log[l]) <= w.log[m].at
            && !Whole(w.log[l].at) && w.log[l].at < w.log[i].token.exp as real - 1.0
  {
    var w := Run(w0, rs);
    var t := w.log[i].token;
    RunKeeps(w0, rs);
    assert MintOk(w, m);
    LogOrdered(w, m, i);
    assert IsLogout(w.log, i, t.jti);
    l := FindLast(w.log, m, i, t.jti);
    assert MintAllowed(w.log, m, w.log[m].at, t);
    SameLogoutToken(w, i, l);
    RevocationEnd(t.exp, w.log[l].at);
  }

  lemma SameLogoutToken(w: World, i: int, l: int)
    requires MintsOk(w) && LogoutsOk(w) && 0 <= i < |w.log| && w.log[i].LoggedOut? && IsLogout(w.log, l, w.log[i].token.jti)
    ensures w.log[l].token == w.log[i].token && w.log[l].at < w.log[i].token.exp as real
  {
    assert LogoutOk(w, i) && LogoutOk(w, l);
    assert MintedBefore(w.log, w.log[i].token, |w.log|) && MintedBefore(w.log, w.log[l].token, |w.log|);
  }

  /** A run in which a logged-out token is refreshed: its logout fell between two seconds, and the second before the
      token's end is one the record no longer covers. */
  lemma LoggedOutYetRefreshed()
    ensures var w0 := SampleServer(0.5);
            var o := DoLogin(w0, "a@b.ir", "secret");
            && Init(w0) && o.response.Session?
            && var rs := [Login("a@b.ir", "secret"), Logout(o.response.access, Some(o.response.refresh)), Wait(REFRESH_LIFETIME as real - 1.0)];
               var w := Run(w0, rs);
               && (exists i :: LastLogout(w.log, |w.log|, i, o.response.refresh.jti))
               && DoRenew(w, Some(o.response.refresh)).response.Session?
  {
    var w0 := SampleServer(0.5);
    SampleInit(0.5);
    var o := DoLogin(w0, "a@b.ir", "secret");
    var logout, wait := Logout(o.response.access, Some(o.response.refresh)), Wait(REFRESH_LIFETIME as real - 1.0);
    var w2 := Step(o.world, logout).world;
    RunThree(w0, Login("a@b.ir", "secret"), logout, wait);
    assert LastLogout(w2.log, |w2.log|, 2, o.response.refresh.jti);
  }

  predicate WholeWaits(rs: seq<Request>) {
    forall i | 0 <= i < |rs| && rs[i].Wait? :: Whole(rs[i].dt)
  }

  lemma WholeSum(a: real, b: real)
    requires Whole(a) && Whole(b)
    ensures Whole(a + b)
  {
    assert a + b == (a.Floor + b.Floor) as real;
  }

  ghost predicate AllWhole(w: World) {
    Whole(w.now) && forall i | 0 <= i < |w.log| :: Whole(TimeOf(w.log[i]))
  }

  lemma WholeStep(w: World, r: Request)
    requires AllWhole(w) && (r.Wait? ==> Whole(r.dt))
    ensures AllWhole(Step(w, r).world)
  {
    StepAdds(w, r);
    if r.Wait? {
      WholeSum(w.now, r.dt);
    }
  }

  lemma {:induction false} WholeRun(w0: World, rs: seq<Request>)
    requires Init(w0) && Whole(w0.now) && WholeWaits(rs)
    ensures AllWhole(Run(w0, rs))
  {
    if rs != [] {
      assert forall i | 0 <= i < |rs| - 1 :: rs[..|rs| - 1][i] == rs[i];
      WholeRun(w0, rs[..|rs| - 1]);
      WholeStep(Run(w0, rs[..|rs| - 1]), rs[|rs| - 1]);
    }
  }

  lemma WholeClockAccess(w0: World, rs: seq<Request>, i: int, m: int)
    requires Init(w0) && AllWhole(Run(w0, rs))
    requires var w := Run(w0, rs);
             && 0 <= i < |w.log| && w.log[i].LoggedOut?
             && 0 <= m < |w.log| && w.log[m].Minted? && w.log[m].origin == From(w.log[i].token)
             && w.now >= w.log[i].at + ACCESS_LIFETIME as real
    ensures !AccessAccepted(Run(w0, rs), Run(w0, rs).log[m].token)
  {
    var w := Run(w0, rs);
    assert forall k | 0 <= k < |w.log| && w.log[k].LoggedOut? :: w.log[k].at == TimeOf(w.log[k]);
    if AccessAccepted(w, w.log[m].token) {
      var before := LogoutEndsAccess(w0, rs, i, m);
    }
  }

  /** On a whole-second clock a logout is for good: the token is never refreshed again, and from 300 s after it no
      access token minted directly from it is accepted. */
  lemma WholeClockLogout(w0: World, rs: seq<Request>, i: int)
    requires Init(w0) && Whole(w0.now) && WholeWaits(rs)
    requires var w := Run(w0, rs); 0 <= i < |w.log| && w.log[i].LoggedOut?
    ensures var w := Run(w0, rs);
            && !RefreshAccepted(w, w.log[i].token)
            && (w.now >= w.log[i].at + ACCESS_LIFETIME as real ==>
                  forall m | 0 <= m < |w.log| && w.log[m].Minted? && w.log[m].origin == From(w.log[i].token) :: !AccessAccepted(w, w.log[m].token))
  {
    var w := Run(w0, rs);
    WholeRun(w0, rs);
    RunKeeps(w0, rs);
    var l := FindLast(w.log, |w.log|, i, w.log[i].token.jti);
    SameLogoutToken(w, i, l);
    assert forall k | 0 <= k < |w.log| && w.log[k].LoggedOut? :: Whole(TimeOf(w.log[k])) && w.log[k].at == TimeOf(w.log[k]);
    LogoutRefuses(w0, rs, l);
    forall m | 0 <= m < |w.log| && w.log[m].Minted? && w.log[m].origin == From(w.log[i].token)
               && w.now >= w.log[i].at + ACCESS_LIFETIME as real
      ensures !AccessAccepted(w, w.log[m].token)
    {
      WholeClockAccess(w0, rs, i, m);
    }
  }

  // ---- Sliding sessions ----

  /** Events from position n on that would end the session of t. */
  ghost predicate Undisturbed(log: seq<Event>, n: nat, t: Token) {
    forall k | n <= k < |log| ::
      && !(log[k].PasswordSet? && log[k].uid == t.uid)
      && !(log[k].Deactivated? && log[k].uid == t.uid)
  }

  ghost predicate SameLogin(w: World, w': World, uid: nat) {
    && uid < |w.users| <= |w'.users|
    && w'.users[uid].password == w.users[uid].password
    && (w.users[uid].active ==> w'.users[uid].active)
  }

  lemma RegisterUndisturbed(w: World, r: Request, t: Token)
    requires r.Register? && t.uid < |w.users| && Undisturbed(DoRegister(w, r).world.log, |w.log|, t)
    ensures SameLogin(w, DoRegister(w, r).world, t.uid)
  {
    var w' := DoRegister(w, r).world;
    assert w' != w ==> w'.log[|w.log|].PasswordSet? && w'.log[|w.log|].uid == RegistrationRow(w, r.phone);
  }

  lemma StepUndisturbed(w: World, r: Request, t: Token)
    requires t.uid < |w.users| && Undisturbed(Step(w, r).world.log, |w.log|, t)
    ensures SameLogin(w, Step(w, r).world, t.uid)
  {
    match r
    case Register(_, _, _, _, _, _, _) => RegisterUndisturbed(w, r, t);
    case ForgotConfirm(token, p, p2, ok) =>
      var w' := DoForgotConfirm(w, token, p, p2, ok).world;
      assert w' != w ==> w'.log[|w.log|].PasswordSet?;
    case ChangePassword(access, old_, p, p2, ok) =>
      var w' := DoChangePassword(w, access, old_, p, p2, ok).world;
      assert w' != w ==> w'.log[|w.log|].PasswordSet?;
    case Deactivate(uid) =>
      assert uid < |w.users| ==> DoDeactivate(w, uid).world.log[|w.log|].Deactivated?;
    case _ =>
  }

  lemma {:induction false} RunUndisturbed(w: World, rs: seq<Request>, t: Token)
    requires Inv(w) && t.uid < |w.users| && Undisturbed(Run(w, rs).log, |w.log|, t)
    ensures SameLogin(w, Run(w, rs), t.uid)
  {
    if rs != [] {
      var before := rs[..|rs| - 1];
      var w1 := Run(w, before);
      RunContinues(w, before);
      StepKeeps(w1, rs[|rs| - 1]);
      StepContinues(w1, rs[|rs| - 1]);
      UndisturbedParts(w.log, w1.log, Run(w, rs).log, t);
      RunUndisturbed(w, before, t);
      StepUndisturbed(w1, rs[|rs| - 1], t);
    }
  }

  lemma UndisturbedParts(a: seq<Event>, b: seq<Event>, c: seq<Event>, t: Token)
    requires a <= b <= c && Undisturbed(c, |a|, t)
    ensures Undisturbed(b, |a|, t) && Undisturbed(c, |b|, t)
  {
  }

  lemma StillAccepted(w: World, rs: seq<Request>, t: Token)
    requires Inv(w) && RefreshAccepted(w, t)
    requires var w' := Run(w, rs);
             w'.now < t.exp as real && Undisturbed(w'.log, |w.log|, t) && NoLogout(w'.log, |w.log|, t.jti)
    ensures RefreshAccepted(Run(w, rs), t)
  {
    RunContinues(w, rs);
    RunUndisturbed(w, rs, t);
    StillUnrevoked(w, Run(w, rs), t);
  }

  lemma StillUnrevoked(w: World, w': World, t: Token)
    requires LogoutsOk(w) && LogoutsOk(w') && w.log <= w'.log && w.now <= w'.now
    requires !IsRevoked(w, t) && NoLogout(w'.log, |w.log|, t.jti)
    ensures !IsRevoked(w', t)
  {
    RevokedExact(w, t);
    RevokedExact(w', t);
    assert forall i | i < |w.log| :: IsLogout(w.log, i, t.jti) <==> IsLogout(w'.log, i, t.jti);
    forall i | LastLogout(w'.log, |w'.log|, i, t.jti) ensures LastLogout(w.log, |w.log|, i, t.jti) && w.log[i] == w'.log[i] {
    }
  }

  /** A refresh hands out a refresh token that is itself accepted and has a full new lifetime. */
  lemma RenewGrantsFullLife(w: World, t: Token)
    requires MintsOk(w) && LogoutsOk(w) && RefreshAccepted(w, t)
    ensures var o := DoRenew(w, Some(t));
            && o.response.Session? && o.response.refresh.uid == t.uid
            && RefreshAccepted(o.world, o.response.refresh)
            && o.response.refresh.exp == ExpiryFrom(o.world.now, Refresh)
  {
  }

  /** How a session goes on: other requests happen, then its holder presents the refresh token and takes the next. */
  datatype Ride = Ride(world: World, token: Option<Token>)

  function RideOn(w: World, t: Token, gaps: seq<seq<Request>>): Ride
    decreases |gaps|
  {
    if gaps == [] then Ride(w, Some(t)) else
      var o := DoRenew(Run(w, gaps[0]), Some(t));
      if o.response.Session? then RideOn(o.world, o.response.refresh, gaps[1..]) else Ride(o.world, None)
  }

  /** Each gap ends within the presented token's life and holds no logout of it, password change or deactivation. */
  ghost predicate SmoothRide(w: World, t: Token, gaps: seq<seq<Request>>)
    decreases |gaps|
  {
    gaps == [] ||
    var w1 := Run(w, gaps[0]);
    var o := DoRenew(w1, Some(t));
    && w1.now < t.exp as real && Undisturbed(w1.log, |w.log|, t) && NoLogout(w1.log, |w.log|, t.jti)
    && (o.response.Session? ==> SmoothRide(o.world, o.response.refresh, gaps[1..]))
  }

  lemma OneGap(w: World, t: Token, gap: seq<Request>)
    requires Inv(w) && RefreshAccepted(w, t)
    requires var w1 := Run(w, gap); w1.now < t.exp as real && Undisturbed(w1.log, |w.log|, t) && NoLogout(w1.log, |w.log|, t.jti)
    ensures var o := DoRenew(Run(w, gap), Some(t));
            && Inv(o.world) && o.response.Session? && o.response.refresh.uid == t.uid
            && RefreshAccepted(o.world, o.response.refresh)
            && o.response.refresh.exp == ExpiryFrom(o.world.now, Refresh)
  {
    RunContinues(w, gap);
    StillAccepted(w, gap, t);
    AfterRenew(Run(w, gap), t);
  }

  lemma AfterRenew(w: World, t: Token)
    requires Inv(w) && RefreshAccepted(w, t)
    ensures var o := DoRenew(w, Some(t));
            && Inv(o.world) && o.response.Session? && o.response.refresh.uid == t.uid
            && RefreshAccepted(o.world, o.response.refresh)
            && o.response.refresh.exp == ExpiryFrom(o.world.now, Refresh)
  {
    RenewKeeps(w, Some(t));
    RenewGrantsFullLife(w, t);
  }

  lemma {:induction false} SlidingSteps(w: World, t: Token, gaps: seq<seq<Request>>)
    requires Inv(w) && RefreshAccepted(w, t) && SmoothRide(w, t, gaps)
    ensures var r := RideOn(w, t, gaps);
            && r.token.Some? && r.token.value.uid == t.uid && RefreshAccepted(r.world, r.token.value)
            && (gaps != [] ==> r.token.value.exp == ExpiryFrom(r.world.now, Refresh))
    decreases |gaps|
  {
    if gaps != [] {
      OneGap(w, t, gaps[0]);
      var o := DoRenew(Run(w, gaps[0]), Some(t));
      SlidingSteps(o.world, o.response.refresh, gaps[1..]);
    }
  }

  /** Sliding session: from any state a server reaches, over any number of refreshes, none is refused and each
      hands out a full new lifetime. */
  lemma SlidingSession(w0: World, rs: seq<Request>, t: Token, gaps: seq<seq<Request>>)
    requires Init(w0) && RefreshAccepted(Run(w0, rs), t) && SmoothRide(Run(w0, rs), t, gaps)
    ensures var r := RideOn(Run(w0, rs), t, gaps);
            && r.token.Some? && r.token.value.uid == t.uid && RefreshAccepted(r.world, r.token.value)
            && (gaps != [] ==> r.token.value.exp == ExpiryFrom(r.world.now, Refresh))
  {
    RunKeeps(w0, rs);
    SlidingSteps(Run(w0, rs), t, gaps);
  }

  /** A refresh leaves the token presented as it was: rotation does not void it. */
  lemma RotationKeepsPresented(w: World, t: Token)
    requires RefreshAccepted(w, t)
    ensures RefreshAccepted(DoRenew(w, Some(t)).world, t)
  {
  }

  /** Nothing in the continuation qs of w ends the session of t. */
  ghost predicate Calm(w: World, qs: seq<Request>, t: Token) {
    Undisturbed(Run(w, qs).log, |w.log|, t) && NoLogout(Run(w, qs).log, |w.log|, t.jti)
  }

  /** Coming back within 365 days: from any reachable state, every calm continuation that ends within 365 days of the
      minting of an accepted refresh token is granted its refresh, exactly when the token was minted on a whole second. */
  lemma YearSufficesIff(w0: World, rs: seq<Request>, t: Token, m: int)
    requires Init(w0) && RefreshAccepted(Run(w0, rs), t) && IsMint(Run(w0, rs).log, m, t)
    ensures var w := Run(w0, rs);
            (forall qs | Calm(w, qs, t) && Run(w, qs).now < w.log[m].at + REFRESH_LIFETIME as real ::
               DoRenew(Run(w, qs), Some(t)).response.Session?) <==>
            Whole(w.log[m].at)
  {
    var w := Run(w0, rs);
    RunKeeps(w0, rs);
    assert MintOk(w, m);
    if Whole(w.log[m].at) {
      forall qs | Calm(w, qs, t) && Run(w, qs).now < w.log[m].at + REFRESH_LIFETIME as real
        ensures DoRenew(Run(w, qs), Some(t)).response.Session?
      {
        StillAccepted(w, qs, t);
      }
    } else {
      var qs := [Wait(t.exp as real - w.now)];
      Waited(w, t.exp as real - w.now);
      assert Calm(w, qs, t) && Run(w, qs).now < w.log[m].at + REFRESH_LIFETIME as real;
      assert !DoRenew(Run(w, qs), Some(t)).response.Session?;
    }
  }

  /** Each gap waits whole seconds, ends less than 365 days after the minting of the presented token, at s for the
      first, and is calm. */
  ghost predicate YearlyRide(w: World, s: real, t: Token, gaps: seq<seq<Request>>)
    decreases |gaps|
  {
    gaps == [] ||
    var w1 := Run(w, gaps[0]);
    var o := DoRenew(w1, Some(t));
    && WholeWaits(gaps[0]) && w1.now < s + REFRESH_LIFETIME as real && Calm(w, gaps[0], t)
    && (o.response.Session? ==> YearlyRide(o.world, w1.now, o.response.refresh, gaps[1..]))
  }

  lemma {:induction false} WholeTime(w: World, rs: seq<Request>)
    requires Whole(w.now) && WholeWaits(rs)
    ensures Whole(Run(w, rs).now)
  {
    if rs != [] {
      var before := rs[..|rs| - 1];
      assert forall i | 0 <= i < |before| :: before[i] == rs[i];
      WholeTime(w, before);
      StepAdds(Run(w, before), rs[|rs| - 1]);
      if rs[|rs| - 1].Wait? {
        WholeSum(Run(w, before).now, rs[|rs| - 1].dt);
      }
    }
  }

  lemma {:induction false} YearlyIsSmooth(w: World, s: real, t: Token, gaps: seq<seq<Request>>)
    requires Whole(w.now) && Whole(s) && t.exp == ExpiryFrom(s, Refresh) && YearlyRide(w, s, t, gaps)
    ensures SmoothRide(w, t, gaps)
    decreases |gaps|
  {
    if gaps != [] {
      var w1 := Run(w, gaps[0]);
      var o := DoRenew(w1, Some(t));
      WholeTime(w, gaps[0]);
      if o.response.Session? {
        YearlyIsSmooth(o.world, w1.now, o.response.refresh, gaps[1..]);
      }
    }
  }

  /** On a whole-second clock a user who comes back within 365 days each time, any number of times, is never refused. */
  lemma YearlySession(w0: World, rs: seq<Request>, t: Token, m: int, gaps: seq<seq<Request>>)
    requires Init(w0) && Whole(w0.now) && WholeWaits(rs)
    requires RefreshAccepted(Run(w0, rs), t) && IsMint(Run(w0, rs).log, m, t)
    requires YearlyRide(Run(w0, rs), Run(w0, rs).log[m].at, t, gaps)
    ensures var r := RideOn(Run(w0, rs), t, gaps);
            && r.token.Some? && r.token.value.uid == t.uid && RefreshAccepted(r.world, r.token.value)
            && (gaps != [] ==> r.token.value.exp == ExpiryFrom(r.world.now, Refresh))
  {
    var w := Run(w0, rs);
    RunKeeps(w0, rs);
    WholeRun(w0, rs);
    assert Whole(TimeOf(w.log[m])) && MintOk(w, m);
    YearlyIsSmooth(w, w.log[m].at, t, gaps);
    SlidingSession(w0, rs, t, gaps);
  }
}
