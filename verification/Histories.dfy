/** Why every event of a run happened, told from the events before it alone: no state, only the log and the table the
    server started with. */
module Histories {
  import opened Text
  import opened OtpKeys
  import opened OtpHistory
  import opened Accounts
  import opened AccountInvariant
  import opened AccountSteps
  import opened Sessions
  import opened Recovery
  import opened Authority
  import opened Journeys

  // ---- The request that an event comes from ----

  /** Request n of the run was served when event k was logged. */
  ghost predicate Serves(w0: World, rs: seq<Request>, n: int, k: int) {
    && 0 <= n < |rs|
    && |Run(w0, rs[..n]).log| <= k < |Step(Run(w0, rs[..n]), rs[n]).world.log|
    && Run(w0, rs[..n]).log <= Step(Run(w0, rs[..n]), rs[n]).world.log <= Run(w0, rs).log
  }

  lemma {:induction false} FindRequest(w0: World, rs: seq<Request>, k: int) returns (n: int)
    requires w0.log == [] && 0 <= k < |Run(w0, rs).log|
    ensures Serves(w0, rs, n, k)
  {
    var last := |rs| - 1;
    StepAdds(Run(w0, rs[..last]), rs[last]);
    if k < |Run(w0, rs[..last]).log| {
      n := FindRequest(w0, rs[..last], k);
      assert rs[..last][..n] == rs[..n];
    } else {
      n := last;
    }
  }

  // ---- Verified, told from the log ----

  predicate RedeemsRegisterCode(e: Event, phone: Option<string>) {
    phone.Some? && e.Called? && Redeems(e.call, phone.value, Purpose.Register)
  }

  ghost predicate Redeemed(log: seq<Event>, phone: Option<string>) {
    exists j :: 0 <= j < |log| && RedeemsRegisterCode(log[j], phone)
  }

  /** The user was verified from the start, or a register code of the phone was redeemed. */
  ghost predicate VerifiedByLog(w0: World, log: seq<Event>, uid: nat, phone: Option<string>) {
    (uid < |w0.users| && w0.users[uid].verified) || Redeemed(log, phone)
  }

  /** A step verifies a user only by redeeming a register code of the phone, and redeems one only by verifying. */
  ghost predicate VerifiesByCode(w: World, w': World) {
    && w.log <= w'.log
    && (forall uid: nat | uid < |w'.users| && w'.users[uid].verified ::
          (uid < |w.users| && w.users[uid].verified) || Redeemed(w'.log[|w.log|..], w'.users[uid].phone))
    && (forall p | Redeemed(w'.log[|w.log|..], Some(p)) :: VerifiedOwner(w', p))
  }

  lemma VerifyCodeVerifies(w: World, phone: string, code: string)
    ensures VerifiesByCode(w, DoVerifyCode(w, phone, code).world)
  {
    var w' := DoVerifyCode(w, phone, code).world;
    var added := w'.log[|w.log|..];
    if DoVerifyCode(w, phone, code).response.Session? {
      var uid := First(w.users, HasPhone(phone)).value;
      assert RedeemsRegisterCode(added[0], Some(phone));
      assert w'.users[uid].phone == Some(phone) && w'.users[uid].verified;
    }
  }

  lemma RegisterVerifies(w: World, r: Request)
    requires r.Register?
    ensures VerifiesByCode(w, DoRegister(w, r).world)
  {
  }

  lemma ForgotVerifyVerifies(w: World, identifier: string, code: string)
    ensures VerifiesByCode(w, DoForgotVerify(w, identifier, code).world)
  {
  }

  lemma QuietVerifies(w: World, r: Request)
    requires r.Login? || r.Renew?
    ensures VerifiesByCode(w, Step(w, r).world)
  {
  }

  lemma StepVerifies(w: World, r: Request)
    ensures VerifiesByCode(w, Step(w, r).world)
  {
    match r
    case VerifyCode(phone, code) => VerifyCodeVerifies(w, phone, code);
    case Register(_, _, _, _, _, _, _) => RegisterVerifies(w, r);
    case ForgotVerify(identifier, code) => ForgotVerifyVerifies(w, identifier, code);
    case Login(_, _) => QuietVerifies(w, r);
    case Renew(_) => QuietVerifies(w, r);
    case _ =>
  }

  lemma RedeemedSplits(log: seq<Event>, n: nat, phone: Option<string>)
    requires n <= |log|
    ensures Redeemed(log, phone) <==> Redeemed(log[..n], phone) || Redeemed(log[n..], phone)
  {
    if j :| 0 <= j < |log[..n]| && RedeemsRegisterCode(log[..n][j], phone) {
      assert RedeemsRegisterCode(log[j], phone);
    }
    if j :| 0 <= j < |log[n..]| && RedeemsRegisterCode(log[n..][j], phone) {
      assert RedeemsRegisterCode(log[n + j], phone);
    }
    if j :| 0 <= j < |log| && RedeemsRegisterCode(log[j], phone) {
      assert j < n ==> RedeemsRegisterCode(log[..n][j], phone);
      assert j >= n ==> RedeemsRegisterCode(log[n..][j - n], phone);
    }
  }

  lemma OwnerStays(w: World, w': World, p: string)
    requires VerifiedOwner(w, p) && UsersExtend(w.users, w'.users)
    ensures VerifiedOwner(w', p)
  {
    var uid :| 0 <= uid < |w.users| && w.users[uid].phone == Some(p) && w.users[uid].verified;
    assert RowExtends(w.users[uid], w'.users[uid]);
  }

  /** Whoever redeemed a register code of p is a verified owner of it. */
  lemma {:induction false} RedeemedHasOwner(w0: World, rs: seq<Request>, p: string)
    requires Init(w0) && Redeemed(Run(w0, rs).log, Some(p))
    ensures VerifiedOwner(Run(w0, rs), p)
  {
    if rs != [] {
      var before, r := rs[..|rs| - 1], rs[|rs| - 1];
      var w := Run(w0, before);
      StepVerifies(w, r);
      RedeemedSplits(Run(w0, rs).log, |w.log|, Some(p));
      if !Redeemed(Run(w0, rs).log[|w.log|..], Some(p)) {
        RedeemedHasOwner(w0, before, p);
        RunKeeps(w0, before);
        StepKeeps(w, r);
        OwnerStays(w, Run(w0, rs), p);
      }
    }
  }

  lemma {:induction false} VerifiedHasReason(w0: World, rs: seq<Request>, uid: nat)
    requires Init(w0) && uid < |Run(w0, rs).users| && Run(w0, rs).users[uid].verified
    ensures VerifiedByLog(w0, Run(w0, rs).log, uid, Run(w0, rs).users[uid].phone)
  {
    if rs != [] {
      var before, r := rs[..|rs| - 1], rs[|rs| - 1];
      var w, w' := Run(w0, before), Run(w0, rs);
      StepVerifies(w, r);
      RedeemedSplits(w'.log, |w.log|, w'.users[uid].phone);
      if uid < |w.users| && w.users[uid].verified {
        VerifiedHasReason(w0, before, uid);
        RunKeeps(w0, before);
        StepKeeps(w, r);
        assert RowExtends(w.users[uid], w'.users[uid]);
      }
    }
  }

  /** In every run a user is verified exactly when the log and the first table say so. */
  lemma VerifiedFromLog(w0: World, rs: seq<Request>, uid: nat)
    requires Init(w0) && uid < |Run(w0, rs).users|
    ensures var w := Run(w0, rs); w.users[uid].verified <==> VerifiedByLog(w0, w.log, uid, w.users[uid].phone)
  {
    var w := Run(w0, rs);
    if w.users[uid].verified {
      VerifiedHasReason(w0, rs, uid);
    } else {
      RunKeeps(w0, rs);
      InitInv(w0);
      RunContinues(w0, rs);
      if Redeemed(w.log, w.users[uid].phone) {
        RedeemedHasOwner(w0, rs, w.users[uid].phone.value);
      }
      if uid < |w0.users| {
        assert RowExtends(w0.users[uid], w.users[uid]);
      }
    }
  }

  // ---- Passwords ----

  /** What a request may set a password for. */
  ghost predicate MaySet(w: World, r: Request, e: Event) {
    e.PasswordSet? && e.uid <= |w.users| &&
    match e.cause
    case Registration =>
      r.Register? && !VerifiedOwner(w, r.phone) && (e.uid < |w.users| ==> w.users[e.uid].phone == Some(r.phone))
    case ResetWith(t) => r.ForgotConfirm? && ResetAccepted(w, t) && t.uid == e.uid
    case Change(access, oldPassword) =>
      r.ChangePassword? && AccessAccepted(w, access) && access.uid == e.uid && CheckPassword(w.users[e.uid], oldPassword)
  }

  lemma RegisterSets(w: World, r: Request, k: int)
    requires r.Register? && |w.log| <= k < |DoRegister(w, r).world.log| && DoRegister(w, r).world.log[k].PasswordSet?
    ensures k == |w.log| && MaySet(w, r, DoRegister(w, r).world.log[k])
  {
    assert Exists(w.users, HasVerifiedPhone(r.phone)) || !VerifiedOwner(w, r.phone);
  }

  lemma SetAuthorised(w: World, r: Request, k: int)
    requires |w.log| <= k < |Step(w, r).world.log| && Step(w, r).world.log[k].PasswordSet?
    ensures k == |w.log| && MaySet(w, r, Step(w, r).world.log[k])
  {
    if r.Register? {
      RegisterSets(w, r, k);
    }
  }

  /** A registration's set: the user was not verified before, and the code goes out with it. */
  ghost predicate RegistrationExplained(w0: World, w: World, k: int, uid: nat) {
    && uid < |w.users| && w.users[uid].phone.Some? && 0 <= k < |w.log|
    && !VerifiedByLog(w0, w.log[..k], uid, w.users[uid].phone)
    && k + 1 < |w.log| && IssuesRegisterCode(w.log[k + 1], w.users[uid].phone.value) && w.log[k + 1].call.at == TimeOf(w.log[k])
  }

  /** A change's set: the access token goes back, through ms, to a login or verify-otp of the user, is under 300 s old,
      and the password was not set since that beginning; the old password given is the one the log tells. */
  ghost predicate ChangeExplained(w0: World, w: World, k: int, uid: nat, access: Token, oldPassword: string, ms: seq<int>) {
    && 0 <= k < |w.log| && |ms| >= 2 && ms[|ms| - 1] < k && TracesBack(w.log, ms, ms[|ms| - 1])
    && w.log[ms[|ms| - 1]].token == access && access.uid == uid
    && w.log[ms[|ms| - 1]].at <= TimeOf(w.log[k]) < w.log[ms[|ms| - 1]].at + ACCESS_LIFETIME as real
    && (forall j | ms[0] < j < k :: !SetsPassword(w.log[j], uid))
    && exists salt :: HasPassword(w0, w.log[..k], uid, Hashed(oldPassword, salt))
  }

  ghost predicate SetExplained(w0: World, w: World, k: int)
    requires 0 <= k < |w.log| && w.log[k].PasswordSet?
  {
    var PasswordSet(at, uid, hash, cause) := w.log[k];
    match cause
    case Registration => RegistrationExplained(w0, w, k, uid)
    case ResetWith(t) => exists v, i :: ResetPath(w, k, v, i, uid)
    case Change(access, oldPassword) => exists ms :: ChangeExplained(w0, w, k, uid, access, oldPassword, ms)
  }

  lemma ChainStays(log: seq<Event>, log': seq<Event>, ms: seq<int>, m: int)
    requires TracesBack(log, ms, m) && log <= log'
    ensures TracesBack(log', ms, m)
  {
    forall i | 0 <= i < |ms| - 1 ensures Derives(log', ms[i], ms[i + 1]) {
      assert Derives(log, ms[i], ms[i + 1]);
    }
  }

  lemma ChangeTraced(w0: World, rs: seq<Request>, n: int, k: int)
    requires Init(w0) && Serves(w0, rs, n, k) && Run(w0, rs).log[k].PasswordSet? && Run(w0, rs).log[k].cause.Change?
    ensures SetExplained(w0, Run(w0, rs), k)
  {
    var w, wn := Run(w0, rs), Run(w0, rs[..n]);
    var PasswordSet(at, uid, hash, Change(access, oldPassword)) := w.log[k];
    SetAuthorised(wn, rs[n], k);
    var ms := AccessProvenance(w0, rs[..n], access);
    ChainStays(wn.log, w.log, ms, ms[|ms| - 1]);
    StepAdds(wn, rs[n]);
    assert w.log[..k] == wn.log;
    PasswordFromLog(w0, rs[..n], uid);
    assert wn.users[uid].password == Hashed(oldPassword, wn.users[uid].password.salt);
    assert ChangeExplained(w0, w, k, uid, access, oldPassword, ms);
  }

  /** What a registration logs, and the row it leaves. */
  lemma RegisterLogs(w: World, r: Request, k: int)
    requires r.Register? && |w.log| <= k < |DoRegister(w, r).world.log| && DoRegister(w, r).world.log[k].PasswordSet?
    ensures var w' := DoRegister(w, r).world;
            var uid := w'.log[k].uid;
            && k + 1 < |w'.log| && IssuesRegisterCode(w'.log[k + 1], r.phone) && w'.log[k + 1].call.at == w'.log[k].at
            && uid < |w'.users| && w'.users[uid].phone == Some(r.phone)
  {
  }

  lemma RunTail(w0: World, rs: seq<Request>, n: nat)
    requires n <= |rs|
    ensures Run(w0, rs) == Run(Run(w0, rs[..n]), rs[n..])
  {
    RunConcat(w0, rs[..n], rs[n..]);
    assert rs[..n] + rs[n..] == rs;
  }

  lemma RowsFrom(w0: World, rs: seq<Request>, n: nat)
    requires Init(w0) && n <= |rs|
    ensures UsersExtend(w0.users, Run(w0, rs[..n]).users) && UsersExtend(Run(w0, rs[..n]).users, Run(w0, rs).users)
  {
    RunTail(w0, rs, n);
    RowsOfRun(w0, rs[..n]);
    RunKeeps(w0, rs[..n]);
    RunContinues(Run(w0, rs[..n]), rs[n..]);
  }

  lemma RowsOfRun(w0: World, rs: seq<Request>)
    requires Init(w0)
    ensures UsersExtend(w0.users, Run(w0, rs).users)
  {
    InitInv(w0);
    RunContinues(w0, rs);
  }

  /** Rows are kept from the start to request n, from there to the end, and from its outcome to the end. */
  lemma RowsAfter(w0: World, rs: seq<Request>, n: nat)
    requires Init(w0) && n < |rs|
    ensures UsersExtend(w0.users, Run(w0, rs[..n]).users) && UsersExtend(Run(w0, rs[..n]).users, Run(w0, rs).users)
    ensures UsersExtend(Step(Run(w0, rs[..n]), rs[n]).world.users, Run(w0, rs).users)
  {
    RowsFrom(w0, rs, n);
    RowsFrom(w0, rs, n + 1);
    assert rs[..n + 1][..n] == rs[..n];
  }

  lemma NotVerified(w0: World, rs: seq<Request>, uid: nat, phone: string)
    requires Init(w0) && !VerifiedOwner(Run(w0, rs), phone)
    requires var w := Run(w0, rs); uid < |w.users| ==> w.users[uid].phone == Some(phone)
    requires |w0.users| <= |Run(w0, rs).users|
    ensures !VerifiedByLog(w0, Run(w0, rs).log, uid, Some(phone))
  {
    if Redeemed(Run(w0, rs).log, Some(phone)) {
      RedeemedHasOwner(w0, rs, phone);
    }
    if uid < |w0.users| {
      VerifiedFromLog(w0, rs, uid);
    }
  }

  lemma RegistrationTraced(w0: World, rs: seq<Request>, n: int, k: int)
    requires Init(w0) && Serves(w0, rs, n, k) && Run(w0, rs).log[k].PasswordSet? && Run(w0, rs).log[k].cause.Registration?
    ensures SetExplained(w0, Run(w0, rs), k)
  {
    var w, wn, r := Run(w0, rs), Run(w0, rs[..n]), rs[n];
    var uid := w.log[k].uid;
    SetAuthorised(wn, r, k);
    RegisterLogs(wn, r, k);
    RowsAfter(w0, rs, n);
    assert RowExtends(DoRegister(wn, r).world.users[uid], w.users[uid]);
    NotVerified(w0, rs[..n], uid, r.phone);
    assert w.log[..k] == wn.log;
  }

  /** Why passwords were set, in every run: by a registration, for a user who by the log was not verified; by a reset
      that goes back to a code sent to the user's phone; or by a change whose access token goes back to a login or
      verify-otp of the user and whose old password is the one that by the log the user had. */
  lemma SetsTraced(w0: World, rs: seq<Request>, k: int)
    requires Init(w0) && 0 <= k < |Run(w0, rs).log| && Run(w0, rs).log[k].PasswordSet?
    ensures SetExplained(w0, Run(w0, rs), k)
  {
    var n := FindRequest(w0, rs, k);
    match Run(w0, rs).log[k].cause
    case Registration => RegistrationTraced(w0, rs, n, k);
    case Change(_, _) => ChangeTraced(w0, rs, n, k);
    case ResetWith(_) =>
      var v, i := ResetTraced(w0, rs, k, Run(w0, rs).log[k].uid);
  }

  // ---- Tokens ----

  lemma MintSetsNone(w: World, r: Request, m: int)
    requires |w.log| <= m < |Step(w, r).world.log| && Step(w, r).world.log[m].Minted?
    ensures forall k | |w.log| <= k < |Step(w, r).world.log| :: !Step(w, r).world.log[k].PasswordSet?
  {
    forall k | |w.log| <= k < |Step(w, r).world.log| ensures !Step(w, r).world.log[k].PasswordSet? {
      if Step(w, r).world.log[k].PasswordSet? {
        SetAuthorised(w, r, k);
      }
    }
  }

  lemma PasswordUntil(w0: World, log: seq<Event>, log': seq<Event>, uid: nat, hash: PasswordHash)
    requires HasPassword(w0, log, uid, hash) && log <= log' && NoneSets(log', |log|, uid)
    ensures HasPassword(w0, log', uid, hash)
  {
    if j :| IsLatestSet(log, j, uid) && log[j].hash == hash {
      assert IsLatestSet(log', j, uid);
    }
  }

  /** The code redeemed right before m was issued in the registration that set the password the token is for. */
  ghost predicate OpenedByCode(w: World, m: int, t: Token, i: int) {
    && 0 < i < m - 1 && m < |w.log| && t.uid < |w.users|
    && RedeemsRegisterCode(w.log[m - 1], w.users[t.uid].phone)
    && IssuesRegisterCode(w.log[i], w.users[t.uid].phone.value) && w.log[i].call.code == w.log[m - 1].call.code
    && TimeOf(w.log[m - 1]) < TimeOf(w.log[i]) + OTP_TTL_SECONDS
    && w.log[i - 1] == PasswordSet(TimeOf(w.log[i]), t.uid, t.sig.hash, Registration)
  }

  ghost predicate MintExplained(w0: World, w: World, m: int)
    requires 0 <= m < |w.log| && w.log[m].Minted?
  {
    var Minted(at, t, origin) := w.log[m];
    HasPassword(w0, w.log[..m], t.uid, t.sig.hash) &&
    match origin
    case ByPassword(password) => t.kind.Refresh? && t.sig.hash.Hashed? && t.sig.hash.raw == password
    case ByRegistrationCode => t.kind.Refresh? && exists i :: OpenedByCode(w, m, t, i)
    case ByResetCode =>
      && t.kind.Reset? && t.uid < |w.users| && m > 0 && IsRedemption(w.log[m - 1], at, w.users[t.uid].phone)
      && VerifiedByLog(w0, w.log[..m], t.uid, w.users[t.uid].phone)
    case From(p) =>
      && !t.kind.Reset? && p.kind.Refresh? && MintedBefore(w.log, p, m) && at < p.exp as real
      && p.uid == t.uid && p.sig == t.sig && MintAllowed(w.log, m, at, p)
  }

  /** A token is minted for the password that by the log its user has. */
  lemma MintPassword(w0: World, rs: seq<Request>, n: int, m: int)
    requires Init(w0) && Serves(w0, rs, n, m) && Run(w0, rs).log[m].Minted?
    ensures var w := Run(w0, rs);
            var Minted(at, t, origin) := w.log[m];
            MayGrant(Run(w0, rs[..n]), rs[n], t, origin) && HasPassword(w0, w.log[..m], t.uid, t.sig.hash)
  {
    var w, wn := Run(w0, rs), Run(w0, rs[..n]);
    RunKeeps(w0, rs[..n]);
    MintAuthorised(wn, rs[n]);
    assert MayGrant(wn, rs[n], w.log[m].token, w.log[m].origin);
    MintSetsNone(wn, rs[n], m);
    var uid := w.log[m].token.uid;
    PasswordFromLog(w0, rs[..n], uid);
    PasswordUntil(w0, wn.log, w.log[..m], uid, wn.users[uid].password);
  }

  lemma VerifyCodeLogs(w: World, phone: string, code: string, m: int)
    requires var w' := DoVerifyCode(w, phone, code).world;
             |w.log| <= m < |w'.log| && w'.log[m].Minted? && w'.log[m].origin.ByRegistrationCode?
    ensures var o := DoVerifyCode(w, phone, code);
            && o.response.Session? && m == |w.log| + 1
            && o.world.log[m - 1] == Called(Call.Verify(w.now, phone, Purpose.Register, code, true))
            && First(w.users, HasPhone(phone)) == Some(o.world.log[m].token.uid)
  {
  }

  lemma Opener(w0: World, rs: seq<Request>, n: int, m: int) returns (i: nat)
    requires Init(w0) && Serves(w0, rs, n, m) && Run(w0, rs).log[m].Minted? && Run(w0, rs).log[m].origin.ByRegistrationCode?
    ensures var w, wn := Run(w0, rs), Run(w0, rs[..n]);
            var t := w.log[m].token;
            && m == |wn.log| + 1 && rs[n].VerifyCode? && t.uid < |wn.users| && wn.users[t.uid].phone == Some(rs[n].phone)
            && w.log[m - 1] == Called(Call.Verify(wn.now, rs[n].phone, Purpose.Register, rs[n].code, true))
            && 0 < i < |wn.log| && IssuesRegisterCode(wn.log[i], rs[n].phone) && wn.log[i].call.code == rs[n].code
            && wn.now < wn.log[i].call.at + OTP_TTL_SECONDS
            && wn.log[i - 1] == PasswordSet(wn.log[i].call.at, t.uid, t.sig.hash, Registration)
  {
    var w, wn, r := Run(w0, rs), Run(w0, rs[..n]), rs[n];
    MintPassword(w0, rs, n, m);
    VerifyCodeLogs(wn, r.phone, r.code, m);
    var uid;
    uid, i := ActivationBindsPassword(w0, rs[..n], r.phone, r.code);
    RunKeeps(w0, rs[..n]);
    FirstIsOwner(wn, r.phone, uid);
  }

  lemma OpenedTraced(w0: World, rs: seq<Request>, n: int, m: int)
    requires Init(w0) && Serves(w0, rs, n, m) && Run(w0, rs).log[m].Minted? && Run(w0, rs).log[m].origin.ByRegistrationCode?
    ensures exists i :: OpenedByCode(Run(w0, rs), m, Run(w0, rs).log[m].token, i)
  {
    var w, wn := Run(w0, rs), Run(w0, rs[..n]);
    var i := Opener(w0, rs, n, m);
    RowsAfter(w0, rs, n);
    assert RowExtends(wn.users[w.log[m].token.uid], w.users[w.log[m].token.uid]);
    assert OpenedByCode(w, m, w.log[m].token, i);
  }

  lemma VerifiedUntil(w0: World, log: seq<Event>, log': seq<Event>, uid: nat, phone: Option<string>)
    requires VerifiedByLog(w0, log, uid, phone) && log <= log'
    ensures VerifiedByLog(w0, log', uid, phone)
  {
    RedeemedSplits(log', |log|, phone);
  }

  lemma ResetMintVerified(w0: World, rs: seq<Request>, n: int, m: int)
    requires Init(w0) && Serves(w0, rs, n, m) && Run(w0, rs).log[m].Minted? && Run(w0, rs).log[m].origin.ByResetCode?
    ensures var w := Run(w0, rs);
            var uid := w.log[m].token.uid;
            uid < |w.users| && VerifiedByLog(w0, w.log[..m], uid, w.users[uid].phone)
  {
    var w, wn := Run(w0, rs), Run(w0, rs[..n]);
    var uid := w.log[m].token.uid;
    MintPassword(w0, rs, n, m);
    RunKeeps(w0, rs[..n]);
    assert RowOk(wn.users[uid], wn.next);
    ResetCodeOwner(wn, uid, wn.users[uid].phone.value);
    VerifiedFromLog(w0, rs[..n], uid);
    VerifiedUntil(w0, wn.log, w.log[..m], uid, wn.users[uid].phone);
    RowsAfter(w0, rs, n);
    assert RowExtends(wn.users[uid], w.users[uid]);
  }

  lemma MintFacts(w: World, m: int)
    requires MintsOk(w) && LogoutsOk(w) && 0 <= m < |w.log| && w.log[m].Minted?
    ensures MintOk(w, m) && (w.log[m].origin.From? ==> MintAllowed(w.log, m, w.log[m].at, w.log[m].origin.parent))
  {
  }

  /** Why tokens were minted, in every run. */
  lemma MintsTraced(w0: World, rs: seq<Request>, m: int)
    requires Init(w0) && 0 <= m < |Run(w0, rs).log| && Run(w0, rs).log[m].Minted?
    ensures MintExplained(w0, Run(w0, rs), m)
  {
    var n := FindRequest(w0, rs, m);
    MintPassword(w0, rs, n, m);
    RunKeeps(w0, rs);
    MintFacts(Run(w0, rs), m);
    match Run(w0, rs).log[m].origin
    case ByRegistrationCode => OpenedTraced(w0, rs, n, m);
    case ByResetCode => ResetMintVerified(w0, rs, n, m);
    case _ =>
  }

  // ---- Codes ----

  ghost predicate SendExplained(w0: World, w: World, k: int)
    requires 0 <= k < |w.log| && w.log[k].Called? && w.log[k].call.Request?
  {
    var call := w.log[k].call;
    match call.purpose
    case Register =>
      k > 0 && w.log[k - 1].PasswordSet? && w.log[k - 1].cause.Registration? && w.log[k - 1].at == call.at
      && w.log[k - 1].uid < |w.users| && w.users[w.log[k - 1].uid].phone == Some(call.phone)
    case PasswordReset =>
      exists uid: nat :: uid < |w.users| && w.users[uid].phone == Some(call.phone) && VerifiedByLog(w0, w.log[..k], uid, Some(call.phone))
  }

  lemma RegisterSends(w: World, r: Request, k: int)
    requires r.Register? && |w.log| <= k < |DoRegister(w, r).world.log| && DoRegister(w, r).world.log[k].Called?
    ensures k == |w.log| + 1 && DoRegister(w, r).world.log[k - 1].PasswordSet? && DoRegister(w, r).world.log[k - 1].cause.Registration?
    ensures DoRegister(w, r).world.log[k].call.at == DoRegister(w, r).world.log[k - 1].at
  {
  }

  lemma SendTraced(w0: World, rs: seq<Request>, k: int)
    requires Init(w0) && 0 <= k < |Run(w0, rs).log| && Run(w0, rs).log[k].Called? && Run(w0, rs).log[k].call.Request?
    ensures SendExplained(w0, Run(w0, rs), k)
  {
    var n := FindRequest(w0, rs, k);
    var w, wn, r := Run(w0, rs), Run(w0, rs[..n]), rs[n];
    SendAuthorised(wn, r);
    assert MaySend(wn, r, w.log[k].call);
    RowsAfter(w0, rs, n);
    if w.log[k].call.purpose.Register? {
      RegisterSends(wn, r, k);
      RegisterLogs(wn, r, k - 1);
      assert RowExtends(DoRegister(wn, r).world.users[w.log[k - 1].uid], w.users[w.log[k - 1].uid]);
    } else {
      var uid: nat :| uid < |wn.users| && wn.users[uid].phone == Some(w.log[k].call.phone) && wn.users[uid].verified;
      VerifiedFromLog(w0, rs[..n], uid);
      VerifiedUntil(w0, wn.log, w.log[..k], uid, wn.users[uid].phone);
      assert RowExtends(wn.users[uid], w.users[uid]);
    }
  }

  /** Why codes were asked for, in every run: by a registration, for the phone of the user it wrote, or for a user
      who by the log was verified. */
  lemma SendsTraced(w0: World, rs: seq<Request>, k: int)
    requires Init(w0) && 0 <= k < |Run(w0, rs).log|
    ensures var e := Run(w0, rs).log[k]; e.Called? && e.call.Request? ==> SendExplained(w0, Run(w0, rs), k)
  {
    if Run(w0, rs).log[k].Called? && Run(w0, rs).log[k].call.Request? {
      SendTraced(w0, rs, k);
    }
  }
}
