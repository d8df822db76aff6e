/** Codes, accounts and password resets together: what a code may do to an account, over every run. */
module Recovery {
  import opened Text
  import opened TtlCache
  import opened OtpKeys
  import opened OtpHistory
  import opened OtpService
  import opened Accounts
  import opened AccountInvariant
  import opened AccountSteps
  import opened Sessions

  // ---- Activation ----

  /** The account a live register code belongs to, and the position of its issue. */
  lemma PendingAccount(w: World, phone: string, code: string) returns (uid: nat, i: nat)
    requires Inv(w) && ColonFree(phone) && VerifyAccepts(w.store, w.now, phone, Purpose.Register, code)
    ensures Link(w, phone, uid, i) && First(w.users, HasPhone(phone)) == Some(uid)
    ensures w.log[i].call.code == code && w.now < w.log[i].call.at + OTP_TTL_SECONDS
  {
    var h := Calls(w.log);
    assert CoupledAt(w, phone);
    var v, k :| Link(w, phone, v, k);
    FirstIsOwner(w, phone, v);
    VerifyExact(w.store, w.now, h, phone, Purpose.Register, code);
    var n :| IsCurrent(h, n, phone, Purpose.Register) && RedeemsIssue(h, n, w.now, phone, Purpose.Register, code);
    assert Issues(h[k], phone, Purpose.Register) && IssuesRegisterCode(w.log[n], phone);
    uid, i := v, k;
  }

  /** verify-otp only ever moves a pending account to an active one, and the code that does it was issued by the
      very registration that set the account's present password. */
  lemma ActivationBindsPassword(w0: World, rs: seq<Request>, phone: string, code: string) returns (uid: nat, i: nat)
    requires Init(w0) && DoVerifyCode(Run(w0, rs), phone, code).response.Session?
    ensures var w := Run(w0, rs);
            && uid < |w.users| && w.users[uid].phone == Some(phone) && !w.users[uid].active && !w.users[uid].verified
            && DoVerifyCode(w, phone, code).world.users == w.users[uid := w.users[uid].(active := true, verified := true)]
            && 0 < i < |w.log| && IssuesRegisterCode(w.log[i], phone)
            && w.log[i - 1] == PasswordSet(w.log[i].call.at, uid, w.users[uid].password, Registration)
            && w.log[i].call.code == code && w.now < w.log[i].call.at + OTP_TTL_SECONDS
  {
    var w := Run(w0, rs);
    RunKeeps(w0, rs);
    assert RowOk(w.users[First(w.users, HasPhone(phone)).value], w.next);
    uid, i := PendingAccount(w, phone, code);
  }

  // ---- Password resets ----

  /** Log position k is a successful reset-confirm of user uid. */
  predicate IsReset(log: seq<Event>, k: int, uid: nat) {
    0 <= k < |log| && log[k].PasswordSet? && log[k].uid == uid && log[k].cause.ResetWith?
  }

  /** A reset at k goes back to a redemption at v, right before its token was minted, and to the code issued at i. */
  ghost predicate ResetPath(w: World, k: int, v: int, i: int, uid: nat) {
    && IsReset(w.log, k, uid) && uid < |w.users| && w.users[uid].phone.Some?
    && 0 <= i < v < v + 1 < k
    && IsMint(w.log, v + 1, w.log[k].cause.token)
    && IsRedemption(w.log[v], TimeOf(w.log[v + 1]), w.users[uid].phone)
    && IsCurrent(Calls(w.log)[..v], i, w.users[uid].phone.value, PasswordReset)
    && TimeOf(w.log[v]) < TimeOf(w.log[i]) + OTP_TTL_SECONDS
    && TimeOf(w.log[i]) <= TimeOf(w.log[v]) <= TimeOf(w.log[k]) < TimeOf(w.log[v]) + RESET_LIFETIME as real
    && forall j | v < j < k && w.log[j].PasswordSet? :: w.log[j].uid != uid
  }

  lemma ResetToMint(w: World, k: int, uid: nat) returns (m: int)
    requires Inv(w) && IsReset(w.log, k, uid)
    ensures 0 < m < k && IsMint(w.log, m, w.log[k].cause.token)
    ensures uid < |w.users| && w.users[uid].phone.Some?
    ensures IsRedemption(w.log[m - 1], TimeOf(w.log[m]), w.users[uid].phone)
    ensures TimeOf(w.log[m]) <= TimeOf(w.log[k]) < TimeOf(w.log[m]) + RESET_LIFETIME as real
    ensures forall j | m <= j < k && w.log[j].PasswordSet? :: w.log[j].uid != uid
  {
    var t := w.log[k].cause.token;
    assert SetOk(w, k);
    m :| m < k && IsMint(w.log, m, t);
    assert MintOk(w, m);
    LogOrdered(w, m, k);
  }

  lemma RedemptionToIssue(w: World, v: int, phone: string) returns (i: int)
    requires OtpOk(w) && 0 <= v < |w.log| && w.log[v].Called? && Redeems(w.log[v].call, phone, PasswordReset)
    ensures 0 <= i < v && IsCurrent(Calls(w.log)[..v], i, phone, PasswordReset)
    ensures TimeOf(w.log[i]) <= TimeOf(w.log[v]) < TimeOf(w.log[i]) + OTP_TTL_SECONDS
  {
    var h := Calls(w.log);
    ConformsAt(h, v);
    i :| IsCurrent(h[..v], i, phone, PasswordReset) && RedeemsIssue(h[..v], i, h[v].at, phone, PasswordReset, h[v].code);
    LogOrdered(w, i, v);
  }

  lemma TracePath(w: World, k: int, uid: nat) returns (v: int, i: int)
    requires Inv(w) && IsReset(w.log, k, uid)
    ensures ResetPath(w, k, v, i, uid)
  {
    var m := ResetToMint(w, k, uid);
    v := m - 1;
    i := RedemptionToIssue(w, v, w.users[uid].phone.value);
  }

  /** Every reset goes back to a code sent to the user's phone less than 780 s before, redeemed within 180 s of its
      issue and 600 s of the reset, with no password change of the user between redemption and reset. */
  lemma ResetTraced(w0: World, rs: seq<Request>, k: int, uid: nat) returns (v: int, i: int)
    requires Init(w0) && IsReset(Run(w0, rs).log, k, uid)
    ensures ResetPath(Run(w0, rs), k, v, i, uid)
  {
    RunKeeps(w0, rs);
    v, i := TracePath(Run(w0, rs), k, uid);
  }

  /** No code serves two resets. */
  lemma ResetPathsDiffer(w: World, k1: int, v1: int, i1: int, k2: int, v2: int, i2: int, uid: nat)
    requires MintsOk(w) && ResetPath(w, k1, v1, i1, uid) && ResetPath(w, k2, v2, i2, uid) && k1 < k2
    ensures i1 < i2
  {
  }

  ghost function ResetsIn(log: seq<Event>, uid: nat, a: real, b: real): set<int> {
    set k | 0 <= k < |log| && IsReset(log, k, uid) && a <= log[k].at < b
  }

  lemma PathExists(w: World, k: int, uid: nat)
    requires Inv(w) && IsReset(w.log, k, uid)
    ensures exists v, i :: ResetPath(w, k, v, i, uid)
  {
    var v, i := TracePath(w, k, uid);
  }

  /** The position at which the code behind the reset at k was issued. */
  ghost function IssueOf(w: World, k: int, uid: nat): (i: int)
    requires Inv(w) && IsReset(w.log, k, uid)
    ensures exists v :: ResetPath(w, k, v, i, uid)
  {
    PathExists(w, k, uid);
    var v, i :| ResetPath(w, k, v, i, uid);
    i
  }

  /** Later resets come from later codes. */
  lemma IssueOfGrows(w: World, k1: int, k2: int, uid: nat)
    requires Inv(w) && IsReset(w.log, k1, uid) && IsReset(w.log, k2, uid) && k1 < k2
    ensures IssueOf(w, k1, uid) < IssueOf(w, k2, uid)
  {
    var i1, i2 := IssueOf(w, k1, uid), IssueOf(w, k2, uid);
    var v1 :| ResetPath(w, k1, v1, i1, uid);
    var v2 :| ResetPath(w, k2, v2, i2, uid);
    ResetPathsDiffer(w, k1, v1, i1, k2, v2, i2, uid);
  }

  /** A set that maps injectively into another is no larger. */
  lemma {:induction false} InjectionBound<T, U>(s: set<T>, f: map<T, U>, t: set<U>)
    requires s <= f.Keys && forall k | k in s :: f[k] in t
    requires forall k, l | k in s && l in s && k != l :: f[k] != f[l]
    ensures |s| <= |t|
  {
    if s != {} {
      var k :| k in s;
      InjectionBound(s - {k}, f, t - {f[k]});
    }
  }

  /** In any half-open interval of 600k seconds the password of one user is reset at most 3k + 4 times. */
  lemma ResetBound(w0: World, rs: seq<Request>, uid: nat, a: real, b: real, k: nat)
    requires Init(w0) && b <= a + THROTTLE_WINDOW_SECONDS * k as real
    ensures |ResetsIn(Run(w0, rs).log, uid, a, b)| <= 3 * k + 4
  {
    var w := Run(w0, rs);
    RunKeeps(w0, rs);
    ResetBoundIn(w, uid, a, b, k);
  }

  ghost function IssuesOf(w: World, uid: nat, ks: set<int>): map<int, int>
    requires Inv(w) && forall k | k in ks :: IsReset(w.log, k, uid)
  {
    map k | k in ks :: IssueOf(w, k, uid)
  }

  lemma IssuesDiffer(w: World, uid: nat, ks: set<int>)
    requires Inv(w) && forall k | k in ks :: IsReset(w.log, k, uid)
    ensures forall k, l | k in ks && l in ks && k != l :: IssuesOf(w, uid, ks)[k] != IssuesOf(w, uid, ks)[l]
  {
    forall k, l | k in ks && l in ks && k != l ensures IssuesOf(w, uid, ks)[k] != IssuesOf(w, uid, ks)[l] {
      IssueOfGrows(w, if k < l then k else l, if k < l then l else k, uid);
    }
  }

  /** Of three resets of a user the last goes back to a code sent after the first: a reset voids every reset token
      granted before it, so the code of the second was redeemed after the first, and the third's was sent after that. */
  lemma ThirdIssue(w: World, k1: int, k2: int, k3: int, uid: nat)
    requires Inv(w) && IsReset(w.log, k1, uid) && IsReset(w.log, k2, uid) && IsReset(w.log, k3, uid) && k1 < k2 < k3
    ensures k1 < IssueOf(w, k3, uid) < k3
  {
    var i2, i3 := IssueOf(w, k2, uid), IssueOf(w, k3, uid);
    var v2 :| ResetPath(w, k2, v2, i2, uid);
    var v3 :| ResetPath(w, k3, v3, i3, uid);
    ThirdPath(w, k1, k2, v2, i2, k3, v3, i3, uid);
  }

  lemma ThirdPath(w: World, k1: int, k2: int, v2: int, i2: int, k3: int, v3: int, i3: int, uid: nat)
    requires MintsOk(w) && IsReset(w.log, k1, uid) && k1 < k2 < k3
    requires ResetPath(w, k2, v2, i2, uid) && ResetPath(w, k3, v3, i3, uid)
    ensures k1 < v2 < i3 < k3
  {
    ResetPathsDiffer(w, k2, v2, i2, k3, v3, i3, uid);
  }

  lemma IssueIsGrant(w: World, k: int, uid: nat, a: real, b: real)
    requires Inv(w) && IsReset(w.log, k, uid) && w.log[k].at < b && 0 <= IssueOf(w, k, uid) < |w.log| && a <= TimeOf(w.log[IssueOf(w, k, uid)])
    ensures uid < |w.users| && w.users[uid].phone.Some?
    ensures IssueOf(w, k, uid) in GrantsIn(Calls(w.log), w.users[uid].phone.value, a, b)
  {
  }

  /** Resets in the interval whose code was sent before it. */
  ghost predicate IssuedBefore(w: World, k: int, uid: nat, a: real)
    requires Inv(w) && IsReset(w.log, k, uid)
  {
    var i := IssueOf(w, k, uid);
    0 <= i < |w.log| && TimeOf(w.log[i]) < a
  }

  lemma Three<T>(s: set<T>) returns (x: T, y: T, z: T)
    requires |s| >= 3
    ensures x in s && y in s && z in s && x != y && y != z && x != z
  {
    x :| x in s;
    assert |s - {x}| == |s| - 1;
    y :| y in s - {x};
    assert |s - {x} - {y}| == |s| - 2;
    z :| z in s - {x} - {y};
  }

  ghost function EarlyResets(w: World, uid: nat, a: real, b: real): set<int>
    requires Inv(w)
  {
    set k | k in ResetsIn(w.log, uid, a, b) && IssuedBefore(w, k, uid, a)
  }

  lemma EarlyOrder(w: World, uid: nat, a: real, b: real, x: int, y: int, z: int)
    requires Inv(w)
    requires var s := EarlyResets(w, uid, a, b); x in s && y in s && z in s
    ensures !(x < y < z)
  {
    if x < y < z {
      ThirdIssue(w, x, y, z, uid);
      LogOrdered(w, x, IssueOf(w, z, uid));
    }
  }

  lemma FewEarly(w: World, uid: nat, a: real, b: real)
    requires Inv(w)
    ensures |EarlyResets(w, uid, a, b)| <= 2
  {
    var s := EarlyResets(w, uid, a, b);
    forall x, y, z | x in s && y in s && z in s ensures !(x < y < z) {
      EarlyOrder(w, uid, a, b, x, y, z);
    }
    AtMostTwo(s);
  }

  lemma AtMostTwo(s: set<int>)
    requires forall x, y, z | x in s && y in s && z in s :: !(x < y < z)
    ensures |s| <= 2
  {
    if |s| >= 3 {
      var x, y, z := Three(s);
    }
  }

  lemma LateReset(w: World, r: int, uid: nat, a: real, b: real)
    requires Inv(w) && r in ResetsIn(w.log, uid, a, b) - EarlyResets(w, uid, a, b)
    ensures uid < |w.users| && w.users[uid].phone.Some?
    ensures IssueOf(w, r, uid) in GrantsIn(Calls(w.log), w.users[uid].phone.value, a, b)
  {
    var i := IssueOf(w, r, uid);
    var v :| ResetPath(w, r, v, i, uid);
    IssueIsGrant(w, r, uid, a, b);
  }

  lemma LateBound(w: World, uid: nat, a: real, b: real, grants: set<int>)
    requires Inv(w)
    requires forall r | r in ResetsIn(w.log, uid, a, b) - EarlyResets(w, uid, a, b) :: IssueOf(w, r, uid) in grants
    ensures |ResetsIn(w.log, uid, a, b) - EarlyResets(w, uid, a, b)| <= |grants|
  {
    var ks := ResetsIn(w.log, uid, a, b) - EarlyResets(w, uid, a, b);
    IssuesDiffer(w, uid, ks);
    InjectionBound(ks, IssuesOf(w, uid, ks), grants);
  }

  lemma ResetBoundIn(w: World, uid: nat, a: real, b: real, k: nat)
    requires Inv(w) && b <= a + THROTTLE_WINDOW_SECONDS * k as real
    ensures |ResetsIn(w.log, uid, a, b)| <= 3 * k + 4
  {
    var all, early := ResetsIn(w.log, uid, a, b), EarlyResets(w, uid, a, b);
    var phone := if uid < |w.users| && w.users[uid].phone.Some? then w.users[uid].phone.value else "";
    forall r | r in all - early ensures IssueOf(w, r, uid) in GrantsIn(Calls(w.log), phone, a, b) {
      LateReset(w, r, uid, a, b);
    }
    LateBound(w, uid, a, b, GrantsIn(Calls(w.log), phone, a, b));
    ThrottleBound(Calls(w.log), phone, a, b, k);
    FewEarly(w, uid, a, b);
    Minus(all, early);
  }

  lemma Minus<T>(s: set<T>, t: set<T>)
    requires t <= s
    ensures |s| == |s - t| + |t|
  {
    assert s == (s - t) + t;
  }

  /** A reset token resets once. */
  lemma ResetTokenOnce(w0: World, rs: seq<Request>, k1: int, k2: int, uid: nat)
    requires Init(w0)
    requires var log := Run(w0, rs).log; IsReset(log, k1, uid) && IsReset(log, k2, uid) && log[k1].cause == log[k2].cause
    ensures k1 == k2
  {
    var w := Run(w0, rs);
    RunKeeps(w0, rs);
    var v1, i1 := TracePath(w, k1, uid);
    var v2, i2 := TracePath(w, k2, uid);
  }

  // ---- Codes over whole runs ----

  /** In every run a phone is sent at most 3k + 2 codes in any half-open interval of 600k seconds, and at most
      15k + 15 wrong codes are compared for it and one purpose. */
  lemma CodeBounds(w0: World, rs: seq<Request>, p: string, q: Purpose, a: real, b: real, k: nat)
    requires Init(w0) && b <= a + THROTTLE_WINDOW_SECONDS * k as real
    ensures |GrantsIn(Calls(Run(w0, rs).log), p, a, b)| <= 3 * k + 2
    ensures Mismatches(Calls(Run(w0, rs).log), p, q, a, b) <= 15 * k + 15
  {
    RunKeeps(w0, rs);
    ThrottleBound(Calls(Run(w0, rs).log), p, a, b, k);
    MismatchBound(Calls(Run(w0, rs).log), p, q, a, b, k);
  }

  /** In every reachable state a live register code has a user, unverified and inactive, and a live password-reset
      code has a verified one. */
  lemma CodesAndAccounts(w0: World, rs: seq<Request>, p: string)
    requires Init(w0) && ColonFree(p)
    ensures var w := Run(w0, rs);
            && (Lookup(w.store, w.now, OtpKey(p, Purpose.Register)).Some? ==>
                  exists uid :: 0 <= uid < |w.users| && w.users[uid].phone == Some(p) && !w.users[uid].verified && !w.users[uid].active)
            && (Lookup(w.store, w.now, OtpKey(p, PasswordReset)).Some? ==>
                  exists uid :: 0 <= uid < |w.users| && w.users[uid].phone == Some(p) && w.users[uid].verified)
  {
    var w := Run(w0, rs);
    RunKeeps(w0, rs);
    assert CoupledAt(w, p);
    if Lookup(w.store, w.now, OtpKey(p, Purpose.Register)).Some? {
      var uid, i :| Link(w, p, uid, i);
      assert w.users[uid].phone == Some(p);
    }
  }

  /** What a verify request answers in a run is what the calls before it demand. */
  lemma VerifyAnswers(w0: World, rs: seq<Request>, phone: string, q: Purpose, code: string)
    requires Init(w0) && ColonFree(phone)
    ensures var w := Run(w0, rs);
            VerifyAccepts(w.store, w.now, phone, q, code) <==> Redeemable(Calls(w.log), w.now, phone, q, code)
    ensures var w := Run(w0, rs);
            IsThrottled(w.store, w.now, phone) <==> Refuses(Calls(w.log), w.now, phone)
  {
    var w := Run(w0, rs);
    RunKeeps(w0, rs);
    VerifyExact(w.store, w.now, Calls(w.log), phone, q, code);
    ThrottleExact(w.store, w.now, Calls(w.log), phone);
  }
}
