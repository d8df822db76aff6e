/** What every step of the account protocol keeps. */
module AccountInvariant {
  import opened Text
  import opened TtlCache
  import opened OtpKeys
  import opened OtpHistory
  import opened OtpService
  import opened Accounts

  function TimeOf(e: Event): real {
    if e.Called? then e.call.at else e.at
  }

  function CallOf(e: Event): Call {
    if e.Called? then e.call else Idle(e.at)
  }

  /** The calls of the one-time-code service in a log, position by position. */
  function Calls(log: seq<Event>): (h: History)
    ensures |h| == |log|
    ensures forall i | 0 <= i < |log| :: h[i] == CallOf(log[i])
  {
    seq(|log|, i requires 0 <= i < |log| => CallOf(log[i]))
  }

  lemma CallsStep(log: seq<Event>, e: Event)
    ensures Calls(log + [e]) == Calls(log) + [CallOf(e)]
  {
  }

  // ---- The user table ----

  ghost predicate UsersOk(w: World) {
    && (forall i | 0 <= i < |w.users| :: RowOk(w.users[i], w.next))
    && (forall i, j | 0 <= i < |w.users| && 0 <= j < |w.users| && i != j :: RowsApart(w.users[i], w.users[j]))
  }

  predicate RowOk(u: User, next: nat) {
    u.password.salt < next && EmailShape(u.email) && (u.phone.Some? ==> PhoneShape(u.phone.value))
  }

  /** The unique constraints of the table. */
  predicate RowsApart(u: User, v: User) {
    u.username != v.username && u.email != v.email && (u.phone.Some? ==> u.phone != v.phone)
  }

  /** How a step may change the table: rows keep their key and phone, verified users stay verified. */
  ghost predicate UsersExtend(us: seq<User>, us': seq<User>) {
    |us| <= |us'| && forall i | 0 <= i < |us| :: RowExtends(us[i], us'[i])
  }

  predicate RowExtends(u: User, u': User) {
    u'.phone == u.phone && (u.verified ==> u'.verified) && u.password.salt <= u'.password.salt
  }

  // ---- Tokens ----

  ghost predicate IsMint(log: seq<Event>, m: int, t: Token) {
    0 <= m < |log| && log[m].Minted? && log[m].token == t
  }

  ghost predicate MintedBefore(log: seq<Event>, t: Token, n: int) {
    exists m :: m < n && IsMint(log, m, t)
  }

  predicate IsRedemption(e: Event, at: real, phone: Option<string>) {
    phone.Some? && e.Called? && e.call.at == at && Redeems(e.call, phone.value, PasswordReset)
  }

  ghost predicate OriginOk(w: World, m: int)
    requires 0 <= m < |w.log| && w.log[m].Minted? && w.log[m].token.uid < |w.users|
  {
    var Minted(at, t, origin) := w.log[m];
    match origin
    case From(p) => !t.kind.Reset? && p.kind.Refresh? && p.uid == t.uid && p.sig == t.sig && at < p.exp as real && MintedBefore(w.log, p, m)
    case ByResetCode => t.kind.Reset? && m > 0 && IsRedemption(w.log[m - 1], at, w.users[t.uid].phone) && w.users[t.uid].verified
    case _ => t.kind.Refresh?
  }

  ghost predicate MintOk(w: World, m: int)
    requires 0 <= m < |w.log| && w.log[m].Minted?
  {
    var Minted(at, t, origin) := w.log[m];
    && t.uid < |w.users| && t.sig.uid == t.uid && t.sig.hash.salt < w.next && t.jti < w.next
    && t.exp == ExpiryFrom(at, t.kind)
    && OriginOk(w, m)
  }

  ghost predicate MintsOk(w: World) {
    && (forall m | 0 <= m < |w.log| && w.log[m].Minted? :: MintOk(w, m) && w.log[m].token in w.signed)
    && (forall m, n | 0 <= m < |w.log| && 0 <= n < |w.log| && w.log[m].Minted? && w.log[n].Minted? && m != n ::
          w.log[m].token.jti != w.log[n].token.jti)
    && (forall t | t in w.signed :: MintedBefore(w.log, t, |w.log|))
  }

  // ---- Password epochs: salts grow along the log ----

  ghost predicate SetOk(w: World, k: int)
    requires 0 <= k < |w.log| && w.log[k].PasswordSet?
  {
    var PasswordSet(at, uid, hash, cause) := w.log[k];
    && uid < |w.users| && hash.salt < w.next && hash.salt <= w.users[uid].password.salt
    && (cause.ResetWith? ==> ResetUseOk(w.log, k, cause.token))
  }

  /** A reset token is used by its own user, in its life, after it was minted. */
  ghost predicate ResetUseOk(log: seq<Event>, k: int, t: Token)
    requires 0 <= k < |log| && log[k].PasswordSet?
  {
    && t.kind.Reset? && t.uid == log[k].uid && log[k].at < t.exp as real && MintedBefore(log, t, k)
    && forall j | 0 <= j < k && log[j].PasswordSet? && log[j].uid == t.uid :: log[j].hash.salt <= t.sig.hash.salt
  }

  ghost predicate EpochsOk(w: World) {
    && (forall k | 0 <= k < |w.log| && w.log[k].PasswordSet? :: SetOk(w, k))
    && (forall m, k | 0 <= m < k < |w.log| && w.log[m].Minted? && w.log[k].PasswordSet? ::
          w.log[m].token.sig.hash.salt < w.log[k].hash.salt)
  }

  // ---- Revocation records ----

  predicate Whole(x: real) {
    x.Floor as real == x
  }

  ghost predicate IsLogout(log: seq<Event>, i: int, jti: nat) {
    0 <= i < |log| && log[i].LoggedOut? && log[i].token.jti == jti
  }

  /** Position i holds the last logout of a token id among the first n events. */
  ghost predicate LastLogout(log: seq<Event>, n: int, i: int, jti: nat) {
    i < n && IsLogout(log, i, jti) && forall k | i < k < n :: !IsLogout(log, k, jti)
  }

  /** When the record that a logout writes runs out. */
  function RecordEnd(e: Event): real
    requires e.LoggedOut?
  {
    e.at + RevocationTtl(e.token.exp, e.at) as real
  }

  ghost predicate LogoutOk(w: World, i: int)
    requires 0 <= i < |w.log| && w.log[i].LoggedOut?
  {
    var t := w.log[i].token;
    t.kind.Refresh? && MintedBefore(w.log, t, i) && w.log[i].at < t.exp as real
  }

  /** The record in the cache is the one of the last logout. */
  ghost predicate RecordsOk(w: World) {
    forall i, jti {:trigger LastLogout(w.log, |w.log|, i, jti)} | LastLogout(w.log, |w.log|, i, jti) ::
      RevokedKey(jti) in w.store && w.store[RevokedKey(jti)].expiry == RecordEnd(w.log[i])
  }

  /** A token may be minted from p at this time and position: the record of p's last logout so far has run out. */
  ghost predicate MintAllowed(log: seq<Event>, n: int, at: real, p: Token) {
    forall i {:trigger LastLogout(log, n, i, p.jti)} | LastLogout(log, n, i, p.jti) :: at >= RecordEnd(log[i])
  }

  ghost predicate MintsAllowed(log: seq<Event>) {
    forall m | 0 <= m < |log| && log[m].Minted? && log[m].origin.From? :: MintAllowed(log, m, log[m].at, log[m].origin.parent)
  }

  ghost predicate LogoutsOk(w: World) {
    && (forall i | 0 <= i < |w.log| && w.log[i].LoggedOut? :: LogoutOk(w, i))
    && RecordsOk(w)
    && MintsAllowed(w.log)
    && (forall jti: nat | RevokedKey(jti) in w.store :: exists i :: IsLogout(w.log, i, jti))
  }

  // ---- Accounts and codes ----

  predicate IssuesRegisterCode(e: Event, p: string) {
    e.Called? && Issues(e.call, p, Purpose.Register)
  }

  /** The live register code of p was issued at log position i, in the step that set the current password of the
      pending account uid. */
  ghost predicate Link(w: World, p: string, uid: int, i: int) {
    && 0 <= uid < |w.users|
    && w.users[uid].phone == Some(p) && !w.users[uid].active && !w.users[uid].verified
    && 0 < i < |w.log|
    && IssuesRegisterCode(w.log[i], p)
    && w.log[i - 1] == PasswordSet(w.log[i].call.at, uid, w.users[uid].password, Registration)
    && forall j | i < j < |w.log| :: !IssuesRegisterCode(w.log[j], p)
  }

  ghost predicate VerifiedOwner(w: World, p: string) {
    exists uid :: 0 <= uid < |w.users| && w.users[uid].phone == Some(p) && w.users[uid].verified
  }

  ghost predicate CoupledAt(w: World, p: string) {
    && (OtpKey(p, Purpose.Register) in w.store ==> exists uid, i :: Link(w, p, uid, i))
    && (OtpKey(p, PasswordReset) in w.store ==> VerifiedOwner(w, p))
  }

  ghost predicate Coupled(w: World) {
    forall p | ColonFree(p) :: CoupledAt(w, p)
  }

  ghost predicate OtpOk(w: World) {
    Invariant(w.store, w.now, Calls(w.log))
  }

  ghost predicate Base(w: World) {
    UsersOk(w) && MintsOk(w) && EpochsOk(w) && LogoutsOk(w) && OtpOk(w)
  }

  ghost predicate Inv(w: World) {
    Base(w) && Coupled(w)
  }

  /** A server that has served no request yet: any user table that meets its constraints, no cache entry, no token. */
  ghost predicate Init(w: World) {
    w.store == map[] && w.signed == {} && w.log == [] && UsersOk(w)
  }

  /** A server at this moment with one user, active and verified. */
  function SampleServer(now: real): World {
    World(now, map[], [User(Some("09123456789"), "a@b.ir", "sample", Hashed("secret", 0), true, true)], {}, 1, [])
  }

  lemma SampleInit(now: real)
    ensures Init(SampleServer(now))
  {
  }

  lemma InitInv(w: World)
    requires Init(w)
    ensures Inv(w)
  {
  }

  // ---- What a step leaves alone ----

  ghost predicate SameRevocations(s: Store, s': Store) {
    forall jti: nat :: SameAt(s, s', RevokedKey(jti))
  }

  lemma RevokedKeyApart(jti: nat, p: string, q: Purpose)
    ensures RevokedKey(jti) != OtpKey(p, q) && RevokedKey(jti) != AttemptsKey(p, q) && RevokedKey(jti) != ThrottleKey(p)
  {
    assert RevokedKey(jti)[0] == 'r' && OtpKey(p, q)[0] == 'o' && AttemptsKey(p, q)[0] == 'o' && ThrottleKey(p)[0] == 'o';
  }

  lemma OtpCallsKeepRevocations(s: Store, now: real, p: string, q: Purpose, code: string)
    ensures SameRevocations(s, AfterRequest(s, now, p, q, code))
    ensures SameRevocations(s, AfterVerify(s, now, p, q, code))
  {
    forall jti: nat
      ensures SameAt(s, AfterRequest(s, now, p, q, code), RevokedKey(jti)) && SameAt(s, AfterVerify(s, now, p, q, code), RevokedKey(jti))
    {
      RevokedKeyApart(jti, p, q);
    }
  }

  /** w' is w after at most one event. */
  ghost predicate Follows(w: World, w': World, es: seq<Event>) {
    |es| <= 1 && w'.log == w.log + es && w.next <= w'.next && UsersExtend(w.users, w'.users)
  }

  lemma MintedStays(log: seq<Event>, es: seq<Event>, t: Token, n: int)
    requires MintedBefore(log, t, n)
    ensures MintedBefore(log + es, t, n)
  {
    var m :| m < n && IsMint(log, m, t);
    assert IsMint(log + es, m, t);
  }

  lemma MintFrame(w: World, w': World, es: seq<Event>, m: int)
    requires 0 <= m < |w.log| && w.log[m].Minted? && MintOk(w, m) && Follows(w, w', es)
    ensures w'.log[m] == w.log[m] && MintOk(w', m)
  {
    var Minted(at, t, origin) := w.log[m];
    assert RowExtends(w.users[t.uid], w'.users[t.uid]);
    if origin.From? {
      MintedStays(w.log, es, origin.parent, m);
    }
  }

  lemma MintsFrame(w: World, w': World, es: seq<Event>)
    requires MintsOk(w) && Follows(w, w', es) && w'.signed == w.signed
    requires es != [] ==> !es[0].Minted?
    ensures MintsOk(w')
  {
    forall m | 0 <= m < |w'.log| && w'.log[m].Minted? ensures MintOk(w', m) && w'.log[m].token in w'.signed {
      MintFrame(w, w', es, m);
    }
    forall t | t in w'.signed ensures MintedBefore(w'.log, t, |w'.log|) {
      MintedStays(w.log, es, t, |w.log|);
    }
    assert forall m | 0 <= m < |w'.log| && w'.log[m].Minted? :: m < |w.log| && w'.log[m] == w.log[m];
  }

  lemma SetFrame(w: World, w': World, es: seq<Event>, k: int)
    requires 0 <= k < |w.log| && w.log[k].PasswordSet? && SetOk(w, k) && Follows(w, w', es)
    ensures w'.log[k] == w.log[k] && SetOk(w', k)
  {
    var PasswordSet(at, uid, hash, cause) := w.log[k];
    assert RowExtends(w.users[uid], w'.users[uid]);
    if cause.ResetWith? {
      MintedStays(w.log, es, cause.token, k);
    }
  }

  lemma EpochsFrame(w: World, w': World, es: seq<Event>)
    requires EpochsOk(w) && Follows(w, w', es)
    requires es != [] ==> !es[0].PasswordSet?
    ensures EpochsOk(w')
  {
    forall k | 0 <= k < |w'.log| && w'.log[k].PasswordSet? ensures SetOk(w', k) {
      SetFrame(w, w', es, k);
    }
  }

  lemma LogoutFrame(w: World, w': World, es: seq<Event>, i: int)
    requires 0 <= i < |w.log| && w.log[i].LoggedOut? && LogoutOk(w, i) && w'.log == w.log + es
    ensures w'.log[i] == w.log[i] && LogoutOk(w', i)
  {
    MintedStays(w.log, es, w.log[i].token, i);
  }

  /** The last logout of a token id stays the last one until it is logged out again. */
  lemma LastStays(log: seq<Event>, es: seq<Event>, i: int, jti: nat)
    requires forall k | 0 <= k < |es| :: !IsLogout(es, k, jti)
    ensures LastLogout(log + es, |log + es|, i, jti) <==> LastLogout(log, |log|, i, jti)
  {
    assert forall k | k < |log| :: IsLogout(log + es, k, jti) <==> IsLogout(log, k, jti);
    assert forall k | |log| <= k :: IsLogout(log + es, k, jti) <==> IsLogout(es, k - |log|, jti);
  }

  lemma RecordsFrame(w: World, w': World, es: seq<Event>)
    requires RecordsOk(w) && w'.log == w.log + es && SameRevocations(w.store, w'.store)
    requires forall k | 0 <= k < |es| :: !es[k].LoggedOut?
    ensures RecordsOk(w')
  {
    forall i, jti | LastLogout(w'.log, |w'.log|, i, jti)
      ensures RevokedKey(jti) in w'.store && w'.store[RevokedKey(jti)].expiry == RecordEnd(w'.log[i])
    {
      LastStays(w.log, es, i, jti);
      assert SameAt(w.store, w'.store, RevokedKey(jti));
    }
  }

  lemma MintAllowedStays(log: seq<Event>, es: seq<Event>, n: int, at: real, p: Token)
    requires n <= |log| && MintAllowed(log, n, at, p)
    ensures MintAllowed(log + es, n, at, p)
  {
    assert forall i | i < n :: IsLogout(log, i, p.jti) <==> IsLogout(log + es, i, p.jti);
    forall i | LastLogout(log + es, n, i, p.jti) ensures at >= RecordEnd((log + es)[i]) {
      assert LastLogout(log, n, i, p.jti);
    }
  }

  /** A token id that was logged out was logged out last at some position. */
  lemma {:induction false} FindLast(log: seq<Event>, n: int, i: int, jti: nat) returns (l: int)
    requires i < n <= |log| && IsLogout(log, i, jti)
    ensures i <= l && LastLogout(log, n, l, jti)
    decreases n - i
  {
    if k :| i < k < n && IsLogout(log, k, jti) {
      l := FindLast(log, n, k, jti);
    } else {
      l := i;
    }
  }

  lemma MintsAllowedStay(log: seq<Event>, e: Event)
    requires MintsAllowed(log)
    requires e.Minted? && e.origin.From? ==> MintAllowed(log, |log|, e.at, e.origin.parent)
    ensures MintsAllowed(log + [e])
  {
    var log' := log + [e];
    forall m | 0 <= m < |log'| && log'[m].Minted? && log'[m].origin.From?
      ensures MintAllowed(log', m, log'[m].at, log'[m].origin.parent)
    {
      MintAllowedStays(log, [e], m, log'[m].at, log'[m].origin.parent);
    }
  }

  lemma LogoutsFrame(w: World, w': World, es: seq<Event>)
    requires LogoutsOk(w) && Follows(w, w', es) && SameRevocations(w.store, w'.store)
    requires es != [] ==> !es[0].LoggedOut?
    requires es != [] && es[0].Minted? && es[0].origin.From? ==> MintAllowed(w.log, |w.log|, es[0].at, es[0].origin.parent)
    ensures LogoutsOk(w')
  {
    if es != [] {
      assert es == [es[0]];
      MintsAllowedStay(w.log, es[0]);
    } else {
      assert w'.log == w.log;
    }
    RecordsFrame(w, w', es);
    forall i | 0 <= i < |w'.log| && w'.log[i].LoggedOut? ensures LogoutOk(w', i) {
      LogoutFrame(w, w', es, i);
    }
    forall jti: nat | RevokedKey(jti) in w'.store ensures exists i :: IsLogout(w'.log, i, jti) {
      assert SameAt(w.store, w'.store, RevokedKey(jti));
      var i :| IsLogout(w.log, i, jti);
      assert IsLogout(w'.log, i, jti);
    }
  }

  /** An event that is no call of the one-time-code service, at the present moment. */
  lemma OtpFrame(w: World, w': World, es: seq<Event>)
    requires OtpOk(w) && w.now == w'.now && SameOtpKeys(w.store, w'.store)
    requires w'.log == w.log + es && |es| <= 1
    requires es != [] ==> !es[0].Called? && es[0].at == w.now
    ensures OtpOk(w')
  {
    IdleKeeps(w.store, w.now, Calls(w.log), w'.store, w.now);
    if es == [] {
      assert w'.log == w.log;
    } else {
      assert es == [es[0]];
      CallsStep(w.log, es[0]);
    }
  }

  lemma SameStore(s: Store)
    ensures SameOtpKeys(s, s) && SameRevocations(s, s)
  {
  }

  // ---- Each part of a step keeps the base invariant ----

  lemma UsersSame(us: seq<User>)
    ensures UsersExtend(us, us)
  {
  }

  lemma AskKeeps(w: World, phone: string, q: Purpose, code: string)
    requires Base(w) && ColonFree(phone)
    ensures Base(AskCode(w, phone, q, code))
  {
    var w' := AskCode(w, phone, q, code);
    var e := Called(RequestCall(w.store, w.now, phone, q, code));
    UsersSame(w.users);
    MintsFrame(w, w', [e]);
    EpochsFrame(w, w', [e]);
    OtpCallsKeepRevocations(w.store, w.now, phone, q, code);
    LogoutsFrame(w, w', [e]);
    CallsStep(w.log, e);
    RequestKeeps(w.store, w.now, Calls(w.log), phone, q, code);
  }

  lemma TryKeeps(w: World, phone: string, q: Purpose, code: string)
    requires Base(w) && ColonFree(phone)
    ensures Base(TryCode(w, phone, q, code))
  {
    var w' := TryCode(w, phone, q, code);
    var e := Called(VerifyCall(w.store, w.now, phone, q, code));
    UsersSame(w.users);
    MintsFrame(w, w', [e]);
    EpochsFrame(w, w', [e]);
    OtpCallsKeepRevocations(w.store, w.now, phone, q, code);
    LogoutsFrame(w, w', [e]);
    CallsStep(w.log, e);
    VerifyKeeps(w.store, w.now, Calls(w.log), phone, q, code);
  }

  /** Everything but the users and the epochs, for a step that touches only the user table. */
  lemma TableStep(w: World, w': World, es: seq<Event>)
    requires Base(w) && Follows(w, w', es)
    requires w'.now == w.now && w'.store == w.store && w'.signed == w.signed
    requires es != [] ==> (es[0].PasswordSet? || es[0].Deactivated?) && es[0].at == w.now
    ensures MintsOk(w') && LogoutsOk(w') && OtpOk(w')
    ensures (es != [] ==> !es[0].PasswordSet?) ==> EpochsOk(w')
  {
    MintsFrame(w, w', es);
    SameStore(w.store);
    LogoutsFrame(w, w', es);
    OtpFrame(w, w', es);
    if es != [] ==> !es[0].PasswordSet? {
      EpochsFrame(w, w', es);
    }
  }

  /** A new hash outgrows every salt before it. */
  lemma SetStep(w: World, w': World, e: Event)
    requires Base(w) && Follows(w, w', [e])
    requires e.PasswordSet? && e.uid < |w'.users| && w'.users[e.uid].password == e.hash
    requires e.hash.salt == w.next && w'.next == w.next + 1
    requires e.cause.ResetWith? ==> ResetAccepted(w, e.cause.token) && e.cause.token.uid == e.uid && e.at == w.now
    ensures EpochsOk(w')
  {
    forall k | 0 <= k < |w'.log| && w'.log[k].PasswordSet? ensures SetOk(w', k) {
      if k < |w.log| {
        SetFrame(w, w', [e], k);
      } else if e.cause.ResetWith? {
        MintedStays(w.log, [e], e.cause.token, k);
        assert forall j | 0 <= j < k && w.log[j].PasswordSet? :: SetOk(w, j);
      }
    }
    forall m, k | 0 <= m < k < |w'.log| && w'.log[m].Minted? && w'.log[k].PasswordSet?
      ensures w'.log[m].token.sig.hash.salt < w'.log[k].hash.salt
    {
      assert MintOk(w, m);
    }
  }

  lemma SetPasswordKeeps(w: World, uid: nat, raw: string, cause: Cause)
    requires Base(w) && uid < |w.users|
    requires cause.ResetWith? ==> ResetAccepted(w, cause.token) && cause.token.uid == uid
    ensures Base(SetPassword(w, uid, raw, cause))
    ensures UsersExtend(w.users, SetPassword(w, uid, raw, cause).users)
  {
    var w' := SetPassword(w, uid, raw, cause);
    var e := PasswordSet(w.now, uid, Hashed(raw, w.next), cause);
    assert RowOk(w.users[uid], w.next);
    forall i | 0 <= i < |w.users| ensures RowExtends(w.users[i], w'.users[i]) && RowOk(w'.users[i], w'.next) {
      assert RowOk(w.users[i], w.next);
    }
    TableStep(w, w', [e]);
    SetStep(w, w', e);
  }

  lemma ActivateKeeps(w: World, uid: nat)
    requires Base(w) && uid < |w.users|
    ensures Base(Activate(w, uid)) && UsersExtend(w.users, Activate(w, uid).users)
  {
    assert RowOk(w.users[uid], w.next);
    assert Activate(w, uid).log == w.log + [];
    TableStep(w, Activate(w, uid), []);
  }

  lemma DeactivateKeeps(w: World, uid: nat)
    requires Base(w) && uid < |w.users|
    ensures Base(DoDeactivate(w, uid).world) && UsersExtend(w.users, DoDeactivate(w, uid).world.users)
  {
    assert RowOk(w.users[uid], w.next);
    TableStep(w, DoDeactivate(w, uid).world, [Deactivated(w.now, uid)]);
  }

  /** The origin a token may be minted with. */
  ghost predicate MayMint(w: World, kind: TokenKind, uid: nat, sig: Signature, origin: Origin) {
    && uid < |w.users| && sig.uid == uid && sig.hash.salt < w.next
    && match origin
       case From(p) => !kind.Reset? && p.kind.Refresh? && p in w.signed && p.uid == uid && p.sig == sig && w.now < p.exp as real
                       && MintAllowed(w.log, |w.log|, w.now, p)
       case ByResetCode => kind.Reset? && w.log != [] && IsRedemption(w.log[|w.log| - 1], w.now, w.users[uid].phone) && w.users[uid].verified
       case _ => kind.Refresh?
  }

  lemma MintKeepsMints(w: World, kind: TokenKind, uid: nat, sig: Signature, origin: Origin)
    requires MintsOk(w) && MayMint(w, kind, uid, sig, origin)
    ensures MintsOk(Mint(w, kind, uid, sig, origin))
  {
    var w' := Mint(w, kind, uid, sig, origin);
    var t := NewToken(w, kind, uid, sig);
    var e := Minted(w.now, t, origin);
    UsersSame(w.users);
    forall m | 0 <= m < |w'.log| && w'.log[m].Minted? ensures MintOk(w', m) && w'.log[m].token in w'.signed {
      if m < |w.log| {
        MintFrame(w, w', [e], m);
      } else if origin.From? {
        MintedStays(w.log, [e], origin.parent, |w.log|);
      }
    }
    forall x | x in w'.signed ensures MintedBefore(w'.log, x, |w'.log|) {
      if x in w.signed {
        MintedStays(w.log, [e], x, |w.log|);
      } else {
        assert IsMint(w'.log, |w.log|, t);
      }
    }
    assert forall m | 0 <= m < |w.log| && w.log[m].Minted? :: MintOk(w, m);
  }

  lemma MintKeeps(w: World, kind: TokenKind, uid: nat, sig: Signature, origin: Origin)
    requires Base(w) && MayMint(w, kind, uid, sig, origin)
    ensures Base(Mint(w, kind, uid, sig, origin))
  {
    var w' := Mint(w, kind, uid, sig, origin);
    var e := Minted(w.now, NewToken(w, kind, uid, sig), origin);
    MintKeepsMints(w, kind, uid, sig, origin);
    UsersSame(w.users);
    EpochsFrame(w, w', [e]);
    SameStore(w.store);
    LogoutsFrame(w, w', [e]);
    OtpFrame(w, w', [e]);
  }

  lemma WholeLeft(exp: int, now: real)
    ensures Whole(now) <==> Whole(exp as real - now)
  {
    var left := exp as real - now;
    if Whole(now) {
      assert left == (exp - now.Floor) as real;
    }
    if Whole(left) {
      assert now == (exp - left.Floor) as real;
    }
  }

  /** A record of max(int(exp - now), 1) seconds ends after exp - 1 and before exp + 1, at exp exactly when now is
      whole, and before exp exactly when now is not whole and more than a second is left. */
  lemma RevocationEnd(exp: int, now: real)
    requires now < exp as real
    ensures var end := now + RevocationTtl(exp, now) as real;
            && exp as real - 1.0 < end < exp as real + 1.0
            && (end == exp as real <==> Whole(now))
            && (end < exp as real <==> !Whole(now) && now < exp as real - 1.0)
  {
    WholeLeft(exp, now);
  }

  lemma RevokedKeyInjective(a: nat, b: nat)
    requires RevokedKey(a) == RevokedKey(b)
    ensures a == b
  {
    SamePrefixSplits("revoked_refresh_jti:", Decimal(a), Decimal(b));
    DecimalInjective(a, b);
  }

  lemma RevokeKeeps(w: World, t: Token)
    requires Base(w) && Decodes(w, t, Refresh)
    ensures Base(Revoke(w, t))
  {
    var w' := Revoke(w, t);
    var e := LoggedOut(w.now, t);
    UsersSame(w.users);
    MintsFrame(w, w', [e]);
    EpochsFrame(w, w', [e]);
    RevokeKeepsLogouts(w, t);
    forall p, q | ColonFree(p) ensures SameFor(w.store, w'.store, p, q) {
      RevokedKeyApart(t.jti, p, q);
    }
    OtpFrame(w, w', [e]);
  }

  lemma SameJti(w: World, t: Token, u: Token)
    requires MintsOk(w) && t in w.signed && MintedBefore(w.log, u, |w.log|) && t.jti == u.jti
    ensures t == u
  {
  }

  lemma RevokeKeepsRecords(w: World, t: Token)
    requires RecordsOk(w)
    ensures RecordsOk(Revoke(w, t))
  {
    var w' := Revoke(w, t);
    var e := LoggedOut(w.now, t);
    assert IsLogout(w'.log, |w.log|, t.jti);
    forall i, jti | LastLogout(w'.log, |w'.log|, i, jti)
      ensures RevokedKey(jti) in w'.store && w'.store[RevokedKey(jti)].expiry == RecordEnd(w'.log[i])
    {
      if jti == t.jti {
        assert i == |w.log|;
      } else {
        LastStays(w.log, [e], i, jti);
        if RevokedKey(jti) == RevokedKey(t.jti) {
          RevokedKeyInjective(jti, t.jti);
        }
      }
    }
  }

  lemma RevokeKeepsLogouts(w: World, t: Token)
    requires Base(w) && Decodes(w, t, Refresh)
    ensures LogoutsOk(Revoke(w, t))
  {
    var w' := Revoke(w, t);
    var e := LoggedOut(w.now, t);
    RevokeKeepsRecords(w, t);
    forall i | 0 <= i < |w'.log| && w'.log[i].LoggedOut? ensures LogoutOk(w', i) {
      if i < |w.log| {
        LogoutFrame(w, w', [e], i);
      } else {
        MintedStays(w.log, [e], t, |w.log|);
      }
    }
    MintsAllowedStay(w.log, e);
    forall jti: nat | RevokedKey(jti) in w'.store ensures exists i :: IsLogout(w'.log, i, jti) {
      if RevokedKey(jti) in w.store {
        var i :| IsLogout(w.log, i, jti);
        assert IsLogout(w'.log, i, jti);
      } else {
        RevokedKeyInjective(jti, t.jti);
        assert IsLogout(w'.log, |w.log|, jti);
      }
    }
  }

  lemma WaitKeeps(w: World, dt: real)
    requires Base(w) && dt >= 0.0
    ensures Base(w.(now := w.now + dt))
  {
    var w' := w.(now := w.now + dt);
    UsersSame(w.users);
    assert w'.log == w.log + [];
    MintsFrame(w, w', []);
    EpochsFrame(w, w', []);
    SameStore(w.store);
    LogoutsFrame(w, w', []);
    IdleKeeps(w.store, w.now, Calls(w.log), w.store, w'.now);
  }
}
