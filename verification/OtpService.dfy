/** accounts/services/otp.py: one-time codes over three kinds of cache entry with independent lifetimes. */
module OtpService {
  import opened Text
  import opened TtlCache
  import opened OtpKeys
  import opened OtpHistory

  // ---- The effect of each call on the cache, as a function ----

  function IsThrottled(s: Store, now: real, phone: string): bool {
    CountAt(s, now, ThrottleKey(phone)) >= THROTTLE_MAX_REQUESTS
  }

  function AfterRequest(s: Store, now: real, phone: string, q: Purpose, code: string): Store {
    if IsThrottled(s, now, phone) then s else
      var n := CountAt(s, now, ThrottleKey(phone));
      var expiry := if n == 0 then now + THROTTLE_WINDOW_SECONDS else s[ThrottleKey(phone)].expiry;
      (s[OtpKey(phone, q) := Entry(Digest(HashInput(phone, q, code)), now + OTP_TTL_SECONDS)] - {AttemptsKey(phone, q)})
        [ThrottleKey(phone) := Entry(Count(n + 1), expiry)]
  }

  /** The stored digest is compared: a code is live and fewer than five misses are on record. */
  predicate Compares(s: Store, now: real, phone: string, q: Purpose) {
    CountAt(s, now, AttemptsKey(phone, q)) < MAX_VERIFY_ATTEMPTS && Lookup(s, now, OtpKey(phone, q)).Some?
  }

  predicate VerifyAccepts(s: Store, now: real, phone: string, q: Purpose, code: string) {
    Compares(s, now, phone, q) && Lookup(s, now, OtpKey(phone, q)) == Some(Digest(HashInput(phone, q, code)))
  }

  function AfterVerify(s: Store, now: real, phone: string, q: Purpose, code: string): Store {
    if !Compares(s, now, phone, q) then s
    else if VerifyAccepts(s, now, phone, q, code) then s - {OtpKey(phone, q), AttemptsKey(phone, q)}
    else s[AttemptsKey(phone, q) := Entry(Count(CountAt(s, now, AttemptsKey(phone, q)) + 1), now + OTP_TTL_SECONDS)]
  }

  function RequestCall(s: Store, now: real, phone: string, q: Purpose, code: string): Call {
    Request(now, phone, q, code, !IsThrottled(s, now, phone))
  }

  function VerifyCall(s: Store, now: real, phone: string, q: Purpose, code: string): Call {
    Verify(now, phone, q, code, VerifyAccepts(s, now, phone, q, code))
  }

  // ---- The cache reflects the history ----

  predicate ThrottleReflects(s: Store, h: History, p: string) {
    var w := WindowOf(h, p);
    if w.Open? then
      ThrottleKey(p) in s && s[ThrottleKey(p)] == Entry(Count(w.count), w.start + THROTTLE_WINDOW_SECONDS) && w.count >= 1
    else
      ThrottleKey(p) !in s
  }

  /** While a code is live its counter is the wrong codes tried since it was issued, capped at five, and outlives it. */
  predicate CodeReflects(s: Store, now: real, h: History, p: string, q: Purpose) {
    var c := CodeOf(h, p, q);
    if c.Code? then
      var end := h[c.issue].at + OTP_TTL_SECONDS;
      && OtpKey(p, q) in s
      && s[OtpKey(p, q)] == Entry(Digest(HashInput(p, q, h[c.issue].code)), end)
      && (now < end ==> CounterReflects(s, AttemptsKey(p, q), c.wrong, end))
    else
      OtpKey(p, q) !in s
  }

  predicate CounterReflects(s: Store, key: string, wrong: nat, end: real) {
    if wrong == 0 then key !in s
    else key in s && s[key].value == Count(if wrong < 5 then wrong else 5) && s[key].expiry >= end
  }

  predicate PhoneReflects(s: Store, now: real, h: History, p: string, q: Purpose) {
    ThrottleReflects(s, h, p) && CodeReflects(s, now, h, p, q)
  }

  ghost predicate Reflects(s: Store, now: real, h: History) {
    && (forall i | 0 <= i < |h| :: h[i].at <= now)
    && (forall p, q | ColonFree(p) :: PhoneReflects(s, now, h, p, q))
  }

  /** The invariant of the service: the history is as demanded, and the cache reflects it. */
  ghost predicate Invariant(s: Store, now: real, h: History) {
    Conforms(h) && Reflects(s, now, h)
  }

  lemma CodeStep(h: History, c: Call, p: string, q: Purpose)
    ensures var s := CodeOf(h, p, q);
            CodeOf(h + [c], p, q) ==
              if Issues(c, p, q) then Code(|h|, 0)
              else if Redeems(c, p, q) then NoCode
              else if s.Code? && Misguesses(c, p, q, h[s.issue].code) then Code(s.issue, s.wrong + 1)
              else s
  {
  }

  /** is_throttled answers what the history demands of the next request. */
  lemma ThrottleExact(s: Store, now: real, h: History, phone: string)
    requires Reflects(s, now, h) && ColonFree(phone)
    ensures IsThrottled(s, now, phone) <==> Refuses(h, now, phone)
  {
    assert PhoneReflects(s, now, h, phone, Register);
  }

  /** verify_otp answers what the history demands, and compares a wrong code exactly when Mismatch says so. */
  lemma VerifyExact(s: Store, now: real, h: History, phone: string, q: Purpose, code: string)
    requires Reflects(s, now, h) && ColonFree(phone)
    ensures VerifyAccepts(s, now, phone, q, code) <==> Redeemable(h, now, phone, q, code)
    ensures Compares(s, now, phone, q) && !VerifyAccepts(s, now, phone, q, code) <==>
            Mismatch(h + [VerifyCall(s, now, phone, q, code)], |h|, phone, q)
  {
    RedeemableIff(h, now, phone, q, code);
    assert PhoneReflects(s, now, h, phone, q);
    var c := CodeOf(h, phone, q);
    if c.Code? {
      HashInputInjective(phone, q, code, phone, q, h[c.issue].code);
    }
    assert (h + [VerifyCall(s, now, phone, q, code)])[..|h|] == h;
  }

  lemma OtherKeys(phone: string, q: Purpose, p: string, r: Purpose)
    requires ColonFree(phone) && ColonFree(p) && (p != phone || r != q)
    ensures var mine := {OtpKey(phone, q), AttemptsKey(phone, q), ThrottleKey(phone)};
            OtpKey(p, r) !in mine && AttemptsKey(p, r) !in mine
  {
    KeysInjective(p, r, phone, q);
    KeysDisjoint(p, r, phone, q);
    KeysDisjoint(phone, q, p, r);
  }

  lemma OtherThrottle(phone: string, q: Purpose, p: string)
    requires ColonFree(phone) && ColonFree(p)
    ensures ThrottleKey(p) != OtpKey(phone, q) && ThrottleKey(p) != AttemptsKey(phone, q)
    ensures p != phone ==> ThrottleKey(p) != ThrottleKey(phone)
  {
    KeysInjective(p, q, phone, q);
    KeysDisjoint(p, q, phone, q);
    KeysDisjoint(phone, q, p, q);
  }

  lemma RequestKeepsOwnThrottle(s: Store, now: real, h: History, p: string, q: Purpose, code: string)
    requires ThrottleReflects(s, h, p) && ColonFree(p)
    ensures ThrottleReflects(AfterRequest(s, now, p, q, code), h + [RequestCall(s, now, p, q, code)], p)
  {
    WindowStep(h, RequestCall(s, now, p, q, code), p);
    KeysDisjoint(p, q, p, q);
  }

  lemma RequestKeepsThrottle(s: Store, now: real, h: History, phone: string, q: Purpose, code: string, p: string)
    requires ThrottleReflects(s, h, p) && ColonFree(phone) && ColonFree(p)
    ensures var s' := AfterRequest(s, now, phone, q, code);
            var h' := h + [RequestCall(s, now, phone, q, code)];
            ThrottleReflects(s', h', p)
  {
    if p == phone {
      RequestKeepsOwnThrottle(s, now, h, p, q, code);
    } else {
      WindowStep(h, RequestCall(s, now, phone, q, code), p);
      OtherThrottle(phone, q, p);
    }
  }

  lemma RequestKeepsCode(s: Store, now: real, h: History, phone: string, q: Purpose, code: string, p: string, r: Purpose)
    requires PhoneReflects(s, now, h, p, r) && ColonFree(phone) && ColonFree(p)
    ensures var s' := AfterRequest(s, now, phone, q, code);
            var h' := h + [RequestCall(s, now, phone, q, code)];
            CodeReflects(s', now, h', p, r)
  {
    CodeStep(h, RequestCall(s, now, phone, q, code), p, r);
    if p != phone || r != q {
      OtherKeys(phone, q, p, r);
    } else {
      KeysDisjoint(phone, q, phone, q);
    }
  }

  lemma VerifyKeepsThrottle(s: Store, now: real, h: History, phone: string, q: Purpose, code: string, p: string)
    requires ThrottleReflects(s, h, p) && ColonFree(phone) && ColonFree(p)
    ensures var s' := AfterVerify(s, now, phone, q, code);
            var h' := h + [VerifyCall(s, now, phone, q, code)];
            ThrottleReflects(s', h', p)
  {
    WindowStep(h, VerifyCall(s, now, phone, q, code), p);
    OtherThrottle(phone, q, p);
  }

  lemma VerifyKeepsCode(s: Store, now: real, h: History, phone: string, q: Purpose, code: string, p: string, r: Purpose)
    requires PhoneReflects(s, now, h, p, r) && ColonFree(phone) && ColonFree(p) && forall i | 0 <= i < |h| :: h[i].at <= now
    ensures var s' := AfterVerify(s, now, phone, q, code);
            var h' := h + [VerifyCall(s, now, phone, q, code)];
            CodeReflects(s', now, h', p, r)
  {
    CodeStep(h, VerifyCall(s, now, phone, q, code), p, r);
    if p != phone || r != q {
      OtherKeys(phone, q, p, r);
    } else {
      KeysDisjoint(phone, q, phone, q);
    }
    var c := CodeOf(h, p, r);
    if c.Code? {
      HashInputInjective(phone, q, code, p, r, h[c.issue].code);
    }
  }

  lemma RequestKeeps(s: Store, now: real, h: History, phone: string, q: Purpose, code: string)
    requires Invariant(s, now, h) && ColonFree(phone)
    ensures Invariant(AfterRequest(s, now, phone, q, code), now, h + [RequestCall(s, now, phone, q, code)])
  {
    ThrottleExact(s, now, h, phone);
    ConformsExtends(h, RequestCall(s, now, phone, q, code));
    forall p, r | ColonFree(p)
      ensures PhoneReflects(AfterRequest(s, now, phone, q, code), now, h + [RequestCall(s, now, phone, q, code)], p, r)
    {
      assert PhoneReflects(s, now, h, p, r);
      RequestKeepsThrottle(s, now, h, phone, q, code, p);
      RequestKeepsCode(s, now, h, phone, q, code, p, r);
    }
  }

  lemma VerifyKeeps(s: Store, now: real, h: History, phone: string, q: Purpose, code: string)
    requires Invariant(s, now, h) && ColonFree(phone)
    ensures Invariant(AfterVerify(s, now, phone, q, code), now, h + [VerifyCall(s, now, phone, q, code)])
  {
    VerifyExact(s, now, h, phone, q, code);
    ConformsExtends(h, VerifyCall(s, now, phone, q, code));
    forall p, r | ColonFree(p)
      ensures PhoneReflects(AfterVerify(s, now, phone, q, code), now, h + [VerifyCall(s, now, phone, q, code)], p, r)
    {
      assert PhoneReflects(s, now, h, p, r);
      VerifyKeepsThrottle(s, now, h, phone, q, code, p);
      VerifyKeepsCode(s, now, h, phone, q, code, p, r);
    }
  }

  /** The one-time-code keys a store holds for colon-free phones. */
  ghost predicate SameOtpKeys(s: Store, s': Store) {
    forall p, q | ColonFree(p) :: SameFor(s, s', p, q)
  }

  predicate SameFor(s: Store, s': Store, p: string, q: Purpose) {
    SameAt(s, s', ThrottleKey(p)) && SameAt(s, s', OtpKey(p, q)) && SameAt(s, s', AttemptsKey(p, q))
  }

  predicate SameAt(s: Store, s': Store, key: string) {
    (key in s <==> key in s') && (key in s ==> s[key] == s'[key])
  }

  /** Time passing, or a write to keys of another service, keeps the invariant. */
  lemma IdleKeeps(s: Store, now: real, h: History, s': Store, now': real)
    requires Invariant(s, now, h) && now <= now' && SameOtpKeys(s, s')
    ensures Invariant(s', now', h + [Idle(now')])
    ensures Invariant(s', now', h)
  {
    ConformsExtends(h, Idle(now'));
    forall p, q | ColonFree(p)
      ensures PhoneReflects(s', now', h, p, q)
      ensures PhoneReflects(s', now', h + [Idle(now')], p, q)
    {
      WindowStep(h, Idle(now'), p);
      CodeStep(h, Idle(now'), p, q);
      assert PhoneReflects(s, now, h, p, q);
      assert SameFor(s, s', p, q);
    }
  }

  lemma TimeKeeps(s: Store, now: real, h: History, now': real)
    requires Invariant(s, now, h) && now <= now'
    ensures Invariant(s, now', h + [Idle(now')])
  {
    IdleKeeps(s, now, h, s, now');
  }

  /** A request for one (phone, purpose) leaves what every other one will answer as it was, and the throttle of every
      other phone. */
  lemma RequestInterferesNot(s: Store, now: real, later: real, phone: string, q: Purpose, code: string, p: string, r: Purpose, guess: string)
    requires ColonFree(phone) && ColonFree(p) && (p != phone || r != q)
    ensures VerifyAccepts(AfterRequest(s, now, phone, q, code), later, p, r, guess) == VerifyAccepts(s, later, p, r, guess)
    ensures Compares(AfterRequest(s, now, phone, q, code), later, p, r) == Compares(s, later, p, r)
    ensures p != phone ==> IsThrottled(AfterRequest(s, now, phone, q, code), later, p) == IsThrottled(s, later, p)
  {
    OtherKeys(phone, q, p, r);
    OtherThrottle(phone, q, p);
  }

  /** So does a verification, and it leaves every throttle alone. */
  lemma VerifyInterferesNot(s: Store, now: real, later: real, phone: string, q: Purpose, code: string, p: string, r: Purpose, guess: string)
    requires ColonFree(phone) && ColonFree(p) && (p != phone || r != q)
    ensures VerifyAccepts(AfterVerify(s, now, phone, q, code), later, p, r, guess) == VerifyAccepts(s, later, p, r, guess)
    ensures Compares(AfterVerify(s, now, phone, q, code), later, p, r) == Compares(s, later, p, r)
    ensures IsThrottled(AfterVerify(s, now, phone, q, code), later, p) == IsThrottled(s, later, p)
  {
    OtherKeys(phone, q, p, r);
    OtherThrottle(phone, q, p);
  }

  /** What secrets.randbelow(90000) draws. */
  type Draw = n: nat | n < 90000

  /** The code of a draw: five digits. */
  function CodeText(draw: Draw): (code: string)
    ensures |code| == 5
  {
    assert Power10(4) == 10000 && Power10(5) == 100000;
    DecimalLength(draw + 10000, 5);
    Decimal(draw + 10000)
  }

  /** The code of a draw is the five-digit text of draw + 10000: no two draws share one. */
  lemma CodeTextExact(draw: Draw)
    ensures Digits(CodeText(draw)) && |CodeText(draw)| == 5 && Number(CodeText(draw)) == draw + 10000
  {
    NumberOfDecimal(draw + 10000);
  }

  /** The codes are exactly the texts of five digits without a leading zero, each of one draw. */
  lemma CodesExact(s: string)
    ensures (exists draw: Draw :: CodeText(draw) == s) <==> |s| == 5 && Digits(s) && s[0] != '0'
    ensures forall a: Draw, b: Draw :: CodeText(a) == CodeText(b) ==> a == b
  {
    forall a: Draw ensures Digits(CodeText(a)) && Number(CodeText(a)) == a + 10000 && CodeText(a)[0] != '0' {
      CodeTextExact(a);
      LeadingDigit(CodeText(a));
    }
    if |s| == 5 && Digits(s) && s[0] != '0' {
      NumberBounds(s);
      assert Power10(4) == 10000 && Power10(5) == 100000;
      DecimalOfNumber(s);
      var draw: Draw := Number(s) - 10000;
      assert CodeText(draw) == s;
    }
  }

  lemma LeadingDigit(s: string)
    requires |s| == 5 && Digits(s) && Number(s) >= 10000
    ensures s[0] != '0'
  {
    assert s[..4][..3] == s[..3] && s[..3][..2] == s[..2] && s[..2][..1] == s[..1] && s[..1][..0] == "";
    assert Number(s[..1]) == s[0] as int - '0' as int;
    assert Number(s[..2]) <= 10 * Number(s[..1]) + 9;
    assert Number(s[..3]) <= 10 * Number(s[..2]) + 9;
    assert Number(s[..4]) <= 10 * Number(s[..3]) + 9;
  }

  datatype RequestResult = Sent(code: string) | TooMany

  // ---- The calls themselves ----

  method Throttled(cache: Cache, phone: string) returns (b: bool)
    ensures b == IsThrottled(cache.store, cache.now, phone)
  {
    var n := cache.GetCount(ThrottleKey(phone));
    b := n >= THROTTLE_MAX_REQUESTS;
  }

  lemma OwnKeysDiffer(phone: string, q: Purpose)
    ensures OtpKey(phone, q) != AttemptsKey(phone, q)
    ensures ThrottleKey(phone) != OtpKey(phone, q) && ThrottleKey(phone) != AttemptsKey(phone, q)
  {
    KeyCollisions(phone, q, phone, q);
  }

  method RequestOtp(cache: Cache, phone: string, q: Purpose, draw: Draw) returns (r: RequestResult)
    modifies cache`store
    ensures cache.store == AfterRequest(old(cache.store), cache.now, phone, q, CodeText(draw))
    ensures r == if IsThrottled(old(cache.store), cache.now, phone) then TooMany else Sent(CodeText(draw))
    ensures r.Sent? ==> |r.code| == 5 && Digits(r.code) && Number(r.code) == draw + 10000
  {
    var count := cache.GetCount(ThrottleKey(phone));
    if count >= THROTTLE_MAX_REQUESTS {
      return TooMany;
    }
    var code := CodeText(draw);
    CodeTextExact(draw);
    OwnKeysDiffer(phone, q);
    cache.Set(OtpKey(phone, q), Digest(HashInput(phone, q, code)), OTP_TTL_SECONDS);
    cache.Delete(AttemptsKey(phone, q));
    if count == 0 {
      cache.Set(ThrottleKey(phone), Count(1), THROTTLE_WINDOW_SECONDS);
    } else {
      assert Lookup(cache.store, cache.now, ThrottleKey(phone)) == Some(Count(count));
      var ok := cache.Incr(ThrottleKey(phone));
    }
    r := Sent(code);
  }

  method VerifyOtp(cache: Cache, phone: string, q: Purpose, code: string) returns (ok: bool)
    modifies cache`store
    ensures cache.store == AfterVerify(old(cache.store), cache.now, phone, q, code)
    ensures ok == VerifyAccepts(old(cache.store), cache.now, phone, q, code)
  {
    var attempts := cache.GetCount(AttemptsKey(phone, q));
    if attempts >= MAX_VERIFY_ATTEMPTS {
      return false;
    }
    var stored := cache.Get(OtpKey(phone, q));
    if stored.None? {
      return false;
    }
    if stored.value != Digest(HashInput(phone, q, code)) {
      cache.Set(AttemptsKey(phone, q), Count(attempts + 1), OTP_TTL_SECONDS);
      return false;
    }
    cache.Delete(OtpKey(phone, q));
    cache.Delete(AttemptsKey(phone, q));
    ok := true;
    assert cache.store == old(cache.store) - {OtpKey(phone, q), AttemptsKey(phone, q)};
  }

  /** The service beside its history: every call answers as the history demands. Phones are those the phone
      validator admits; none has a colon. */
  class Service {
    const cache: Cache
    ghost var history: History

    ghost predicate Valid()
      reads this, cache
    {
      Invariant(cache.store, cache.now, history)
    }

    constructor (cache: Cache)
      requires cache.store == map[]
      ensures Valid() && this.cache == cache && history == []
    {
      this.cache := cache;
      history := [];
    }

    method Request(phone: string, q: Purpose, draw: Draw) returns (r: RequestResult)
      requires Valid() && ColonFree(phone)
      modifies this, cache`store
      ensures Valid() && r == if Refuses(old(history), cache.now, phone) then TooMany else Sent(CodeText(draw))
      ensures history == old(history) + [Call.Request(cache.now, phone, q, CodeText(draw), r.Sent?)]
      ensures r.TooMany? ==> cache.store == old(cache.store)
      ensures r.Sent? ==> |r.code| == 5 && Digits(r.code) && Number(r.code) == draw + 10000
    {
      ThrottleExact(cache.store, cache.now, history, phone);
      RequestKeeps(cache.store, cache.now, history, phone, q, CodeText(draw));
      r := RequestOtp(cache, phone, q, draw);
      history := history + [Call.Request(cache.now, phone, q, CodeText(draw), r.Sent?)];
    }

    method Verify(phone: string, q: Purpose, code: string) returns (ok: bool)
      requires Valid() && ColonFree(phone)
      modifies this, cache`store
      ensures Valid() && (ok <==> Redeemable(old(history), cache.now, phone, q, code))
      ensures history == old(history) + [Call.Verify(cache.now, phone, q, code, ok)]
    {
      VerifyExact(cache.store, cache.now, history, phone, q, code);
      VerifyKeeps(cache.store, cache.now, history, phone, q, code);
      ok := VerifyOtp(cache, phone, q, code);
      history := history + [Call.Verify(cache.now, phone, q, code, ok)];
    }

    method Wait(dt: real)
      requires Valid() && dt >= 0.0
      modifies this, cache`now
      ensures Valid() && cache.now == old(cache.now) + dt
      ensures history == old(history) + [Idle(cache.now)]
    {
      TimeKeeps(cache.store, cache.now, history, cache.now + dt);
      cache.Wait(dt);
      history := history + [Idle(cache.now)];
    }
  }
}
