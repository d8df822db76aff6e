/** What the one-time-code service owes its callers, told from the calls alone: a history of calls and their
    outcomes, no cache. Bounds over every interval of every history follow from it. */
module OtpHistory {
  import opened OtpKeys

  const OTP_TTL_SECONDS := 180.0
  const MAX_VERIFY_ATTEMPTS := 5
  const THROTTLE_WINDOW_SECONDS := 600.0
  const THROTTLE_MAX_REQUESTS := 3

  /** One call of the service, or a moment at which it was not called. */
  datatype Call =
    | Request(at: real, phone: string, purpose: Purpose, code: string, granted: bool)
    | Verify(at: real, phone: string, purpose: Purpose, code: string, ok: bool)
    | Idle(at: real)

  type History = seq<Call>

  predicate Grants(c: Call, p: string) {
    c.Request? && c.granted && c.phone == p
  }

  predicate Issues(c: Call, p: string, q: Purpose) {
    Grants(c, p) && c.purpose == q
  }

  predicate Redeems(c: Call, p: string, q: Purpose) {
    c.Verify? && c.ok && c.phone == p && c.purpose == q
  }

  predicate Misguesses(c: Call, p: string, q: Purpose, code: string) {
    c.Verify? && c.phone == p && c.purpose == q && c.code != code
  }

  function WrongGuesses(h: History, p: string, q: Purpose, code: string): nat {
    if h == [] then 0 else
      WrongGuesses(h[..|h| - 1], p, q, code) + if Misguesses(h[|h| - 1], p, q, code) then 1 else 0
  }

  /** Call i issued the latest code for (p, q) and nothing has redeemed it. */
  ghost predicate IsCurrent(h: History, i: int, p: string, q: Purpose) {
    && 0 <= i < |h|
    && Issues(h[i], p, q)
    && forall j | i < j < |h| :: !Issues(h[j], p, q) && !Redeems(h[j], p, q)
  }

  /** Verifying code at now must succeed: it is the latest unredeemed code for (p, q), under 180 s old, and
      fewer than five wrong codes were tried since it was issued. */
  ghost predicate Redeemable(h: History, now: real, p: string, q: Purpose, code: string) {
    exists i :: IsCurrent(h, i, p, q) && RedeemsIssue(h, i, now, p, q, code)
  }

  ghost predicate RedeemsIssue(h: History, i: int, now: real, p: string, q: Purpose, code: string)
    requires IsCurrent(h, i, p, q)
  {
    && h[i].code == code
    && now < h[i].at + OTP_TTL_SECONDS
    && WrongGuesses(h[i + 1..], p, q, code) < MAX_VERIFY_ATTEMPTS
  }

  datatype Window = Closed | Open(start: real, count: nat)

  /** The throttle window of p: the first grant after the previous window's 600 s opens a new one. */
  function WindowOf(h: History, p: string): Window {
    if h == [] then Closed else
      var w := WindowOf(h[..|h| - 1], p);
      var c := h[|h| - 1];
      if !Grants(c, p) then w
      else if w.Open? && c.at < w.start + THROTTLE_WINDOW_SECONDS then Open(w.start, w.count + 1)
      else Open(c.at, 1)
  }

  /** A request at now must be refused: three codes were sent in a window opened less than 600 s ago. */
  predicate Refuses(h: History, now: real, p: string) {
    var w := WindowOf(h, p);
    w.Open? && now < w.start + THROTTLE_WINDOW_SECONDS && w.count >= THROTTLE_MAX_REQUESTS
  }

  ghost predicate CallConforms(h: History, c: Call) {
    && (forall i | 0 <= i < |h| :: h[i].at <= c.at)
    && (c.Request? ==> (c.granted <==> !Refuses(h, c.at, c.phone)))
    && (c.Verify? ==> (c.ok <==> Redeemable(h, c.at, c.phone, c.purpose, c.code)))
  }

  /** Every call of the history came out as the calls before it demand. */
  ghost predicate Conforms(h: History) {
    h == [] || (Conforms(h[..|h| - 1]) && CallConforms(h[..|h| - 1], h[|h| - 1]))
  }

  lemma {:induction false} ConformsPrefix(h: History, n: nat)
    requires Conforms(h) && n <= |h|
    ensures Conforms(h[..n])
  {
    if n == |h| {
      assert h[..n] == h;
    } else {
      ConformsPrefix(h[..|h| - 1], n);
      assert h[..|h| - 1][..n] == h[..n];
    }
  }

  lemma ConformsAt(h: History, n: nat)
    requires Conforms(h) && n < |h|
    ensures CallConforms(h[..n], h[n])
  {
    ConformsPrefix(h, n + 1);
    assert h[..n + 1][..n] == h[..n];
  }

  lemma ConformsExtends(h: History, c: Call)
    requires Conforms(h) && CallConforms(h, c)
    ensures Conforms(h + [c])
  {
  }

  // ---- The code state, folded ----

  datatype CodeState = NoCode | Code(issue: nat, wrong: nat)

  /** The unredeemed code of (p, q): which call issued it and how many wrong codes were tried since. */
  function CodeOf(h: History, p: string, q: Purpose): (s: CodeState)
    ensures s.Code? ==> s.issue < |h| && Issues(h[s.issue], p, q)
  {
    if h == [] then NoCode else
      var s := CodeOf(h[..|h| - 1], p, q);
      var c := h[|h| - 1];
      if Issues(c, p, q) then Code(|h| - 1, 0)
      else if Redeems(c, p, q) then NoCode
      else if s.Code? && Misguesses(c, p, q, h[s.issue].code) then Code(s.issue, s.wrong + 1)
      else s
  }

  lemma {:induction false} CodeOfMeaning(h: History, p: string, q: Purpose)
    ensures var s := CodeOf(h, p, q);
            if s.Code? then IsCurrent(h, s.issue, p, q) && s.wrong == WrongGuesses(h[s.issue + 1..], p, q, h[s.issue].code)
            else forall i :: !IsCurrent(h, i, p, q)
  {
    if h != [] {
      var h0, c := h[..|h| - 1], h[|h| - 1];
      var s0, s := CodeOf(h0, p, q), CodeOf(h, p, q);
      CodeOfMeaning(h0, p, q);
      forall i | IsCurrent(h, i, p, q) && i < |h0| ensures IsCurrent(h0, i, p, q) {
      }
      if s.Code? && s.issue < |h0| {
        assert h[s.issue + 1..][..|h| - s.issue - 2] == h0[s.issue + 1..];
      }
    }
  }

  /** Redeemable, read off the folded state. */
  lemma RedeemableIff(h: History, now: real, p: string, q: Purpose, code: string)
    ensures Redeemable(h, now, p, q, code) <==>
            var s := CodeOf(h, p, q);
            s.Code? && h[s.issue].code == code && now < h[s.issue].at + OTP_TTL_SECONDS && s.wrong < MAX_VERIFY_ATTEMPTS
  {
    CodeOfMeaning(h, p, q);
    var s := CodeOf(h, p, q);
    if s.Code? {
      forall i | IsCurrent(h, i, p, q) ensures i == s.issue {
      }
      if h[s.issue].code == code && now < h[s.issue].at + OTP_TTL_SECONDS && s.wrong < MAX_VERIFY_ATTEMPTS {
        assert RedeemsIssue(h, s.issue, now, p, q, code);
      }
    }
  }

  /** Single use: two successful verifications of one (p, q) redeem codes of two different requests. */
  lemma DistinctIssues(h: History, n1: nat, n2: nat, i1: int, i2: int, p: string, q: Purpose)
    requires n1 < n2 <= |h| && Redeems(h[n1], p, q)
    requires IsCurrent(h[..n1], i1, p, q) && IsCurrent(h[..n2], i2, p, q)
    ensures i1 < n1 < i2
  {
  }

  // ---- How many codes a phone is sent ----

  ghost function GrantsIn(h: History, p: string, a: real, b: real): set<int> {
    set i | 0 <= i < |h| && Grants(h[i], p) && a <= h[i].at < b
  }

  lemma GrantsInStep(h: History, p: string, a: real, b: real)
    requires h != []
    ensures var n := |h| - 1;
            GrantsIn(h, p, a, b) == GrantsIn(h[..n], p, a, b) + if Grants(h[n], p) && a <= h[n].at < b then {n} else {}
    ensures |GrantsIn(h, p, a, b)| == |GrantsIn(h[..|h| - 1], p, a, b)| + if Grants(h[|h| - 1], p) && a <= h[|h| - 1].at < b then 1 else 0
  {
    assert |h| - 1 !in GrantsIn(h[..|h| - 1], p, a, b);
  }

  lemma WindowStep(h: History, c: Call, p: string)
    ensures var w := WindowOf(h, p);
            WindowOf(h + [c], p) ==
              if !Grants(c, p) then w
              else if w.Open? && c.at < w.start + THROTTLE_WINDOW_SECONDS then Open(w.start, w.count + 1)
              else Open(c.at, 1)
  {
  }

  lemma {:induction false} WindowFacts(h: History, p: string)
    requires Conforms(h)
    ensures var w := WindowOf(h, p);
            if w.Open? then 1 <= w.count <= THROTTLE_MAX_REQUESTS && exists i :: 0 <= i < |h| && Grants(h[i], p) && h[i].at == w.start
            else forall i | 0 <= i < |h| :: !Grants(h[i], p)
  {
    if h != [] {
      var n := |h| - 1;
      WindowFacts(h[..n], p);
      assert CallConforms(h[..n], h[n]);
      var w0 := WindowOf(h[..n], p);
      if w0.Open? {
        var i :| 0 <= i < n && Grants(h[..n][i], p) && h[..n][i].at == w0.start;
        assert Grants(h[i], p) && h[i].at == w0.start;
      }
      assert h[n].at == h[n].at;
    }
  }

  /** Window starts are 600 s apart, so windows opened before a + 600(j+1) hold at most 3(j+1) grants from a on,
      and the one already open at a gave its first grant before a. */
  lemma {:induction false} WindowBound(h: History, p: string, a: real, b: real, j: int)
    requires Conforms(h) && WindowOf(h, p).Open?
    requires j >= -1 && WindowOf(h, p).start < a + THROTTLE_WINDOW_SECONDS * (j + 1) as real
    ensures |GrantsIn(h, p, a, b)| <= 3 * j + 2 + WindowOf(h, p).count
  {
    var n := |h| - 1;
    var h0, c := h[..n], h[n];
    WindowFacts(h0, p);
    GrantsInStep(h, p, a, b);
    var w0 := WindowOf(h0, p);
    if !Grants(c, p) || (w0.Open? && c.at < w0.start + THROTTLE_WINDOW_SECONDS) {
      WindowBound(h0, p, a, b, j);
    } else if j == -1 {
      assert CallConforms(h0, c);
      assert GrantsIn(h, p, a, b) == {};
    } else if w0.Open? {
      WindowBound(h0, p, a, b, j - 1);
    } else {
      assert GrantsIn(h0, p, a, b) == {};
    }
  }

  /** In any half-open interval of 600k seconds a phone is sent at most 3k + 2 codes, both purposes together. */
  lemma ThrottleBound(h: History, p: string, a: real, b: real, k: nat)
    requires Conforms(h) && b <= a + THROTTLE_WINDOW_SECONDS * k as real
    ensures |GrantsIn(h, p, a, b)| <= 3 * k + 2
  {
    var n := EarlierThan(h, b);
    ConformsPrefix(h, n);
    WindowFacts(h[..n], p);
    assert GrantsIn(h, p, a, b) == GrantsIn(h[..n], p, a, b);
    if WindowOf(h[..n], p).Closed? {
      assert GrantsIn(h, p, a, b) == {};
    } else {
      WindowBound(h[..n], p, a, b, k - 1);
    }
  }

  /** How many calls of a time-ordered history came before b. */
  ghost function EarlierThan(h: History, b: real): (n: nat)
    requires Conforms(h)
    ensures n <= |h|
    ensures forall i | 0 <= i < |h| :: h[i].at < b <==> i < n
  {
    if h == [] then 0 else
      var n := |h| - 1;
      assert forall i | 0 <= i < n :: h[i] == h[..n][i];
      if h[n].at < b then |h| else EarlierThan(h[..n], b)
  }

  // ---- When three codes in ten minutes is right ----

  /** How many codes p is granted in h before the moment b. */
  function GrantCount(h: History, p: string, b: real): nat {
    if h == [] then 0 else
      GrantCount(h[..|h| - 1], p, b) + if Grants(h[|h| - 1], p) && h[|h| - 1].at < b then 1 else 0
  }

  lemma CountStep(e: History, c: Call, p: string, b: real)
    ensures GrantCount(e + [c], p, b) == GrantCount(e, p, b) + if Grants(c, p) && c.at < b then 1 else 0
  {
    assert (e + [c])[..|e|] == e;
  }

  /** A window stays the open one as long as its 600 s last. */
  lemma {:induction false} WindowHolds(h: History, e: History, p: string)
    requires var v := WindowOf(h, p); v.Open? && forall i | 0 <= i < |e| :: e[i].at < v.start + THROTTLE_WINDOW_SECONDS
    ensures WindowOf(h + e, p).Open? && WindowOf(h + e, p).start == WindowOf(h, p).start
  {
    if e == [] {
      assert h + e == h;
    } else {
      var e0, c := e[..|e| - 1], e[|e| - 1];
      assert h + e == h + e0 + [c];
      WindowHolds(h, e0, p);
      WindowStep(h + e0, c, p);
    }
  }

  /** The codes p is granted from position n on, before the moment b. */
  ghost function GrantsFrom(h: History, n: nat, p: string, b: real): set<int> {
    set i | n <= i < |h| && Grants(h[i], p) && h[i].at < b
  }

  lemma GrantsFromStep(h: History, c: Call, n: nat, p: string, b: real)
    requires n <= |h|
    ensures |GrantsFrom(h + [c], n, p, b)| == |GrantsFrom(h, n, p, b)| + if Grants(c, p) && c.at < b then 1 else 0
  {
    var old_ := GrantsFrom(h, n, p, b);
    assert |h| !in old_;
    assert GrantsFrom(h + [c], n, p, b) == old_ + if Grants(c, p) && c.at < b then {|h|} else {};
  }

  lemma {:induction false} GrantsFromCount(h: History, e: History, p: string, b: real)
    ensures |GrantsFrom(h + e, |h|, p, b)| == GrantCount(e, p, b)
  {
    if e == [] {
      assert GrantsFrom(h + e, |h|, p, b) == {};
    } else {
      var e0, c := e[..|e| - 1], e[|e| - 1];
      GrantsFromCount(h, e0, p, b);
      GrantsFromStep(h + e0, c, |h|, p, b);
      assert h + e == h + e0 + [c];
    }
  }

  /** At a, the window of p was opened earlier, is still open, and has codes left. */
  predicate PartlyUsed(h: History, p: string, a: real) {
    var w := WindowOf(h, p);
    w.Open? && w.start < a < w.start + THROTTLE_WINDOW_SECONDS && w.count < THROTTLE_MAX_REQUESTS
  }

  ghost predicate Continuation(h: History, e: History, a: real) {
    Conforms(h + e) && forall i | 0 <= i < |e| :: e[i].at >= a
  }

  /** The grants of e in the 600 s from a on are those of one window, the one opened from a on. */
  ghost predicate CountedByWindow(h: History, e: History, p: string, a: real) {
    var n := GrantCount(e, p, a + THROTTLE_WINDOW_SECONDS);
    var w := WindowOf(h + e, p);
    && n <= THROTTLE_MAX_REQUESTS
    && ((forall i | 0 <= i < |e| :: e[i].at < a + THROTTLE_WINDOW_SECONDS) ==>
          if w.Open? && w.start >= a then n <= w.count else n == 0 && w == WindowOf(h, p))
  }

  lemma CountedByWindowStep(h: History, e: History, c: Call, p: string, a: real)
    requires CountedByWindow(h, e, p, a) && !PartlyUsed(h, p, a) && Conforms(h + e + [c]) && c.at >= a
    ensures CountedByWindow(h, e + [c], p, a)
  {
    assert (h + e + [c])[..|h + e|] == h + e;
    assert h + (e + [c]) == h + e + [c];
    assert CallConforms(h + e, c);
    assert forall i | 0 <= i < |e| :: (h + e)[|h| + i] == e[i] && e[i].at <= c.at;
    CountStep(e, c, p, a + THROTTLE_WINDOW_SECONDS);
    WindowStep(h + e, c, p);
    WindowFacts(h + e + [c], p);
    if c.at < a + THROTTLE_WINDOW_SECONDS {
      assert forall i | 0 <= i < |e| :: e[i].at < a + THROTTLE_WINDOW_SECONDS;
    } else {
      assert (e + [c])[|e|] == c;
    }
  }

  lemma {:induction false} CountInWindow(h: History, e: History, p: string, a: real)
    requires Continuation(h, e, a) && !PartlyUsed(h, p, a)
    ensures CountedByWindow(h, e, p, a)
  {
    if e == [] {
      assert h + e == h;
    } else {
      var e0, c := e[..|e| - 1], e[|e| - 1];
      assert h + e == h + e0 + [c] && (h + e)[..|h + e| - 1] == h + e0;
      assert e == e0 + [c];
      CountInWindow(h, e0, p, a);
      CountedByWindowStep(h, e0, c, p, a);
    }
  }

  lemma AtMostThree(h: History, e: History, p: string, a: real)
    requires Continuation(h, e, a) && !PartlyUsed(h, p, a)
    ensures |GrantsFrom(h + e, |h|, p, a + THROTTLE_WINDOW_SECONDS)| <= THROTTLE_MAX_REQUESTS
  {
    CountInWindow(h, e, p, a);
    GrantsFromCount(h, e, p, a + THROTTLE_WINDOW_SECONDS);
  }

  lemma GrantFollows(h: History, c: Call, p: string)
    requires Conforms(h) && c.Request? && c.phone == p && c.granted && !Refuses(h, c.at, p)
    requires forall i | 0 <= i < |h| :: h[i].at <= c.at
    ensures Conforms(h + [c]) && forall i | 0 <= i < |h| + 1 :: (h + [c])[i].at <= c.at
  {
  }

  /** One code in the window open at a, and three as soon as it closes. */
  lemma FourCodes(h: History, p: string, a: real, q: Purpose, code: string) returns (e: History)
    requires Conforms(h) && (forall i | 0 <= i < |h| :: h[i].at <= a) && PartlyUsed(h, p, a)
    ensures Continuation(h, e, a) && GrantCount(e, p, a + THROTTLE_WINDOW_SECONDS) == 4
  {
    var c := Request(a, p, q, code, true);
    var d := Request(WindowOf(h, p).start + THROTTLE_WINDOW_SECONDS, p, q, code, true);
    GrantFollows(h, c, p);
    WindowStep(h, c, p);
    var h1 := h + [c];
    GrantFollows(h1, d, p);
    WindowStep(h1, d, p);
    GrantFollows(h1 + [d], d, p);
    WindowStep(h1 + [d], d, p);
    GrantFollows(h1 + [d] + [d], d, p);
    e := [c, d, d, d];
    assert h1 + [d] + [d] + [d] == h + e;
    FourCounted(c, d, p, a + THROTTLE_WINDOW_SECONDS);
  }

  lemma FourCounted(c: Call, d: Call, p: string, b: real)
    requires Grants(c, p) && Grants(d, p) && c.at < b && d.at < b
    ensures GrantCount([c, d, d, d], p, b) == 4
  {
    assert [c, d, d, d][..3] == [c, d, d] && [c, d, d][..2] == [c, d] && [c, d][..1] == [c] && [c][..0] == [];
    assert GrantCount([c], p, b) == 1 && GrantCount([c, d], p, b) == 2 && GrantCount([c, d, d], p, b) == 3;
  }

  /** From the moment a on, p is granted at most three codes within 600 s in every continuation of the history,
      exactly when its window is not partly used at a. */
  lemma ThreeInTenMinutesIff(h: History, p: string, a: real)
    requires Conforms(h) && forall i | 0 <= i < |h| :: h[i].at <= a
    ensures (forall e | Continuation(h, e, a) :: |GrantsFrom(h + e, |h|, p, a + THROTTLE_WINDOW_SECONDS)| <= THROTTLE_MAX_REQUESTS) <==>
            !PartlyUsed(h, p, a)
  {
    if PartlyUsed(h, p, a) {
      var e := FourCodes(h, p, a, Purpose.Register, "");
      GrantsFromCount(h, e, p, a + THROTTLE_WINDOW_SECONDS);
    } else {
      forall e | Continuation(h, e, a) ensures |GrantsFrom(h + e, |h|, p, a + THROTTLE_WINDOW_SECONDS)| <= THROTTLE_MAX_REQUESTS {
        AtMostThree(h, e, p, a);
      }
    }
  }

  // ---- How many wrong codes are compared ----

  /** Call i presented a wrong code that was compared with a stored one: a code was live and not yet blocked. */
  predicate Mismatch(h: History, i: int, p: string, q: Purpose)
    requires 0 <= i < |h|
  {
    var s := CodeOf(h[..i], p, q);
    && s.Code?
    && Misguesses(h[i], p, q, h[s.issue].code)
    && h[i].at < h[s.issue].at + OTP_TTL_SECONDS
    && s.wrong < MAX_VERIFY_ATTEMPTS
  }

  /** How many mismatches fell in [a, b). */
  function Mismatches(h: History, p: string, q: Purpose, a: real, b: real): nat {
    if h == [] then 0 else
      var n := |h| - 1;
      Mismatches(h[..n], p, q, a, b) + if Mismatch(h, n, p, q) && a <= h[n].at < b then 1 else 0
  }

  function IssueCount(h: History, p: string, q: Purpose, a: real, b: real): nat {
    if h == [] then 0 else
      var n := |h| - 1;
      IssueCount(h[..n], p, q, a, b) + if Issues(h[n], p, q) && a <= h[n].at < b then 1 else 0
  }

  lemma {:induction false} IssuesAreGrants(h: History, p: string, q: Purpose, a: real, b: real)
    ensures IssueCount(h, p, q, a, b) <= |GrantsIn(h, p, a, b)|
  {
    if h != [] {
      IssuesAreGrants(h[..|h| - 1], p, q, a, b);
      GrantsInStep(h, p, a, b);
    }
  }

  lemma {:induction false} NoMismatchBefore(h: History, p: string, q: Purpose, a: real, b: real)
    requires forall i | 0 <= i < |h| :: h[i].at < a
    ensures Mismatches(h, p, q, a, b) == 0
  {
    if h != [] {
      NoMismatchBefore(h[..|h| - 1], p, q, a, b);
    }
  }

  function GuessesLeft(s: CodeState): nat {
    if s.Code? && s.wrong < 5 then 5 - s.wrong else 0
  }

  /** Each issue grants five mismatches; one more code may have been live at a. */
  lemma {:induction false} MismatchCredit(h: History, p: string, q: Purpose, a: real, b: real)
    requires Conforms(h)
    requires forall i | 0 <= i < |h| :: h[i].at < b
    ensures Mismatches(h, p, q, a, b) + GuessesLeft(CodeOf(h, p, q)) <= 5 * IssueCount(h, p, q, a, b) + 5
  {
    if h != [] {
      var n := |h| - 1;
      MismatchCredit(h[..n], p, q, a, b);
      if Issues(h[n], p, q) && h[n].at < a {
        assert forall i | 0 <= i < n :: h[..n][i].at <= h[n].at;
        NoMismatchBefore(h[..n], p, q, a, b);
      }
    }
  }

  /** In any half-open interval of 600k seconds at most 15k + 15 wrong codes are compared for one (p, q):
      thirty in ten minutes. */
  lemma {:induction false} MismatchBound(h: History, p: string, q: Purpose, a: real, b: real, k: nat)
    requires Conforms(h) && b <= a + THROTTLE_WINDOW_SECONDS * k as real
    ensures Mismatches(h, p, q, a, b) <= 15 * k + 15
  {
    if h != [] {
      var n := |h| - 1;
      if h[n].at >= b {
        MismatchBound(h[..n], p, q, a, b, k);
      } else {
        assert forall i | 0 <= i < n :: h[i] == h[..n][i];
        MismatchCredit(h, p, q, a, b);
        IssuesAreGrants(h, p, q, a, b);
        ThrottleBound(h, p, a, b, k);
      }
    }
  }

}
