/** How many codes runs of requests send within ten minutes: when the documented three is right, and how five come about. */
module Bursts {
  import opened Text
  import opened TtlCache
  import opened OtpKeys
  import opened OtpHistory
  import opened OtpService
  import opened Accounts
  import opened AccountInvariant
  import opened AccountSteps
  import opened Sessions
  import opened Authority
  import opened Journeys

  /** The throttle counter of p reads one or two and runs out within 600 s, but not at the very end of them. */
  predicate CounterPartlyUsed(w: World, p: string) {
    && 0 < CountAt(w.store, w.now, ThrottleKey(p)) < THROTTLE_MAX_REQUESTS
    && w.store[ThrottleKey(p)].expiry < w.now + THROTTLE_WINDOW_SECONDS
  }

  lemma CounterExact(w: World, p: string)
    requires OtpOk(w) && ColonFree(p)
    ensures CounterPartlyUsed(w, p) <==> PartlyUsed(Calls(w.log), p, w.now)
  {
    assert PhoneReflects(w.store, w.now, Calls(w.log), p, Purpose.Register);
  }

  /** w' comes after w, with no event of an earlier moment. */
  ghost predicate Later(w: World, w': World) {
    w.log <= w'.log && forall i | |w.log| <= i < |w'.log| :: TimeOf(w'.log[i]) >= w.now
  }

  lemma {:induction false} LaterCalls(w: World, qs: seq<Request>)
    ensures Later(w, Run(w, qs)) && w.now <= Run(w, qs).now
  {
    if qs != [] {
      LaterCalls(w, qs[..|qs| - 1]);
      StepAdds(Run(w, qs[..|qs| - 1]), qs[|qs| - 1]);
    }
  }

  /** The positions from n on at which p is sent a code, before b. */
  ghost function SentFrom(log: seq<Event>, n: nat, p: string, b: real): set<int> {
    GrantsFrom(Calls(log), n, p, b)
  }

  /** How many codes are sent to p after w, up to w2, in the 600 s from w on. */
  ghost function CodesSent(w: World, w2: World, p: string): nat {
    |SentFrom(w2.log, |w.log|, p, w.now + THROTTLE_WINDOW_SECONDS)|
  }

  /** The throttle of p is a phone's: it can be asked for by its owner, an active and verified user. */
  predicate Owner(w: World, uid: nat, p: string) {
    uid < |w.users| && w.users[uid].phone == Some(p) && w.users[uid].active && w.users[uid].verified
  }

  function CodeCall(w: World, p: string, draw: Draw): Call {
    Call.Request(w.now, p, PasswordReset, CodeText(draw), true)
  }

  /** What counts for the requests of an owner: the identifier finds the row, the counter reflects the history. */
  predicate Ready(w: World, uid: nat, p: string) {
    && Owner(w, uid, p) && ColonFree(p) && First(w.users, Identifies(p)) == Some(uid)
    && ThrottleReflects(w.store, Calls(w.log), p)
  }

  lemma OwnerReady(w: World, uid: nat, p: string)
    requires Inv(w) && Owner(w, uid, p)
    ensures Ready(w, uid, p)
  {
    assert RowOk(w.users[uid], w.next);
    IdentifierUnique(w, uid, First(w.users, Identifies(p)).value, p);
    assert PhoneReflects(w.store, w.now, Calls(w.log), p, Purpose.Register);
  }

  function NextWindow(v: Window, at: real): Window {
    if v.Open? && at < v.start + THROTTLE_WINDOW_SECONDS then Open(v.start, v.count + 1) else Open(at, 1)
  }

  lemma AskedLogs(w: World, uid: nat, p: string, draw: Draw)
    requires Ready(w, uid, p) && !Refuses(Calls(w.log), w.now, p)
    ensures var w' := Step(w, ForgotRequest(p, draw)).world;
            && w' == w.(store := AfterRequest(w.store, w.now, p, PasswordReset, CodeText(draw)), log := w.log + [Called(CodeCall(w, p, draw))])
            && RequestCall(w.store, w.now, p, PasswordReset, CodeText(draw)) == CodeCall(w, p, draw)
  {
  }

  /** A request of the owner that the throttle lets through. */
  lemma Asked(w: World, uid: nat, p: string, draw: Draw)
    requires Ready(w, uid, p) && !Refuses(Calls(w.log), w.now, p)
    ensures var w' := Step(w, ForgotRequest(p, draw)).world;
            && Ready(w', uid, p) && w'.now == w.now && w'.log == w.log + [Called(CodeCall(w, p, draw))]
            && WindowOf(Calls(w'.log), p) == NextWindow(WindowOf(Calls(w.log), p), w.now)
  {
    AskedLogs(w, uid, p, draw);
    CallsStep(w.log, Called(CodeCall(w, p, draw)));
    WindowStep(Calls(w.log), CodeCall(w, p, draw), p);
    RequestKeepsThrottle(w.store, w.now, Calls(w.log), p, PasswordReset, CodeText(draw), p);
  }

  /** Three codes at one moment, when no window is open. */
  lemma ThreeAsked(w: World, uid: nat, p: string, draw: Draw)
    requires Ready(w, uid, p)
    requires var v := WindowOf(Calls(w.log), p); v.Open? ==> w.now >= v.start + THROTTLE_WINDOW_SECONDS
    ensures var c := Called(CodeCall(w, p, draw));
            Run(w, [ForgotRequest(p, draw), ForgotRequest(p, draw), ForgotRequest(p, draw)]).log == w.log + [c] + [c] + [c]
  {
    var r := ForgotRequest(p, draw);
    RunThree(w, r, r, r);
    Asked(w, uid, p, draw);
    var w1 := Step(w, r).world;
    Asked(w1, uid, p, draw);
    Asked(Step(w1, r).world, uid, p, draw);
  }

  /** One code, a pause of dt, and three more. */
  function FourAsks(p: string, draw: Draw, dt: real): seq<Request> {
    [ForgotRequest(p, draw), Wait(dt)] + [ForgotRequest(p, draw), ForgotRequest(p, draw), ForgotRequest(p, draw)]
  }

  lemma RunOne(w: World, a: Request)
    ensures Run(w, [a]) == Step(w, a).world
  {
    assert [a][..0] == [];
  }

  lemma RunTwo(w: World, a: Request, b: Request)
    ensures Run(w, [a, b]) == Step(Step(w, a).world, b).world
  {
    assert [a, b][..1] == [a] && [a][..0] == [];
    assert Run(w, [a]) == Step(w, a).world;
  }

  ghost predicate FourLogged(w: World, w': World, c: Call, d: Call, p: string) {
    && w'.log == w.log + [Called(c), Called(d), Called(d), Called(d)]
    && Grants(c, p) && Grants(d, p) && c.at == w.now && d.at < w.now + THROTTLE_WINDOW_SECONDS
  }

  lemma AskedAndPaused(w: World, uid: nat, p: string, draw: Draw, dt: real)
    requires Ready(w, uid, p) && PartlyUsed(Calls(w.log), p, w.now) && dt >= 0.0
    ensures var w2 := Step(Step(w, ForgotRequest(p, draw)).world, Wait(dt)).world;
            && Ready(w2, uid, p) && w2.now == w.now + dt && w2.log == w.log + [Called(CodeCall(w, p, draw))]
            && WindowOf(Calls(w2.log), p).Open? && WindowOf(Calls(w2.log), p).start == WindowOf(Calls(w.log), p).start
  {
    Asked(w, uid, p, draw);
  }

  lemma FourAsksRun(w: World, p: string, draw: Draw, dt: real)
    ensures Run(w, FourAsks(p, draw, dt)) ==
            Run(Step(Step(w, ForgotRequest(p, draw)).world, Wait(dt)).world, [ForgotRequest(p, draw), ForgotRequest(p, draw), ForgotRequest(p, draw)])
  {
    RunTwo(w, ForgotRequest(p, draw), Wait(dt));
    RunConcat(w, [ForgotRequest(p, draw), Wait(dt)], [ForgotRequest(p, draw), ForgotRequest(p, draw), ForgotRequest(p, draw)]);
  }

  /** A partly used window takes one more code, and three as soon as it closes. */
  lemma FourRun(w: World, uid: nat, p: string, draw: Draw, dt: real) returns (c: Call, d: Call)
    requires Ready(w, uid, p) && PartlyUsed(Calls(w.log), p, w.now)
    requires w.now + dt == WindowOf(Calls(w.log), p).start + THROTTLE_WINDOW_SECONDS
    ensures FourLogged(w, Run(w, FourAsks(p, draw, dt)), c, d, p) && d.at == w.now + dt
  {
    var w2 := Step(Step(w, ForgotRequest(p, draw)).world, Wait(dt)).world;
    AskedAndPaused(w, uid, p, draw, dt);
    c, d := CodeCall(w, p, draw), CodeCall(w2, p, draw);
    ThreeAsked(w2, uid, p, draw);
    FourAsksRun(w, p, draw, dt);
  }

  lemma ThreeBetween(w: World, w': World, p: string)
    requires OtpOk(w) && OtpOk(w') && Later(w, w') && ColonFree(p) && !CounterPartlyUsed(w, p)
    ensures CodesSent(w, w', p) <= THROTTLE_MAX_REQUESTS
  {
    CounterExact(w, p);
    var h, e := Calls(w.log), Calls(w'.log)[|w.log|..];
    assert Calls(w'.log) == h + e;
    AtMostThree(h, e, p, w.now);
  }

  lemma Reached(w0: World, rs: seq<Request>, qs: seq<Request>)
    requires Init(w0)
    ensures var w := Run(w0, rs); OtpOk(w) && OtpOk(Run(w, qs)) && Later(w, Run(w, qs))
  {
    RunKeeps(w0, rs);
    RunContinues(Run(w0, rs), qs);
    LaterCalls(Run(w0, rs), qs);
  }

  /** Whatever requests follow, p is sent at most three codes in the next 600 s, unless its counter is partly used. */
  lemma ThreeSent(w0: World, rs: seq<Request>, p: string, qs: seq<Request>)
    requires Init(w0) && ColonFree(p) && !CounterPartlyUsed(Run(w0, rs), p)
    ensures CodesSent(Run(w0, rs), Run(Run(w0, rs), qs), p) <= THROTTLE_MAX_REQUESTS
  {
    Reached(w0, rs, qs);
    ThreeBetween(Run(w0, rs), Run(Run(w0, rs), qs), p);
  }

  // ---- By way of a registration: the code it sends makes an owner ----

  /** Served at w, the request sends p a code. */
  ghost predicate Sends(w: World, r: Request, p: string) {
    var log := Step(w, r).world.log;
    exists k :: |w.log| <= k < |log| && log[k].Called? && Grants(log[k].call, p)
  }

  lemma SenderIs(w: World, r: Request, p: string)
    requires Sends(w, r, p)
    ensures (r.Register? && r.phone == p && DoRegister(w, r).response.Done?) || exists uid: nat :: Owner(w, uid, p)
  {
    var log := Step(w, r).world.log;
    var k :| |w.log| <= k < |log| && log[k].Called? && Grants(log[k].call, p);
    SendAuthorised(w, r);
    assert MaySend(w, r, log[k].call);
    if log[k].call.purpose.PasswordReset? {
      var uid :| 0 <= uid < |w.users| && w.users[uid].phone == Some(p) && Matches(w.users[uid], Identifies(r.identifier)) && w.users[uid].active && w.users[uid].verified;
      assert Owner(w, uid, p);
    }
  }

  /** From w to w2, at one moment, p is sent at least one code; it has an owner then, and its window is the same. */
  ghost predicate OneMore(w: World, w2: World, uid: nat, p: string) {
    && Ready(w2, uid, p) && w2.now == w.now && |w.log| <= |w2.log|
    && CodesSent(w, w2, p) >= 1
    && WindowOf(Calls(w.log), p).Open? && WindowOf(Calls(w2.log), p).Open?
    && WindowOf(Calls(w2.log), p).start == WindowOf(Calls(w.log), p).start
  }

  lemma SentOne(log: seq<Event>, n: nat, i: int, p: string, b: real)
    requires n <= i < |log| && log[i].Called? && Grants(log[i].call, p) && log[i].call.at < b
    ensures |SentFrom(log, n, p, b)| >= 1
  {
    assert i in SentFrom(log, n, p, b);
  }

  lemma SameWindow(log: seq<Event>, n: nat, p: string, a: real)
    requires n <= |log| && PartlyUsed(Calls(log[..n]), p, a) && forall i | 0 <= i < |log| :: TimeOf(log[i]) <= a
    ensures WindowOf(Calls(log), p).Open? && WindowOf(Calls(log), p).start == WindowOf(Calls(log[..n]), p).start
  {
    assert Calls(log) == Calls(log[..n]) + Calls(log)[n..];
    WindowHolds(Calls(log[..n]), Calls(log)[n..], p);
  }

  lemma NoneLater(w: World)
    requires OtpOk(w)
    ensures forall i | 0 <= i < |w.log| :: TimeOf(w.log[i]) <= w.now
  {
    assert forall i | 0 <= i < |w.log| :: Calls(w.log)[i].at == TimeOf(w.log[i]);
  }

  lemma SentOneMore(w: World, w2: World, uid: nat, p: string, i: int)
    requires PartlyUsed(Calls(w.log), p, w.now) && w.log <= w2.log && w2.now == w.now && OtpOk(w2) && Ready(w2, uid, p)
    requires |w.log| <= i < |w2.log| && w2.log[i].Called? && Grants(w2.log[i].call, p) && w2.log[i].call.at == w.now
    ensures OneMore(w, w2, uid, p)
  {
    NoneLater(w2);
    assert w2.log[..|w.log|] == w.log;
    SameWindow(w2.log, |w.log|, p, w.now);
    SentOne(w2.log, |w.log|, i, p, w.now + THROTTLE_WINDOW_SECONDS);
  }

  lemma AskFirst(w: World, uid: nat, p: string)
    requires Inv(w) && Owner(w, uid, p) && PartlyUsed(Calls(w.log), p, w.now)
    ensures OneMore(w, Step(w, ForgotRequest(p, 0)).world, uid, p)
  {
    OwnerReady(w, uid, p);
    AskedLogs(w, uid, p, 0);
    StepKeeps(w, ForgotRequest(p, 0));
    OwnerReady(Step(w, ForgotRequest(p, 0)).world, uid, p);
    SentOneMore(w, Step(w, ForgotRequest(p, 0)).world, uid, p, |w.log|);
  }

  lemma Activated(w: World, r: Request)
    requires Inv(w) && r.Register? && DoRegister(w, r).response.Done?
    ensures var w2 := DoVerifyCode(DoRegister(w, r).world, r.phone, CodeText(r.draw)).world;
            Inv(w2) && Owner(w2, RegistrationRow(w, r.phone), r.phone)
  {
    var w1 := DoRegister(w, r).world;
    Registered(w, r);
    NewCodeStands(w1.log, r.phone, Purpose.Register);
    OpenRegistration(w, r, []);
    VerifyCodeKeeps(w1, r.phone, CodeText(r.draw));
  }

  lemma JoinLogs(w: World, r: Request)
    requires r.Register? && DoRegister(w, r).response.Done?
    ensures var w2 := DoVerifyCode(DoRegister(w, r).world, r.phone, CodeText(r.draw)).world;
            && w2.now == w.now && w.log <= w2.log && |w2.log| >= |w.log| + 2
            && w2.log[|w.log| + 1] == Called(Call.Request(w.now, r.phone, Purpose.Register, CodeText(r.draw), true))
  {
    StepAdds(DoRegister(w, r).world, VerifyCode(r.phone, CodeText(r.draw)));
  }

  /** A registration and the redemption of its code, at one moment. */
  lemma JoinFirst(w: World, r: Request)
    requires Inv(w) && r.Register? && DoRegister(w, r).response.Done? && PartlyUsed(Calls(w.log), r.phone, w.now)
    ensures OneMore(w, DoVerifyCode(DoRegister(w, r).world, r.phone, CodeText(r.draw)).world, RegistrationRow(w, r.phone), r.phone)
  {
    var w2 := DoVerifyCode(DoRegister(w, r).world, r.phone, CodeText(r.draw)).world;
    Activated(w, r);
    JoinLogs(w, r);
    OwnerReady(w2, RegistrationRow(w, r.phone), r.phone);
    SentOneMore(w, w2, RegistrationRow(w, r.phone), r.phone, |w.log| + 1);
  }

  /** A pause until no window is open, and three codes. */
  lemma PausedAndAsked(w: World, uid: nat, p: string, dt: real) returns (more: seq<Request>, d: Call)
    requires Ready(w, uid, p) && dt >= 0.0
    requires var v := WindowOf(Calls(w.log), p); v.Open? ==> w.now + dt >= v.start + THROTTLE_WINDOW_SECONDS
    ensures d == Call.Request(w.now + dt, p, PasswordReset, CodeText(0), true)
    ensures Run(w, more).log == w.log + [Called(d), Called(d), Called(d)]
  {
    var w2 := Run(w, [Wait(dt)]);
    var three := [ForgotRequest(p, 0), ForgotRequest(p, 0), ForgotRequest(p, 0)];
    Waited(w, dt);
    ThreeAsked(w2, uid, p, 0);
    RunConcat(w, [Wait(dt)], three);
    more, d := [Wait(dt)] + three, CodeCall(w2, p, 0);
  }

  lemma SentMore(w: World, w2: World, w3: World, uid: nat, d: Call, p: string)
    requires OneMore(w, w2, uid, p) && w3.log == w2.log + [Called(d), Called(d), Called(d)]
    requires Grants(d, p) && d.at < w.now + THROTTLE_WINDOW_SECONDS
    ensures CodesSent(w, w3, p) > THROTTLE_MAX_REQUESTS
  {
    SentThree(w2.log, |w.log|, d, p, w.now + THROTTLE_WINDOW_SECONDS);
  }

  lemma PausedAfter(w: World, qs: seq<Request>, uid: nat, p: string) returns (more: seq<Request>, d: Call)
    requires PartlyUsed(Calls(w.log), p, w.now) && OneMore(w, Run(w, qs), uid, p)
    ensures Grants(d, p) && d.at < w.now + THROTTLE_WINDOW_SECONDS
    ensures Run(w, more).log == Run(w, qs).log + [Called(d), Called(d), Called(d)]
  {
    more, d := PausedAndAsked(Run(w, qs), uid, p, WindowOf(Calls(w.log), p).start + THROTTLE_WINDOW_SECONDS - w.now);
    RunConcat(w, qs, more);
    more := qs + more;
  }

  /** A code of the partly used window by the run qs, and three as soon as the window closes. */
  lemma ThreeLater(w: World, qs: seq<Request>, uid: nat, p: string) returns (more: seq<Request>)
    requires PartlyUsed(Calls(w.log), p, w.now) && OneMore(w, Run(w, qs), uid, p)
    ensures CodesSent(w, Run(w, more), p) > THROTTLE_MAX_REQUESTS
  {
    var d;
    more, d := PausedAfter(w, qs, uid, p);
    SentMore(w, Run(w, qs), Run(w, more), uid, d, p);
  }

  lemma SentThree(log: seq<Event>, n: nat, d: Call, p: string, b: real)
    requires n <= |log| && Grants(d, p) && d.at < b
    ensures |SentFrom(log + [Called(d), Called(d), Called(d)], n, p, b)| == |SentFrom(log, n, p, b)| + 3
  {
    var h := Calls(log);
    assert Calls(log + [Called(d), Called(d), Called(d)]) == h + [d] + [d] + [d];
    GrantsFromStep(h, d, n, p, b);
    GrantsFromStep(h + [d], d, n, p, b);
    GrantsFromStep(h + [d] + [d], d, n, p, b);
  }

  lemma AskRun(w: World, uid: nat, p: string) returns (qs: seq<Request>)
    requires Inv(w) && Owner(w, uid, p) && PartlyUsed(Calls(w.log), p, w.now)
    ensures OneMore(w, Run(w, qs), uid, p)
  {
    AskFirst(w, uid, p);
    RunOne(w, ForgotRequest(p, 0));
    qs := [ForgotRequest(p, 0)];
  }

  lemma JoinRun(w: World, r: Request) returns (qs: seq<Request>)
    requires Inv(w) && r.Register? && DoRegister(w, r).response.Done? && PartlyUsed(Calls(w.log), r.phone, w.now)
    ensures OneMore(w, Run(w, qs), RegistrationRow(w, r.phone), r.phone)
  {
    JoinFirst(w, r);
    RunTwo(w, r, VerifyCode(r.phone, CodeText(r.draw)));
    qs := [r, VerifyCode(r.phone, CodeText(r.draw))];
  }

  lemma FirstRun(w0: World, rs: seq<Request>, r: Request, p: string) returns (qs: seq<Request>, uid: nat)
    requires Init(w0) && ColonFree(p) && Sends(Run(w0, rs), r, p) && CounterPartlyUsed(Run(w0, rs), p)
    ensures var w := Run(w0, rs); PartlyUsed(Calls(w.log), p, w.now) && OneMore(w, Run(w, qs), uid, p)
  {
    var w := Run(w0, rs);
    RunKeeps(w0, rs);
    CounterExact(w, p);
    SenderIs(w, r, p);
    if v: nat :| Owner(w, v, p) {
      uid := v;
      qs := AskRun(w, v, p);
    } else {
      uid := RegistrationRow(w, p);
      qs := JoinRun(w, r);
    }
  }

  lemma MoreThanThree(w0: World, rs: seq<Request>, r: Request, p: string) returns (more: seq<Request>)
    requires Init(w0) && ColonFree(p) && Sends(Run(w0, rs), r, p) && CounterPartlyUsed(Run(w0, rs), p)
    ensures CodesSent(Run(w0, rs), Run(Run(w0, rs), more), p) > THROTTLE_MAX_REQUESTS
  {
    var qs, uid := FirstRun(w0, rs, r, p);
    more := ThreeLater(Run(w0, rs), qs, uid, p);
  }

  /** From any reachable state in which some request can send p a code, p is sent at most three codes in the next
      600 s in every continuation, exactly when its counter is not partly used. */
  lemma ThreeSentIff(w0: World, rs: seq<Request>, p: string)
    requires Init(w0) && ColonFree(p)
    ensures var w := Run(w0, rs);
            (exists r :: Sends(w, r, p)) ==>
              ((forall qs :: CodesSent(w, Run(w, qs), p) <= THROTTLE_MAX_REQUESTS) <==> !CounterPartlyUsed(w, p))
  {
    if CounterPartlyUsed(Run(w0, rs), p) {
      if r :| Sends(Run(w0, rs), r, p) {
        var more := MoreThanThree(w0, rs, r, p);
      }
    } else {
      forall qs ensures CodesSent(Run(w0, rs), Run(Run(w0, rs), qs), p) <= THROTTLE_MAX_REQUESTS {
        ThreeSent(w0, rs, p, qs);
      }
    }
  }

  /** One code, another 599 s later. */
  lemma TwoRun(w: World, uid: nat, p: string, draw: Draw) returns (a: Call, b: Call)
    requires Ready(w, uid, p) && w.log == []
    ensures var w' := Run(w, [ForgotRequest(p, draw), Wait(599.0), ForgotRequest(p, draw)]);
            && Ready(w', uid, p) && w'.now == w.now + 599.0 && w'.log == [Called(a), Called(b)]
            && Grants(a, p) && Grants(b, p) && a.at == w.now && b.at == w'.now && WindowOf(Calls(w'.log), p) == Open(w.now, 2)
  {
    var r := ForgotRequest(p, draw);
    RunThree(w, r, Wait(599.0), r);
    Asked(w, uid, p, draw);
    var w2 := Step(Step(w, r).world, Wait(599.0)).world;
    Asked(w2, uid, p, draw);
    a, b := CodeCall(w, p, draw), CodeCall(w2, p, draw);
  }

  /** One code, then two just before its window closes, and three when it has. */
  function SixAsks(p: string, draw: Draw): seq<Request> {
    [ForgotRequest(p, draw), Wait(599.0), ForgotRequest(p, draw)] + FourAsks(p, draw, 1.0)
  }

  lemma FiveGrants(log: seq<Event>, a: Call, b: Call, c: Call, d: Call, p: string, from: real)
    requires log == [Called(a), Called(b), Called(c), Called(d), Called(d), Called(d)]
    requires Grants(a, p) && Grants(b, p) && Grants(c, p) && Grants(d, p)
    requires a.at < from <= b.at && from <= c.at && from <= d.at
    requires b.at < from + THROTTLE_WINDOW_SECONDS && c.at < from + THROTTLE_WINDOW_SECONDS && d.at < from + THROTTLE_WINDOW_SECONDS
    ensures |GrantsIn(Calls(log), p, from, from + THROTTLE_WINDOW_SECONDS)| == 5
  {
    assert Calls(log) == [a, b, c, d, d, d];
    assert GrantsIn(Calls(log), p, from, from + THROTTLE_WINDOW_SECONDS) == {1, 2, 3, 4, 5};
  }

  lemma FiveRun(w: World, uid: nat, p: string, draw: Draw)
    requires Ready(w, uid, p) && w.log == []
    ensures |GrantsIn(Calls(Run(w, SixAsks(p, draw)).log), p, w.now + 1.0, w.now + 1.0 + THROTTLE_WINDOW_SECONDS)| == 5
  {
    var first := [ForgotRequest(p, draw), Wait(599.0), ForgotRequest(p, draw)];
    var a, b := TwoRun(w, uid, p, draw);
    var c, d := FourRun(Run(w, first), uid, p, draw, 1.0);
    RunConcat(w, first, FourAsks(p, draw, 1.0));
    FiveGrants(Run(w, SixAsks(p, draw)).log, a, b, c, d, p, w.now + 1.0);
  }

  /** From any starting state, that run sends a verified user's phone five codes within ten minutes, the most that
      any run can. */
  lemma FiveCodesInTenMinutes(w0: World, uid: nat, p: string, draw: Draw)
    requires Init(w0) && Owner(w0, uid, p)
    ensures |GrantsIn(Calls(Run(w0, SixAsks(p, draw)).log), p, w0.now + 1.0, w0.now + 1.0 + THROTTLE_WINDOW_SECONDS)| == 5
  {
    InitInv(w0);
    OwnerReady(w0, uid, p);
    FiveRun(w0, uid, p, draw);
  }

  /** A starting state with such a user. */
  lemma SampleOwner(now: real)
    ensures Init(SampleServer(now)) && Owner(SampleServer(now), 0, "09123456789")
  {
  }
}
