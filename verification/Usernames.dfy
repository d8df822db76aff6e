/** The username rule of accounts/models.py and the generator of accounts/services/google_auth.py. */
module Usernames {
  import opened Text

  predicate UsernameChar(c: char) {
    'A' <= c <= 'Z' || 'a' <= c <= 'z' || '0' <= c <= '9' || c == '.' || c == '_'
  }

  predicate NoDoubleDot(s: string) {
    forall i | 0 <= i < |s| - 1 :: !(s[i] == '.' && s[i + 1] == '.')
  }

  predicate EndsWithDot(s: string) {
    s != "" && s[|s| - 1] == '.'
  }

  predicate WellFormedUsername(s: string) {
    && 3 <= |s| <= 30
    && (forall i | 0 <= i < |s| :: UsernameChar(s[i]))
    && s[0] != '.' && !EndsWithDot(s) && NoDoubleDot(s)
  }

  /** username_regex: "$" also matches just before one final newline. */
  predicate UsernameRegex(s: string) {
    WellFormedUsername(s) || (s != "" && s[|s| - 1] == '\n' && WellFormedUsername(s[..|s| - 1]))
  }

  function LocalPart(email: string): string {
    if email == "" || email[0] == '@' then "" else [email[0]] + LocalPart(email[1..])
  }

  function KeepAllowed(s: string): (r: string)
    ensures forall i | 0 <= i < |r| :: UsernameChar(r[i])
  {
    if s == "" then "" else (if UsernameChar(s[0]) then [s[0]] else "") + KeepAllowed(s[1..])
  }

  function StripDots(s: string): (r: string)
    ensures r != "" ==> r[0] != '.' && !EndsWithDot(r)
    ensures (forall i | 0 <= i < |s| :: UsernameChar(s[i])) ==> forall i | 0 <= i < |r| :: UsernameChar(r[i])
  {
    if s == "" then ""
    else if s[0] == '.' then StripDots(s[1..])
    else if EndsWithDot(s) then StripDots(s[..|s| - 1])
    else s
  }

  function Zeros(n: nat): (z: string)
    ensures |z| == n && forall i | 0 <= i < n :: z[i] == '0'
  {
    seq(n, i => '0')
  }

  /** Cut to 24 characters, never empty, padded to three. */
  function Fitted(cleaned: string): string {
    var cut := if |cleaned| > 24 then cleaned[..24] else cleaned;
    var base := if cut == "" then "user" else cut;
    if |base| < 3 then base + Zeros(3 - |base|) else base
  }

  /** The cleaned and fitted start of every candidate. */
  function Base(email: string): string {
    Fitted(StripDots(KeepAllowed(LocalPart(email))))
  }

  lemma BaseShape(email: string)
    ensures var b := Base(email);
            3 <= |b| <= 24 && b[0] != '.' && forall i | 0 <= i < |b| :: UsernameChar(b[i])
  {
  }

  /** What secrets.randbelow(9000) draws. */
  type SuffixDraw = n: nat | n < 9000

  function Suffix(draw: SuffixDraw): (t: string)
    ensures |t| == 4 && forall i | 0 <= i < 4 :: '0' <= t[i] <= '9'
  {
    assert Power10(3) == 1000 && Power10(4) == 10000;
    DecimalLength(draw + 1000, 4);
    Decimal(draw + 1000)
  }

  /** The base, then the base with one random four-digit suffix after another. */
  function Candidate(base: string, draws: seq<SuffixDraw>, k: nat): string
    requires k <= |draws|
  {
    if k == 0 then base else base + Suffix(draws[k - 1])
  }

  /** Candidate r is the first one not taken; none is among them if the loop outlasts the draws. */
  ghost predicate FirstFree(taken: set<string>, base: string, draws: seq<SuffixDraw>, r: Option<string>) {
    if r.Some? then
      r.value !in taken && exists k | 0 <= k <= |draws| ::
        r.value == Candidate(base, draws, k) && forall j | 0 <= j < k :: Candidate(base, draws, j) in taken
    else
      forall j | 0 <= j <= |draws| :: Candidate(base, draws, j) in taken
  }

  /** The loop, over the random draws it will make; None when every one is used up and it is still running. */
  method Retry(taken: set<string>, base: string, draws: seq<SuffixDraw>) returns (r: Option<string>)
    ensures FirstFree(taken, base, draws, r)
  {
    var username := base;
    var i := 0;
    while username in taken
      invariant 0 <= i <= |draws| && username == Candidate(base, draws, i)
      invariant forall j | 0 <= j < i :: Candidate(base, draws, j) in taken
      decreases |draws| - i
    {
      if i == |draws| {
        return None;
      }
      username := base + Suffix(draws[i]);
      i := i + 1;
    }
    r := Some(username);
  }

  method Fit(cleaned: string) returns (base: string)
    ensures base == Fitted(cleaned)
  {
    base := if |cleaned| > 24 then cleaned[..24] else cleaned;
    if base == "" {
      base := "user";
    }
    if |base| < 3 {
      base := base + Zeros(3 - |base|);
    }
  }

  /** _generate_unique_username */
  method GenerateUniqueUsername(taken: set<string>, email: string, draws: seq<SuffixDraw>) returns (r: Option<string>)
    ensures FirstFree(taken, Base(email), draws, r)
  {
    var base := Fit(StripDots(KeepAllowed(LocalPart(email))));
    r := Retry(taken, base, draws);
  }

  /** Every candidate is 3 to 28 characters of the alphabet without a leading dot, and it matches username_regex
      exactly when the base has no "..", and does not end in a dot that no suffix follows. */
  lemma CandidateMatchesIff(email: string, draws: seq<SuffixDraw>, k: nat)
    requires k <= |draws|
    ensures var u := Candidate(Base(email), draws, k);
            && 3 <= |u| <= 28 && u[0] != '.' && (forall i | 0 <= i < |u| :: UsernameChar(u[i]))
            && (UsernameRegex(u) <==> NoDoubleDot(Base(email)) && (k == 0 ==> !EndsWithDot(Base(email))))
  {
    BaseShape(email);
    var b, u := Base(email), Candidate(Base(email), draws, k);
    if k > 0 {
      var d := Suffix(draws[k - 1]);
      assert forall i | 0 <= i < |d| :: UsernameChar(d[i]);
      assert forall i | 0 <= i < |b| :: u[i] == b[i];
      assert forall i | |b| <= i < |u| :: u[i] == d[i - |b|];
      assert NoDoubleDot(u) ==> NoDoubleDot(b) by {
        if !NoDoubleDot(b) {
          var i :| 0 <= i < |b| - 1 && b[i] == '.' && b[i + 1] == '.';
          assert u[i] == '.' && u[i + 1] == '.';
        }
      }
    }
    assert UsernameChar(u[|u| - 1]);
  }

  // ---- Each part of the generator, told without it ----

  /** The local part is what comes before the first "@", or the whole text. */
  lemma {:induction false} LocalPartExact(email: string)
    ensures '@' !in LocalPart(email) && LocalPart(email) <= email
    ensures |LocalPart(email)| < |email| ==> email[|LocalPart(email)|] == '@'
  {
    if email != "" && email[0] != '@' {
      LocalPartExact(email[1..]);
    }
  }

  /** Cleaning treats each character by itself: it keeps the allowed ones and drops the others. */
  lemma {:induction false} KeepAllowedExact(a: string, b: string)
    ensures KeepAllowed(a + b) == KeepAllowed(a) + KeepAllowed(b)
    ensures |a| == 1 ==>
              KeepAllowed(a) == if 'A' <= a[0] <= 'Z' || 'a' <= a[0] <= 'z' || '0' <= a[0] <= '9' || a[0] == '.' || a[0] == '_' then a else ""
  {
    if a == "" {
      assert a + b == b;
    } else {
      var kept := if UsernameChar(a[0]) then [a[0]] else "";
      assert (a + b)[0] == a[0] && (a + b)[1..] == a[1..] + b;
      KeepAllowedExact(a[1..], b);
      assert KeepAllowed(a + b) == kept + (KeepAllowed(a[1..]) + KeepAllowed(b));
    }
  }

  ghost predicate IsStripped(s: string, r: string, i: nat, j: nat) {
    && i <= j <= |s| && r == s[i..j]
    && (forall k | 0 <= k < i :: s[k] == '.') && (forall k | j <= k < |s| :: s[k] == '.')
    && (r != "" ==> r[0] != '.' && r[|r| - 1] != '.')
  }

  lemma StrippedFront(s: string, r: string, i: nat, j: nat)
    requires s != "" && s[0] == '.' && IsStripped(s[1..], r, i, j)
    ensures IsStripped(s, r, i + 1, j + 1)
  {
    assert forall k | 1 <= k < |s| :: s[k] == s[1..][k - 1];
    assert s[1..][i..j] == s[i + 1..j + 1];
  }

  lemma StrippedBack(s: string, r: string, i: nat, j: nat)
    requires s != "" && s[|s| - 1] == '.' && IsStripped(s[..|s| - 1], r, i, j)
    ensures IsStripped(s, r, i, j)
  {
    assert forall k | 0 <= k < |s| - 1 :: s[k] == s[..|s| - 1][k];
    assert s[..|s| - 1][i..j] == s[i..j];
  }

  /** Stripping takes away dots at both ends, and all of them. */
  lemma {:induction false} StripDotsExact(s: string) returns (i: nat, j: nat)
    ensures IsStripped(s, StripDots(s), i, j)
  {
    if s == "" {
      i, j := 0, 0;
    } else if s[0] == '.' {
      var i', j' := StripDotsExact(s[1..]);
      StrippedFront(s, StripDots(s), i', j');
      i, j := i' + 1, j' + 1;
    } else if EndsWithDot(s) {
      i, j := StripDotsExact(s[..|s| - 1]);
      StrippedBack(s, StripDots(s), i, j);
    } else {
      i, j := 0, |s|;
      assert s[0..|s|] == s;
    }
  }

  /** Fitting cuts to 24 characters, falls back on "user", and pads with zeros to three. */
  lemma FittedExact(s: string)
    ensures |s| > 24 ==> Fitted(s) == s[..24]
    ensures 3 <= |s| <= 24 ==> Fitted(s) == s
    ensures |s| == 2 ==> Fitted(s) == s + "0"
    ensures |s| == 1 ==> Fitted(s) == s + "00"
    ensures |s| == 0 ==> Fitted(s) == "user"
  {
  }

  /** The suffix of a draw is the four-digit text of draw + 1000. */
  lemma SuffixExact(draw: SuffixDraw)
    ensures Digits(Suffix(draw)) && |Suffix(draw)| == 4 && Number(Suffix(draw)) == draw + 1000
  {
    NumberOfDecimal(draw + 1000);
  }

  /** An address whose generated name breaks the rule the generator is meant to follow. */
  lemma DoubleDotSurvives()
    ensures Base("a..b@x.ir") == "a..b" && !UsernameRegex("a..b")
  {
    var s := "a..b@x.ir";
    assert LocalPart(s[4..]) == "";
    assert s[1..][1..][1..][1..] == s[4..];
    assert LocalPart(s) == "a..b";
    var t := "a..b";
    assert t[1..][1..][1..] == "b";
    assert KeepAllowed("b") == "b";
    assert KeepAllowed(t) == t;
    assert t[1] == '.' && t[2] == '.';
  }

  lemma {:induction false} LocalPartOf(name: string, host: string)
    requires '@' !in name
    ensures LocalPart(name + "@" + host) == name
  {
    var s := name + "@" + host;
    if name != "" {
      assert s[1..] == name[1..] + "@" + host;
      LocalPartOf(name[1..], host);
      assert name == [name[0]] + name[1..];
    }
  }

  lemma {:induction false} KeepAllowedId(s: string)
    requires forall i | 0 <= i < |s| :: UsernameChar(s[i])
    ensures KeepAllowed(s) == s
  {
    if s != "" {
      KeepAllowedId(s[1..]);
      assert s == [s[0]] + s[1..];
    }
  }

  /** An address whose local part already is a username of at most 24 characters keeps it as its base. */
  lemma UsernameKept(name: string, host: string)
    requires WellFormedUsername(name) && |name| <= 24
    ensures Base(name + "@" + host) == name
  {
    assert '@' !in name by {
      assert !UsernameChar('@');
    }
    LocalPartOf(name, host);
    KeepAllowedId(name);
  }
}
