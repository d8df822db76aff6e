/** Optional values and the decimal text of a number. */
module Text {
  datatype Option<+T> = None | Some(value: T)

  /** The decimal text of n, as an f-string renders it. */
  function Decimal(n: nat): (s: string)
    ensures |s| >= 1
    ensures forall i | 0 <= i < |s| :: '0' <= s[i] <= '9'
  {
    if n < 10 then ["0123456789"[n]] else Decimal(n / 10) + ["0123456789"[n % 10]]
  }

  lemma {:induction false} DecimalLength(n: nat, k: nat)
    requires k >= 1 && Power10(k - 1) <= n < Power10(k)
    ensures |Decimal(n)| == k
  {
    if k > 1 {
      DecimalLength(n / 10, k - 1);
    }
  }

  function Power10(k: nat): nat {
    if k == 0 then 1 else 10 * Power10(k - 1)
  }

  predicate Digits(s: string) {
    forall i | 0 <= i < |s| :: '0' <= s[i] <= '9'
  }

  /** The number that a text of digits stands for. */
  function Number(s: string): nat
    requires Digits(s)
  {
    if s == "" then 0 else 10 * Number(s[..|s| - 1]) + (s[|s| - 1] as int - '0' as int)
  }

  lemma DigitOf(d: nat)
    requires d < 10
    ensures '0' <= "0123456789"[d] <= '9' && "0123456789"[d] as int - '0' as int == d
  {
  }

  lemma NumberSnoc(t: string, c: char)
    requires Digits(t) && '0' <= c <= '9'
    ensures Digits(t + [c]) && Number(t + [c]) == 10 * Number(t) + (c as int - '0' as int)
  {
    assert (t + [c])[..|t|] == t;
  }

  lemma {:induction false} NumberOfDecimal(n: nat)
    ensures Digits(Decimal(n)) && Number(Decimal(n)) == n
  {
    DigitOf(n % 10);
    if n < 10 {
      NumberSnoc("", "0123456789"[n]);
      assert "" + ["0123456789"[n]] == Decimal(n);
    } else {
      NumberOfDecimal(n / 10);
      NumberSnoc(Decimal(n / 10), "0123456789"[n % 10]);
    }
  }

  /** A text of digits without a leading zero is the decimal text of its number. */
  lemma {:induction false} DecimalOfNumber(s: string)
    requires s != "" && Digits(s) && s[0] != '0'
    ensures Number(s) > 0 && Decimal(Number(s)) == s
  {
    var t, c := s[..|s| - 1], s[|s| - 1];
    var d := c as int - '0' as int;
    DigitOf(d);
    assert c == "0123456789"[d];
    assert s == t + [c];
    NumberSnoc(t, c);
    if t != "" {
      DecimalOfNumber(t);
      assert Number(s) / 10 == Number(t) && Number(s) % 10 == d;
    }
  }

  lemma {:induction false} NumberBounds(s: string)
    requires s != "" && Digits(s) && s[0] != '0'
    ensures Power10(|s| - 1) <= Number(s) < Power10(|s|)
  {
    if |s| > 1 {
      NumberBounds(s[..|s| - 1]);
    } else {
      assert s[..0] == "";
    }
  }

  lemma DecimalInjective(m: nat, n: nat)
    requires Decimal(m) == Decimal(n)
    ensures m == n
  {
    NumberOfDecimal(m);
    NumberOfDecimal(n);
  }

  /** No colon, so the text is one field of a colon-separated key. */
  predicate ColonFree(s: string) {
    ':' !in s
  }

  lemma FirstColonSplits(a: string, b: string, a': string, b': string)
    requires ColonFree(a) && ColonFree(a')
    requires a + ":" + b == a' + ":" + b'
    ensures a == a' && b == b'
  {
    var s, s' := a + ":" + b, a' + ":" + b';
    assert s[|a|] == ':' && s'[|a'|] == ':';
    assert forall i | 0 <= i < |a| :: s[i] == a[i] && a[i] != ':';
    assert forall i | 0 <= i < |a'| :: s'[i] == a'[i] && a'[i] != ':';
    assert a == s[..|a|] && a' == s'[..|a|];
    assert b == s[|a| + 1..] && b' == s'[|a| + 1..];
  }

  lemma SamePrefixSplits(pre: string, b: string, b': string)
    requires pre + b == pre + b'
    ensures b == b'
  {
    assert b == (pre + b)[|pre|..] && b' == (pre + b')[|pre|..];
  }

  lemma SameSuffixSplits(b: string, b': string, suf: string)
    requires b + suf == b' + suf
    ensures b == b'
  {
    assert |b| == |b'|;
    assert b == (b + suf)[..|b|] && b' == (b' + suf)[..|b|];
  }
}
