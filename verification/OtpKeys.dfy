/** The cache keys and the hash input of accounts/services/otp.py. */
module OtpKeys {
  import opened Text

  datatype Purpose = Register | PasswordReset

  function PurposeName(q: Purpose): string {
    match q
    case Register => "register"
    case PasswordReset => "password_reset"
  }

  function OtpKey(phone: string, q: Purpose): string {
    "otp:" + PurposeName(q) + ":" + phone
  }

  function AttemptsKey(phone: string, q: Purpose): string {
    "otp:" + PurposeName(q) + ":" + phone + ":attempts"
  }

  function ThrottleKey(phone: string): string {
    "otp:throttle:" + phone
  }

  /** The text that is hashed; SHA-256 is taken to be injective, so the text stands for its digest. */
  function HashInput(phone: string, q: Purpose, code: string): string {
    phone + ":" + PurposeName(q) + ":" + code
  }

  lemma KeyHead(key: string, rest: string, q: Purpose)
    requires key == "otp:" + PurposeName(q) + ":" + rest
    ensures |key| > 4 && key[4] == if q.Register? then 'r' else 'p'
  {
  }

  /** Each key builder is injective, for every phone. */
  lemma KeysInjective(p: string, q: Purpose, p': string, q': Purpose)
    ensures OtpKey(p, q) == OtpKey(p', q') <==> p == p' && q == q'
    ensures AttemptsKey(p, q) == AttemptsKey(p', q') <==> p == p' && q == q'
    ensures ThrottleKey(p) == ThrottleKey(p') <==> p == p'
  {
    KeyHead(OtpKey(p, q), p, q);
    KeyHead(OtpKey(p', q'), p', q');
    if OtpKey(p, q) == OtpKey(p', q') {
      SamePrefixSplits("otp:" + PurposeName(q) + ":", p, p');
    }
    if AttemptsKey(p, q) == AttemptsKey(p', q') {
      SameSuffixSplits(OtpKey(p, q), OtpKey(p', q'), ":attempts");
      SamePrefixSplits("otp:" + PurposeName(q) + ":", p, p');
    }
    if ThrottleKey(p) == ThrottleKey(p') {
      SamePrefixSplits("otp:throttle:", p, p');
    }
  }

  /** The exact collisions between the three ranges: a code key is an attempts key just when the one phone
      is the other followed by ":attempts", and a throttle key is never either of them. */
  lemma KeyCollisions(p: string, q: Purpose, p': string, q': Purpose)
    ensures OtpKey(p, q) == AttemptsKey(p', q') <==> q == q' && p == p' + ":attempts"
    ensures ThrottleKey(p) != OtpKey(p', q') && ThrottleKey(p) != AttemptsKey(p', q')
  {
    var k := "otp:" + PurposeName(q') + ":" + (p' + ":attempts");
    assert AttemptsKey(p', q') == k;
    KeyHead(OtpKey(p, q), p, q);
    KeyHead(k, p' + ":attempts", q');
    KeyHead(OtpKey(p', q'), p', q');
    assert ThrottleKey(p)[4] == 't';
    if OtpKey(p, q) == AttemptsKey(p', q') {
      SamePrefixSplits("otp:" + PurposeName(q) + ":", p, p' + ":attempts");
    }
  }

  /** A phone without a colon meets none of those collisions. */
  lemma KeysDisjoint(p: string, q: Purpose, p': string, q': Purpose)
    requires ColonFree(p)
    ensures OtpKey(p, q) != AttemptsKey(p', q')
    ensures ThrottleKey(p) != OtpKey(p', q') && ThrottleKey(p) != AttemptsKey(p', q')
  {
    KeyCollisions(p, q, p', q');
    assert ':' in (p' + ":attempts")[|p'|..];
  }

  /** The hash input decodes uniquely, whatever text a caller supplies as the code. */
  lemma HashInputInjective(p: string, q: Purpose, code: string, p': string, q': Purpose, code': string)
    requires ColonFree(p) && ColonFree(p')
    ensures HashInput(p, q, code) == HashInput(p', q', code') <==> p == p' && q == q' && code == code'
  {
    var r, r' := PurposeName(q) + ":" + code, PurposeName(q') + ":" + code';
    assert HashInput(p, q, code) == p + ":" + r;
    assert HashInput(p', q', code') == p' + ":" + r';
    if HashInput(p, q, code) == HashInput(p', q', code') {
      FirstColonSplits(p, r, p', r');
      FirstColonSplits(PurposeName(q), code, PurposeName(q'), code');
    }
  }

  /** With a colon in the phone the hash input does not decode uniquely. */
  lemma ColonPhoneHashClash()
    ensures HashInput("09", Register, "register:1") == HashInput("09:register", Register, "1")
  {
  }
}
