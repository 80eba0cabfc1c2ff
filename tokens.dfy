/** The token value handed out by the client and the rule deciding when it must be refreshed. */
module Tokens {
  import opened Wrappers

  const Int32Min: int := -0x8000_0000
  const Int32Max: int := 0x7FFF_FFFF

  /** DateTime ticks are 100 ns, so one second is ten million ticks. */
  const TicksPerSecond: int := 10_000_000

  /** A token counts as expired five minutes before the provider's expiry time. */
  const SafetyMargin: int := 5 * 60 * TicksPerSecond

  predicate IsDigit(c: char) { '0' <= c <= '9' }

  function DigitValue(c: char): (d: nat)
    requires IsDigit(c)
    ensures d < 10
  {
    c as int - '0' as int
  }

  function DigitChar(d: nat): (c: char)
    requires d < 10
    ensures IsDigit(c) && DigitValue(c) == d
  {
    ('0' as int + d) as char
  }

  predicate AllDigits(s: string) { forall i :: 0 <= i < |s| ==> IsDigit(s[i]) }

  /** The value of a string of decimal digits, most significant first. */
  function DigitsValue(s: string): nat
    requires AllDigits(s)
  {
    if |s| == 0 then 0 else DigitsValue(s[..|s| - 1]) * 10 + DigitValue(s[|s| - 1])
  }

  /** The shortest decimal spelling of a natural number. */
  function NatDigits(n: nat): (s: string)
    ensures |s| >= 1 && AllDigits(s)
  {
    if n < 10 then [DigitChar(n)] else NatDigits(n / 10) + [DigitChar(n % 10)]
  }

  lemma {:induction false} DigitsValueOfNatDigits(n: nat)
    ensures DigitsValue(NatDigits(n)) == n
  {
    if n >= 10 {
      var s := NatDigits(n);
      assert s[..|s| - 1] == NatDigits(n / 10);
      DigitsValueOfNatDigits(n / 10);
    }
  }

  /** The subset of Int32.TryParse used for `expires_on`: an optional sign and one or more
      ASCII digits whose value fits in 32 bits; anything else (including the empty string)
      does not parse. */
  function ParseInt32(s: string): (r: Option<int>)
    ensures r.Some? ==> Int32Min <= r.value <= Int32Max
    ensures r.Some? ==> |s| >= 1 && (IsDigit(s[0]) || s[0] == '-' || s[0] == '+')
  {
    if |s| == 0 then None
    else
      var digits := if s[0] == '-' || s[0] == '+' then s[1..] else s;
      if |digits| == 0 || !AllDigits(digits) then None
      else
        var magnitude: int := DigitsValue(digits);
        var v := if s[0] == '-' then -magnitude else magnitude;
        if Int32Min <= v <= Int32Max then Some(v) else None
  }

  /** How the provider spells an expiry: decimal, with a minus sign when negative. */
  function FormatInt(n: int): string
  {
    if n < 0 then "-" + NatDigits(-n) else NatDigits(n)
  }

  lemma ParseFormatInt32(n: int)
    requires Int32Min <= n <= Int32Max
    ensures ParseInt32(FormatInt(n)) == Some(n)
  {
    var s := FormatInt(n);
    if n < 0 {
      assert s[0] == '-' && s[1..] == NatDigits(-n);
      DigitsValueOfNatDigits(-n);
    } else {
      assert s == NatDigits(n) && IsDigit(s[0]);
      DigitsValueOfNatDigits(n);
    }
  }

  /** An issued credential. The access token is never null (a response without one is
      rejected before a token is built); the type and the expiry may be. */
  datatype Token = Token(tokenType: Option<string>, accessToken: string, expireOn: Option<string>)

  /** The provider's expiry in seconds since the Unix epoch, when it is present and parses. */
  function ExpirySeconds(t: Token): Option<int>
  {
    if t.expireOn.None? then None else ParseInt32(t.expireOn.value)
  }

  /** `now` is the current UTC time in ticks since the Unix epoch. A token is expired when its
      expiry is absent or unparsable, or when now plus the margin is strictly after the expiry. */
  predicate IsExpired(t: Token, now: int)
  {
    match ExpirySeconds(t)
    case None => true
    case Some(e) => now + SafetyMargin > e * TicksPerSecond
  }

  /** Fail-safe direction: a token whose expiry cannot be read is always expired. */
  lemma UnreadableExpiryIsExpired(t: Token, now: int)
    requires ExpirySeconds(t).None?
    ensures IsExpired(t, now)
  {
  }

  /** A token with a readable expiry is usable exactly while at least the margin remains;
      at exact equality it is not yet expired. */
  lemma ExpiredIff(t: Token, now: int)
    requires ExpirySeconds(t).Some?
    ensures IsExpired(t, now) <==> ExpirySeconds(t).value * TicksPerSecond - now < SafetyMargin
  {
  }

  /** Once expired, a token stays expired as time goes on. */
  lemma ExpiredStaysExpired(t: Token, now: int, later: int)
    requires now <= later && IsExpired(t, now)
    ensures IsExpired(t, later)
  {
  }

  /** For a token whose `expires_on` is the decimal spelling of a 32-bit `e`: expired exactly when
      now plus five minutes is strictly after second `e`. */
  lemma FormattedExpiry(tokenType: Option<string>, access: string, e: int, now: int)
    requires Int32Min <= e <= Int32Max
    ensures IsExpired(Token(tokenType, access, Some(FormatInt(e))), now)
            <==> now + SafetyMargin > e * TicksPerSecond
  {
    ParseFormatInt32(e);
  }
}
