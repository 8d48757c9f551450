/** How long a signed payment can be redeemed, how long the client refuses to
    let it be redeemable, and how long the client holds its amount.
    Times are epoch milliseconds, expiries epoch seconds. */
module Validity {
  import opened Types

  const MAX_VALIDITY_SECONDS := 24 * 3600
  const VALIDITY_CLOCK_SLACK_SECONDS := 60
  const GATEWAY_MAX_TIMEOUT_SECONDS := 7 * 24 * 3600 + 3600
  const HOLD_SLACK_MS := 10 * 60 * 1000

  /** The part of the hold slack that is left when the expiry uses up the whole
      minute of clock slack the validity check allows. */
  const SURE_SLACK_MS := HOLD_SLACK_MS - VALIDITY_CLOCK_SLACK_SECONDS * 1000

  /** What a payload says about its expiry: nothing, something that is not a
      whole number of seconds, or a time. */
  datatype Expiry = NoExpiry | Unreadable | At(seconds: nat)

  predicate ValidityProblem(expiry: Expiry, maxSeconds: int, now: int) {
    match expiry
    case NoExpiry => false
    case Unreadable => true
    case At(seconds) => seconds - now / 1000 > maxSeconds + VALIDITY_CLOCK_SLACK_SECONDS
  }

  function SignedValidUntil(expiry: Expiry, maxSeconds: int, now: int): Option<int> {
    match expiry
    case At(seconds) => Some(Min(seconds * 1000, now + maxSeconds * 1000) + HOLD_SLACK_MS)
    case _ => None
  }

  /** A payload that passed the check at `checked` and is recorded at `now` is
      held past its own expiry by at least nine minutes, and its hold ends at
      most the ceiling plus ten minutes after it was recorded. */
  lemma HoldOutlastsExpiry(expiry: Expiry, maxSeconds: nat, checked: int, now: int)
    requires checked <= now && expiry.At? && !ValidityProblem(expiry, maxSeconds, checked)
    ensures SignedValidUntil(expiry, maxSeconds, now).Some?
    ensures var until := SignedValidUntil(expiry, maxSeconds, now).value;
            expiry.seconds * 1000 + SURE_SLACK_MS <= until <= now + maxSeconds * 1000 + HOLD_SLACK_MS
  {
    assert checked / 1000 * 1000 <= checked;
  }

  /** Which expiries pass the check: none at all, and one at most the ceiling and a
      minute after the check, to the millisecond, although the check floors the
      clock to seconds. One that cannot be read never does. */
  lemma PassesExactly(expiry: Expiry, maxSeconds: nat, now: int)
    ensures !ValidityProblem(expiry, maxSeconds, now)
            <==> !expiry.Unreadable? && (expiry.At? ==> expiry.seconds * 1000 <= now + maxSeconds * 1000 + 60_000)
  {
    assert now / 1000 * 1000 <= now < now / 1000 * 1000 + 1000;
  }

  /** The documented ten minutes of slack are given exactly when the expiry is
      within the ceiling at the moment it is recorded; otherwise the hold ends ten
      minutes after the ceiling. A payload that names no time has no end. */
  lemma FullSlackExactly(expiry: Expiry, maxSeconds: nat, now: int)
    ensures SignedValidUntil(expiry, maxSeconds, now).Some? <==> expiry.At?
    ensures expiry.At? ==>
              (SignedValidUntil(expiry, maxSeconds, now) == Some(expiry.seconds * 1000 + 600_000)
               <==> expiry.seconds * 1000 <= now + maxSeconds * 1000)
    ensures expiry.At? && expiry.seconds * 1000 >= now + maxSeconds * 1000 ==>
              SignedValidUntil(expiry, maxSeconds, now) == Some(now + maxSeconds * 1000 + 600_000)
  {
  }

  /** The expiry a Circle Gateway authorization is signed with. */
  function GatewayExpiry(signedAt: nat, timeoutSeconds: nat): Expiry {
    At(signedAt / 1000 + timeoutSeconds)
  }

  /** A Gateway authorization is never cut by the ceiling: its hold always ends
      exactly ten minutes after its expiry. */
  lemma GatewayHoldIsExact(signedAt: nat, timeoutSeconds: nat, now: nat)
    requires signedAt <= now && timeoutSeconds <= 608_400
    ensures var e := GatewayExpiry(signedAt, timeoutSeconds);
            && e == At(signedAt / 1000 + timeoutSeconds)
            && SignedValidUntil(e, GATEWAY_MAX_TIMEOUT_SECONDS, now) == Some(e.seconds * 1000 + 600_000)
    ensures SignedValidUntil(At((now + 1) / 1000 + 608_401), GATEWAY_MAX_TIMEOUT_SECONDS, now)
            == Some(now + 608_400_000 + 600_000)
  {
    assert signedAt / 1000 * 1000 <= signedAt;
  }
}
