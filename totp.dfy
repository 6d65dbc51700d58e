/**
  The shape of time-based one-time password verification that the
  controller relies on (RFC 6238, section 4 for the time-step counter and
  section 5.2 for the validation window). The HMAC-SHA1 code itself is
  left uninterpreted: it is the `code` function passed in by the caller.
  That the library verifies codes in exactly this shape is an assumption
  of the model, not something derived from code inside it.
*/
module Totp {

  /** Length of one time step in seconds (X in RFC 6238, with T0 = 0). */
  const PERIOD: int := 30

  /** Number of decimal digits of a generated code. */
  const DIGITS: nat := 6

  /** The code an authenticator shows for a secret at a time-step counter. */
  type CodeFn = (string, int) -> string

  /** The time-step counter T = floor((now - T0) / X) of a Unix time. */
  function TimeStep(unixTime: int): (t: int)
    ensures PERIOD * t <= unixTime < PERIOD * t + PERIOD
  {
    unixTime / PERIOD
  }

  /** Shifting the clock by whole periods shifts the counter by as many steps. */
  lemma ShiftedTimeStep(unixTime: int, d: int)
    ensures TimeStep(unixTime + PERIOD * d) == TimeStep(unixTime) + d
  {
    var t, t' := TimeStep(unixTime), TimeStep(unixTime + PERIOD * d);
    assert PERIOD * (t + d) <= unixTime + PERIOD * d < PERIOD * (t + d) + PERIOD;
  }

  /** Is `otp` the code of `secret` at some counter from `lo` to `hi`? */
  function MatchesBetween(code: CodeFn, secret: string, otp: string, lo: int, hi: int): (r: bool)
    ensures r <==> exists k :: lo <= k <= hi && code(secret, k) == otp
    decreases hi - lo
  {
    if lo > hi then false
    else if code(secret, lo) == otp then true
    else MatchesBetween(code, secret, otp, lo + 1, hi)
  }

  /**
    Accepts `otp` when it is the code of `secret` at some counter within
    `window` steps of the current one, in either direction.
  */
  function VerifyKey(code: CodeFn, secret: string, otp: string, window: nat, unixTime: int): (ok: bool)
    ensures ok <==> exists k :: TimeStep(unixTime) - window <= k <= TimeStep(unixTime) + window
                                && code(secret, k) == otp
  {
    var t := TimeStep(unixTime);
    MatchesBetween(code, secret, otp, t - window, t + window)
  }

  /** The code shown at the current step is accepted (round trip). */
  lemma CurrentCodeAccepted(code: CodeFn, secret: string, window: nat, unixTime: int)
    ensures VerifyKey(code, secret, code(secret, TimeStep(unixTime)), window, unixTime)
  {
    var t := TimeStep(unixTime);
    assert t - window <= t <= t + window && code(secret, t) == code(secret, t);
  }

  /**
    Clock-skew tolerance: a code shown at `unixTime` is still accepted when
    the verifier's clock is up to `window` whole periods ahead or behind.
  */
  lemma SkewTolerated(code: CodeFn, secret: string, window: nat, unixTime: int, d: int)
    requires -d <= window && d <= window
    ensures VerifyKey(code, secret, code(secret, TimeStep(unixTime)), window, unixTime + PERIOD * d)
  {
    var t := TimeStep(unixTime);
    ShiftedTimeStep(unixTime, d);
    assert TimeStep(unixTime + PERIOD * d) - window <= t <= TimeStep(unixTime + PERIOD * d) + window;
  }

  /**
    Skew boundary: when the code shown at `unixTime` is shown at no other
    counter, a verifier whose clock is `d` whole periods away accepts it
    exactly when |d| <= window (so with window 2: accepted at +-60 seconds,
    rejected at +-120 seconds).
  */
  lemma SkewBoundary(code: CodeFn, secret: string, window: nat, unixTime: int, d: int)
    requires forall k :: code(secret, k) == code(secret, TimeStep(unixTime)) ==> k == TimeStep(unixTime)
    ensures VerifyKey(code, secret, code(secret, TimeStep(unixTime)), window, unixTime + PERIOD * d)
            <==> -d <= window && d <= window
  {
    ShiftedTimeStep(unixTime, d);
    if -d <= window && d <= window {
      SkewTolerated(code, secret, window, unixTime, d);
    }
  }

  /** A well-formed code: exactly DIGITS decimal digits. */
  predicate WellFormedCode(s: string) {
    |s| == DIGITS && forall i :: 0 <= i < |s| ==> '0' <= s[i] <= '9'
  }

  /** Fails closed: when every generated code is well formed, a malformed `otp` is never accepted. */
  lemma MalformedCodeRejected(code: CodeFn, secret: string, otp: string, window: nat, unixTime: int)
    requires forall k :: WellFormedCode(code(secret, k))
    requires !WellFormedCode(otp)
    ensures !VerifyKey(code, secret, otp, window, unixTime)
  {
  }
}
