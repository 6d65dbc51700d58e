# Two-step 2FA login of a Laravel API, modelled in Dafny

The API logs users in in two requests. `login` checks e-mail and password
with `Auth::attempt`. On a user's first login it provisions a TOTP secret,
and on every successful login it answers with an OTP challenge: the user id,
an `otpauth://` provisioning URI for a QR code and the raw secret as a
manual key. `verifyGoogleOtp` looks the user up by id. It refuses a user
without a secret ("2FA not setup", 400) and a code the authenticator library
rejects with a window of two time steps ("Invalid OTP", 401). Only after a
valid code does it set `google_2fa_enabled` and mint one Sanctum bearer token.

The model has five modules:

- `Wrappers`: `Option`, for PHP's nullable values.
- `Totp`: the time-step counter and the windowed verification shape of
  RFC 6238 (section 4 for the counter T = floor(unixTime / 30), section 5.2
  for the validation window). The code at a counter is an uninterpreted
  function. That the Google2FA library verifies in exactly this shape is an
  assumption: the library is not part of this model.
- `Users`: the user record (id, e-mail, password hash, nullable secret,
  enabled flag; field list from `app/Models/User.php`, without `name`, which
  the flow never reads, and with the primary key `id`, which Eloquent adds), PHP truthiness of
  the secret, and `Auth::attempt` as a function of the store.
- `AuthFlow`: both actions as pure transitions `LoginStep` and `VerifyStep`
  over a `State`, which holds the user map and the append-only token log.
  Their contracts state each action's promises, error paths included. The
  module also has `Run` over any sequence of requests and the lemmas that
  relate several calls.
- `Controller`: the class `AuthController`. It holds the user map and the
  token log as fields, and its methods `Login` and `VerifyGoogleOtp` update
  them in place. Each method is specified by its step function, and the
  class invariant `Valid()` says that every issued token belongs to an
  enabled, provisioned user.

External capabilities are inputs to the model:

- the `Capabilities` datatype holds the issuer name (`config('app.name')`),
  the password hash check, `getQRCodeUrl` and the TOTP code function;
- the method parameters carry the random secret from `generateSecretKey`,
  the Sanctum plain-text token and the current Unix time.

The model follows the code as written, including where it departs from common 2FA hardening:

- The code tests the secret with PHP truthiness (`!$user->google_2fa_secret`,
  lines 34 and 66). So an empty string or `"0"` counts as "no secret": on
  login it is overwritten, and on verification it answers "2FA not setup"
  (`Users.IsProvisioned`).
- Provisioning is a plain read-then-save, not a compare-and-set.
- A missing e-mail skips the hash comparison: there is no dummy comparison.
- The user id travels back from the client bare, with no signed challenge.

## Model

| member | source | states |
|---|---|---|
| Totp.TimeStep | app/Http/Controllers/Api/AuthController.php:75-79 | the counter t of a Unix time satisfies 30·t <= time < 30·t + 30 (floor division, also for negative times) |
| Totp.ShiftedTimeStep | app/Http/Controllers/Api/AuthController.php:75-79 | moving the clock by d whole periods moves the counter by exactly d |
| Totp.MatchesBetween | app/Http/Controllers/Api/AuthController.php:75-79 | true exactly when the code of the secret at some counter in lo..hi equals the OTP |
| Totp.VerifyKey | app/Http/Controllers/Api/AuthController.php:75-79 | accepts exactly when some counter within `window` steps of the current one, on either side, gives the submitted code |
| Totp.CurrentCodeAccepted | app/Http/Controllers/Api/AuthController.php:75-79 | the code shown at the current step is accepted (round trip) |
| Totp.SkewTolerated | app/Http/Controllers/Api/AuthController.php:75-79 | a code shown at time t is accepted by a clock up to `window` periods ahead or behind (±60 s for window 2) |
| Totp.SkewBoundary | app/Http/Controllers/Api/AuthController.php:75-79 | if a code occurs at only one counter, a clock d periods away accepts it if and only if abs(d) <= window (so it is rejected at ±120 s for window 2) |
| Totp.MalformedCodeRejected | app/Http/Controllers/Api/AuthController.php:75-79 | when every generated code is six digits, a malformed OTP is never accepted (fails closed) |
| Users.Base32SecretIsProvisioned | app/Http/Controllers/Api/AuthController.php:34-35 | a non-empty base32 secret, the format the generator produces, passes the truthiness test of line 34 |
| Users.UserWithEmail | app/Http/Controllers/Api/AuthController.php:23 | finds a stored user with the given e-mail, or None exactly when no stored user has it |
| Users.Attempt | app/Http/Controllers/Api/AuthController.php:23 | `Auth::attempt` succeeds with user id if and only if that user has the e-mail and the password matches its stored hash; None exactly when no user with that e-mail has a matching hash |
| Users.AttemptDependsOnCredentials | app/Http/Controllers/Api/AuthController.php:23 | the credential check reads only ids, e-mails and password hashes, so changing secrets or flags does not change its answer |
| AuthFlow.LoginStep | app/Http/Controllers/Api/AuthController.php:16-52 | fails with 401 "Invalid credentials" if and only if the credentials fail, and then changes nothing. Otherwise it answers otp_required = true with the user's id. The stored secret is then kept if it was set and becomes the generated one if not, the manual key is the stored secret, and the QR URL is built from issuer, e-mail and that secret. Only that user's secret may change; enabled flags and the token log never change |
| AuthFlow.VerifyStep | app/Http/Controllers/Api/AuthController.php:57-100 | answers 400 "2FA not setup" if and only if the id is unknown or its secret is unset, whatever the OTP. It answers 401 "Invalid OTP" if and only if the secret is set and the code is rejected with window 2. Both failures leave the state unchanged. It succeeds if and only if the code is accepted: then only that user's enabled flag becomes true, and exactly one token for that user is appended and returned |
| AuthFlow.EvolvesTransitive | app/Http/Controllers/Api/AuthController.php:34-37 | the "state only evolves" relation (secrets kept, enabled monotone, tokens appended) composes across requests |
| AuthFlow.Apply | app/Http/Controllers/Api/AuthController.php:16-100 | serving one request of either kind keeps the store keyed by id with unique e-mails |
| AuthFlow.Run | app/Http/Controllers/Api/AuthController.php:16-100 | serving any sequence of requests keeps the store keyed by id with unique e-mails |
| AuthFlow.ApplyEvolves | app/Http/Controllers/Api/AuthController.php:34-37 | one request of either kind keeps every user's id, e-mail and hash, keeps a set secret, never clears the enabled flag and only appends tokens |
| AuthFlow.RunEvolves | app/Http/Controllers/Api/AuthController.php:88-93 | over any sequence of requests a provisioned secret never changes, enabled only moves false to true, and the token log only grows |
| AuthFlow.ApplyKeepsTokensAuthorized | app/Http/Controllers/Api/AuthController.php:81-93 | one request keeps the invariant that every issued token belongs to an enabled user with a secret |
| AuthFlow.RunKeepsTokensAuthorized | app/Http/Controllers/Api/AuthController.php:81-93 | over any sequence of requests, every issued token belongs to a stored user who has a secret and has 2FA enabled |
| AuthFlow.RunTokensIssuedAfterVerification | app/Http/Controllers/Api/AuthController.php:64-93 | over any sequence of requests, every token added to the log is the token of one of those requests, an OTP verification for that user whose user had a provisioned secret and whose code `VerifyKey` accepted with window 2 in the state it was served in |
| AuthFlow.LoginIdempotent | app/Http/Controllers/Api/AuthController.php:34-50 | a second successful login of the same user gives the same challenge and the same manual key, and leaves the state unchanged, whatever the generator would produce |
| AuthFlow.LoginThenVerifySucceeds | app/Http/Controllers/Api/AuthController.php:16-100 | right password, then the authenticator's current code for the manual key: verification succeeds, the user is enabled and exactly the new token is logged |
| Controller.AuthController.constructor | app/Http/Controllers/Api/AuthController.php:11 | the controller starts over the given well-formed users table with an empty token log |
| Controller.AuthController.CheckCredentials | app/Http/Controllers/Api/AuthController.php:23 | the lookup by e-mail plus hash check returns exactly what `Users.Attempt` specifies |
| Controller.AuthController.Login | app/Http/Controllers/Api/AuthController.php:16-52 | the in-place update of the users map and the response are exactly those of `AuthFlow.LoginStep`; the class invariant is kept |
| Controller.AuthController.VerifyGoogleOtp | app/Http/Controllers/Api/AuthController.php:57-100 | the in-place update of the users map and token log and the response are exactly those of `AuthFlow.VerifyStep`; the class invariant is kept |
| Controller.FirstLoginScenario | app/Http/Controllers/Api/AuthController.php:16-100 | a first login with the right password yields the challenge for the generated secret; the current code then succeeds with the new token; a rejected code then fails with 401 "Invalid OTP" |

## Left out

- Request validation (`required|email`, `required|integer`, `required|string`): it is the framework's validator, run before any logic. The model takes the fields as typed values and does not model the 422 answer.
- Google2FA internals: HMAC-SHA1, dynamic truncation, base32 decoding, random secret generation and `otpauth://` formatting are not modelled. The code is an uninterpreted function, the generated secret a parameter and the URI builder a capability. A malformed stored secret, which makes the library throw, is not modelled.
- Constant-time comparison of codes: timing is not observable in the model.
- `Auth::attempt` internals: password hashing is the opaque `hashCheck`. The session login, authentication events and the automatic rehash of the password on login are not modelled. E-mail lookup is exact equality, so no database collation is modelled.
- Unique e-mails and ids equal to keys are assumed as a store invariant (the database's unique index). The migration that creates it is not part of this model.
- Sanctum token creation: the log keeps the owner and the plain-text token of each issued token. The plain-text token is a parameter, the token name "api-token" and the token format are not modelled, and nothing is assumed about the token being unique.
- Eloquent `save()` side effects, such as `updated_at` timestamps and persistence failures, are not modelled.
- The wall clock: the current Unix time is a parameter of verification.
- Concurrency: requests are served one at a time, so the race between two concurrent first logins is not modelled.
- `routes/api.php`: HTTP routing and the `/profile` closure, which only echoes the authenticated user with the secret hidden.
- Hardenings the code does not implement are not modelled: a signed challenge token, a dummy hash comparison and a compare-and-set on provisioning.
