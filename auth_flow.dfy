/**
  The two-step login of the API as transitions over a value: the store of
  user records and the log of issued bearer tokens. `LoginStep` is the
  password step that provisions the TOTP secret, `VerifyStep` the OTP step
  that enables 2FA and issues a token. The class in module Controller
  performs these steps in place and is specified by them.
*/
module AuthFlow {
  import opened Wrappers
  import opened Totp
  import opened Users

  /** The number of time steps of clock skew accepted on either side. */
  const OTP_WINDOW: nat := 2

  const STATUS_BAD_REQUEST: int := 400
  const STATUS_UNAUTHORIZED: int := 401

  const MSG_INVALID_CREDENTIALS: string := "Invalid credentials"
  const MSG_NOT_SETUP: string := "2FA not setup"
  const MSG_INVALID_OTP: string := "Invalid OTP"
  const MSG_LOGIN_SUCCESSFUL: string := "Login successful"

  /**
    What the controller calls but does not define: the issuer name
    (`config('app.name')`), the password hash check of `Auth::attempt`,
    the provisioning URI builder `getQRCodeUrl(issuer, label, secret)` and
    the TOTP code at a counter.
  */
  datatype Capabilities = Capabilities(
    appName: string,
    hashCheck: (string, string) -> bool,
    qrCodeUrl: (string, string, string) -> string,
    code: CodeFn)

  /** The persisted state: user records by id and the issued tokens, oldest first. */
  datatype State = State(users: map<int, User>, tokens: seq<(int, string)>)

  /** The JSON body of `login`; a challenge always carries success = true. */
  datatype LoginResponse =
    | LoginFailed(status: int, message: string)
    | LoginChallenge(otpRequired: bool, userId: int, qrCode: string, manualKey: string)

  /** The JSON body of `verifyGoogleOtp`; a success carries success = true. */
  datatype VerifyResponse =
    | VerifyFailed(status: int, message: string)
    | VerifySucceeded(message: string, token: string)

  /** A response together with the state after the request. */
  datatype Step<R> = Step(response: R, next: State)

  /**
    `login`. Wrong credentials answer 401 and change nothing. Otherwise the
    user's secret is provisioned with `generatedSecret` only if it is unset,
    and the answer is the challenge built from the stored secret.
  */
  ghost function LoginStep(caps: Capabilities, s: State, email: string, password: string,
                           generatedSecret: string): (r: Step<LoginResponse>)
    requires WellFormed(s.users)
    ensures WellFormed(r.next.users)
    ensures r.response.LoginFailed? <==> Attempt(caps.hashCheck, s.users, email, password).None?
    ensures r.response.LoginFailed? ==>
              r.response == LoginFailed(STATUS_UNAUTHORIZED, MSG_INVALID_CREDENTIALS) && r.next == s
    ensures r.response.LoginChallenge? ==>
              var id := r.response.userId;
              Attempt(caps.hashCheck, s.users, email, password) == Some(id)
              && r.response.otpRequired
              && r.next.users == s.users[id := s.users[id].(secret := Some(r.response.manualKey))]
              && r.response.qrCode == caps.qrCodeUrl(caps.appName, s.users[id].email, r.response.manualKey)
              && (IsProvisioned(s.users[id].secret) ==> Some(r.response.manualKey) == s.users[id].secret)
              && (!IsProvisioned(s.users[id].secret) ==> r.response.manualKey == generatedSecret)
    ensures r.next.tokens == s.tokens
  {
    match Attempt(caps.hashCheck, s.users, email, password)
    case None => Step(LoginFailed(STATUS_UNAUTHORIZED, MSG_INVALID_CREDENTIALS), s)
    case Some(id) =>
      var user := s.users[id];
      var next := if IsProvisioned(user.secret) then s
                  else s.(users := s.users[id := user.(secret := Some(generatedSecret))]);
      var stored := next.users[id];
      Step(LoginChallenge(true, stored.id,
                          caps.qrCodeUrl(caps.appName, stored.email, stored.secret.value),
                          stored.secret.value),
           next)
  }

  /**
    `verifyGoogleOtp`. An unknown id or a user without a secret answers
    400 whatever the code; a rejected code answers 401; both change
    nothing. A valid code enables 2FA for that user and appends exactly one
    token for that user, which the response carries.
  */
  ghost function VerifyStep(caps: Capabilities, s: State, userId: int, otp: string,
                            unixTime: int, freshToken: string): (r: Step<VerifyResponse>)
    ensures WellFormed(s.users) ==> WellFormed(r.next.users)
    ensures r.response == VerifyFailed(STATUS_BAD_REQUEST, MSG_NOT_SETUP)
            <==> userId !in s.users || !IsProvisioned(s.users[userId].secret)
    ensures r.response == VerifyFailed(STATUS_UNAUTHORIZED, MSG_INVALID_OTP)
            <==> userId in s.users && IsProvisioned(s.users[userId].secret)
                 && !VerifyKey(caps.code, s.users[userId].secret.value, otp, OTP_WINDOW, unixTime)
    ensures r.response.VerifySucceeded?
            <==> userId in s.users && IsProvisioned(s.users[userId].secret)
                 && VerifyKey(caps.code, s.users[userId].secret.value, otp, OTP_WINDOW, unixTime)
    ensures r.response.VerifyFailed? ==> r.next == s
    ensures r.response.VerifySucceeded? ==>
              r.response == VerifySucceeded(MSG_LOGIN_SUCCESSFUL, freshToken)
              && r.next.users == s.users[userId := s.users[userId].(enabled := true)]
              && r.next.tokens == s.tokens + [(userId, freshToken)]
  {
    if userId !in s.users || !IsProvisioned(s.users[userId].secret) then
      Step(VerifyFailed(STATUS_BAD_REQUEST, MSG_NOT_SETUP), s)
    else
      var user := s.users[userId];
      if !VerifyKey(caps.code, user.secret.value, otp, OTP_WINDOW, unixTime) then
        Step(VerifyFailed(STATUS_UNAUTHORIZED, MSG_INVALID_OTP), s)
      else
        var users := s.users[userId := user.(enabled := true)];
        Step(VerifySucceeded(MSG_LOGIN_SUCCESSFUL, freshToken),
             State(users, s.tokens + [(userId, freshToken)]))
  }

  /**
    How the state may change across any requests: the same users with the
    same ids, e-mails and password hashes; a provisioned secret is kept;
    the enabled flag only goes from false to true; tokens are only appended.
  */
  ghost predicate Evolves(s: State, t: State) {
    && s.users.Keys == t.users.Keys
    && (forall id :: id in s.users ==>
          && t.users[id].id == s.users[id].id
          && t.users[id].email == s.users[id].email
          && t.users[id].passwordHash == s.users[id].passwordHash
          && (IsProvisioned(s.users[id].secret) ==> t.users[id].secret == s.users[id].secret)
          && (s.users[id].enabled ==> t.users[id].enabled))
    && s.tokens <= t.tokens
  }

  lemma EvolvesTransitive(s: State, t: State, u: State)
    requires Evolves(s, t) && Evolves(t, u)
    ensures Evolves(s, u)
  {
  }

  /** Every issued token belongs to a stored user who has a secret and has 2FA enabled. */
  ghost predicate TokensAuthorized(s: State) {
    forall j :: 0 <= j < |s.tokens| ==>
      && s.tokens[j].0 in s.users
      && s.users[s.tokens[j].0].enabled
      && IsProvisioned(s.users[s.tokens[j].0].secret)
  }

  /** One request to the API with the values the environment supplies for it. */
  datatype Request =
    | LoginRequest(email: string, password: string, generatedSecret: string)
    | VerifyRequest(userId: int, otp: string, unixTime: int, freshToken: string)

  ghost function Apply(caps: Capabilities, s: State, req: Request): (t: State)
    requires WellFormed(s.users)
    ensures WellFormed(t.users)
  {
    match req
    case LoginRequest(email, password, generatedSecret) =>
      LoginStep(caps, s, email, password, generatedSecret).next
    case VerifyRequest(userId, otp, unixTime, freshToken) =>
      VerifyStep(caps, s, userId, otp, unixTime, freshToken).next
  }

  /** The state after serving `reqs` in order. */
  ghost function Run(caps: Capabilities, s: State, reqs: seq<Request>): (t: State)
    requires WellFormed(s.users)
    ensures WellFormed(t.users)
    decreases |reqs|
  {
    if reqs == [] then s else Run(caps, Apply(caps, s, reqs[0]), reqs[1..])
  }

  lemma ApplyEvolves(caps: Capabilities, s: State, req: Request)
    requires WellFormed(s.users)
    ensures Evolves(s, Apply(caps, s, req))
  {
  }

  /** Over any sequence of requests the state only evolves (secrets kept, enabled monotone, tokens appended). */
  lemma {:induction false} RunEvolves(caps: Capabilities, s: State, reqs: seq<Request>)
    requires WellFormed(s.users)
    ensures Evolves(s, Run(caps, s, reqs))
    decreases |reqs|
  {
    if reqs != [] {
      var s' := Apply(caps, s, reqs[0]);
      ApplyEvolves(caps, s, reqs[0]);
      RunEvolves(caps, s', reqs[1..]);
      EvolvesTransitive(s, s', Run(caps, s', reqs[1..]));
    }
  }

  lemma ApplyKeepsTokensAuthorized(caps: Capabilities, s: State, req: Request)
    requires WellFormed(s.users) && TokensAuthorized(s)
    ensures TokensAuthorized(Apply(caps, s, req))
  {
    ApplyEvolves(caps, s, req);
  }

  /** Over any sequence of requests, every issued token belongs to a stored user with a secret and 2FA enabled. */
  lemma {:induction false} RunKeepsTokensAuthorized(caps: Capabilities, s: State, reqs: seq<Request>)
    requires WellFormed(s.users) && TokensAuthorized(s)
    ensures TokensAuthorized(Run(caps, s, reqs))
    decreases |reqs|
  {
    if reqs != [] {
      ApplyKeepsTokensAuthorized(caps, s, reqs[0]);
      RunKeepsTokensAuthorized(caps, Apply(caps, s, reqs[0]), reqs[1..]);
    }
  }

  /**
    Request `i` of `reqs` issued the log entry `entry`: it is an OTP
    verification whose token is `entry`, and in the state it was served in
    its user was stored with a provisioned secret and its code was accepted.
  */
  ghost predicate IssuedByVerifiedRequest(caps: Capabilities, s: State, reqs: seq<Request>,
                                          i: nat, entry: (int, string))
    requires WellFormed(s.users) && i < |reqs|
  {
    && reqs[i].VerifyRequest?
    && entry == (reqs[i].userId, reqs[i].freshToken)
    && var st := Run(caps, s, reqs[..i]);
       && reqs[i].userId in st.users
       && IsProvisioned(st.users[reqs[i].userId].secret)
       && VerifyKey(caps.code, st.users[reqs[i].userId].secret.value, reqs[i].otp,
                    OTP_WINDOW, reqs[i].unixTime)
  }

  /** Some request of `reqs` issued `entry` after its code was accepted. */
  ghost predicate IssuedByVerification(caps: Capabilities, s: State, reqs: seq<Request>, entry: (int, string))
    requires WellFormed(s.users)
  {
    exists i :: 0 <= i < |reqs| && IssuedByVerifiedRequest(caps, s, reqs, i, entry)
  }

  /**
    A token is issued only after successful verification: every entry that
    a sequence of requests adds to the log was issued by one of those
    requests, an OTP verification whose code was accepted when served.
  */
  lemma {:induction false} RunTokensIssuedAfterVerification(caps: Capabilities, s: State, reqs: seq<Request>)
    requires WellFormed(s.users)
    ensures forall j :: |s.tokens| <= j < |Run(caps, s, reqs).tokens| ==>
                          IssuedByVerification(caps, s, reqs, Run(caps, s, reqs).tokens[j])
    decreases |reqs|
  {
    if reqs != [] {
      var s' := Apply(caps, s, reqs[0]);
      var t := Run(caps, s', reqs[1..]);
      assert t == Run(caps, s, reqs);
      ApplyEvolves(caps, s, reqs[0]);
      RunEvolves(caps, s', reqs[1..]);
      RunTokensIssuedAfterVerification(caps, s', reqs[1..]);
      forall j | |s.tokens| <= j < |Run(caps, s, reqs).tokens|
        ensures IssuedByVerification(caps, s, reqs, Run(caps, s, reqs).tokens[j])
      {
        if j < |s'.tokens| {
          assert reqs[..0] == [];
          assert IssuedByVerifiedRequest(caps, s, reqs, 0, t.tokens[j]);
        } else {
          var i' :| 0 <= i' < |reqs[1..]| && IssuedByVerifiedRequest(caps, s', reqs[1..], i', t.tokens[j]);
          assert reqs[..i' + 1][0] == reqs[0];
          assert reqs[..i' + 1][1..] == reqs[1..][..i'];
          assert Run(caps, s, reqs[..i' + 1]) == Run(caps, s', reqs[1..][..i']);
          assert IssuedByVerifiedRequest(caps, s, reqs, i' + 1, t.tokens[j]);
        }
      }
    } else {
      assert Run(caps, s, reqs) == s;
    }
  }

  /**
    Idempotent provisioning: a second successful login of the same user
    answers with the same challenge, the same manual key included, and
    leaves the state as the first login left it, whatever secret the
    generator would have produced the second time.
  */
  lemma LoginIdempotent(caps: Capabilities, s: State, email: string, password: string,
                        secret1: string, secret2: string)
    requires WellFormed(s.users)
    requires IsProvisioned(Some(secret1))
    requires LoginStep(caps, s, email, password, secret1).response.LoginChallenge?
    ensures var first := LoginStep(caps, s, email, password, secret1);
            var second := LoginStep(caps, first.next, email, password, secret2);
            second.response == first.response && second.next == first.next
  {
    var first := LoginStep(caps, s, email, password, secret1);
    AttemptDependsOnCredentials(caps.hashCheck, s.users, first.next.users, email, password);
  }

  /**
    The end-to-end flow: a user with no secret who logs in with the right
    password and then submits the code their authenticator shows for the
    manual key succeeds, is enabled, and is issued exactly the new token.
  */
  lemma LoginThenVerifySucceeds(caps: Capabilities, s: State, email: string, password: string,
                                generatedSecret: string, unixTime: int, freshToken: string)
    requires WellFormed(s.users)
    requires IsProvisioned(Some(generatedSecret))
    requires Attempt(caps.hashCheck, s.users, email, password).Some?
    ensures var login := LoginStep(caps, s, email, password, generatedSecret);
            login.response.LoginChallenge?
            && var otp := caps.code(login.response.manualKey, TimeStep(unixTime));
               var verify := VerifyStep(caps, login.next, login.response.userId, otp, unixTime, freshToken);
               verify.response == VerifySucceeded(MSG_LOGIN_SUCCESSFUL, freshToken)
               && verify.next.users[login.response.userId].enabled
               && verify.next.tokens == s.tokens + [(login.response.userId, freshToken)]
  {
    var login := LoginStep(caps, s, email, password, generatedSecret);
    CurrentCodeAccepted(caps.code, login.response.manualKey, OTP_WINDOW, unixTime);
  }
}
