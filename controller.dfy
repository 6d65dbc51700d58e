/**
  `AuthController`: the two API actions performed in place on the user
  store and the token log, each specified by its step function over the
  state value and keeping the store's invariants.
*/
module Controller {
  import opened Wrappers
  import opened Totp
  import opened Users
  import opened AuthFlow

  class AuthController {
    /** The framework and library capabilities the actions call. */
    const caps: Capabilities
    /** The users table, by primary key. */
    var users: map<int, User>
    /** Every bearer token issued so far, with the id of its owner. */
    var issuedTokens: seq<(int, string)>

    ghost function Snapshot(): State
      reads this
    {
      State(users, issuedTokens)
    }

    /** The stored records are well formed and no token was issued without OTP verification. */
    ghost predicate Valid()
      reads this
    {
      WellFormed(users) && TokensAuthorized(Snapshot())
    }

    constructor (caps: Capabilities, users: map<int, User>)
      requires WellFormed(users)
      ensures Valid()
      ensures this.caps == caps && this.users == users && issuedTokens == []
    {
      this.caps := caps;
      this.users := users;
      issuedTokens := [];
    }

    /**
      `Auth::attempt`: the id of the user with this e-mail whose password hash matches.
      The compiled counterpart of the ghost `Users.Attempt`, whose contract gives its meaning.
    */
    method CheckCredentials(email: string, password: string) returns (found: Option<int>)
      requires Valid()
      ensures found == Attempt(caps.hashCheck, users, email, password)
    {
      if exists id :: id in users && users[id].email == email {
        var id :| id in users && users[id].email == email;
        found := if caps.hashCheck(password, users[id].passwordHash) then Some(id) else None;
      } else {
        found := None;
      }
    }

    /** `login`: check the password, provision the secret on first login, answer the OTP challenge. */
    method Login(email: string, password: string, generatedSecret: string) returns (response: LoginResponse)
      requires Valid()
      modifies this
      ensures Valid()
      ensures Step(response, Snapshot()) == LoginStep(caps, old(Snapshot()), email, password, generatedSecret)
    {
      var found := CheckCredentials(email, password);
      if found.None? {
        return LoginFailed(STATUS_UNAUTHORIZED, MSG_INVALID_CREDENTIALS);
      }
      var id := found.value;
      var user := users[id];
      if !IsProvisioned(user.secret) {
        user := user.(secret := Some(generatedSecret));
        users := users[id := user];
      }
      var qrCodeUrl := caps.qrCodeUrl(caps.appName, user.email, user.secret.value);
      response := LoginChallenge(true, user.id, qrCodeUrl, user.secret.value);
      ApplyKeepsTokensAuthorized(caps, old(Snapshot()), LoginRequest(email, password, generatedSecret));
    }

    /** `verifyGoogleOtp`: check the user is set up, check the code, enable 2FA and issue a token. */
    method VerifyGoogleOtp(userId: int, otp: string, unixTime: int, freshToken: string)
      returns (response: VerifyResponse)
      requires Valid()
      modifies this
      ensures Valid()
      ensures Step(response, Snapshot()) == VerifyStep(caps, old(Snapshot()), userId, otp, unixTime, freshToken)
    {
      if userId !in users || !IsProvisioned(users[userId].secret) {
        return VerifyFailed(STATUS_BAD_REQUEST, MSG_NOT_SETUP);
      }
      var user := users[userId];
      var isValid := VerifyKey(caps.code, user.secret.value, otp, OTP_WINDOW, unixTime);
      if !isValid {
        return VerifyFailed(STATUS_UNAUTHORIZED, MSG_INVALID_OTP);
      }
      user := user.(enabled := true);
      users := users[userId := user];
      var token := freshToken;
      issuedTokens := issuedTokens + [(userId, token)];
      response := VerifySucceeded(MSG_LOGIN_SUCCESSFUL, token);
      ApplyKeepsTokensAuthorized(caps, old(Snapshot()), VerifyRequest(userId, otp, unixTime, freshToken));
    }
  }

  /** A client of the controller: the scenario of a first login followed by two verifications. */
  method FirstLoginScenario(caps: Capabilities, users: map<int, User>, id: int, password: string,
                            secret: string, unixTime: int, token: string, badOtp: string)
    returns (challenge: LoginResponse, first: VerifyResponse, second: VerifyResponse)
    requires WellFormed(users) && id in users && users[id].secret.None?
    requires caps.hashCheck(password, users[id].passwordHash)
    requires IsProvisioned(Some(secret))
    requires !VerifyKey(caps.code, secret, badOtp, OTP_WINDOW, unixTime)
    ensures challenge == LoginChallenge(true, id, caps.qrCodeUrl(caps.appName, users[id].email, secret), secret)
    ensures first == VerifySucceeded(MSG_LOGIN_SUCCESSFUL, token)
    ensures second == VerifyFailed(STATUS_UNAUTHORIZED, MSG_INVALID_OTP)
  {
    var controller := new AuthController(caps, users);
    challenge := controller.Login(users[id].email, password, secret);
    CurrentCodeAccepted(caps.code, secret, OTP_WINDOW, unixTime);
    first := controller.VerifyGoogleOtp(id, caps.code(secret, TimeStep(unixTime)), unixTime, token);
    assert controller.users[id].enabled;
    second := controller.VerifyGoogleOtp(id, badOtp, unixTime, token);
  }
}
