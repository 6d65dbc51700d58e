/**
  The user record the controller reads and saves, and the credential check
  that `Auth::attempt` performs against the store of users.
*/
module Users {
  import opened Wrappers

  /**
    A row of the users table as far as the 2FA flow sees it: the primary
    key, the e-mail used to log in and as the authenticator label, the
    stored password hash, the nullable TOTP secret and the enabled flag.
  */
  datatype User = User(
    id: int,
    email: string,
    passwordHash: string,
    secret: Option<string>,
    enabled: bool)

  /**
    PHP truthiness of the stored secret, which is what `!$user->google_2fa_secret`
    tests: null, the empty string and the string "0" all count as "no secret".
  */
  predicate IsProvisioned(secret: Option<string>) {
    secret.Some? && secret.value != "" && secret.value != "0"
  }

  /** The characters of an RFC 4648 base32 secret (A-Z, 2-7). */
  predicate Base32Secret(s: string) {
    forall i :: 0 <= i < |s| ==> ('A' <= s[i] <= 'Z' || '2' <= s[i] <= '7')
  }

  /** A non-empty base32 secret, the kind the generator produces, counts as provisioned. */
  lemma Base32SecretIsProvisioned(s: string)
    requires |s| > 0 && Base32Secret(s)
    ensures IsProvisioned(Some(s))
  {
    assert s[0] != '0';
  }

  /** Every record is stored under its own id. */
  ghost predicate KeyedById(users: map<int, User>) {
    forall id :: id in users ==> users[id].id == id
  }

  /** No two records share an e-mail (the unique index on the users table). */
  ghost predicate UniqueEmails(users: map<int, User>) {
    forall a, b :: a in users && b in users && users[a].email == users[b].email ==> a == b
  }

  ghost predicate WellFormed(users: map<int, User>) {
    KeyedById(users) && UniqueEmails(users)
  }

  /** The user the store finds for `email`, if any (`where email = ?`). */
  ghost function UserWithEmail(users: map<int, User>, email: string): (r: Option<int>)
    ensures r.Some? ==> r.value in users && users[r.value].email == email
    ensures r.None? ==> forall id :: id in users ==> users[id].email != email
  {
    if exists id :: id in users && users[id].email == email then
      var id :| id in users && users[id].email == email;
      Some(id)
    else
      None
  }

  /**
    `Auth::attempt`: the id of the user with this e-mail whose stored hash
    matches the password under `hashCheck(plain, hashed)`, or None.
  */
  ghost function Attempt(hashCheck: (string, string) -> bool, users: map<int, User>,
                         email: string, password: string): (r: Option<int>)
    requires UniqueEmails(users)
    ensures r.Some? ==> r.value in users && users[r.value].email == email
                        && hashCheck(password, users[r.value].passwordHash)
    ensures r.None? <==> forall id :: id in users && users[id].email == email
                                      ==> !hashCheck(password, users[id].passwordHash)
  {
    match UserWithEmail(users, email)
    case None => None
    case Some(id) => if hashCheck(password, users[id].passwordHash) then Some(id) else None
  }

  /**
    The credential check depends only on ids, e-mails and password hashes,
    so a store that changes nothing else answers it the same way.
  */
  lemma AttemptDependsOnCredentials(hashCheck: (string, string) -> bool,
                                    users: map<int, User>, users': map<int, User>,
                                    email: string, password: string)
    requires UniqueEmails(users) && UniqueEmails(users')
    requires users.Keys == users'.Keys
    requires forall id :: id in users ==> users'[id].email == users[id].email
                                          && users'[id].passwordHash == users[id].passwordHash
    ensures Attempt(hashCheck, users', email, password) == Attempt(hashCheck, users, email, password)
  {
    var r, r' := UserWithEmail(users, email), UserWithEmail(users', email);
    if r.Some? {
      assert users'[r.value].email == email;
    }
    if r'.Some? {
      assert users[r'.value].email == email;
    }
  }
}
