/** The social sign-in helpers of users/utils.py: the issuer check on a verified Google token
    and `register_social_user`, which authenticates an account created through the same
    provider with the shared social password, refuses one created through another, and
    creates a verified account with a profile for an unknown address. Token verification and
    JWT issuing are not modelled: the first is an input, the second is reduced to the id of
    the account that logs in. */
module UsersUtils {
  import opened Common
  import opened UsersModels
  import opened Store

  // ---------------------------------------------------------------------------
  // Google.validate

  /** What `Google.validate` returns: the token's claims, the error text, or nothing (the
      function falls off its end when the issuer is not Google). */
  datatype Validation = Claims(info: map<string, string>) | Invalid(text: string) | NoClaims

  const InvalidTokenText := "Token is invalid or has expired"

  /** `Google.validate`, given what `verify_oauth2_token` did with the token. A claim set
      without an issuer raises inside the `try` and is reported like a failed check. */
  function Validate(verified: Result<map<string, string>>): (v: Validation)
    ensures verified.Err? ==> v == Invalid(InvalidTokenText)
  {
    if verified.Err? then Invalid(InvalidTokenText)
    else if "iss" !in verified.value then Invalid(InvalidTokenText)
    else if Contains(verified.value["iss"], "accounts.google.com") then Claims(verified.value)
    else NoClaims
  }

  /** The claims come back exactly when the token verified and its issuer names
      accounts.google.com somewhere in it. */
  lemma {:induction false} ValidateClaimsIff(verified: Result<map<string, string>>)
    ensures Validate(verified).Claims? <==>
              verified.Ok? && "iss" in verified.value
              && exists k: nat :: OccursAt(verified.value["iss"], "accounts.google.com", k)
    ensures Validate(verified).Claims? ==> Validate(verified).info == verified.value
  {
    if verified.Ok? && "iss" in verified.value {
      ContainsIff(verified.value["iss"], "accounts.google.com");
    }
  }

  lemma GoogleIssuerAccepted(info: map<string, string>)
    requires "iss" in info && info["iss"] == "https://accounts.google.com"
    ensures Validate(Ok(info)) == Claims(info)
  {
    assert OccursAt(info["iss"], "accounts.google.com", 8);
    ContainsIff(info["iss"], "accounts.google.com");
  }

  // ---------------------------------------------------------------------------
  // register_social_user

  datatype SocialOutcome =
    | LoggedIn(userId: nat)
    | OtherProvider(detail: string)   // AuthenticationFailed
    | Crashed                         // `user.userprofile` on a failed `authenticate` or a missing profile

  /** `login_social_user` for the account `u` holding the address: `authenticate` returns it
      only when it is active and the social password is its password, and reading its
      profile raises when `authenticate` returned None or the account has no profile row. */
  function SocialLogin(u: User, profiles: map<nat, UserProfile>, socialPassword: string): (r: SocialOutcome)
    ensures r.LoggedIn? <==> u.isActive && CheckPassword(u.password, socialPassword) && u.id in profiles
    ensures r.LoggedIn? ==> r.userId == u.id
    ensures !r.LoggedIn? ==> r == Crashed
  {
    if u.isActive && CheckPassword(u.password, socialPassword) && u.id in profiles then LoggedIn(u.id)
    else Crashed
  }

  /** The account created for a new social address: not normalised (it is saved with
      `objects.create`), verified, marked with its provider, and holding the shared social
      password. */
  function SocialUser(id: nat, provider: string, email: string, username: string,
                      socialPassword: string): (u: User)
    ensures u.id == id && u.email == email && u.username == Some(username)
    ensures u.authProvider == provider && u.isVerified && u.isActive
    ensures !u.isAcademy && !u.isStaff && !u.isSuperuser && u.otp.None?
    ensures forall p :: CheckPassword(u.password, p) <==> p == socialPassword
  {
    DefaultUser(id, email, Some(username))
      .(password := Secret(socialPassword), authProvider := provider, isVerified := true)
  }

  /** `register_social_user`. The first account holding the address decides: the same
      provider goes through `login_social_user`, another provider is refused; an unknown
      address gets a new verified account and an empty profile, and is logged in. */
  method RegisterSocialUser(db: Database, provider: string, email: string, username: string,
                            socialPassword: string)
    returns (r: SocialOutcome)
    requires db.UsersKeyed() && db.EmailsUnique()
    modifies db`users, db`nextId, db`profiles
    ensures db.UsersKeyed() && db.EmailsUnique()
    ensures FindByEmail(old(db.users), email, old(db.nextId)).Some? ==>
              var u := old(db.users)[FindByEmail(old(db.users), email, old(db.nextId)).value];
              r == (if provider == u.authProvider then SocialLogin(u, old(db.profiles), socialPassword)
                    else OtherProvider("please continue login with " + u.authProvider))
              && db.users == old(db.users) && db.nextId == old(db.nextId) && db.profiles == old(db.profiles)
    ensures FindByEmail(old(db.users), email, old(db.nextId)).None? ==>
              var id := old(db.nextId);
              r == LoggedIn(id) && db.nextId == id + 1
              && db.users == old(db.users)[id := SocialUser(id, provider, email, username, socialPassword)]
              && db.profiles == old(db.profiles)[id := EmptyProfile(id)]
  {
    FindByEmailComplete(db.users, email, db.nextId);
    var existing := FindByEmail(db.users, email, db.nextId);
    if existing.Some? {
      var u := db.users[existing.value];
      if provider == u.authProvider {
        return SocialLogin(u, db.profiles, socialPassword);
      }
      return OtherProvider("please continue login with " + u.authProvider);
    }
    var id := db.nextId;
    var created := DefaultUser(id, email, Some(username));
    AddUser(db.users, id, created);
    db.users := db.users[id := created];
    db.nextId := db.nextId + 1;
    var saved := created.(password := Secret(socialPassword), authProvider := provider, isVerified := true);
    UpdateUser(db.users, db.nextId, saved);
    db.users := db.users[id := saved];
    db.profiles := db.profiles[id := EmptyProfile(id)];
    r := SocialLogin(db.users[id], db.profiles, socialPassword);
  }

  /** A blocked account, or one whose password was changed since it was created, never gets
      through social sign-in: `authenticate` refuses it and reading its profile then raises. */
  lemma SocialLoginNeedsActive(u: User, profiles: map<nat, UserProfile>, socialPassword: string)
    requires !u.isActive || !CheckPassword(u.password, socialPassword)
    ensures SocialLogin(u, profiles, socialPassword) == Crashed
  {
  }

  /** The account created for a new address passes `login_social_user` once its profile exists. */
  lemma NewSocialUserLogsIn(id: nat, provider: string, email: string, username: string,
                             socialPassword: string, profiles: map<nat, UserProfile>)
    requires id in profiles
    ensures SocialLogin(SocialUser(id, provider, email, username, socialPassword), profiles, socialPassword)
            == LoggedIn(id)
  {
    var u := SocialUser(id, provider, email, username, socialPassword);
    assert CheckPassword(u.password, socialPassword);
  }
}
