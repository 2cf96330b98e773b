/** The account views of users/views.py: signup validation, OTP verification, the login
    check chain, password reset and the search listing. Requests are given as their parsed
    bodies; the e-mail syntax check, the serializer's field validation and the search's
    text matching are passed in as their results. */
module UsersViews {
  import opened Common
  import opened UsersModels
  import opened ProfileModels
  import opened TrialModels
  import opened RealTimeModels
  import opened Store
  import opened UserSerializer
  import opened SignupForm

  // ---------------------------------------------------------------------------
  // Signup.post

  datatype SignupReply =
    | InvalidFields(messages: seq<string>)   // 400 with `errors.values()`
    | SignupFailed(text: string)             // 400 with the exception text
    | SignupDone                             // 200 "Registration Successful, ..."

  /** The address the request submits (the last "email" value), or "" when it has none. */
  function SubmittedEmail(data: Form): (e: string)
    ensures "email" in data && QueryItem(data["email"]).VStr? ==> e == QueryItem(data["email"]).s
  {
    if "email" in data && QueryItem(data["email"]).VStr? then QueryItem(data["email"]).s else ""
  }

  /** The payload `create` receives: the serializer's verdict on the other fields, with the
      address as its `EmailField` cleans it (surrounding whitespace stripped). */
  function Payload(data: Form, validated: SignupData): (d: SignupData)
    ensures d.(email := validated.email) == validated
    ensures d.email == Strip(SubmittedEmail(data))
  {
    validated.(email := Strip(SubmittedEmail(data)))
  }

  /** `Signup.post`. The field checks build `errors` entry by entry; any error answers 400
      and changes nothing; otherwise the serializer's validation runs, then its `create`
      on the cleaned payload, and the OTP mail is queued for the address as submitted. */
  method Signup(db: Database, data: Form, validEmail: string -> bool, validated: Result<SignupData>)
    returns (reply: SignupReply)
    requires db.UsersKeyed() && db.EmailsUnique()
    modifies db`users, db`nextId, db`sports, db`profiles, db`academies, db`jobs
    ensures db.UsersKeyed() && db.EmailsUnique()
    ensures var errors := SignupErrors(data, validEmail, EmailInUse(old(db.users), data));
            errors != [] ==> reply == InvalidFields(Values(errors))
    ensures var errors := SignupErrors(data, validEmail, EmailInUse(old(db.users), data));
            errors == [] && validated.Err? ==> reply == SignupFailed(validated.error)
    ensures reply == SignupDone <==>
              SignupErrors(data, validEmail, EmailInUse(old(db.users), data)) == []
              && validated.Ok? && MissingKey(validated.value).None?
              && forall id :: id in old(db.users) ==> old(db.users)[id].email != Strip(SubmittedEmail(data))
    ensures reply == SignupDone ==>
              var id := old(db.nextId);
              var d := Payload(data, validated.value);
              db.nextId == id + 1
              && db.users == old(db.users)[id := NewAccount(id, d, d.password.value)]
              && db.sports == old(db.sports) + SportRows(id, d.sport.value)
              && db.profiles == old(db.profiles)[id := EmptyProfile(id).(state := d.state, district := d.district)]
              && db.academies == (if Filled(d.license) then old(db.academies)[id := Academy(id, d.license, false)]
                                  else old(db.academies))
              && db.jobs == old(db.jobs) + [SendOtp(SubmittedEmail(data))]
    ensures reply != SignupDone ==>
              db.users == old(db.users) && db.nextId == old(db.nextId) && db.jobs == old(db.jobs)
              && db.sports == old(db.sports) && db.profiles == old(db.profiles)
              && db.academies == old(db.academies)
  {
    var errors := CollectSignupErrors(db.users, data, validEmail);
    if errors != [] {
      return InvalidFields(Values(errors));
    }
    if validated.Err? {
      return SignupFailed(validated.error);
    }
    reply := CreateAndMail(db, Payload(data, validated.value), SubmittedEmail(data));
  }

  /** The end of `Signup.post`: `create` on the payload, then the OTP mail to `submitted`
      when it succeeded. */
  method CreateAndMail(db: Database, d: SignupData, submitted: string) returns (reply: SignupReply)
    requires db.UsersKeyed() && db.EmailsUnique()
    modifies db`users, db`nextId, db`sports, db`profiles, db`academies, db`jobs
    ensures db.UsersKeyed() && db.EmailsUnique()
    ensures reply == SignupDone <==>
              MissingKey(d).None? && forall id :: id in old(db.users) ==> old(db.users)[id].email != d.email
    ensures reply != SignupDone ==> reply.SignupFailed?
    ensures reply == SignupDone ==>
              var id := old(db.nextId);
              db.nextId == id + 1
              && db.users == old(db.users)[id := NewAccount(id, d, d.password.value)]
              && db.sports == old(db.sports) + SportRows(id, d.sport.value)
              && db.profiles == old(db.profiles)[id := EmptyProfile(id).(state := d.state, district := d.district)]
              && db.academies == (if Filled(d.license) then old(db.academies)[id := Academy(id, d.license, false)]
                                  else old(db.academies))
              && db.jobs == old(db.jobs) + [SendOtp(submitted)]
    ensures reply != SignupDone ==>
              db.users == old(db.users) && db.nextId == old(db.nextId) && db.jobs == old(db.jobs)
              && db.sports == old(db.sports) && db.profiles == old(db.profiles)
              && db.academies == old(db.academies)
  {
    var created := Create(db, d);
    if created.Err? {
      return SignupFailed(created.error);
    }
    db.jobs := db.jobs + [SendOtp(submitted)];
    reply := SignupDone;
  }

  // ---------------------------------------------------------------------------
  // The account a request's "email" value names

  /** `Users.objects.get(email=...)` on the request's "email" value, with the rows keyed below
      `n`: the owner of that address, if the value is a string some account holds. */
  function EmailOwner(users: map<nat, User>, n: nat, data: map<string, Value>): (r: Option<nat>)
    ensures r.Some? ==> r.value in users && Get(data, "email") == Some(VStr(users[r.value].email))
    ensures r.None? ==> forall id :: id < n && id in users ==> Get(data, "email") != Some(VStr(users[id].email))
  {
    match Get(data, "email")
    case Some(VStr(e)) => FindByEmail(users, e, n)
    case _ => None
  }

  // ---------------------------------------------------------------------------
  // VerifyOtp.put

  const TokenExpiredMessage := "Your token has been expired try login again "

  /** The account once its OTP is used: the code is cleared and the account verified. */
  function Verified(u: User): (v: User)
    ensures v.otp.None? && v.isVerified
    ensures v == u.(otp := None, isVerified := true)
  {
    u.(otp := None, isVerified := true)
  }

  /** The answer to an OTP check against the stored code of `u`. Only the very string stored
      matches: a number, a boolean or a missing value never does. */
  function OtpCheck(u: User, otp: Option<Value>): (r: Reply)
    ensures !Filled(u.otp) ==> r == Reply(400, "OTP Expired try resending otp")
    ensures r.status == 200 <==> Filled(u.otp) && otp == Some(VStr(u.otp.value))
    ensures r.status == 200 ==> r.message == "OTP Verified"
    ensures Filled(u.otp) && otp != Some(VStr(u.otp.value)) ==> r == Reply(400, "Invalid OTP")
  {
    if !Filled(u.otp) then Reply(400, "OTP Expired try resending otp")
    else if otp == Some(VStr(u.otp.value)) then Reply(200, "OTP Verified")
    else Reply(400, "Invalid OTP")
  }

  /** An OTP works once: after a successful check every further attempt is told the code has
      expired, whatever it submits. */
  lemma OtpSingleUse(u: User, otp: Option<Value>, again: Option<Value>)
    requires OtpCheck(u, otp).status == 200
    ensures OtpCheck(Verified(u), again) == Reply(400, "OTP Expired try resending otp")
  {
  }

  /** The code submitted as a JSON number is never the stored string. */
  lemma NumericOtpRejected(u: User, code: int)
    ensures OtpCheck(u, Some(VInt(code))).status == 400
  {
  }

  /** `VerifyOtp.put`. An address no account holds (or none at all) answers that the token has
      expired; otherwise the stored code is checked and, on a match, cleared and the account
      marked verified. No other row changes. */
  method VerifyOtp(db: Database, data: map<string, Value>) returns (reply: Reply)
    requires db.UsersKeyed() && db.EmailsUnique()
    modifies db`users
    ensures db.UsersKeyed() && db.EmailsUnique()
    ensures EmailOwner(old(db.users), db.nextId, data).None? ==>
              reply == Reply(400, TokenExpiredMessage) && db.users == old(db.users)
    ensures EmailOwner(old(db.users), db.nextId, data).Some? ==>
              var id := EmailOwner(old(db.users), db.nextId, data).value;
              reply == OtpCheck(old(db.users)[id], Get(data, "otp"))
              && db.users == (if reply.status == 200 then old(db.users)[id := Verified(old(db.users)[id])]
                              else old(db.users))
  {
    var owner := EmailOwner(db.users, db.nextId, data);
    if owner.None? {
      return Reply(400, TokenExpiredMessage);
    }
    var user := db.users[owner.value];
    reply := OtpCheck(user, Get(data, "otp"));
    if reply.status == 200 {
      UpdateUser(db.users, db.nextId, Verified(user));
      db.users := db.users[user.id := Verified(user)];
    }
  }

  // ---------------------------------------------------------------------------
  // Login.post

  datatype LoginReply =
    | Refused(status: nat, message: string)
    | AdminLogin(username: Option<string>, userId: nat)  // 200 with role "admin"
    | Unverified(email: string)                          // 403 "You are not verified"; the OTP is mailed
    | Granted(username: Option<string>, role: string, dob: Option<string>, userId: nat,
              profilePhoto: Option<string>, notificationCount: nat)
    | Crashed                                            // `Academy.objects.get` found no row

  /** `data.get(key, None) is None`: the key is absent or holds JSON null. */
  predicate Absent(data: map<string, Value>, key: string)
  {
    key !in data || data[key] == VNull
  }

  /** Whether the request asks for an academy login (`is_academy` present and truthy). */
  predicate AcademyLogin(data: map<string, Value>)
  {
    "is_academy" in data && Truthy(data["is_academy"])
  }

  /** Whether the request asks for an admin login: the `is_staff` key is present, whatever
      it holds. */
  predicate StaffLogin(data: map<string, Value>)
  {
    "is_staff" in data
  }

  /** `user.check_password(password)`: the hasher encodes `str(password)`, so a JSON number
      or boolean matches the password set from its text. */
  function PasswordMatches(u: User, data: map<string, Value>): (b: bool)
    ensures "password" !in data ==> !b
    ensures "password" in data && data["password"].VStr? ==>
              (b <==> CheckPassword(u.password, data["password"].s))
    ensures "password" in data && data["password"].VInt? ==>
              (b <==> u.password == Secret(IntToString(data["password"].i)))
    ensures "password" in data && data["password"].VBool? ==>
              (b <==> u.password == Secret(if data["password"].b then "True" else "False"))
    ensures "password" in data && data["password"].VList? ==> !b
  {
    "password" in data && PyStr(data["password"]).Some?
    && CheckPassword(u.password, PyStr(data["password"]).value)
  }

  /** A password sent as the JSON number `n` logs in an account whose password was set to
      the text of `n`, exactly as the text itself does. */
  lemma NumericPasswordMatches(u: User, data: map<string, Value>, n: int)
    requires "password" in data && data["password"] == VInt(n)
    ensures PasswordMatches(u, data) == PasswordMatches(u, data["password" := VStr(IntToString(n))])
  {
  }

  /** The check chain of `Login.post`, in source order; the first failing check answers. */
  function LoginCheck(data: map<string, Value>, users: map<nat, User>, n: nat,
                      academies: map<nat, Academy>, profiles: map<nat, UserProfile>,
                      notifications: seq<Notification>): (r: LoginReply)
    ensures r.Refused? ==> r.status == 400
    ensures r.Granted? ==> r.role in {"academy", "player"}
  {
    if Absent(data, "email") then Refused(400, "email field is required")
    else if Absent(data, "password") then Refused(400, "password field is required")
    else
      match EmailOwner(users, n, data)
      case None => Refused(400, "Email Does Not Exists")
      case Some(id) => AccountCheck(data, users[id], academies, profiles, notifications)
  }

  /** The checks of `Login.post` once the account `u` is found. */
  function AccountCheck(data: map<string, Value>, u: User, academies: map<nat, Academy>,
                        profiles: map<nat, UserProfile>, notifications: seq<Notification>): (r: LoginReply)
    ensures r.Refused? ==> r.status == 400
    ensures r.Granted? ==> r.role in {"academy", "player"}
  {
    if !PasswordMatches(u, data) then Refused(400, "Invalid Password")
    else if (!StaffLogin(data) && u.isSuperuser) || (u.isStaff && !StaffLogin(data)) then
      Refused(400, "Admin cannot loggin as user")
    else if StaffLogin(data) && !u.isStaff then Refused(400, "You are not an admin ")
    else if !u.isActive then Refused(400, "You are blocked")
    else if u.isAcademy && !AcademyLogin(data) then
      Refused(400, "You are signed in as acadmey try academy login")
    else if !u.isAcademy && AcademyLogin(data) then
      Refused(400, "You are signed in as player try player login")
    else if StaffLogin(data) && u.isStaff then AdminLogin(u.username, u.id)
    else if !u.isVerified then Unverified(u.email)
    else if AcademyLogin(data) && u.id !in academies then Crashed
    else if AcademyLogin(data) && !academies[u.id].isCertified then
      Refused(400, "You are not approved by admin ")
    else
      Granted(u.username, if AcademyLogin(data) then "academy" else "player", u.dob, u.id,
              if u.id in profiles then profiles[u.id].profilePhoto else None,
              UnseenCount(notifications, u.id))
  }

  /** The two presence checks and the account lookup come first: their answers depend on
      nothing but the request and the stored addresses. */
  lemma LoginFieldsFirst(data: map<string, Value>, users: map<nat, User>, n: nat,
                         academies: map<nat, Academy>, profiles: map<nat, UserProfile>,
                         notifications: seq<Notification>)
    ensures Absent(data, "email") ==>
              LoginCheck(data, users, n, academies, profiles, notifications)
              == Refused(400, "email field is required")
    ensures !Absent(data, "email") && Absent(data, "password") ==>
              LoginCheck(data, users, n, academies, profiles, notifications)
              == Refused(400, "password field is required")
    ensures !Absent(data, "email") && !Absent(data, "password") && EmailOwner(users, n, data).None? ==>
              LoginCheck(data, users, n, academies, profiles, notifications)
              == Refused(400, "Email Does Not Exists")
  {
  }

  /** An admin login succeeds exactly for an active staff account, asked for as admin, with
      the right password and a matching academy flag; it is decided before any verification,
      certification or notification lookup. */
  lemma LoginAdminIff(data: map<string, Value>, u: User, academies: map<nat, Academy>,
                      profiles: map<nat, UserProfile>, notifications: seq<Notification>)
    ensures AccountCheck(data, u, academies, profiles, notifications).AdminLogin?
            <==> PasswordMatches(u, data) && StaffLogin(data) && u.isStaff && u.isActive
                 && (u.isAcademy <==> AcademyLogin(data))
    ensures AccountCheck(data, u, academies, profiles, notifications).AdminLogin? ==>
              AccountCheck(data, u.(isVerified := false), map[], map[], []) == AdminLogin(u.username, u.id)
  {
  }

  /** A player or academy login succeeds exactly when the password is right, no admin flag
      is involved, the account is active, verified and logs in with its own role, and an
      academy is certified; the reply then counts the unseen notifications. */
  lemma LoginGrantedIff(data: map<string, Value>, u: User, academies: map<nat, Academy>,
                        profiles: map<nat, UserProfile>, notifications: seq<Notification>)
    ensures AccountCheck(data, u, academies, profiles, notifications).Granted? <==>
              PasswordMatches(u, data) && !StaffLogin(data) && !u.isStaff && !u.isSuperuser
              && u.isActive && (u.isAcademy <==> AcademyLogin(data)) && u.isVerified
              && (AcademyLogin(data) ==> u.id in academies && academies[u.id].isCertified)
    ensures var r := AccountCheck(data, u, academies, profiles, notifications);
            r.Granted? ==>
              r.userId == u.id && r.notificationCount == UnseenCount(notifications, u.id)
              && (r.role == "academy" <==> u.isAcademy)
  {
  }

  /** An unverified account with every earlier check passed is refused with 403 and named,
      so that the OTP mail goes to its address. */
  lemma LoginUnverifiedIff(data: map<string, Value>, u: User, academies: map<nat, Academy>,
                           profiles: map<nat, UserProfile>, notifications: seq<Notification>)
    ensures var r := AccountCheck(data, u, academies, profiles, notifications);
            r.Unverified? <==>
              PasswordMatches(u, data) && !StaffLogin(data) && !u.isStaff && !u.isSuperuser
              && u.isActive && (u.isAcademy <==> AcademyLogin(data)) && !u.isVerified
    ensures var r := AccountCheck(data, u, academies, profiles, notifications);
            r.Unverified? ==> r.email == u.email
  {
  }

  /** `Login.post`: the check chain, and the OTP mail queued for an unverified account. */
  method Login(db: Database, data: map<string, Value>) returns (r: LoginReply)
    modifies db`jobs
    ensures r == LoginCheck(data, db.users, db.nextId, db.academies, db.profiles, db.notifications)
    ensures db.jobs == old(db.jobs) + (if r.Unverified? then [SendOtp(r.email)] else [])
  {
    r := LoginCheck(data, db.users, db.nextId, db.academies, db.profiles, db.notifications);
    if r.Unverified? {
      db.jobs := db.jobs + [SendOtp(r.email)];
    }
  }

  // ---------------------------------------------------------------------------
  // ForgetPassword.post

  const NotValidMessage := "Email is not valid, Try signin"

  /** `user.set_password(value)` for a request value: a string becomes the new secret, null
      leaves an unusable password, anything else raises (`None`). */
  function PasswordFrom(v: Value): (p: Option<Password>)
    ensures v.VStr? ==> p == Some(Secret(v.s))
    ensures v == VNull ==> p == Some(Unusable)
    ensures p.None? <==> !v.VStr? && v != VNull
  {
    match v
    case VStr(s) => Some(Secret(s))
    case VNull => Some(Unusable)
    case _ => None
  }

  /** `ForgetPassword.post`. With a password in the request the account's password is
      replaced outright (no OTP is asked for); with only an address, a known address is sent
      an OTP. */
  method ForgetPassword(db: Database, data: map<string, Value>) returns (reply: Reply)
    requires db.UsersKeyed() && db.EmailsUnique()
    modifies db`users, db`jobs
    ensures db.UsersKeyed() && db.EmailsUnique()
    ensures "email" !in data ==>
              reply == Reply(400, NotValidMessage) && db.users == old(db.users) && db.jobs == old(db.jobs)
    ensures "email" in data && "password" in data && EmailOwner(old(db.users), db.nextId, data).None? ==>
              reply == Reply(400, "Account does not exist")
              && db.users == old(db.users) && db.jobs == old(db.jobs)
    ensures "email" in data && "password" in data && EmailOwner(old(db.users), db.nextId, data).Some? ==>
              var id := EmailOwner(old(db.users), db.nextId, data).value;
              db.jobs == old(db.jobs)
              && (PasswordFrom(data["password"]).None? ==>
                    reply == Reply(400, "Internal Server Error") && db.users == old(db.users))
              && (PasswordFrom(data["password"]).Some? ==>
                    reply == Reply(200, "Password Resetted successfully")
                    && db.users == old(db.users)[id := old(db.users)[id].(password := PasswordFrom(data["password"]).value)])
    ensures "email" in data && "password" !in data && EmailOwner(old(db.users), db.nextId, data).None? ==>
              reply == Reply(400, NotValidMessage) && db.users == old(db.users) && db.jobs == old(db.jobs)
    ensures "email" in data && "password" !in data && EmailOwner(old(db.users), db.nextId, data).Some? ==>
              reply == Reply(200, "Email is valid") && db.users == old(db.users)
              && db.jobs == old(db.jobs) + [SendOtp(data["email"].s)]
  {
    if "email" !in data {
      return Reply(400, NotValidMessage);
    }
    var owner := EmailOwner(db.users, db.nextId, data);
    if "password" in data {
      if owner.None? {
        return Reply(400, "Account does not exist");
      }
      var user := db.users[owner.value];
      var password := PasswordFrom(data["password"]);
      if password.None? {
        return Reply(400, "Internal Server Error");
      }
      UpdateUser(db.users, db.nextId, user.(password := password.value));
      db.users := db.users[user.id := user.(password := password.value)];
      return Reply(200, "Password Resetted successfully");
    }
    if owner.Some? {
      db.jobs := db.jobs + [SendOtp(data["email"].s)];
      return Reply(200, "Email is valid");
    }
    reply := Reply(400, NotValidMessage);
  }
}
