/** The Celery task `send_otp` of users/task.py: it draws a six-digit code, stores it on the
    account holding the address it was given and mails it. The random draw is a parameter,
    the mail is not modelled, and a lookup that finds no account raises inside the task's
    `try`, whose `except` swallows it, so nothing changes. */
module UsersTask {
  import opened Common
  import opened UsersModels
  import opened Store
  import opened UserSerializer
  import opened UsersViews

  /** A drawn code has six digits. */
  lemma SixDigits(code: nat)
    requires 100000 <= code <= 999999
    ensures |NatToString(code)| == 6
  {
    var a := code / 10;
    var b := a / 10;
    var c := b / 10;
    var d := c / 10;
    var e := d / 10;
    assert 10000 <= a && 1000 <= b && 100 <= c && 10 <= d && 1 <= e < 10;
    OneMoreDigit(code);
    OneMoreDigit(a);
    OneMoreDigit(b);
    OneMoreDigit(c);
    OneMoreDigit(d);
  }

  lemma OneMoreDigit(n: nat)
    requires n >= 10
    ensures |NatToString(n)| == |NatToString(n / 10)| + 1
  {
  }

  /** What the `otp` column holds after `user.otp = otp; user.save()`: a `CharField` saves
      `str(otp)`, six digits, within its `max_length` of 10. */
  function OtpText(code: nat): (s: string)
    requires 100000 <= code <= 999999
    ensures |s| == 6 && |s| <= 10 && AllDigits(s)
  {
    SixDigits(code);
    NatToString(code)
  }

  /** The users table after `send_otp(email)` has drawn `code`: the account the lookup finds
      holds the code; no other account and no other column changes. */
  function WithOtp(users: map<nat, User>, n: nat, email: string, code: nat): (r: map<nat, User>)
    requires 100000 <= code <= 999999
    ensures r.Keys == users.Keys
    ensures forall id :: id in users ==> r[id].(otp := users[id].otp) == users[id]
    ensures forall id :: id in users && users[id].email != email ==> r[id] == users[id]
    ensures FindByEmail(users, email, n).Some? ==>
              r[FindByEmail(users, email, n).value].otp == Some(OtpText(code))
  {
    match FindByEmail(users, email, n)
    case None => users
    case Some(id) => users[id := users[id].(otp := Some(OtpText(code)))]
  }

  /** `send_otp`: the code is stored on the owner of `email`; without an owner the table is
      unchanged. */
  method RunSendOtp(db: Database, email: string, code: nat)
    requires 100000 <= code <= 999999
    requires db.UsersKeyed() && db.EmailsUnique()
    modifies db`users
    ensures db.UsersKeyed() && db.EmailsUnique()
    ensures db.users == WithOtp(old(db.users), db.nextId, email, code)
  {
    var owner := FindByEmail(db.users, email, db.nextId);
    if owner.Some? {
      var u := db.users[owner.value];
      var v := u.(otp := Some(OtpText(code)));
      UpdateUser(db.users, db.nextId, v);
      db.users := db.users[u.id := v];
    }
  }

  /** The search by address does not look at the other columns: two tables with the same
      rows and addresses give the same owner. */
  lemma {:induction false} FindByEmailSameAddresses(users: map<nat, User>, users': map<nat, User>,
                                                    email: string, n: nat)
    requires users.Keys == users'.Keys
    requires forall id :: id in users ==> users'[id].email == users[id].email
    ensures FindByEmail(users', email, n) == FindByEmail(users, email, n)
  {
    if n > 0 {
      FindByEmailSameAddresses(users, users', email, n - 1);
    }
  }

  /** The code `send_otp` stores verifies: a following `VerifyOtp` request with the same
      address and the code as text finds the account it was stored on and accepts. */
  lemma SentCodeVerifies(users: map<nat, User>, n: nat, email: string, code: nat)
    requires 100000 <= code <= 999999
    requires KeyedBelow(users, n) && UniqueEmails(users)
    requires exists id :: id in users && users[id].email == email
    ensures var data := map["email" := VStr(email), "otp" := VStr(OtpText(code))];
            var after := WithOtp(users, n, email, code);
            var owner := EmailOwner(after, n, data);
            owner.Some? && after[owner.value].email == email
            && OtpCheck(after[owner.value], Get(data, "otp")) == Reply(200, "OTP Verified")
  {
    var data := map["email" := VStr(email), "otp" := VStr(OtpText(code))];
    var after := WithOtp(users, n, email, code);
    FindByEmailComplete(users, email, n);
    FindByEmailSameAddresses(users, after, email, n);
    assert Get(data, "email") == Some(VStr(email));
    assert Get(data, "otp") == Some(VStr(OtpText(code)));
  }

  /** `Signup.post` stores the address stripped but queues `send_otp` with the address as
      submitted: when the two differ, the new account never receives a code, and verifying
      it answers that the OTP has expired. */
  lemma PaddedSignupGetsNoCode(users: map<nat, User>, n: nat, id: nat, d: SignupData,
                               password: string, submitted: string, code: nat, otp: Option<Value>)
    requires 100000 <= code <= 999999
    requires d.email == Strip(submitted) && d.email != submitted
    requires id in users && users[id] == NewAccount(id, d, password)
    ensures WithOtp(users, n, submitted, code)[id] == users[id]
    ensures OtpCheck(WithOtp(users, n, submitted, code)[id], otp) == Reply(400, "OTP Expired try resending otp")
  {
  }
}
