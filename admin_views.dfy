/** The admin actions of admin/views.py: blocking and unblocking an account, approving or
    denying an academy (with the alert mail), and the per-academy totals of registration
    fees, accumulated in an insertion-ordered dictionary. The statuses are the `status`
    members of the JSON bodies. */
module AdminViews {
  import opened Common
  import opened UsersModels
  import opened TrialModels
  import opened Store
  import opened ProfileModels
  import opened RealTimeModels
  import opened UsersViews

  // ---------------------------------------------------------------------------
  // ToggleActive.post

  /** `ToggleActive.post` for the user `id` and the request's `value`: a truthy value
      activates the account when it is "active" and blocks it otherwise. */
  method ToggleActive(db: Database, id: nat, value: Option<Value>) returns (reply: Reply)
    requires db.UsersKeyed() && db.EmailsUnique()
    modifies db`users
    ensures db.UsersKeyed() && db.EmailsUnique()
    ensures id !in old(db.users) ==> reply == Reply(400, "Updation failed") && db.users == old(db.users)
    ensures id in old(db.users) ==> reply == Reply(200, "Updated successfully")
    ensures id in old(db.users) && value.Some? && Truthy(value.value) ==>
              db.users == old(db.users)[id := old(db.users)[id].(isActive := value.value == VStr("active"))]
    ensures !(value.Some? && Truthy(value.value)) ==> db.users == old(db.users)
  {
    if id !in db.users {
      return Reply(400, "Updation failed");
    }
    if value.Some? && Truthy(value.value) {
      var u := db.users[id].(isActive := value.value == VStr("active"));
      UpdateUser(db.users, db.nextId, u);
      db.users := db.users[id := u];
    }
    reply := Reply(200, "Updated successfully");
  }

  /** A blocked account gets no login at all, whatever the request says. */
  lemma BlockedCannotLogin(data: map<string, Value>, u: User, academies: map<nat, Academy>,
                           profiles: map<nat, UserProfile>, notifications: seq<Notification>)
    ensures var r := AccountCheck(data, u.(isActive := false), academies, profiles, notifications);
            !r.Granted? && !r.AdminLogin? && !r.Unverified?
  {
    LoginAdminIff(data, u.(isActive := false), academies, profiles, notifications);
    LoginGrantedIff(data, u.(isActive := false), academies, profiles, notifications);
    LoginUnverifiedIff(data, u.(isActive := false), academies, profiles, notifications);
  }

  // ---------------------------------------------------------------------------
  // ToggleIsCertified.post

  /** `ToggleIsCertified.post`: a truthy value approves the academy when it is "approve"
      and denies it otherwise, and queues the alert to the account's address; a missing
      or falsy value saves the row unchanged and mails nothing. */
  method ToggleIsCertified(db: Database, id: nat, value: Option<Value>) returns (reply: Reply)
    modifies db`academies, db`jobs
    ensures id !in old(db.users) || id !in old(db.academies) ==>
              reply == Reply(400, "some error") && db.academies == old(db.academies) && db.jobs == old(db.jobs)
    ensures id in old(db.users) && id in old(db.academies) ==>
              reply == Reply(200, "Certification updated successfully")
    ensures id in old(db.users) && id in old(db.academies) && value.Some? && Truthy(value.value) ==>
              var approved := value.value == VStr("approve");
              db.academies == old(db.academies)[id := old(db.academies)[id].(isCertified := approved)]
              && db.jobs == old(db.jobs) + [CertificationAlert(approved, old(db.users)[id].email)]
    ensures !(value.Some? && Truthy(value.value)) ==> db.academies == old(db.academies) && db.jobs == old(db.jobs)
  {
    if id !in db.users || id !in db.academies {
      return Reply(400, "some error");
    }
    if value.Some? && Truthy(value.value) {
      var approved := value.value == VStr("approve");
      db.academies := db.academies[id := db.academies[id].(isCertified := approved)];
      db.jobs := db.jobs + [CertificationAlert(approved, db.users[id].email)];
    }
    reply := Reply(200, "Certification updated successfully");
  }

  /** A denied academy is refused at login, even with every other check passed. */
  lemma DeniedAcademyCannotLogin(data: map<string, Value>, u: User, academies: map<nat, Academy>,
                                 profiles: map<nat, UserProfile>, notifications: seq<Notification>)
    requires u.id in academies && AcademyLogin(data)
    ensures var denied := academies[u.id := academies[u.id].(isCertified := false)];
            !AccountCheck(data, u, denied, profiles, notifications).Granted?
  {
    var denied := academies[u.id := academies[u.id].(isCertified := false)];
    LoginGrantedIff(data, u, denied, profiles, notifications);
  }

  // ---------------------------------------------------------------------------
  // AccountsView.get

  /** One payment: the academy of its trial and the trial's fee. */
  datatype Payment = Payment(academy: Option<nat>, fee: Option<int>)

  /** The registrations of active paid trials among ids below `n`, in id order (the join
      on `trial` skips rows whose trial is gone). Their payment status plays no part. */
  function Payments(regs: map<nat, Registration>, trials: map<nat, Trial>, n: nat): (ps: seq<Payment>)
    ensures |ps| <= n
  {
    if n == 0 then []
    else
      Payments(regs, trials, n - 1)
      + (if n - 1 in regs && regs[n - 1].trial in trials
            && trials[regs[n - 1].trial].isRegistrationFee && trials[regs[n - 1].trial].isActive
         then [Payment(trials[regs[n - 1].trial].academy, trials[regs[n - 1].trial].registrationFee)]
         else [])
  }

  /** Changing payment statuses (or anything but the trial of a registration) does not
      change the payments counted. */
  lemma {:induction false} PaymentsIgnoreStatus(regs: map<nat, Registration>, regs': map<nat, Registration>,
                                                trials: map<nat, Trial>, n: nat)
    requires regs.Keys == regs'.Keys
    requires forall id :: id in regs ==> regs[id].trial == regs'[id].trial
    ensures Payments(regs, trials, n) == Payments(regs', trials, n)
  {
    if n > 0 {
      PaymentsIgnoreStatus(regs, regs', trials, n - 1);
    }
  }

  /** One entry of the answer. */
  datatype AcademyTotal = AcademyTotal(academyId: nat, academyName: Option<string>, totalAmount: Option<int>)

  const NoAcademyId := "'NoneType' object has no attribute 'id'"

  /** The text of the `TypeError` that `total += fee` raises when either side is null. */
  function FeeTypeError(total: Option<int>, fee: Option<int>): string
  {
    "unsupported operand type(s) for +=: '" + (if total.Some? then "int" else "NoneType")
    + "' and '" + (if fee.Some? then "int" else "NoneType") + "'"
  }

  /** The dictionary after the first `n` payments, or the exception the loop raises: a
      trial without academy, an academy row the lookup cannot find, or adding a null fee.
      What the dictionary holds is stated by the lemmas `TallyTotals` (each entry is its
      academy's fee sum, keys distinct) and `NoPaymentNoFees`. */
  function Tally(ps: seq<Payment>, users: map<nat, User>, n: nat): (r: Result<seq<(nat, AcademyTotal)>>)
    requires n <= |ps|
  {
    if n == 0 then Ok([])
    else
      match Tally(ps, users, n - 1)
      case Err(e) => Err(e)
      case Ok(d) =>
        var p := ps[n - 1];
        if p.academy.None? then Err(NoAcademyId)
        else if p.academy.value !in users then Err(NotFound)
        else
          var a := p.academy.value;
          match DictGet(d, a)
          case Some(e) =>
            if e.totalAmount.Some? && p.fee.Some?
            then Ok(DictSet(d, a, e.(totalAmount := Some(e.totalAmount.value + p.fee.value))))
            else Err(FeeTypeError(e.totalAmount, p.fee))
          case None => Ok(DictSet(d, a, AcademyTotal(a, users[a].username, p.fee)))
  }

  const NotFound := "DoesNotExist"

  /** The fees of academy `a`'s payments among the first `n`, a null fee counting 0. */
  function FeeSum(ps: seq<Payment>, a: nat, n: nat): int
    requires n <= |ps|
  {
    if n == 0 then 0
    else FeeSum(ps, a, n - 1) + (if ps[n - 1].academy == Some(a) && ps[n - 1].fee.Some? then ps[n - 1].fee.value else 0)
  }

  /** Some payment among the first `n` belongs to academy `a`. */
  predicate PaidTo(ps: seq<Payment>, a: nat, n: nat)
    requires n <= |ps|
  {
    exists i :: 0 <= i < n && ps[i].academy == Some(a)
  }

  /** What the totals mean: one entry per academy that has a payment, no academy twice,
      each entry naming its academy, and a total that is the sum of that academy's fees. */
  lemma {:induction false} TallyTotals(ps: seq<Payment>, users: map<nat, User>, n: nat)
    requires n <= |ps| && Tally(ps, users, n).Ok?
    ensures var d := Tally(ps, users, n).value;
            KeysDistinct(d)
            && (forall a :: HasKey(d, a) <==> PaidTo(ps, a, n))
            && (forall a :: DictGet(d, a).Some? ==>
                  var e := DictGet(d, a).value;
                  e.academyId == a && a in users && e.academyName == users[a].username
                  && (e.totalAmount.Some? ==> e.totalAmount.value == FeeSum(ps, a, n)))
  {
    if n > 0 {
      TallyTotals(ps, users, n - 1);
      var d := Tally(ps, users, n - 1).value;
      var p := ps[n - 1];
      var a := p.academy.value;
      var e := if DictGet(d, a).Some? then DictGet(d, a).value else AcademyTotal(a, users[a].username, p.fee);
      var e' := if DictGet(d, a).Some? then e.(totalAmount := Some(e.totalAmount.value + p.fee.value)) else e;
      var d' := DictSet(d, a, e');
      assert Tally(ps, users, n).value == d';
      DictSetDistinct(d, a, e');
      DictGetSet(d, a, e');
      DictGetHasKey(d, a);
      forall b: nat ensures HasKey(d', b) <==> PaidTo(ps, b, n)
      {
        DictGetHasKey(d', b);
        DictGetHasKey(d, b);
        if b != a {
          DictGetOther(d, a, e', b);
          if PaidTo(ps, b, n) {
            var i :| 0 <= i < n && ps[i].academy == Some(b);
            assert i < n - 1;
          }
        } else {
          assert ps[n - 1].academy == Some(a);
        }
      }
      forall b: nat | DictGet(d', b).Some?
        ensures DictGet(d', b).value.academyId == b && b in users
                && DictGet(d', b).value.academyName == users[b].username
                && (DictGet(d', b).value.totalAmount.Some? ==> DictGet(d', b).value.totalAmount.value == FeeSum(ps, b, n))
      {
        if b != a {
          DictGetOther(d, a, e', b);
        } else if DictGet(d, a).None? {
          // a first payment: the academy had none before, so its earlier fees sum to 0
          assert !PaidTo(ps, a, n - 1);
          NoPaymentNoFees(ps, a, n - 1);
        }
      }
    }
  }

  lemma {:induction false} NoPaymentNoFees(ps: seq<Payment>, a: nat, n: nat)
    requires n <= |ps| && !PaidTo(ps, a, n)
    ensures FeeSum(ps, a, n) == 0
  {
    if n > 0 {
      assert !PaidTo(ps, a, n - 1) by {
        forall i | 0 <= i < n - 1 ensures ps[i].academy != Some(a) {
          assert 0 <= i < n;
        }
      }
      NoPaymentNoFees(ps, a, n - 1);
    }
  }

  /** Once the loop raises, it raises the same exception at the end. */
  lemma {:induction false} TallyErrStays(ps: seq<Payment>, users: map<nat, User>, m: nat, n: nat)
    requires m <= n <= |ps| && Tally(ps, users, m).Err?
    ensures Tally(ps, users, n) == Tally(ps, users, m)
  {
    if m < n {
      TallyErrStays(ps, users, m, n - 1);
    }
  }

  /** `AccountsView.get`: the loop over the payments, then `list(academy_payments.values())`. */
  method Accounts(db: Database) returns (r: Result<seq<AcademyTotal>>)
    ensures var t := Tally(Payments(db.registrations, db.trials, db.nextId), db.users,
                           |Payments(db.registrations, db.trials, db.nextId)|);
            (t.Err? ==> r == Err(t.error)) && (t.Ok? ==> r == Ok(Values(t.value)))
  {
    var ps := Payments(db.registrations, db.trials, db.nextId);
    var users := db.users;
    var d: seq<(nat, AcademyTotal)> := [];
    for i := 0 to |ps|
      invariant Tally(ps, users, i) == Ok(d)
    {
      var p := ps[i];
      if p.academy.None? {
        TallyErrStays(ps, users, i + 1, |ps|);
        return Err(NoAcademyId);
      }
      var a := p.academy.value;
      if a !in users {
        TallyErrStays(ps, users, i + 1, |ps|);
        return Err(NotFound);
      }
      var found := DictGet(d, a);
      if found.Some? {
        var e := found.value;
        if e.totalAmount.None? || p.fee.None? {
          TallyErrStays(ps, users, i + 1, |ps|);
          return Err(FeeTypeError(e.totalAmount, p.fee));
        }
        d := DictSet(d, a, e.(totalAmount := Some(e.totalAmount.value + p.fee.value)));
      } else {
        d := DictSet(d, a, AcademyTotal(a, users[a].username, p.fee));
      }
    }
    r := Ok(Values(d));
  }
}
