/** The registration and trial actions of selection_trial/views.py: joining a trial behind
    its participant limit, with a pending payment and a checkout for paid trials; looking up
    one's own registration (dropping an unpaid one); confirming a payment; setting a
    player's selection status; cancelling a trial; and the permission each action needs.
    The checkout service is an oracle (`checkoutOk`); exceptions the views do not catch are
    `Err` results. Only `create` runs in a transaction; elsewhere a write made before an
    exception stays, which here is only the status mail of `partial_update`. */
module TrialViews {
  import opened Common
  import opened UsersModels
  import opened TrialModels
  import opened Store
  import opened Permissions
  import opened TrialSignals
  import opened TrialSerializers

  // ---------------------------------------------------------------------------
  // Table invariants

  /** Registrations are stored under their own ids, and every id used, including those of
      details rows, is below `n`. */
  ghost predicate RegistrationsKeyed(regs: map<nat, Registration>, details: seq<Detail>, n: nat)
  {
    (forall id :: id in regs ==> regs[id].id == id && id < n)
    && forall i :: 0 <= i < |details| ==> details[i].registrationId < n
  }

  /** At most one registration per player and trial. */
  ghost predicate OnePerPlayer(regs: map<nat, Registration>)
  {
    forall a, b :: a in regs && b in regs && regs[a].trial == regs[b].trial && regs[a].player == regs[b].player ==> a == b
  }

  /** `PlayersInTrial.objects.filter(trial=t).count()`. */
  function PlayerCount(regs: map<nat, Registration>, t: nat): (c: nat)
    ensures c <= |regs|
  {
    var ids := set id | id in regs && regs[id].trial == t;
    assert ids <= regs.Keys;
    SubsetCardinality(ids, regs.Keys);
    |ids|
  }

  /** No limited trial has more registrations than its limit. */
  ghost predicate WithinLimits(trials: map<nat, Trial>, regs: map<nat, Registration>)
  {
    forall t :: t in trials && trials[t].isParticipantLimit && trials[t].totalParticipantLimit.Some? ==>
      PlayerCount(regs, t) <= trials[t].totalParticipantLimit.value
  }

  /** Inserting a registration under a fresh id adds one to its trial's count only. */
  lemma CountAfterInsert(regs: map<nat, Registration>, id: nat, reg: Registration, t: nat)
    requires id !in regs
    ensures PlayerCount(regs[id := reg], t) == PlayerCount(regs, t) + (if reg.trial == t then 1 else 0)
  {
    var before := set x | x in regs && regs[x].trial == t;
    var m := regs[id := reg];
    var after := set x | x in m && m[x].trial == t;
    if reg.trial == t {
      assert after == before + {id};
    } else {
      assert after == before;
    }
  }

  // ---------------------------------------------------------------------------
  // Cascade deletion of details rows

  /** The details rows that survive deleting registration `id` (`on_delete=CASCADE`). */
  function DropDetails(details: seq<Detail>, id: nat): (r: seq<Detail>)
    ensures forall d :: d in r <==> d in details && d.registrationId != id
    ensures |r| <= |details|
  {
    if details == [] then []
    else
      var last := details[|details| - 1];
      assert forall d :: d in details[..|details| - 1] ==> d in details;
      assert details == details[..|details| - 1] + [last];
      DropDetails(details[..|details| - 1], id) + (if last.registrationId != id then [last] else [])
  }

  /** Deleting a registration that no details row names leaves the rows as they are. */
  lemma {:induction false} DropDetailsNone(details: seq<Detail>, id: nat)
    requires forall i :: 0 <= i < |details| ==> details[i].registrationId != id
    ensures DropDetails(details, id) == details
  {
    if details != [] {
      DropDetailsNone(details[..|details| - 1], id);
      assert details == details[..|details| - 1] + [details[|details| - 1]];
    }
  }

  lemma DropDetailsSnoc(details: seq<Detail>, d: Detail, id: nat)
    ensures DropDetails(details + [d], id) == DropDetails(details, id) + (if d.registrationId != id then [d] else [])
  {
    assert (details + [d])[..|details|] == details;
  }

  /** Rows all naming the deleted registration disappear, wherever they were appended. */
  lemma {:induction false} DropDetailsAppended(details: seq<Detail>, rows: seq<Detail>, id: nat)
    requires forall k :: 0 <= k < |rows| ==> rows[k].registrationId == id
    ensures DropDetails(details + rows, id) == DropDetails(details, id)
  {
    if rows != [] {
      var front := rows[..|rows| - 1];
      assert details + rows == (details + front) + [rows[|rows| - 1]];
      DropDetailsSnoc(details + front, rows[|rows| - 1], id);
      DropDetailsAppended(details, front, id);
    } else {
      assert details + rows == details;
    }
  }

  // ---------------------------------------------------------------------------
  // PlayersInTrialViewSet.create

  /** The checks `create` runs before saving, each stopping the request. */
  datatype Gate =
    | TrialMissing     // `Trial.objects.get` raised (the handler's status constant does not exist)
    | LimitUnset       // comparing the count with a null limit raises
    | LimitReached     // 406 "Participant limit exceeded"
    | Invalid          // 400 from the field checks
    | Duplicate        // 400 "Already registered in this trial "
    | Admitted

  /** The first check that stops the request, or `Admitted`. `valid` is the verdict of the
      serializer's field checks. */
  function Admission(trials: map<nat, Trial>, regs: map<nat, Registration>, form: RegistrationForm, valid: bool)
    : (g: Gate)
    ensures g == Admitted <==>
              form.trial in trials && valid && !RegisteredIn(regs, form.trial, form.player)
              && (trials[form.trial].isParticipantLimit ==>
                    trials[form.trial].totalParticipantLimit.Some?
                    && PlayerCount(regs, form.trial) < trials[form.trial].totalParticipantLimit.value)
    ensures g == LimitReached ==> form.trial in trials && trials[form.trial].isParticipantLimit
    ensures g == TrialMissing <==> form.trial !in trials
  {
    if form.trial !in trials then TrialMissing
    else
      var t := trials[form.trial];
      if t.isParticipantLimit && t.totalParticipantLimit.None? then LimitUnset
      else if t.isParticipantLimit && PlayerCount(regs, form.trial) >= t.totalParticipantLimit.value then LimitReached
      else if !valid then Invalid
      else if ValidateRegistration(regs, form).Err? then Duplicate
      else Admitted
  }

  /** What `create` answers. */
  datatype JoinOutcome =
    | Stopped(gate: Gate)
    | Crashed(error: string)      // `create` raised; the transaction discards the row
    | Joined(id: nat)             // 201, free trial
    | CheckoutOpened(id: nat)     // 201 with the checkout session, paid trial
    | PaymentFailed               // 400 "error in stripe payment"

  /** The form as saved: a paid trial's registration starts with a pending payment. */
  function Saved(form: RegistrationForm, paid: bool): (f: RegistrationForm)
    ensures paid ==> f == form.(paymentStatus := Some("pending"))
    ensures !paid ==> f == form
  {
    if paid then form.(paymentStatus := Some("pending")) else form
  }

  /** Saving an admitted registration under a fresh id keeps the table invariants. */
  lemma {:induction false} AdmittedInsert(trials: map<nat, Trial>, regs: map<nat, Registration>, details: seq<Detail>,
                                          form: RegistrationForm, valid: bool, n: nat, reg: Registration, rows: seq<Detail>)
    requires Admission(trials, regs, form, valid) == Admitted
    requires RegistrationsKeyed(regs, details, n)
    requires reg.id == n && reg.trial == form.trial && reg.player == form.player
    requires forall k :: 0 <= k < |rows| ==> rows[k].registrationId == n
    ensures RegistrationsKeyed(regs[n := reg], details + rows, n + 1)
    ensures WithinLimits(trials, regs) ==> WithinLimits(trials, regs[n := reg])
    ensures OnePerPlayer(regs) ==> OnePerPlayer(regs[n := reg])
  {
    assert n !in regs;
    forall t | t in trials
      ensures PlayerCount(regs[n := reg], t) == PlayerCount(regs, t) + (if reg.trial == t then 1 else 0)
    {
      CountAfterInsert(regs, n, reg, t);
    }
  }

  /** The saving half of `create`, once the checks passed: the registration with its
      details, then, for a paid trial, the checkout. The checkout sends
      `registration_fee * 100`, so a null fee fails like a refused checkout. */
  method Enrol(db: Database, f: RegistrationForm, paid: bool, fee: Option<int>, checkoutOk: bool, num: nat)
    returns (o: JoinOutcome)
    requires 10 <= num <= 99
    requires RegistrationsKeyed(db.registrations, db.details, db.nextId)
    modifies db`registrations, db`details, db`nextId
    ensures var id := old(db.nextId);
            (CreateError(f).Some? ==> o == Crashed(CreateError(f).value)
                                      && db.registrations == old(db.registrations) && db.details == old(db.details)
                                      && db.nextId == id)
            && (CreateError(f).None? && !paid ==> o == Joined(id))
            && (CreateError(f).None? && paid && checkoutOk && fee.Some? ==> o == CheckoutOpened(id))
            && (CreateError(f).None? && paid && !(checkoutOk && fee.Some?) ==>
                  o == PaymentFailed && db.nextId == id + 1
                  && db.registrations == old(db.registrations) && db.details == old(db.details))
            && ((o.Joined? || o.CheckoutOpened?) ==>
                  db.nextId == id + 1
                  && db.registrations == old(db.registrations)[id := WithUniqueId(NewRegistration(id, f), num)]
                  && db.details == old(db.details) + DetailRows(id, f.answers, |f.answers|))
  {
    var regs, details, n := db.registrations, db.details, db.nextId;
    var created := CreateRegistration(db, f, num);
    if created.Err? {
      // transaction.atomic: the exception discards every write of the request
      db.registrations, db.details, db.nextId := regs, details, n;
      return Crashed(created.error);
    }
    var id := created.value;
    if !paid {
      return Joined(id);
    }
    if checkoutOk && fee.Some? {
      return CheckoutOpened(id);
    }
    // player_registration.delete(), cascading to its details rows
    DeleteRegistration(db, regs, details, id, WithUniqueId(NewRegistration(id, f), num),
                       DetailRows(id, f.answers, |f.answers|));
    o := PaymentFailed;
  }

  /** Deleting the registration `id` just inserted into `regs`, with the cascade to the
      details rows written for it, restores both tables. */
  method DeleteRegistration(db: Database, regs: map<nat, Registration>, details: seq<Detail>, id: nat,
                            reg: Registration, rows: seq<Detail>)
    requires RegistrationsKeyed(regs, details, id)
    requires db.registrations == regs[id := reg] && db.details == details + rows
    requires forall k :: 0 <= k < |rows| ==> rows[k].registrationId == id
    modifies db`registrations, db`details
    ensures db.registrations == regs && db.details == details
  {
    db.registrations := db.registrations - {id};
    assert db.registrations == regs;
    DropDetailsAppended(details, rows, id);
    DropDetailsNone(details, id);
    db.details := DropDetails(db.details, id);
  }

  /** `PlayersInTrialViewSet.create`. */
  method Register(db: Database, form: RegistrationForm, valid: bool, checkoutOk: bool, num: nat)
    returns (o: JoinOutcome)
    requires 10 <= num <= 99
    requires RegistrationsKeyed(db.registrations, db.details, db.nextId)
    modifies db`registrations, db`details, db`nextId
    ensures RegistrationsKeyed(db.registrations, db.details, db.nextId)
    ensures OnePerPlayer(old(db.registrations)) ==> OnePerPlayer(db.registrations)
    ensures WithinLimits(db.trials, old(db.registrations)) ==> WithinLimits(db.trials, db.registrations)
    ensures var g := Admission(db.trials, old(db.registrations), form, valid);
            (g != Admitted ==> o == Stopped(g)
                               && db.registrations == old(db.registrations) && db.details == old(db.details)
                               && db.nextId == old(db.nextId))
            && (g == Admitted ==>
                  var t := db.trials[form.trial];
                  var f := Saved(form, t.isRegistrationFee);
                  var id := old(db.nextId);
                  (CreateError(f).Some? ==> o == Crashed(CreateError(f).value)
                                            && db.registrations == old(db.registrations) && db.details == old(db.details))
                  && (CreateError(f).None? && !t.isRegistrationFee ==> o == Joined(id))
                  && (CreateError(f).None? && t.isRegistrationFee && checkoutOk && t.registrationFee.Some? ==>
                        o == CheckoutOpened(id))
                  && (CreateError(f).None? && t.isRegistrationFee && !(checkoutOk && t.registrationFee.Some?) ==>
                        o == PaymentFailed && db.registrations == old(db.registrations) && db.details == old(db.details))
                  && ((o.Joined? || o.CheckoutOpened?) ==>
                        db.nextId == id + 1
                        && db.registrations == old(db.registrations)[id := WithUniqueId(NewRegistration(id, f), num)]
                        && db.details == old(db.details) + DetailRows(id, f.answers, |f.answers|)))
  {
    var g := Admission(db.trials, db.registrations, form, valid);
    if g != Admitted {
      return Stopped(g);
    }
    var t := db.trials[form.trial];
    var f := Saved(form, t.isRegistrationFee);
    var regs, details, n := db.registrations, db.details, db.nextId;
    o := Enrol(db, f, t.isRegistrationFee, t.registrationFee, checkoutOk, num);
    if o.Joined? || o.CheckoutOpened? {
      AdmittedInsert(db.trials, regs, details, form, valid, n, WithUniqueId(NewRegistration(n, f), num),
                     DetailRows(n, f.answers, |f.answers|));
    }
  }

  /** A limited trial that has reached its limit takes no further registration. */
  lemma FullTrialAdmitsNobody(trials: map<nat, Trial>, regs: map<nat, Registration>, form: RegistrationForm, valid: bool)
    requires form.trial in trials && trials[form.trial].isParticipantLimit
    requires trials[form.trial].totalParticipantLimit.Some?
    requires PlayerCount(regs, form.trial) >= trials[form.trial].totalParticipantLimit.value
    ensures Admission(trials, regs, form, valid) == LimitReached
  {
  }

  // ---------------------------------------------------------------------------
  // TrialViewSet.player_detials_in_trial

  /** The ids of `me`'s registrations in `trial`. */
  function Mine(regs: map<nat, Registration>, me: nat, trial: nat): (ids: set<nat>)
    ensures forall id :: id in ids <==> id in regs && regs[id].player == me && regs[id].trial == trial
  {
    set id | id in regs && regs[id].player == me && regs[id].trial == trial
  }

  datatype DetailsOutcome = NoContent | Found(reg: Registration) | Failed(error: string)

  const MultipleRows := "MultipleObjectsReturned"

  /** `player_detials_in_trial`: 204 without a registration; an unpaid registration in a
      paid trial is deleted and answered 204 too; otherwise the registration is returned. */
  method PlayerDetails(db: Database, me: nat, trial: nat) returns (o: DetailsOutcome)
    requires forall id :: id in db.registrations ==> db.registrations[id].trial in db.trials
    modifies db`registrations, db`details
    ensures var ids := Mine(old(db.registrations), me, trial);
            (ids == {} ==> o == NoContent)
            && (|ids| > 1 ==> o == Failed(MultipleRows))
            && (forall id :: ids == {id} ==>
                  var reg := old(db.registrations)[id];
                  (db.trials[reg.trial].isRegistrationFee && reg.paymentStatus == Some("pending") ==>
                     o == NoContent && db.registrations == old(db.registrations) - {id}
                     && db.details == DropDetails(old(db.details), id))
                  && (!(db.trials[reg.trial].isRegistrationFee && reg.paymentStatus == Some("pending")) ==>
                        o == Found(reg)))
    ensures !(o.NoContent? && Mine(old(db.registrations), me, trial) != {}) ==>
              db.registrations == old(db.registrations) && db.details == old(db.details)
  {
    var ids := Mine(db.registrations, me, trial);
    if ids == {} {
      return NoContent;
    }
    if |ids| > 1 {
      return Failed(MultipleRows);
    }
    var id :| id in ids;
    assert ids == {id} by {
      if exists x :: x in ids && x != id {
        var x :| x in ids && x != id;
        assert {id, x} <= ids;
        SubsetCardinality({id, x}, ids);
      }
    }
    var reg := db.registrations[id];
    if db.trials[reg.trial].isRegistrationFee && reg.paymentStatus == Some("pending") {
      db.registrations := db.registrations - {id};
      db.details := DropDetails(db.details, id);
      return NoContent;
    }
    o := Found(reg);
  }

  /** With one registration per player and trial, the lookup never finds two rows. */
  lemma OnePerPlayerNoFailure(regs: map<nat, Registration>, me: nat, trial: nat)
    requires OnePerPlayer(regs)
    ensures |Mine(regs, me, trial)| <= 1
  {
    var ids := Mine(regs, me, trial);
    if ids != {} {
      var id :| id in ids;
      assert ids <= {id};
      SubsetCardinality(ids, {id});
    }
  }

  // ---------------------------------------------------------------------------
  // PlayersInTrialViewSet.update and partial_update

  const NotFound := "DoesNotExist"
  const Confirmed := "Payment confirmed and Registration Completed"

  /** `update`: the payment of registration `id` is confirmed. */
  method ConfirmPayment(db: Database, id: nat) returns (r: Result<string>)
    modifies db`registrations
    ensures id !in old(db.registrations) ==> r == Err(NotFound) && db.registrations == old(db.registrations)
    ensures id in old(db.registrations) ==>
              r == Ok(Confirmed)
              && db.registrations == old(db.registrations)[id := old(db.registrations)[id].(paymentStatus := Some("confirmed"))]
  {
    if id !in db.registrations {
      return Err(NotFound);
    }
    var reg := db.registrations[id];
    db.registrations := db.registrations[id := reg.(paymentStatus := Some("confirmed"))];
    r := Ok(Confirmed);
  }

  /** A confirmed registration survives the player's details lookup. */
  lemma ConfirmedIsKept(trials: map<nat, Trial>, reg: Registration)
    requires reg.trial in trials
    ensures var c := reg.(paymentStatus := Some("confirmed"));
            !(trials[c.trial].isRegistrationFee && c.paymentStatus == Some("pending"))
  {
  }

  /** What the `status` column receives for a request value: `CharField.to_python` keeps
      text and null and stores anything else as its `str()` ("5" for 5, "True" for true).
      A list's `str()` is not rendered: the model stores NULL for it. */
  function StatusText(v: Value): (s: Option<string>)
    ensures v.VStr? ==> s == Some(v.s)
    ensures s.None? <==> v.VNull? || v.VList?
    ensures v.VInt? ==> s.Some? && AllDigitsAfterSign(s.value)
    ensures v.VBool? ==> s == Some(if v.b then "True" else "False")
  {
    match v
    case VStr(t) => Some(t)
    case VInt(i) => Some(IntToString(i))
    case VBool(b) => Some(if b then "True" else "False")
    case VNull => None
    case VList(_) => None
  }

  /** A number and its decimal text are stored alike, and different numbers are stored
      differently. */
  lemma {:induction false} StatusTextOfNumbers(a: int, b: int)
    ensures a >= 0 ==> StatusText(VInt(a)) == StatusText(VStr(NatToString(a)))
    ensures StatusText(VInt(a)) == StatusText(VInt(b)) ==> a == b
  {
    if StatusText(VInt(a)) == StatusText(VInt(b)) {
      IntToStringInjective(a, b);
    }
  }

  /** `status` is a `varchar(200)` column on PostgreSQL: a longer text makes `save()` raise. */
  const StatusMaxLength: nat := 200
  const StatusTooLong := "value too long for type character varying(200)"

  predicate FitsStatusColumn(s: Option<string>)
  {
    s.None? || |s.value| <= StatusMaxLength
  }

  const MissingStatus := "KeyError: 'status'"
  const NoAcademy := "'NoneType' object has no attribute 'username'"

  /** `partial_update`: the status mail (selected or not) is queued, then the requested
      status is stored. `request.data["status"]` raises before the `.get` default is ever
      reached, so a request without a status changes nothing. A status too long for its
      column makes the save raise after the mail is queued; the queued job stays. */
  method SetStatus(db: Database, id: nat, data: map<string, Value>) returns (r: Result<()>)
    requires id in db.registrations ==> db.registrations[id].trial in db.trials
    modifies db`registrations, db`jobs
    ensures id !in old(db.registrations) ==> r == Err(NotFound)
    ensures id in old(db.registrations) && "status" !in data ==> r == Err(MissingStatus)
    ensures id in old(db.registrations) && "status" in data && db.trials[old(db.registrations)[id].trial].academy.None? ==>
              r == Err(NoAcademy)
    ensures r.Err? ==> db.registrations == old(db.registrations)
    ensures r.Err? && r.error != StatusTooLong ==> db.jobs == old(db.jobs)
    ensures r.Ok? || r == Err(StatusTooLong) ==>
              id in old(db.registrations) && "status" in data
              && var reg := old(db.registrations)[id];
                 var t := db.trials[reg.trial];
                 t.academy.Some?
                 && db.jobs == old(db.jobs) + [StatusMail(reg.email, t.name, data["status"] == VStr("selected"))]
                 && (r.Ok? <==> FitsStatusColumn(StatusText(data["status"])))
    ensures r.Ok? ==>
              var reg := old(db.registrations)[id];
              db.registrations == old(db.registrations)[id := reg.(status := StatusText(data["status"]))]
              && FitsStatusColumn(db.registrations[id].status)
  {
    if id !in db.registrations {
      return Err(NotFound);
    }
    if "status" !in data {
      return Err(MissingStatus);
    }
    var reg := db.registrations[id];
    var t := db.trials[reg.trial];
    if t.academy.None? {
      return Err(NoAcademy);
    }
    db.jobs := db.jobs + [StatusMail(reg.email, t.name, data["status"] == VStr("selected"))];
    var status := StatusText(data["status"]);
    if !FitsStatusColumn(status) {
      return Err(StatusTooLong);
    }
    db.registrations := db.registrations[id := reg.(status := status)];
    r := Ok(());
  }

  // ---------------------------------------------------------------------------
  // TrialViewSet.destroy

  /** The e-mails of the registrations of `trial` with ids below `n`, in id order. */
  function RegistrantEmails(regs: map<nat, Registration>, trial: nat, n: nat): (emails: seq<Option<string>>)
    ensures |emails| <= n
    ensures emails == [] <==> forall id :: id in regs && id < n ==> regs[id].trial != trial
  {
    if n == 0 then []
    else
      RegistrantEmails(regs, trial, n - 1)
      + (if n - 1 in regs && regs[n - 1].trial == trial then [regs[n - 1].email] else [])
  }

  /** `destroy`: the trial is deactivated, not deleted; its registrants, if any, are mailed
      about the cancellation. */
  method CancelTrial(db: Database, id: nat, reason: Option<string>) returns (r: Result<()>)
    requires id in db.trials && db.trials[id].academy.Some? ==> db.trials[id].academy.value in db.users
    modifies db`trials, db`jobs
    ensures id !in old(db.trials) ==> r == Err(NotFound) && db.trials == old(db.trials) && db.jobs == old(db.jobs)
    ensures id in old(db.trials) ==>
              var t := old(db.trials)[id];
              var emails := RegistrantEmails(db.registrations, id, db.nextId);
              (emails != [] && t.academy.None? ==>
                 r == Err(NoAcademy) && db.trials == old(db.trials) && db.jobs == old(db.jobs))
              && (emails == [] ==>
                    r == Ok(()) && db.jobs == old(db.jobs) && db.trials == old(db.trials)[id := t.(isActive := false)])
              && (emails != [] && t.academy.Some? ==>
                    r == Ok(()) && db.trials == old(db.trials)[id := t.(isActive := false)]
                    && db.jobs == old(db.jobs)
                                  + [TrialCancellationMail(emails, t.name, db.users[t.academy.value].username, reason)])
  {
    if id !in db.trials {
      return Err(NotFound);
    }
    var t := db.trials[id];
    var emails := RegistrantEmails(db.registrations, id, db.nextId);
    if emails != [] {
      if t.academy.None? {
        return Err(NoAcademy);
      }
      db.jobs := db.jobs + [TrialCancellationMail(emails, t.name, db.users[t.academy.value].username, reason)];
    }
    db.trials := db.trials[id := t.(isActive := false)];
    r := Ok(());
  }

  /** With every registration keyed below `n`, the mail goes out exactly when the trial has
      a registrant. */
  lemma MailedIffRegistrants(regs: map<nat, Registration>, details: seq<Detail>, trial: nat, n: nat)
    requires RegistrationsKeyed(regs, details, n)
    ensures RegistrantEmails(regs, trial, n) != [] <==> exists id :: id in regs && regs[id].trial == trial
  {
  }

  // ---------------------------------------------------------------------------
  // TrialViewSet.get_permissions

  const ReadActions := ["list", "retrieve", "player_detials_in_trial"]

  /** The permission check for `action`: `IsUser | IsAdmin` for the read actions, `IsAcademy`
      for every other. */
  function TrialPermission(action: string, r: Requester): (v: Verdict)
    ensures action in ReadActions ==> v == Or(IsUser(r), IsAdmin(r))
    ensures action !in ReadActions ==> v == IsAcademy(r)
  {
    if action in ReadActions then Or(IsUser(r), IsAdmin(r)) else IsAcademy(r)
  }

  /** The read actions are open to every requester, and only academies reach the others. */
  lemma TrialPermissionMeaning(action: string, r: Requester)
    ensures action in ReadActions ==> TrialPermission(action, r) == Allow
    ensures action !in ReadActions ==> (TrialPermission(action, r) == Allow <==> r.Member? && r.user.isAcademy)
  {
    AdminUserPartition(r);
  }
}
