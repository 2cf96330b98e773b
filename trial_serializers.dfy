/** `TrialSerializer.create` and `PlayersInTrialSerializer.validate` / `create` of
    selection_trial/serializers.py: a new trial with its requirement rows and the
    notification job for the academy's followers, the duplicate-registration check, and a
    new registration with its post-save identifier and one details row per answer. */
module TrialSerializers {
  import opened Common
  import opened UsersModels
  import opened TrialModels
  import opened Store
  import opened TrialSignals

  // ---------------------------------------------------------------------------
  // TrialSerializer.create

  /** The requirement rows the loop creates for the first `n` strings: one per non-empty
      string, in order. */
  function RequirementRows(trialId: nat, reqs: seq<string>, n: nat): (rows: seq<Requirement>)
    requires n <= |reqs|
    ensures |rows| <= n
    ensures forall k :: 0 <= k < |rows| ==> rows[k].trialId == trialId && rows[k].requirement != ""
    ensures forall x :: Requirement(trialId, x) in rows <==> x in reqs[..n] && x != ""
    ensures forall x :: x != "" ==> multiset(rows)[Requirement(trialId, x)] == multiset(reqs[..n])[x]
  {
    if n == 0 then []
    else
      assert reqs[..n] == reqs[..n - 1] + [reqs[n - 1]];
      RequirementRows(trialId, reqs, n - 1) + (if reqs[n - 1] != "" then [Requirement(trialId, reqs[n - 1])] else [])
  }

  /** The job announcing trial `trialId` of `academy` to the given followers. */
  function NewTrialJob(academy: User, trialId: nat, receivers: seq<nat>): Job
  {
    AnnounceJob("new_trial", academy, "Trial", "/trial_details/", trialId, receivers)
  }

  /** The text of the exception a second `academy` keyword raises. */
  const DuplicateAcademyKeyword := "create() got multiple values for keyword argument 'academy'"

  /** `TrialSerializer.create` for the academy `userId`. `academyGiven` is whether the
      validated data carries an `academy` of its own, which clashes with the keyword the
      method passes; the form's `is_active` is discarded. */
  method CreateTrial(db: Database, userId: nat, form: TrialForm, academyGiven: bool, reqs: seq<string>)
    returns (r: Result<nat>)
    requires userId in db.users
    modifies db`trials, db`requirements, db`jobs, db`nextId
    ensures academyGiven ==> r == Err(DuplicateAcademyKeyword)
                             && db.trials == old(db.trials) && db.requirements == old(db.requirements)
                             && db.jobs == old(db.jobs) && db.nextId == old(db.nextId)
    ensures !academyGiven ==>
              var id := old(db.nextId);
              r == Ok(id) && db.nextId == id + 1
              && db.trials == old(db.trials)[id := NewTrial(id, Some(userId), form.(isActive := Some(true)))]
              && db.requirements == old(db.requirements) + RequirementRows(id, reqs, |reqs|)
              && db.jobs == old(db.jobs) + [NewTrialJob(db.users[userId], id, FollowerIds(db.follows, userId, id))]
  {
    if academyGiven {
      return Err(DuplicateAcademyKeyword);
    }
    var user := db.users[userId];
    var id := db.nextId;
    var added := AddRequirements(id, reqs);
    var job := NewTrialJob(user, id, FollowerIds(db.follows, userId, id));
    SaveTrial(db, NewTrial(id, Some(userId), form.(isActive := Some(true))), added, job);
    r := Ok(id);
  }

  /** The writes of `create`: the trial under the next id, its requirement rows and the
      announcement job. */
  method SaveTrial(db: Database, trial: Trial, added: seq<Requirement>, job: Job)
    modifies db`trials, db`requirements, db`jobs, db`nextId
    ensures db.trials == old(db.trials)[old(db.nextId) := trial]
    ensures db.nextId == old(db.nextId) + 1
    ensures db.requirements == old(db.requirements) + added
    ensures db.jobs == old(db.jobs) + [job]
  {
    db.trials := db.trials[db.nextId := trial];
    db.nextId := db.nextId + 1;
    db.requirements := db.requirements + added;
    db.jobs := db.jobs + [job];
  }

  /** The loop over `additionalRequirements`: a row for each non-empty string. */
  method AddRequirements(id: nat, reqs: seq<string>) returns (added: seq<Requirement>)
    ensures added == RequirementRows(id, reqs, |reqs|)
  {
    added := [];
    for i := 0 to |reqs|
      invariant added == RequirementRows(id, reqs, i)
    {
      if reqs[i] != "" {
        added := added + [Requirement(id, reqs[i])];
      }
    }
  }

  /** A created trial is active whatever the form said. */
  lemma CreatedTrialIsActive(id: nat, academy: nat, form: TrialForm)
    ensures NewTrial(id, Some(academy), form.(isActive := Some(true))).isActive
    ensures NewTrial(id, Some(academy), form.(isActive := Some(true))).academy == Some(academy)
  {
  }

  // ---------------------------------------------------------------------------
  // PlayersInTrialSerializer

  /** The validated fields of a registration request. `statusGiven` is whether the request
      set `status`; `answers` are the nested `additional_requirements`. */
  datatype RegistrationForm = RegistrationForm(
    player: nat,
    trial: nat,
    name: Option<string>,
    email: Option<string>,
    uniqueId: Option<string>,
    paymentStatus: Option<string>,
    statusGiven: bool,
    answers: seq<Answer>)

  const AlreadyRegistered := "Already registered in this trial "

  /** Some registration of `player` in `trial` exists. */
  predicate RegisteredIn(regs: map<nat, Registration>, trial: nat, player: nat)
  {
    exists id :: id in regs && regs[id].trial == trial && regs[id].player == player
  }

  /** `validate`: a second registration of the same player in the same trial is refused. */
  function ValidateRegistration(regs: map<nat, Registration>, form: RegistrationForm): (r: Result<RegistrationForm>)
    ensures r.Err? <==> RegisteredIn(regs, form.trial, form.player)
    ensures r.Err? ==> r.error == AlreadyRegistered
    ensures r.Ok? ==> r.value == form
  {
    if RegisteredIn(regs, form.trial, form.player) then Err(AlreadyRegistered) else Ok(form)
  }

  /** The registration row `create` inserts with id `id`, before its post-save handler. */
  function NewRegistration(id: nat, form: RegistrationForm): (reg: Registration)
    ensures reg.id == id && reg.player == form.player && reg.trial == form.trial
    ensures reg.status == Some(Registered)
    ensures reg.name == form.name && reg.email == form.email
    ensures reg.uniqueId == form.uniqueId && reg.paymentStatus == form.paymentStatus
  {
    Registration(id, form.player, form.trial, Some(Registered), form.name, form.email, form.uniqueId, form.paymentStatus)
  }

  /** The details rows the loop creates for the first `n` answers of registration `id`. */
  function DetailRows(id: nat, answers: seq<Answer>, n: nat): (rows: seq<Detail>)
    requires n <= |answers|
    ensures |rows| == n
    ensures forall k :: 0 <= k < n ==>
              rows[k] == Detail(id, answers[k].requirement, answers[k].value)
  {
    if n == 0 then [] else DetailRows(id, answers, n - 1) + [Detail(id, answers[n - 1].requirement, answers[n - 1].value)]
  }

  /** The text of the exception a `status` in the validated data raises. */
  const DuplicateStatusKeyword := "create() got multiple values for keyword argument 'status'"

  /** Whether `create` raises for this form, and with which text. */
  function CreateError(form: RegistrationForm): (e: Option<string>)
    ensures e.Some? <==> form.statusGiven || (!Filled(form.uniqueId) && form.name.None?)
    ensures form.statusGiven ==> e == Some(DuplicateStatusKeyword)
  {
    if form.statusGiven then Some(DuplicateStatusKeyword)
    else if !Filled(form.uniqueId) && form.name.None? then Some(NoNameError)
    else None
  }

  /** `create`: the row is inserted with status "registered", the post-save handler gives it
      its identifier, then one details row per answer follows. When the handler raises,
      the inserted row stays behind without an identifier and no details are written (the
      calling view's transaction discards it). */
  method CreateRegistration(db: Database, form: RegistrationForm, num: nat) returns (r: Result<nat>)
    requires 10 <= num <= 99
    modifies db`registrations, db`details, db`nextId
    ensures form.statusGiven ==> r == Err(DuplicateStatusKeyword)
                                 && db.registrations == old(db.registrations) && db.details == old(db.details)
                                 && db.nextId == old(db.nextId)
    ensures !form.statusGiven && CreateError(form).Some? ==>
              r == Err(NoNameError) && db.nextId == old(db.nextId) + 1 && db.details == old(db.details)
              && db.registrations == old(db.registrations)[old(db.nextId) := NewRegistration(old(db.nextId), form)]
    ensures CreateError(form).None? ==>
              var id := old(db.nextId);
              r == Ok(id) && db.nextId == id + 1
              && db.registrations == old(db.registrations)[id := WithUniqueId(NewRegistration(id, form), num)]
              && db.details == old(db.details) + DetailRows(id, form.answers, |form.answers|)
  {
    if form.statusGiven {
      return Err(DuplicateStatusKeyword);
    }
    var id := db.nextId;
    db.registrations := db.registrations[id := NewRegistration(id, form)];
    db.nextId := id + 1;
    var saved := AssignUniqueId(db, id, true, num);
    if saved.Err? {
      return Err(saved.error);
    }
    var answers := form.answers;
    var added: seq<Detail> := [];
    for i := 0 to |answers|
      invariant added == DetailRows(id, answers, i)
    {
      added := added + [Detail(id, answers[i].requirement, answers[i].value)];
    }
    db.details := db.details + added;
    r := Ok(id);
  }

  /** A registration that `create` accepts has status "registered", an identifier, and
      exactly one details row per answer, each naming it. */
  lemma RegistrationShape(id: nat, form: RegistrationForm, num: nat)
    requires 10 <= num <= 99 && CreateError(form).None?
    ensures var reg := WithUniqueId(NewRegistration(id, form), num);
            reg.status == Some(Registered) && Filled(reg.uniqueId) && reg.player == form.player && reg.trial == form.trial
    ensures forall k :: 0 <= k < |form.answers| ==>
              DetailRows(id, form.answers, |form.answers|)[k].registrationId == id
  {
  }
}
