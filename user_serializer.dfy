/** `CustomUsersSerializer.create` of users/serializers/user_serializer.py: the signup payload
    loses its sport list, state, district, licence and password, the remaining fields become
    a `Users` row, the password is set on it, and the sports, profile and academy rows are
    created for the new account. */
module UserSerializer {
  import opened Common
  import opened UsersModels
  import opened Store

  /** The validated signup payload. A `None` field is a key the payload does not carry. */
  datatype SignupData = SignupData(
    username: Option<string>,
    email: string,
    phone: Option<string>,
    dob: Option<string>,
    isAcademy: bool,
    isVerified: bool,
    password: Option<string>,
    sport: Option<seq<string>>,
    state: Option<string>,
    district: Option<string>,
    license: Option<string>)

  /** The first key popped without a default that the payload lacks: `sport`, `state`,
      `district`, then `password` (the licence is popped with a default). */
  function MissingKey(d: SignupData): (k: Option<string>)
    ensures k.None? <==> d.sport.Some? && d.state.Some? && d.district.Some? && d.password.Some?
    ensures k.Some? ==> k.value in ["sport", "state", "district", "password"]
    ensures d.sport.None? ==> k == Some("sport")
  {
    if d.sport.None? then Some("sport")
    else if d.state.None? then Some("state")
    else if d.district.None? then Some("district")
    else if d.password.None? then Some("password")
    else None
  }

  /** The text of the `KeyError` a failed pop raises, as `str(e)` renders it. */
  function KeyErrorText(key: string): string
  {
    "'" + key + "'"
  }

  /** The saved account: the payload's own fields, the other flags at their defaults, and
      the popped password. */
  function NewAccount(id: nat, d: SignupData, password: string): (u: User)
    ensures u.id == id && u.email == d.email && u.username == d.username
    ensures u.phone == d.phone && u.dob == d.dob
    ensures u.isAcademy == d.isAcademy && u.isVerified == d.isVerified
    ensures u.isActive && !u.isStaff && !u.isSuperuser && u.otp.None? && u.authProvider == "email"
    ensures forall p :: CheckPassword(u.password, p) <==> p == password
  {
    DefaultUser(id, d.email, d.username)
      .(phone := d.phone, dob := d.dob, isAcademy := d.isAcademy, isVerified := d.isVerified,
        password := Secret(password))
  }

  /** The sport rows created for `user`, one per listed sport and in list order. */
  function SportRows(user: nat, sports: seq<string>): (rows: seq<SportRow>)
    ensures |rows| == |sports|
    ensures forall j :: 0 <= j < |sports| ==> rows[j] == SportRow(user, sports[j])
  {
    if sports == [] then [] else [SportRow(user, sports[0])] + SportRows(user, sports[1..])
  }

  /** The loop creating one sport row per listed sport. */
  method AddSports(db: Database, user: nat, sports: seq<string>)
    modifies db`sports
    ensures db.sports == old(db.sports) + SportRows(user, sports)
  {
    for i := 0 to |sports|
      invariant |db.sports| == |old(db.sports)| + i
      invariant db.sports[..|old(db.sports)|] == old(db.sports)
      invariant forall j :: 0 <= j < i ==> db.sports[|old(db.sports)| + j] == SportRow(user, sports[j])
    {
      db.sports := db.sports + [SportRow(user, sports[i])];
    }
    assert db.sports == old(db.sports) + SportRows(user, sports);
  }

  /** `create`. A missing key raises before any row is written; an address already in use
      makes the insert fail; otherwise the account and its rows are all created. */
  method Create(db: Database, d: SignupData) returns (r: Result<nat>)
    requires db.UsersKeyed() && db.EmailsUnique()
    modifies db`users, db`nextId, db`sports, db`profiles, db`academies
    ensures db.UsersKeyed() && db.EmailsUnique()
    ensures MissingKey(d).Some? ==> r == Err(KeyErrorText(MissingKey(d).value))
    ensures MissingKey(d).None? && (exists id :: id in old(db.users) && old(db.users)[id].email == d.email)
            ==> r == Err("IntegrityError")
    ensures r.Err? ==>
              db.users == old(db.users) && db.nextId == old(db.nextId) && db.sports == old(db.sports)
              && db.profiles == old(db.profiles) && db.academies == old(db.academies)
    ensures r.Ok? <==>
              MissingKey(d).None? && forall id :: id in old(db.users) ==> old(db.users)[id].email != d.email
    ensures r.Ok? ==>
              var id := old(db.nextId);
              r.value == id && db.nextId == id + 1
              && db.users == old(db.users)[id := NewAccount(id, d, d.password.value)]
              && db.sports == old(db.sports) + SportRows(id, d.sport.value)
              && db.profiles == old(db.profiles)[id := EmptyProfile(id).(state := d.state, district := d.district)]
              && db.academies == (if Filled(d.license) then old(db.academies)[id := Academy(id, d.license, false)]
                                  else old(db.academies))
  {
    if d.sport.None? { return Err(KeyErrorText("sport")); }
    if d.state.None? { return Err(KeyErrorText("state")); }
    if d.district.None? { return Err(KeyErrorText("district")); }
    if d.password.None? { return Err(KeyErrorText("password")); }
    FindByEmailComplete(db.users, d.email, db.nextId);
    if FindByEmail(db.users, d.email, db.nextId).Some? {
      return Err("IntegrityError");
    }
    r := InsertAccount(db, d);
  }

  /** The rows `create` writes for a payload that carries every popped key and a free
      address: the account, its password, its sports, its profile and its academy row. */
  method InsertAccount(db: Database, d: SignupData) returns (r: Result<nat>)
    requires db.UsersKeyed() && db.EmailsUnique()
    requires MissingKey(d).None? && forall id :: id in db.users ==> db.users[id].email != d.email
    modifies db`users, db`nextId, db`sports, db`profiles, db`academies
    ensures db.UsersKeyed() && db.EmailsUnique()
    ensures var id := old(db.nextId);
            r == Ok(id) && db.nextId == id + 1
            && db.users == old(db.users)[id := NewAccount(id, d, d.password.value)]
            && db.sports == old(db.sports) + SportRows(id, d.sport.value)
            && db.profiles == old(db.profiles)[id := EmptyProfile(id).(state := d.state, district := d.district)]
            && db.academies == (if Filled(d.license) then old(db.academies)[id := Academy(id, d.license, false)]
                                else old(db.academies))
  {
    var sports, license, password := d.sport.value, d.license, d.password.value;
    // super().create: the row with the payload's fields, then set_password and save
    var id: nat := db.nextId;
    var users0: map<nat, User> := db.users;
    var account := NewAccount(id, d, password);
    var row := account.(password := Unusable);
    AddUser(users0, id, row);
    db.users := users0[id := row];
    db.nextId := id + 1;
    assert row.(password := Secret(password)) == account;
    UpdateUser(users0[id := row], id + 1, account);
    assert users0[id := row][id := account] == users0[id := account];
    db.users := users0[id := account];
    AddSports(db, id, sports);
    db.profiles := db.profiles[id := EmptyProfile(id).(state := d.state, district := d.district)];
    if Filled(license) {
      db.academies := db.academies[id := Academy(id, license, false)];
    }
    r := Ok(id);
  }
}
