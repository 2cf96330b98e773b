/** `CustomUserManager` of users/models.py: creating an account normalises its e-mail address,
    starts every flag at its declared default, stores the password through `set_password`
    and saves the row; creating a superuser first insists on both admin flags. The unique
    e-mail column turns a second account with the same address into an integrity error. */
module UserManager {
  import opened Common
  import opened UsersModels
  import opened Store

  /** What a call to the manager ends with. */
  datatype Created =
    | Created(id: nat)
    | Rejected(message: string)   // the ValueError the manager raises
    | DuplicateEmail              // the IntegrityError of the unique e-mail column

  /** The row `create_user` saves: the normalised address, the given username and admin
      flags, every other field at its default, and the password set from `password`. */
  function ManagedUser(id: nat, email: string, username: Option<string>, password: Option<string>,
                       isStaff: bool, isSuperuser: bool): (u: User)
    ensures u.id == id && u.email == NormalizeEmail(email) && u.username == username
    ensures u.isStaff == isStaff && u.isSuperuser == isSuperuser
    ensures !u.isAcademy && u.isActive && !u.isVerified && u.otp.None? && u.authProvider == "email"
    ensures u.phone.None? && u.dob.None?
    ensures forall p :: CheckPassword(u.password, p) <==> password == Some(p)
  {
    DefaultUser(id, NormalizeEmail(email), username)
      .(isStaff := isStaff, isSuperuser := isSuperuser, password := SetPassword(password))
  }

  /** `create_user`. An empty or missing address raises before anything is saved. */
  method CreateUser(db: Database, email: Option<string>, password: Option<string>,
                    username: Option<string>, isStaff: bool, isSuperuser: bool)
    returns (r: Created)
    requires db.UsersKeyed() && db.EmailsUnique()
    modifies db`users, db`nextId
    ensures db.UsersKeyed() && db.EmailsUnique()
    ensures !Filled(email) ==> r == Rejected("Users must have an email address")
    ensures Filled(email) && (exists id :: id in old(db.users)
                                && old(db.users)[id].email == NormalizeEmail(email.value))
            ==> r == DuplicateEmail
    ensures r.Created? <==>
              Filled(email) && forall id :: id in old(db.users)
                                 ==> old(db.users)[id].email != NormalizeEmail(email.value)
    ensures r.Created? ==>
              r.id == old(db.nextId) && db.nextId == old(db.nextId) + 1
              && db.users == old(db.users)[r.id := ManagedUser(r.id, email.value, username, password,
                                                               isStaff, isSuperuser)]
    ensures !r.Created? ==> db.users == old(db.users) && db.nextId == old(db.nextId)
  {
    if !Filled(email) {
      return Rejected("Users must have an email address");
    }
    var normalized := NormalizeEmail(email.value);
    FindByEmailComplete(db.users, normalized, db.nextId);
    if FindByEmail(db.users, normalized, db.nextId).Some? {
      return DuplicateEmail;
    }
    var id := db.nextId;
    var user := ManagedUser(id, email.value, username, password, isStaff, isSuperuser);
    db.users := db.users[id := user];
    db.nextId := db.nextId + 1;
    r := Created(id);
  }

  /** The flag check of `create_superuser`: each flag the caller left out defaults to True,
      and either flag holding anything but the boolean True raises, `is_staff` first. */
  function SuperuserCheck(isStaff: Option<Value>, isSuperuser: Option<Value>): (r: Option<string>)
    ensures r.None? <==> (isStaff.None? || isStaff == Some(VBool(true)))
                         && (isSuperuser.None? || isSuperuser == Some(VBool(true)))
    ensures r.Some? && (isStaff.None? || isStaff == Some(VBool(true)))
            ==> r.value == "Superuser must have is_superuser=True."
    ensures !(isStaff.None? || isStaff == Some(VBool(true)))
            ==> r == Some("Superuser must have is_staff=True.")
  {
    var staff := if isStaff.None? then VBool(true) else isStaff.value;
    var superuser := if isSuperuser.None? then VBool(true) else isSuperuser.value;
    if staff != VBool(true) then Some("Superuser must have is_staff=True.")
    else if superuser != VBool(true) then Some("Superuser must have is_superuser=True.")
    else None
  }

  /** `create_superuser`: the flag check, then `create_user` with both flags set. */
  method CreateSuperuser(db: Database, email: Option<string>, password: Option<string>,
                         username: Option<string>, isStaff: Option<Value>, isSuperuser: Option<Value>)
    returns (r: Created)
    requires db.UsersKeyed() && db.EmailsUnique()
    modifies db`users, db`nextId
    ensures db.UsersKeyed() && db.EmailsUnique()
    ensures SuperuserCheck(isStaff, isSuperuser).Some?
            ==> r == Rejected(SuperuserCheck(isStaff, isSuperuser).value)
                && db.users == old(db.users) && db.nextId == old(db.nextId)
    ensures SuperuserCheck(isStaff, isSuperuser).None? && !Filled(email)
            ==> r == Rejected("Users must have an email address")
    ensures SuperuserCheck(isStaff, isSuperuser).None? && Filled(email)
            && (exists id :: id in old(db.users) && old(db.users)[id].email == NormalizeEmail(email.value))
            ==> r == DuplicateEmail
    ensures r.Created? <==>
              SuperuserCheck(isStaff, isSuperuser).None? && Filled(email)
              && forall id :: id in old(db.users) ==> old(db.users)[id].email != NormalizeEmail(email.value)
    ensures r.Created? ==>
              r.id == old(db.nextId) && db.nextId == old(db.nextId) + 1
              && db.users == old(db.users)[r.id := ManagedUser(r.id, email.value, username, password,
                                                               true, true)]
    ensures !r.Created? ==> db.users == old(db.users) && db.nextId == old(db.nextId)
    ensures r.Created? ==> r.id in db.users && db.users[r.id].isStaff && db.users[r.id].isSuperuser
  {
    var failure := SuperuserCheck(isStaff, isSuperuser);
    if failure.Some? {
      return Rejected(failure.value);
    }
    r := CreateUser(db, email, password, username, true, true);
  }

  /** A superuser created with no explicit flags passes the check. */
  lemma SuperuserDefaultsPass()
    ensures SuperuserCheck(None, None).None?
  {
  }

  /** A truthy value that is not the boolean True (1, "True") still fails the identity check. */
  lemma TruthyIsNotTrue()
    ensures SuperuserCheck(Some(VInt(1)), None) == Some("Superuser must have is_staff=True.")
    ensures SuperuserCheck(None, Some(VStr("True"))) == Some("Superuser must have is_superuser=True.")
  {
  }
}
