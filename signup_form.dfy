/** The field validation of `Signup.post` in users/views.py: the `errors` dict the view
    builds from a multipart signup form before any account is created. Dicts are sequences
    of (key, value) pairs in insertion order. */
module SignupForm {
  import opened Common
  import opened UsersModels

  /** A multipart request body: each key with the list of values sent under it. */
  type Form = map<string, seq<string>>

  /** The optional fields checked for emptiness, in the order of the checks, with their
      messages. */
  const RequiredFields: seq<(string, string)> := [
    ("username", "Name is required"),
    ("sport", "Sport is Required"),
    ("state", "State is required"),
    ("district", "District is required"),
    ("dob", "Date of birth is required"),
    ("password", "Password is required"),
    ("license", "License is required")
  ]

  const RegisteredMessage := "Account with Email already exist try login"

  predicate AcademySignup(data: Form)
  {
    "is_academy" in data && QueryItem(data["is_academy"]) == VStr("true")
  }

  /** The form after `data.setlist("sport", data.getlist("sport[]", []))`, which runs for an
      academy signup only. */
  function AcademyAdjusted(data: Form): (f: Form)
    ensures !AcademySignup(data) ==> f == data
    ensures AcademySignup(data) ==> "sport" in f && f["sport"] == (if "sport[]" in data then data["sport[]"] else [])
    ensures forall k :: k != "sport" ==> (k in f <==> k in data) && (k in f ==> f[k] == data[k])
  {
    if AcademySignup(data) then data["sport" := if "sport[]" in data then data["sport[]"] else []]
    else data
  }

  /** `key in data and not data[key]`. */
  predicate Blank(f: Form, key: string)
  {
    key in f && !Truthy(QueryItem(f[key]))
  }

  /** The entry one emptiness check adds: its field and message when the field is blank. */
  function Entry(f: Form, check: (string, string)): (r: seq<(string, string)>)
    ensures r == [] || r == [check]
    ensures check in r <==> Blank(f, check.0)
  {
    if Blank(f, check.0) then [check] else []
  }

  /** The dict `pre` after the first `n` emptiness checks. */
  function Checked(pre: seq<(string, string)>, f: Form, n: nat): (r: seq<(string, string)>)
    requires n <= |RequiredFields|
    ensures |pre| <= |r| <= |pre| + n
  {
    if n == 0 then pre else Checked(pre, f, n - 1) + Entry(f, RequiredFields[n - 1])
  }

  /** The entries after the first `n` checks: those there before, and one per blank field
      among the fields of those checks. */
  lemma {:induction false} CheckedMembers(pre: seq<(string, string)>, f: Form, n: nat)
    requires n <= |RequiredFields|
    ensures forall p :: p in Checked(pre, f, n) <==> p in pre || (p in RequiredFields[..n] && Blank(f, p.0))
  {
    if n > 0 {
      CheckedMembers(pre, f, n - 1);
      assert RequiredFields[..n] == RequiredFields[..n - 1] + [RequiredFields[n - 1]];
    }
  }

  /** The checks only ever append to what was there before them. */
  lemma {:induction false} CheckedAppends(pre: seq<(string, string)>, f: Form, n: nat)
    requires n <= |RequiredFields|
    ensures Checked(pre, f, n) == pre + Checked([], f, n)
  {
    if n > 0 {
      CheckedAppends(pre, f, n - 1);
      assert pre + Checked([], f, n - 1) + Entry(f, RequiredFields[n - 1])
          == pre + (Checked([], f, n - 1) + Entry(f, RequiredFields[n - 1]));
    }
  }

  /** The checked fields are distinct and none of them is the e-mail. */
  lemma RequiredFieldsShape()
    ensures KeysDistinct(RequiredFields)
    ensures forall p :: p in RequiredFields ==> p.0 != "email"
  {
  }

  /** After the first `n` checks the dict has no entry for the field of check `n`. */
  lemma CheckedFresh(pre: seq<(string, string)>, f: Form, n: nat)
    requires n < |RequiredFields|
    requires forall p :: p in pre ==> p.0 == "email"
    ensures forall p :: p in Checked(pre, f, n) ==> p.0 != RequiredFields[n].0
  {
    RequiredFieldsShape();
    CheckedMembers(pre, f, n);
    assert RequiredFields[n] in RequiredFields;
    forall p | p in Checked(pre, f, n) ensures p.0 != RequiredFields[n].0 {
      if p !in pre {
        var m :| 0 <= m < n && RequiredFields[..n][m] == p;
        assert RequiredFields[m] == p;
      }
    }
  }

  /** No entry of the dict after every check is an e-mail entry, unless it was there before. */
  lemma CheckedNoEmail(f: Form)
    ensures forall p :: p in Checked([], f, |RequiredFields|) ==> p.0 != "email"
  {
    RequiredFieldsShape();
    CheckedMembers([], f, |RequiredFields|);
  }

  /** The e-mail entry before the account lookup: missing or empty, or rejected by
      `validate_email`. */
  function EmailError(data: Form, validEmail: string -> bool): (e: Option<string>)
    ensures e.None? ==> "email" in data && QueryItem(data["email"]).VStr?
  {
    if "email" !in data || !Truthy(QueryItem(data["email"])) then Some("Email field is Required")
    else if !validEmail(QueryItem(data["email"]).s) then Some("Email is not Valid")
    else None
  }

  /** `Users.objects.filter(email=email).exists()` for the submitted address. */
  predicate EmailInUse(users: map<nat, User>, data: Form)
  {
    "email" in data && QueryItem(data["email"]).VStr?
    && exists id :: id in users && users[id].email == QueryItem(data["email"]).s
  }

  /** The `errors` dict the view ends with, in insertion order: an early e-mail entry comes
      first and is overwritten in place by the lookup; a lookup entry with no earlier e-mail
      entry comes last. */
  function SignupErrors(data: Form, validEmail: string -> bool, registered: bool): (r: seq<(string, string)>)
    ensures r == [] ==> EmailError(data, validEmail).None? && !registered
  {
    var f := AcademyAdjusted(data);
    var e := EmailError(data, validEmail);
    if e.Some? then Checked([("email", if registered then RegisteredMessage else e.value)], f, |RequiredFields|)
    else if registered then Checked([], f, |RequiredFields|) + [("email", RegisteredMessage)]
    else Checked([], f, |RequiredFields|)
  }

  /** Each checked field that is present but empty has its message among the errors, and an
      absent or filled field has none. */
  lemma SignupFieldErrorIff(data: Form, validEmail: string -> bool, registered: bool, i: nat)
    requires i < |RequiredFields|
    ensures RequiredFields[i] in SignupErrors(data, validEmail, registered)
            <==> Blank(AcademyAdjusted(data), RequiredFields[i].0)
  {
    RequiredFieldsShape();
    var f := AcademyAdjusted(data);
    var e := EmailError(data, validEmail);
    CheckedMembers([], f, |RequiredFields|);
    CheckedMembers([("email", if registered then RegisteredMessage else if e.Some? then e.value else "")], f, |RequiredFields|);
    assert RequiredFields[i] in RequiredFields;
    assert RequiredFields[..|RequiredFields|] == RequiredFields;
  }

  /** Every error entry is an e-mail entry or the entry of a present but empty field. */
  lemma SignupErrorsExplained(data: Form, validEmail: string -> bool, registered: bool)
    ensures forall p :: p in SignupErrors(data, validEmail, registered)
              ==> p.0 == "email" || (p in RequiredFields && Blank(AcademyAdjusted(data), p.0))
  {
    var f := AcademyAdjusted(data);
    var e := EmailError(data, validEmail);
    CheckedMembers([], f, |RequiredFields|);
    CheckedMembers([("email", if registered then RegisteredMessage else if e.Some? then e.value else "")], f, |RequiredFields|);
    assert RequiredFields[..|RequiredFields|] == RequiredFields;
  }

  /** An address already in use leaves the lookup's message under "email", and every
      e-mail entry holds it, whatever the earlier e-mail checks found. */
  lemma RegisteredEmailMessage(data: Form, validEmail: string -> bool)
    ensures DictGet(SignupErrors(data, validEmail, true), "email") == Some(RegisteredMessage)
    ensures forall p :: p in SignupErrors(data, validEmail, true) && p.0 == "email"
              ==> p.1 == RegisteredMessage
  {
    var fields := Checked([], AcademyAdjusted(data), |RequiredFields|);
    CheckedNoEmail(AcademyAdjusted(data));
    if EmailError(data, validEmail).None? {
      NoKey(fields, "email");
      DictGetSet(fields, "email", RegisteredMessage);
    } else {
      CheckedAppends([("email", RegisteredMessage)], AcademyAdjusted(data), |RequiredFields|);
    }
  }

  lemma NoKey(d: seq<(string, string)>, k: string)
    requires forall p :: p in d ==> p.0 != k
    ensures !HasKey(d, k)
  {
    forall i | 0 <= i < |d| ensures d[i].0 != k {
      assert d[i] in d;
    }
  }

  /** An academy signup that sends no `sport[]` list always fails on the sport. */
  lemma AcademyWithoutSportList(data: Form, validEmail: string -> bool, registered: bool)
    requires AcademySignup(data) && "sport[]" !in data
    ensures ("sport", "Sport is Required") in SignupErrors(data, validEmail, registered)
  {
    SignupFieldErrorIff(data, validEmail, registered, 1);
  }

  /** `if key in data and not data[key]: errors[key] = message`, the check numbered `n`. */
  method CheckField(ghost pre: seq<(string, string)>, errors: seq<(string, string)>, f: Form,
                    ghost n: nat, key: string, message: string)
    returns (r: seq<(string, string)>)
    requires n < |RequiredFields| && RequiredFields[n] == (key, message)
    requires forall p :: p in pre ==> p.0 == "email"
    requires errors == Checked(pre, f, n)
    ensures r == Checked(pre, f, n + 1)
  {
    CheckedFresh(pre, f, n);
    r := errors;
    if key in f && !Truthy(QueryItem(f[key])) {
      NoKey(r, key);
      r := DictSet(r, key, message);
    }
  }

  /** The checks on username, sport, state and district. */
  method CheckRequiredFieldsA(pre: seq<(string, string)>, f: Form) returns (r: seq<(string, string)>)
    requires forall p :: p in pre ==> p.0 == "email"
    ensures r == Checked(pre, f, 4)
  {
    r := pre;
    r := CheckField(pre, r, f, 0, "username", "Name is required");
    r := CheckField(pre, r, f, 1, "sport", "Sport is Required");
    r := CheckField(pre, r, f, 2, "state", "State is required");
    r := CheckField(pre, r, f, 3, "district", "District is required");
  }

  /** The checks on date of birth, password and licence. */
  method CheckRequiredFieldsB(pre: seq<(string, string)>, errors: seq<(string, string)>, f: Form)
    returns (r: seq<(string, string)>)
    requires forall p :: p in pre ==> p.0 == "email"
    requires errors == Checked(pre, f, 4)
    ensures r == Checked(pre, f, 7)
  {
    r := errors;
    r := CheckField(pre, r, f, 4, "dob", "Date of birth is required");
    r := CheckField(pre, r, f, 5, "password", "Password is required");
    r := CheckField(pre, r, f, 6, "license", "License is required");
  }

  /** The validation half of `Signup.post`: the e-mail checks, the academy sport
      adjustment, the emptiness checks and the account lookup, in source order. */
  method CollectSignupErrors(users: map<nat, User>, data: Form, validEmail: string -> bool)
    returns (errors: seq<(string, string)>)
    ensures errors == SignupErrors(data, validEmail, EmailInUse(users, data))
  {
    errors := [];
    if "email" !in data || !Truthy(QueryItem(data["email"])) {
      errors := DictSet(errors, "email", "Email field is Required");
    } else if !validEmail(QueryItem(data["email"]).s) {
      errors := DictSet(errors, "email", "Email is not Valid");
    }
    var pre := errors;
    var f := AcademyAdjusted(data);
    errors := CheckRequiredFieldsA(pre, f);
    errors := CheckRequiredFieldsB(pre, errors, f);
    if "email" in data && QueryItem(data["email"]).VStr?
       && exists id :: id in users && users[id].email == QueryItem(data["email"]).s
    {
      CheckedAppends(pre, f, |RequiredFields|);
      CheckedAppends([("email", RegisteredMessage)], f, |RequiredFields|);
      CheckedNoEmail(f);
      NoKey(Checked([], f, |RequiredFields|), "email");
      errors := DictSet(errors, "email", RegisteredMessage);
    }
  }
}
