/** `UserAcademySerializer` of user_profile/serializers/useracademy_serializer.py: the
    per-field check of `academy`, the object-level `validate` that blanks the end date of a
    current position and reports the first missing field, and `create`, which stores the
    row for the requesting user. Validated data is a map from field name to request value. */
module UserAcademySerializer {
  import opened Common
  import opened ProfileModels
  import opened Store

  /** The fields `validate` insists on, in the order it checks them, and their messages. */
  const RequiredFields: seq<string> := ["start_month", "start_year", "sport", "position"]
  const MissingMessages: seq<string> :=
    ["Enter valid Start Month", "Enter valid start year", "Enter valid sport", "Enter valid position"]

  const InvalidAcademy := "Enter valid academy"

  /** `validate`: an `is_current` that is true blanks `end_month` and `end_year`; then the
      first of the required fields that is missing is reported. */
  function Validate(attrs: map<string, Value>): (r: Result<map<string, Value>>)
    ensures r.Ok? <==> forall i :: 0 <= i < |RequiredFields| ==> RequiredFields[i] in attrs
    ensures r.Err? ==> exists i :: 0 <= i < |RequiredFields| && RequiredFields[i] !in attrs
                                   && (forall j :: 0 <= j < i ==> RequiredFields[j] in attrs)
                                   && r.error == MissingMessages[i]
    ensures r.Ok? ==> Blanked(attrs, r.value)
  {
    var a := if "is_current" in attrs && Truthy(attrs["is_current"])
             then attrs["end_month" := VStr("")]["end_year" := VStr("")]
             else attrs;
    assert forall k :: k != "end_month" && k != "end_year" ==> (k in a <==> k in attrs);
    assert RequiredFields[0] == "start_month" && RequiredFields[1] == "start_year";
    assert RequiredFields[2] == "sport" && RequiredFields[3] == "position";
    if "start_month" !in a then Err("Enter valid Start Month")
    else if "start_year" !in a then Err("Enter valid start year")
    else if "sport" !in a then Err("Enter valid sport")
    else if "position" !in a then Err("Enter valid position")
    else Ok(a)
  }

  /** `out` is `attrs` with the end date blanked exactly when the position is current; every
      other field keeps its value. */
  predicate Blanked(attrs: map<string, Value>, out: map<string, Value>)
  {
    var current := "is_current" in attrs && Truthy(attrs["is_current"]);
    (forall k :: k in out && k != "end_month" && k != "end_year" ==> k in attrs && out[k] == attrs[k])
    && (forall k :: k in attrs ==> k in out)
    && (current ==> "end_month" in out && out["end_month"] == VStr("") && "end_year" in out && out["end_year"] == VStr(""))
    && (!current ==> out == attrs)
  }

  /** Validation is idempotent: validated data passes again unchanged. */
  lemma ValidateIdempotent(attrs: map<string, Value>)
    requires Validate(attrs).Ok?
    ensures Validate(Validate(attrs).value) == Validate(attrs)
  {
    var out := Validate(attrs).value;
    if "is_current" in attrs && Truthy(attrs["is_current"]) {
      assert out == attrs["end_month" := VStr("")]["end_year" := VStr("")];
      assert out["end_month" := VStr("")]["end_year" := VStr("")] == out;
    }
  }

  /** `validate_academy`, which runs with the other field checks before `validate`: a null
      academy is refused. */
  function ValidateAcademy(v: Value): (r: Result<Value>)
    ensures r.Err? <==> v == VNull
    ensures r.Ok? ==> r.value == v
    ensures r.Err? ==> r.error == InvalidAcademy
  {
    if v == VNull then Err(InvalidAcademy) else Ok(v)
  }

  /** `is_valid`: field checks first, so a null academy is reported even when required
      fields are also missing. */
  function IsValid(attrs: map<string, Value>): (r: Result<map<string, Value>>)
    ensures "academy" in attrs && attrs["academy"] == VNull ==> r == Err(InvalidAcademy)
    ensures !("academy" in attrs && attrs["academy"] == VNull) ==> r == Validate(attrs)
  {
    if "academy" in attrs then
      match ValidateAcademy(attrs["academy"])
      case Err(e) => Err(e)
      case Ok(_) => Validate(attrs)
    else Validate(attrs)
  }

  /** A text field of the validated data. */
  function Text(attrs: map<string, Value>, k: string): (t: Option<string>)
    ensures t.Some? <==> k in attrs && attrs[k].VStr?
    ensures t.Some? ==> t.value == attrs[k].s
  {
    if k in attrs && attrs[k].VStr? then Some(attrs[k].s) else None
  }

  /** The academy a validated form points to (an id; anything else leaves it unset). */
  function AcademyRef(attrs: map<string, Value>): (a: Option<nat>)
    ensures a.Some? <==> "academy" in attrs && attrs["academy"].VInt? && attrs["academy"].i >= 0
  {
    if "academy" in attrs && attrs["academy"].VInt? && attrs["academy"].i >= 0
    then Some(attrs["academy"].i as nat) else None
  }

  /** `create`: `UserAcademy.objects.create(user=request.user, **validated_data)` under the
      next id. */
  method Create(db: Database, userId: nat, validated: map<string, Value>) returns (row: UserAcademy)
    modifies db`userAcademies, db`nextId
    ensures row.id == old(db.nextId) && db.nextId == row.id + 1
    ensures db.userAcademies == old(db.userAcademies)[row.id := row]
    ensures row.userId == Some(userId) && row.academyId == AcademyRef(validated)
    ensures row.startMonth == Text(validated, "start_month") && row.startYear == Text(validated, "start_year")
    ensures row.endMonth == Text(validated, "end_month") && row.endYear == Text(validated, "end_year")
    ensures row.position == Text(validated, "position") && row.sport == Text(validated, "sport")
    ensures row.isCurrent <==> "is_current" in validated && Truthy(validated["is_current"])
  {
    var id := db.nextId;
    var current := "is_current" in validated && Truthy(validated["is_current"]);
    row := UserAcademy(id, Some(userId), AcademyRef(validated),
                       Text(validated, "start_month"), Text(validated, "start_year"),
                       Text(validated, "end_month"), Text(validated, "end_year"),
                       Text(validated, "position"), current, Text(validated, "sport"));
    db.userAcademies := db.userAcademies[id := row];
    db.nextId := id + 1;
  }

  /** A current position is stored with an empty end date. */
  lemma CurrentHasNoEnd(attrs: map<string, Value>)
    requires IsValid(attrs).Ok?
    requires "is_current" in attrs && Truthy(attrs["is_current"])
    ensures Text(IsValid(attrs).value, "end_month") == Some("")
    ensures Text(IsValid(attrs).value, "end_year") == Some("")
  {
  }
}
