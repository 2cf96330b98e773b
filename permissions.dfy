/** The permission classes of common/custom_permission_classes.py. Each one reads flags of
    `request.user`, which DRF sets to an anonymous user when no token authenticated the
    request. The anonymous user has `is_staff` False but no `is_academy` attribute, so the
    two classes that read `is_academy` raise for it. */
module Permissions {
  import opened UsersModels

  datatype Requester = Anonymous | Member(user: User)

  /** The result of `has_permission`: a boolean, or the AttributeError it raises. */
  datatype Verdict = Allow | Refuse | Raises

  function FromBool(b: bool): Verdict
  {
    if b then Allow else Refuse
  }

  function IsStaff(r: Requester): bool
  {
    r.Member? && r.user.isStaff
  }

  /** `IsAdmin`: `request.user and request.user.is_staff`. */
  function IsAdmin(r: Requester): (v: Verdict)
    ensures v == Allow <==> r.Member? && r.user.isStaff
    ensures v != Raises
  {
    FromBool(IsStaff(r))
  }

  /** `IsAcademy`: `request.user and request.user.is_academy`. */
  function IsAcademy(r: Requester): (v: Verdict)
    ensures v == Allow <==> r.Member? && r.user.isAcademy
    ensures v == Raises <==> r.Anonymous?
  {
    match r
    case Anonymous => Raises
    case Member(u) => FromBool(u.isAcademy)
  }

  /** `IsPlayer`: the user is neither an academy nor staff. */
  function IsPlayer(r: Requester): (v: Verdict)
    ensures v == Allow <==> r.Member? && !r.user.isAcademy && !r.user.isStaff
    ensures v == Raises <==> r.Anonymous?
  {
    match r
    case Anonymous => Raises
    case Member(u) => FromBool(!u.isAcademy && !u.isStaff)
  }

  /** `IsUser`: the user is not staff (which the anonymous user is not either). */
  function IsUser(r: Requester): (v: Verdict)
    ensures v == Allow <==> !(r.Member? && r.user.isStaff)
    ensures v != Raises
  {
    FromBool(!IsStaff(r))
  }

  /** DRF's `A | B`: B is consulted only when A does not grant. */
  function Or(a: Verdict, b: Verdict): (v: Verdict)
    ensures v == Allow <==> a.Allow? || (a.Refuse? && b == Allow)
    ensures v == Raises <==> a.Raises? || (a.Refuse? && b == Raises)
    ensures a.Refuse? ==> v == b
  {
    if a == Allow then Allow
    else if a == Raises then Raises
    else b
  }

  /** Every player passes `IsUser`. */
  lemma PlayerIsUser(r: Requester)
    ensures IsPlayer(r) == Allow ==> IsUser(r) == Allow
  {
  }

  /** `IsAdmin` and `IsUser` never grant the same requester, and one of them always does. */
  lemma AdminUserPartition(r: Requester)
    ensures !(IsAdmin(r) == Allow && IsUser(r) == Allow)
    ensures IsAdmin(r) == Allow || IsUser(r) == Allow
  {
  }

  /** Hence `IsUser | IsAdmin` grants every requester. */
  lemma UserOrAdminGrantsAll(r: Requester)
    ensures Or(IsUser(r), IsAdmin(r)) == Allow
  {
  }

  /** An academy that is not staff passes both `IsAcademy` and `IsUser`, and never
      `IsPlayer`. */
  lemma AcademyIsUserNotPlayer(r: Requester)
    requires r.Member? && r.user.isAcademy && !r.user.isStaff
    ensures IsAcademy(r) == Allow && IsUser(r) == Allow && IsPlayer(r) == Refuse
  {
  }
}
