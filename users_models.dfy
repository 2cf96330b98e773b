/** The account tables of users/models.py: the custom user, its sports, its profile and the
    academy certification row, with the field defaults the model declares, and the e-mail
    normalisation the user manager applies before saving. */
module UsersModels {
  import opened Common

  /** A stored password. `set_password(None)` leaves an unusable password; hashing itself is
      not modelled, so a usable password records the secret it was set from. */
  datatype Password = Unusable | Secret(raw: string)

  function SetPassword(p: Option<string>): (r: Password)
    ensures p.None? <==> r.Unusable?
    ensures p.Some? ==> r.raw == p.value
  {
    match p
    case None => Unusable
    case Some(s) => Secret(s)
  }

  /** `user.check_password(p)`: only the secret the password was set from matches. */
  predicate CheckPassword(stored: Password, p: string)
  {
    stored == Secret(p)
  }

  datatype User = User(
    id: nat,
    username: Option<string>,
    email: string,
    phone: Option<string>,
    otp: Option<string>,
    dob: Option<string>,
    isAcademy: bool,
    isActive: bool,
    isVerified: bool,
    isStaff: bool,
    isSuperuser: bool,
    authProvider: string,
    password: Password)

  /** A fresh `Users` row with every field at its declared default. */
  function DefaultUser(id: nat, email: string, username: Option<string>): (u: User)
    ensures u.id == id && u.email == email && u.username == username
    ensures !u.isAcademy && u.isActive && !u.isVerified && u.authProvider == "email"
    ensures !u.isStaff && !u.isSuperuser && u.otp.None? && u.password.Unusable?
  {
    User(id, username, email, None, None, None, false, true, false, false, false, "email", Unusable)
  }

  datatype SportRow = SportRow(userId: nat, sportName: string)

  datatype UserProfile = UserProfile(
    userId: nat,
    bio: Option<string>,
    about: Option<string>,
    state: Option<string>,
    district: Option<string>,
    profilePhoto: Option<string>,
    coverPhoto: Option<string>)

  function EmptyProfile(userId: nat): (p: UserProfile)
    ensures p.userId == userId && p.bio.None? && p.about.None? && p.state.None?
    ensures p.district.None? && p.profilePhoto.None? && p.coverPhoto.None?
  {
    UserProfile(userId, None, None, None, None, None, None)
  }

  datatype Academy = Academy(userId: nat, license: Option<string>, isCertified: bool)

  // ---------------------------------------------------------------------------
  // normalize_email

  predicate NoAt(s: string)
  {
    '@' !in s
  }

  /** `BaseUserManager.normalize_email`: strip the address, split it at its last '@' and
      lower-case the domain part; an address without '@' is returned as given. */
  function NormalizeEmail(email: string): (r: string)
    ensures '@' !in Strip(email) ==> r == email
  {
    var s := Strip(email);
    match LastIndexOf(s, '@')
    case None => email
    case Some(k) => s[..k] + "@" + Lower(s[k + 1..])
  }

  lemma LowerIdempotent(s: string)
    ensures Lower(Lower(s)) == Lower(s)
  {
  }

  lemma StripOfTrimmed(s: string)
    requires s != [] && !IsSpace(s[0]) && !IsSpace(s[|s| - 1])
    ensures Strip(s) == s
  {
  }

  /** The last occurrence of `c` is the one position holding `c` with none after it. */
  lemma {:induction false} LastIndexOfIs(s: string, c: char, k: nat)
    requires k < |s| && s[k] == c
    requires forall j :: k < j < |s| ==> s[j] != c
    ensures LastIndexOf(s, c) == Some(k)
    decreases |s|
  {
    if s[|s| - 1] != c {
      assert k < |s| - 1;
      var t := s[..|s| - 1];
      assert t[k] == c;
      LastIndexOfIs(t, c, k);
    }
  }

  lemma AddressStart(name: string, dom: string, r: string)
    requires name == [] || !IsSpace(name[0])
    requires r == name + "@" + Lower(dom)
    ensures r[|name|] == '@' && !IsSpace(r[0])
  {
    if |name| > 0 {
      assert r[0] == name[0];
    }
  }

  lemma AddressEnd(name: string, dom: string, r: string)
    requires dom == [] || !IsSpace(dom[|dom| - 1])
    requires r == name + "@" + Lower(dom)
    ensures !IsSpace(r[|r| - 1])
  {
    var ld := Lower(dom);
    if |dom| > 0 {
      assert r[|r| - 1] == ld[|dom| - 1];
      assert ld[|dom| - 1] == LowerChar(dom[|dom| - 1]);
    }
  }

  lemma DomainHasNoAt(name: string, dom: string, r: string)
    requires NoAt(dom)
    requires r == name + "@" + Lower(dom)
    ensures forall j :: |name| < j < |r| ==> r[j] != '@'
  {
    var ld := Lower(dom);
    forall j | |name| < j < |r| ensures r[j] != '@' {
      assert r[j] == ld[j - |name| - 1];
      assert dom[j - |name| - 1] in dom;
    }
  }

  lemma AddressShape(name: string, dom: string, r: string)
    requires NoAt(dom)
    requires name == [] || !IsSpace(name[0])
    requires dom == [] || !IsSpace(dom[|dom| - 1])
    requires r == name + "@" + Lower(dom)
    ensures Strip(r) == r && LastIndexOf(r, '@') == Some(|name|)
    ensures r[..|name|] == name && r[|name| + 1..] == Lower(dom)
  {
    AddressStart(name, dom, r);
    AddressEnd(name, dom, r);
    StripOfTrimmed(r);
    DomainHasNoAt(name, dom, r);
    LastIndexOfIs(r, '@', |name|);
    assert r[..|name|] == name;
    assert r[|name| + 1..] == Lower(dom);
  }

  /** An address made of a trimmed local part, '@' and a lower-cased domain without '@' is
      already normal. */
  lemma NormalizeOfNormalized(name: string, dom: string)
    requires NoAt(dom)
    requires name == [] || !IsSpace(name[0])
    requires dom == [] || !IsSpace(dom[|dom| - 1])
    ensures NormalizeEmail(name + "@" + Lower(dom)) == name + "@" + Lower(dom)
  {
    NormalAddress(name, dom, name + "@" + Lower(dom));
  }

  lemma NormalAddress(name: string, dom: string, r: string)
    requires NoAt(dom)
    requires name == [] || !IsSpace(name[0])
    requires dom == [] || !IsSpace(dom[|dom| - 1])
    requires r == name + "@" + Lower(dom)
    ensures NormalizeEmail(r) == r
  {
    AddressShape(name, dom, r);
    var k := |name|;
    assert NormalizeEmail(r) == r[..k] + "@" + Lower(r[k + 1..]);
    LowerIdempotent(dom);
  }

  /** Normalising an already normalised address changes nothing. */
  lemma NormalizeEmailIdempotent(email: string)
    ensures NormalizeEmail(NormalizeEmail(email)) == NormalizeEmail(email)
  {
    var s := Strip(email);
    match LastIndexOf(s, '@')
    case None =>
    case Some(k) =>
      var name, dom := s[..k], s[k + 1..];
      assert NoAt(dom) by {
        forall i | 0 <= i < |dom| ensures dom[i] != '@' {
          assert dom[i] == s[k + 1 + i];
        }
      }
      assert name == [] || !IsSpace(name[0]) by {
        if name != [] { assert name[0] == s[0]; }
      }
      assert dom == [] || !IsSpace(dom[|dom| - 1]) by {
        if dom != [] { assert dom[|dom| - 1] == s[|s| - 1]; }
      }
      NormalizeOfNormalized(name, dom);
  }
}
