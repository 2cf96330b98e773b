/** `ProfileData.post` and `UpdatePhoto` of user_profile/views.py: the partial update of a
    user's own row and profile with the synchronisation of their sport rows, and the choice
    of which photo an upload or a delete applies to. Request text fields arrive as a map
    from key to a text value or JSON null; the statuses are the `status` members of the
    JSON bodies. */
module ProfileViews {
  import opened Common
  import opened UsersModels
  import opened Store

  // ---------------------------------------------------------------------------
  // Field edits of ProfileData.post

  /** The value a present key assigns, or the field's current value. */
  function Assigned(data: map<string, Option<string>>, key: string, current: Option<string>): (v: Option<string>)
    ensures key !in data ==> v == current
    ensures key in data ==> v == data[key]
  {
    if key in data then data[key] else current
  }

  /** The user row after the `phone`, `username` and `dob` assignments. */
  function EditedUser(u: User, data: map<string, Option<string>>): (r: User)
    ensures r.(phone := u.phone, username := u.username, dob := u.dob) == u
    ensures "phone" !in data ==> r.phone == u.phone
    ensures "username" !in data ==> r.username == u.username
    ensures "dob" !in data ==> r.dob == u.dob
  {
    u.(phone := Assigned(data, "phone", u.phone),
       username := Assigned(data, "username", u.username),
       dob := Assigned(data, "dob", u.dob))
  }

  /** The profile after the `state`, `district` and `bio` assignments. */
  function EditedProfile(p: UserProfile, data: map<string, Option<string>>): (r: UserProfile)
    ensures r.(state := p.state, district := p.district, bio := p.bio) == p
    ensures "state" !in data ==> r.state == p.state
    ensures "district" !in data ==> r.district == p.district
    ensures "bio" !in data ==> r.bio == p.bio
  {
    p.(state := Assigned(data, "state", p.state),
       district := Assigned(data, "district", p.district),
       bio := Assigned(data, "bio", p.bio))
  }

  /** A request without any of the editable keys changes neither row. */
  lemma NoKeysNoEdits(u: User, p: UserProfile, data: map<string, Option<string>>)
    requires forall k :: k in data ==> k !in {"phone", "username", "dob", "state", "district", "bio"}
    ensures EditedUser(u, data) == u && EditedProfile(p, data) == p
  {
  }

  // ---------------------------------------------------------------------------
  // Sport rows

  /** The bulk delete before the loop: rows of `user` whose name is in `dropped` go (which
      names the filter matches is left as a parameter). */
  function DropSports(rows: seq<SportRow>, user: nat, dropped: set<string>): (r: seq<SportRow>)
    ensures forall s :: s in r <==> s in rows && !(s.userId == user && s.sportName in dropped)
    ensures Distinct(rows) ==> Distinct(r)
  {
    if rows == [] then []
    else
      var last := rows[|rows| - 1];
      var front := DropSports(rows[..|rows| - 1], user, dropped);
      assert forall s :: s in rows[..|rows| - 1] ==> s in rows;
      if last.userId == user && last.sportName in dropped then front else front + [last]
  }

  /** The sport rows after the first `n` names of the loop: a row is created for a name only
      when the user has none by that name. */
  function SyncSports(rows: seq<SportRow>, user: nat, names: seq<string>, n: nat): (r: seq<SportRow>)
    requires n <= |names|
    ensures |rows| <= |r| && r[..|rows|] == rows
  {
    if n == 0 then rows
    else
      var before := SyncSports(rows, user, names, n - 1);
      if SportRow(user, names[n - 1]) in before then before else before + [SportRow(user, names[n - 1])]
  }

  /** After the loop every listed sport has a row for the user. */
  lemma {:induction false} SyncSportsCovers(rows: seq<SportRow>, user: nat, names: seq<string>, n: nat)
    requires n <= |names|
    ensures forall i :: 0 <= i < n ==> SportRow(user, names[i]) in SyncSports(rows, user, names, n)
  {
    if n > 0 {
      SyncSportsCovers(rows, user, names, n - 1);
      var before := SyncSports(rows, user, names, n - 1);
      assert forall s :: s in before ==> s in SyncSports(rows, user, names, n);
    }
  }

  /** The loop adds only rows of the user, only for listed names, and never a second copy of
      a row. */
  lemma {:induction false} SyncSportsAdds(rows: seq<SportRow>, user: nat, names: seq<string>, n: nat)
    requires n <= |names|
    ensures forall k :: |rows| <= k < |SyncSports(rows, user, names, n)| ==>
              SyncSports(rows, user, names, n)[k].userId == user
              && SyncSports(rows, user, names, n)[k].sportName in names[..n]
    ensures Distinct(rows) ==> Distinct(SyncSports(rows, user, names, n))
  {
    if n > 0 {
      SyncSportsAdds(rows, user, names, n - 1);
      assert names[..n - 1] + [names[n - 1]] == names[..n];
      assert forall x :: x in names[..n - 1] ==> x in names[..n];
      var before := SyncSports(rows, user, names, n - 1);
      var r := SyncSports(rows, user, names, n);
      forall k | |rows| <= k < |r|
        ensures r[k].userId == user && r[k].sportName in names[..n]
      {
        if k < |before| {
          assert r[k] == before[k];
          assert before[k].sportName in names[..n - 1];
        } else {
          assert r[k] == SportRow(user, names[n - 1]);
          assert names[..n][n - 1] == names[n - 1];
        }
      }
    }
  }

  /** Rows of other users are the same after the loop. */
  lemma {:induction false} SyncSportsOthers(rows: seq<SportRow>, user: nat, names: seq<string>, n: nat)
    requires n <= |names|
    ensures forall s: SportRow :: s.userId != user ==> (s in SyncSports(rows, user, names, n) <==> s in rows)
  {
    if n > 0 {
      SyncSportsOthers(rows, user, names, n - 1);
    }
  }

  /** The `for sport in request.data['sport']` loop. */
  method AddMissingSports(db: Database, user: nat, names: seq<string>)
    modifies db`sports
    ensures db.sports == SyncSports(old(db.sports), user, names, |names|)
  {
    var rows := db.sports;
    for i := 0 to |names|
      invariant rows == SyncSports(old(db.sports), user, names, i)
    {
      if SportRow(user, names[i]) !in rows {
        rows := rows + [SportRow(user, names[i])];
      }
    }
    db.sports := rows;
  }

  // ---------------------------------------------------------------------------
  // ProfileData.post

  const Updated := "User details updated successfully"

  /** The profile the view edits: the stored one, or a new empty one. */
  function ProfileOf(profiles: map<nat, UserProfile>, user: nat): (p: UserProfile)
    ensures user in profiles ==> p == profiles[user]
    ensures user !in profiles ==> p == EmptyProfile(user)
  {
    if user in profiles then profiles[user] else EmptyProfile(user)
  }

  /** `ProfileData.post` for the requester `me` (None when the request has no `Users`
      object). `userSaves` is whether `instance.save()` accepts the assigned values (an
      unparsable `dob` makes it raise): the profile creation and the sport rows are written
      before that and stay, the field edits of both rows are lost. */
  method UpdateProfile(db: Database, me: Option<nat>, data: map<string, Option<string>>,
                       sports: Option<seq<string>>, dropped: set<string>, userSaves: bool)
    returns (reply: Reply)
    requires me.Some? ==> me.value in db.users
    requires db.UsersKeyed() && db.EmailsUnique()
    modifies db`users, db`profiles, db`sports
    ensures db.UsersKeyed() && db.EmailsUnique()
    ensures me.None? ==> reply == Reply(400, "service not available")
                         && db.users == old(db.users) && db.profiles == old(db.profiles) && db.sports == old(db.sports)
    ensures me.Some? ==>
              var id := me.value;
              var p := ProfileOf(old(db.profiles), id);
              db.sports == (if sports.Some? then SyncSports(DropSports(old(db.sports), id, dropped), id, sports.value, |sports.value|)
                            else old(db.sports))
              && (userSaves ==> reply == Reply(200, Updated)
                                && db.users == old(db.users)[id := EditedUser(old(db.users)[id], data)]
                                && db.profiles == old(db.profiles)[id := EditedProfile(p, data)])
              && (!userSaves ==> reply == Reply(400, "some error")
                                 && db.users == old(db.users) && db.profiles == old(db.profiles)[id := p])
  {
    if me.None? {
      return Reply(400, "service not available");
    }
    var id := me.value;
    var users0, profiles0 := db.users, db.profiles;
    var instance := EditedUser(users0[id], data);
    var p := ProfileOf(profiles0, id);
    if id !in profiles0 {
      db.profiles := profiles0[id := p];
    }
    assert db.profiles == profiles0[id := p];
    var profile := EditedProfile(p, data);
    if sports.Some? {
      db.sports := DropSports(db.sports, id, dropped);
      AddMissingSports(db, id, sports.value);
    }
    if !userSaves {
      return Reply(400, "some error");
    }
    UpdateUser(users0, db.nextId, instance);
    db.users := users0[id := instance];
    db.profiles := profiles0[id := profile];
    reply := Reply(200, Updated);
  }

  /** With a sport list and distinct rows before, every listed sport has exactly one row for
      the user afterwards, and the rows stay distinct. */
  lemma SportsAfterUpdate(rows: seq<SportRow>, user: nat, dropped: set<string>, names: seq<string>)
    requires Distinct(rows)
    ensures var r := SyncSports(DropSports(rows, user, dropped), user, names, |names|);
            Distinct(r) && forall i :: 0 <= i < |names| ==> SportRow(user, names[i]) in r
  {
    SyncSportsCovers(DropSports(rows, user, dropped), user, names, |names|);
    SyncSportsAdds(DropSports(rows, user, dropped), user, names, |names|);
  }

  // ---------------------------------------------------------------------------
  // UpdatePhoto

  /** `UpdatePhoto.post`. `valid` is the serializer's verdict; `profilePhoto` and
      `coverPhoto` are the validated uploads. The serializer's own `save` writes to the user
      row, which has no photo fields, so it changes nothing stored. */
  method UploadPhoto(db: Database, me: nat, valid: bool, profilePhoto: Option<string>, coverPhoto: Option<string>)
    returns (reply: Reply)
    modifies db`profiles
    ensures !valid || me !in old(db.profiles) ==>
              reply == Reply(400, "Photo updation failed") && db.profiles == old(db.profiles)
    ensures valid && me in old(db.profiles) ==>
              var p := old(db.profiles)[me];
              (Filled(profilePhoto) ==> reply == Reply(200, "Profile Photo updated successfully")
                                        && db.profiles == old(db.profiles)[me := p.(profilePhoto := profilePhoto)])
              && (!Filled(profilePhoto) && Filled(coverPhoto) ==>
                    reply == Reply(200, "Cover Photo updated successfully")
                    && db.profiles == old(db.profiles)[me := p.(coverPhoto := coverPhoto)])
              && (!Filled(profilePhoto) && !Filled(coverPhoto) ==>
                    reply == Reply(400, "No valied data updation failed") && db.profiles == old(db.profiles))
  {
    if !valid || me !in db.profiles {
      return Reply(400, "Photo updation failed");
    }
    var profile := db.profiles[me];
    var message;
    if Filled(profilePhoto) {
      profile := profile.(profilePhoto := profilePhoto);
      message := "Profile Photo updated successfully";
    } else if Filled(coverPhoto) {
      profile := profile.(coverPhoto := coverPhoto);
      message := "Cover Photo updated successfully";
    } else {
      return Reply(400, "No valied data updation failed");
    }
    db.profiles := db.profiles[me := profile];
    reply := Reply(200, message);
  }

  /** `UpdatePhoto.delete`: `type` "profile" or "cover" clears that photo. */
  method DeletePhoto(db: Database, me: nat, data: map<string, Value>) returns (reply: Reply)
    modifies db`profiles
    ensures me !in old(db.profiles) ==> reply == Reply(400, "Photo deletion failed") && db.profiles == old(db.profiles)
    ensures me in old(db.profiles) ==>
              var p := old(db.profiles)[me];
              (Get(data, "type") == Some(VStr("profile")) ==>
                 reply == Reply(200, "Profile Photo deleted successfully")
                 && db.profiles == old(db.profiles)[me := p.(profilePhoto := None)])
              && (Get(data, "type") == Some(VStr("cover")) ==>
                    reply == Reply(200, "Cover Photo deleted successfully")
                    && db.profiles == old(db.profiles)[me := p.(coverPhoto := None)])
              && (Get(data, "type") !in {Some(VStr("profile")), Some(VStr("cover"))} ==>
                    reply == Reply(400, "No valid data photo deletion Failed") && db.profiles == old(db.profiles))
  {
    if me !in db.profiles {
      return Reply(400, "Photo deletion failed");
    }
    var profile := db.profiles[me];
    var message;
    if "type" in data && data["type"] == VStr("profile") {
      profile := profile.(profilePhoto := None);
      message := "Profile Photo deleted successfully";
    } else if "type" in data && data["type"] == VStr("cover") {
      profile := profile.(coverPhoto := None);
      message := "Cover Photo deleted successfully";
    } else {
      return Reply(400, "No valid data photo deletion Failed");
    }
    db.profiles := db.profiles[me := profile];
    reply := Reply(200, message);
  }
}
