/** The relation tables of user_profile/models.py: friend requests, follows of academies by
    players, and the academy history rows players keep on their profile. A follow is a
    (player, academy) pair, so the table holds at most one follow per pair. */
module ProfileModels {
  import opened Common

  const Pending := "pending"
  const Accepted := "accepted"

  datatype FriendRequest = FriendRequest(id: nat, fromUser: nat, toUser: nat, status: string)

  /** `FriendRequest.objects.create(from_user, to_user)`: the status takes its default. */
  function NewFriendRequest(id: nat, fromUser: nat, toUser: nat): (r: FriendRequest)
    ensures r.id == id && r.fromUser == fromUser && r.toUser == toUser
    ensures r.status == Pending
  {
    FriendRequest(id, fromUser, toUser, Pending)
  }

  /** A friend request row from `from` to `to` exists, whatever its status. */
  predicate RequestBetween(requests: map<nat, FriendRequest>, from: nat, to: nat)
  {
    exists id :: id in requests && requests[id].fromUser == from && requests[id].toUser == to
  }

  /** A follow row, identified by its (player, academy) pair. */
  datatype Follow = Follow(player: nat, academy: nat)

  datatype UserAcademy = UserAcademy(
    id: nat,
    userId: Option<nat>,
    academyId: Option<nat>,
    startMonth: Option<string>,
    startYear: Option<string>,
    endMonth: Option<string>,
    endYear: Option<string>,
    position: Option<string>,
    isCurrent: bool,
    sport: Option<string>)
}
