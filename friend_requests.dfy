/** The relation rows of user_profile/models.py as they change: a friend request is created
    pending and at most once per (from, to) pair, accepting it marks it accepted and makes the
    two users friends of each other, and a player follows an academy at most once. */
module FriendRequests {
  import opened Common
  import opened ProfileModels
  import opened UsersModels
  import opened Store
  import opened PostSerializers

  const DuplicateRow := "IntegrityError"

  /** `FriendRequest.objects.create(from_user, to_user)`: a second row for the same pair
      violates `unique_together` and nothing is saved; otherwise a pending row is stored under
      the next id. */
  method CreateRequest(db: Database, from: nat, to: nat) returns (r: Result<nat>)
    requires db.RequestsUnique() && forall id :: id in db.friendRequests ==> id < db.nextId
    modifies db`friendRequests, db`nextId
    ensures db.RequestsUnique() && forall id :: id in db.friendRequests ==> id < db.nextId
    ensures RequestBetween(old(db.friendRequests), from, to) ==>
              r == Err(DuplicateRow) && db.friendRequests == old(db.friendRequests) && db.nextId == old(db.nextId)
    ensures !RequestBetween(old(db.friendRequests), from, to) ==>
              r == Ok(old(db.nextId)) && db.nextId == old(db.nextId) + 1
              && db.friendRequests == old(db.friendRequests)[old(db.nextId) := NewFriendRequest(old(db.nextId), from, to)]
  {
    if exists id :: id in db.friendRequests && db.friendRequests[id].fromUser == from && db.friendRequests[id].toUser == to {
      return Err(DuplicateRow);
    }
    var id := db.nextId;
    db.friendRequests := db.friendRequests[id := NewFriendRequest(id, from, to)];
    db.nextId := id + 1;
    r := Ok(id);
  }

  /** `FriendRequest.accept`: the row becomes accepted and each user is added to the other's
      friends. */
  method Accept(db: Database, requestId: nat)
    requires requestId in db.friendRequests
    requires db.FriendsSymmetric() && db.RequestsUnique()
    modifies db`friendRequests, db`friends
    ensures db.FriendsSymmetric() && db.RequestsUnique()
    ensures var req := old(db.friendRequests)[requestId];
            db.friendRequests == old(db.friendRequests)[requestId := req.(status := Accepted)]
            && db.friends == old(db.friends) + {(req.fromUser, req.toUser), (req.toUser, req.fromUser)}
  {
    var req := db.friendRequests[requestId];
    db.friendRequests := db.friendRequests[requestId := req.(status := Accepted)];
    db.friends := db.friends + {(req.fromUser, req.toUser)};
    db.friends := db.friends + {(req.toUser, req.fromUser)};
  }

  /** Accepting keeps the request row, so between two players the post serializer still
      reports the request ("received" for its recipient) rather than "friends". */
  lemma AcceptedStillReadsAsReceived(me: User, author: User, follows: set<Follow>,
                                     requests: map<nat, FriendRequest>, friends: set<(nat, nat)>, id: nat)
    requires id in requests && requests[id].fromUser == author.id && requests[id].toUser == me.id
    requires me.id != author.id && !me.isAcademy && !author.isAcademy
    ensures RelationshipStatus(me, author, follows, requests[id := requests[id].(status := Accepted)],
                               friends + {(author.id, me.id), (me.id, author.id)}) == "received"
  {
    var accepted := requests[id := requests[id].(status := Accepted)];
    assert id in accepted && accepted[id].fromUser == author.id && accepted[id].toUser == me.id;
  }

  /** `Follow.objects.create(player, academy)`: a second follow of the same academy by the
      same player violates `unique_together`. */
  method CreateFollow(db: Database, player: nat, academy: nat) returns (r: Result<()>)
    modifies db`follows
    ensures Follow(player, academy) in old(db.follows) ==> r == Err(DuplicateRow) && db.follows == old(db.follows)
    ensures Follow(player, academy) !in old(db.follows) ==>
              r == Ok(()) && db.follows == old(db.follows) + {Follow(player, academy)}
  {
    if Follow(player, academy) in db.follows {
      return Err(DuplicateRow);
    }
    db.follows := db.follows + {Follow(player, academy)};
    r := Ok(());
  }
}
