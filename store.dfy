/** The database every view works on: one field per ORM table. Tables whose rows are found by
    id are maps keyed by that id (profiles and academy rows are keyed by their user's id);
    tables read in creation order are sequences; the like, follow and friendship relations
    are sets of pairs. Background tasks handed to Celery are appended to `jobs`, and `nextId`
    is the next primary key handed out. */
module Store {
  import opened Common
  import opened UsersModels
  import opened RealTimeModels
  import opened PostModels
  import opened ProfileModels
  import opened TrialModels

  /** A `.delay(...)` call: the Celery job and the arguments it was given. */
  datatype Job =
    | SendOtp(email: string)
    | SendNotification(kind: string, text: string, link: string, senderId: nat, receivers: seq<nat>)
    | TrialCancellationMail(recipients: seq<Option<string>>, trialName: Option<string>,
                            academyName: Option<string>, reason: Option<string>)
    | StatusMail(playerEmail: Option<string>, trialName: Option<string>, selected: bool)
    | CertificationAlert(approved: bool, recipient: string)

  /** The `send_notification` job announcing a new row: the text "<username> added a new
      <what>", a link to `page` followed by the row's id, from `author` to `receivers`. */
  function AnnounceJob(kind: string, author: User, what: string, page: string, id: nat,
                       receivers: seq<nat>): (j: Job)
    ensures j.SendNotification? && j.kind == kind && j.senderId == author.id && j.receivers == receivers
    ensures j.text == OptionText(author.username) + " added a new " + what
    ensures j.link == page + NatToString(id)
  {
    SendNotification(kind, OptionText(author.username) + " added a new " + what, page + NatToString(id),
                     author.id, receivers)
  }

  /** Announcements of two different rows link to different pages. */
  lemma {:induction false} AnnouncementsDiffer(kind: string, author: User, what: string, page: string,
                                               id: nat, id': nat, receivers: seq<nat>)
    requires id != id'
    ensures AnnounceJob(kind, author, what, page, id, receivers).link
            != AnnounceJob(kind, author, what, page, id', receivers).link
  {
    var a, b := AnnounceJob(kind, author, what, page, id, receivers), AnnounceJob(kind, author, what, page, id', receivers);
    if a.link == b.link {
      assert a.link[|page|..] == NatToString(id);
      assert b.link[|page|..] == NatToString(id');
      NatToStringInjective(id, id');
    }
  }

  class Database {
    var users: map<nat, User>
    var profiles: map<nat, UserProfile>
    var academies: map<nat, Academy>
    var sports: seq<SportRow>
    var friends: set<(nat, nat)>
    var friendRequests: map<nat, FriendRequest>
    var follows: set<Follow>
    var userAcademies: map<nat, UserAcademy>
    var posts: map<nat, Post>
    var comments: map<nat, Comment>
    var likes: set<Like>
    var chats: seq<Chat>
    var notifications: seq<Notification>
    var trials: map<nat, Trial>
    var requirements: seq<Requirement>
    var registrations: map<nat, Registration>
    var details: seq<Detail>
    var jobs: seq<Job>
    var nextId: nat

    /** An empty database. */
    constructor ()
      ensures users == map[] && profiles == map[] && academies == map[] && sports == []
      ensures friends == {} && friendRequests == map[] && follows == {} && userAcademies == map[]
      ensures posts == map[] && comments == map[] && likes == {}
      ensures chats == [] && notifications == []
      ensures trials == map[] && requirements == [] && registrations == map[] && details == []
      ensures jobs == [] && nextId == 0
    {
      users, profiles, academies, sports := map[], map[], map[], [];
      friends, friendRequests, follows, userAcademies := {}, map[], {}, map[];
      posts, comments, likes := map[], map[], {};
      chats, notifications := [], [];
      trials, requirements, registrations, details := map[], [], map[], [];
      jobs, nextId := [], 0;
    }

    /** Every user row is stored under its own id, below `nextId`. */
    ghost predicate UsersKeyed()
      reads this
    {
      KeyedBelow(users, nextId)
    }

    /** No two users share an e-mail address (the field is unique). */
    ghost predicate EmailsUnique()
      reads this
    {
      UniqueEmails(users)
    }

    /** Notification ids are distinct and below `nextId`. */
    ghost predicate NotificationsKeyed()
      reads this
    {
      IdsBelow(notifications, nextId)
    }

    /** Comment rows are stored under their own ids, below `nextId`, and a reply is newer
        than the comment it answers. */
    ghost predicate CommentsKeyed()
      reads this
    {
      CommentsBelow(comments, nextId)
    }

    /** The friends relation is symmetric (`symmetrical=True`). */
    ghost predicate FriendsSymmetric()
      reads this
    {
      forall a, b :: (a, b) in friends ==> (b, a) in friends
    }

    /** At most one friend request per (from_user, to_user) pair. */
    ghost predicate RequestsUnique()
      reads this
    {
      forall i, j ::
        (i in friendRequests && j in friendRequests
         && friendRequests[i].fromUser == friendRequests[j].fromUser
         && friendRequests[i].toUser == friendRequests[j].toUser) ==> i == j
    }
  }

  ghost predicate KeyedBelow(users: map<nat, User>, n: nat)
  {
    forall id :: id in users ==> users[id].id == id && id < n
  }

  ghost predicate UniqueEmails(users: map<nat, User>)
  {
    forall a, b :: a in users && b in users && users[a].email == users[b].email ==> a == b
  }

  ghost predicate CommentsBelow(comments: map<nat, Comment>, n: nat)
  {
    forall id :: id in comments ==>
      comments[id].id == id && id < n
      && (comments[id].parent.Some? ==> comments[id].parent.value < id)
  }

  ghost predicate IdsBelow(ns: seq<Notification>, n: nat)
  {
    (forall i :: 0 <= i < |ns| ==> ns[i].id < n)
    && forall i, j :: 0 <= i < j < |ns| ==> ns[i].id != ns[j].id
  }

  /** Appending a row with the next id keeps the notification ids distinct. */
  lemma AddNotification(ns: seq<Notification>, n: nat, row: Notification)
    requires IdsBelow(ns, n) && row.id == n
    ensures IdsBelow(ns + [row], n + 1)
  {
  }

  /** Saving a new row under the next id with an unused address keeps both invariants. */
  lemma AddUser(users: map<nat, User>, n: nat, u: User)
    requires KeyedBelow(users, n) && UniqueEmails(users)
    requires u.id == n && forall id :: id in users ==> users[id].email != u.email
    ensures KeyedBelow(users[n := u], n + 1) && UniqueEmails(users[n := u])
  {
  }

  /** Saving changes to an existing row that keep its id and address keeps both invariants. */
  lemma UpdateUser(users: map<nat, User>, n: nat, u: User)
    requires KeyedBelow(users, n) && UniqueEmails(users)
    requires u.id in users && users[u.id].email == u.email
    ensures KeyedBelow(users[u.id := u], n) && UniqueEmails(users[u.id := u])
  {
  }

  /** `Users.objects.filter(email=e).first()` over ids below `n`: the lowest id holding `e`. */
  function FindByEmail(users: map<nat, User>, email: string, n: nat): (r: Option<nat>)
    ensures r.Some? ==> r.value < n && r.value in users && users[r.value].email == email
    ensures r.Some? ==> forall id :: id < r.value && id in users ==> users[id].email != email
    ensures r.None? ==> forall id :: id < n && id in users ==> users[id].email != email
  {
    if n == 0 then None
    else
      match FindByEmail(users, email, n - 1)
      case Some(id) => Some(id)
      case None =>
        if n - 1 in users && users[n - 1].email == email then Some(n - 1) else None
  }

  /** With every row keyed below `n`, the search finds an owner exactly when there is one. */
  lemma FindByEmailComplete(users: map<nat, User>, email: string, n: nat)
    requires forall id :: id in users ==> id < n
    ensures FindByEmail(users, email, n).Some?
            <==> exists id :: id in users && users[id].email == email
  {
  }

  /** Number of rows in `ns` addressed to `receiver` that have not been seen. */
  function UnseenCount(ns: seq<Notification>, receiver: nat): (c: nat)
    ensures c <= |ns|
  {
    if ns == [] then 0
    else UnseenCount(ns[..|ns| - 1], receiver)
         + (if ns[|ns| - 1].receiver == Some(receiver) && !ns[|ns| - 1].seen then 1 else 0)
  }

  lemma {:induction false} UnseenCountAppend(ns: seq<Notification>, n: Notification, receiver: nat)
    ensures UnseenCount(ns + [n], receiver)
            == UnseenCount(ns, receiver) + (if n.receiver == Some(receiver) && !n.seen then 1 else 0)
  {
    assert (ns + [n])[..|ns|] == ns;
  }

  /** `Chat.objects.filter(thread_name=name)`, in creation order; a missing name (None)
      selects the chats whose thread name is NULL. */
  function ThreadMessages(chats: seq<Chat>, name: Option<string>): (r: seq<Chat>)
    ensures |r| <= |chats|
    ensures forall c :: c in r ==> c in chats && c.threadName == name
    ensures forall c :: c in chats && c.threadName == name ==> c in r
    ensures forall c: Chat {:trigger multiset(r)[c]} :: c.threadName == name ==> multiset(r)[c] == multiset(chats)[c]
    ensures multiset(r) <= multiset(chats)
  {
    if chats == [] then []
    else
      assert chats == chats[..|chats| - 1] + [chats[|chats| - 1]];
      ThreadMessages(chats[..|chats| - 1], name)
      + (if chats[|chats| - 1].threadName == name then [chats[|chats| - 1]] else [])
  }

  /** The filter keeps creation order: the messages of a longer log are those of its prefix
      followed by those of the rest. */
  lemma {:induction false} ThreadMessagesAppend(a: seq<Chat>, b: seq<Chat>, name: Option<string>)
    ensures ThreadMessages(a + b, name) == ThreadMessages(a, name) + ThreadMessages(b, name)
    decreases |b|
  {
    if b == [] {
      assert a + b == a && ThreadMessages(b, name) == [];
    } else {
      var b', x := b[..|b| - 1], b[|b| - 1];
      var tail := if x.threadName == name then [x] else [];
      assert (a + b)[..|a + b| - 1] == a + b' && (a + b)[|a + b| - 1] == x;
      assert ThreadMessages(a + b, name) == ThreadMessages(a + b', name) + tail;
      assert ThreadMessages(b, name) == ThreadMessages(b', name) + tail;
      ThreadMessagesAppend(a, b', name);
      AppendAssociative(ThreadMessages(a, name), ThreadMessages(b', name), tail);
    }
  }

  lemma AppendAssociative<T>(x: seq<T>, y: seq<T>, z: seq<T>)
    ensures x + y + z == x + (y + z)
  {
    assert forall i :: 0 <= i < |x| + |y| + |z| ==> (x + y + z)[i] == (x + (y + z))[i];
  }

  /** `Follow.objects.filter(academy=a).values_list("player__id")`: the followers of `a`
      among the ids below `n`, in id order. */
  function FollowerIds(follows: set<Follow>, academy: nat, n: nat): (r: seq<nat>)
    ensures forall x: nat :: x in r <==> x < n && Follow(x, academy) in follows
    ensures forall i :: 0 <= i < |r| ==> r[i] < n
    ensures forall i, j :: 0 <= i < j < |r| ==> r[i] < r[j]
  {
    if n == 0 then []
    else FollowerIds(follows, academy, n - 1) + (if Follow(n - 1, academy) in follows then [n - 1] else [])
  }

  /** `user.friends.values_list("id")`: the friends of `user` among the ids below `n`, in id
      order. */
  function FriendIds(friends: set<(nat, nat)>, user: nat, n: nat): (r: seq<nat>)
    ensures forall x: nat :: x in r <==> x < n && (user, x) in friends
    ensures forall i :: 0 <= i < |r| ==> r[i] < n
    ensures forall i, j :: 0 <= i < j < |r| ==> r[i] < r[j]
  {
    if n == 0 then []
    else FriendIds(friends, user, n - 1) + (if (user, n - 1) in friends then [n - 1] else [])
  }
}
