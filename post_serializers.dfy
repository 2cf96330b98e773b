/** The computed fields and the create hook of post/serializers.py: the relationship a
    viewer has with a post's author, whether the post is the viewer's own, the comment tree
    with its nested replies, and the creation of a post together with the notification job
    it hands to Celery. */
module PostSerializers {
  import opened Common
  import opened UsersModels
  import opened PostModels
  import opened ProfileModels
  import opened Store

  // ---------------------------------------------------------------------------
  // get_relationship_status

  /** `get_relationship_status` for viewer `me` and author `author`. */
  function RelationshipStatus(me: User, author: User, follows: set<Follow>,
                              requests: map<nat, FriendRequest>, friends: set<(nat, nat)>)
    : (r: string)
    ensures r in {"self", "following", "follow", "follower", "notfollower", "received", "sent", "friends", "none"}
    ensures r == "self" <==> me.id == author.id
  {
    if me.id == author.id then "self"
    else if author.isAcademy then (if Follow(me.id, author.id) in follows then "following" else "follow")
    else if me.isAcademy then (if Follow(author.id, me.id) in follows then "follower" else "notfollower")
    else if RequestBetween(requests, author.id, me.id) then "received"
    else if RequestBetween(requests, me.id, author.id) then "sent"
    else if (me.id, author.id) in friends then "friends"
    else "none"
  }

  /** The checks run in order and the first that holds decides: an academy author is
      answered by the follow table alone, an academy viewer likewise, and between two players
      a request in either direction wins over friendship. */
  lemma RelationshipPrecedence(me: User, author: User, follows: set<Follow>,
                               requests: map<nat, FriendRequest>, friends: set<(nat, nat)>)
    requires me.id != author.id
    ensures var r := RelationshipStatus(me, author, follows, requests, friends);
            (author.isAcademy ==> (r == "following" <==> Follow(me.id, author.id) in follows) && r in {"following", "follow"})
            && (!author.isAcademy && me.isAcademy ==>
                  (r == "follower" <==> Follow(author.id, me.id) in follows) && r in {"follower", "notfollower"})
            && (!author.isAcademy && !me.isAcademy ==>
                  (r == "received" <==> RequestBetween(requests, author.id, me.id))
                  && (r == "sent" <==> !RequestBetween(requests, author.id, me.id) && RequestBetween(requests, me.id, author.id))
                  && (r == "friends" <==> !RequestBetween(requests, author.id, me.id) && !RequestBetween(requests, me.id, author.id)
                                          && (me.id, author.id) in friends))
  {
  }

  /** Only the (from, to) pairs of the request rows matter: two request tables with the same
      pairs, whatever their statuses, give the same answer. */
  lemma {:induction false} RelationshipIgnoresRequestStatus(me: User, author: User, follows: set<Follow>,
                                                            requests: map<nat, FriendRequest>,
                                                            requests': map<nat, FriendRequest>,
                                                            friends: set<(nat, nat)>)
    requires requests.Keys == requests'.Keys
    requires forall id :: id in requests ==>
               requests[id].fromUser == requests'[id].fromUser && requests[id].toUser == requests'[id].toUser
    ensures RelationshipStatus(me, author, follows, requests, friends)
            == RelationshipStatus(me, author, follows, requests', friends)
  {
    assert RequestBetween(requests, author.id, me.id) <==> RequestBetween(requests', author.id, me.id) by {
      if RequestBetween(requests, author.id, me.id) {
        var id :| id in requests && requests[id].fromUser == author.id && requests[id].toUser == me.id;
        assert id in requests';
      }
      if RequestBetween(requests', author.id, me.id) {
        var id :| id in requests' && requests'[id].fromUser == author.id && requests'[id].toUser == me.id;
        assert id in requests;
      }
    }
    assert RequestBetween(requests, me.id, author.id) <==> RequestBetween(requests', me.id, author.id) by {
      if RequestBetween(requests, me.id, author.id) {
        var id :| id in requests && requests[id].fromUser == me.id && requests[id].toUser == author.id;
        assert id in requests';
      }
      if RequestBetween(requests', me.id, author.id) {
        var id :| id in requests' && requests'[id].fromUser == me.id && requests'[id].toUser == author.id;
        assert id in requests;
      }
    }
  }

  // ---------------------------------------------------------------------------
  // get_is_own_post

  /** `get_is_own_post`: the post's author is the viewer. */
  function IsOwnPost(post: Post, me: nat): (b: bool)
    ensures b <==> post.userId == me
  {
    post.userId == me
  }

  /** A post is the viewer's own exactly when the relationship field reads "self". */
  lemma OwnPostIsSelf(post: Post, me: User, author: User, follows: set<Follow>,
                      requests: map<nat, FriendRequest>, friends: set<(nat, nat)>)
    requires author.id == post.userId
    ensures IsOwnPost(post, me.id) <==> RelationshipStatus(me, author, follows, requests, friends) == "self"
  {
  }

  // ---------------------------------------------------------------------------
  // get_comments and CommentSerializer.get_replies

  /** A serialized comment with its replies. */
  datatype CommentView = CommentView(id: nat, userId: nat, parent: Option<nat>, content: Option<string>,
                                     replies: seq<CommentView>)

  /** The ids below `n`, oldest first, of the comments of `postId` whose parent is `parent`
      (the `created_at` ordering is the order of the ids). */
  function ChildIds(comments: map<nat, Comment>, postId: nat, parent: Option<nat>, n: nat): (r: seq<nat>)
    ensures forall x: nat :: x in r <==> x < n && x in comments && comments[x].postId == postId && comments[x].parent == parent
    ensures forall i :: 0 <= i < |r| ==> r[i] < n && r[i] in comments && comments[r[i]].parent == parent
  {
    if n == 0 then []
    else
      ChildIds(comments, postId, parent, n - 1)
      + (if n - 1 in comments && comments[n - 1].postId == postId && comments[n - 1].parent == parent then [n - 1] else [])
  }

  /** The ids below `n`, oldest first, of the replies of comment `parent`, whatever post
      they belong to (`obj.replies.all()` filters on the parent only). */
  function ReplyIds(comments: map<nat, Comment>, parent: nat, n: nat): (r: seq<nat>)
    ensures forall x: nat :: x in r <==> x < n && x in comments && comments[x].parent == Some(parent)
    ensures forall i :: 0 <= i < |r| ==> r[i] < n && r[i] in comments && comments[r[i]].parent == Some(parent)
  {
    if n == 0 then []
    else
      ReplyIds(comments, parent, n - 1)
      + (if n - 1 in comments && comments[n - 1].parent == Some(parent) then [n - 1] else [])
  }

  /** Every reply of a view names that view's comment as its parent, all the way down. */
  predicate Nested(v: CommentView)
    decreases v
  {
    forall i :: 0 <= i < |v.replies| ==> v.replies[i].parent == Some(v.id) && Nested(v.replies[i])
  }

  /** One comment and, recursively, its replies. A reply is newer than its parent, so the
      distance to `n` shrinks on the way down. */
  function Thread(comments: map<nat, Comment>, id: nat, n: nat): (v: CommentView)
    requires CommentsBelow(comments, n) && id in comments
    ensures v.id == id && v.parent == comments[id].parent && v.userId == comments[id].userId
    ensures Nested(v)
    ensures v.replies == [] <==> forall x :: x in comments ==> comments[x].parent != Some(id)
    ensures |v.replies| == |ReplyIds(comments, id, n)|
    ensures forall i :: 0 <= i < |v.replies| ==> v.replies[i].id == ReplyIds(comments, id, n)[i]
    decreases n - id, 0
  {
    var kids := ReplyIds(comments, id, n);
    assert forall i :: 0 <= i < |kids| ==> kids[i] in comments && comments[kids[i]].parent == Some(id);
    assert forall i :: 0 <= i < |kids| ==> id < kids[i];
    var vs := Threads(comments, kids, id + 1, n);
    assert forall i :: 0 <= i < |vs| ==> vs[i].parent == comments[kids[i]].parent == Some(id);
    CommentView(id, comments[id].userId, comments[id].parent, comments[id].content, vs)
  }

  /** Every reply of a comment is listed under it, whichever post the reply belongs to. */
  lemma {:induction false} ThreadListsEveryReply(comments: map<nat, Comment>, id: nat, n: nat, x: nat)
    requires CommentsBelow(comments, n) && id in comments
    requires x in comments && comments[x].parent == Some(id)
    ensures exists i :: 0 <= i < |Thread(comments, id, n).replies|
                        && Thread(comments, id, n).replies[i].id == x
  {
    var kids := ReplyIds(comments, id, n);
    var v := Thread(comments, id, n);
    assert x in kids;
    var i :| 0 <= i < |kids| && kids[i] == x;
    assert 0 <= i < |v.replies| && v.replies[i].id == x;
  }

  /** The views of the comments `ids`, all newer than `lo`, in the order given. */
  function Threads(comments: map<nat, Comment>, ids: seq<nat>, lo: nat, n: nat): (vs: seq<CommentView>)
    requires CommentsBelow(comments, n) && lo <= n
    requires forall i :: 0 <= i < |ids| ==> ids[i] in comments && lo <= ids[i]
    ensures |vs| == |ids|
    ensures forall i :: 0 <= i < |ids| ==>
              vs[i].id == ids[i] && vs[i].parent == comments[ids[i]].parent && Nested(vs[i])
    decreases n - lo, |ids| + 1
  {
    if ids == [] then []
    else [Thread(comments, ids[0], n)] + Threads(comments, ids[1..], lo, n)
  }

  /** `get_comments`: the comments of the post without a parent, each with its replies. */
  function PostComments(comments: map<nat, Comment>, postId: nat, n: nat): (vs: seq<CommentView>)
    requires CommentsBelow(comments, n)
    ensures forall i :: 0 <= i < |vs| ==> vs[i].parent.None? && Nested(vs[i])
  {
    var top := ChildIds(comments, postId, None, n);
    Threads(comments, top, 0, n)
  }

  /** Every top-level comment of the post appears in the list, and only those. */
  lemma {:induction false} PostCommentsAreTopLevel(comments: map<nat, Comment>, postId: nat, n: nat)
    requires CommentsBelow(comments, n)
    ensures forall x :: x in comments && comments[x].postId == postId && comments[x].parent.None? <==>
              exists i :: 0 <= i < |PostComments(comments, postId, n)| && PostComments(comments, postId, n)[i].id == x
  {
    var top := ChildIds(comments, postId, None, n);
    var vs := PostComments(comments, postId, n);
    forall x | x in comments && comments[x].postId == postId && comments[x].parent.None?
      ensures exists i :: 0 <= i < |vs| && vs[i].id == x
    {
      assert x < n;
      assert x in top;
      var i :| 0 <= i < |top| && top[i] == x;
      assert vs[i].id == x;
    }
    forall x | exists i :: 0 <= i < |vs| && vs[i].id == x
      ensures x in comments && comments[x].postId == postId && comments[x].parent.None?
    {
      var i :| 0 <= i < |vs| && vs[i].id == x;
      assert top[i] in top;
    }
  }

  // ---------------------------------------------------------------------------
  // PostSerializer.create

  /** Who hears of a new post: the academy's followers, or the player's friends. */
  function PostRecipients(author: User, follows: set<Follow>, friends: set<(nat, nat)>, n: nat): (r: seq<nat>)
    ensures author.isAcademy ==> forall x: nat :: x in r <==> x < n && Follow(x, author.id) in follows
    ensures !author.isAcademy ==> forall x: nat :: x in r <==> x < n && (author.id, x) in friends
  {
    if author.isAcademy then FollowerIds(follows, author.id, n) else FriendIds(friends, author.id, n)
  }

  /** The job `create` enqueues for the post `postId` by `author`. */
  function NewPostJob(author: User, postId: nat, receivers: seq<nat>): Job
  {
    AnnounceJob("new_post", author, "post", "/view_post_details/", postId, receivers)
  }

  /** `create`: one post row under the next id and exactly one notification job. */
  method CreatePost(db: Database, userId: nat, content: Option<string>) returns (postId: nat)
    requires userId in db.users
    modifies db`posts, db`nextId, db`jobs
    ensures postId == old(db.nextId) && db.nextId == postId + 1
    ensures db.posts == old(db.posts)[postId := Post(postId, userId, content)]
    ensures db.jobs == old(db.jobs)
                       + [NewPostJob(db.users[userId], postId,
                                     PostRecipients(db.users[userId], db.follows, db.friends, old(db.nextId)))]
  {
    var user := db.users[userId];
    postId := db.nextId;
    db.posts := db.posts[postId := Post(postId, userId, content)];
    db.nextId := db.nextId + 1;
    var receivers := PostRecipients(user, db.follows, db.friends, postId);
    db.jobs := db.jobs + [NewPostJob(user, postId, receivers)];
  }
}
