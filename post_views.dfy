/** The post actions of post/views.py: the like toggle, commenting with an optional parent
    comment, the home feed's cumulative paging and its trial top-up, and the academy
    dashboard's count of interactions with the academy's posts. */
module PostViews {
  import opened Common
  import opened PostModels
  import opened ProfileModels
  import opened TrialModels
  import opened Store

  // ---------------------------------------------------------------------------
  // PostViewSet.like

  /** Flipping one (user, post) pair: a present like is removed, an absent one added. */
  function Toggle(likes: set<Like>, l: Like): (r: set<Like>)
    ensures l in r <==> l !in likes
    ensures forall m :: m != l ==> (m in r <==> m in likes)
  {
    if l in likes then likes - {l} else likes + {l}
  }

  /** Liking twice gives back the likes one started from. */
  lemma ToggleTwice(likes: set<Like>, l: Like)
    ensures Toggle(Toggle(likes, l), l) == likes
  {
  }

  /** `like`: an existing like by the user is deleted ("unliked", 200), otherwise one is
      created ("liked", 201); a missing post gives 404 and changes nothing. */
  method LikePost(db: Database, userId: nat, postId: nat) returns (reply: Reply)
    modifies db`likes
    ensures postId !in db.posts ==> reply == Reply(404, "No post found") && db.likes == old(db.likes)
    ensures postId in db.posts ==>
              db.likes == Toggle(old(db.likes), Like(userId, postId))
              && reply == (if Like(userId, postId) in old(db.likes) then Reply(200, "unliked")
                           else Reply(201, "liked"))
  {
    if postId !in db.posts {
      return Reply(404, "No post found");
    }
    var l := Like(userId, postId);
    if l in db.likes {
      db.likes := db.likes - {l};
      return Reply(200, "unliked");
    }
    db.likes := db.likes + {l};
    reply := Reply(201, "liked");
  }

  // ---------------------------------------------------------------------------
  // PostViewSet.comment

  /** How the `parent` member of a comment request names a comment: not at all (missing or
      falsy), by the integer key `int()` reads from it (an int, `True` as 1, or a text such
      as "7", " 7" or "-5"), or by a value Django cannot turn into a key. */
  datatype ParentRef = NoParent | ParentKey(key: int) | BadKey

  function Parent(v: Option<Value>): (r: ParentRef)
    ensures v.None? || !Truthy(v.value) ==> r == NoParent
    ensures r.ParentKey? ==> v.Some?
  {
    if v.None? || !Truthy(v.value) then NoParent
    else
      match KeyOf(v.value)
      case Some(k) => ParentKey(k)
      case None => BadKey
  }

  /** What `comment` does before saving: the post must exist, a named parent must be a
      comment of that same post, and the serializer must accept the data. */
  datatype CommentOutcome =
    | PostMissing       // 404 with the DoesNotExist text
    | ParentMissing     // 400 "commment not found to reply"
    | BadParent         // 404 with the text of the conversion error
    | Rejected          // 400 with the serializer's errors
    | Accepted(parent: Option<nat>)

  function CommentDecision(posts: map<nat, Post>, comments: map<nat, Comment>, postId: nat,
                           parent: ParentRef, valid: bool): (r: CommentOutcome)
    ensures r == PostMissing <==> postId !in posts
    ensures r.Accepted? ==> valid && postId in posts
    ensures r.Accepted? && r.parent.Some? ==>
              r.parent.value in comments && comments[r.parent.value].postId == postId
  {
    if postId !in posts then PostMissing
    else
      match parent
      case BadKey => BadParent
      case ParentKey(k) =>
        if k < 0 || k !in comments || comments[k].postId != postId then ParentMissing
        else if valid then Accepted(Some(k))
        else Rejected
      case NoParent => if valid then Accepted(None) else Rejected
  }

  /** A named parent is refused exactly when no comment of the same post has that key. */
  lemma ParentMissingIff(posts: map<nat, Post>, comments: map<nat, Comment>, postId: nat,
                         key: int, valid: bool)
    requires postId in posts
    ensures CommentDecision(posts, comments, postId, ParentKey(key), valid) == ParentMissing
            <==> !(key >= 0 && key in comments && comments[key].postId == postId)
  {
  }

  /** A parent sent as text is read the way `int()` reads it: whitespace around the digits
      is ignored, and a negative key names no comment, so the answer is 400 rather than the
      404 of a conversion error. */
  lemma TextParentKeys(posts: map<nat, Post>, comments: map<nat, Comment>, postId: nat,
                       pre: string, n: nat, post: string, valid: bool)
    requires AllSpace(pre) && AllSpace(post)
    ensures Parent(Some(VStr(pre + NatToString(n) + post))) == ParentKey(n)
    ensures n > 0 && postId in posts ==>
              CommentDecision(posts, comments, postId, Parent(Some(VStr("-" + NatToString(n)))), valid)
              == ParentMissing
  {
    IntLiteralPadded(pre, NatToString(n), post);
    IntLiteralOfPrinted(n);
    IntLiteralSigned(n);
    assert (pre + NatToString(n) + post) != [];
  }

  /** The HTTP status each outcome answers with. */
  function CommentStatus(o: CommentOutcome): (status: nat)
    ensures o.Accepted? <==> status == 201
  {
    match o
    case PostMissing => 404
    case ParentMissing => 400
    case BadParent => 404
    case Rejected => 400
    case Accepted(_) => 201
  }

  /** `comment`: saves one comment row, under the next id, exactly when the decision
      accepts; a reply's parent is an older comment of the same post. */
  method CommentOn(db: Database, userId: nat, postId: nat, data: map<string, Value>,
                   valid: bool, content: Option<string>)
    returns (outcome: CommentOutcome)
    requires db.CommentsKeyed()
    modifies db`comments, db`nextId
    ensures db.CommentsKeyed()
    ensures outcome == CommentDecision(db.posts, old(db.comments), postId, Parent(Get(data, "parent")), valid)
    ensures outcome.Accepted? ==>
              db.nextId == old(db.nextId) + 1
              && db.comments == old(db.comments)[old(db.nextId) := Comment(old(db.nextId), userId, postId, outcome.parent, content)]
    ensures !outcome.Accepted? ==> db.comments == old(db.comments) && db.nextId == old(db.nextId)
  {
    outcome := CommentDecision(db.posts, db.comments, postId, Parent(Get(data, "parent")), valid);
    if outcome.Accepted? {
      var id := db.nextId;
      db.comments := db.comments[id := Comment(id, userId, postId, outcome.parent, content)];
      db.nextId := id + 1;
    }
  }

  // ---------------------------------------------------------------------------
  // PlayerHomePageView: the posts

  const PostsPerPage := 10

  /** A post belongs to the personal feed when the player wrote it, is a friend of its
      author, or follows its author. */
  predicate Personal(p: Post, me: nat, friends: set<(nat, nat)>, follows: set<Follow>)
  {
    p.userId == me || (me, p.userId) in friends || Follow(me, p.userId) in follows
  }

  function PersonalPosts(posts: map<nat, Post>, me: nat, friends: set<(nat, nat)>,
                         follows: set<Follow>): (r: set<nat>)
    ensures forall id :: id in r <==> id in posts && Personal(posts[id], me, friends, follows)
  {
    set id | id in posts && Personal(posts[id], me, friends, follows)
  }

  /** The posts the feed draws from: the recommended ones are added only while the personal
      posts number fewer than a page. */
  function FeedPool(personal: set<nat>, recommended: set<nat>): (pool: set<nat>)
    ensures personal <= pool <= personal + recommended
  {
    if |personal| < PostsPerPage then personal + recommended else personal
  }

  lemma FeedPoolMixing(personal: set<nat>, recommended: set<nat>)
    ensures |personal| >= PostsPerPage ==> FeedPool(personal, recommended) == personal
    ensures |personal| < PostsPerPage ==> FeedPool(personal, recommended) == personal + recommended
  {
  }

  datatype FeedPage<T> = FeedPage(items: seq<T>, hasMore: bool, nextPage: int)

  /** The `posts[0:end]` slice with `end = (page - 1) * 10 + 10` of a feed already in
      display order, `has_more` and the next page number. A negative end raises, as a query
      set does not take negative indices. */
  function HomeFeedPage<T>(posts: seq<T>, page: int): (r: Result<FeedPage<T>>)
    ensures r.Err? <==> page < 0
    ensures r.Ok? ==>
              |r.value.items| == Min(page * PostsPerPage, |posts|)
              && r.value.items == posts[..|r.value.items|]
              && (r.value.hasMore <==> |r.value.items| < |posts|)
              && r.value.nextPage == page + 1
  {
    var end := (page - 1) * PostsPerPage + PostsPerPage;
    if end < 0 then Err("Negative indexing is not supported.")
    else Ok(FeedPage(posts[..Min(end, |posts|)], |posts| > end, page + 1))
  }

  /** Pages are cumulative: each one starts with everything the previous one showed and
      adds up to one page more. */
  lemma FeedCumulative<T>(posts: seq<T>, page: int)
    requires page >= 0
    ensures var a := HomeFeedPage(posts, page).value;
            var b := HomeFeedPage(posts, page + 1).value;
            a.items <= b.items && |b.items| <= |a.items| + PostsPerPage
            && (a.hasMore ==> |b.items| > |a.items|)
  {
  }

  /** Once nothing more is reported, the page shows the whole feed. */
  lemma FeedComplete<T>(posts: seq<T>, page: int)
    requires page >= 0 && !HomeFeedPage(posts, page).value.hasMore
    ensures HomeFeedPage(posts, page).value.items == posts
  {
  }

  // ---------------------------------------------------------------------------
  // PlayerHomePageView: the trials

  const HomeTrialCount := 3

  /** The preferred trials: active ones by a followed academy, in one of the player's
      sports, or in the player's district (a missing district matches trials without one). */
  predicate Preferred(t: Trial, followed: set<nat>, sports: set<string>, district: Option<string>)
  {
    t.isActive
    && ((t.academy.Some? && t.academy.value in followed)
        || (t.sport.Some? && t.sport.value in sports)
        || t.district == district)
  }

  function PreferredTrials(upcoming: seq<Trial>, followed: set<nat>, sports: set<string>,
                           district: Option<string>): (r: seq<Trial>)
    ensures forall t :: t in r <==> t in upcoming && Preferred(t, followed, sports, district)
  {
    if upcoming == [] then []
    else
      PreferredTrials(upcoming[..|upcoming| - 1], followed, sports, district)
      + (if Preferred(upcoming[|upcoming| - 1], followed, sports, district) then [upcoming[|upcoming| - 1]] else [])
  }

  function TrialIds(ts: seq<Trial>): (ids: set<nat>)
    ensures forall t :: t in ts ==> t.id in ids
    ensures forall id :: id in ids ==> exists t :: t in ts && t.id == id
  {
    set t | t in ts :: t.id
  }

  /** The active trials whose ids are not in `chosen`, in order. */
  function OtherActive(upcoming: seq<Trial>, chosen: set<nat>): (r: seq<Trial>)
    ensures forall t :: t in r <==> t in upcoming && t.isActive && t.id !in chosen
  {
    if upcoming == [] then []
    else
      OtherActive(upcoming[..|upcoming| - 1], chosen)
      + (var t := upcoming[|upcoming| - 1]; if t.isActive && t.id !in chosen then [t] else [])
  }

  function Take<T>(s: seq<T>, k: nat): (r: seq<T>)
    ensures |r| == Min(k, |s|) && r == s[..|r|]
  {
    s[..Min(k, |s|)]
  }

  /** The home page's trials, given the upcoming trials in deadline order: up to three
      preferred ones, topped up with other active trials not already chosen. */
  function HomeTrials(upcoming: seq<Trial>, followed: set<nat>, sports: set<string>,
                      district: Option<string>): (r: seq<Trial>)
    ensures |r| <= HomeTrialCount
  {
    var first := Take(PreferredTrials(upcoming, followed, sports, district), HomeTrialCount);
    if |first| < HomeTrialCount then first + Take(OtherActive(upcoming, TrialIds(first)), HomeTrialCount - |first|)
    else first
  }

  /** At most three trials are shown, all active upcoming ones; the preferred ones come first,
      and a top-up trial never repeats the id of a preferred one. */
  lemma {:induction false} HomeTrialsShape(upcoming: seq<Trial>, followed: set<nat>, sports: set<string>,
                                           district: Option<string>)
    ensures var r := HomeTrials(upcoming, followed, sports, district);
            var first := Take(PreferredTrials(upcoming, followed, sports, district), HomeTrialCount);
            |r| <= HomeTrialCount
            && first <= r
            && (forall t :: t in r ==> t in upcoming && t.isActive)
            && (forall i, j :: 0 <= i < |first| <= j < |r| ==> r[i].id != r[j].id)
  {
    var preferred := PreferredTrials(upcoming, followed, sports, district);
    var first := Take(preferred, HomeTrialCount);
    var r := HomeTrials(upcoming, followed, sports, district);
    forall t | t in first ensures t in upcoming && t.isActive {
      assert t in preferred;
    }
    if |first| < HomeTrialCount {
      var more := Take(OtherActive(upcoming, TrialIds(first)), HomeTrialCount - |first|);
      assert r == first + more;
      forall i, j | 0 <= i < |first| <= j < |r| ensures r[i].id != r[j].id {
        assert r[i] == first[i] && r[j] == more[j - |first|];
        assert more[j - |first|] in OtherActive(upcoming, TrialIds(first));
      }
      forall t | t in r ensures t in upcoming && t.isActive {
        if t in more {
          assert t in OtherActive(upcoming, TrialIds(first));
        }
      }
    }
  }

  // ---------------------------------------------------------------------------
  // AcademyDashBoard: post interactions

  function AcademyPosts(posts: map<nat, Post>, academy: nat): set<nat>
  {
    set id | id in posts && posts[id].userId == academy
  }

  function LikesOn(likes: set<Like>, ids: set<nat>): set<Like>
  {
    set l | l in likes && l.postId in ids
  }

  function CommentsOn(comments: map<nat, Comment>, ids: set<nat>): set<nat>
  {
    set id | id in comments && comments[id].postId in ids
  }

  /** `total_interactions`: the likes plus the comments on the academy's posts. */
  function Interactions(posts: map<nat, Post>, likes: set<Like>, comments: map<nat, Comment>,
                        academy: nat): (r: nat)
    ensures r <= |likes| + |comments|
    ensures AcademyPosts(posts, academy) == {} ==> r == 0
  {
    var ids := AcademyPosts(posts, academy);
    SubsetCardinality(LikesOn(likes, ids), likes);
    SubsetCardinality(CommentsOn(comments, ids), comments.Keys);
    |LikesOn(likes, ids)| + |CommentsOn(comments, ids)|
  }

  /** A like on one of the academy's posts moves its interaction count by exactly one, in
      the direction of the toggle; a like elsewhere leaves it alone. */
  lemma {:induction false} ToggleInteractions(posts: map<nat, Post>, likes: set<Like>,
                                              comments: map<nat, Comment>, academy: nat, l: Like)
    ensures var before := Interactions(posts, likes, comments, academy);
            var after := Interactions(posts, Toggle(likes, l), comments, academy);
            if l.postId !in AcademyPosts(posts, academy) then after == before
            else if l in likes then after + 1 == before
            else after == before + 1
  {
    var ids := AcademyPosts(posts, academy);
    var old_ := LikesOn(likes, ids);
    var new_ := LikesOn(Toggle(likes, l), ids);
    var c := |CommentsOn(comments, ids)|;
    assert Interactions(posts, likes, comments, academy) == |old_| + c;
    assert Interactions(posts, Toggle(likes, l), comments, academy) == |new_| + c;
    if l.postId !in ids {
      assert new_ == old_;
    } else if l in likes {
      assert new_ == old_ - {l};
      assert |new_| + 1 == |old_|;
    } else {
      assert new_ == old_ + {l};
      assert |new_| == |old_| + 1;
    }
  }

  /** A new comment under a fresh id on one of the academy's posts adds one interaction. */
  lemma {:induction false} CommentInteractions(posts: map<nat, Post>, likes: set<Like>,
                                               comments: map<nat, Comment>, academy: nat, c: Comment)
    requires c.id !in comments
    ensures var before := Interactions(posts, likes, comments, academy);
            var after := Interactions(posts, likes, comments[c.id := c], academy);
            after == before + (if c.postId in AcademyPosts(posts, academy) then 1 else 0)
  {
    var ids := AcademyPosts(posts, academy);
    var old_ := CommentsOn(comments, ids);
    var new_ := CommentsOn(comments[c.id := c], ids);
    if c.postId in ids {
      assert new_ == old_ + {c.id};
    } else {
      assert new_ == old_;
    }
  }
}
