/** `SearchResult.get` of users/views.py: the matching users, each with its friendship and
    follow status towards the searcher, then the matching trials, the whole list ordered by
    its `count` in descending order by Python's stable sort. The text matching and the count
    annotations are the database's; they arrive as the rows the two queries return. */
module UsersSearch {
  import opened Common
  import opened UsersModels
  import opened ProfileModels

  /** A row of the annotated user query (staff accounts are already excluded). */
  datatype UserHit = UserHit(
    id: nat,
    username: Option<string>,
    isAcademy: bool,
    profilePhoto: Option<string>,
    bio: Option<string>,
    friendsCount: nat,
    followersCount: nat)

  /** A row of the annotated trial query. */
  datatype TrialHit = TrialHit(
    id: nat,
    academy: Option<nat>,
    name: Option<string>,
    image: Option<string>,
    sport: Option<string>,
    registeredCount: nat)

  /** One entry of the answer. Trials carry no friendship, follow or academy fields. */
  datatype Suggestion = Suggestion(
    id: nat,
    name: Option<string>,
    isAcademy: Option<bool>,
    photoUrl: string,
    bio: Option<string>,
    kind: string,
    count: nat,
    friendStatus: Option<string>,
    followStatus: Option<string>)

  datatype SearchReply = NoQuery | Suggestions(items: seq<Suggestion>)

  // ---------------------------------------------------------------------------
  // Statuses of one user hit

  /** A request from `from` to `to` that is still pending. */
  predicate PendingRequest(requests: map<nat, FriendRequest>, from: nat, to: nat)
  {
    exists i :: i in requests && requests[i].fromUser == from && requests[i].toUser == to
                && requests[i].status == Pending
  }

  /** `friend_status` of `other` as seen by `me`; the first matching case wins. */
  function FriendStatus(me: nat, other: nat, requests: map<nat, FriendRequest>,
                        friends: set<(nat, nat)>): (s: string)
    ensures s in {"self", "request_sent", "request_received", "friends", "none"}
    ensures s == "self" <==> other == me
  {
    if other == me then "self"
    else if PendingRequest(requests, me, other) then "request_sent"
    else if PendingRequest(requests, other, me) then "request_received"
    else if (me, other) in friends then "friends"
    else "none"
  }

  /** The precedence self > request_sent > request_received > friends > none, each case
      exactly when every earlier one fails; requests that are no longer pending count for
      nothing. */
  lemma FriendStatusPrecedence(me: nat, other: nat, requests: map<nat, FriendRequest>,
                               friends: set<(nat, nat)>)
    ensures var s := FriendStatus(me, other, requests, friends);
            (s == "self" <==> other == me)
            && (s == "request_sent" <==> other != me && PendingRequest(requests, me, other))
            && (s == "request_received" <==>
                  other != me && !PendingRequest(requests, me, other) && PendingRequest(requests, other, me))
            && (s == "friends" <==>
                  other != me && !PendingRequest(requests, me, other) && !PendingRequest(requests, other, me)
                  && (me, other) in friends)
            && (s == "none" <==>
                  other != me && !PendingRequest(requests, me, other) && !PendingRequest(requests, other, me)
                  && (me, other) !in friends)
  {
  }

  /** `follow_status`: an academy the searcher follows is "following", a player following the
      searcher is "follower", anyone else "not_following". */
  function FollowStatus(me: nat, hit: UserHit, follows: set<Follow>): (s: string)
    ensures s == "following" <==> hit.isAcademy && Follow(me, hit.id) in follows
    ensures s == "follower" <==> !hit.isAcademy && Follow(hit.id, me) in follows
  {
    if hit.isAcademy && Follow(me, hit.id) in follows then "following"
    else if !hit.isAcademy && Follow(hit.id, me) in follows then "follower"
    else "not_following"
  }

  /** `base_url + path` for a stored file, or "" when there is none. */
  function PhotoUrl(baseUrl: string, path: Option<string>): (url: string)
    ensures Filled(path) ==> url == baseUrl + path.value
    ensures !Filled(path) ==> url == ""
  {
    if Filled(path) then baseUrl + path.value else ""
  }

  /** The entry built for a user hit. */
  function UserSuggestion(me: nat, hit: UserHit, requests: map<nat, FriendRequest>,
                          friends: set<(nat, nat)>, follows: set<Follow>, baseUrl: string): (s: Suggestion)
    ensures s.id == hit.id && s.name == hit.username && s.isAcademy == Some(hit.isAcademy)
    ensures s.kind == (if hit.isAcademy then "Academy" else "Player")
    ensures s.count == (if hit.isAcademy then hit.followersCount else hit.friendsCount)
    ensures s.friendStatus == Some(FriendStatus(me, hit.id, requests, friends))
    ensures s.followStatus == Some(FollowStatus(me, hit, follows))
  {
    Suggestion(hit.id, hit.username, Some(hit.isAcademy), PhotoUrl(baseUrl, hit.profilePhoto), hit.bio,
               if hit.isAcademy then "Academy" else "Player",
               if !hit.isAcademy then hit.friendsCount else hit.followersCount,
               Some(FriendStatus(me, hit.id, requests, friends)), Some(FollowStatus(me, hit, follows)))
  }

  /** The entries for the user hits, in query order. */
  function UserSuggestions(me: nat, hits: seq<UserHit>, requests: map<nat, FriendRequest>,
                           friends: set<(nat, nat)>, follows: set<Follow>, baseUrl: string): (r: seq<Suggestion>)
    ensures |r| == |hits|
    ensures forall i :: 0 <= i < |hits| ==>
              r[i] == UserSuggestion(me, hits[i], requests, friends, follows, baseUrl)
  {
    if hits == [] then []
    else UserSuggestions(me, hits[..|hits| - 1], requests, friends, follows, baseUrl)
         + [UserSuggestion(me, hits[|hits| - 1], requests, friends, follows, baseUrl)]
  }

  // ---------------------------------------------------------------------------
  // Trial hits

  /** The trial query: an academy only finds its own trials, anyone else finds them all. */
  function TrialsFor(me: User, trials: seq<TrialHit>): (r: seq<TrialHit>)
    ensures !me.isAcademy ==> r == trials
    ensures forall t :: t in r <==> t in trials && (me.isAcademy ==> t.academy == Some(me.id))
  {
    if !me.isAcademy || trials == [] then trials
    else
      TrialsFor(me, trials[..|trials| - 1])
      + (if trials[|trials| - 1].academy == Some(me.id) then [trials[|trials| - 1]] else [])
  }

  /** The entry built for a trial hit. */
  function TrialSuggestion(t: TrialHit, baseUrl: string): (s: Suggestion)
    ensures s.id == t.id && s.name == t.name && s.bio == t.sport && s.kind == "Trial"
    ensures s.count == t.registeredCount
    ensures s.isAcademy.None? && s.friendStatus.None? && s.followStatus.None?
  {
    Suggestion(t.id, t.name, None, PhotoUrl(baseUrl, t.image), t.sport, "Trial", t.registeredCount, None, None)
  }

  function TrialSuggestions(trials: seq<TrialHit>, baseUrl: string): (r: seq<Suggestion>)
    ensures |r| == |trials|
    ensures forall i :: 0 <= i < |trials| ==> r[i] == TrialSuggestion(trials[i], baseUrl)
  {
    if trials == [] then []
    else TrialSuggestions(trials[..|trials| - 1], baseUrl) + [TrialSuggestion(trials[|trials| - 1], baseUrl)]
  }

  // ---------------------------------------------------------------------------
  // `suggestions.sort(key=count, reverse=True)`

  /** Places `x` after every entry whose count is at least its own: the stable insertion
      step of a descending sort. */
  function InsertByCount(s: seq<Suggestion>, x: Suggestion): (r: seq<Suggestion>)
    ensures |r| == |s| + 1
  {
    if s == [] then [x]
    else if s[|s| - 1].count >= x.count then s + [x]
    else InsertByCount(s[..|s| - 1], x) + [s[|s| - 1]]
  }

  /** Python's stable sort by count with `reverse=True`. */
  function SortByCount(xs: seq<Suggestion>): (r: seq<Suggestion>)
    ensures |r| == |xs|
  {
    if xs == [] then [] else InsertByCount(SortByCount(xs[..|xs| - 1]), xs[|xs| - 1])
  }

  predicate Descending(s: seq<Suggestion>)
  {
    forall i, j :: 0 <= i < j < |s| ==> s[i].count >= s[j].count
  }

  /** The entries of `s` whose count is `c`, in order. */
  function WithCount(s: seq<Suggestion>, c: nat): seq<Suggestion>
  {
    if s == [] then [] else WithCount(s[..|s| - 1], c) + (if s[|s| - 1].count == c then [s[|s| - 1]] else [])
  }

  predicate AllAtLeast(s: seq<Suggestion>, b: nat)
  {
    forall i :: 0 <= i < |s| ==> s[i].count >= b
  }

  lemma DescendingSnoc(s: seq<Suggestion>, y: Suggestion)
    requires Descending(s) && AllAtLeast(s, y.count)
    ensures Descending(s + [y])
  {
  }

  lemma DescendingPrefix(s: seq<Suggestion>)
    requires Descending(s) && s != []
    ensures Descending(s[..|s| - 1]) && AllAtLeast(s[..|s| - 1], s[|s| - 1].count)
  {
  }

  lemma {:induction false} InsertByCountAtLeast(s: seq<Suggestion>, x: Suggestion, b: nat)
    requires AllAtLeast(s, b) && x.count >= b
    ensures AllAtLeast(InsertByCount(s, x), b)
  {
    if s != [] && s[|s| - 1].count < x.count {
      var t := s[..|s| - 1];
      InsertByCountAtLeast(t, x, b);
      assert s[|s| - 1].count >= b;
    }
  }

  lemma {:induction false} InsertByCountMultiset(s: seq<Suggestion>, x: Suggestion)
    ensures multiset(InsertByCount(s, x)) == multiset(s) + multiset{x}
  {
    if s != [] && s[|s| - 1].count < x.count {
      var t := s[..|s| - 1];
      InsertByCountMultiset(t, x);
      assert s == t + [s[|s| - 1]];
    }
  }

  lemma {:induction false} InsertByCountSorted(s: seq<Suggestion>, x: Suggestion)
    requires Descending(s)
    ensures Descending(InsertByCount(s, x))
  {
    if s == [] {
    } else if s[|s| - 1].count >= x.count {
      DescendingPrefix(s);
      assert AllAtLeast(s, x.count);
      DescendingSnoc(s, x);
    } else {
      var t, last := s[..|s| - 1], s[|s| - 1];
      DescendingPrefix(s);
      InsertByCountSorted(t, x);
      InsertByCountAtLeast(t, x, last.count);
      DescendingSnoc(InsertByCount(t, x), last);
    }
  }

  /** The result is in descending order of count. */
  lemma {:induction false} SortByCountDescending(xs: seq<Suggestion>)
    ensures Descending(SortByCount(xs))
  {
    if xs != [] {
      SortByCountDescending(xs[..|xs| - 1]);
      InsertByCountSorted(SortByCount(xs[..|xs| - 1]), xs[|xs| - 1]);
    }
  }

  /** The result holds exactly the given entries. */
  lemma {:induction false} SortByCountMultiset(xs: seq<Suggestion>)
    ensures multiset(SortByCount(xs)) == multiset(xs)
  {
    if xs != [] {
      var t, y := xs[..|xs| - 1], xs[|xs| - 1];
      SortByCountMultiset(t);
      SortStepMultiset(xs, t, y, SortByCount(t));
    }
  }

  lemma SortStepMultiset(xs: seq<Suggestion>, t: seq<Suggestion>, y: Suggestion, st: seq<Suggestion>)
    requires xs == t + [y] && multiset(st) == multiset(t)
    ensures multiset(InsertByCount(st, y)) == multiset(xs)
  {
    InsertByCountMultiset(st, y);
  }

  lemma {:induction false} WithCountAppend(s: seq<Suggestion>, y: Suggestion, c: nat)
    ensures WithCount(s + [y], c) == WithCount(s, c) + (if y.count == c then [y] else [])
  {
    assert (s + [y])[..|s|] == s;
  }

  lemma {:induction false} InsertByCountStable(s: seq<Suggestion>, x: Suggestion, c: nat)
    requires Descending(s)
    ensures WithCount(InsertByCount(s, x), c) == WithCount(s, c) + (if x.count == c then [x] else [])
  {
    if s == [] {
      WithCountAppend([], x, c);
    } else if s[|s| - 1].count >= x.count {
      WithCountAppend(s, x, c);
    } else {
      var t, last := s[..|s| - 1], s[|s| - 1];
      DescendingPrefix(s);
      InsertByCountStable(t, x, c);
      StableStep(s, t, last, x, c);
    }
  }

  lemma StableStep(s: seq<Suggestion>, t: seq<Suggestion>, last: Suggestion, x: Suggestion, c: nat)
    requires s == t + [last] && last.count < x.count
    requires WithCount(InsertByCount(t, x), c) == WithCount(t, c) + (if x.count == c then [x] else [])
    ensures WithCount(InsertByCount(s, x), c) == WithCount(s, c) + (if x.count == c then [x] else [])
  {
    assert s[..|s| - 1] == t;
    assert InsertByCount(s, x) == InsertByCount(t, x) + [last];
    WithCountAppend(InsertByCount(t, x), last, c);
    WithCountAppend(t, last, c);
  }

  /** Entries with equal counts keep their original relative order. */
  lemma {:induction false} SortByCountStable(xs: seq<Suggestion>, c: nat)
    ensures WithCount(SortByCount(xs), c) == WithCount(xs, c)
  {
    if xs != [] {
      var t := xs[..|xs| - 1];
      SortByCountStable(t, c);
      SortByCountDescending(t);
      InsertByCountStable(SortByCount(t), xs[|xs| - 1], c);
    }
  }

  // ---------------------------------------------------------------------------
  // SearchResult.get

  /** The answer: the user entries, then the trial entries, sorted by count. */
  function SearchResults(me: User, userHits: seq<UserHit>, trialHits: seq<TrialHit>,
                         requests: map<nat, FriendRequest>, friends: set<(nat, nat)>,
                         follows: set<Follow>, baseUrl: string): (r: seq<Suggestion>)
    ensures |r| == |userHits| + |TrialsFor(me, trialHits)|
    ensures Descending(r)
    ensures multiset(r) == multiset(UserSuggestions(me.id, userHits, requests, friends, follows, baseUrl)
                                    + TrialSuggestions(TrialsFor(me, trialHits), baseUrl))
  {
    var all := UserSuggestions(me.id, userHits, requests, friends, follows, baseUrl)
               + TrialSuggestions(TrialsFor(me, trialHits), baseUrl);
    SortByCountDescending(all);
    SortByCountMultiset(all);
    SortByCount(all)
  }

  /** `SearchResult.get`. An empty query answers "No query provided."; otherwise the loop builds
      one entry per user hit, the trial entries are appended and the list is sorted. */
  method Search(me: User, query: string, userHits: seq<UserHit>, trialHits: seq<TrialHit>,
                requests: map<nat, FriendRequest>, friends: set<(nat, nat)>, follows: set<Follow>,
                baseUrl: string)
    returns (r: SearchReply)
    ensures query == "" <==> r == NoQuery
    ensures r.Suggestions? ==>
              r.items == SearchResults(me, userHits, trialHits, requests, friends, follows, baseUrl)
              && Descending(r.items)
              && multiset(r.items) == multiset(UserSuggestions(me.id, userHits, requests, friends, follows, baseUrl)
                                               + TrialSuggestions(TrialsFor(me, trialHits), baseUrl))
  {
    if query == "" {
      return NoQuery;
    }
    var suggestions: seq<Suggestion> := [];
    for i := 0 to |userHits|
      invariant suggestions == UserSuggestions(me.id, userHits[..i], requests, friends, follows, baseUrl)
    {
      assert userHits[..i + 1][..i] == userHits[..i];
      suggestions := suggestions + [UserSuggestion(me.id, userHits[i], requests, friends, follows, baseUrl)];
    }
    assert userHits[..|userHits|] == userHits;
    suggestions := suggestions + TrialSuggestions(TrialsFor(me, trialHits), baseUrl);
    SortByCountDescending(suggestions);
    SortByCountMultiset(suggestions);
    r := Suggestions(SortByCount(suggestions));
  }
}
