/** The chat and notification views of real_time/views.py: opening a thread between two users
    under a name that does not depend on who opens it, the reversed paging of a thread's
    messages, the list of chat partners, and marking or deleting notifications. */
module RealTimeViews {
  import opened Common
  import opened UsersModels
  import opened RealTimeModels
  import opened Store

  // ---------------------------------------------------------------------------
  // ChatView.create

  /** `f"chat_{a}_{b}"` with `[a, b] = sorted([sender_id, receiver_id])`, for two natural ids. */
  function ThreadName(sender: nat, receiver: nat): (r: string)
    ensures |r| >= 8 && r[..5] == "chat_" && r[|r| - 1] in "0123456789"
  {
    var lo := if sender <= receiver then sender else receiver;
    var hi := if sender <= receiver then receiver else sender;
    "chat_" + NatToString(lo) + "_" + NatToString(hi)
  }

  /** Either user may open the thread: the name is the same both ways. */
  lemma ThreadNameSymmetric(a: nat, b: nat)
    ensures ThreadName(a, b) == ThreadName(b, a)
  {
  }

  /** Different pairs of users never share a thread name. */
  lemma {:induction false} ThreadNameInjective(a: nat, b: nat, c: nat, d: nat)
    requires ThreadName(a, b) == ThreadName(c, d)
    ensures (a == c && b == d) || (a == d && b == c)
  {
    var lo1, hi1 := if a <= b then a else b, if a <= b then b else a;
    var lo2, hi2 := if c <= d then c else d, if c <= d then d else c;
    ThreadNameTail(a, b, lo1, hi1);
    ThreadNameTail(c, d, lo2, hi2);
    SplitAtSeparator(NatToString(lo1), NatToString(hi1), NatToString(lo2), NatToString(hi2), '_');
    NatToStringInjective(lo1, lo2);
    NatToStringInjective(hi1, hi2);
  }

  /** After its "chat_" prefix a thread name is the two ids joined by '_'. */
  lemma ThreadNameTail(a: nat, b: nat, lo: nat, hi: nat)
    requires lo == (if a <= b then a else b) && hi == (if a <= b then b else a)
    ensures |ThreadName(a, b)| >= 5
    ensures ThreadName(a, b)[5..] == NatToString(lo) + ['_'] + NatToString(hi)
  {
    var x, y := NatToString(lo), NatToString(hi);
    assert ThreadName(a, b) == "chat_" + (x + ['_'] + y);
  }

  /** Some chat row already carries the thread name. */
  predicate HasThread(chats: seq<Chat>, name: string)
  {
    exists i :: 0 <= i < |chats| && chats[i].threadName == Some(name)
  }

  /** The chat table after `create`: unchanged when the thread has a row, otherwise with
      `row` added. */
  function Opened(chats: seq<Chat>, name: string, row: Chat): (r: seq<Chat>)
    requires row.threadName == Some(name)
    ensures HasThread(r, name)
  {
    if HasThread(chats, name) then chats
    else
      assert (chats + [row])[|chats|] == row;
      chats + [row]
  }

  /** Opening a thread twice adds at most one row, whatever row the second call would add. */
  lemma OpenedIdempotent(chats: seq<Chat>, name: string, row: Chat, row2: Chat)
    requires row.threadName == Some(name) && row2.threadName == Some(name)
    ensures Opened(Opened(chats, name, row), name, row2) == Opened(chats, name, row)
    ensures |Opened(chats, name, row)| <= |chats| + 1
  {
  }

  // The request's ids as they arrive: `sorted` compares them with Python's `<`, the thread
  // name prints them with `str()`, and `Users.objects.get` reads them as integer keys.

  /** The name Python gives the type of a request value. */
  function TypeName(v: Value): string
  {
    match v
    case VStr(_) => "str"
    case VBool(_) => "bool"
    case VInt(_) => "int"
    case VNull => "NoneType"
    case VList(_) => "list"
  }

  /** Python's `<` on strings: code-point order, a proper prefix first. */
  predicate TextLess(a: string, b: string)
    decreases |a|
  {
    if a == [] then b != []
    else b != [] && (a[0] < b[0] || (a[0] == b[0] && TextLess(a[1..], b[1..])))
  }

  /** The order on strings is strict and total. */
  lemma {:induction false} TextLessTotal(a: string, b: string)
    ensures a != b ==> TextLess(a, b) || TextLess(b, a)
    ensures !(TextLess(a, b) && TextLess(b, a))
    decreases |a|
  {
    if a != [] && b != [] && a[0] == b[0] {
      TextLessTotal(a[1..], b[1..]);
      if a != b {
        assert a == [a[0]] + a[1..] && b == [b[0]] + b[1..];
      }
    }
  }

  /** A number in Python's sense: an int, or a bool (True is 1, False is 0). */
  predicate IsNumber(v: Value)
  {
    v.VInt? || v.VBool?
  }

  function NumberOf(v: Value): int
    requires IsNumber(v)
  {
    if v.VInt? then v.i else if v.b then 1 else 0
  }

  /** Python's `a < b` on two request values: numbers by value, strings by code points;
      any other pair raises TypeError (two lists are treated as such a pair too). */
  function PyLess(a: Value, b: Value): (r: Result<bool>)
    ensures r.Ok? <==> (IsNumber(a) && IsNumber(b)) || (a.VStr? && b.VStr?)
    ensures r.Ok? && IsNumber(a) ==> r.value == (NumberOf(a) < NumberOf(b))
    ensures r.Ok? && a.VStr? ==> r.value == TextLess(a.s, b.s)
  {
    if IsNumber(a) && IsNumber(b) then Ok(NumberOf(a) < NumberOf(b))
    else if a.VStr? && b.VStr? then Ok(TextLess(a.s, b.s))
    else Err("'<' not supported between instances of '" + TypeName(a) + "' and '" + TypeName(b) + "'")
  }

  /** `sorted([x, y])`: one comparison, `y < x`, swaps the two when it holds. */
  function SortedPair(x: Value, y: Value): (r: Result<(Value, Value)>)
    ensures r.Ok? <==> PyLess(y, x).Ok?
    ensures r.Ok? ==> r.value == (if PyLess(y, x).value then (y, x) else (x, y))
    ensures r.Err? ==> r.error == PyLess(y, x).error
  {
    match PyLess(y, x)
    case Err(e) => Err(e)
    case Ok(swap) => Ok(if swap then (y, x) else (x, y))
  }

  /** `f"chat_{user_ids[0]}_{user_ids[1]}"` after `user_ids = sorted([sender_id, receiver_id])`. */
  function ThreadNameOf(sender: Value, receiver: Value): (r: Result<string>)
    ensures r.Ok? <==> SortedPair(sender, receiver).Ok?
    ensures r.Err? ==> r.error == SortedPair(sender, receiver).error
  {
    match SortedPair(sender, receiver)
    case Err(e) => Err(e)
    case Ok((lo, hi)) => Ok("chat_" + PyStr(lo).value + "_" + PyStr(hi).value)
  }

  /** For ids sent as JSON naturals, the name is `ThreadName` of the two numbers. */
  lemma ThreadNameOfNaturals(a: nat, b: nat)
    ensures ThreadNameOf(VInt(a), VInt(b)) == Ok(ThreadName(a, b))
  {
  }

  /** Either user may open the thread, as long as both ids arrive as the same kind of value:
      two ints or two strings name it the same way both ways. */
  lemma ThreadNameOfSymmetric(x: Value, y: Value)
    requires (x.VInt? && y.VInt?) || (x.VStr? && y.VStr?)
    ensures ThreadNameOf(x, y) == ThreadNameOf(y, x)
  {
    if x.VStr? {
      TextLessTotal(x.s, y.s);
    }
  }

  /** A missing id, or an int beside a string, makes `sorted` raise. */
  lemma MissingOrMixedIdsRaise(x: Value, y: Value, i: int, t: string)
    ensures ThreadNameOf(VNull, y).Err? && ThreadNameOf(x, VNull).Err?
    ensures ThreadNameOf(VInt(i), VStr(t)).Err? && ThreadNameOf(VStr(t), VInt(i)).Err?
  {
  }

  /** Ids sent as text are sorted as text, so the same two users get a different thread name
      from a form-encoded request than from a JSON one. */
  lemma TextIdsSortAsText()
    ensures ThreadNameOf(VStr("9"), VStr("10")) == Ok("chat_10_9")
    ensures ThreadNameOf(VInt(9), VInt(10)) == Ok("chat_9_10")
  {
    assert TextLess("10", "9");
    assert SortedPair(VStr("9"), VStr("10")) == Ok((VStr("10"), VStr("9")));
    assert "chat_" + "10" + "_" + "9" == "chat_10_9";
    assert NatToString(10) == NatToString(1) + [DigitChar(0)] == "10";
    assert IntToString(9) == "9" && IntToString(10) == "10";
    assert SortedPair(VInt(9), VInt(10)) == Ok((VInt(9), VInt(10)));
    assert "chat_" + "9" + "_" + "10" == "chat_9_10";
  }

  const NoSuchUser := "Users matching query does not exist."
  const ExpectedNumber := "Field 'id' expected a number"

  /** `Users.objects.get(id=v)`: the row whose key `v` reads as; a ValueError when `v` is no
      key; DoesNotExist when no row has that key, or for null, which Django looks up as
      `id IS NULL`. */
  function UserIdOf(users: map<nat, User>, v: Value): (r: Result<nat>)
    ensures r.Ok? <==> KeyOf(v).Some? && KeyOf(v).value >= 0 && KeyOf(v).value in users
    ensures r.Ok? ==> r.value == KeyOf(v).value
    ensures r.Err? ==> r.error == (if KeyOf(v).None? && !v.VNull? then ExpectedNumber else NoSuchUser)
  {
    if v.VNull? then Err(NoSuchUser)
    else
      match KeyOf(v)
      case None => Err(ExpectedNumber)
      case Some(k) => if k >= 0 && k in users then Ok(k) else Err(NoSuchUser)
  }

  /** A user id sent as text is read as `int()` reads it: with whitespace around it, or
      with a `+` sign, it names the same row; with a `-` sign it names none. */
  lemma TextUserIds(users: map<nat, User>, pre: string, n: nat, post: string)
    requires AllSpace(pre) && AllSpace(post)
    ensures UserIdOf(users, VStr(pre + NatToString(n) + post)) == UserIdOf(users, VInt(n))
    ensures UserIdOf(users, VStr("+" + NatToString(n))) == UserIdOf(users, VInt(n))
    ensures n > 0 ==> UserIdOf(users, VStr("-" + NatToString(n))) == Err(NoSuchUser)
  {
    IntLiteralPadded(pre, NatToString(n), post);
    IntLiteralOfPrinted(n);
    IntLiteralSigned(n);
  }

  /** `ChatView.create`. The ids are sorted into the thread name first, which raises for a
      missing id or ids of different kinds. A new thread needs both users, sender first
      (otherwise `Users.objects.get` raises and nothing is saved); an existing one is only
      named. */
  method CreateThread(db: Database, senderId: Value, receiverId: Value) returns (r: Result<string>)
    modifies db`chats, db`nextId
    ensures ThreadNameOf(senderId, receiverId).Err? ==>
              r == ThreadNameOf(senderId, receiverId)
    ensures r.Err? ==> db.chats == old(db.chats) && db.nextId == old(db.nextId)
    ensures ThreadNameOf(senderId, receiverId).Ok? ==>
              var name := ThreadNameOf(senderId, receiverId).value;
              var s := UserIdOf(db.users, senderId);
              var t := UserIdOf(db.users, receiverId);
              (r.Err? <==> !HasThread(old(db.chats), name) && (s.Err? || t.Err?))
              && (r.Err? ==> r.error == (if s.Err? then s.error else t.error))
              && (r.Ok? ==> r.value == name)
              && (HasThread(old(db.chats), name) ==> db.chats == old(db.chats) && db.nextId == old(db.nextId))
              && (r.Ok? && !HasThread(old(db.chats), name) ==>
                    db.chats == old(db.chats) + [NewChat(old(db.nextId), s.value, t.value, None, Some(name))]
                    && db.nextId == old(db.nextId) + 1)
  {
    var name := ThreadNameOf(senderId, receiverId);
    if name.Err? {
      return name;
    }
    if !HasThread(db.chats, name.value) {
      var sender := UserIdOf(db.users, senderId);
      if sender.Err? {
        return Err(sender.error);
      }
      var receiver := UserIdOf(db.users, receiverId);
      if receiver.Err? {
        return Err(receiver.error);
      }
      db.chats := Opened(db.chats, name.value, NewChat(db.nextId, sender.value, receiver.value, None, Some(name.value)));
      db.nextId := db.nextId + 1;
    }
    r := Ok(name.value);
  }

  // ---------------------------------------------------------------------------
  // ChatView.list

  const PerPage: nat := 50

  /** `Paginator.num_pages`: at least one page, even for an empty thread. */
  function NumPages(count: nat): (t: nat)
    ensures t >= 1
    ensures count > 0 ==> (t - 1) * PerPage < count <= t * PerPage
  {
    if count == 0 then 1 else (count + PerPage - 1) / PerPage
  }

  datatype ChatPage = ChatPage(data: seq<Chat>, hasPrevious: bool, totalPages: nat, currentPage: nat)

  /** `ChatView.list` on the thread's messages in date order: requested page `page` is
      paginator page `T - page + 1`, so page 1 holds the newest messages. A page outside
      1..T makes `paginator.page` raise. */
  function ListPage(messages: seq<Chat>, page: int): (r: Result<ChatPage>)
    ensures r.Err? ==> r.error in {"That page number is less than 1", "That page contains no results"}
    ensures r.Ok? ==> r.value.totalPages == NumPages(|messages|) && |r.value.data| <= PerPage
    ensures r.Ok? ==> forall c :: c in r.value.data ==> c in messages
  {
    var t := NumPages(|messages|);
    var n := t - page + 1;
    if n < 1 then Err("That page number is less than 1")
    else if n > t then Err("That page contains no results")
    else
      Ok(ChatPage(messages[(n - 1) * PerPage..Min(n * PerPage, |messages|)], n > 1, t, n))
  }

  /** The answer for the query parameters `threadName` and `page`: the page text is read
      with `int()` first, then the thread's messages are paginated. */
  function ListThread(chats: seq<Chat>, name: Option<string>, page: Option<string>): (r: Result<ChatPage>)
    ensures PageNumber(page).Err? ==> r == Err(NotANumber)
    ensures r.Ok? ==> forall c :: c in r.value.data ==> c in chats && c.threadName == name
    ensures r.Ok? ==> |r.value.data| <= PerPage
  {
    match PageNumber(page)
    case Err(e) => Err(e)
    case Ok(p) => ListPage(ThreadMessages(chats, name), p)
  }

  /** Without a `page` parameter the newest page is answered, and a page sent as the text
      of `p` is page `p`. */
  lemma ListThreadPages(chats: seq<Chat>, name: Option<string>, p: int)
    ensures ListThread(chats, name, None) == ListPage(ThreadMessages(chats, name), 1)
    ensures ListThread(chats, name, Some(IntToString(p))) == ListPage(ThreadMessages(chats, name), p)
  {
    PageNumberOfPrinted(p);
  }

  /** The pages that exist are 1..T; each reports its paginator position, and has a
      previous (older) page exactly when it is not the last requested page. */
  lemma ListPageShape(messages: seq<Chat>, page: int)
    ensures var t := NumPages(|messages|);
            ListPage(messages, page).Ok? <==> 1 <= page <= t
    ensures var t := NumPages(|messages|);
            var r := ListPage(messages, page);
            r.Ok? ==> r.value.totalPages == t && r.value.currentPage == t - page + 1
                      && (r.value.hasPrevious <==> page < t)
                      && |r.value.data| <= PerPage
  {
  }

  /** Page 1 holds the newest block: a suffix of the thread ending with its latest message. */
  lemma ListPageNewest(messages: seq<Chat>)
    requires messages != []
    ensures var r := ListPage(messages, 1);
            r.Ok? && r.value.data != []
            && r.value.data == messages[|messages| - |r.value.data|..]
  {
  }

  /** Every message is on exactly one page: message `k` (oldest first) is entry `k % 50` of
      requested page `T - k / 50`. */
  lemma ListPageHolds(messages: seq<Chat>, k: nat)
    requires k < |messages|
    ensures var p := NumPages(|messages|) - k / PerPage;
            var r := ListPage(messages, p);
            r.Ok? && k % PerPage < |r.value.data| && r.value.data[k % PerPage] == messages[k]
  {
    var t := NumPages(|messages|);
    assert k / PerPage < t by {
      assert k < t * PerPage;
    }
    var n := k / PerPage + 1;
    assert (n - 1) * PerPage + k % PerPage == k;
  }

  // ---------------------------------------------------------------------------
  // ChatListView.get

  /** The users `me` has chatted with: senders of messages to `me` and receivers of messages
      from `me`, each once. */
  function ChatPartners(chats: seq<Chat>, me: nat): (r: set<nat>)
    ensures forall c :: c in chats && c.receiver == me ==> c.sender in r
    ensures forall c :: c in chats && c.sender == me ==> c.receiver in r
    ensures forall x :: x in r ==>
              exists c :: c in chats && ((c.sender == x && c.receiver == me) || (c.sender == me && c.receiver == x))
  {
    (set c | c in chats && c.receiver == me :: c.sender) + (set c | c in chats && c.sender == me :: c.receiver)
  }

  /** A user is a partner exactly when some message went between the two, in either
      direction; so the relation is symmetric. */
  lemma ChatPartnersIff(chats: seq<Chat>, me: nat, other: nat)
    ensures other in ChatPartners(chats, me) <==>
              exists c :: c in chats && ((c.sender == other && c.receiver == me)
                                         || (c.sender == me && c.receiver == other))
    ensures other in ChatPartners(chats, me) <==> me in ChatPartners(chats, other)
  {
  }

  // ---------------------------------------------------------------------------
  // NotificationViewSet

  /** The table after `seen = True` on the rows with id `id`. */
  function MarkSeen(ns: seq<Notification>, id: nat): (r: seq<Notification>)
    ensures |r| == |ns|
    ensures forall i :: 0 <= i < |ns| ==> r[i] == (if ns[i].id == id then ns[i].(seen := true) else ns[i])
  {
    if ns == [] then []
    else MarkSeen(ns[..|ns| - 1], id)
         + [if ns[|ns| - 1].id == id then ns[|ns| - 1].(seen := true) else ns[|ns| - 1]]
  }

  /** With distinct ids exactly one row, the one holding the id, changes. */
  lemma MarkSeenOne(ns: seq<Notification>, n: nat, k: nat, id: nat)
    requires IdsBelow(ns, n) && k < |ns| && ns[k].id == id
    ensures MarkSeen(ns, id) == ns[k := ns[k].(seen := true)]
  {
  }

  predicate HasId(ns: seq<Notification>, id: nat)
  {
    exists i :: 0 <= i < |ns| && ns[i].id == id
  }

  /** `mark_as_read`. The row is fetched from the whole table, not from the requester's own
      notifications, so any row can be marked. */
  method MarkAsRead(db: Database, id: nat) returns (r: Result<string>)
    requires db.NotificationsKeyed()
    modifies db`notifications
    ensures db.NotificationsKeyed()
    ensures r.Ok? <==> HasId(old(db.notifications), id)
    ensures r.Ok? ==> r.value == "notification" && db.notifications == MarkSeen(old(db.notifications), id)
    ensures r.Err? ==> r.error == "Notification matching query does not exist."
                       && db.notifications == old(db.notifications)
  {
    if !HasId(db.notifications, id) {
      return Err("Notification matching query does not exist.");
    }
    db.notifications := MarkSeen(db.notifications, id);
    r := Ok("notification");
  }

  /** The table after `update(seen=True)` on the rows addressed to `me`. */
  function MarkAllSeen(ns: seq<Notification>, me: nat): (r: seq<Notification>)
    ensures |r| == |ns|
    ensures forall i :: 0 <= i < |ns| ==>
              r[i] == (if ns[i].receiver == Some(me) then ns[i].(seen := true) else ns[i])
  {
    if ns == [] then []
    else MarkAllSeen(ns[..|ns| - 1], me)
         + [if ns[|ns| - 1].receiver == Some(me) then ns[|ns| - 1].(seen := true) else ns[|ns| - 1]]
  }

  /** Afterwards the requester has no unseen notification. */
  lemma {:induction false} MarkAllSeenClears(ns: seq<Notification>, me: nat)
    ensures UnseenCount(MarkAllSeen(ns, me), me) == 0
  {
    if ns != [] {
      MarkAllSeenClears(ns[..|ns| - 1], me);
      assert MarkAllSeen(ns, me)[..|ns| - 1] == MarkAllSeen(ns[..|ns| - 1], me);
    }
  }

  /** Every other user's unseen count is untouched. */
  lemma {:induction false} MarkAllSeenOthers(ns: seq<Notification>, me: nat, other: nat)
    requires other != me
    ensures UnseenCount(MarkAllSeen(ns, me), other) == UnseenCount(ns, other)
  {
    if ns != [] {
      MarkAllSeenOthers(ns[..|ns| - 1], me, other);
      assert MarkAllSeen(ns, me)[..|ns| - 1] == MarkAllSeen(ns[..|ns| - 1], me);
    }
  }

  /** `mark_all_as_read`. */
  method MarkAllAsRead(db: Database, me: nat) returns (message: string)
    modifies db`notifications
    ensures message == "All notification marked as read"
    ensures db.notifications == MarkAllSeen(old(db.notifications), me)
  {
    db.notifications := MarkAllSeen(db.notifications, me);
    message := "All notification marked as read";
  }

  /** The table without the rows holding id `id`, in the same order. */
  function Without(ns: seq<Notification>, id: nat): (r: seq<Notification>)
  {
    if ns == [] then []
    else Without(ns[..|ns| - 1], id) + (if ns[|ns| - 1].id == id then [] else [ns[|ns| - 1]])
  }

  /** Exactly the rows with another id remain. */
  lemma {:induction false} WithoutMembers(ns: seq<Notification>, id: nat)
    ensures forall x :: x in Without(ns, id) <==> x in ns && x.id != id
  {
    if ns != [] {
      WithoutMembers(ns[..|ns| - 1], id);
      assert ns == ns[..|ns| - 1] + [ns[|ns| - 1]];
    }
  }

  /** With distinct ids, exactly the one row holding the id goes. */
  lemma {:induction false} WithoutOne(ns: seq<Notification>, n: nat, k: nat, id: nat)
    requires IdsBelow(ns, n) && k < |ns| && ns[k].id == id
    ensures Without(ns, id) == ns[..k] + ns[k + 1..]
  {
    var t := ns[..|ns| - 1];
    if k == |ns| - 1 {
      assert forall i :: 0 <= i < |t| ==> t[i].id != id;
      WithoutNone(t, id);
      assert ns[..k] + ns[k + 1..] == t;
    } else {
      assert IdsBelow(t, n);
      WithoutOne(t, n, k, id);
      assert ns[|ns| - 1].id != id;
      assert ns[..k] + ns[k + 1..] == t[..k] + t[k + 1..] + [ns[|ns| - 1]];
    }
  }

  lemma {:induction false} WithoutNone(ns: seq<Notification>, id: nat)
    requires forall i :: 0 <= i < |ns| ==> ns[i].id != id
    ensures Without(ns, id) == ns
  {
    if ns != [] {
      WithoutNone(ns[..|ns| - 1], id);
    }
  }

  /** A notification of the requester of the given id. */
  predicate OwnsNotification(ns: seq<Notification>, me: nat, id: nat)
  {
    exists i :: 0 <= i < |ns| && ns[i].id == id && ns[i].receiver == Some(me)
  }

  /** `destroy`. The row is looked up among the requester's own notifications only: anybody
      else's id answers 404 and deletes nothing. */
  method Destroy(db: Database, me: nat, id: nat) returns (status: nat)
    requires db.NotificationsKeyed()
    modifies db`notifications
    ensures db.NotificationsKeyed()
    ensures status == 204 <==> OwnsNotification(old(db.notifications), me, id)
    ensures status == 204 ==>
              db.notifications == Without(old(db.notifications), id)
              && |db.notifications| == |old(db.notifications)| - 1
    ensures status != 204 ==> status == 404 && db.notifications == old(db.notifications)
  {
    if !OwnsNotification(db.notifications, me, id) {
      return 404;
    }
    var k :| 0 <= k < |db.notifications| && db.notifications[k].id == id
             && db.notifications[k].receiver == Some(me);
    WithoutOne(db.notifications, db.nextId, k, id);
    db.notifications := Without(db.notifications, id);
    status := 204;
  }
}
