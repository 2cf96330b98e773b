/** The two tables of real_time/models.py: chat messages and notifications, with their
    defaults and the notification ordering. Creation time is the position of a row in the
    append-only table, so "newest first" is the reverse of the table. */
module RealTimeModels {
  import opened Common

  /** A chat message. Sender and receiver are required; message and thread name may be null. */
  datatype Chat = Chat(
    id: nat,
    sender: nat,
    receiver: nat,
    message: Option<string>,
    threadName: Option<string>,
    read: bool)

  /** A notification. Sender, receiver, type, text and link may all be null. */
  datatype Notification = Notification(
    id: nat,
    sender: Option<nat>,
    receiver: Option<nat>,
    kind: Option<string>,
    text: Option<string>,
    link: Option<string>,
    seen: bool)

  /** The choices declared for `notification_type`. */
  const NotificationTypes: set<string> :=
    {"message", "friend_request", "friend_request_accept", "follow", "new_post", "new_trial"}

  /** `Chat.objects.create(...)`: `read` takes its default. */
  function NewChat(id: nat, sender: nat, receiver: nat, message: Option<string>,
                   threadName: Option<string>): (c: Chat)
    ensures c.id == id && c.sender == sender && c.receiver == receiver
    ensures c.message == message && c.threadName == threadName
    ensures !c.read
  {
    Chat(id, sender, receiver, message, threadName, false)
  }

  /** `Notification.objects.create(...)` without an explicit `seen`: it takes its default. */
  function NewNotification(id: nat, sender: Option<nat>, receiver: Option<nat>,
                           kind: string, text: string, link: string): (n: Notification)
    ensures n.id == id && n.sender == sender && n.receiver == receiver
    ensures n.kind == Some(kind) && n.text == Some(text) && n.link == Some(link)
    ensures !n.seen
  {
    Notification(id, sender, receiver, Some(kind), Some(text), Some(link), false)
  }

  /** The default ordering `-created_at` of a table kept in creation order. */
  function NewestFirst(ns: seq<Notification>): (r: seq<Notification>)
    ensures |r| == |ns|
    ensures forall i :: 0 <= i < |ns| ==> r[i] == ns[|ns| - 1 - i]
  {
    if ns == [] then [] else [ns[|ns| - 1]] + NewestFirst(ns[..|ns| - 1])
  }

  /** A row created after all others is listed first, ahead of the previous order. */
  lemma {:induction false} NewestFirstAppend(ns: seq<Notification>, n: Notification)
    ensures NewestFirst(ns + [n]) == [n] + NewestFirst(ns)
  {
    assert (ns + [n])[..|ns|] == ns;
  }

  /** Whether `n` holds a type other than the declared choices. */
  predicate UndeclaredType(n: Notification)
  {
    n.kind.Some? && n.kind.value !in NotificationTypes
  }
}
