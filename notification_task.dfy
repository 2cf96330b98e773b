/** The Celery task `send_notification` of real_time/task.py: for each receiver in list order
    it writes a notification row and then pushes the notification to the receiver's group.
    An unknown sender stops `send_notification` before anything happens; an unknown receiver stops it at
    that receiver, keeping what was done for the ones before. */
module NotificationTask {
  import opened Common
  import opened UsersModels
  import opened RealTimeModels
  import opened Store
  import opened ChannelLayer

  /** How many receivers, from the front, are known users: the loop stops at the first
      unknown one. */
  function KnownPrefix(users: map<nat, User>, receivers: seq<nat>): (k: nat)
    ensures k <= |receivers|
    ensures forall j :: 0 <= j < k ==> receivers[j] in users
    ensures k < |receivers| ==> receivers[k] !in users
  {
    if receivers == [] || receivers[0] !in users then 0
    else 1 + KnownPrefix(users, receivers[1..])
  }

  /** The rows written for the first `n` receivers, ids handed out from `start`. */
  function TaskRows(start: nat, sender: nat, kind: string, text: string, link: string,
                    receivers: seq<nat>, n: nat): (rows: seq<Notification>)
    requires n <= |receivers|
    ensures |rows| == n
  {
    if n == 0 then []
    else TaskRows(start, sender, kind, text, link, receivers, n - 1)
         + [NewNotification(start + n - 1, Some(sender), Some(receivers[n - 1]), kind, text, link)]
  }

  /** The push made for one receiver: `{type, sender, text, link}` to its group. */
  function TaskPush(groups: map<string, set<string>>, senderName: Option<string>, kind: string,
                    text: string, link: string, receiver: nat): (p: Push)
    ensures p.group == NotificationGroup(receiver) && p.recipients == Members(groups, p.group)
    ensures p.payload == NotificationData(kind, senderName, None, text, link)
  {
    Push(NotificationGroup(receiver), Members(groups, NotificationGroup(receiver)),
         NotificationData(kind, senderName, None, text, link))
  }

  /** The pushes made for the first `n` receivers. */
  function TaskPushes(groups: map<string, set<string>>, senderName: Option<string>, kind: string,
                      text: string, link: string, receivers: seq<nat>, n: nat): (ps: seq<Push>)
    requires n <= |receivers|
    ensures |ps| == n
  {
    if n == 0 then []
    else TaskPushes(groups, senderName, kind, text, link, receivers, n - 1)
         + [TaskPush(groups, senderName, kind, text, link, receivers[n - 1])]
  }

  /** The steps of the loop for the first `n` receivers: row, then push, receiver after
      receiver. */
  ghost function TaskSteps(start: nat, sender: nat, groups: map<string, set<string>>,
                           senderName: Option<string>, kind: string, text: string, link: string,
                           receivers: seq<nat>, n: nat): (steps: seq<Effect>)
    requires n <= |receivers|
  {
    if n == 0 then []
    else TaskSteps(start, sender, groups, senderName, kind, text, link, receivers, n - 1)
         + [SavedNotification(NewNotification(start + n - 1, Some(sender), Some(receivers[n - 1]), kind, text, link)),
            Pushed(TaskPush(groups, senderName, kind, text, link, receivers[n - 1]))]
  }

  /** One row per receiver, in list order, all alike but for the receiver and the id. */
  lemma {:induction false} TaskRowsAre(start: nat, sender: nat, kind: string, text: string, link: string,
                                       receivers: seq<nat>, n: nat)
    requires n <= |receivers|
    ensures var rows := TaskRows(start, sender, kind, text, link, receivers, n);
            forall j :: 0 <= j < n ==>
              rows[j] == NewNotification(start + j, Some(sender), Some(receivers[j]), kind, text, link)
  {
    if n > 0 {
      TaskRowsAre(start, sender, kind, text, link, receivers, n - 1);
    }
  }

  /** One push per receiver, in list order, each to that receiver's group with the same
      payload. */
  lemma {:induction false} TaskPushesAre(groups: map<string, set<string>>, senderName: Option<string>,
                                         kind: string, text: string, link: string, receivers: seq<nat>, n: nat)
    requires n <= |receivers|
    ensures var ps := TaskPushes(groups, senderName, kind, text, link, receivers, n);
            forall j :: 0 <= j < n ==> ps[j] == TaskPush(groups, senderName, kind, text, link, receivers[j])
  {
    if n > 0 {
      var ps := TaskPushes(groups, senderName, kind, text, link, receivers, n);
      var ps' := TaskPushes(groups, senderName, kind, text, link, receivers, n - 1);
      TaskPushesAre(groups, senderName, kind, text, link, receivers, n - 1);
      assert ps == ps' + [TaskPush(groups, senderName, kind, text, link, receivers[n - 1])];
      forall j | 0 <= j < n - 1
        ensures ps[j] == TaskPush(groups, senderName, kind, text, link, receivers[j])
      {
        assert ps[j] == ps'[j];
      }
    }
  }

  /** For each receiver its row is written before its push, and both come before the next
      receiver's: step 2j saves row j and step 2j+1 makes push j. */
  lemma {:induction false} TaskStepsOrder(start: nat, sender: nat, groups: map<string, set<string>>,
                                          senderName: Option<string>, kind: string, text: string, link: string,
                                          receivers: seq<nat>, n: nat)
    requires n <= |receivers|
    ensures var steps := TaskSteps(start, sender, groups, senderName, kind, text, link, receivers, n);
            var rows := TaskRows(start, sender, kind, text, link, receivers, n);
            var pushes := TaskPushes(groups, senderName, kind, text, link, receivers, n);
            |steps| == 2 * n
            && forall j :: 0 <= j < n ==>
                 steps[2 * j] == SavedNotification(rows[j]) && steps[2 * j + 1] == Pushed(pushes[j])
  {
    if n > 0 {
      var steps := TaskSteps(start, sender, groups, senderName, kind, text, link, receivers, n);
      var rows := TaskRows(start, sender, kind, text, link, receivers, n);
      var pushes := TaskPushes(groups, senderName, kind, text, link, receivers, n);
      var steps' := TaskSteps(start, sender, groups, senderName, kind, text, link, receivers, n - 1);
      var rows' := TaskRows(start, sender, kind, text, link, receivers, n - 1);
      var pushes' := TaskPushes(groups, senderName, kind, text, link, receivers, n - 1);
      TaskStepsOrder(start, sender, groups, senderName, kind, text, link, receivers, n - 1);
      assert steps == steps' + [SavedNotification(rows[n - 1]), Pushed(pushes[n - 1])];
      assert rows == rows' + [rows[n - 1]] && pushes == pushes' + [pushes[n - 1]];
      forall j | 0 <= j < n
        ensures steps[2 * j] == SavedNotification(rows[j]) && steps[2 * j + 1] == Pushed(pushes[j])
      {
        if j < n - 1 {
          assert steps[2 * j] == steps'[2 * j] && steps[2 * j + 1] == steps'[2 * j + 1];
          assert rows[j] == rows'[j] && pushes[j] == pushes'[j];
        }
      }
    }
  }

  lemma TaskRowsStep(start: nat, sender: nat, kind: string, text: string, link: string,
                     receivers: seq<nat>, n: nat)
    requires n < |receivers|
    ensures TaskRows(start, sender, kind, text, link, receivers, n + 1)
            == TaskRows(start, sender, kind, text, link, receivers, n)
               + [NewNotification(start + n, Some(sender), Some(receivers[n]), kind, text, link)]
  {
  }

  lemma TaskStepsStep(start: nat, sender: nat, groups: map<string, set<string>>, senderName: Option<string>,
                      kind: string, text: string, link: string, receivers: seq<nat>, i: nat)
    requires i < |receivers|
    ensures TaskSteps(start, sender, groups, senderName, kind, text, link, receivers, i + 1)
            == TaskSteps(start, sender, groups, senderName, kind, text, link, receivers, i)
               + [SavedNotification(NewNotification(start + i, Some(sender), Some(receivers[i]), kind, text, link)),
                  Pushed(TaskPush(groups, senderName, kind, text, link, receivers[i]))]
  {
  }

  /** What one iteration adds to the rows and the pushes of the iterations before. */
  lemma TaskStep(start: nat, sender: nat, groups: map<string, set<string>>, senderName: Option<string>,
                 kind: string, text: string, link: string, receivers: seq<nat>, i: nat,
                 rows0: seq<Notification>, rows: seq<Notification>, log0: seq<Push>, log: seq<Push>)
    requires i < |receivers|
    requires rows == rows0 + TaskRows(start, sender, kind, text, link, receivers, i)
                     + [NewNotification(start + i, Some(sender), Some(receivers[i]), kind, text, link)]
    requires log == log0 + TaskPushes(groups, senderName, kind, text, link, receivers, i)
                    + [TaskPush(groups, senderName, kind, text, link, receivers[i])]
    ensures rows == rows0 + TaskRows(start, sender, kind, text, link, receivers, i + 1)
    ensures log == log0 + TaskPushes(groups, senderName, kind, text, link, receivers, i + 1)
  {
    TaskRowsStep(start, sender, kind, text, link, receivers, i);
  }

  /** One iteration of the loop: the row for `receiverId`, then its push. */
  method Deliver(db: Database, layer: Layer, senderId: nat, senderName: Option<string>, kind: string,
                 text: string, link: string, receiverId: nat)
    modifies db`notifications, db`nextId, layer`log
    ensures db.nextId == old(db.nextId) + 1
    ensures db.notifications
            == old(db.notifications) + [NewNotification(old(db.nextId), Some(senderId), Some(receiverId), kind, text, link)]
    ensures layer.log == old(layer.log) + [TaskPush(layer.groups, senderName, kind, text, link, receiverId)]
  {
    var row := NewNotification(db.nextId, Some(senderId), Some(receiverId), kind, text, link);
    db.notifications := db.notifications + [row];
    db.nextId := db.nextId + 1;
    layer.GroupSend(NotificationGroup(receiverId), NotificationData(kind, senderName, None, text, link));
  }

  /** Iteration `i` of the loop, stated against the rows and pushes of the iterations
      before. */
  method DeliverNext(db: Database, layer: Layer, senderId: nat, senderName: Option<string>, kind: string,
                     text: string, link: string, receivers: seq<nat>, i: nat,
                     ghost start: nat, ghost rows0: seq<Notification>, ghost log0: seq<Push>,
                     ghost groups: map<string, set<string>>)
    requires i < |receivers| && db.nextId == start + i && layer.groups == groups
    requires db.notifications == rows0 + TaskRows(start, senderId, kind, text, link, receivers, i)
    requires layer.log == log0 + TaskPushes(groups, senderName, kind, text, link, receivers, i)
    modifies db`notifications, db`nextId, layer`log
    ensures db.nextId == start + i + 1
    ensures db.notifications == rows0 + TaskRows(start, senderId, kind, text, link, receivers, i + 1)
    ensures layer.log == log0 + TaskPushes(groups, senderName, kind, text, link, receivers, i + 1)
  {
    Deliver(db, layer, senderId, senderName, kind, text, link, receivers[i]);
    TaskStep(start, senderId, groups, senderName, kind, text, link, receivers, i,
             rows0, db.notifications, log0, layer.log);
  }

  /** The loop of `send_notification`: deliver to receivers from the front until the list ends or a
      receiver is not a known user; `i` is how many were served. */
  method DeliverAll(db: Database, layer: Layer, senderId: nat, senderName: Option<string>, kind: string,
                    text: string, link: string, receivers: seq<nat>)
    returns (i: nat, ghost steps: seq<Effect>)
    modifies db`notifications, db`nextId, layer`log
    ensures i <= |receivers| && (forall j :: 0 <= j < i ==> receivers[j] in db.users)
    ensures i < |receivers| ==> receivers[i] !in db.users
    ensures db.nextId == old(db.nextId) + i
    ensures db.notifications == old(db.notifications) + TaskRows(old(db.nextId), senderId, kind, text, link, receivers, i)
    ensures layer.log == old(layer.log) + TaskPushes(layer.groups, senderName, kind, text, link, receivers, i)
    ensures steps == TaskSteps(old(db.nextId), senderId, layer.groups, senderName, kind, text, link, receivers, i)
  {
    ghost var start, log0, rows0 := db.nextId, layer.log, db.notifications;
    ghost var groups := layer.groups;
    var users := db.users;
    ghost var known := KnownPrefix(users, receivers);
    steps := [];
    i := 0;
    while i < |receivers| && receivers[i] in users
      invariant i <= known
      invariant db.users == users && db.nextId == start + i && layer.groups == groups
      invariant db.notifications == rows0 + TaskRows(start, senderId, kind, text, link, receivers, i)
      invariant layer.log == log0 + TaskPushes(groups, senderName, kind, text, link, receivers, i)
      invariant steps == TaskSteps(start, senderId, groups, senderName, kind, text, link, receivers, i)
    {
      assert i < known;
      DeliverNext(db, layer, senderId, senderName, kind, text, link, receivers, i, start, rows0, log0, groups);
      TaskStepsStep(start, senderId, groups, senderName, kind, text, link, receivers, i);
      steps := steps + [SavedNotification(NewNotification(start + i, Some(senderId), Some(receivers[i]), kind, text, link)),
                        Pushed(TaskPush(groups, senderName, kind, text, link, receivers[i]))];
      i := i + 1;
    }
  }

  /** The number of receivers served is the known prefix of the list. */
  lemma {:induction false} KnownPrefixIs(users: map<nat, User>, receivers: seq<nat>, i: nat)
    requires i <= |receivers| && (forall j :: 0 <= j < i ==> receivers[j] in users)
    requires i < |receivers| ==> receivers[i] !in users
    ensures KnownPrefix(users, receivers) == i
  {
    if i > 0 {
      assert receivers[0] in users;
      KnownPrefixIs(users, receivers[1..], i - 1);
    }
  }

  /** The rows of `send_notification` take the next ids in turn, so the notification ids stay distinct. */
  lemma {:induction false} AddTaskRows(ns: seq<Notification>, start: nat, sender: nat, kind: string,
                                       text: string, link: string, receivers: seq<nat>, n: nat)
    requires n <= |receivers| && IdsBelow(ns, start)
    ensures IdsBelow(ns + TaskRows(start, sender, kind, text, link, receivers, n), start + n)
  {
    if n > 0 {
      var before := TaskRows(start, sender, kind, text, link, receivers, n - 1);
      AddTaskRows(ns, start, sender, kind, text, link, receivers, n - 1);
      var row := NewNotification(start + n - 1, Some(sender), Some(receivers[n - 1]), kind, text, link);
      AddNotification(ns + before, start + n - 1, row);
      assert ns + before + [row] == ns + TaskRows(start, sender, kind, text, link, receivers, n);
    }
  }

  const NoSuchUser := "Users matching query does not exist."

  /** `send_notification`. */
  method SendNotification(db: Database, layer: Layer, kind: string, text: string, link: string,
                          senderId: nat, receivers: seq<nat>)
    returns (r: Result<()>, ghost steps: seq<Effect>)
    requires db.NotificationsKeyed()
    modifies db`notifications, db`nextId, layer`log
    ensures db.NotificationsKeyed()
    ensures senderId !in db.users ==>
              r == Err(NoSuchUser) && steps == []
              && db.notifications == old(db.notifications) && db.nextId == old(db.nextId) && layer.log == old(layer.log)
    ensures senderId in db.users ==>
              var k := KnownPrefix(db.users, receivers);
              var rows := TaskRows(old(db.nextId), senderId, kind, text, link, receivers, k);
              var pushes := TaskPushes(layer.groups, db.users[senderId].username, kind, text, link, receivers, k);
              (r.Ok? <==> k == |receivers|)
              && (r.Err? ==> r.error == NoSuchUser)
              && db.notifications == old(db.notifications) + rows
              && db.nextId == old(db.nextId) + k
              && layer.log == old(layer.log) + pushes
              && steps == TaskSteps(old(db.nextId), senderId, layer.groups, db.users[senderId].username,
                                    kind, text, link, receivers, k)
  {
    if senderId !in db.users {
      return Err(NoSuchUser), [];
    }
    var i;
    i, steps := DeliverAll(db, layer, senderId, db.users[senderId].username, kind, text, link, receivers);
    KnownPrefixIs(db.users, receivers, i);
    AddTaskRows(old(db.notifications), old(db.nextId), senderId, kind, text, link, receivers, i);
    r := if i < |receivers| then Err(NoSuchUser) else Ok(());
  }

  /** With every receiver known, one row per receiver is written, all alike but for the
      receiver and the id, and an empty list writes nothing. */
  lemma AllKnownReceivers(users: map<nat, User>, receivers: seq<nat>)
    requires forall j :: 0 <= j < |receivers| ==> receivers[j] in users
    ensures KnownPrefix(users, receivers) == |receivers|
  {
  }
}
